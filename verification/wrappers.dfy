/** The absent-or-present value used for optional record fields and for
    lookups that may find nothing (`undefined` / `null` in the store). */
module Wrappers {

  datatype Option<+T> = None | Some(value: T)
}
