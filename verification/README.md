# Certificate store: a verified Dafny model

This project models `src/data/certificates.ts`, the in-memory certificate
store of a certificate-verification web front end. The store is one ordered
list of certificate records. It starts from four sample records. It can list
records, look one up by identifier or certificate number, create one under a
freshly minted identifier, merge a partial record into one, delete one, and
validate one: not found, revoked, expired or valid.

Layout:

- `wrappers.dfy` (`Wrappers`): the `Option` type used for optional fields and
  absent results.
- `certificates.dfy` (`Certificates`): the `Certificate` record with its
  `Status`, the creation input (every field but `id`), the partial record
  `CertificatePatch` and the spread-merge `Merge`, the identifier format
  `MintedId`, and the sample list `MockCertificates`.
- `search.dfy` (`Search`): reference definitions of the three scans: `find`
  by identifier or number (`Lookup`), `findIndex` by identifier
  (`IndexOfId`, -1 when absent), and `filter` by identifier (`WithoutId`).
- `validation.dfy` (`Validation`): `validateCertificate` as the pure
  function `Validate` with its precedence lemmas.
- `store.dfy` (`Store`): the class `CertificateStore`. Its field
  `certificates` is the module-level list. Its methods are the store
  operations. Each is proved against the reference definitions above.
- `properties.dfy` (`StoreProperties`): what a lookup sees after each
  change, identifier uniqueness, and the sample-record scenarios.

Dates are abstracted. A record keeps its expiry date as the string it
stores. `Validate` takes the current moment `now` as an integer. It also
takes `parseDate`, which maps a date string to an integer moment, or to
`None` for an invalid date. An invalid date compares false against any
moment, and an empty string is falsy, so neither counts as past expiry.

Identifier minting is abstracted too. `AddCertificate` takes the three
random tokens as parameters. It builds `cert-<t1>-<t2>-<t3>` from them.

Some consequences of the code that a reader might not expect:

- A lookup after a delete can still find a surviving record whose
  certificate number is the deleted identifier, because the lookup matches
  certificate numbers as well as identifiers (`StoreProperties.GetAfterDelete`).
- A delete removes every record with the identifier, so it shrinks the list
  by as many records as carry that identifier (`Search.WithoutIdLength`):
  by exactly one when one record has it, in particular when identifiers are
  unique (`Search.WithoutUniqueId`), and by more when several share it.
- A random token is at most four base-36 digits and can be shorter, since
  `substring(2, 6)` of a short base-36 rendering has fewer characters. The
  model accepts tokens of any length; the injectivity lemma assumes at most four.
- The lookup is one scan that tests both fields of each record, so an
  earlier certificate-number match wins over a later identifier match
  (`Search.Lookup`).

## Model

| member | source | states |
|---|---|---|
| `Certificates.WithId` | src/data/certificates.ts:78 | the created record has the minted identifier and exactly the caller's other fields (stripping the identifier gives the input back) |
| `Certificates.StripIdRoundTrip` | src/data/certificates.ts:76-78 | a record is its identifier plus the fields a caller supplies: the other half of the round trip with `WithId` |
| `Certificates.Merge` | src/data/certificates.ts:86 | a merged record keeps its identifier, and the empty partial record changes nothing |
| `Certificates.MergeFields` | src/data/certificates.ts:86 | for each of the nine non-identifier fields, a value present in the partial record overwrites the stored one and an absent one keeps the old value |
| `Certificates.MergeComposes` | src/data/certificates.ts:86 | two updates in a row equal one update where the later values win, and repeating an update is idempotent |
| `Certificates.MintedId` | src/data/certificates.ts:77 | a minted identifier starts with `cert-` and is seven characters longer than its three tokens together |
| `Certificates.MintedIdInjective` | src/data/certificates.ts:77 | identifiers minted from base-36 tokens of at most four characters are equal only when all three tokens are equal |
| `Search.MatchesIdentifier` | src/data/certificates.ts:73 | a record matches a key when its identifier or its certificate number equals the key |
| `Search.Lookup` | src/data/certificates.ts:73 | the result is absent exactly when no record matches by identifier or number; otherwise it is the record at the smallest matching index |
| `Search.LookupAt` | src/data/certificates.ts:73 | the lookup returns the record at whichever index is the first match |
| `Search.IndexOfId` | src/data/certificates.ts:84 | the result is -1 exactly when no record has the identifier; otherwise it is the smallest index whose identifier matches |
| `Search.WithoutId` | src/data/certificates.ts:96 | no record of the filtered list has the identifier, it is never longer, and it is the list itself when nothing matches |
| `Search.WithoutIdSnoc` | src/data/certificates.ts:96 | filtering keeps the survivors in order: one more record at the end is kept at the end or dropped |
| `Search.WithoutIdMembers` | src/data/certificates.ts:96 | a record is in the filtered list exactly when it is in the list and its identifier differs |
| `Search.WithoutIdMultiset` | src/data/certificates.ts:96 | the filtered list holds every record whose identifier differs exactly as many times as the list does, and nothing else |
| `Search.CountId` | src/data/certificates.ts:96 | the number of records with the identifier is at most the length, and zero exactly when no record has it |
| `Search.WithoutIdLength` | src/data/certificates.ts:96 | filtering shortens the list by exactly the number of records with the identifier |
| `Search.WithoutUniqueId` | src/data/certificates.ts:92-100 | with unique identifiers, filtering out the record at index k equals removing index k: one shorter, order kept |
| `Search.WithoutIdKeepsUnique` | src/data/certificates.ts:96 | filtering keeps identifiers unique |
| `Search.LookupAppend` | src/data/certificates.ts:72-81 | appending a record leaves every earlier first match in place; the new record is found only for a key nothing earlier matches |
| `Search.IdMatchIsFound` | src/data/certificates.ts:72-84 | a key that update or delete finds as an identifier is also found by the lookup, at or before that index |
| `Validation.PastExpiry` | src/data/certificates.ts:123 | the date test: the expiry date is present, non-empty, parses, and lies strictly before now |
| `Validation.IsExpired` | src/data/certificates.ts:122-123 | the expiry test: the status is expired or the date test holds |
| `Validation.Validate` | src/data/certificates.ts:102-136 | the attached record is the lookup's result; the message is not-found exactly when nothing was attached, revoked exactly when the record is revoked, expired exactly when it is not revoked and its status or date says expired, and valid exactly when `isValid` |
| `Validation.ValidIff` | src/data/certificates.ts:122-135 | `isValid` holds exactly when the first matching record is active and its expiry date is absent, empty, unparseable or not before now |
| `Validation.NotFound` | src/data/certificates.ts:107-112 | an unknown key gives `isValid` false, no record and "Certificate not found." |
| `Validation.RevocationPrecedesExpiry` | src/data/certificates.ts:114-120 | a revoked first match reports revoked at every moment, whatever its expiry date |
| `Validation.ExpiredStatusPrecedesDate` | src/data/certificates.ts:122-129 | a first match whose status is expired reports expired at every moment, whatever its date |
| `Validation.DateExpiry` | src/data/certificates.ts:122-129 | an active first match whose expiry date has passed reports expired with that record attached |
| `Validation.InvalidStaysInvalid` | src/data/certificates.ts:122-123 | an answer that is not valid at some moment is the same answer at every later moment |
| `Store.CertificateStore.constructor` | src/data/certificates.ts:66 | the store starts as the four sample records, in order |
| `Store.CertificateStore.GetCertificates` | src/data/certificates.ts:68-70 | returns the current list, in order, and changes nothing |
| `Store.CertificateStore.GetCertificate` | src/data/certificates.ts:72-74 | the scan returns the first record matching by identifier or number, or nothing, and changes nothing |
| `Store.CertificateStore.FindIndex` | src/data/certificates.ts:84 | the scan returns the first index with the identifier, or -1, and changes nothing |
| `Store.CertificateStore.FilterOutId` | src/data/certificates.ts:96 | the scan builds the filtered list of the current records and changes nothing |
| `Store.CertificateStore.AddCertificate` | src/data/certificates.ts:76-81 | the list grows by the returned record at the end, earlier records unchanged; the record is the input plus the minted identifier; identifiers stay unique when the new one is new |
| `Store.CertificateStore.UpdateCertificate` | src/data/certificates.ts:83-90 | only the first index with the identifier changes, to the merged record, which is returned; length and every identifier are kept; no match returns nothing and changes nothing |
| `Store.CertificateStore.DeleteCertificate` | src/data/certificates.ts:92-100 | on a match, returns the first record with the identifier and leaves the list filtered of every such record; no match returns nothing and changes nothing |
| `StoreProperties.GetAfterAdd` | src/data/certificates.ts:72-81 | after a create the new identifier is found, and it is the new record unless an earlier record already matches that key |
| `Search.AddKeepsUnique` | src/data/certificates.ts:76-79 | appending a record with a new identifier keeps identifiers unique |
| `StoreProperties.GetAfterUpdate` | src/data/certificates.ts:83-90 | after an update the lookup of the identifier returns the merged record, unless an earlier record has that identifier as its number |
| `StoreProperties.GetAfterDelete` | src/data/certificates.ts:92-100 | after a delete no record has the identifier; the lookup finds nothing exactly when no survivor has it as its certificate number |
| `Certificates.MockCertificates` | src/data/certificates.ts:16-63 | the four sample records, field by field and in order |
| `StoreProperties.MockCertificatesDistinct` | src/data/certificates.ts:16-63 | the sample identifiers are distinct and none is also a sample certificate number |
| `StoreProperties.NumberMatchesOnlyForLookup` | src/data/certificates.ts:72-84 | a sample certificate number is found by the lookup but not by the identifier-only index search that update and delete use |
| `StoreProperties.MockExpiredAlwaysExpired` | src/data/certificates.ts:40-51 | "TA-DO-2022-073" reports expired at every moment, under every date parser |
| `StoreProperties.MockActiveAlwaysValid` | src/data/certificates.ts:29-39 | "DI-UX-2023-042" reports valid at every moment, under every date parser |
| `StoreProperties.MockRevokedAlwaysRevoked` | src/data/certificates.ts:52-62 | "CSI-EH-2023-019" reports revoked at every moment |
| `StoreProperties.MockDatedValidUntilExpiry` | src/data/certificates.ts:17-28 | "TA-FS-2023-001" is valid exactly when its expiry date does not parse or is not before now |

## Left out

- Random identifier minting: `Math.random()` and its base-36 rendering are
  not modelled. The tokens are parameters of `AddCertificate`. No
  uniqueness and no token length is claimed, because the code enforces
  neither.
- JavaScript `Date`: ISO parsing, time zones, invalid dates and the wall
  clock are not modelled. They are the `parseDate` and `now` parameters of
  `Validation.Validate`.
- Object identity and aliasing: only the spreads at
  src/data/certificates.ts:78 and :86 make new record objects; the list
  spreads at lines 66 and 69 copy the list but share its records. Every
  record the store returns except a deleted one (from `getCertificate`,
  `getCertificates`, `addCertificate` and `updateCertificate`) is the very
  object the store holds, so a caller that mutates it changes the store.
  Records are values in a sequence here, so the model does not capture
  that sharing.
- Runtime-only update keys: `Partial<Omit<Certificate, 'id'>>` lets a
  caller pass `undefined` for a required field, and an untyped caller
  could pass `id`. Either would be spread into the record. The model
  follows the declared type: `CertificatePatch` has no `id`, and required
  fields can only be replaced by values. Optional fields can be cleared.
- The free text of the sample descriptions and achievements is kept as
  plain strings. Nothing is proved about it.
- The user-interface callers of the store are not part of this model.
  Concurrency does not arise: the code is single-threaded and synchronous.
