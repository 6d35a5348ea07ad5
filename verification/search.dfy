/** The three scans the store performs over its ordered list of records:
    the lookup by identifier or certificate number (`find`), the index of the
    first record with a given identifier (`findIndex`), and the list without
    the records of a given identifier (`filter`). Each is a reference
    definition with its meaning stated in its contract. */
module Search {
  import opened Wrappers
  import opened Certificates

  /** The lookup predicate of `getCertificate` and `validateCertificate`:
      the key is either the identifier or the certificate number. */
  predicate MatchesIdentifier(c: Certificate, x: string)
  {
    c.id == x || c.certificateNumber == x
  }

  /** `k` is the smallest index whose record matches `x`. */
  predicate IsFirstMatch(s: seq<Certificate>, x: string, k: int)
  {
    0 <= k < |s| && MatchesIdentifier(s[k], x) &&
    forall j :: 0 <= j < k ==> !MatchesIdentifier(s[j], x)
  }

  /** `find` with the identifier-or-number predicate: the first matching record. */
  function Lookup(s: seq<Certificate>, x: string): (r: Option<Certificate>)
    ensures r.None? <==> forall j :: 0 <= j < |s| ==> !MatchesIdentifier(s[j], x)
    ensures r.Some? ==> exists k :: IsFirstMatch(s, x, k) && r.value == s[k]
  {
    if s == [] then None
    else if MatchesIdentifier(s[0], x) then
      assert IsFirstMatch(s, x, 0);
      Some(s[0])
    else
      var r := Lookup(s[1..], x);
      assert r.Some? ==> exists k :: IsFirstMatch(s, x, k) && r.value == s[k] by {
        if r.Some? {
          var k :| IsFirstMatch(s[1..], x, k) && r.value == s[1..][k];
          assert IsFirstMatch(s, x, k + 1);
        }
      }
      r
  }

  /** Only one index can be the first match, so `Lookup` picks exactly it. */
  lemma LookupAt(s: seq<Certificate>, x: string, k: int)
    requires IsFirstMatch(s, x, k)
    ensures Lookup(s, x) == Some(s[k])
  {
    var r := Lookup(s, x);
    var k' :| IsFirstMatch(s, x, k') && r.value == s[k'];
  }

  /** `findIndex` with the identifier-only predicate: the first index whose
      record has identifier `id`, or -1. */
  function IndexOfId(s: seq<Certificate>, id: string): (k: int)
    ensures -1 <= k < |s|
    ensures k == -1 <==> forall j :: 0 <= j < |s| ==> s[j].id != id
    ensures k != -1 ==> s[k].id == id && forall j :: 0 <= j < k ==> s[j].id != id
  {
    if s == [] then -1
    else if s[0].id == id then 0
    else
      var k := IndexOfId(s[1..], id);
      assert forall j :: 0 < j < |s| ==> s[j] == s[1..][j - 1];
      if k == -1 then -1 else k + 1
  }

  /** `filter(cert => cert.id !== id)`: the records whose identifier is not
      `id`, in their original order. */
  function WithoutId(s: seq<Certificate>, id: string): (r: seq<Certificate>)
    ensures |r| <= |s|
    ensures forall i :: 0 <= i < |r| ==> r[i].id != id
    ensures (forall j :: 0 <= j < |s| ==> s[j].id != id) ==> r == s
  {
    if s == [] then []
    else
      var init, last := s[..|s| - 1], s[|s| - 1];
      assert s == init + [last];
      var rest := WithoutId(init, id);
      if last.id == id then rest else rest + [last]
  }

  /** The filtered list holds exactly the records of the list whose
      identifier is not `id`. */
  lemma {:induction false} WithoutIdMembers(s: seq<Certificate>, id: string)
    ensures forall c :: c in WithoutId(s, id) <==> c in s && c.id != id
  {
    if s != [] {
      var init, last := s[..|s| - 1], s[|s| - 1];
      assert s == init + [last];
      WithoutIdMembers(init, id);
      WithoutIdSnoc(init, last, id);
    }
  }

  /** The filtered list holds each record whose identifier is not `id` as
      many times as the list does, and no other record. */
  lemma {:induction false} WithoutIdMultiset(s: seq<Certificate>, id: string)
    ensures forall c :: multiset(WithoutId(s, id))[c] == if c.id == id then 0 else multiset(s)[c]
  {
    if s != [] {
      var init, last := s[..|s| - 1], s[|s| - 1];
      assert s == init + [last];
      WithoutIdMultiset(init, id);
      WithoutIdSnoc(init, last, id);
    }
  }

  /** The number of records whose identifier is `id`; zero exactly when none has it. */
  function CountId(s: seq<Certificate>, id: string): (n: nat)
    ensures n <= |s|
    ensures n == 0 <==> forall j :: 0 <= j < |s| ==> s[j].id != id
  {
    if s == [] then 0
    else
      var init, last := s[..|s| - 1], s[|s| - 1];
      assert s == init + [last];
      CountId(init, id) + (if last.id == id then 1 else 0)
  }

  /** Filtering drops exactly the records with identifier `id`: the list
      shrinks by one per such record, so by exactly one when one record has
      it, and by more when several share it. */
  lemma {:induction false} WithoutIdLength(s: seq<Certificate>, id: string)
    ensures |WithoutId(s, id)| == |s| - CountId(s, id)
  {
    if s != [] {
      var init, last := s[..|s| - 1], s[|s| - 1];
      assert s == init + [last];
      WithoutIdLength(init, id);
      WithoutIdSnoc(init, last, id);
    }
  }

  /** No two records share an identifier. The store relies on this but does
      not enforce it. */
  predicate UniqueIds(s: seq<Certificate>)
  {
    forall i, j :: 0 <= i < j < |s| ==> s[i].id != s[j].id
  }

  /** Filtering a list with one more record at the end filters the list and
      then keeps or drops that record. */
  lemma WithoutIdSnoc(s: seq<Certificate>, c: Certificate, id: string)
    ensures WithoutId(s + [c], id) == WithoutId(s, id) + (if c.id == id then [] else [c])
  {
    assert (s + [c])[..|s|] == s;
  }

  /** With unique identifiers, filtering out the record at `k` is removing
      exactly that one element: the list shrinks by one and keeps its order. */
  lemma {:induction false} WithoutUniqueId(s: seq<Certificate>, k: int)
    requires UniqueIds(s)
    requires 0 <= k < |s|
    ensures WithoutId(s, s[k].id) == s[..k] + s[k + 1..]
    ensures |WithoutId(s, s[k].id)| == |s| - 1
  {
    var n := |s|;
    var init, last := s[..n - 1], s[n - 1];
    assert s == init + [last];
    if k == n - 1 {
      WithoutIdOfLast(init, last);
    } else {
      assert UniqueIds(init) && init[k] == s[k];
      WithoutUniqueId(init, k);
      WithoutIdSnoc(init, last, s[k].id);
      assert init[..k] == s[..k];
      assert init[k + 1..] + [last] == s[k + 1..];
    }
  }

  /** Filtering out the identifier of a last record that no earlier record
      shares removes just that record. */
  lemma WithoutIdOfLast(init: seq<Certificate>, last: Certificate)
    requires forall j :: 0 <= j < |init| ==> init[j].id != last.id
    ensures WithoutId(init + [last], last.id) == init
  {
    WithoutIdSnoc(init, last, last.id);
  }

  /** Appending a record keeps every identifier unique when its identifier is new. */
  lemma AddKeepsUnique(s: seq<Certificate>, c: Certificate)
    requires UniqueIds(s)
    requires forall j :: 0 <= j < |s| ==> s[j].id != c.id
    ensures UniqueIds(s + [c])
  {
  }

  /** Filtering keeps identifiers unique. */
  lemma {:induction false} WithoutIdKeepsUnique(s: seq<Certificate>, id: string)
    requires UniqueIds(s)
    ensures UniqueIds(WithoutId(s, id))
  {
    if s != [] {
      var n := |s|;
      var init, last := s[..n - 1], s[n - 1];
      assert s == init + [last];
      assert UniqueIds(init);
      WithoutIdKeepsUnique(init, id);
      WithoutIdMembers(init, id);
      WithoutIdSnoc(init, last, id);
      var rest := WithoutId(init, id);
      if last.id != id {
        forall i | 0 <= i < |rest|
          ensures rest[i].id != last.id
        {
          assert rest[i] in init;
          var j :| 0 <= j < |init| && init[j] == rest[i];
          assert s[j] == rest[i];
        }
      }
    }
  }

  /** Appending leaves every earlier first match in place: the new record is
      found only for a key no earlier record matches. */
  lemma {:induction false} LookupAppend(s: seq<Certificate>, c: Certificate, x: string)
    ensures Lookup(s + [c], x) ==
              if Lookup(s, x).Some? then Lookup(s, x)
              else if MatchesIdentifier(c, x) then Some(c)
              else None
  {
    if s != [] {
      assert (s + [c])[1..] == s[1..] + [c];
      LookupAppend(s[1..], c, x);
    }
  }

  /** A record with identifier `id` also matches the key `id`, so `Lookup`
      finds something at or before the index `findIndex` gives. The converse
      fails: `update` and `delete` ignore certificate numbers. */
  lemma IdMatchIsFound(s: seq<Certificate>, id: string)
    requires IndexOfId(s, id) != -1
    ensures Lookup(s, id).Some?
    ensures exists j :: 0 <= j <= IndexOfId(s, id) && IsFirstMatch(s, id, j)
  {
    var k := IndexOfId(s, id);
    assert MatchesIdentifier(s[k], id);
  }
}
