/** The store itself: one ordered list of records, seeded with the sample
    records and changed in place by create, update and delete. */
module Store {
  import opened Wrappers
  import opened Certificates
  import opened Search

  class CertificateStore {
    var certificates: seq<Certificate>

    /** The store as the module starts it: a copy of the sample records. */
    constructor ()
      ensures certificates == MockCertificates
    {
      certificates := MockCertificates;
    }

    /** `getCertificates`: the whole list, in order; the store is not changed. */
    method GetCertificates() returns (r: seq<Certificate>)
      ensures r == certificates
    {
      r := certificates;
    }

    /** `getCertificate`: scan in order and return the first record whose
        identifier or certificate number is `identifier`. */
    method GetCertificate(identifier: string) returns (r: Option<Certificate>)
      ensures r == Lookup(certificates, identifier)
    {
      var i := 0;
      while i < |certificates|
        invariant 0 <= i <= |certificates|
        invariant forall j :: 0 <= j < i ==> !MatchesIdentifier(certificates[j], identifier)
      {
        if MatchesIdentifier(certificates[i], identifier) {
          LookupAt(certificates, identifier, i);
          return Some(certificates[i]);
        }
        i := i + 1;
      }
      return None;
    }

    /** `findIndex(cert => cert.id === id)`: the first index with identifier `id`, or -1. */
    method FindIndex(id: string) returns (index: int)
      ensures index == IndexOfId(certificates, id)
    {
      var i := 0;
      while i < |certificates|
        invariant 0 <= i <= |certificates|
        invariant forall j :: 0 <= j < i ==> certificates[j].id != id
      {
        if certificates[i].id == id {
          return i;
        }
        i := i + 1;
      }
      return -1;
    }

    /** `addCertificate`: append the caller's fields under the identifier
        minted from three random tokens, and return the new record. */
    method AddCertificate(input: CertificateInput, t1: string, t2: string, t3: string)
      returns (c: Certificate)
      modifies this
      ensures c == WithId(input, MintedId(t1, t2, t3))
      ensures certificates == old(certificates) + [c]
      ensures UniqueIds(old(certificates)) && (forall j :: 0 <= j < |old(certificates)| ==> old(certificates)[j].id != c.id)
              ==> UniqueIds(certificates)
    {
      var id := MintedId(t1, t2, t3);
      c := WithId(input, id);
      if UniqueIds(certificates) && forall j :: 0 <= j < |certificates| ==> certificates[j].id != id {
        AddKeepsUnique(certificates, c);
      }
      certificates := certificates + [c];
    }

    /** `updateCertificate`: merge `updates` into the first record with
        identifier `id` and return it; `None` and no change when there is none. */
    method UpdateCertificate(id: string, updates: CertificatePatch) returns (r: Option<Certificate>)
      modifies this
      ensures var k := IndexOfId(old(certificates), id);
              if k == -1 then r == None && certificates == old(certificates)
              else r == Some(Merge(old(certificates)[k], updates)) && certificates == old(certificates)[k := r.value]
      ensures |certificates| == |old(certificates)|
      ensures forall j :: 0 <= j < |certificates| ==> certificates[j].id == old(certificates)[j].id
      ensures UniqueIds(old(certificates)) ==> UniqueIds(certificates)
    {
      var index := FindIndex(id);
      if index != -1 {
        certificates := certificates[index := Merge(certificates[index], updates)];
        return Some(certificates[index]);
      }
      return None;
    }

    /** `filter(cert => cert.id !== id)`: a new list of the records whose
        identifier is not `id`, in order; the store is not changed. */
    method FilterOutId(id: string) returns (kept: seq<Certificate>)
      ensures kept == WithoutId(certificates, id)
    {
      kept := [];
      var i := 0;
      while i < |certificates|
        invariant 0 <= i <= |certificates|
        invariant kept == WithoutId(certificates[..i], id)
      {
        assert certificates[..i + 1] == certificates[..i] + [certificates[i]];
        WithoutIdSnoc(certificates[..i], certificates[i], id);
        if certificates[i].id != id {
          kept := kept + [certificates[i]];
        }
        i := i + 1;
      }
      assert certificates[..i] == certificates;
    }

    /** `deleteCertificate`: drop every record with identifier `id` and return
        the first of them; `None` and no change when there is none. */
    method DeleteCertificate(id: string) returns (r: Option<Certificate>)
      modifies this
      ensures var k := IndexOfId(old(certificates), id);
              if k == -1 then r == None && certificates == old(certificates)
              else r == Some(old(certificates)[k]) && certificates == WithoutId(old(certificates), id)
      ensures forall j :: 0 <= j < |certificates| ==> certificates[j].id != id
      ensures UniqueIds(old(certificates)) ==> UniqueIds(certificates)
    {
      var index := FindIndex(id);
      if index == -1 {
        return None;
      }
      var deleted := certificates[index];
      var kept := FilterOutId(id);
      if UniqueIds(certificates) {
        WithoutIdKeepsUnique(certificates, id);
      }
      certificates := kept;
      return Some(deleted);
    }
  }
}
