/** What a lookup sees after each change the store makes, and how the sample
    records validate. Each lemma is stated on the list the store holds, so
    that `Store.CertificateStore.certificates` before and after a call can be
    plugged in directly. */
module StoreProperties {
  import opened Wrappers
  import opened Certificates
  import opened Search
  import opened Validation

  /** After a create, looking up the new identifier finds a record; it finds
      the new one unless an earlier record already matches that key (by
      identifier or by certificate number). */
  lemma GetAfterAdd(s: seq<Certificate>, c: Certificate)
    ensures Lookup(s + [c], c.id).Some?
    ensures (forall j :: 0 <= j < |s| ==> !MatchesIdentifier(s[j], c.id)) ==> Lookup(s + [c], c.id) == Some(c)
  {
    LookupAppend(s, c, c.id);
  }

  /** After an update, looking up the identifier returns the merged record,
      unless an earlier record carries that identifier as its certificate
      number. */
  lemma GetAfterUpdate(s: seq<Certificate>, id: string, u: CertificatePatch)
    requires IndexOfId(s, id) != -1
    requires forall j :: 0 <= j < IndexOfId(s, id) ==> s[j].certificateNumber != id
    ensures var k := IndexOfId(s, id);
            Lookup(s[k := Merge(s[k], u)], id) == Some(Merge(s[k], u))
  {
    var k := IndexOfId(s, id);
    var t := s[k := Merge(s[k], u)];
    assert IsFirstMatch(t, id, k);
    LookupAt(t, id, k);
  }

  /** After a delete no record has the identifier, so update and delete find
      nothing more; a lookup still finds a surviving record whose certificate
      number is that identifier. */
  lemma GetAfterDelete(s: seq<Certificate>, id: string)
    ensures IndexOfId(WithoutId(s, id), id) == -1
    ensures Lookup(WithoutId(s, id), id).None? <==>
              forall j :: 0 <= j < |s| ==> s[j].id == id || s[j].certificateNumber != id
  {
    var r := WithoutId(s, id);
    WithoutIdMembers(s, id);
    if Lookup(r, id).None? {
      forall j | 0 <= j < |s| && s[j].id != id
        ensures s[j].certificateNumber != id
      {
        assert s[j] in r;
        var i :| 0 <= i < |r| && r[i] == s[j];
      }
    } else {
      var i :| IsFirstMatch(r, id, i);
      assert r[i] in s;
      var j :| 0 <= j < |s| && s[j] == r[i];
    }
  }

  /** The sample records have distinct identifiers, and no sample identifier
      is also a sample certificate number. */
  lemma MockCertificatesDistinct()
    ensures UniqueIds(MockCertificates)
    ensures forall i, j :: 0 <= i < |MockCertificates| && 0 <= j < |MockCertificates| ==>
              MockCertificates[i].id != MockCertificates[j].certificateNumber
  {
  }

  /** Looking up a sample certificate number finds it, while update and
      delete, which match identifiers only, find nothing. */
  lemma NumberMatchesOnlyForLookup()
    ensures Lookup(MockCertificates, "TA-FS-2023-001") == Some(MockCertificates[0])
    ensures IndexOfId(MockCertificates, "TA-FS-2023-001") == -1
  {
    assert IsFirstMatch(MockCertificates, "TA-FS-2023-001", 0);
    LookupAt(MockCertificates, "TA-FS-2023-001", 0);
  }

  /** The sample "TA-DO-2022-073" is marked expired: it reports expired at
      every moment, whatever its date parses to. */
  lemma MockExpiredAlwaysExpired(parseDate: string -> Option<int>, now: int)
    ensures Validate(MockCertificates, "TA-DO-2022-073", parseDate, now) ==
              ValidationResult(false, Some(MockCertificates[2]), ExpiredMessage)
  {
    assert IsFirstMatch(MockCertificates, "TA-DO-2022-073", 2);
    ExpiredStatusPrecedesDate(MockCertificates, "TA-DO-2022-073", 2, parseDate, now);
  }

  /** The sample "DI-UX-2023-042" is active with no expiry date: it is valid
      at every moment. */
  lemma MockActiveAlwaysValid(parseDate: string -> Option<int>, now: int)
    ensures Validate(MockCertificates, "DI-UX-2023-042", parseDate, now) ==
              ValidationResult(true, Some(MockCertificates[1]), ValidMessage)
  {
    assert IsFirstMatch(MockCertificates, "DI-UX-2023-042", 1);
    LookupAt(MockCertificates, "DI-UX-2023-042", 1);
  }

  /** The sample "CSI-EH-2023-019" is revoked at every moment. */
  lemma MockRevokedAlwaysRevoked(parseDate: string -> Option<int>, now: int)
    ensures Validate(MockCertificates, "CSI-EH-2023-019", parseDate, now) ==
              ValidationResult(false, Some(MockCertificates[3]), RevokedMessage)
  {
    assert IsFirstMatch(MockCertificates, "CSI-EH-2023-019", 3);
    RevocationPrecedesExpiry(MockCertificates, "CSI-EH-2023-019", 3, parseDate, now);
  }

  /** The sample "TA-FS-2023-001" is active with an expiry date: it is valid
      exactly until that date, as parsed, lies before the current moment. */
  lemma MockDatedValidUntilExpiry(parseDate: string -> Option<int>, now: int)
    ensures Validate(MockCertificates, "TA-FS-2023-001", parseDate, now).isValid <==>
              (parseDate("2026-06-15").None? || now <= parseDate("2026-06-15").value)
  {
    var c := MockCertificates[0];
    assert c.status == Active && c.expiryDate == Some("2026-06-15");
    assert IsFirstMatch(MockCertificates, "TA-FS-2023-001", 0);
    LookupAt(MockCertificates, "TA-FS-2023-001", 0);
  }
}
