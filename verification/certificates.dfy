/** The certificate record, the record a caller supplies to create one, the
    partial record used to update one, the identifier format minted for new
    records, and the four sample records the store starts from. */
module Certificates {
  import opened Wrappers

  /** The three states a certificate may be in; set independently of its dates. */
  datatype Status = Active | Expired | Revoked

  /** A stored certificate. Optional fields are `None` when the key is absent. */
  datatype Certificate = Certificate(
    id: string,
    recipientName: string,
    issuerName: string,
    courseName: string,
    issueDate: string,
    expiryDate: Option<string>,
    certificateNumber: string,
    status: Status,
    description: Option<string>,
    achievements: Option<seq<string>>)

  /** What a caller passes to create a certificate: every field except `id`. */
  datatype CertificateInput = CertificateInput(
    recipientName: string,
    issuerName: string,
    courseName: string,
    issueDate: string,
    expiryDate: Option<string>,
    certificateNumber: string,
    status: Status,
    description: Option<string>,
    achievements: Option<seq<string>>)

  /** The record `{ ...input, id }`: the caller's fields plus an identifier. */
  function WithId(input: CertificateInput, id: string): (c: Certificate)
    ensures c.id == id
    ensures StripId(c) == input
  {
    Certificate(id, input.recipientName, input.issuerName, input.courseName,
                input.issueDate, input.expiryDate, input.certificateNumber,
                input.status, input.description, input.achievements)
  }

  /** Every field of a certificate except its identifier. */
  function StripId(c: Certificate): (r: CertificateInput)
  {
    CertificateInput(c.recipientName, c.issuerName, c.courseName, c.issueDate,
                     c.expiryDate, c.certificateNumber, c.status, c.description,
                     c.achievements)
  }

  /** A stored record is its identifier plus the fields a caller supplies. */
  lemma StripIdRoundTrip(c: Certificate)
    ensures WithId(StripId(c), c.id) == c
  {
  }

  /** One field of a partial record: `Keep` when the key is absent, `Put(v)`
      when it is present. For an optional field `Put(None)` is a key that is
      present with the value `undefined`, which clears the field. */
  datatype Patch<T> = Keep | Put(value: T)

  function Apply<T>(p: Patch<T>, current: T): (r: T)
    ensures p.Keep? ==> r == current
    ensures p.Put? ==> r == p.value
  {
    match p
    case Keep => current
    case Put(v) => v
  }

  /** A partial record of every field except `id`. */
  datatype CertificatePatch = CertificatePatch(
    recipientName: Patch<string>,
    issuerName: Patch<string>,
    courseName: Patch<string>,
    issueDate: Patch<string>,
    expiryDate: Patch<Option<string>>,
    certificateNumber: Patch<string>,
    status: Patch<Status>,
    description: Patch<Option<string>>,
    achievements: Patch<Option<seq<string>>>)

  /** The empty partial record `{}`. */
  const NoChanges := CertificatePatch(Keep, Keep, Keep, Keep, Keep, Keep, Keep, Keep, Keep)

  /** The spread `{ ...c, ...u }`: the fields present in `u` overwrite those of
      `c`; every other field, and the identifier, is kept. */
  function Merge(c: Certificate, u: CertificatePatch): (r: Certificate)
    ensures r.id == c.id
    ensures u == NoChanges ==> r == c
  {
    Certificate(
      c.id,
      Apply(u.recipientName, c.recipientName),
      Apply(u.issuerName, c.issuerName),
      Apply(u.courseName, c.courseName),
      Apply(u.issueDate, c.issueDate),
      Apply(u.expiryDate, c.expiryDate),
      Apply(u.certificateNumber, c.certificateNumber),
      Apply(u.status, c.status),
      Apply(u.description, c.description),
      Apply(u.achievements, c.achievements))
  }

  function Later<T>(first: Patch<T>, second: Patch<T>): (r: Patch<T>)
  {
    if second.Put? then second else first
  }

  /** The spread `{ ...u, ...v }` of two partial records: `v` wins where it has the key. */
  function Then(u: CertificatePatch, v: CertificatePatch): (r: CertificatePatch)
  {
    CertificatePatch(
      Later(u.recipientName, v.recipientName),
      Later(u.issuerName, v.issuerName),
      Later(u.courseName, v.courseName),
      Later(u.issueDate, v.issueDate),
      Later(u.expiryDate, v.expiryDate),
      Later(u.certificateNumber, v.certificateNumber),
      Later(u.status, v.status),
      Later(u.description, v.description),
      Later(u.achievements, v.achievements))
  }

  /** Two updates in a row are one update with the later values winning, and
      repeating an update changes nothing more. */
  lemma MergeComposes(c: Certificate, u: CertificatePatch, v: CertificatePatch)
    ensures Merge(Merge(c, u), v) == Merge(c, Then(u, v))
    ensures Merge(Merge(c, u), u) == Merge(c, u)
  {
  }

  /** Each field present in the update is overwritten with the update's
      value; each absent field is left as it was. */
  lemma MergeFields(c: Certificate, u: CertificatePatch)
    ensures Merge(c, u).recipientName == (if u.recipientName.Put? then u.recipientName.value else c.recipientName)
    ensures Merge(c, u).issuerName == (if u.issuerName.Put? then u.issuerName.value else c.issuerName)
    ensures Merge(c, u).courseName == (if u.courseName.Put? then u.courseName.value else c.courseName)
    ensures Merge(c, u).issueDate == (if u.issueDate.Put? then u.issueDate.value else c.issueDate)
    ensures Merge(c, u).expiryDate == (if u.expiryDate.Put? then u.expiryDate.value else c.expiryDate)
    ensures Merge(c, u).certificateNumber == (if u.certificateNumber.Put? then u.certificateNumber.value else c.certificateNumber)
    ensures Merge(c, u).status == (if u.status.Put? then u.status.value else c.status)
    ensures Merge(c, u).description == (if u.description.Put? then u.description.value else c.description)
    ensures Merge(c, u).achievements == (if u.achievements.Put? then u.achievements.value else c.achievements)
  {
  }

  /** A character of the base-36 alphabet `0-9a-z` that `toString(36)` writes. */
  predicate IsBase36Digit(ch: char)
  {
    ('0' <= ch <= '9') || ('a' <= ch <= 'z')
  }

  /** What `Math.random().toString(36).substring(2, 6)` can yield: at most
      four base-36 digits, possibly fewer (even none). */
  predicate IsToken(t: string)
  {
    |t| <= 4 && forall i :: 0 <= i < |t| ==> IsBase36Digit(t[i])
  }

  /** The identifier minted for a new record from three random tokens. */
  function MintedId(t1: string, t2: string, t3: string): (id: string)
    ensures |id| == 7 + |t1| + |t2| + |t3|
    ensures id[..5] == "cert-"
  {
    "cert-" + t1 + "-" + t2 + "-" + t3
  }

  /** If neither `a` nor `b` contains '-', `a + "-" + x == b + "-" + y`
      splits at the same place. */
  lemma {:induction false} SplitAtDash(a: string, x: string, b: string, y: string)
    requires forall i :: 0 <= i < |a| ==> a[i] != '-'
    requires forall i :: 0 <= i < |b| ==> b[i] != '-'
    requires a + "-" + x == b + "-" + y
    ensures a == b && x == y
  {
    var s := a + "-" + x;
    assert s == b + "-" + y;
    assert forall i :: 0 <= i < |a| ==> s[i] == a[i];
    assert forall i :: 0 <= i < |b| ==> s[i] == b[i];
    assert s[|a|] == '-' && s[|b|] == '-';
    assert |a| == |b|;
    assert a == s[..|a|] == b;
    assert x == s[|a| + 1..] == y;
  }

  /** Distinct token triples give distinct identifiers: the minted format can
      be split back into its tokens. This is not uniqueness: the tokens are
      random and may repeat. */
  lemma MintedIdInjective(a1: string, a2: string, a3: string, b1: string, b2: string, b3: string)
    requires IsToken(a1) && IsToken(a2) && IsToken(a3)
    requires IsToken(b1) && IsToken(b2) && IsToken(b3)
    requires MintedId(a1, a2, a3) == MintedId(b1, b2, b3)
    ensures a1 == b1 && a2 == b2 && a3 == b3
  {
    var ra := a1 + "-" + (a2 + "-" + a3);
    var rb := b1 + "-" + (b2 + "-" + b3);
    assert MintedId(a1, a2, a3) == "cert-" + ra;
    assert MintedId(b1, b2, b3) == "cert-" + rb;
    assert ra == MintedId(a1, a2, a3)[5..] == MintedId(b1, b2, b3)[5..] == rb;
    SplitAtDash(a1, a2 + "-" + a3, b1, b2 + "-" + b3);
    SplitAtDash(a2, a3, b2, b3);
  }

  /** The four sample records the store is seeded with. */
  const MockCertificates: seq<Certificate> := [
    Certificate(
      "cert-1234-abcd-5678", "Jane Doe", "Tech Academy", "Full Stack Web Development",
      "2023-06-15", Some("2026-06-15"), "TA-FS-2023-001", Active,
      Some("Completed 600 hours of intensive training in modern web development technologies."),
      Some(["React", "Node.js", "MongoDB", "Express", "TypeScript"])),
    Certificate(
      "cert-5678-efgh-9012", "John Smith", "Design Institute", "UX/UI Design Fundamentals",
      "2023-04-10", None, "DI-UX-2023-042", Active,
      Some("Mastered user-centered design principles and prototyping techniques."),
      Some(["User Research", "Wireframing", "Figma", "Usability Testing"])),
    Certificate(
      "cert-9012-ijkl-3456", "Alex Johnson", "Tech Academy", "DevOps Engineering",
      "2022-11-20", Some("2023-11-20"), "TA-DO-2022-073", Expired,
      Some("Learned CI/CD pipelines and infrastructure automation."),
      Some(["Docker", "Kubernetes", "Jenkins", "AWS"])),
    Certificate(
      "cert-3456-mnop-7890", "Sarah Williams", "Cyber Security Institute", "Ethical Hacking",
      "2023-01-05", None, "CSI-EH-2023-019", Revoked,
      Some("Comprehensive training in network security and penetration testing."),
      Some(["Network Security", "Penetration Testing", "Security Auditing"]))
  ]
}
