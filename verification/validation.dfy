/** `validateCertificate`: look a key up as `getCertificate` does and decide,
    in a fixed order, whether the record found is not found, revoked,
    expired or valid. Reading the wall clock and parsing the expiry date are
    outside the model: the caller passes the current moment `now` and the
    date parser `parseDate`, which gives `None` where the date is invalid
    (an invalid date compares false with every moment). */
module Validation {
  import opened Wrappers
  import opened Certificates
  import opened Search

  const NotFoundMessage := "Certificate not found."
  const RevokedMessage := "This certificate has been revoked."
  const ExpiredMessage := "This certificate has expired."
  const ValidMessage := "Valid certificate."

  /** The answer object; `certificate` is absent only when nothing was found. */
  datatype ValidationResult = ValidationResult(
    isValid: bool,
    certificate: Option<Certificate>,
    message: string)

  /** The date test: the expiry date is present, not the empty string (which
      is falsy), parses, and lies strictly before `now`. */
  predicate PastExpiry(c: Certificate, parseDate: string -> Option<int>, now: int)
  {
    match c.expiryDate
    case None => false
    case Some(d) =>
      d != "" &&
      match parseDate(d)
      case None => false
      case Some(t) => t < now
  }

  /** The expiry test: the stored status says expired, or the date has passed. */
  predicate IsExpired(c: Certificate, parseDate: string -> Option<int>, now: int)
  {
    c.status == Expired || PastExpiry(c, parseDate, now)
  }

  function Validate(s: seq<Certificate>, identifier: string,
                    parseDate: string -> Option<int>, now: int): (r: ValidationResult)
    ensures r.certificate == Lookup(s, identifier)
    ensures r.isValid <==> r.message == ValidMessage
    ensures r.message == NotFoundMessage <==> r.certificate.None?
    ensures r.message == RevokedMessage <==> r.certificate.Some? && r.certificate.value.status == Revoked
    ensures r.message == ExpiredMessage <==>
              r.certificate.Some? && r.certificate.value.status != Revoked &&
              IsExpired(r.certificate.value, parseDate, now)
    ensures r.message in {NotFoundMessage, RevokedMessage, ExpiredMessage, ValidMessage}
  {
    match Lookup(s, identifier)
    case None => ValidationResult(false, None, NotFoundMessage)
    case Some(c) =>
      if c.status == Revoked then ValidationResult(false, Some(c), RevokedMessage)
      else if IsExpired(c, parseDate, now) then ValidationResult(false, Some(c), ExpiredMessage)
      else ValidationResult(true, Some(c), ValidMessage)
  }

  /** A key is valid exactly when its first matching record is active and its
      expiry date, if any, has not passed. */
  lemma ValidIff(s: seq<Certificate>, x: string, parseDate: string -> Option<int>, now: int)
    ensures Validate(s, x, parseDate, now).isValid <==>
              exists k :: IsFirstMatch(s, x, k) && s[k].status == Active && !PastExpiry(s[k], parseDate, now)
  {
    if Validate(s, x, parseDate, now).isValid {
      var k :| IsFirstMatch(s, x, k) && Lookup(s, x).value == s[k];
    }
    forall k | IsFirstMatch(s, x, k) && s[k].status == Active && !PastExpiry(s[k], parseDate, now)
      ensures Validate(s, x, parseDate, now).isValid
    {
      LookupAt(s, x, k);
    }
  }

  /** An unknown key: invalid, no record attached, the not-found message. */
  lemma NotFound(s: seq<Certificate>, x: string, parseDate: string -> Option<int>, now: int)
    requires forall j :: 0 <= j < |s| ==> !MatchesIdentifier(s[j], x)
    ensures Validate(s, x, parseDate, now) == ValidationResult(false, None, NotFoundMessage)
  {
  }

  /** Revocation is checked before expiry: a revoked record reports revoked
      at every moment and under every date parser, expired or not. */
  lemma RevocationPrecedesExpiry(s: seq<Certificate>, x: string, k: int,
                                 parseDate: string -> Option<int>, now: int)
    requires IsFirstMatch(s, x, k) && s[k].status == Revoked
    ensures Validate(s, x, parseDate, now) == ValidationResult(false, Some(s[k]), RevokedMessage)
  {
    LookupAt(s, x, k);
  }

  /** A record whose status says expired is reported expired whatever its
      date says. */
  lemma ExpiredStatusPrecedesDate(s: seq<Certificate>, x: string, k: int,
                                  parseDate: string -> Option<int>, now: int)
    requires IsFirstMatch(s, x, k) && s[k].status == Expired
    ensures Validate(s, x, parseDate, now) == ValidationResult(false, Some(s[k]), ExpiredMessage)
  {
    LookupAt(s, x, k);
  }

  /** An active record whose expiry date has passed is reported expired. */
  lemma DateExpiry(s: seq<Certificate>, x: string, k: int,
                   parseDate: string -> Option<int>, now: int)
    requires IsFirstMatch(s, x, k) && s[k].status == Active && PastExpiry(s[k], parseDate, now)
    ensures Validate(s, x, parseDate, now) == ValidationResult(false, Some(s[k]), ExpiredMessage)
  {
    LookupAt(s, x, k);
  }

  /** Time only moves a key towards expiry: an answer that is not valid at
      some moment is the same answer at every later moment. */
  lemma InvalidStaysInvalid(s: seq<Certificate>, x: string, parseDate: string -> Option<int>,
                            earlier: int, later: int)
    requires earlier <= later
    requires !Validate(s, x, parseDate, earlier).isValid
    ensures Validate(s, x, parseDate, later) == Validate(s, x, parseDate, earlier)
  {
  }
}
