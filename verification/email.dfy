/** `b64` and `assembleEmail` of js/utils.js: the address is stored as two
    separately base64-encoded halves and joined with `@` when the page is
    rendered. */
module Email {
  import opened Wrappers
  import opened JsText
  import Base64

  /** The `email` object of the contact data: the base64 text of the local
      part and of the domain. `atob` converts its argument to a string, so
      a missing half and a `null` one are read differently. */
  datatype EmailHalves = EmailHalves(localB64: Field, domainB64: Field)

  /** `b64(s)`: `atob` of the text of `s`, where every failure yields the
      empty string instead of an exception. */
  function B64(v: Field): string {
    match Base64.Atob(FieldText(v))
    case Some(t) => t
    case None => ""
  }

  /** `assembleEmail(obj)`: nothing for an absent object, otherwise the two
      decoded halves around an `@` (so `"@"` when neither decodes). */
  function AssembleEmail(obj: Option<EmailHalves>): (r: string)
    ensures |r| == 0 <==> obj.None?
  {
    match obj
    case None => ""
    case Some(h) => B64(h.localB64) + "@" + B64(h.domainB64)
  }

  /** `b64` never fails: what it returns is always a binary string, the
      decoded text when `atob` succeeds and empty otherwise. */
  lemma B64Bytes(v: Field)
    ensures Base64.IsByteString(B64(v))
  {
    if Base64.Atob(FieldText(v)).Some? {
      Base64.AtobBytes(FieldText(v));
    }
  }

  /** Round trip of one half: `b64` of an encoded binary string is that
      string. */
  lemma B64Encode(s: string)
    requires Base64.IsByteString(s)
    ensures B64(Str(Base64.Encode(s))) == s
  {
    Base64.AtobEncode(s);
  }

  /** An absent half is read as the text "undefined", whose nine characters
      cannot be base64; it therefore decodes to "". */
  lemma B64Absent()
    ensures B64(Undefined) == ""
  {
    var u := FieldText(Undefined);
    assert Base64.NoWhitespace(u);
    Base64.RemoveWhitespaceSpec(u);
    assert |Base64.Unpadded(u)| % 4 == 1;
  }

  /** The swallowed failure: when neither half decodes the result is a
      lone `@`. */
  lemma UndecodableHalves(h: EmailHalves)
    requires Base64.Atob(FieldText(h.localB64)).None?
    requires Base64.Atob(FieldText(h.domainB64)).None?
    ensures AssembleEmail(Some(h)) == "@"
  {
  }

  /** Round trip: the halves encoded as base64 assemble to the address they
      came from. */
  lemma AssembleEncoded(local: string, domain: string)
    requires Base64.IsByteString(local) && Base64.IsByteString(domain)
    ensures AssembleEmail(Some(EmailHalves(Str(Base64.Encode(local)), Str(Base64.Encode(domain)))))
      == local + "@" + domain
  {
    B64Encode(local);
    B64Encode(domain);
  }

  /** A `null` half is read as the text "null", which is valid base64: it
      decodes to the three bytes 0x9E, 0xE9 and 0x65, not to "". */
  lemma B64Null()
    ensures B64(Null) == "\U{9E}\U{E9}e"
  {
  }
}
