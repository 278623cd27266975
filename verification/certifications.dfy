/** `renderCertifications` of js/app.js and its `certChip`: each
    certification is a chip holding its label and, when it has one, its
    date; the chip is a link exactly when the certification has a URL with
    something other than white space in it. */
module Certifications {
  import opened Wrappers
  import opened JsText
  import opened HtmlEscape
  import opened Markup
  import opened Tags
  import opened Page
  import opened Content

  /** `escapeHTML(c.label || '')`. */
  function CertLabel(c: Cert): string {
    Escape(Or(c.caption, ""))
  }

  /** `c.date ? escapeHTML(c.date) : ''`. */
  function CertDate(c: Cert): string {
    if Truthy(c.date) then Escape(c.date.value) else ""
  }

  /** `inner`: the label, then the date when there is one. */
  function CertInner(c: Cert): string {
    "<span class=\"label\">" + CertLabel(c) + "</span>"
      + (if |CertDate(c)| > 0 then "<span class=\"meta\">" + CertDate(c) + "</span>" else "")
  }

  /** `certChip(c)`: a link when `c.url` is non-empty after trimming, a
      plain chip otherwise; both name the certification and its date in
      `aria-label`. */
  function CertChip(c: Cert): string {
    var caption := CertLabel(c);
    var date := CertDate(c);
    if Truthy(c.url) && |Trim(c.url.value)| > 0 then
      "<a class=\"chip chip-cert\" href=\"" + Escape(c.url.value)
        + "\" target=\"_blank\" rel=\"noopener\"" + " aria-label=\"" + caption
        + (if |date| > 0 then " (" + date + ")" else "") + "\">" + CertInner(c) + "</a>"
    else
      "<span class=\"chip chip-cert\" aria-label=\"" + caption
        + (if |date| > 0 then " (" + date + ")" else "") + "\">" + CertInner(c) + "</span>"
  }

  /** `renderCertifications(list)`: the chips in order; nothing when the
      list is missing. */
  function RenderCertifications(list: Option<seq<Cert>>): string {
    MapJoin(list.GetOr([]), CertChip)
  }

  // ---- what a chip is meant to be ----

  /** A URL with at least one character that is not white space. */
  predicate HasLink(c: Cert) {
    c.url.Some? && !AllSpace(c.url.value)
  }

  /** The accessible name: the label, then the date in parentheses. */
  function AriaText(c: Cert): string {
    Or(c.caption, "") + (if Truthy(c.date) then " (" + c.date.value + ")" else "")
  }

  const ChipCert: seq<Attr> := [Attr("class", "chip chip-cert")]

  function InnerDoc(c: Cert): seq<Token> {
    Element("span", [Attr("class", "label")], Text(Or(c.caption, "")))
      + (if Truthy(c.date) then Element("span", [Attr("class", "meta")], Text(c.date.value)) else [])
  }

  function CertDoc(c: Cert): seq<Token> {
    if HasLink(c) then
      Element("a", ChipCert + [Attr("href", c.url.value)] + NewTab + [Attr("aria-label", AriaText(c))], InnerDoc(c))
    else
      Element("span", ChipCert + [Attr("aria-label", AriaText(c))], InnerDoc(c))
  }

  function CertsDoc(list: Option<seq<Cert>>): seq<Token> {
    MapDocs(list.GetOr([]), CertDoc)
  }

  // ---- each piece is its document ----

  lemma DateShown(c: Cert)
    ensures |CertDate(c)| > 0 <==> Truthy(c.date)
  {
    if Truthy(c.date) {
      EscapeLength(c.date.value);
    }
  }

  lemma InnerIs(c: Cert)
    ensures CertInner(c) == Serialize(InnerDoc(c))
    ensures AllWellFormed(InnerDoc(c))
  {
    var l := Element("span", [Attr("class", "label")], Text(Or(c.caption, "")));
    var m := if Truthy(c.date) then Element("span", [Attr("class", "meta")], Text(c.date.value)) else [];
    InnerOpens();
    ChipSpelling();
    DateShown(c);
    TextElementIs("span", [Attr("class", "label")], Or(c.caption, ""), "<span class=\"label\">", "</span>");
    PieceNames();
    TextWellFormed(Or(c.caption, ""));
    ElementWellFormed("span", [Attr("class", "label")], Text(Or(c.caption, "")));
    if Truthy(c.date) {
      TextElementIs("span", [Attr("class", "meta")], c.date.value, "<span class=\"meta\">", "</span>");
      TextWellFormed(c.date.value);
      ElementWellFormed("span", [Attr("class", "meta")], Text(c.date.value));
    }
    Serialize2(l, m);
    AppendWellFormed(l, m);
  }

  /** The accessible name written into the attribute: escaped once, so it
      is the escaped label followed by the escaped date. */
  lemma AriaIs(c: Cert)
    ensures Escape(AriaText(c))
      == CertLabel(c) + (if |CertDate(c)| > 0 then " (" + CertDate(c) + ")" else "")
  {
    DateShown(c);
    var suffix := if Truthy(c.date) then " (" + c.date.value + ")" else "";
    EscapeAppend(Or(c.caption, ""), suffix);
    if Truthy(c.date) {
      assert Plain(" (") && Plain(")");
      EscapeBetween(" (", c.date.value, ")");
    }
  }

  lemma LinkRegroup(h: string, u: string, m: string, n: string, l: string, s: string, t: string, i: string, e: string)
    ensures (h + u + (m + n) + (l + s) + t) + i + e == h + u + m + n + l + s + t + i + e
  {
  }

  lemma SpanRegroup(h: string, l: string, s: string, t: string, i: string, e: string)
    ensures (h + (l + s) + t) + i + e == h + l + s + t + i + e
  {
  }

  lemma LinkChipIs(c: Cert)
    requires HasLink(c)
    ensures Serialize(CertDoc(c)) == "<a class=\"chip chip-cert\" href=\"" + Escape(c.url.value)
        + "\" target=\"_blank\" rel=\"noopener\"" + " aria-label=\"" + CertLabel(c)
        + (if |CertDate(c)| > 0 then " (" + CertDate(c) + ")" else "") + "\">" + CertInner(c) + "</a>"
  {
    var attrs := ChipCert + [Attr("href", c.url.value)] + NewTab + [Attr("aria-label", AriaText(c))];
    var head := "<a class=\"chip chip-cert\" href=\"";
    var mid := "\" target=\"_blank\" rel=\"noopener\"" + " aria-label=\"";
    var suffix := if |CertDate(c)| > 0 then " (" + CertDate(c) + ")" else "";
    ChipCertAttrs();
    NewTabAttrs();
    CertSpelling();
    CertHeadSpelling();
    CertMidSpelling();
    TwoValueOpenSpelled("a", ChipCert, "href", c.url.value, NewTab, "aria-label", AriaText(c), head, mid, "\">");
    AriaIs(c);
    InnerIs(c);
    ElementIs("a", attrs, InnerDoc(c), head + Escape(c.url.value) + mid + Escape(AriaText(c)) + "\">", CertInner(c), "</a>");
    LinkRegroup(head, Escape(c.url.value), "\" target=\"_blank\" rel=\"noopener\"", " aria-label=\"",
                CertLabel(c), suffix, "\">", CertInner(c), "</a>");
  }

  lemma SpanChipIs(c: Cert)
    requires !HasLink(c)
    ensures Serialize(CertDoc(c)) == "<span class=\"chip chip-cert\" aria-label=\"" + CertLabel(c)
        + (if |CertDate(c)| > 0 then " (" + CertDate(c) + ")" else "") + "\">" + CertInner(c) + "</span>"
  {
    var attrs := ChipCert + [Attr("aria-label", AriaText(c))];
    var head := "<span class=\"chip chip-cert\" aria-label=\"";
    var suffix := if |CertDate(c)| > 0 then " (" + CertDate(c) + ")" else "";
    ChipCertAttrs();
    NoAttrs();
    CertSpelling();
    CertHeadSpelling();
    ChipSpelling();
    ValueOpenSpelled("span", ChipCert, "aria-label", AriaText(c), [], head, "\">");
    assert attrs + [] == attrs;
    AriaIs(c);
    InnerIs(c);
    ElementIs("span", attrs, InnerDoc(c), head + Escape(AriaText(c)) + "\">", CertInner(c), "</span>");
    SpanRegroup(head, CertLabel(c), suffix, "\">", CertInner(c), "</span>");
  }

  /** `c.url && c.url.trim()` holds exactly when the URL has a character
      that is not white space. */
  lemma LinkCondition(c: Cert)
    ensures (Truthy(c.url) && |Trim(c.url.value)| > 0) <==> HasLink(c)
  {
    if c.url.Some? {
      TrimSpec(c.url.value);
    }
  }

  lemma LinkAttrsNamed(url: string, aria: string)
    ensures NamedKeys(ChipCert + [Attr("href", url)] + NewTab + [Attr("aria-label", aria)])
  {
    ChipCertAttrs();
    NewTabAttrs();
    LinkNames();
    assert NamedKeys([Attr("href", url)]);
    assert NamedKeys([Attr("aria-label", aria)]);
    NamedKeysAppend(ChipCert, [Attr("href", url)]);
    NamedKeysAppend(ChipCert + [Attr("href", url)], NewTab);
    NamedKeysAppend(ChipCert + [Attr("href", url)] + NewTab, [Attr("aria-label", aria)]);
  }

  lemma SpanAttrsNamed(aria: string)
    ensures NamedKeys(ChipCert + [Attr("aria-label", aria)])
  {
    ChipCertAttrs();
    LinkNames();
    assert NamedKeys([Attr("aria-label", aria)]);
    NamedKeysAppend(ChipCert, [Attr("aria-label", aria)]);
  }

  lemma CertWellFormed(c: Cert)
    ensures AllWellFormed(CertDoc(c))
  {
    LinkNames();
    PieceNames();
    InnerIs(c);
    if HasLink(c) {
      LinkAttrsNamed(c.url.value, AriaText(c));
      ElementWellFormed("a", ChipCert + [Attr("href", c.url.value)] + NewTab + [Attr("aria-label", AriaText(c))], InnerDoc(c));
    } else {
      SpanAttrsNamed(AriaText(c));
      ElementWellFormed("span", ChipCert + [Attr("aria-label", AriaText(c))], InnerDoc(c));
    }
  }

  /** A chip is exactly its document written out, and that document is
      well formed. */
  lemma CertIs(c: Cert)
    ensures CertChip(c) == Serialize(CertDoc(c))
    ensures AllWellFormed(CertDoc(c))
  {
    LinkCondition(c);
    if HasLink(c) {
      LinkChipIs(c);
    } else {
      SpanChipIs(c);
    }
    CertWellFormed(c);
  }

  lemma CertsIs(list: Option<seq<Cert>>)
    ensures RenderCertifications(list) == Serialize(CertsDoc(list))
    ensures AllWellFormed(CertsDoc(list))
  {
    var cs := list.GetOr([]);
    forall i | 0 <= i < |cs| ensures CertChip(cs[i]) == Serialize(CertDoc(cs[i])) && AllWellFormed(CertDoc(cs[i])) {
      CertIs(cs[i]);
    }
    MapJoinSerialize(cs, CertChip, CertDoc);
    MapDocsWellFormed(cs, CertDoc);
  }

  /** Reading the section's markup back gives one chip per certification,
      in list order. */
  lemma CertsTokens(list: Option<seq<Cert>>)
    ensures Tokenize(RenderCertifications(list)) == CertsDoc(list)
  {
    CertsIs(list);
    TokenizeSerialize(CertsDoc(list));
  }

  /** The start tag a chip is read back with. */
  function ChipStart(c: Cert): Token {
    var ts := CertDoc(c);
    if |ts| > 0 then ts[0] else Close("")
  }

  /** Reading a chip's markup back gives its document. */
  lemma CertTokens(c: Cert)
    ensures Tokenize(CertChip(c)) == CertDoc(c)
  {
    CertIs(c);
    TokenizeSerialize(CertDoc(c));
  }

  /** A chip's document is one element: an `a` element exactly when its
      URL has a character that is not white space, and a `span` otherwise;
      either way its accessible name is its last attribute and its content
      is the same label and date, whatever the URL. */
  lemma ChipShape(c: Cert)
    ensures var ts := CertDoc(c);
      && |ts| >= 2 && ts[0] == ChipStart(c) && ts[|ts| - 1] == Close(ChipStart(c).name)
      && ts[1..|ts| - 1] == InnerDoc(c)
    ensures ChipStart(c).Open?
    ensures ChipStart(c).name == (if c.url.Some? && !AllSpace(c.url.value) then "a" else "span")
    ensures |ChipStart(c).attrs| > 0
      && ChipStart(c).attrs[|ChipStart(c).attrs| - 1] == Attr("aria-label", AriaText(c))
  {
    if HasLink(c) {
      var attrs := ChipCert + [Attr("href", c.url.value)] + NewTab + [Attr("aria-label", AriaText(c))];
      ElementParts("a", attrs, InnerDoc(c));
    } else {
      ElementParts("span", ChipCert + [Attr("aria-label", AriaText(c))], InnerDoc(c));
    }
  }

  /** The date is shown, and named in the accessible name, exactly when it
      is a non-empty text. */
  lemma DateMeta(c: Cert)
    ensures |InnerDoc(c)| > |Text(Or(c.caption, ""))| + 2 <==> Truthy(c.date)
    ensures AriaText(c) == Or(c.caption, "") <==> !Truthy(c.date)
  {
    if Truthy(c.date) {
      assert |AriaText(c)| > |Or(c.caption, "")|;
    }
  }

  // ---- spellings of the literals, for the proofs above ----

  lemma CertSpelling()
    ensures Plain("chip chip-cert") && Plain("label") && Plain("meta")
    ensures " " + "class" + "=\"" + "chip chip-cert" + "\"" == " class=\"chip chip-cert\""
    ensures "\"" + ">" == "\">" && "\"" + "" + ">" == "\">"
    ensures "</" + "a" + ">" == "</a>"
  {
  }

  lemma KeySpelling()
    ensures " " + "href" + "=\"" == " href=\"" && " " + "aria-label" + "=\"" == " aria-label=\""
    ensures "<" + "a" == "<a" && "<" + "span" == "<span"
  {
  }

  lemma LinkHeadSpelling()
    ensures "<a" + " class=\"chip chip-cert\"" == "<a class=\"chip chip-cert\""
    ensures "<a class=\"chip chip-cert\"" + " href=\"" == "<a class=\"chip chip-cert\" href=\""
  {
  }

  lemma SpanHeadSpelling()
    ensures "<span" + " class=\"chip chip-cert\"" == "<span class=\"chip chip-cert\""
  {
  }

  lemma SpanHeadSpelling2()
    ensures "<span class=\"chip chip-cert\"" + " aria-label=\"" == "<span class=\"chip chip-cert\" aria-label=\""
  {
  }

  lemma CertHeadSpelling()
    ensures "<" + "a" + " class=\"chip chip-cert\"" + (" " + "href" + "=\"") == "<a class=\"chip chip-cert\" href=\""
    ensures "<" + "span" + " class=\"chip chip-cert\"" + (" " + "aria-label" + "=\"")
      == "<span class=\"chip chip-cert\" aria-label=\""
  {
    KeySpelling();
    LinkHeadSpelling();
    SpanHeadSpelling();
    SpanHeadSpelling2();
  }

  lemma CertMidSpelling()
    ensures "\"" + " target=\"_blank\" rel=\"noopener\"" + (" " + "aria-label" + "=\"")
      == "\" target=\"_blank\" rel=\"noopener\"" + " aria-label=\""
  {
    KeySpelling();
    NewTabQuoted();
  }

  lemma LabelSpelling()
    ensures " " + "class" + "=\"" + "label" + "\"" == " class=\"label\""
    ensures "<" + "span" + " class=\"label\"" + ">" == "<span class=\"label\">"
  {
  }

  lemma MetaSpelling()
    ensures " " + "class" + "=\"" + "meta" + "\"" == " class=\"meta\""
    ensures "<" + "span" + " class=\"meta\"" + ">" == "<span class=\"meta\">"
  {
  }

  lemma InnerOpens()
    ensures TokenMarkup(Open("span", [Attr("class", "label")])) == "<span class=\"label\">"
    ensures TokenMarkup(Open("span", [Attr("class", "meta")])) == "<span class=\"meta\">"
    ensures NamedKeys([Attr("class", "label")]) && NamedKeys([Attr("class", "meta")])
  {
    CertSpelling();
    LabelSpelling();
    MetaSpelling();
    ClassAttr("label");
    ClassAttr("meta");
    OpenSpelled("span", [Attr("class", "label")], " class=\"label\"", "<span class=\"label\">");
    OpenSpelled("span", [Attr("class", "meta")], " class=\"meta\"", "<span class=\"meta\">");
  }

  lemma ChipCertAttrs()
    ensures PlainAttrs(ChipCert) && NamedKeys(ChipCert)
    ensures WriteAttrs(ChipCert) == " class=\"chip chip-cert\""
  {
    CertSpelling();
    ClassAttr("chip chip-cert");
  }
}
