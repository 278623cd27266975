/** `renderContact` of js/app.js: the contact section's buttons, one per
    entry of `primary_buttons`, of three kinds (copying the address,
    writing to it, opening a link); an entry of any other kind is dropped.
    Adjacent string literals of the source are written split at tag
    boundaries; the concatenation is the same text. */
module ContactButtons {
  import opened Wrappers
  import opened JsText
  import opened HtmlEscape
  import opened Markup
  import opened Tags
  import opened Page
  import opened Content
  import Email

  /** `links[btn.href_key] || '#'`: the link the key names, or `#` when
      there is none or it is empty. A missing key is looked up as the text
      "undefined", a `null` one as "null". */
  function Href(links: map<string, string>, key: Field): string {
    var k := FieldText(key);
    if k in links && |links[k]| > 0 then links[k] else "#"
  }

  /** One button. The address goes into the `mailto:` link as it is, not
      escaped. */
  function ButtonHtml(btn: Button, links: map<string, string>, email: string): string {
    if btn.kind == Some("copy-email") then
      "<button class=\"btn js-copy-email\">" + "<span class=\"icon " + Escape(Or(btn.icon, "mail"))
        + "\" aria-hidden=\"true\">" + "</span>" + " " + Escape(Or(btn.caption, "Copy Email")) + "</button>"
    else if btn.kind == Some("mailto") then
      "<a class=\"btn\" href=\"mailto:" + email + "\">" + "<span class=\"icon " + Escape(Or(btn.icon, "mail"))
        + "\" aria-hidden=\"true\">" + "</span>" + " " + Escape(Or(btn.caption, "Email Me")) + "</a>"
    else if btn.kind == Some("link") then
      "<a class=\"btn\" href=\"" + Escape(Href(links, btn.hrefKey)) + "\" target=\"_blank\" rel=\"noopener\">"
        + "<span class=\"icon " + Escape(Or(btn.icon, "")) + "\" aria-hidden=\"true\">" + "</span>" + " "
        + Escape(Or(btn.caption, "Open")) + "</a>"
    else
      ""
  }

  /** `renderContact(contact)`: the buttons in order; nothing when the list
      is missing. */
  function RenderContact(contact: Contact): string {
    var links := contact.links.GetOr(map[]);
    var email := Email.AssembleEmail(contact.email);
    MapJoin(contact.primaryButtons.GetOr([]), btn => ButtonHtml(btn, links, email))
  }

  // ---- what a button is meant to be ----

  /** The element, default icon and default caption of a kind of button. */
  datatype Style = Style(tag: string, icon: string, caption: string)

  function ButtonStyle(kind: Option<string>): Option<Style> {
    if kind == Some("copy-email") then Some(Style("button", "mail", "Copy Email"))
    else if kind == Some("mailto") then Some(Style("a", "mail", "Email Me"))
    else if kind == Some("link") then Some(Style("a", "", "Open"))
    else None
  }

  function ButtonAttrs(btn: Button, links: map<string, string>, email: string): seq<Attr> {
    if btn.kind == Some("copy-email") then [Attr("class", "btn js-copy-email")]
    else if btn.kind == Some("mailto") then [Attr("class", "btn"), Attr("href", "mailto:" + email)]
    else [Attr("class", "btn"), Attr("href", Href(links, btn.hrefKey))] + NewTab
  }

  /** A button of a known kind: its icon, then a space and its caption;
      the icon and caption fall back to the kind's defaults. */
  function ButtonDoc(btn: Button, links: map<string, string>, email: string): seq<Token> {
    match ButtonStyle(btn.kind)
    case None => []
    case Some(style) =>
      Element(style.tag, ButtonAttrs(btn, links, email),
        IconDoc(Or(btn.icon, style.icon)) + Text(" " + Or(btn.caption, style.caption)))
  }

  function ContactDoc(contact: Contact): seq<Token> {
    var links := contact.links.GetOr(map[]);
    var email := Email.AssembleEmail(contact.email);
    MapDocs(contact.primaryButtons.GetOr([]), btn => ButtonDoc(btn, links, email))
  }

  // ---- each kind of button is its document ----

  lemma ButtonRegroup(o: string, a: string, b: string, c: string, d: string, e: string, f: string, g: string)
    ensures o + ((a + b + c + d) + (e + f)) + g == o + a + b + c + d + e + f + g
  {
  }

  /** A button's content: the icon, then a space and the caption. */
  lemma ButtonBody(n: string, attrs: seq<Attr>, icon: string, caption: string, open: string, close: string)
    requires TokenMarkup(Open(n, attrs)) == open && "</" + n + ">" == close
    ensures Serialize(Element(n, attrs, IconDoc(icon) + Text(" " + caption)))
      == open + "<span class=\"icon " + Escape(icon) + "\" aria-hidden=\"true\">" + "</span>"
         + " " + Escape(caption) + close
  {
    IconIs(icon);
    SerializeText(" " + caption);
    ButtonPlain();
    EscapeAfterPlain(" ", caption);
    Serialize2(IconDoc(icon), Text(" " + caption));
    ElementIs(n, attrs, IconDoc(icon) + Text(" " + caption), open,
              Serialize(IconDoc(icon) + Text(" " + caption)), close);
    ButtonRegroup(open, "<span class=\"icon ", Escape(icon), "\" aria-hidden=\"true\">", "</span>",
                  " ", Escape(caption), close);
  }

  lemma CopyOpen()
    ensures TokenMarkup(Open("button", [Attr("class", "btn js-copy-email")])) == "<button class=\"btn js-copy-email\">"
  {
    ButtonPlain();
    ClassOpenSpelled("button", "btn js-copy-email");
    CopyOpenSpelling();
  }

  lemma MailtoOpen(email: string)
    requires Plain(email)
    ensures TokenMarkup(Open("a", [Attr("class", "btn"), Attr("href", "mailto:" + email)]))
      == "<a class=\"btn\" href=\"mailto:" + email + "\">"
  {
    var head := "<a class=\"btn\" href=\"";
    ButtonPlain();
    ClassAttr("btn");
    NoAttrs();
    ClassValueHead("a", "btn", "href");
    LinkHeadSpelling();
    assert [Attr("class", "btn")] + [Attr("href", "mailto:" + email)] + []
        == [Attr("class", "btn"), Attr("href", "mailto:" + email)];
    ValueOpenSpelled("a", [Attr("class", "btn")], "href", "mailto:" + email, [], head, "\">");
    PlainAppend("mailto:", email);
    PlainEscapes("mailto:" + email);
    Assoc(head, "mailto:", email);
    MailtoHeadSpelling();
  }

  lemma LinkOpen(href: string)
    ensures TokenMarkup(Open("a", [Attr("class", "btn"), Attr("href", href)] + NewTab))
      == "<a class=\"btn\" href=\"" + Escape(href) + "\" target=\"_blank\" rel=\"noopener\">"
  {
    ButtonPlain();
    ClassAttr("btn");
    NewTabAttrs();
    ClassValueHead("a", "btn", "href");
    LinkHeadSpelling();
    NewTabTail();
    assert [Attr("class", "btn")] + [Attr("href", href)] + NewTab
        == [Attr("class", "btn"), Attr("href", href)] + NewTab;
    ValueOpenSpelled("a", [Attr("class", "btn")], "href", href, NewTab,
                     "<a class=\"btn\" href=\"", "\" target=\"_blank\" rel=\"noopener\">");
  }

  /** Each button of a known kind is exactly its document written out. Only
      the `mailto` button writes the address, so only it needs the address
      to be plain. */
  lemma ButtonIs(btn: Button, links: map<string, string>, email: string)
    requires btn.kind == Some("mailto") ==> Plain(email)
    ensures ButtonHtml(btn, links, email) == Serialize(ButtonDoc(btn, links, email))
  {
    ClosesSpelling();
    AnchorClose();
    if btn.kind == Some("copy-email") {
      CopyOpen();
      ButtonBody("button", [Attr("class", "btn js-copy-email")], Or(btn.icon, "mail"),
                 Or(btn.caption, "Copy Email"), "<button class=\"btn js-copy-email\">", "</button>");
    } else if btn.kind == Some("mailto") {
      MailtoOpen(email);
      ButtonBody("a", [Attr("class", "btn"), Attr("href", "mailto:" + email)], Or(btn.icon, "mail"),
                 Or(btn.caption, "Email Me"), "<a class=\"btn\" href=\"mailto:" + email + "\">", "</a>");
    } else if btn.kind == Some("link") {
      var href := Href(links, btn.hrefKey);
      LinkOpen(href);
      ButtonBody("a", [Attr("class", "btn"), Attr("href", href)] + NewTab, Or(btn.icon, ""),
                 Or(btn.caption, "Open"),
                 "<a class=\"btn\" href=\"" + Escape(href) + "\" target=\"_blank\" rel=\"noopener\">", "</a>");
    }
  }

  lemma ButtonWellFormed(btn: Button, links: map<string, string>, email: string)
    ensures AllWellFormed(ButtonDoc(btn, links, email))
  {
    var style := ButtonStyle(btn.kind);
    if style.Some? {
      var attrs := ButtonAttrs(btn, links, email);
      var content := IconDoc(Or(btn.icon, style.value.icon)) + Text(" " + Or(btn.caption, style.value.caption));
      IconIs(Or(btn.icon, style.value.icon));
      TextWellFormed(" " + Or(btn.caption, style.value.caption));
      AppendWellFormed(IconDoc(Or(btn.icon, style.value.icon)), Text(" " + Or(btn.caption, style.value.caption)));
      AttrsNamed(btn, links, email);
      LinkNames();
      ElementWellFormed(style.value.tag, attrs, content);
    }
  }

  lemma AttrsNamed(btn: Button, links: map<string, string>, email: string)
    ensures NamedKeys(ButtonAttrs(btn, links, email))
  {
    PieceNames();
    LinkNames();
    if btn.kind != Some("copy-email") && btn.kind != Some("mailto") {
      NewTabAttrs();
      assert NamedKeys([Attr("class", "btn"), Attr("href", Href(links, btn.hrefKey))]);
      NamedKeysAppend([Attr("class", "btn"), Attr("href", Href(links, btn.hrefKey))], NewTab);
    }
  }

  // ---- the section ----

  /** When there is no `mailto` button or the address needs no escaping,
      the section's markup is the buttons' documents written out, one after
      the other in list order. */
  lemma ContactIs(contact: Contact)
    requires forall b <- contact.primaryButtons.GetOr([]) ::
      b.kind == Some("mailto") ==> Plain(Email.AssembleEmail(contact.email))
    ensures RenderContact(contact) == Serialize(ContactDoc(contact))
    ensures AllWellFormed(ContactDoc(contact))
  {
    var links := contact.links.GetOr(map[]);
    var email := Email.AssembleEmail(contact.email);
    var btns := contact.primaryButtons.GetOr([]);
    var f := btn => ButtonHtml(btn, links, email);
    var g := btn => ButtonDoc(btn, links, email);
    forall i | 0 <= i < |btns| ensures f(btns[i]) == Serialize(g(btns[i])) && AllWellFormed(g(btns[i])) {
      assert btns[i] in btns;
      ButtonIs(btns[i], links, email);
      ButtonWellFormed(btns[i], links, email);
    }
    MapJoinSerialize(btns, f, g);
    MapDocsWellFormed(btns, g);
  }

  /** Reading the section's markup back gives one element per button of a
      known kind, in list order, with the captions, icons and link targets
      of the data as they are. */
  lemma ContactTokens(contact: Contact)
    requires forall b <- contact.primaryButtons.GetOr([]) ::
      b.kind == Some("mailto") ==> Plain(Email.AssembleEmail(contact.email))
    ensures Tokenize(RenderContact(contact)) == ContactDoc(contact)
  {
    ContactIs(contact);
    TokenizeSerialize(ContactDoc(contact));
  }

  /** An entry is dropped exactly when its kind is none of the three. */
  lemma UnknownKind(btn: Button, links: map<string, string>, email: string)
    ensures |ButtonHtml(btn, links, email)| == 0 <==> ButtonStyle(btn.kind).None?
    ensures |ButtonDoc(btn, links, email)| == 0 <==> ButtonStyle(btn.kind).None?
  {
  }

  /** The link target: the entry of `links` the key names when it is a
      non-empty text, `#` otherwise. */
  lemma HrefFallback(links: map<string, string>, key: Field)
    ensures Href(links, key) == "#" <==> FieldText(key) !in links || links[FieldText(key)] in {"", "#"}
  {
  }

  // ---- spellings of the literals, for the proofs above ----

  lemma ButtonPlain()
    ensures Plain("btn js-copy-email") && Plain("btn") && Plain(" ") && Plain("mailto:")
    ensures "\"" + "" + ">" == "\">"
  {
  }

  lemma CopyOpenSpelling()
    ensures "<" + "button" + " class=\"" + "btn js-copy-email" + "\">"
      == "<button class=\"btn js-copy-email\">"
  {
    CopyOpenSpellingStep1();
    CopyOpenSpellingStep2();
  }

  lemma CopyOpenSpellingStep1()
    ensures "<" + "button" == "<button"
    ensures "<button" + " class=\"" == "<button class=\""
  {
  }

  lemma CopyOpenSpellingStep2()
    ensures "<button class=\"" + "btn js-copy-email" == "<button class=\"btn js-copy-email"
    ensures "<button class=\"btn js-copy-email" + "\">" == "<button class=\"btn js-copy-email\">"
  {
  }

  lemma LinkHeadSpelling()
    ensures "<" + "a" + " class=\"" + "btn" + "\" " + "href" + "=\""
      == "<a class=\"btn\" href=\""
  {
    LinkHeadSpellingStep1();
  }

  lemma LinkHeadSpellingStep1()
    ensures "<" + "a" == "<a"
    ensures "<a" + " class=\"" == "<a class=\""
    ensures "<a class=\"" + "btn" == "<a class=\"btn"
    ensures "<a class=\"btn" + "\" " == "<a class=\"btn\" "
    ensures "<a class=\"btn\" " + "href" == "<a class=\"btn\" href"
    ensures "<a class=\"btn\" href" + "=\"" == "<a class=\"btn\" href=\""
  {
  }

  lemma MailtoHeadSpelling()
    ensures "<a class=\"btn\" href=\"" + "mailto:"
      == "<a class=\"btn\" href=\"mailto:"
  {
  }

  lemma ClosesSpelling()
    ensures "</" + "button" + ">"
      == "</button>"
  {
    ClosesSpellingStep1();
  }

  lemma ClosesSpellingStep1()
    ensures "</" + "button" == "</button"
    ensures "</button" + ">" == "</button>"
  {
  }
}
