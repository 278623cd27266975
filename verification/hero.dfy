/** `renderHero` of js/app.js: the top of the page. A heading, the
    optional tagline, the lead paragraph, a row of three fixed buttons
    (the CV link, copying the address, writing to it) and the optional
    chips. Adjacent string literals of the source are written split at tag
    boundaries; the concatenation is the same text. */
module Hero {
  import opened Wrappers
  import opened JsText
  import opened HtmlEscape
  import opened Markup
  import opened Tags
  import opened Page
  import opened Content
  import Email

  // ---- the section, piece by piece ----

  function Title(intro: Intro): string {
    "<h1>" + EscapeValue(intro.headline) + "</h1>"
  }

  function Tagline(intro: Intro): string {
    if Truthy(intro.subtitle) then "<p class=\"tagline muted\">" + Escape(intro.subtitle.value) + "</p>" else ""
  }

  function Lead(intro: Intro): string {
    "<p class=\"lead hero-lead\">" + EscapeValue(intro.summary) + "</p>"
  }

  /** The CV link, opened in a new tab. */
  function CvButton(cvPath: Option<string>): string {
    "<a class=\"btn primary\" href=\"" + EscapeValue(cvPath) + "\" target=\"_blank\" rel=\"noopener\">"
      + "<span class=\"icon mail\" aria-hidden=\"true\">" + "</span>" + " Download CV" + "</a>"
  }

  /** The button the page wires to the clipboard. */
  function CopyButton(): string {
    "<button class=\"btn\" id=\"copyEmail\">" + "<span class=\"icon mail\" aria-hidden=\"true\">"
      + "</span>" + " Copy Email" + "</button>"
  }

  /** The `mailto:` link; the address is not escaped. */
  function MailButton(email: string): string {
    "<a class=\"btn\" id=\"mailLink\" href=\"mailto:" + email + "\">"
      + "<span class=\"icon mail\" aria-hidden=\"true\">" + "</span>" + " Email Me" + "</a>"
  }

  function Row(cvPath: Option<string>, email: string): string {
    "<div class=\"row mt-20\">" + (CvButton(cvPath) + CopyButton() + MailButton(email)) + "</div>"
  }

  /** The chips, in a box that is left out when they come to no text. */
  function ChipBox(intro: Intro): string {
    var chips := MapJoin(intro.chips.GetOr([]), ChipHtml);
    if |chips| > 0 then "<div class=\"stack hero-chips\">" + chips + "</div>" else ""
  }

  /** `renderHero(intro, contact)`: the markup of the hero section. */
  function RenderHero(intro: Intro, contact: Contact): string {
    var email := Email.AssembleEmail(contact.email);
    Title(intro) + Tagline(intro) + Lead(intro) + Row(intro.cvPath, email) + ChipBox(intro)
  }

  // ---- what the section is meant to be ----

  function TitleDoc(intro: Intro): seq<Token> {
    Element("h1", [], Text(Or(intro.headline, "")))
  }

  function TaglineDoc(intro: Intro): seq<Token> {
    if Truthy(intro.subtitle) then Element("p", [Attr("class", "tagline muted")], Text(intro.subtitle.value)) else []
  }

  function LeadDoc(intro: Intro): seq<Token> {
    Element("p", [Attr("class", "lead hero-lead")], Text(Or(intro.summary, "")))
  }

  function CvDoc(cvPath: Option<string>): seq<Token> {
    Element("a", [Attr("class", "btn primary"), Attr("href", Or(cvPath, ""))] + NewTab,
      IconDoc("mail") + Text(" Download CV"))
  }

  function CopyDoc(): seq<Token> {
    Element("button", [Attr("class", "btn"), Attr("id", "copyEmail")], IconDoc("mail") + Text(" Copy Email"))
  }

  function MailDoc(email: string): seq<Token> {
    Element("a", [Attr("class", "btn"), Attr("id", "mailLink"), Attr("href", "mailto:" + email)],
      IconDoc("mail") + Text(" Email Me"))
  }

  function RowDoc(cvPath: Option<string>, email: string): seq<Token> {
    Element("div", [Attr("class", "row mt-20")], CvDoc(cvPath) + CopyDoc() + MailDoc(email))
  }

  function ChipBoxDoc(intro: Intro): seq<Token> {
    var chips := intro.chips.GetOr([]);
    if |chips| > 0 then Element("div", [Attr("class", "stack hero-chips")], MapDocs(chips, ChipDoc)) else []
  }

  function HeroDoc(intro: Intro, contact: Contact): seq<Token> {
    var email := Email.AssembleEmail(contact.email);
    TitleDoc(intro) + TaglineDoc(intro) + LeadDoc(intro) + RowDoc(intro.cvPath, email) + ChipBoxDoc(intro)
  }

  // ---- the start tags ----

  lemma TitleOpen()
    ensures TokenMarkup(Open("h1", [])) == "<h1>"
  {
    NoAttrs();
    TitleSpelling();
    OpenSpelled("h1", [], "", "<h1>");
  }

  lemma TaglineOpen()
    ensures TokenMarkup(Open("p", [Attr("class", "tagline muted")])) == "<p class=\"tagline muted\">"
  {
    HeroPlain();
    ClassOpenSpelled("p", "tagline muted");
    TaglineSpelling();
  }

  lemma LeadOpen()
    ensures TokenMarkup(Open("p", [Attr("class", "lead hero-lead")])) == "<p class=\"lead hero-lead\">"
  {
    HeroPlain();
    ClassOpenSpelled("p", "lead hero-lead");
    LeadSpelling();
  }

  lemma RowOpen()
    ensures TokenMarkup(Open("div", [Attr("class", "row mt-20")])) == "<div class=\"row mt-20\">"
  {
    HeroPlain();
    ClassOpenSpelled("div", "row mt-20");
    RowSpelling();
  }

  lemma ChipBoxOpen()
    ensures TokenMarkup(Open("div", [Attr("class", "stack hero-chips")])) == "<div class=\"stack hero-chips\">"
  {
    HeroPlain();
    ClassOpenSpelled("div", "stack hero-chips");
    ChipBoxSpelling();
  }

  lemma ParagraphNamed(cls: string)
    ensures IsName("p") && NamedKeys([Attr("class", cls)])
  {
    CardNames();
  }

  lemma RowNamed()
    ensures IsName("div") && NamedKeys([Attr("class", "row mt-20")])
  {
    PieceNames();
  }

  lemma ChipBoxNamed()
    ensures IsName("div") && NamedKeys([Attr("class", "stack hero-chips")])
  {
    PieceNames();
  }

  lemma CvOpen(href: string)
    ensures TokenMarkup(Open("a", [Attr("class", "btn primary"), Attr("href", href)] + NewTab))
      == "<a class=\"btn primary\" href=\"" + Escape(href) + "\" target=\"_blank\" rel=\"noopener\">"
  {
    HeroPlain();
    ClassAttr("btn primary");
    NewTabAttrs();
    ClassValueHead("a", "btn primary", "href");
    CvHeadSpelling();
    NewTabTail();
    assert [Attr("class", "btn primary")] + [Attr("href", href)] + NewTab
        == [Attr("class", "btn primary"), Attr("href", href)] + NewTab;
    ValueOpenSpelled("a", [Attr("class", "btn primary")], "href", href, NewTab,
                     "<a class=\"btn primary\" href=\"", "\" target=\"_blank\" rel=\"noopener\">");
  }

  lemma CopyOpen()
    ensures TokenMarkup(Open("button", [Attr("class", "btn"), Attr("id", "copyEmail")]))
      == "<button class=\"btn\" id=\"copyEmail\">"
  {
    HeroPlain();
    TwoFixedOpen("button", "class", "btn", "id", "copyEmail");
    CopySpelling();
  }

  lemma MailOpen(email: string)
    requires Plain(email)
    ensures TokenMarkup(Open("a", [Attr("class", "btn"), Attr("id", "mailLink"), Attr("href", "mailto:" + email)]))
      == "<a class=\"btn\" id=\"mailLink\" href=\"mailto:" + email + "\">"
  {
    var head := "<a class=\"btn\" id=\"mailLink\" href=\"";
    var before := [Attr("class", "btn"), Attr("id", "mailLink")];
    HeroPlain();
    TwoPlain("class", "btn", "id", "mailLink");
    NoAttrs();
    EmptyTail();
    TwoAttrHead("a", "class", "btn", "id", "mailLink", "href");
    MailHeadSpelling();
    assert before + [Attr("href", "mailto:" + email)] + []
        == [Attr("class", "btn"), Attr("id", "mailLink"), Attr("href", "mailto:" + email)];
    ValueOpenSpelled("a", before, "href", "mailto:" + email, [], head, "\">");
    PlainAppend("mailto:", email);
    PlainEscapes("mailto:" + email);
    Assoc(head, "mailto:", email);
    MailtoSpelling();
  }

  // ---- each piece is its document ----

  /** A button whose content is the mail icon and a fixed caption. */
  lemma MailIconButton(n: string, attrs: seq<Attr>, caption: string, open: string, close: string)
    requires TokenMarkup(Open(n, attrs)) == open && "</" + n + ">" == close
    requires Plain(caption)
    ensures Serialize(Element(n, attrs, IconDoc("mail") + Text(caption)))
      == open + "<span class=\"icon mail\" aria-hidden=\"true\">" + "</span>" + caption + close
  {
    MailIconIs();
    SerializeText(caption);
    PlainEscapes(caption);
    Serialize2(IconDoc("mail"), Text(caption));
    ElementIs(n, attrs, IconDoc("mail") + Text(caption), open, Serialize(IconDoc("mail") + Text(caption)), close);
    Wrap3(open, "<span class=\"icon mail\" aria-hidden=\"true\">", "</span>", caption, close);
  }

  lemma CvIs(cvPath: Option<string>)
    ensures CvButton(cvPath) == Serialize(CvDoc(cvPath))
  {
    var href := Or(cvPath, "");
    CaptionsPlain();
    AnchorClose();
    EscapeValueOr(cvPath);
    CvOpen(href);
    MailIconButton("a", [Attr("class", "btn primary"), Attr("href", href)] + NewTab, " Download CV",
      "<a class=\"btn primary\" href=\"" + Escape(href) + "\" target=\"_blank\" rel=\"noopener\">", "</a>");
  }

  lemma CopyIs()
    ensures CopyButton() == Serialize(CopyDoc())
  {
    CaptionsPlain();
    HeroCloses();
    CopyOpen();
    MailIconButton("button", [Attr("class", "btn"), Attr("id", "copyEmail")], " Copy Email",
      "<button class=\"btn\" id=\"copyEmail\">", "</button>");
  }

  lemma MailIs(email: string)
    requires Plain(email)
    ensures MailButton(email) == Serialize(MailDoc(email))
  {
    CaptionsPlain();
    AnchorClose();
    MailOpen(email);
    MailIconButton("a", [Attr("class", "btn"), Attr("id", "mailLink"), Attr("href", "mailto:" + email)], " Email Me",
      "<a class=\"btn\" id=\"mailLink\" href=\"mailto:" + email + "\">", "</a>");
  }

  /** A button of the mail icon and a caption is well formed. */
  lemma MailIconButtonWellFormed(n: string, attrs: seq<Attr>, caption: string)
    requires IsName(n) && NamedKeys(attrs)
    ensures AllWellFormed(Element(n, attrs, IconDoc("mail") + Text(caption)))
  {
    MailIconIs();
    TextWellFormed(caption);
    AppendWellFormed(IconDoc("mail"), Text(caption));
    ElementWellFormed(n, attrs, IconDoc("mail") + Text(caption));
  }

  lemma CvWellFormed(cvPath: Option<string>)
    ensures AllWellFormed(CvDoc(cvPath))
  {
    var cv := [Attr("class", "btn primary"), Attr("href", Or(cvPath, ""))];
    PieceNames();
    LinkNames();
    NewTabAttrs();
    assert NamedKeys(cv);
    NamedKeysAppend(cv, NewTab);
    MailIconButtonWellFormed("a", cv + NewTab, " Download CV");
  }

  lemma CopyWellFormed()
    ensures AllWellFormed(CopyDoc())
  {
    CopyNamed();
    MailIconButtonWellFormed("button", [Attr("class", "btn"), Attr("id", "copyEmail")], " Copy Email");
  }

  lemma CopyNamed()
    ensures IsName("button") && NamedKeys([Attr("class", "btn"), Attr("id", "copyEmail")])
  {
    PieceNames();
    LinkNames();
  }

  lemma MailWellFormed(email: string)
    ensures AllWellFormed(MailDoc(email))
  {
    PieceNames();
    LinkNames();
    MailIconButtonWellFormed("a", [Attr("class", "btn"), Attr("id", "mailLink"), Attr("href", "mailto:" + email)],
      " Email Me");
  }

  lemma RowIs(cvPath: Option<string>, email: string)
    requires Plain(email)
    ensures Row(cvPath, email) == Serialize(RowDoc(cvPath, email))
    ensures AllWellFormed(RowDoc(cvPath, email))
  {
    var content := CvDoc(cvPath) + CopyDoc() + MailDoc(email);
    CvIs(cvPath);
    CopyIs();
    MailIs(email);
    Serialize3(CvDoc(cvPath), CopyDoc(), MailDoc(email));
    RowOpen();
    DivClose();
    ElementIs("div", [Attr("class", "row mt-20")], content, "<div class=\"row mt-20\">", Serialize(content), "</div>");
    CvWellFormed(cvPath);
    CopyWellFormed();
    MailWellFormed(email);
    AppendWellFormed(CvDoc(cvPath), CopyDoc());
    AppendWellFormed(CvDoc(cvPath) + CopyDoc(), MailDoc(email));
    RowNamed();
    ElementWellFormed("div", [Attr("class", "row mt-20")], content);
  }

  lemma TitleIs(intro: Intro)
    ensures Title(intro) == Serialize(TitleDoc(intro)) && AllWellFormed(TitleDoc(intro))
  {
    var t := Or(intro.headline, "");
    TitleOpen();
    TitleCloses();
    EscapeValueOr(intro.headline);
    TextElementIs("h1", [], t, "<h1>", "</h1>");
    TextWellFormed(t);
    HeroNames();
    NoAttrs();
    ElementWellFormed("h1", [], Text(t));
  }

  lemma TaglineIs(intro: Intro)
    ensures Tagline(intro) == Serialize(TaglineDoc(intro)) && AllWellFormed(TaglineDoc(intro))
  {
    if Truthy(intro.subtitle) {
      var s := intro.subtitle.value;
      TaglineOpen();
      ParagraphClose();
      TextElementIs("p", [Attr("class", "tagline muted")], s, "<p class=\"tagline muted\">", "</p>");
      TextWellFormed(s);
      ParagraphNamed("tagline muted");
      ElementWellFormed("p", [Attr("class", "tagline muted")], Text(s));
    }
  }

  lemma LeadIs(intro: Intro)
    ensures Lead(intro) == Serialize(LeadDoc(intro)) && AllWellFormed(LeadDoc(intro))
  {
    var s := Or(intro.summary, "");
    LeadOpen();
    ParagraphClose();
    EscapeValueOr(intro.summary);
    TextElementIs("p", [Attr("class", "lead hero-lead")], s, "<p class=\"lead hero-lead\">", "</p>");
    TextWellFormed(s);
    ParagraphNamed("lead hero-lead");
    ElementWellFormed("p", [Attr("class", "lead hero-lead")], Text(s));
  }

  /** A non-empty list of chips comes to a non-empty text. */
  lemma ChipsShown(chips: seq<string>)
    ensures |MapJoin(chips, ChipHtml)| > 0 <==> |chips| > 0
  {
    if |chips| > 0 {
      assert |ChipHtml(chips[0])| > 0;
    }
  }

  lemma ChipBoxIs(intro: Intro)
    ensures ChipBox(intro) == Serialize(ChipBoxDoc(intro))
    ensures AllWellFormed(ChipBoxDoc(intro))
  {
    var chips := intro.chips.GetOr([]);
    ChipsShown(chips);
    if |chips| > 0 {
      var content := MapDocs(chips, ChipDoc);
      ChipsAre(chips);
      ChipBoxOpen();
      DivClose();
      ElementIs("div", [Attr("class", "stack hero-chips")], content, "<div class=\"stack hero-chips\">",
                MapJoin(chips, ChipHtml), "</div>");
      ChipBoxNamed();
      ElementWellFormed("div", [Attr("class", "stack hero-chips")], content);
    }
  }

  // ---- the section ----

  /** With an address that needs no escaping, the hero's markup is its
      document written out, and that document is well formed. */
  lemma HeroIs(intro: Intro, contact: Contact)
    requires Plain(Email.AssembleEmail(contact.email))
    ensures RenderHero(intro, contact) == Serialize(HeroDoc(intro, contact))
    ensures AllWellFormed(HeroDoc(intro, contact))
  {
    var email := Email.AssembleEmail(contact.email);
    TitleIs(intro);
    TaglineIs(intro);
    LeadIs(intro);
    RowIs(intro.cvPath, email);
    ChipBoxIs(intro);
    Serialize5(TitleDoc(intro), TaglineDoc(intro), LeadDoc(intro), RowDoc(intro.cvPath, email), ChipBoxDoc(intro));
    AppendWellFormed(TitleDoc(intro), TaglineDoc(intro));
    AppendWellFormed(TitleDoc(intro) + TaglineDoc(intro), LeadDoc(intro));
    AppendWellFormed(TitleDoc(intro) + TaglineDoc(intro) + LeadDoc(intro), RowDoc(intro.cvPath, email));
    AppendWellFormed(TitleDoc(intro) + TaglineDoc(intro) + LeadDoc(intro) + RowDoc(intro.cvPath, email),
                     ChipBoxDoc(intro));
  }

  /** Reading the hero's markup back gives the heading, the tagline when
      there is one, the lead, the row of three buttons and the chip box
      when there are chips, with the data's texts as they are. */
  lemma HeroTokens(intro: Intro, contact: Contact)
    requires Plain(Email.AssembleEmail(contact.email))
    ensures Tokenize(RenderHero(intro, contact)) == HeroDoc(intro, contact)
  {
    HeroIs(intro, contact);
    TokenizeSerialize(HeroDoc(intro, contact));
  }

  /** The tagline is written exactly when the subtitle is a non-empty
      text, the chip box exactly when there is at least one chip. */
  lemma OptionalPieces(intro: Intro)
    ensures |Tagline(intro)| > 0 <==> Truthy(intro.subtitle)
    ensures |ChipBox(intro)| > 0 <==> |intro.chips.GetOr([])| > 0
  {
    ChipsShown(intro.chips.GetOr([]));
  }

  // ---- spellings of the literals, for the proofs above ----

  lemma HeroPlain()
    ensures Plain("tagline muted") && Plain("lead hero-lead") && Plain("row mt-20")
    ensures Plain("stack hero-chips") && Plain("btn primary") && Plain("btn") && Plain("mailLink")
    ensures Plain("copyEmail") && Plain("mailto:")
  {
  }

  lemma CaptionsPlain()
    ensures Plain(" Download CV") && Plain(" Copy Email") && Plain(" Email Me")
  {
  }

  lemma HeroNames()
    ensures IsName("h1") && IsName("p") && IsName("div") && IsName("a") && IsName("button")
    ensures IsName("class") && IsName("id") && IsName("href")
  {
    CardNames();
    PieceNames();
    LinkNames();
  }

  lemma EmptyTail()
    ensures "\"" + "" + ">" == "\">"
  {
  }

  lemma DivClose()
    ensures "</" + "div" + ">" == "</div>"
  {
  }

  lemma ParagraphClose()
    ensures "</" + "p" + ">" == "</p>"
  {
  }

  lemma TitleSpelling()
    ensures "<" + "h1" + "" + ">"
      == "<h1>"
  {
    TitleSpellingStep1();
  }

  lemma TitleSpellingStep1()
    ensures "<" + "h1" == "<h1"
    ensures "<h1" + "" == "<h1"
    ensures "<h1" + ">" == "<h1>"
  {
  }

  lemma TitleCloses()
    ensures "</" + "h1" + ">"
      == "</h1>"
  {
    TitleClosesStep1();
  }

  lemma TitleClosesStep1()
    ensures "</" + "h1" == "</h1"
    ensures "</h1" + ">" == "</h1>"
  {
  }

  lemma TaglineSpelling()
    ensures "<" + "p" + " class=\"" + "tagline muted" + "\">"
      == "<p class=\"tagline muted\">"
  {
    TaglineSpellingStep1();
  }

  lemma TaglineSpellingStep1()
    ensures "<" + "p" == "<p"
    ensures "<p" + " class=\"" == "<p class=\""
    ensures "<p class=\"" + "tagline muted" == "<p class=\"tagline muted"
    ensures "<p class=\"tagline muted" + "\">" == "<p class=\"tagline muted\">"
  {
  }

  lemma LeadSpelling()
    ensures "<" + "p" + " class=\"" + "lead hero-lead" + "\">"
      == "<p class=\"lead hero-lead\">"
  {
    LeadSpellingStep1();
  }

  lemma LeadSpellingStep1()
    ensures "<" + "p" == "<p"
    ensures "<p" + " class=\"" == "<p class=\""
    ensures "<p class=\"" + "lead hero-lead" == "<p class=\"lead hero-lead"
    ensures "<p class=\"lead hero-lead" + "\">" == "<p class=\"lead hero-lead\">"
  {
  }

  lemma RowSpelling()
    ensures "<" + "div" + " class=\"" + "row mt-20" + "\">"
      == "<div class=\"row mt-20\">"
  {
    RowSpellingStep1();
  }

  lemma RowSpellingStep1()
    ensures "<" + "div" == "<div"
    ensures "<div" + " class=\"" == "<div class=\""
    ensures "<div class=\"" + "row mt-20" == "<div class=\"row mt-20"
    ensures "<div class=\"row mt-20" + "\">" == "<div class=\"row mt-20\">"
  {
  }

  lemma ChipBoxSpelling()
    ensures "<" + "div" + " class=\"" + "stack hero-chips" + "\">"
      == "<div class=\"stack hero-chips\">"
  {
    ChipBoxSpellingStep1();
  }

  lemma ChipBoxSpellingStep1()
    ensures "<" + "div" == "<div"
    ensures "<div" + " class=\"" == "<div class=\""
    ensures "<div class=\"" + "stack hero-chips" == "<div class=\"stack hero-chips"
    ensures "<div class=\"stack hero-chips" + "\">" == "<div class=\"stack hero-chips\">"
  {
  }

  lemma CvHeadSpelling()
    ensures "<" + "a" + " class=\"" + "btn primary" + "\" " + "href" + "=\""
      == "<a class=\"btn primary\" href=\""
  {
    CvHeadSpellingStep1();
  }

  lemma CvHeadSpellingStep1()
    ensures "<" + "a" == "<a"
    ensures "<a" + " class=\"" == "<a class=\""
    ensures "<a class=\"" + "btn primary" == "<a class=\"btn primary"
    ensures "<a class=\"btn primary" + "\" " == "<a class=\"btn primary\" "
    ensures "<a class=\"btn primary\" " + "href" == "<a class=\"btn primary\" href"
    ensures "<a class=\"btn primary\" href" + "=\"" == "<a class=\"btn primary\" href=\""
  {
  }

  lemma CopySpelling()
    ensures "<" + "button" + " " + "class" + "=\"" + "btn" + "\" " + "id" + "=\"" + "copyEmail" + "\">"
      == "<button class=\"btn\" id=\"copyEmail\">"
  {
    CopySpellingStep1();
  }

  lemma CopySpellingStep1()
    ensures "<" + "button" == "<button"
    ensures "<button" + " " == "<button "
    ensures "<button " + "class" == "<button class"
    ensures "<button class" + "=\"" == "<button class=\""
    ensures "<button class=\"" + "btn" == "<button class=\"btn"
    ensures "<button class=\"btn" + "\" " == "<button class=\"btn\" "
    ensures "<button class=\"btn\" " + "id" == "<button class=\"btn\" id"
    ensures "<button class=\"btn\" id" + "=\"" == "<button class=\"btn\" id=\""
    ensures "<button class=\"btn\" id=\"" + "copyEmail" == "<button class=\"btn\" id=\"copyEmail"
    ensures "<button class=\"btn\" id=\"copyEmail" + "\">" == "<button class=\"btn\" id=\"copyEmail\">"
  {
  }

  lemma MailHeadSpelling()
    ensures "<" + "a" + " " + "class" + "=\"" + "btn" + "\" " + "id" + "=\"" + "mailLink" + "\" " + "href" + "=\""
      == "<a class=\"btn\" id=\"mailLink\" href=\""
  {
    MailHeadSpellingStep1();
  }

  lemma MailHeadSpellingStep1()
    ensures "<" + "a" == "<a"
    ensures "<a" + " " == "<a "
    ensures "<a " + "class" == "<a class"
    ensures "<a class" + "=\"" == "<a class=\""
    ensures "<a class=\"" + "btn" == "<a class=\"btn"
    ensures "<a class=\"btn" + "\" " == "<a class=\"btn\" "
    ensures "<a class=\"btn\" " + "id" == "<a class=\"btn\" id"
    ensures "<a class=\"btn\" id" + "=\"" == "<a class=\"btn\" id=\""
    ensures "<a class=\"btn\" id=\"" + "mailLink" == "<a class=\"btn\" id=\"mailLink"
    ensures "<a class=\"btn\" id=\"mailLink" + "\" " == "<a class=\"btn\" id=\"mailLink\" "
    ensures "<a class=\"btn\" id=\"mailLink\" " + "href" == "<a class=\"btn\" id=\"mailLink\" href"
    ensures "<a class=\"btn\" id=\"mailLink\" href" + "=\"" == "<a class=\"btn\" id=\"mailLink\" href=\""
  {
  }

  lemma MailtoSpelling()
    ensures "<a class=\"btn\" id=\"mailLink\" href=\"" + "mailto:"
      == "<a class=\"btn\" id=\"mailLink\" href=\"mailto:"
  {
  }

  lemma HeroCloses()
    ensures "</" + "button" + ">"
      == "</button>"
  {
    HeroClosesStep1();
  }

  lemma HeroClosesStep1()
    ensures "</" + "button" == "</button"
    ensures "</button" + ">" == "</button>"
  {
  }
}
