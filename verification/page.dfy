/** Pieces of markup several renderers of js/app.js share: a chip, a list
    item, the tag stack, the bullet list, and `xs.map(f).join('')`. Each
    piece comes with the token sequence it is meant to be (its document)
    and a lemma that the string is that document serialized. */
module Page {
  import opened Wrappers
  import opened HtmlEscape
  import opened Markup
  import opened Tags
  import opened JsText

  // ---- lists ----

  /** `xs.map(f).join('')`. */
  function MapJoin<T>(xs: seq<T>, f: T -> string): string {
    if |xs| == 0 then "" else f(xs[0]) + MapJoin(xs[1..], f)
  }

  /** The documents of the items, one after the other. */
  function MapDocs<T>(xs: seq<T>, g: T -> seq<Token>): seq<Token> {
    if |xs| == 0 then [] else g(xs[0]) + MapDocs(xs[1..], g)
  }

  /** If each item is written as its document, the joined items are
      written as the joined documents. */
  lemma {:induction false} MapJoinSerialize<T>(xs: seq<T>, f: T -> string, g: T -> seq<Token>)
    requires forall i :: 0 <= i < |xs| ==> f(xs[i]) == Serialize(g(xs[i]))
    ensures MapJoin(xs, f) == Serialize(MapDocs(xs, g))
    decreases |xs|
  {
    if |xs| > 0 {
      MapJoinSerialize(xs[1..], f, g);
      SerializeAppend(g(xs[0]), MapDocs(xs[1..], g));
    }
  }

  lemma {:induction false} MapDocsWellFormed<T>(xs: seq<T>, g: T -> seq<Token>)
    requires forall i :: 0 <= i < |xs| ==> AllWellFormed(g(xs[i]))
    ensures AllWellFormed(MapDocs(xs, g))
    decreases |xs|
  {
    if |xs| > 0 {
      MapDocsWellFormed(xs[1..], g);
      AppendWellFormed(g(xs[0]), MapDocs(xs[1..], g));
    }
  }

  /** The joined documents of a list followed by one more item: the items
      appear in list order. */
  lemma {:induction false} MapDocsSnoc<T>(xs: seq<T>, x: T, g: T -> seq<Token>)
    ensures MapDocs(xs + [x], g) == MapDocs(xs, g) + g(x)
    decreases |xs|
  {
    if |xs| == 0 {
      assert xs + [x] == [x];
      assert [x][1..] == [];
    } else {
      assert (xs + [x])[0] == xs[0] && (xs + [x])[1..] == xs[1..] + [x];
      MapDocsSnoc(xs[1..], x, g);
    }
  }

  // ---- well-formed documents ----

  lemma AppendWellFormed(a: seq<Token>, b: seq<Token>)
    requires AllWellFormed(a) && AllWellFormed(b)
    ensures AllWellFormed(a + b)
  {
    var ab := a + b;
    forall i | 0 <= i < |ab| ensures WellFormed(ab[i]) {
      if i < |a| { assert ab[i] == a[i]; } else { assert ab[i] == b[i - |a|]; }
    }
  }

  lemma {:induction false} TextWellFormed(s: string)
    ensures AllWellFormed(Text(s))
    decreases |s|
  {
    if |s| > 0 {
      TextWellFormed(s[1..]);
      AppendWellFormed([Chr(s[0])], Text(s[1..]));
    }
  }

  /** An element's first token is its start tag, its last its end tag,
      and between them lies its content. */
  lemma ElementParts(n: string, attrs: seq<Attr>, content: seq<Token>)
    ensures var e := Element(n, attrs, content);
      && |e| == |content| + 2 && e[0] == Open(n, attrs) && e[|e| - 1] == Close(n)
      && e[1..|e| - 1] == content
  {
    var e := Element(n, attrs, content);
    assert e[1..|e| - 1] == content by {
      forall i | 0 <= i < |content| ensures e[1..|e| - 1][i] == content[i] {
        assert e[1 + i] == content[i];
      }
    }
  }

  lemma ElementWellFormed(n: string, attrs: seq<Attr>, content: seq<Token>)
    requires IsName(n) && NamedKeys(attrs) && AllWellFormed(content)
    ensures AllWellFormed(Element(n, attrs, content))
  {
    AppendWellFormed([Open(n, attrs)], content);
    AppendWellFormed([Open(n, attrs)] + content, [Close(n)]);
  }

  // ---- serializing elements ----

  /** An element is written as its start tag, its content and its end
      tag. */
  lemma ElementIs(n: string, attrs: seq<Attr>, content: seq<Token>, open: string, inner: string, close: string)
    requires TokenMarkup(Open(n, attrs)) == open && Serialize(content) == inner
    requires "</" + n + ">" == close
    ensures Serialize(Element(n, attrs, content)) == open + inner + close
  {
    SerializeElement(n, attrs, content);
  }

  /** A text element: its text escaped between the tags. */
  lemma TextElementIs(n: string, attrs: seq<Attr>, t: string, open: string, close: string)
    requires TokenMarkup(Open(n, attrs)) == open
    requires "</" + n + ">" == close
    ensures Serialize(Element(n, attrs, Text(t))) == open + Escape(t) + close
  {
    SerializeText(t);
    ElementIs(n, attrs, Text(t), open, Escape(t), close);
  }

  lemma Serialize2(a: seq<Token>, b: seq<Token>)
    ensures Serialize(a + b) == Serialize(a) + Serialize(b)
  {
    SerializeAppend(a, b);
  }

  lemma Serialize3(a: seq<Token>, b: seq<Token>, c: seq<Token>)
    ensures Serialize(a + b + c) == Serialize(a) + Serialize(b) + Serialize(c)
  {
    SerializeAppend(a + b, c);
    SerializeAppend(a, b);
  }

  lemma Serialize5(a: seq<Token>, b: seq<Token>, c: seq<Token>, d: seq<Token>, e: seq<Token>)
    ensures Serialize(a + b + c + d + e)
      == Serialize(a) + Serialize(b) + Serialize(c) + Serialize(d) + Serialize(e)
  {
    SerializeAppend(a + b + c + d, e);
    SerializeAppend(a + b + c, d);
    SerializeAppend(a + b, c);
    SerializeAppend(a, b);
  }

  /** A start tag with fixed attributes, given how its attributes and the
      whole tag are spelled. */
  lemma OpenSpelled(n: string, attrs: seq<Attr>, w: string, spelled: string)
    requires PlainAttrs(attrs) && WriteAttrs(attrs) == w
    requires "<" + n + w + ">" == spelled
    ensures TokenMarkup(Open(n, attrs)) == spelled
  {
    FixedOpen(n, attrs);
  }

  lemma NoAttrs()
    ensures PlainAttrs([]) && NamedKeys([]) && WriteAttrs([]) == ""
  {
  }

  /** The names links and buttons use. */
  lemma LinkNames()
    ensures IsName("a") && IsName("button") && IsName("href") && IsName("target") && IsName("rel")
    ensures IsName("aria-label") && IsName("aria-hidden") && IsName("id")
  {
  }

  lemma NamedKeysAppend(a: seq<Attr>, b: seq<Attr>)
    requires NamedKeys(a) && NamedKeys(b)
    ensures NamedKeys(a + b)
  {
    var ab := a + b;
    forall i | 0 <= i < |ab| ensures IsName(ab[i].key) {
      if i < |a| { assert ab[i] == a[i]; } else { assert ab[i] == b[i - |a|]; }
    }
  }

  /** The element and attribute names the shared pieces use. */
  lemma PieceNames()
    ensures IsName("span") && IsName("div") && IsName("ul") && IsName("li") && IsName("class")
  {
  }

  /** One `class` attribute. */
  lemma ClassAttr(cls: string)
    requires Plain(cls)
    ensures PlainAttrs([Attr("class", cls)]) && NamedKeys([Attr("class", cls)])
    ensures WriteAttrs([Attr("class", cls)]) == " " + "class" + "=\"" + cls + "\""
  {
    PieceNames();
    WriteOne(Attr("class", cls));
  }

  lemma ChipOpen()
    ensures TokenMarkup(Open("span", [Attr("class", "chip")])) == "<span class=\"chip\">"
    ensures NamedKeys([Attr("class", "chip")])
  {
    ChipSpelling();
    ClassAttr("chip");
    OpenSpelled("span", [Attr("class", "chip")], " class=\"chip\"", "<span class=\"chip\">");
  }

  lemma StackOpen()
    ensures TokenMarkup(Open("div", [Attr("class", "stack")])) == "<div class=\"stack\">"
    ensures NamedKeys([Attr("class", "stack")])
  {
    StackSpelling();
    ClassAttr("stack");
    OpenSpelled("div", [Attr("class", "stack")], " class=\"stack\"", "<div class=\"stack\">");
  }

  lemma ListOpens()
    ensures TokenMarkup(Open("ul", [])) == "<ul>"
    ensures TokenMarkup(Open("li", [])) == "<li>"
  {
    ListSpelling();
    NoAttrs();
    OpenSpelled("ul", [], "", "<ul>");
    OpenSpelled("li", [], "", "<li>");
  }

  /** A start tag with one attribute value from the data, given how its
      fixed parts are spelled. */
  lemma ValueOpenSpelled(n: string, before: seq<Attr>, k: string, v: string, after: seq<Attr>,
                         head: string, tail: string)
    requires PlainAttrs(before) && PlainAttrs(after)
    requires "<" + n + WriteAttrs(before) + (" " + k + "=\"") == head
    requires "\"" + WriteAttrs(after) + ">" == tail
    ensures TokenMarkup(Open(n, before + [Attr(k, v)] + after)) == head + Escape(v) + tail
  {
    OneValueOpen(n, before, k, v, after);
  }

  /** The same with two values from the data. */
  lemma TwoValueOpenSpelled(n: string, before: seq<Attr>, k1: string, v1: string,
                            middle: seq<Attr>, k2: string, v2: string,
                            head: string, mid: string, tail: string)
    requires PlainAttrs(before) && PlainAttrs(middle)
    requires "<" + n + WriteAttrs(before) + (" " + k1 + "=\"") == head
    requires "\"" + WriteAttrs(middle) + (" " + k2 + "=\"") == mid
    requires "\"" + ">" == tail
    ensures TokenMarkup(Open(n, before + [Attr(k1, v1)] + middle + [Attr(k2, v2)]))
      == head + Escape(v1) + mid + Escape(v2) + tail
  {
    TwoValueOpen(n, before, k1, v1, middle, k2, v2);
  }

  /** Two attributes written one after the other. */
  lemma WriteTwo(a: Attr, b: Attr)
    ensures WriteAttrs([a, b]) == WriteAttr(a) + WriteAttr(b)
  {
    assert [a, b][1..] == [b];
    WriteOne(b);
  }

  lemma NewTabJoined()
    ensures " target=\"_blank\"" + " rel=\"noopener\"" == " target=\"_blank\" rel=\"noopener\""
  {
  }

  const NewTab: seq<Attr> := [Attr("target", "_blank"), Attr("rel", "noopener")]

  lemma NewTabAttrs()
    ensures PlainAttrs(NewTab) && NamedKeys(NewTab)
    ensures WriteAttrs(NewTab) == " target=\"_blank\" rel=\"noopener\""
  {
    LinkNames();
    NewTabSpelling();
    NewTabJoined();
    WriteTwo(Attr("target", "_blank"), Attr("rel", "noopener"));
  }

  lemma NewTabQuoted()
    ensures "\"" + " target=\"_blank\" rel=\"noopener\"" == "\" target=\"_blank\" rel=\"noopener\""
  {
    NewTabJoined();
    NewTabQuotedSteps();
    Assoc("\"", " target=\"_blank\"", " rel=\"noopener\"");
  }

  lemma NewTabQuotedSteps()
    ensures "\"" + " target=\"_blank\"" == "\" target=\"_blank\""
    ensures "\" target=\"_blank\"" + " rel=\"noopener\"" == "\" target=\"_blank\" rel=\"noopener\""
  {
  }

  /** The end of a link's start tag after its `href` value. */
  lemma NewTabTail()
    ensures "\"" + WriteAttrs(NewTab) + ">" == "\" target=\"_blank\" rel=\"noopener\">"
  {
    NewTabAttrs();
    NewTabQuoted();
    NewTabClosed();
  }

  lemma AnchorClose()
    ensures "</" + "a" + ">" == "</a>"
  {
  }

  lemma NewTabClosed()
    ensures "\" target=\"_blank\" rel=\"noopener\"" + ">" == "\" target=\"_blank\" rel=\"noopener\">"
  {
  }

  // ---- text ----

  lemma PlainAppend(a: string, b: string)
    requires Plain(a) && Plain(b)
    ensures Plain(a + b)
  {
    var ab := a + b;
    forall i | 0 <= i < |ab| ensures !IsSpecial(ab[i]) {
      if i < |a| { assert ab[i] == a[i]; } else { assert ab[i] == b[i - |a|]; }
    }
  }

  /** `escapeHTML(v)` of a possibly missing value escapes its text, the
      empty text when it is missing. */
  lemma EscapeValueOr(v: Option<string>)
    ensures EscapeValue(v) == Escape(Or(v, ""))
  {
  }

  /** Escaping data between two plain texts escapes only the data. */
  lemma EscapeBetween(p: string, s: string, q: string)
    requires Plain(p) && Plain(q)
    ensures Escape(p + s + q) == p + Escape(s) + q
  {
    EscapeAppend(p + s, q);
    EscapeAfterPlain(p, s);
    PlainEscapes(q);
  }

  // ---- regrouping concatenations ----

  lemma Assoc(a: string, b: string, c: string)
    ensures a + (b + c) == a + b + c
  {
  }

  lemma Wrap2(o: string, a: string, b: string, c: string)
    ensures o + (a + b) + c == o + a + b + c
  {
  }

  lemma Wrap3(o: string, a: string, b: string, d: string, c: string)
    ensures o + (a + b + d) + c == o + a + b + d + c
  {
  }

  lemma Wrap5(o: string, a: string, b: string, d: string, e: string, f: string, c: string)
    ensures o + (a + b + d + e + f) + c == o + a + b + d + e + f + c
  {
  }

  /** The names and tags of the cards and paragraphs of the sections. */
  lemma CardNames()
    ensures IsName("article") && IsName("h3") && IsName("p") && IsName("class")
  {
  }

  lemma CardOpens()
    ensures TokenMarkup(Open("article", [Attr("class", "card")])) == "<article class=\"card\">"
    ensures TokenMarkup(Open("p", [Attr("class", "muted")])) == "<p class=\"muted\">"
    ensures TokenMarkup(Open("div", [Attr("class", "card")])) == "<div class=\"card\">"
    ensures TokenMarkup(Open("p", [])) == "<p>"
    ensures TokenMarkup(Open("h3", [])) == "<h3>"
    ensures NamedKeys([Attr("class", "card")]) && NamedKeys([Attr("class", "muted")])
  {
    CardSpelling();
    ArticleSpelling();
    ParagraphSpelling();
    NoAttrs();
    ClassAttr("card");
    ClassAttr("muted");
    OpenSpelled("article", [Attr("class", "card")], " class=\"card\"", "<article class=\"card\">");
    OpenSpelled("p", [Attr("class", "muted")], " class=\"muted\"", "<p class=\"muted\">");
    OpenSpelled("div", [Attr("class", "card")], " class=\"card\"", "<div class=\"card\">");
    OpenSpelled("p", [], "", "<p>");
    OpenSpelled("h3", [], "", "<h3>");
  }

  // ---- the shared pieces ----

  /** `'<span class="chip">'+escapeHTML(t)+'</span>'`. */
  function ChipHtml(t: string): string {
    "<span class=\"chip\">" + Escape(t) + "</span>"
  }

  function ChipDoc(t: string): seq<Token> {
    Element("span", [Attr("class", "chip")], Text(t))
  }

  /** `'<li>'+escapeHTML(t)+'</li>'`. */
  function ItemHtml(t: string): string {
    "<li>" + Escape(t) + "</li>"
  }

  function ItemDoc(t: string): seq<Token> {
    Element("li", [], Text(t))
  }

  /** The tag stack of a job or project: when `tags` is an array, its tags
      as chips in a `stack` box; otherwise nothing. */
  function TagsHtml(tags: Option<seq<string>>): string {
    match tags
    case Some(ts) => "<div class=\"stack\">" + MapJoin(ts, ChipHtml) + "</div>"
    case None => ""
  }

  function TagsDoc(tags: Option<seq<string>>): seq<Token> {
    match tags
    case Some(ts) => Element("div", [Attr("class", "stack")], MapDocs(ts, ChipDoc))
    case None => []
  }

  /** A bullet list: one list item per entry, in order. */
  function ListHtml(xs: seq<string>): string {
    "<ul>" + MapJoin(xs, ItemHtml) + "</ul>"
  }

  function ListDoc(xs: seq<string>): seq<Token> {
    Element("ul", [], MapDocs(xs, ItemDoc))
  }

  /** An icon: an empty, hidden `span` whose classes are `icon` and the
      icon's name. */
  function IconDoc(name: string): seq<Token> {
    Element("span", [Attr("class", "icon " + name), Attr("aria-hidden", "true")], [])
  }

  lemma IconSteps()
    ensures " " + "aria-hidden" + "=\"" + "true" + "\"" == " aria-hidden=\"true\""
  {
  }

  lemma HiddenTail()
    ensures "\"" + " aria-hidden=\"true\"" + ">" == "\" aria-hidden=\"true\">"
  {
    HiddenSpelling();
    HiddenClose();
  }

  lemma HiddenClose()
    ensures "\" aria-hidden=\"true\"" + ">" == "\" aria-hidden=\"true\">"
  {
  }

  lemma HiddenAttrs()
    ensures PlainAttrs([Attr("aria-hidden", "true")])
    ensures WriteAttrs([Attr("aria-hidden", "true")]) == " aria-hidden=\"true\""
  {
    IconSpelling();
    IconSteps();
    WriteOne(Attr("aria-hidden", "true"));
  }

  lemma IconOpen(name: string)
    ensures TokenMarkup(Open("span", [Attr("class", "icon " + name), Attr("aria-hidden", "true")]))
      == "<span class=\"icon " + Escape(name) + "\" aria-hidden=\"true\">"
  {
    var hidden := [Attr("aria-hidden", "true")];
    HiddenAttrs();
    IconSpelling();
    HiddenTail();
    NoAttrs();
    assert [] + [Attr("class", "icon " + name)] + hidden == [Attr("class", "icon " + name), Attr("aria-hidden", "true")];
    ValueOpenSpelled("span", [], "class", "icon " + name, hidden,
                     "<span class=\"", "\" aria-hidden=\"true\">");
    EscapeAfterPlain("icon ", name);
    Assoc("<span class=\"", "icon ", Escape(name));
  }

  /** The icon is written as the page spells it, with the icon's name
      escaped. */
  lemma IconIs(name: string)
    ensures Serialize(IconDoc(name))
      == "<span class=\"icon " + Escape(name) + "\" aria-hidden=\"true\">" + "</span>"
    ensures AllWellFormed(IconDoc(name))
  {
    var attrs := [Attr("class", "icon " + name), Attr("aria-hidden", "true")];
    IconOpen(name);
    ChipSpelling();
    ElementIs("span", attrs, [], "<span class=\"icon " + Escape(name) + "\" aria-hidden=\"true\">", "", "</span>");
    IconNamed(name);
    PieceNames();
    ElementWellFormed("span", attrs, []);
  }

  lemma IconNamed(name: string)
    ensures NamedKeys([Attr("class", "icon " + name), Attr("aria-hidden", "true")])
  {
    PieceNames();
    LinkNames();
  }

  /** The icon the hero's buttons carry. */
  lemma MailIconIs()
    ensures Serialize(IconDoc("mail")) == "<span class=\"icon mail\" aria-hidden=\"true\">" + "</span>"
    ensures AllWellFormed(IconDoc("mail"))
  {
    IconIs("mail");
    MailIconSpelling();
  }

  lemma MailIconSteps()
    ensures "<span class=\"icon " + "mail" == "<span class=\"icon mail"
    ensures "\" aria-hidden=" + "\"true\">" == "\" aria-hidden=\"true\">"
    ensures "<span class=\"icon mail" + "\" aria-hidden=" == "<span class=\"icon mail\" aria-hidden="
    ensures "<span class=\"icon mail\" aria-hidden=" + "\"true\">" == "<span class=\"icon mail\" aria-hidden=\"true\">"
  {
  }

  // ---- the pieces are their documents ----

  lemma ChipIs(t: string)
    ensures ChipHtml(t) == Serialize(ChipDoc(t))
    ensures AllWellFormed(ChipDoc(t))
  {
    ChipOpen();
    ChipSpelling();
    TextElementIs("span", [Attr("class", "chip")], t, "<span class=\"chip\">", "</span>");
    TextWellFormed(t);
    PieceNames();
    ElementWellFormed("span", [Attr("class", "chip")], Text(t));
  }

  lemma ItemIs(t: string)
    ensures ItemHtml(t) == Serialize(ItemDoc(t))
    ensures AllWellFormed(ItemDoc(t))
  {
    ListOpens();
    ListSpelling();
    NoAttrs();
    TextElementIs("li", [], t, "<li>", "</li>");
    TextWellFormed(t);
    PieceNames();
    ElementWellFormed("li", [], Text(t));
  }

  lemma ChipsAre(ts: seq<string>)
    ensures MapJoin(ts, ChipHtml) == Serialize(MapDocs(ts, ChipDoc))
    ensures AllWellFormed(MapDocs(ts, ChipDoc))
  {
    forall i | 0 <= i < |ts|
      ensures ChipHtml(ts[i]) == Serialize(ChipDoc(ts[i])) && AllWellFormed(ChipDoc(ts[i]))
    {
      ChipIs(ts[i]);
    }
    MapJoinSerialize(ts, ChipHtml, ChipDoc);
    MapDocsWellFormed(ts, ChipDoc);
  }

  lemma TagsAre(tags: Option<seq<string>>)
    ensures TagsHtml(tags) == Serialize(TagsDoc(tags))
    ensures AllWellFormed(TagsDoc(tags))
  {
    if tags.Some? {
      var ts := tags.value;
      ChipsAre(ts);
      StackOpen();
      StackSpelling();
      ElementIs("div", [Attr("class", "stack")], MapDocs(ts, ChipDoc),
                "<div class=\"stack\">", MapJoin(ts, ChipHtml), "</div>");
      PieceNames();
    ElementWellFormed("div", [Attr("class", "stack")], MapDocs(ts, ChipDoc));
    }
  }

  lemma ListIs(xs: seq<string>)
    ensures ListHtml(xs) == Serialize(ListDoc(xs))
    ensures AllWellFormed(ListDoc(xs))
  {
    forall i | 0 <= i < |xs|
      ensures ItemHtml(xs[i]) == Serialize(ItemDoc(xs[i])) && AllWellFormed(ItemDoc(xs[i]))
    {
      ItemIs(xs[i]);
    }
    MapJoinSerialize(xs, ItemHtml, ItemDoc);
    MapDocsWellFormed(xs, ItemDoc);
    ListOpens();
    ListSpelling();
    NoAttrs();
    ElementIs("ul", [], MapDocs(xs, ItemDoc), "<ul>", MapJoin(xs, ItemHtml), "</ul>");
    PieceNames();
    ElementWellFormed("ul", [], MapDocs(xs, ItemDoc));
  }

  // ---- spellings of the literals, for the proofs above ----

  /** The tags the shared pieces use, spelled as the renderers spell them. */
  lemma ChipSpelling()
    ensures Plain("chip")
    ensures " " + "class" + "=\"" + "chip" + "\"" == " class=\"chip\""
    ensures "<" + "span" + " class=\"chip\"" + ">" == "<span class=\"chip\">"
    ensures "</" + "span" + ">" == "</span>"
  {
  }

  lemma StackSpelling()
    ensures Plain("stack")
    ensures " " + "class" + "=\"" + "stack" + "\"" == " class=\"stack\""
    ensures "<" + "div" + " class=\"stack\"" + ">" == "<div class=\"stack\">"
    ensures "</" + "div" + ">" == "</div>"
  {
  }

  lemma ListSpelling()
    ensures "<" + "ul" + "" + ">" == "<ul>" && "</" + "ul" + ">" == "</ul>"
    ensures "<" + "li" + "" + ">" == "<li>" && "</" + "li" + ">" == "</li>"
  {
  }

  /** `target="_blank" rel="noopener"`, which every link to another page
      carries. */
  lemma NewTabSpelling()
    ensures Plain("_blank") && Plain("noopener")
    ensures " " + "target" + "=\"" + "_blank" + "\"" == " target=\"_blank\""
    ensures " " + "rel" + "=\"" + "noopener" + "\"" == " rel=\"noopener\""
  {
  }

  lemma CardSpelling()
    ensures Plain("card") && Plain("muted")
    ensures " " + "class" + "=\"" + "card" + "\"" == " class=\"card\""
    ensures "<" + "div" + " class=\"card\"" + ">" == "<div class=\"card\">"
  {
  }

  lemma ArticleSpelling()
    ensures "<" + "article" + " class=\"card\"" + ">" == "<article class=\"card\">"
    ensures "</" + "article" + ">" == "</article>"
  {
  }

  lemma ParagraphSpelling()
    ensures " " + "class" + "=\"" + "muted" + "\"" == " class=\"muted\""
    ensures "<" + "p" + " class=\"muted\"" + ">" == "<p class=\"muted\">"
    ensures "<" + "p" + "" + ">" == "<p>" && "</" + "p" + ">" == "</p>"
    ensures "<" + "h3" + "" + ">" == "<h3>" && "</" + "h3" + ">" == "</h3>"
  {
  }

  lemma IconSpelling()
    ensures Plain("icon ") && Plain("true")
    ensures "<" + "span" + "" + (" " + "class" + "=\"") == "<span class=\""
    ensures "<span class=\"" + "icon " == "<span class=\"icon "
  {
    IconSteps();
  }

  lemma HiddenSpelling()
    ensures "\"" + " aria-hidden=\"true\"" == "\" aria-hidden=\"true\""
  {
  }

  lemma MailIconSpelling()
    ensures Escape("mail") == "mail"
    ensures "<span class=\"icon " + "mail" + "\" aria-hidden=\"true\">" == "<span class=\"icon mail\" aria-hidden=\"true\">"
  {
    assert Plain("mail");
    PlainEscapes("mail");
    MailIconSteps();
    Assoc("<span class=\"icon mail", "\" aria-hidden=", "\"true\">");
  }
}
