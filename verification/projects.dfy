/** `renderProjects` of js/app.js: one card per project with its name, the
    blurb when there is one, and the tags when they are an array. */
module Projects {
  import opened Wrappers
  import opened JsText
  import opened HtmlEscape
  import opened Markup
  import opened Tags
  import opened Page
  import opened Content

  function Blurb(p: Project): string {
    if Truthy(p.blurb) then "<p class=\"muted\">" + Escape(p.blurb.value) + "</p>" else ""
  }

  /** One project: the card with its name, blurb and tags in order. */
  function ProjectHtml(p: Project): string {
    "<article class=\"card\">" + ("<h3>" + EscapeValue(p.name) + "</h3>") + Blurb(p)
      + TagsHtml(p.tags) + "</article>"
  }

  /** `renderProjects(items)`: the cards of the projects, in order; nothing
      when the list is missing. */
  function RenderProjects(items: Option<seq<Project>>): string {
    MapJoin(items.GetOr([]), ProjectHtml)
  }

  function BlurbDoc(p: Project): seq<Token> {
    if Truthy(p.blurb) then Element("p", [Attr("class", "muted")], Text(p.blurb.value)) else []
  }

  function ProjectDoc(p: Project): seq<Token> {
    Element("article", [Attr("class", "card")],
      Element("h3", [], Text(Or(p.name, ""))) + BlurbDoc(p) + TagsDoc(p.tags))
  }

  function ProjectsDoc(items: Option<seq<Project>>): seq<Token> {
    MapDocs(items.GetOr([]), ProjectDoc)
  }

  lemma NameIs(p: Project)
    ensures "<h3>" + EscapeValue(p.name) + "</h3>" == Serialize(Element("h3", [], Text(Or(p.name, ""))))
    ensures AllWellFormed(Element("h3", [], Text(Or(p.name, ""))))
  {
    EscapeValueOr(p.name);
    CardOpens();
    ParagraphSpelling();
    TextElementIs("h3", [], Or(p.name, ""), "<h3>", "</h3>");
    CardNames();
    NoAttrs();
    TextWellFormed(Or(p.name, ""));
    ElementWellFormed("h3", [], Text(Or(p.name, "")));
  }

  lemma BlurbIs(p: Project)
    ensures Blurb(p) == Serialize(BlurbDoc(p))
    ensures AllWellFormed(BlurbDoc(p))
  {
    if Truthy(p.blurb) {
      CardOpens();
      ParagraphSpelling();
      TextElementIs("p", [Attr("class", "muted")], p.blurb.value, "<p class=\"muted\">", "</p>");
      CardNames();
      TextWellFormed(p.blurb.value);
      ElementWellFormed("p", [Attr("class", "muted")], Text(p.blurb.value));
    }
  }

  /** A project's card is exactly its document written out, and that
      document is well formed. */
  lemma ProjectIs(p: Project)
    ensures ProjectHtml(p) == Serialize(ProjectDoc(p))
    ensures AllWellFormed(ProjectDoc(p))
  {
    var h := Element("h3", [], Text(Or(p.name, "")));
    var content := h + BlurbDoc(p) + TagsDoc(p.tags);
    NameIs(p);
    BlurbIs(p);
    TagsAre(p.tags);
    Serialize3(h, BlurbDoc(p), TagsDoc(p.tags));
    CardOpens();
    ArticleSpelling();
    ElementIs("article", [Attr("class", "card")], content, "<article class=\"card\">", Serialize(content), "</article>");
    Wrap3("<article class=\"card\">", "<h3>" + EscapeValue(p.name) + "</h3>", Blurb(p), TagsHtml(p.tags), "</article>");
    AppendWellFormed(h, BlurbDoc(p));
    AppendWellFormed(h + BlurbDoc(p), TagsDoc(p.tags));
    CardNames();
    ElementWellFormed("article", [Attr("class", "card")], content);
  }

  lemma ProjectsIs(items: Option<seq<Project>>)
    ensures RenderProjects(items) == Serialize(ProjectsDoc(items))
    ensures AllWellFormed(ProjectsDoc(items))
  {
    var ps := items.GetOr([]);
    forall i | 0 <= i < |ps| ensures ProjectHtml(ps[i]) == Serialize(ProjectDoc(ps[i])) && AllWellFormed(ProjectDoc(ps[i])) {
      ProjectIs(ps[i]);
    }
    MapJoinSerialize(ps, ProjectHtml, ProjectDoc);
    MapDocsWellFormed(ps, ProjectDoc);
  }

  /** Reading the section's markup back gives one card per project, in
      list order, whose texts are the data's own texts. */
  lemma ProjectsTokens(items: Option<seq<Project>>)
    ensures Tokenize(RenderProjects(items)) == ProjectsDoc(items)
  {
    ProjectsIs(items);
    TokenizeSerialize(ProjectsDoc(items));
  }

  /** The blurb paragraph is written exactly when the blurb is a non-empty
      text. */
  lemma BlurbShown(p: Project)
    ensures |Blurb(p)| > 0 <==> Truthy(p.blurb)
  {
  }
}
