/** `renderSkills` of js/app.js: one card per group of skills, holding the
    group's name and the list of its skills. */
module Skills {
  import opened Wrappers
  import opened HtmlEscape
  import opened Markup
  import opened Tags
  import opened Page
  import opened Content

  /** One group: its name as the heading and its skills as a list, an empty
      list when the group has none. */
  function GroupHtml(g: SkillGroup): string {
    "<div class=\"card\">" + ("<h3>" + Escape(g.name) + "</h3>") + ListHtml(g.skills.GetOr([])) + "</div>"
  }

  /** `renderSkills(groups)`: the cards of the groups, in the order of their
      keys; nothing when the object is missing. */
  function RenderSkills(groups: Option<seq<SkillGroup>>): string {
    MapJoin(groups.GetOr([]), GroupHtml)
  }

  function GroupDoc(g: SkillGroup): seq<Token> {
    Element("div", [Attr("class", "card")], Element("h3", [], Text(g.name)) + ListDoc(g.skills.GetOr([])))
  }

  function SkillsDoc(groups: Option<seq<SkillGroup>>): seq<Token> {
    MapDocs(groups.GetOr([]), GroupDoc)
  }

  /** A group's card is exactly its document written out, and that
      document is well formed. */
  lemma GroupIs(g: SkillGroup)
    ensures GroupHtml(g) == Serialize(GroupDoc(g))
    ensures AllWellFormed(GroupDoc(g))
  {
    var h := Element("h3", [], Text(g.name));
    var l := ListDoc(g.skills.GetOr([]));
    CardOpens();
    ParagraphSpelling();
    StackSpelling();
    TextElementIs("h3", [], g.name, "<h3>", "</h3>");
    ListIs(g.skills.GetOr([]));
    Serialize2(h, l);
    ElementIs("div", [Attr("class", "card")], h + l, "<div class=\"card\">", Serialize(h + l), "</div>");
    Wrap2("<div class=\"card\">", "<h3>" + Escape(g.name) + "</h3>", ListHtml(g.skills.GetOr([])), "</div>");
    CardNames();
    PieceNames();
    NoAttrs();
    TextWellFormed(g.name);
    ElementWellFormed("h3", [], Text(g.name));
    AppendWellFormed(h, l);
    ElementWellFormed("div", [Attr("class", "card")], h + l);
  }

  lemma SkillsIs(groups: Option<seq<SkillGroup>>)
    ensures RenderSkills(groups) == Serialize(SkillsDoc(groups))
    ensures AllWellFormed(SkillsDoc(groups))
  {
    var gs := groups.GetOr([]);
    forall i | 0 <= i < |gs| ensures GroupHtml(gs[i]) == Serialize(GroupDoc(gs[i])) && AllWellFormed(GroupDoc(gs[i])) {
      GroupIs(gs[i]);
    }
    MapJoinSerialize(gs, GroupHtml, GroupDoc);
    MapDocsWellFormed(gs, GroupDoc);
  }

  /** Reading the section's markup back gives one card per group, in key
      order, each with the group's name and one list item per skill. */
  lemma SkillsTokens(groups: Option<seq<SkillGroup>>)
    ensures Tokenize(RenderSkills(groups)) == SkillsDoc(groups)
  {
    SkillsIs(groups);
    TokenizeSerialize(SkillsDoc(groups));
  }

  /** A group without skills still gets its (empty) list. */
  lemma MissingSkills(g: SkillGroup)
    requires g.skills.None?
    ensures GroupHtml(g) == "<div class=\"card\">" + ("<h3>" + Escape(g.name) + "</h3>") + "<ul></ul>" + "</div>"
  {
    assert MapJoin([], ItemHtml) == "";
    assert "<ul>" + "" + "</ul>" == "<ul></ul>";
  }
}
