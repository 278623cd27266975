/** `renderExperience` of js/app.js: one card per job, each with a heading,
    a line of dates and place, and the optional summary, highlights and
    tags. Adjacent string literals of the source are written split at tag
    boundaries; the concatenation is the same text. */
module Experience {
  import opened Wrappers
  import opened JsText
  import opened HtmlEscape
  import opened Markup
  import opened Tags
  import opened Page
  import opened DateToken
  import opened Content

  /** Month labels that need no escaping. The page writes `fmtDate`'s
      result into the markup unescaped, so the structure of a card only
      survives when the locale's labels are plain. */
  ghost predicate PlainLabels(monthLabel: (int, int) -> string) {
    forall y: int, m: int :: Plain(monthLabel(y, m))
  }

  // ---- the card, piece by piece ----

  /** The heading: the role, then ` - ` and the company when there is
      one. */
  function Heading(job: Job): string {
    "<h3>" + EscapeValue(job.role)
      + (if Truthy(job.company) then " - " + Escape(job.company.value) else "") + "</h3>"
  }

  /** The line of dates and place. The dates are not escaped. */
  function Dates(job: Job, monthLabel: (int, int) -> string): string {
    "<p class=\"muted\">" + FormatDate(job.start, monthLabel) + " \U{2013} "
      + FormatDate(job.end, monthLabel) + " \U{00B7} " + Escape(Or(job.location, "")) + "</p>"
  }

  function Summary(job: Job): string {
    if Truthy(job.summary) then "<p>" + Escape(job.summary.value) + "</p>" else ""
  }

  function Highlights(job: Job): string {
    match job.highlights
    case Some(hs) => ListHtml(hs)
    case None => ""
  }

  /** One job: the card with its five pieces in order. */
  function JobHtml(job: Job, monthLabel: (int, int) -> string): string {
    "<article class=\"card\">" + Heading(job) + Dates(job, monthLabel) + Summary(job)
      + Highlights(job) + TagsHtml(job.tags) + "</article>"
  }

  /** `renderExperience(items)`: the cards of the jobs, in order; nothing
      when the list is missing. */
  function RenderExperience(items: Option<seq<Job>>, monthLabel: (int, int) -> string): string {
    MapJoin(items.GetOr([]), job => JobHtml(job, monthLabel))
  }

  // ---- what the card is meant to be ----

  function HeadingText(job: Job): string {
    Or(job.role, "") + (if Truthy(job.company) then " - " + job.company.value else "")
  }

  function DatesText(job: Job, monthLabel: (int, int) -> string): string {
    FormatDate(job.start, monthLabel) + " \U{2013} " + FormatDate(job.end, monthLabel)
      + " \U{00B7} " + Or(job.location, "")
  }

  function SummaryDoc(job: Job): seq<Token> {
    if Truthy(job.summary) then Element("p", [], Text(job.summary.value)) else []
  }

  function HighlightsDoc(job: Job): seq<Token> {
    match job.highlights
    case Some(hs) => ListDoc(hs)
    case None => []
  }

  function JobDoc(job: Job, monthLabel: (int, int) -> string): seq<Token> {
    Element("article", [Attr("class", "card")],
      Element("h3", [], Text(HeadingText(job)))
      + Element("p", [Attr("class", "muted")], Text(DatesText(job, monthLabel)))
      + SummaryDoc(job)
      + HighlightsDoc(job)
      + TagsDoc(job.tags))
  }

  function ExperienceDoc(items: Option<seq<Job>>, monthLabel: (int, int) -> string): seq<Token> {
    MapDocs(items.GetOr([]), job => JobDoc(job, monthLabel))
  }

  // ---- each piece is its document ----

  lemma HeadingIs(job: Job)
    ensures Heading(job) == Serialize(Element("h3", [], Text(HeadingText(job))))
  {
    var suffix := if Truthy(job.company) then " - " + job.company.value else "";
    EscapeAppend(Or(job.role, ""), suffix);
    EscapeValueOr(job.role);
    if Truthy(job.company) {
      SeparatorsPlain();
      EscapeAfterPlain(" - ", job.company.value);
    }
    CardOpens();
    ParagraphSpelling();
    TextElementIs("h3", [], HeadingText(job), "<h3>", "</h3>");
    Wrap2("<h3>", Escape(Or(job.role, "")), Escape(suffix), "</h3>");
  }

  lemma DatesIs(job: Job, monthLabel: (int, int) -> string)
    requires PlainLabels(monthLabel)
    ensures Dates(job, monthLabel) == Serialize(Element("p", [Attr("class", "muted")], Text(DatesText(job, monthLabel))))
  {
    var f1 := FormatDate(job.start, monthLabel);
    var f2 := FormatDate(job.end, monthLabel);
    var loc := Or(job.location, "");
    FormatDatePlain(job.start, monthLabel);
    FormatDatePlain(job.end, monthLabel);
    SeparatorsPlain();
    PlainAppend(f1, " \U{2013} ");
    PlainAppend(f1 + " \U{2013} ", f2);
    PlainAppend(f1 + " \U{2013} " + f2, " \U{00B7} ");
    EscapeAfterPlain(f1 + " \U{2013} " + f2 + " \U{00B7} ", loc);
    CardOpens();
    ParagraphSpelling();
    TextElementIs("p", [Attr("class", "muted")], DatesText(job, monthLabel), "<p class=\"muted\">", "</p>");
    Wrap5("<p class=\"muted\">", f1, " \U{2013} ", f2, " \U{00B7} ", Escape(loc), "</p>");
  }

  lemma SummaryIs(job: Job)
    ensures Summary(job) == Serialize(SummaryDoc(job))
  {
    if Truthy(job.summary) {
      CardOpens();
      ParagraphSpelling();
      TextElementIs("p", [], job.summary.value, "<p>", "</p>");
    }
  }

  lemma HighlightsIs(job: Job)
    ensures Highlights(job) == Serialize(HighlightsDoc(job))
    ensures AllWellFormed(HighlightsDoc(job))
  {
    if job.highlights.Some? {
      ListIs(job.highlights.value);
    }
  }

  lemma PiecesWellFormed(job: Job, monthLabel: (int, int) -> string)
    ensures AllWellFormed(Element("h3", [], Text(HeadingText(job))))
    ensures AllWellFormed(Element("p", [Attr("class", "muted")], Text(DatesText(job, monthLabel))))
    ensures AllWellFormed(SummaryDoc(job))
  {
    CardNames();
    CardOpens();
    NoAttrs();
    TextWellFormed(HeadingText(job));
    TextWellFormed(DatesText(job, monthLabel));
    ElementWellFormed("h3", [], Text(HeadingText(job)));
    ElementWellFormed("p", [Attr("class", "muted")], Text(DatesText(job, monthLabel)));
    if Truthy(job.summary) {
      TextWellFormed(job.summary.value);
      ElementWellFormed("p", [], Text(job.summary.value));
    }
  }

  /** A job's card is exactly its document written out, and that document
      is well formed. */
  lemma JobIs(job: Job, monthLabel: (int, int) -> string)
    requires PlainLabels(monthLabel)
    ensures JobHtml(job, monthLabel) == Serialize(JobDoc(job, monthLabel))
    ensures AllWellFormed(JobDoc(job, monthLabel))
  {
    var h := Element("h3", [], Text(HeadingText(job)));
    var d := Element("p", [Attr("class", "muted")], Text(DatesText(job, monthLabel)));
    var content := h + d + SummaryDoc(job) + HighlightsDoc(job) + TagsDoc(job.tags);
    HeadingIs(job);
    DatesIs(job, monthLabel);
    SummaryIs(job);
    HighlightsIs(job);
    TagsAre(job.tags);
    Serialize5(h, d, SummaryDoc(job), HighlightsDoc(job), TagsDoc(job.tags));
    CardOpens();
    ArticleSpelling();
    ElementIs("article", [Attr("class", "card")], content, "<article class=\"card\">", Serialize(content), "</article>");
    Wrap5("<article class=\"card\">", Heading(job), Dates(job, monthLabel), Summary(job),
          Highlights(job), TagsHtml(job.tags), "</article>");
    PiecesWellFormed(job, monthLabel);
    AppendWellFormed(h, d);
    AppendWellFormed(h + d, SummaryDoc(job));
    AppendWellFormed(h + d + SummaryDoc(job), HighlightsDoc(job));
    AppendWellFormed(h + d + SummaryDoc(job) + HighlightsDoc(job), TagsDoc(job.tags));
    CardNames();
    ElementWellFormed("article", [Attr("class", "card")], content);
  }

  // ---- the section ----

  /** The markup of the section is the jobs' documents written out, one
      after the other in list order. */
  lemma ExperienceIs(items: Option<seq<Job>>, monthLabel: (int, int) -> string)
    requires PlainLabels(monthLabel)
    ensures RenderExperience(items, monthLabel) == Serialize(ExperienceDoc(items, monthLabel))
    ensures AllWellFormed(ExperienceDoc(items, monthLabel))
  {
    var jobs := items.GetOr([]);
    var f := job => JobHtml(job, monthLabel);
    var g := job => JobDoc(job, monthLabel);
    forall i | 0 <= i < |jobs| ensures f(jobs[i]) == Serialize(g(jobs[i])) && AllWellFormed(g(jobs[i])) {
      JobIs(jobs[i], monthLabel);
    }
    MapJoinSerialize(jobs, f, g);
    MapDocsWellFormed(jobs, g);
  }

  /** Reading the section's markup back gives one card per job, in list
      order, whose texts are the data's own texts: no value from the data
      can open or close an element. */
  lemma ExperienceTokens(items: Option<seq<Job>>, monthLabel: (int, int) -> string)
    requires PlainLabels(monthLabel)
    ensures Tokenize(RenderExperience(items, monthLabel)) == ExperienceDoc(items, monthLabel)
  {
    ExperienceIs(items, monthLabel);
    TokenizeSerialize(ExperienceDoc(items, monthLabel));
  }

  /** The summary paragraph is written exactly when the summary is a
      non-empty text; the highlights list exactly when they are an
      array. */
  lemma OptionalPieces(job: Job)
    ensures |Summary(job)| > 0 <==> Truthy(job.summary)
    ensures |Highlights(job)| > 0 <==> job.highlights.Some?
  {
  }

  // ---- spellings of the literals, for the proofs above ----

  lemma SeparatorsPlain()
    ensures Plain(" - ") && Plain(" \U{2013} ") && Plain(" \U{00B7} ") && Plain("Present")
  {
  }

  /** With plain month labels every `fmtDate` result is plain. */
  lemma FormatDatePlain(ym: Option<string>, monthLabel: (int, int) -> string)
    requires PlainLabels(monthLabel)
    ensures Plain(FormatDate(ym, monthLabel))
  {
    SeparatorsPlain();
    FormatDateSpec(ym, monthLabel);
  }
}
