/**
 The generated Markdown in full: the three files of scripts/scaffold-spec-from-context.js and the handoff of
 scripts/create-implementation-handoff.js, and the provenance that is read back from them.
 */
module GeneratedDocuments {
  import opened Prelude
  import opened JsText
  import opened TextLines
  import opened MarkdownSections
  import opened Provenance
  import opened SourcePatterns
  import opened Templates

  /* ---------- Line by line ---------- */

  /** Single lines, none of which opens the section `own`. */
  predicate Calm(own: string, lines: seq<string>) {
    forall i | 0 <= i < |lines| :: NoBreaks(lines[i]) && Heading(lines[i]) != Some(own)
  }

  lemma CalmConcat(own: string, a: seq<string>, b: seq<string>)
    requires Calm(own, a) && Calm(own, b)
    ensures Calm(own, a + b)
  {
  }

  lemma PlainIsCalm(own: string, lines: seq<string>)
    requires AllPlain(lines)
    ensures Calm(own, lines)
  {
    assert "##"[0] == '#';
    assert forall i | 0 <= i < |lines| :: Plain(lines[i]);
  }

  /** Another title is another heading. */
  lemma OtherTitle(own: string, title: string)
    requires Tight(title) && NoBreaks(title) && title != own
    ensures NoBreaks("## " + title) && Heading("## " + title) != Some(own)
  {
    var line := "## " + title;
    assert line[2..] == " " + title;
    TrimEndOfConcat(" ", title);
    TrimStartSpace(title);
  }

  lemma PrintableIsLine(s: string)
    requires IsTitle(s)
    ensures NoBreaks(s) && !HasTerminator(s) && Tight(s)
  {
  }

  lemma PartIsCalm(own: string, p: Part)
    requires Elsewhere(own, p)
    ensures Calm(own, PartLines(p))
  {
    PrintableIsLine(p.title);
    OtherTitle(own, p.title);
    TitleIsNoHeading("");
    PlainIsCalm(own, p.lines);
    CalmConcat(own, p.lines, [""]);
    CalmConcat(own, ["## " + p.title, ""], p.lines + [""]);
  }

  lemma {:induction false} RenderIsCalm(own: string, parts: seq<Part>)
    requires AllElsewhere(own, parts)
    ensures Calm(own, Render(parts))
    decreases |parts|
  {
    if parts != [] {
      assert Elsewhere(own, parts[0]);
      PartIsCalm(own, parts[0]);
      RenderIsCalm(own, parts[1..]);
      CalmConcat(own, PartLines(parts[0]), Render(parts[1..]));
    }
  }

  lemma HandoffRestIsCalm(date: string, parts: seq<Part>)
    ensures NoBreaks(date) && AllElsewhere(PROVENANCE, parts) ==> Calm(PROVENANCE, ReadinessLines(date) + Render(parts))
  {
    if NoBreaks(date) && AllElsewhere(PROVENANCE, parts) {
      PlainIsCalm(PROVENANCE, ReadinessLines(date));
      RenderIsCalm(PROVENANCE, parts);
      CalmConcat(PROVENANCE, ReadinessLines(date), Render(parts));
    }
  }

  /* ---------- The documents ---------- */

  /** A title of a section other than the Source Context Pack. */
  type SectionTitle = t: string | IsTitle(t) && t != SOURCE witness "Purpose"

  /** `n` sections with these titles and lines, none of which opens the Source Context Pack section again. */
  function Rest(n: nat, title: nat -> SectionTitle, lines: nat -> PlainLines): (rest: seq<string>)
    ensures Calm(SOURCE, rest)
  {
    var parts := seq(n, k requires 0 <= k < n => Part(title(k), lines(k)));
    RenderIsCalm(SOURCE, parts);
    Render(parts)
  }

  /** A scaffolded file: its title, its provenance lines, and the rest of its template. */
  function Scaffold(slug: string, kind: string, path: string, id: string, rest: seq<string>): string {
    JoinLines(SourceLines("# " + slug + kind, path, id) + ([""] + rest))
  }

  function RequirementsTitle(k: nat): SectionTitle {
    match k
    case 0 => Title(SOURCE, "Purpose")
    case 1 => Title(SOURCE, "Current Implementation Truth")
    case 2 => Title(SOURCE, "Requirements")
    case 3 => Title(SOURCE, "Invariants")
    case 4 => Title(SOURCE, "Acceptance Criteria")
    case 5 => Title(SOURCE, "Open Questions")
    case _ => Title(SOURCE, "Review Gate")
  }

  function RequirementsLines(k: nat): PlainLines {
    match k
    case 0 => Purpose()
    case 1 => CurrentImplementationTruth()
    case 2 => Requirements()
    case 3 => Invariants()
    case 4 => AcceptanceCriteria()
    case 5 => OpenQuestions()
    case _ => ReviewGate()
  }

  function RequirementsRest(): (rest: seq<string>)
    ensures Calm(SOURCE, rest)
  {
    Rest(7, RequirementsTitle, RequirementsLines)
  }

  function BuildRequirements(slug: string, path: string, id: string): string {
    Scaffold(slug, " Requirements", path, id, RequirementsRest())
  }

  function DesignTitle(k: nat): SectionTitle {
    match k
    case 0 => Title(SOURCE, "Current State")
    case 1 => Title(SOURCE, "Proposed Design")
    case 2 => Title(SOURCE, "Affected Components")
    case 3 => Title(SOURCE, "Trust Boundary Impact")
    case 4 => Title(SOURCE, "Security")
    case _ => LaterDesignTitle(k)
  }

  function LaterDesignTitle(k: nat): SectionTitle {
    match k
    case 5 => Title(SOURCE, "Cost and Operations")
    case 6 => Title(SOURCE, "Alternatives Considered")
    case 7 => Title(SOURCE, "Validation Plan")
    case _ => Title(SOURCE, "Review Checklist")
  }

  function DesignLines(k: nat): PlainLines {
    match k
    case 0 => CurrentState()
    case 1 => ProposedDesign()
    case 2 => AffectedComponents()
    case 3 => TrustBoundaryImpact()
    case 4 => Security()
    case 5 => CostAndOperations()
    case 6 => AlternativesConsidered()
    case 7 => ValidationPlan()
    case _ => ReviewChecklist()
  }

  function DesignRest(): (rest: seq<string>)
    ensures Calm(SOURCE, rest)
  {
    Rest(9, DesignTitle, DesignLines)
  }

  function BuildDesign(slug: string, path: string, id: string): string {
    Scaffold(slug, " Design", path, id, DesignRest())
  }

  function TasksRest(): (rest: seq<string>)
    ensures Calm(SOURCE, rest)
  {
    PlainIsCalm(SOURCE, TaskLines() + [""]);
    TaskLines() + [""]
  }

  function BuildTasks(slug: string, path: string, id: string): string {
    Scaffold(slug, " Tasks", path, id, TasksRest())
  }

  function ReadinessLines(date: string): (lines: seq<string>)
    ensures NoBreaks(date) ==> AllPlain(lines)
  {
    [Fixed("- Spec Readiness: PASS"), Filled("- Generated: ", date, ""), ""]
  }

  /** A title of a section other than Provenance. */
  type HandoffTitle = t: string | IsTitle(t) && t != PROVENANCE witness "PR Provenance"

  function HandoffSection(k: nat): HandoffTitle {
    match k
    case 0 => Title(PROVENANCE, "Suggested Git Plan")
    case 1 => Title(PROVENANCE, "Developer Start Checklist")
    case 2 => Title(PROVENANCE, "PR Provenance")
    case _ => Title(PROVENANCE, "Human Approval Reminder")
  }

  function HandoffLinesOf(slug: string, source: string, id: string, k: nat): (lines: seq<string>)
    ensures NoBreaks(slug) && OneLine(source) && OneLine(id) ==> AllPlain(lines)
  {
    match k
    case 0 => SuggestedGitPlan(slug)
    case 1 => DeveloperStartChecklist(slug, source)
    case 2 => PRProvenance(slug, source, id)
    case _ => HumanApprovalReminder()
  }

  function HandoffRest(slug: string, source: string, id: string, date: string): (rest: seq<string>)
    ensures NoBreaks(slug) && OneLine(source) && OneLine(id) && NoBreaks(date) ==> Calm(PROVENANCE, rest)
    ensures rest != []
  {
    var parts := seq(4, k requires 0 <= k < 4 => Part(HandoffSection(k), HandoffLinesOf(slug, source, id, k)));
    HandoffRestIsCalm(date, parts);
    ReadinessLines(date) + Render(parts)
  }

  function BuildHandoffMarkdown(slug: string, source: string, id: string, date: string): string {
    JoinLines(HandoffLines(slug, source, id) + HandoffRest(slug, source, id, date))
  }

  /* ---------- The headings of the documents ---------- */

  lemma PartHasItsTitle(own: string, p: Part)
    requires Elsewhere(own, p)
    ensures Titles(PartLines(p)) == [p.title]
  {
    PrintableIsLine(p.title);
    HeadingOf(p.title);
    TitleIsNoHeading("");
    PlainLinesHaveNoTitle(p.lines);
    NoTitles(p.lines);
    TitlesOfConcat(p.lines, [""]);
    TitlesOfConcat(["## " + p.title, ""], p.lines + [""]);
    assert ["## " + p.title, ""][1..] == [""] && [""][1..] == [];
  }

  lemma PlainLinesHaveNoTitle(lines: seq<string>)
    requires AllPlain(lines)
    ensures NoHeadings(lines)
  {
    assert "##"[0] == '#';
    assert forall i | 0 <= i < |lines| :: Plain(lines[i]);
  }

  /** A document's headings are its parts' titles, in order. */
  lemma {:induction false} RenderedTitles(own: string, parts: seq<Part>)
    requires AllElsewhere(own, parts)
    ensures Titles(Render(parts)) == seq(|parts|, i requires 0 <= i < |parts| => parts[i].title)
    decreases |parts|
  {
    if parts != [] {
      assert Elsewhere(own, parts[0]);
      PartHasItsTitle(own, parts[0]);
      RenderedTitles(own, parts[1..]);
      TitlesOfConcat(PartLines(parts[0]), Render(parts[1..]));
    }
  }

  lemma RestTitles(n: nat, title: nat -> SectionTitle, lines: nat -> PlainLines)
    ensures Titles(Rest(n, title, lines)) == seq(n, i requires 0 <= i < n => title(i))
  {
    RenderedTitles(SOURCE, seq(n, k requires 0 <= k < n => Part(title(k), lines(k))));
  }

  /** An opening, an empty line and a calm rest: one heading more than the rest has. */
  lemma OpenedTitles(first: string, own: seq<string>, rest: seq<string>)
    requires Opens(first, SOURCE, own) && Calm(SOURCE, rest)
    ensures Titles(Split(Normalize(JoinLines(Opening(first, SOURCE, own) + ([""] + rest))))) == [SOURCE] + Titles(rest)
  {
    TitleIsNoHeading("");
    CalmConcat(SOURCE, [""], rest);
    SplitOfLines(Opening(first, SOURCE, own) + ([""] + rest));
    TitlesOfConcat(Opening(first, SOURCE, own), [""] + rest);
    TitlesOfOpening(first, SOURCE, own);
    TitlesOfConcat([""], rest);
    assert [""][1..] == [];
  }

  /** The headings of a scaffolded file: the Source Context Pack, and then those of the rest. */
  lemma ScaffoldTitles(slug: string, kind: string, path: string, id: string, rest: seq<string>)
    requires NoBreaks(slug) && NoBreaks(kind) && OneLine(path) && OneLine(id) && Calm(SOURCE, rest)
    ensures Titles(Split(Normalize(Scaffold(slug, kind, path, id, rest)))) == [SOURCE] + Titles(rest)
  {
    var first := "# " + slug + kind;
    ScaffoldTitle(slug, kind);
    SourceOpens(first, path, id);
    SourceLinesOpen(first, path, id);
    OpenedTitles(first, [""] + SourceBody(path, id), rest);
  }

  /* ---------- What the documents give back ---------- */

  /** A document is its provenance lines, a line break, and the rest. */
  lemma JoinIsDocument(lines: seq<string>, rest: seq<string>)
    requires lines != [] && rest != []
    ensures JoinLines(lines + rest) == Document(lines, JoinLines(rest))
  {
    var first, more := lines[0], lines[1..];
    assert lines == [first] + more;
    assert (lines + rest)[1..] == more + rest;
    TailOfConcat(more, rest, "");
    assert Tail(rest, "") == "\n" + JoinLines(rest);
    JoinThenText(first, more, "\n" + JoinLines(rest));
  }

  lemma CalmRestNeverReopens(own: string, rest: seq<string>)
    requires Calm(own, rest) && rest != []
    ensures NeverReopened(own, Split(Normalize(JoinLines(rest))))
  {
    LinesNeverReopen(own, rest);
  }

  predicate ReadsBackAs(markdown: string, path: string, id: string) {
    SourceContextOf(markdown) == SourceContext(Some(path), Some(id))
  }

  predicate CanBeReadBack(path: string, id: string) {
    EndsMd(path) && TICK !in path && TICK !in id
  }

  /** For a scaffolded file whose rest is calm. */
  lemma ScaffoldGivesBack(slug: string, kind: string, path: string, id: string, rest: seq<string>)
    requires NoBreaks(slug) && NoBreaks(kind) && OneLine(path) && OneLine(id) && id != "" && Calm(SOURCE, rest)
    ensures ReadsBackAs(Scaffold(slug, kind, path, id, rest), path, id) <==> CanBeReadBack(path, id)
  {
    var first, all := "# " + slug + kind, [""] + rest;
    ScaffoldTitle(slug, kind);
    TitleIsNoHeading("");
    CalmConcat(SOURCE, [""], rest);
    JoinIsDocument(SourceLines(first, path, id), all);
    CalmRestNeverReopens(SOURCE, all);
    SourceContextSurvives(first, path, id, JoinLines(all));
  }

  lemma KindsAreLines()
    ensures NoBreaks(" Requirements") && NoBreaks(" Design") && NoBreaks(" Tasks")
  {
  }

  lemma RequirementsGiveBack(slug: string, path: string, id: string)
    requires NoBreaks(slug) && OneLine(path) && OneLine(id) && id != ""
    ensures ReadsBackAs(BuildRequirements(slug, path, id), path, id) <==> CanBeReadBack(path, id)
  {
    KindsAreLines();
    ScaffoldGivesBack(slug, " Requirements", path, id, RequirementsRest());
  }

  lemma DesignGivesBack(slug: string, path: string, id: string)
    requires NoBreaks(slug) && OneLine(path) && OneLine(id) && id != ""
    ensures ReadsBackAs(BuildDesign(slug, path, id), path, id) <==> CanBeReadBack(path, id)
  {
    KindsAreLines();
    ScaffoldGivesBack(slug, " Design", path, id, DesignRest());
  }

  lemma TasksGiveBack(slug: string, path: string, id: string)
    requires NoBreaks(slug) && OneLine(path) && OneLine(id) && id != ""
    ensures ReadsBackAs(BuildTasks(slug, path, id), path, id) <==> CanBeReadBack(path, id)
  {
    KindsAreLines();
    ScaffoldGivesBack(slug, " Tasks", path, id, TasksRest());
  }

  /**
   Each of the three scaffolded files, with all that its template says after the provenance, gives back the
   path and the id it was made from exactly when the path ends in .md and neither contains a backtick.
   */
  lemma ScaffoldsAgree(slug: string, path: string, id: string)
    requires NoBreaks(slug) && OneLine(path) && OneLine(id) && id != ""
    ensures ReadsBackAs(BuildRequirements(slug, path, id), path, id) <==> CanBeReadBack(path, id)
    ensures ReadsBackAs(BuildDesign(slug, path, id), path, id) <==> CanBeReadBack(path, id)
    ensures ReadsBackAs(BuildTasks(slug, path, id), path, id) <==> CanBeReadBack(path, id)
  {
    RequirementsGiveBack(slug, path, id);
    DesignGivesBack(slug, path, id);
    TasksGiveBack(slug, path, id);
  }

  lemma CalmRestReadsBack(slug: string, source: string, id: string, rest: seq<string>)
    requires NoBreaks(slug) && OneLine(source) && OneLine(id) && source != "" && id != ""
    requires Calm(PROVENANCE, rest) && rest != []
    ensures HandoffProvenanceOf(JoinLines(HandoffLines(slug, source, id) + rest))
      == HandoffProvenance(Some(source), Some(id), Some(SpecDir(slug)))
  {
    JoinIsDocument(HandoffLines(slug, source, id), rest);
    CalmRestNeverReopens(PROVENANCE, rest);
    HandoffReadsBack(slug, source, id, JoinLines(rest));
  }

  /** Where the handoff names its source, its id and its slug again, they are the same ones. */
  lemma HandoffRepeats(slug: string, source: string, id: string)
    ensures var plan, start, pr := HandoffLinesOf(slug, source, id, 0), HandoffLinesOf(slug, source, id, 1),
                                   HandoffLinesOf(slug, source, id, 2);
      && FieldLine("Suggested branch", "feature/" + slug) in plan
      && FieldLine("Suggested worktree", "../worktrees/" + slug) in plan
      && "- [ ] Re-read `" + source + "`." in start
      && FieldLine("Source Context Pack", source) in pr && FieldLine("Context ID", id) in pr
      && FieldLine("Spec", ".kiro/specs/" + slug) in pr && FieldLine("Suggested branch", "feature/" + slug) in pr
  {
    PlanRepeats(slug);
    StartRepeats(slug, source);
    PRRepeats(slug, source, id);
  }

  lemma PlanRepeats(slug: string)
    ensures FieldLine("Suggested branch", "feature/" + slug) in SuggestedGitPlan(slug)
    ensures FieldLine("Suggested worktree", "../worktrees/" + slug) in SuggestedGitPlan(slug)
  {
    var lines := SuggestedGitPlan(slug);
    assert lines[0] == FieldLine("Suggested branch", "feature/" + slug);
    assert lines[1] == FieldLine("Suggested worktree", "../worktrees/" + slug);
  }

  lemma StartRepeats(slug: string, source: string)
    ensures "- [ ] Re-read `" + source + "`." in DeveloperStartChecklist(slug, source)
  {
    assert DeveloperStartChecklist(slug, source)[2] == "- [ ] Re-read `" + source + "`.";
  }

  lemma PRRepeats(slug: string, source: string, id: string)
    ensures FieldLine("Source Context Pack", source) in PRProvenance(slug, source, id)
    ensures FieldLine("Context ID", id) in PRProvenance(slug, source, id)
    ensures FieldLine("Spec", ".kiro/specs/" + slug) in PRProvenance(slug, source, id)
    ensures FieldLine("Suggested branch", "feature/" + slug) in PRProvenance(slug, source, id)
  {
    var lines := PRProvenance(slug, source, id);
    assert lines[0] == FieldLine("Source Context Pack", source) && lines[1] == FieldLine("Context ID", id);
    assert lines[2] == FieldLine("Spec", ".kiro/specs/" + slug) && lines[5] == FieldLine("Suggested branch", "feature/" + slug);
  }

  /**
   The handoff in full, although it names the source and the id again further down, and has a section
   "PR Provenance", gives back the source, the id and the spec directory it was made from.
   */
  lemma HandoffSurvives(slug: string, source: string, id: string, date: string)
    requires NoBreaks(slug) && OneLine(source) && OneLine(id) && NoBreaks(date) && source != "" && id != ""
    ensures HandoffProvenanceOf(BuildHandoffMarkdown(slug, source, id, date))
      == HandoffProvenance(Some(source), Some(id), Some(SpecDir(slug)))
  {
    CalmRestReadsBack(slug, source, id, HandoffRest(slug, source, id, date));
  }

  /**
   From a scaffold to the handoff, however the scaffold was edited after its provenance lines, short of a
   second such section: what the conformance check reads from the handoff is the path and the id that the
   file was scaffolded with.
   */
  lemma ProvenanceSurvives(first: string, path: string, id: string, after: string, slug: string, date: string)
    requires OwnLine(first) && OneLine(path) && OneLine(id) && id != "" && CanBeReadBack(path, id)
    requires NeverReopened(SOURCE, Split(Normalize(after)))
    requires NoBreaks(slug) && NoBreaks(date)
    ensures var read := SourceContextOf(Document(SourceLines(first, path, id), after));
      && read.path.Some? && read.id.Some?
      && HandoffProvenanceOf(BuildHandoffMarkdown(slug, read.path.value, read.id.value, date))
           == HandoffProvenance(Some(path), Some(id), Some(SpecDir(slug)))
  {
    SourceContextSurvives(first, path, id, after);
    assert SourceContextOf(Document(SourceLines(first, path, id), after)) == SourceContext(Some(path), Some(id));
    HandoffSurvives(slug, path, id, date);
  }
}
