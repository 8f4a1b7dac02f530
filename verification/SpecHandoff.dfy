/**
 From a spec that passes the readiness gate to its handoff and on to the provenance part of the conformance
 check: scripts/create-implementation-handoff.js and scripts/check-implementation-conformance.js.
 */
module SpecHandoff {
  import opened Prelude
  import opened JsText
  import opened TextLines
  import opened MarkdownSections
  import opened SourcePatterns
  import opened Provenance
  import opened Templates
  import opened GeneratedDocuments
  import opened SpecReadiness
  import TaskGraph

  /* ---------- Creating the handoff, and checking it ---------- */

  datatype HandoffError = BadSlug | NotReady(errors: seq<SpecError>) | AlreadyThere

  function CreateImplementationHandoff(slug: string, directory: Option<SpecFiles>, isThere: bool, date: string)
    : Result<string, HandoffError>
  {
    var readiness := ReadinessOf(directory);
    ReadyExactly(directory);
    if !TaskGraph.ValidSlug(slug) then Err(BadSlug)
    else if !Ready(readiness) then Err(NotReady(readiness.errors))
    else if isThere then Err(AlreadyThere)
    else Ok(BuildHandoffMarkdown(slug, readiness.sourceContext.value, readiness.contextId.value, date))
  }

  lemma HandoffErrorsExactly(slug: string, directory: Option<SpecFiles>, isThere: bool, date: string)
    ensures var r := CreateImplementationHandoff(slug, directory, isThere, date);
      && (r == Err(BadSlug) <==> !TaskGraph.ValidSlug(slug))
      && (r.Err? && r.error.NotReady? <==> TaskGraph.ValidSlug(slug) && !Ready(ReadinessOf(directory)))
      && (r.Err? && r.error.NotReady? ==> r.error.errors == ReadinessOf(directory).errors)
      && (r == Err(AlreadyThere) <==> TaskGraph.ValidSlug(slug) && Ready(ReadinessOf(directory)) && isThere)
  {
  }

  datatype ProvenanceError = SourceDiffers | IdDiffers | SpecDirDiffers

  /** What the conformance check says of a handoff's provenance, for a spec that is ready. */
  function ProvenanceErrors(slug: string, readiness: Readiness, handoff: string): seq<ProvenanceError> {
    var p := HandoffProvenanceOf(handoff);
    (if p.sourceContext != readiness.sourceContext then [SourceDiffers] else []) +
    (if p.contextId != readiness.contextId then [IdDiffers] else []) +
    (if p.specDir != Some(SpecDir(slug)) then [SpecDirDiffers] else [])
  }

  /* ---------- A handoff conforms, or cannot ---------- */

  lemma SlugIsLine(slug: string)
    requires TaskGraph.ValidSlug(slug)
    ensures NoBreaks(slug)
  {
  }

  lemma TrimIsOneLine(line: string)
    requires OneLine(line)
    ensures OneLine(Trim(line))
  {
    TrimIsIdempotent(line);
    forall i | 0 <= i < |Trim(line)| ensures Trim(line)[i] != '\n' {
      assert Trim(line)[i] in line;
    }
  }

  predicate OneLines(p: HandoffProvenance) {
    && (p.sourceContext.Some? ==> OneLine(p.sourceContext.value))
    && (p.contextId.Some? ==> OneLine(p.contextId.value))
  }

  /** Whatever the text, no value that is read from it goes over two lines. */
  lemma {:induction false} ReadValuesAreOneLine(p: HandoffProvenance, lines: seq<string>)
    requires OneLines(p) && forall i | 0 <= i < |lines| :: OneLine(lines[i])
    ensures OneLines(ReadHandoff(p, lines))
    decreases |lines|
  {
    if lines != [] {
      assert OneLine(lines[0]);
      TrimIsOneLine(lines[0]);
      ReadValuesAreOneLine(ReadHandoffLine(p, lines[0]), lines[1..]);
    }
  }

  lemma {:induction false} FoundPathIsNotEmpty(s: string)
    ensures FindPath(s).Some? ==> FindPath(s).value != ""
  {
    if s != "" && PathAt(s).None? {
      FoundPathIsNotEmpty(s[1..]);
    }
  }

  lemma {:induction false} FoundIdIsNotEmpty(s: string)
    ensures FindId(s).Some? ==> FindId(s).value != ""
  {
    if s != "" && IdAt(s).None? {
      FoundIdIsNotEmpty(s[1..]);
    }
  }

  lemma FoundIsNotEmpty(markdown: string)
    ensures var c := SourceContextOf(markdown);
      (c.path.Some? ==> c.path.value != "") && (c.id.Some? ==> c.id.value != "")
  {
    FoundPathIsNotEmpty(SourceSectionOf(markdown));
    FoundIdIsNotEmpty(SourceSectionOf(markdown));
  }

  /** An accepted spec has a path and an id, and neither is empty. */
  lemma AcceptedHasNames(directory: Option<SpecFiles>)
    requires Ready(ReadinessOf(directory))
    ensures var r := ReadinessOf(directory);
      r.sourceContext.Some? && r.sourceContext.value != "" && r.contextId.Some? && r.contextId.value != ""
  {
    ReadyExactly(directory);
    FoundIsNotEmpty(directory.value[RequirementsFile]);
  }

  lemma DifferencesOf(slug: string, handoff: string, source: string, id: string, r: Readiness)
    requires HandoffProvenanceOf(handoff) == HandoffProvenance(Some(source), Some(id), Some(SpecDir(slug)))
    ensures var errors := ProvenanceErrors(slug, r, handoff);
      && (SourceDiffers in errors <==> r.sourceContext != Some(source))
      && (IdDiffers in errors <==> r.contextId != Some(id))
      && SpecDirDiffers !in errors
  {
  }

  /** A handoff with one-line values, checked against any spec. */
  lemma DifferencesAreNoticed(slug: string, source: string, id: string, date: string, r: Readiness)
    requires NoBreaks(slug) && NoBreaks(date) && OneLine(source) && source != "" && OneLine(id) && id != ""
    ensures var errors := ProvenanceErrors(slug, r, BuildHandoffMarkdown(slug, source, id, date));
      && (SourceDiffers in errors <==> r.sourceContext != Some(source))
      && (IdDiffers in errors <==> r.contextId != Some(id))
      && SpecDirDiffers !in errors
  {
    HandoffSurvives(slug, source, id, date);
    DifferencesOf(slug, BuildHandoffMarkdown(slug, source, id, date), source, id, r);
  }

  /** A handoff of any kind, checked against a spec with a value that goes over two lines. */
  lemma TwoLinesNeverConform(slug: string, handoff: string, r: Readiness)
    requires r.sourceContext.Some? && r.contextId.Some?
    requires !OneLine(r.sourceContext.value) || !OneLine(r.contextId.value)
    ensures ProvenanceErrors(slug, r, handoff) != []
  {
    ReadValuesAreOneLine(NOTHING, Split(SectionOr(SectionsOf(handoff), "Provenance")));
  }

  /**
   The handoff that is made from a ready spec agrees with that spec if and only if the path and the id are
   each within one line. The gate does not ask for that.
   */
  lemma HandoffConforms(slug: string, directory: Option<SpecFiles>, date: string)
    requires TaskGraph.ValidSlug(slug) && Ready(ReadinessOf(directory)) && NoBreaks(date)
    ensures var r, handoff := ReadinessOf(directory), CreateImplementationHandoff(slug, directory, false, date);
      && r.sourceContext.Some? && r.contextId.Some? && handoff.Ok?
      && (ProvenanceErrors(slug, r, handoff.value) == [] <==>
          OneLine(r.sourceContext.value) && OneLine(r.contextId.value))
  {
    var r := ReadinessOf(directory);
    AcceptedHasNames(directory);
    SlugIsLine(slug);
    var handoff := BuildHandoffMarkdown(slug, r.sourceContext.value, r.contextId.value, date);
    if OneLine(r.sourceContext.value) && OneLine(r.contextId.value) {
      DifferencesAreNoticed(slug, r.sourceContext.value, r.contextId.value, date, r);
      SomeError(ProvenanceErrors(slug, r, handoff));
    } else {
      TwoLinesNeverConform(slug, handoff, r);
    }
  }

  lemma SomeError(errors: seq<ProvenanceError>)
    ensures errors == [] || SourceDiffers in errors || IdDiffers in errors || SpecDirDiffers in errors
  {
    if errors != [] {
      var e := errors[0];
      assert e in errors;
      match e
      case SourceDiffers =>
      case IdDiffers =>
      case SpecDirDiffers =>
    }
  }

  /** A handoff from one ready spec against another one: each change of path or id is noticed, and nothing else. */
  lemma ChangedSpecIsNoticed(slug: string, before: Option<SpecFiles>, now: Readiness, date: string)
    requires TaskGraph.ValidSlug(slug) && Ready(ReadinessOf(before)) && NoBreaks(date)
    requires ReadinessOf(before).sourceContext.Some? ==> OneLine(ReadinessOf(before).sourceContext.value)
    requires ReadinessOf(before).contextId.Some? ==> OneLine(ReadinessOf(before).contextId.value)
    ensures var a, handoff := ReadinessOf(before), CreateImplementationHandoff(slug, before, false, date);
      && handoff.Ok?
      && var errors := ProvenanceErrors(slug, now, handoff.value);
         && (SourceDiffers in errors <==> a.sourceContext != now.sourceContext)
         && (IdDiffers in errors <==> a.contextId != now.contextId)
         && SpecDirDiffers !in errors
  {
    var a := ReadinessOf(before);
    AcceptedHasNames(before);
    SlugIsLine(slug);
    DifferencesAreNoticed(slug, a.sourceContext.value, a.contextId.value, date, now);
  }

  /* ---------- Scaffolds: refused as they are, and after any editing still true to their pack ---------- */

  lemma RequirementsTitles(k: nat)
    requires k < 7
    ensures RequirementsTitle(k) == RequirementsSection(k + 1)
  {
  }

  lemma DesignTitles(k: nat)
    requires k < 9
    ensures DesignTitle(k) == DesignSection(k + 1)
  {
  }

  /** Titles that are the names of the required sections after the first. */
  lemma MatchingTitles(n: nat, title: nat -> SectionTitle, section: nat -> string)
    requires (forall k | 0 <= k < n :: title(k) == section(k + 1)) && section(0) == SOURCE
    ensures [SOURCE] + seq(n, i requires 0 <= i < n => title(i)) == seq(n + 1, i requires 0 <= i < n + 1 => section(i))
  {
    var tail, b := seq(n, i requires 0 <= i < n => title(i)), seq(n + 1, i requires 0 <= i < n + 1 => section(i));
    assert |[SOURCE] + tail| == |b|;
    forall i | 0 <= i < n + 1 ensures ([SOURCE] + tail)[i] == b[i] {
      if i > 0 {
        var k: nat := i - 1;
        assert ([SOURCE] + tail)[i] == tail[k];
        assert tail[k] == title(k);
        assert title(k) == section(k + 1);
        assert k + 1 == i;
        assert b[i] == section(i);
      }
    }
  }

  /** The headings of each scaffold are exactly the sections that the gate requires of it, in the gate's order. */
  lemma ScaffoldsHaveTheirSections(slug: string, path: string, id: string)
    requires NoBreaks(slug) && OneLine(path) && OneLine(id)
    ensures Titles(Split(Normalize(BuildRequirements(slug, path, id)))) == RequiredSections(RequirementsFile)
    ensures Titles(Split(Normalize(BuildDesign(slug, path, id)))) == RequiredSections(DesignFile)
    ensures Titles(Split(Normalize(BuildTasks(slug, path, id)))) == RequiredSections(TasksFile)
  {
    RequirementsHaveSections(slug, path, id);
    DesignHasSections(slug, path, id);
    TasksHaveSection(slug, path, id);
  }

  lemma RequirementsTitlesMatch()
    ensures [SOURCE] + Titles(RequirementsRest()) == RequiredSections(RequirementsFile)
  {
    RestTitles(7, RequirementsTitle, RequirementsLines);
    forall k | 0 <= k < 7 ensures RequirementsTitle(k) == RequirementsSection(k + 1) {
      RequirementsTitles(k);
    }
    MatchingTitles(7, RequirementsTitle, RequirementsSection);
  }

  lemma RequirementsHaveSections(slug: string, path: string, id: string)
    requires NoBreaks(slug) && OneLine(path) && OneLine(id)
    ensures Titles(Split(Normalize(BuildRequirements(slug, path, id)))) == RequiredSections(RequirementsFile)
  {
    KindsAreLines();
    ScaffoldTitles(slug, " Requirements", path, id, RequirementsRest());
    RequirementsTitlesMatch();
  }

  lemma DesignTitlesMatch()
    ensures [SOURCE] + Titles(DesignRest()) == RequiredSections(DesignFile)
  {
    RestTitles(9, DesignTitle, DesignLines);
    forall k | 0 <= k < 9 ensures DesignTitle(k) == DesignSection(k + 1) {
      DesignTitles(k);
    }
    MatchingTitles(9, DesignTitle, DesignSection);
  }

  lemma DesignHasSections(slug: string, path: string, id: string)
    requires NoBreaks(slug) && OneLine(path) && OneLine(id)
    ensures Titles(Split(Normalize(BuildDesign(slug, path, id)))) == RequiredSections(DesignFile)
  {
    KindsAreLines();
    ScaffoldTitles(slug, " Design", path, id, DesignRest());
    DesignTitlesMatch();
  }

  lemma TasksHaveSection(slug: string, path: string, id: string)
    requires NoBreaks(slug) && OneLine(path) && OneLine(id)
    ensures Titles(Split(Normalize(BuildTasks(slug, path, id)))) == RequiredSections(TasksFile)
  {
    KindsAreLines();
    ScaffoldTitles(slug, " Tasks", path, id, TasksRest());
    NoTitlesInTasks(TaskLines());
  }

  lemma NoTitlesInTasks(lines: seq<string>)
    requires AllPlain(lines)
    ensures Titles(lines + [""]) == []
  {
    PlainLinesHaveNoTitle(lines);
    TitleIsNoHeading("");
    NoTitles(lines + [""]);
  }

  lemma PlaceholderInside(a: string, b: string, c: string)
    requires HasPlaceholder(b)
    ensures HasPlaceholder(a + (b + c))
  {
    var i: nat, p :| PlaceholderHere(b, i, p);
    assert (a + (b + c))[|a| + i..|a| + i + |p|] == b[i..i + |p|];
    assert PlaceholderHere(a + (b + c), |a| + i, p);
  }

  lemma {:induction false} PlaceholderInTail(lines: seq<string>, line: string)
    requires line in lines && HasPlaceholder(line)
    ensures HasPlaceholder(Tail(lines, ""))
    decreases |lines|
  {
    var rest := Tail(lines[1..], "");
    if line == lines[0] {
      PlaceholderInside("\n", line, rest);
    } else {
      assert lines == [lines[0]] + lines[1..];
      PlaceholderInTail(lines[1..], line);
      assert rest + "" == rest;
      PlaceholderInside("\n" + lines[0], rest, "");
      Regroup("\n", lines[0], rest);
    }
  }

  lemma PlaceholderInDocument(first: seq<string>, rest: seq<string>, line: string)
    requires first != [] && line in rest && HasPlaceholder(line)
    ensures HasPlaceholder(JoinLines(first + rest))
  {
    var lines := first + rest;
    assert lines[1..] == first[1..] + rest;
    PlaceholderInTail(lines[1..], line);
    var tail := Tail(lines[1..], "");
    assert tail + "" == tail;
    PlaceholderInside(lines[0], tail, "");
  }

  lemma {:induction false} RenderedLine(parts: seq<Part>, k: nat, line: string)
    requires k < |parts| && line in parts[k].lines
    ensures line in Render(parts)
    decreases |parts|
  {
    if k > 0 {
      RenderedLine(parts[1..], k - 1, line);
    }
  }

  lemma RestHasLine(n: nat, title: nat -> SectionTitle, lines: nat -> PlainLines, k: nat, line: string)
    requires k < n && line in lines(k)
    ensures line in Rest(n, title, lines)
  {
    RenderedLine(seq(n, i requires 0 <= i < n => Part(title(i), lines(i))), k, line);
  }

  lemma ScaffoldHasPlaceholder(slug: string, kind: string, path: string, id: string, rest: seq<string>, line: string)
    requires line in rest && HasPlaceholder(line)
    ensures HasPlaceholder(Scaffold(slug, kind, path, id, rest))
  {
    PlaceholderInDocument(SourceLines("# " + slug + kind, path, id), [""] + rest, line);
  }

  lemma QuestionIsPlaceholder()
    ensures HasPlaceholder("- <Question 1>")
  {
    assert "- <Question 1>"[2..14] == "<Question 1>";
    assert PlaceholderHere("- <Question 1>", 2, "<Question 1>");
  }

  lemma QuestionsAreAsked()
    ensures RequirementsLines(5) == ["- <Question 1>"]
  {
  }

  lemma QuestionIsLeft()
    ensures "- <Question 1>" in RequirementsRest()
  {
    QuestionsAreAsked();
    assert RequirementsLines(5)[0] == "- <Question 1>";
    RestHasLine(7, RequirementsTitle, RequirementsLines, 5, "- <Question 1>");
  }

  lemma RequirementsHavePlaceholder(slug: string, path: string, id: string)
    ensures HasPlaceholder(BuildRequirements(slug, path, id))
  {
    QuestionIsLeft();
    QuestionIsPlaceholder();
    ScaffoldHasPlaceholder(slug, " Requirements", path, id, RequirementsRest(), "- <Question 1>");
  }

  /** Whatever it was made from, a scaffold that nobody has edited does not pass the gate. */
  lemma UntouchedIsRefused(slug: string, path: string, id: string, files: SpecFiles)
    requires RequirementsFile in files && files[RequirementsFile] == BuildRequirements(slug, path, id)
    ensures !Ready(ReadinessOf(Some(files)))
  {
    RequirementsHavePlaceholder(slug, path, id);
    PlaceholderIsRefused(files, RequirementsFile);
  }

  /** One file as it was edited: its title, and all that follows its provenance lines. */
  datatype Edited = Edited(first: string, after: string)

  predicate Keeps(e: Edited) {
    OwnLine(e.first) && NeverReopened(SOURCE, Split(Normalize(e.after)))
  }

  function EditedSpec(path: string, id: string, edits: SpecFile -> Edited): SpecFiles {
    map f: SpecFile | f in {RequirementsFile, DesignFile, TasksFile} ::
      Document(SourceLines(edits(f).first, path, id), edits(f).after)
  }

  lemma EditedFilesAgree(path: string, id: string, edits: SpecFile -> Edited)
    requires OneLine(path) && OneLine(id) && id != "" && CanBeReadBack(path, id)
    requires forall f: SpecFile :: Keeps(edits(f))
    ensures AllThere(EditedSpec(path, id, edits)) && AgreeOn(EditedSpec(path, id, edits), path, id)
  {
    var files := EditedSpec(path, id, edits);
    forall f: SpecFile ensures f in files && SourceContextOf(files[f]) == SourceContext(Some(path), Some(id)) {
      assert f == RequirementsFile || f == DesignFile || f == TasksFile;
      assert Keeps(edits(f));
      SourceContextSurvives(edits(f).first, path, id, edits(f).after);
    }
  }

  /**
   However the three scaffolds of one pack are edited after their provenance lines, short of a second such
   section: all that the gate can still find fault with is their content, and what it returns is the pack's.
   */
  lemma EditedSpecAgrees(path: string, id: string, edits: SpecFile -> Edited)
    requires OneLine(path) && OneLine(id) && id != "" && CanBeReadBack(path, id)
    requires forall f: SpecFile :: Keeps(edits(f))
    ensures var r := ReadinessOf(Some(EditedSpec(path, id, edits)));
      && (forall e | e in r.errors :: e.Finding?)
      && r.sourceContext == Some(path) && r.contextId == Some(id)
  {
    var files := EditedSpec(path, id, edits);
    EditedFilesAgree(path, id, edits);
    AgreementIsReturned(files, path, id);
    forall e | e in ReadinessOf(Some(files)).errors ensures e.Finding? {
      OnlyContentIsFound(files, path, id, e);
    }
  }

  /** And if the gate lets them pass, the handoff carries that path and id, and agrees with the spec. */
  lemma EditedSpecToHandoff(path: string, id: string, edits: SpecFile -> Edited, slug: string, date: string)
    requires OneLine(path) && OneLine(id) && id != "" && CanBeReadBack(path, id)
    requires forall f: SpecFile :: Keeps(edits(f))
    requires TaskGraph.ValidSlug(slug) && NoBreaks(date)
    ensures var spec := Some(EditedSpec(path, id, edits));
      && (forall e | e in ReadinessOf(spec).errors :: e.Finding?)
      && (Ready(ReadinessOf(spec)) ==>
            var handoff := CreateImplementationHandoff(slug, spec, false, date);
            && handoff.Ok?
            && HandoffProvenanceOf(handoff.value) == HandoffProvenance(Some(path), Some(id), Some(SpecDir(slug)))
            && ProvenanceErrors(slug, ReadinessOf(spec), handoff.value) == [])
  {
    EditedSpecAgrees(path, id, edits);
    SlugIsLine(slug);
    HandoffSurvives(slug, path, id, date);
  }

  /* ---------- A path over two lines ---------- */

  /** The provenance lines of a file whose path has a line break between `a` and `b`. */
  function TwoLineBody(a: string, b: string, id: string): seq<string> {
    ["- " + ([TICK] + a), b + [TICK], FieldLine("Context ID", id)]
  }

  function TwoLineSource(first: string, a: string, b: string, id: string): seq<string> {
    Opening(first, SOURCE, [""] + TwoLineBody(a, b, id))
  }

  function TwoLinePath(a: string, b: string): string {
    a + ("\n" + b)
  }

  lemma PathOverTwoLines(a: string, b: string)
    ensures PathLine(TwoLinePath(a, b)) == ("- " + ([TICK] + a)) + ("\n" + (b + [TICK]))
  {
    Regroup(a, "\n" + b, [TICK]);
    Regroup("\n", b, [TICK]);
    Regroup([TICK], a, "\n" + (b + [TICK]));
    Regroup("- ", [TICK] + a, "\n" + (b + [TICK]));
  }

  /** A line break inside a line is a line break between two. */
  lemma JoinSplitLine(x: string, y: string, z: string)
    ensures JoinLines([x, y, z]) == JoinLines([x + ("\n" + y), z])
  {
    assert [x, y, z][1..] == [y, z] && [y, z][1..] == [z] && [x + ("\n" + y), z][1..] == [z];
    Regroup("\n", y, Tail([z], ""));
    Regroup(x, "\n" + y, Tail([z], ""));
  }

  lemma TwoLineBodyText(a: string, b: string, id: string)
    ensures JoinLines(TwoLineBody(a, b, id)) == JoinLines(SourceBody(TwoLinePath(a, b), id))
  {
    PathOverTwoLines(a, b);
    JoinSplitLine("- " + ([TICK] + a), b + [TICK], FieldLine("Context ID", id));
  }

  lemma TwoLinesOpen(first: string, a: string, b: string, id: string)
    requires OwnLine(first) && NoBreaks(a) && OneLine(b) && Heading(b + [TICK]).None? && OneLine(id)
    ensures Opens(first, SOURCE, [""] + TwoLineBody(a, b, id))
  {
    OwnLines("", "Context ID", id);
    var x := "- " + ([TICK] + a);
    assert x[0] == '-' && "##"[0] == '#';
    assert OwnLine(x) && OwnLine(b + [TICK]);
    SourceHeading();
    OwnLinesOpen(first, SOURCE, TwoLineBody(a, b, id));
  }

  lemma TwoLineSourceIsRead(first: string, a: string, b: string, id: string, after: string)
    requires OwnLine(first) && NoBreaks(a) && OneLine(b) && Heading(b + [TICK]).None? && OneLine(id) && id != ""
    requires CanBeReadBack(TwoLinePath(a, b), id)
    requires NeverReopened(SOURCE, Split(Normalize(after)))
    ensures SourceContextOf(Document(TwoLineSource(first, a, b, id), after))
      == SourceContext(Some(TwoLinePath(a, b)), Some(id))
  {
    var path, more := TwoLinePath(a, b), Until(Split(Normalize(after)));
    TwoLinesOpen(first, a, b, id);
    SectionOfDocument(first, SOURCE, [""] + TwoLineBody(a, b, id), after);
    TwoLineBodyText(a, b, id);
    SourceBodyText(path, id, Remainder(more));
    TrimmedSection(TwoLineBody(a, b, id), more);
    PathIsFound(path, id, Remainder(more));
    IdIsFound(path, id, Remainder(more));
  }

  function TwoLineSpec(a: string, b: string, id: string, edits: SpecFile -> Edited): SpecFiles {
    map f: SpecFile | f in {RequirementsFile, DesignFile, TasksFile} ::
      Document(TwoLineSource(edits(f).first, a, b, id), edits(f).after)
  }

  lemma TwoLineFilesAgree(a: string, b: string, id: string, edits: SpecFile -> Edited)
    requires NoBreaks(a) && OneLine(b) && Heading(b + [TICK]).None? && OneLine(id) && id != ""
    requires CanBeReadBack(TwoLinePath(a, b), id) && forall f: SpecFile :: Keeps(edits(f))
    ensures AllThere(TwoLineSpec(a, b, id, edits)) && AgreeOn(TwoLineSpec(a, b, id, edits), TwoLinePath(a, b), id)
  {
    var files := TwoLineSpec(a, b, id, edits);
    forall f: SpecFile
      ensures f in files && SourceContextOf(files[f]) == SourceContext(Some(TwoLinePath(a, b)), Some(id))
    {
      assert f == RequirementsFile || f == DesignFile || f == TasksFile;
      assert Keeps(edits(f));
      TwoLineSourceIsRead(edits(f).first, a, b, id, edits(f).after);
    }
  }

  /**
   The input that the condition of HandoffConforms is about: three files that name the same path, over two
   lines. The gate finds no fault with the path and returns it; no handoff can then agree with it.
   */
  lemma TwoLinePathIsLetThrough(a: string, b: string, id: string, edits: SpecFile -> Edited, slug: string, handoff: string)
    requires NoBreaks(a) && OneLine(b) && Heading(b + [TICK]).None? && OneLine(id) && id != ""
    requires CanBeReadBack(TwoLinePath(a, b), id) && forall f: SpecFile :: Keeps(edits(f))
    ensures var r := ReadinessOf(Some(TwoLineSpec(a, b, id, edits)));
      && (forall e | e in r.errors :: e.Finding?)
      && r.sourceContext == Some(TwoLinePath(a, b))
      && ProvenanceErrors(slug, r, handoff) != []
  {
    var files, path := TwoLineSpec(a, b, id, edits), TwoLinePath(a, b);
    TwoLineFilesAgree(a, b, id, edits);
    AgreementIsReturned(files, path, id);
    forall e | e in ReadinessOf(Some(files)).errors ensures e.Finding? {
      OnlyContentIsFound(files, path, id, e);
    }
    assert path[|a|] == '\n';
    TwoLinesNeverConform(slug, handoff, ReadinessOf(Some(files)));
  }
}
