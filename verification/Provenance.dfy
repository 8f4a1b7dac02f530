/**
 Provenance in generated Markdown: the lines that carry it, their readers in scripts/check-spec-readiness.js
 and scripts/check-implementation-conformance.js, and what is read back from a document that starts with the
 lines of scripts/scaffold-spec-from-context.js or scripts/create-implementation-handoff.js.
 */
module Provenance {
  import opened Prelude
  import opened JsText
  import opened MarkdownSections
  import opened SourcePatterns
  import opened TextLines

  /* ---------- Reading the source context ---------- */

  datatype SourceContext = SourceContext(path: Option<string>, id: Option<string>)

  function SourceContextOf(markdown: string): SourceContext {
    var source := SectionOr(SectionsOf(markdown), "Source Context Pack");
    SourceContext(FindPath(source), FindId(source))
  }

  method ExtractSourceContext(markdown: string) returns (r: SourceContext)
    ensures r == SourceContextOf(markdown)
    ensures LeftmostPath(SectionOr(SectionsOf(markdown), "Source Context Pack"), r.path)
    ensures LeftmostId(SectionOr(SectionsOf(markdown), "Source Context Pack"), r.id)
  {
    var sections := SplitSections(markdown);
    var source := SectionOr(sections, "Source Context Pack");
    FindPathIsLeftmost(source);
    FindIdIsLeftmost(source);
    return SourceContext(FindPath(source), FindId(source));
  }

  /* ---------- Reading the handoff ---------- */

  datatype HandoffProvenance =
    HandoffProvenance(sourceContext: Option<string>, contextId: Option<string>, specDir: Option<string>)

  function Prefix(field: string): string {
    "- " + (field + (": " + [TICK]))
  }

  function ExtractLabel(line: string, field: string): Option<string> {
    if Prefix(field) <= line && line[|line| - 1] == TICK
    then Some(if |line| == |Prefix(field)| then "" else line[|Prefix(field)|..|line| - 1])
    else None
  }

  /** JavaScript's `||` on a string or null. */
  function Or(a: Option<string>, b: Option<string>): Option<string> {
    if a.Some? && a.value != "" then a else b
  }

  function ReadHandoffLine(p: HandoffProvenance, rawLine: string): HandoffProvenance {
    var line := Trim(rawLine);
    HandoffProvenance(
      Or(p.sourceContext, ExtractLabel(line, "Source Context Pack")),
      Or(p.contextId, ExtractLabel(line, "Context ID")),
      Or(p.specDir, ExtractLabel(line, "Spec directory")))
  }

  function ReadHandoff(p: HandoffProvenance, lines: seq<string>): HandoffProvenance
    decreases |lines|
  {
    if lines == [] then p else ReadHandoff(ReadHandoffLine(p, lines[0]), lines[1..])
  }

  const NOTHING: HandoffProvenance := HandoffProvenance(None, None, None)

  function HandoffProvenanceOf(markdown: string): HandoffProvenance {
    ReadHandoff(NOTHING, Split(SectionOr(SectionsOf(markdown), "Provenance")))
  }

  method ExtractHandoffProvenance(markdown: string) returns (result: HandoffProvenance)
    ensures result == HandoffProvenanceOf(markdown)
  {
    var sections := SplitSections(markdown);
    var lines := Split(SectionOr(sections, "Provenance"));
    result := NOTHING;
    for i := 0 to |lines|
      invariant ReadHandoff(result, lines[i..]) == HandoffProvenanceOf(markdown)
    {
      assert lines[i..][1..] == lines[i + 1..];
      var line := Trim(lines[i]);
      var sourceContext := ExtractLabel(line, "Source Context Pack");
      var contextId := ExtractLabel(line, "Context ID");
      var specDir := ExtractLabel(line, "Spec directory");
      result := HandoffProvenance(
        Or(result.sourceContext, sourceContext), Or(result.contextId, contextId), Or(result.specDir, specDir));
    }
  }

  /* ---------- The generated documents ---------- */

  function PathLine(path: string): string {
    "- " + ([TICK] + (path + [TICK]))
  }

  function FieldLine(field: string, value: string): string {
    Prefix(field) + (value + [TICK])
  }

  function SourceLines(title: string, path: string, id: string): seq<string> {
    [title, "", "## Source Context Pack", "", PathLine(path), FieldLine("Context ID", id)]
  }

  function SpecDir(slug: string): string {
    ".kiro/specs/" + slug
  }

  function HandoffLines(slug: string, sourceContext: string, contextId: string): seq<string> {
    ["# Implementation Handoff: " + slug, "", "## Provenance", "",
     FieldLine("Source Context Pack", sourceContext),
     FieldLine("Context ID", contextId),
     FieldLine("Spec directory", SpecDir(slug))]
  }

  /* ---------- Finding what was written ---------- */

  lemma QuotedAfterTick(a: string, rest: string)
    requires TICK !in a
    ensures Quoted([TICK] + (a + ([TICK] + rest))) == Some(a)
  {
    NextTickAfter(a, rest);
    var s := a + ([TICK] + rest);
    assert ([TICK] + s)[1..] == s;
    assert s[..|a|] == a;
  }

  lemma FindPathSkips(c: char, s: string)
    requires c != TICK
    ensures FindPath([c] + s) == FindPath(s)
  {
    assert ([c] + s)[1..] == s;
  }

  lemma FindIdSkips(c: char, s: string)
    requires Lower(c) != 'c'
    ensures FindId([c] + s) == FindId(s)
  {
    assert LABEL[0] == 'c';
    assert ([c] + s)[1..] == s;
  }

  /** No label starts inside a text that has no backticks, ends in a letter, and is then closed by one. */
  lemma NoIdInside(p: string, rest: string)
    requires TICK !in p && p != "" && p[|p| - 1] == 'd'
    ensures IdAt(p + ([TICK] + rest)).None?
  {
    var s := p + ([TICK] + rest);
    if StartsWithLabel(s) {
      assert s[|p|] == TICK && Lower(TICK) == TICK;
      assert forall i | 0 <= i < |LABEL| :: LABEL[i] != TICK;
      assert |p| >= |LABEL|;
      assert LABEL[10] == ':' && Lower(s[10]) == LABEL[10] && Lower('d') == 'd';
      assert |p| > |LABEL|;
      var q := p[|LABEL|..];
      assert s[|LABEL|..] == q + ([TICK] + rest);
      TrimStartBlank(q);
      TrimStartOfConcat(q, [TICK] + rest);
      assert TrimStart(q)[0] in q && forall c | c in q :: c in p;
    }
  }

  lemma {:induction false} FindIdSkipsPath(p: string, rest: string)
    requires TICK !in p && (p != "" ==> p[|p| - 1] == 'd')
    ensures FindId(p + ([TICK] + rest)) == FindId([TICK] + rest)
    decreases |p|
  {
    if p == "" {
      assert p + ([TICK] + rest) == [TICK] + rest;
    } else {
      NoIdInside(p, rest);
      assert p == [p[0]] + p[1..];
      assert forall c | c in p[1..] :: c in p;
      Cons(p[0], p[1..], [TICK] + rest);
      FindIdSkipsPath(p[1..], rest);
    }
  }

  /** The provenance lines and what follows them, nested to the right. */
  function IdText(id: string, rest: string): string {
    "Context ID:" + (" " + ([TICK] + (id + ([TICK] + rest))))
  }

  function SourceText(path: string, id: string, rest: string): string {
    ['-'] + ([' '] + ([TICK] + (path + ([TICK] + (['\n'] + (['-'] + ([' '] + IdText(id, rest))))))))
  }

  lemma PathIsFound(path: string, id: string, rest: string)
    requires TICK !in path && EndsMd(path)
    ensures FindPath(SourceText(path, id, rest)) == Some(path)
  {
    var more := ['\n'] + (['-'] + ([' '] + IdText(id, rest)));
    var quoted := [TICK] + (path + ([TICK] + more));
    FindPathSkips('-', [' '] + quoted);
    FindPathSkips(' ', quoted);
    QuotedAfterTick(path, more);
  }

  lemma IdIsFound(path: string, id: string, rest: string)
    requires TICK !in path && EndsMd(path) && TICK !in id && id != ""
    ensures FindId(SourceText(path, id, rest)) == Some(id)
  {
    var text := IdText(id, rest);
    var more := ['\n'] + (['-'] + ([' '] + text));
    assert path[|path| - 1] == path[|path| - 3..][2] == 'd';
    assert Lower('-') != 'c' && Lower(' ') != 'c' && Lower(TICK) != 'c' && Lower('\n') != 'c';
    FindIdSkips('-', [' '] + ([TICK] + (path + ([TICK] + more))));
    FindIdSkips(' ', [TICK] + (path + ([TICK] + more)));
    FindIdSkips(TICK, path + ([TICK] + more));
    FindIdSkipsPath(path, more);
    FindIdSkips(TICK, more);
    FindIdSkips('\n', ['-'] + ([' '] + text));
    FindIdSkips('-', [' '] + text);
    FindIdSkips(' ', text);
    LabelIsFound(id, rest);
  }

  lemma LabelIsFound(id: string, rest: string)
    requires TICK !in id && id != ""
    ensures IdAt(IdText(id, rest)) == Some(id)
  {
    var quoted := [TICK] + (id + ([TICK] + rest));
    var text := IdText(id, rest);
    LabelMatches();
    assert forall i | 0 <= i < |LABEL| :: text[i] == "Context ID:"[i];
    assert text[|LABEL|..] == " " + quoted;
    TrimStartSpace(quoted);
    QuotedAfterTick(id, rest);
  }

  lemma LabelMatches()
    ensures |"Context ID:"| == |LABEL| && forall i | 0 <= i < |LABEL| :: Lower("Context ID:"[i]) == LABEL[i]
  {
  }

  lemma {:induction false} FoundPathIsPath(s: string)
    ensures FindPath(s).Some? ==> TICK !in FindPath(s).value && EndsMd(FindPath(s).value)
  {
    if s != "" && PathAt(s).None? {
      FoundPathIsPath(s[1..]);
    }
  }

  lemma {:induction false} FoundIdHasNoTick(s: string)
    ensures FindId(s).Some? ==> TICK !in FindId(s).value
  {
    if s != "" && IdAt(s).None? {
      FoundIdHasNoTick(s[1..]);
    }
  }

  /* ---------- Provenance survives ---------- */

  function SourceBody(path: string, id: string): seq<string> {
    [PathLine(path), FieldLine("Context ID", id)]
  }

  lemma LinesAreTight(path: string, field: string, value: string)
    requires field != ""
    ensures Tight(PathLine(path)) && Heading(PathLine(path)).None?
    ensures Tight(FieldLine(field, value)) && Heading(FieldLine(field, value)).None?
  {
    assert PathLine(path)[0] == '-' && PathLine(path)[|PathLine(path)| - 1] == TICK;
    assert FieldLine(field, value)[0] == '-' && FieldLine(field, value)[|FieldLine(field, value)| - 1] == TICK;
  }

  lemma LinesHaveNoBreaks(path: string, field: string, value: string)
    requires OneLine(path) && OneLine(field) && OneLine(value)
    ensures NoBreaks(PathLine(path)) && NoBreaks(FieldLine(field, value))
  {
  }

  lemma SourceBodyText(path: string, id: string, rest: string)
    ensures Tight(JoinLines(SourceBody(path, id)))
    ensures JoinLines(SourceBody(path, id)) + rest == SourceText(path, id, rest)
  {
    var text := JoinLines(SourceBody(path, id));
    LinesAreTight(path, "Context ID", id);
    assert SourceBody(path, id)[1..] == [FieldLine("Context ID", id)];
    var line := FieldLine("Context ID", id);
    assert line + "" == line;
    assert Tail([line], "") == "\n" + line;
    assert text == PathLine(path) + ("\n" + line);
    assert text[0] == '-' && text[|text| - 1] == TICK;
    FieldText(id, rest);
    PathText(path, "\n" + FieldLine("Context ID", id), rest);
  }

  lemma FieldText(id: string, rest: string)
    ensures ("\n" + FieldLine("Context ID", id)) + rest == ['\n'] + (['-'] + ([' '] + IdText(id, rest)))
  {
    assert Prefix("Context ID") == "- Context ID: " + [TICK];
    assert "\n" + ("- Context ID: " + [TICK]) == "\n- Context ID: " + [TICK];
    assert FieldLine("Context ID", id) + rest == "- Context ID: " + ([TICK] + (id + ([TICK] + rest)));
  }

  lemma PathText(path: string, more: string, rest: string)
    ensures (PathLine(path) + more) + rest == ['-'] + ([' '] + ([TICK] + (path + ([TICK] + (more + rest)))))
  {
    assert (PathLine(path) + more) + rest == PathLine(path) + (more + rest);
    assert PathLine(path) == "- " + ([TICK] + (path + [TICK]));
  }

  lemma SourceHeading()
    ensures Heading("## " + "Source Context Pack") == Some("Source Context Pack") && NoBreaks("Source Context Pack")
  {
    HeadingOf("Source Context Pack");
  }

  lemma ProvenanceHeading()
    ensures Heading("## " + "Provenance") == Some("Provenance") && NoBreaks("Provenance")
  {
    HeadingOf("Provenance");
  }

  lemma LiteralHeadings()
    ensures "## " + "Source Context Pack" == "## Source Context Pack" && "## " + "Provenance" == "## Provenance"
  {
  }

  lemma SourceLinesOpen(first: string, path: string, id: string)
    ensures SourceLines(first, path, id) == Opening(first, "Source Context Pack", [""] + SourceBody(path, id))
  {
    LiteralHeadings();
  }

  predicate OwnLine(line: string) {
    Heading(line).None? && NoBreaks(line)
  }

  lemma OwnLinesOpen(first: string, title: string, own: seq<string>)
    requires OwnLine(first) && forall i | 0 <= i < |own| :: OwnLine(own[i])
    requires Heading("## " + title) == Some(title) && NoBreaks(title)
    ensures Opens(first, title, [""] + own)
  {
    TitleIsNoHeading("");
    var all := [""] + own;
    assert forall i | 0 <= i < |all| :: OwnLine(all[i]);
    var lines := Opening(first, title, all);
    assert lines == [first, "", "## " + title] + all;
    assert NoBreaks("## " + title);
  }

  lemma OwnLines(path: string, field: string, value: string)
    requires OneLine(path) && OneLine(field) && field != "" && OneLine(value)
    ensures OwnLine(PathLine(path)) && OwnLine(FieldLine(field, value))
  {
    LinesAreTight(path, field, value);
    LinesHaveNoBreaks(path, field, value);
  }

  lemma SourceOpens(first: string, path: string, id: string)
    requires OwnLine(first) && OneLine(path) && OneLine(id)
    ensures Opens(first, "Source Context Pack", [""] + SourceBody(path, id))
  {
    OwnLines(path, "Context ID", id);
    SourceHeading();
    OwnLinesOpen(first, "Source Context Pack", SourceBody(path, id));
  }

  /** What the reader finds in the section is what was written, followed by whatever comes after. */
  lemma SourceSection(first: string, path: string, id: string, after: string)
    requires OwnLine(first) && OneLine(path) && OneLine(id)
    requires NeverReopened("Source Context Pack", Split(Normalize(after)))
    ensures SectionOr(SectionsOf(Document(SourceLines(first, path, id), after)), "Source Context Pack")
      == SourceText(path, id, Remainder(Until(Split(Normalize(after)))))
  {
    var own, more := SourceBody(path, id), Until(Split(Normalize(after)));
    SourceLinesOpen(first, path, id);
    SourceOpens(first, path, id);
    SectionOfDocument(first, "Source Context Pack", [""] + own, after);
    SourceBodyText(path, id, Remainder(more));
    TrimmedSection(own, more);
  }

  /**
   A scaffolded file gives back the path and the id it was made from, whatever the rest of the file says
   short of a second such section, exactly when the path ends in .md and neither contains a backtick.
   */
  lemma SourceContextSurvives(first: string, path: string, id: string, after: string)
    requires OwnLine(first) && OneLine(path) && OneLine(id) && id != ""
    requires NeverReopened("Source Context Pack", Split(Normalize(after)))
    ensures (SourceContextOf(Document(SourceLines(first, path, id), after)) == SourceContext(Some(path), Some(id)))
      <==> EndsMd(path) && TICK !in path && TICK !in id
  {
    var rest := Remainder(Until(Split(Normalize(after))));
    SourceSection(first, path, id, after);
    FoundPathIsPath(SourceText(path, id, rest));
    FoundIdHasNoTick(SourceText(path, id, rest));
    if EndsMd(path) && TICK !in path && TICK !in id {
      PathIsFound(path, id, rest);
      IdIsFound(path, id, rest);
    }
  }

  lemma ScaffoldTitle(slug: string, kind: string)
    requires NoBreaks(slug) && NoBreaks(kind)
    ensures OwnLine("# " + slug + kind)
  {
    Regroup("# ", slug, kind);
    TitleIsNoHeading(slug + kind);
  }

  /* ---------- The handoff ---------- */

  lemma LabelIsExtracted(field: string, value: string)
    ensures ExtractLabel(FieldLine(field, value), field) == Some(value)
  {
    var line := FieldLine(field, value);
    assert line[..|Prefix(field)|] == Prefix(field);
    assert line[|Prefix(field)|..|line| - 1] == value;
  }

  /** A value that is not empty is read from a line exactly when the line is the field's line with that value. */
  lemma ReadsExactly(line: string, field: string, value: string)
    requires value != ""
    ensures ExtractLabel(line, field) == Some(value) <==> line == FieldLine(field, value)
    ensures ExtractLabel(line, field) != Some(value) ==> Or(None, ExtractLabel(line, field)) != Some(value)
  {
    var p := Prefix(field);
    if ExtractLabel(line, field) == Some(value) {
      assert line == line[..|p|] + (line[|p|..|line| - 1] + [line[|line| - 1]]);
    }
    if line == FieldLine(field, value) {
      LabelIsExtracted(field, value);
    }
  }

  /** A line that stops after the opening backtick has an empty value, which counts as none. */
  lemma EmptyFieldIsNone(field: string)
    ensures ExtractLabel(Prefix(field), field) == Some("")
    ensures ExtractLabel(FieldLine(field, ""), field) == Some("")
  {
    assert Prefix(field)[|Prefix(field)| - 1] == TICK;
    LabelIsExtracted(field, "");
  }

  lemma OtherLabelIsNot(field: string, value: string, other: string, i: nat)
    requires i < |field| && i < |other| && field[i] != other[i]
    ensures ExtractLabel(FieldLine(field, value), other).None?
  {
    var line := FieldLine(field, value);
    assert line[i + 2] == field[i];
    assert Prefix(other)[i + 2] == other[i];
  }

  lemma ReadHandoffCons(p: HandoffProvenance, line: string, lines: seq<string>)
    ensures ReadHandoff(p, [line] + lines) == ReadHandoff(ReadHandoffLine(p, line), lines)
  {
    assert ([line] + lines)[1..] == lines;
  }

  /** Once all three are found, later lines change nothing. */
  lemma {:induction false} FoundIsFinal(p: HandoffProvenance, lines: seq<string>)
    requires p.sourceContext.Some? && p.sourceContext.value != ""
    requires p.contextId.Some? && p.contextId.value != ""
    requires p.specDir.Some? && p.specDir.value != ""
    ensures ReadHandoff(p, lines) == p
    decreases |lines|
  {
    if lines != [] {
      FoundIsFinal(p, lines[1..]);
    }
  }

  lemma TightIsTrimmed(s: string)
    requires Tight(s)
    ensures Trim(s) == s
  {
  }

  lemma ReadThreeLines(source: string, id: string, dir: string, more: seq<string>)
    requires source != "" && id != "" && dir != ""
    ensures ReadHandoff(NOTHING, HandoffBody(source, id, dir) + more)
      == HandoffProvenance(Some(source), Some(id), Some(dir))
  {
    var s1, s2, s3 := FieldLine("Source Context Pack", source), FieldLine("Context ID", id), FieldLine("Spec directory", dir);
    assert HandoffBody(source, id, dir) + more == [s1] + ([s2] + ([s3] + more));
    ReadHandoffCons(NOTHING, s1, [s2] + ([s3] + more));
    SourceLineIsRead(source);
    var p1 := HandoffProvenance(Some(source), None, None);
    ReadHandoffCons(p1, s2, [s3] + more);
    IdLineIsRead(p1, id);
    var p2 := HandoffProvenance(Some(source), Some(id), None);
    ReadHandoffCons(p2, s3, more);
    DirLineIsRead(p2, dir);
    FoundIsFinal(HandoffProvenance(Some(source), Some(id), Some(dir)), more);
  }

  lemma SourceLineIsRead(source: string)
    ensures ReadHandoffLine(NOTHING, FieldLine("Source Context Pack", source)) == HandoffProvenance(Some(source), None, None)
  {
    LinesAreTight("", "Source Context Pack", source);
    TightIsTrimmed(FieldLine("Source Context Pack", source));
    LabelIsExtracted("Source Context Pack", source);
    OtherLabelIsNot("Source Context Pack", source, "Context ID", 0);
    OtherLabelIsNot("Source Context Pack", source, "Spec directory", 1);
  }

  lemma IdLineIsRead(p: HandoffProvenance, id: string)
    requires p.sourceContext.Some? && p.sourceContext.value != "" && p.contextId.None? && p.specDir.None?
    ensures ReadHandoffLine(p, FieldLine("Context ID", id)) == p.(contextId := Some(id))
  {
    LinesAreTight("", "Context ID", id);
    TightIsTrimmed(FieldLine("Context ID", id));
    LabelIsExtracted("Context ID", id);
    OtherLabelIsNot("Context ID", id, "Spec directory", 0);
  }

  lemma DirLineIsRead(p: HandoffProvenance, dir: string)
    requires p.sourceContext.Some? && p.sourceContext.value != ""
    requires p.contextId.Some? && p.contextId.value != "" && p.specDir.None?
    ensures ReadHandoffLine(p, FieldLine("Spec directory", dir)) == p.(specDir := Some(dir))
  {
    LinesAreTight("", "Spec directory", dir);
    TightIsTrimmed(FieldLine("Spec directory", dir));
    LabelIsExtracted("Spec directory", dir);
  }

  function HandoffBody(source: string, id: string, dir: string): seq<string> {
    [FieldLine("Source Context Pack", source), FieldLine("Context ID", id), FieldLine("Spec directory", dir)]
  }

  lemma HandoffLinesOpen(slug: string, source: string, id: string)
    ensures HandoffLines(slug, source, id) ==
      Opening("# Implementation Handoff: " + slug, "Provenance", [""] + HandoffBody(source, id, SpecDir(slug)))
  {
    LiteralHeadings();
  }

  /** Lines joined, with something after them: splitting gives the lines back, and then the rest. */
  lemma {:induction false} SplitOfJoined(lines: seq<string>, text: string)
    requires lines != [] && forall i | 0 <= i < |lines| :: OneLine(lines[i])
    ensures Split(JoinLines(lines) + ("\n" + text)) == lines + Split(text)
    decreases |lines|
  {
    var first, rest := lines[0], lines[1..];
    assert OneLine(first) && lines == [first] + rest;
    if rest == [] {
      assert JoinLines(lines) == first;
      SplitFirstLine(first, text);
    } else {
      DocumentCons(first, rest, text);
      SplitFirstLine(first, Document(rest, text));
      SplitOfJoined(rest, text);
      RegroupLines([first], rest, Split(text));
    }
  }

  lemma HandoffBodyIsTight(source: string, id: string, dir: string)
    ensures Tight(JoinLines(HandoffBody(source, id, dir)))
  {
    var s1, s2, s3 := FieldLine("Source Context Pack", source), FieldLine("Context ID", id), FieldLine("Spec directory", dir);
    LinesAreTight("", "Source Context Pack", source);
    LinesAreTight("", "Spec directory", dir);
    JoinThree(s1, s2, s3);
  }

  lemma JoinThree(a: string, b: string, c: string)
    requires Tight(a) && Tight(c)
    ensures Tight(JoinLines([a, b, c]))
  {
    assert c + "" == c && [b, c][1..] == [c] && [a, b, c][1..] == [b, c];
    assert Tail([c], "") == "\n" + c;
    assert Tail([b, c], "") == "\n" + (b + ("\n" + c));
    var text := JoinLines([a, b, c]);
    assert text == a + Tail([b, c], "");
    assert text[0] == a[0] && text[|text| - 1] == c[|c| - 1];
  }

  lemma ReadHandoffSection(source: string, id: string, dir: string, more: seq<string>)
    requires OneLine(source) && OneLine(id) && OneLine(dir) && source != "" && id != "" && dir != ""
    ensures ReadHandoff(NOTHING, Split(JoinLines(HandoffBody(source, id, dir)) + Remainder(more)))
      == HandoffProvenance(Some(source), Some(id), Some(dir))
  {
    var body := HandoffBody(source, id, dir);
    LinesHaveNoBreaks("", "Source Context Pack", source);
    LinesHaveNoBreaks("", "Context ID", id);
    LinesHaveNoBreaks("", "Spec directory", dir);
    RemainderShape(more);
    if Remainder(more) == "" {
      SplitOfJoin(body);
      assert JoinLines(body) + "" == JoinLines(body);
      ReadThreeLines(source, id, dir, []);
      assert body + [] == body;
    } else {
      var w :| Remainder(more) == "\n" + w;
      SplitOfJoined(body, w);
      ReadThreeLines(source, id, dir, Split(w));
    }
  }

  lemma HandoffTitle(slug: string)
    requires NoBreaks(slug)
    ensures OwnLine("# Implementation Handoff: " + slug)
  {
    assert "# Implementation Handoff: "[1] == ' ' && "##"[1] == '#';
    assert ("# Implementation Handoff: " + slug)[1] == ' ';
  }

  lemma HandoffOwnLines(source: string, id: string, dir: string)
    requires OneLine(source) && OneLine(id) && OneLine(dir)
    ensures forall i | 0 <= i < 3 :: OwnLine(HandoffBody(source, id, dir)[i])
  {
    OwnLines("", "Source Context Pack", source);
    OwnLines("", "Context ID", id);
    OwnLines("", "Spec directory", dir);
  }

  lemma HandoffOpens(first: string, source: string, id: string, dir: string)
    requires OwnLine(first) && OneLine(source) && OneLine(id) && OneLine(dir)
    ensures Opens(first, "Provenance", [""] + HandoffBody(source, id, dir))
  {
    HandoffOwnLines(source, id, dir);
    ProvenanceHeading();
    OwnLinesOpen(first, "Provenance", HandoffBody(source, id, dir));
  }

  lemma HandoffSection(first: string, source: string, id: string, dir: string, after: string)
    requires OwnLine(first) && OneLine(source) && OneLine(id) && OneLine(dir)
    requires NeverReopened("Provenance", Split(Normalize(after)))
    ensures SectionOr(SectionsOf(Document(Opening(first, "Provenance", [""] + HandoffBody(source, id, dir)), after)), "Provenance")
      == JoinLines(HandoffBody(source, id, dir)) + Remainder(Until(Split(Normalize(after))))
  {
    HandoffOpens(first, source, id, dir);
    SectionOfDocument(first, "Provenance", [""] + HandoffBody(source, id, dir), after);
    HandoffBodyIsTight(source, id, dir);
    TrimmedSection(HandoffBody(source, id, dir), Until(Split(Normalize(after))));
  }

  /** A handoff gives back source, id and spec directory, whatever follows short of a second such section. */
  lemma HandoffReadsBack(slug: string, source: string, id: string, after: string)
    requires NoBreaks(slug) && OneLine(source) && OneLine(id) && source != "" && id != ""
    requires NeverReopened("Provenance", Split(Normalize(after)))
    ensures HandoffProvenanceOf(Document(HandoffLines(slug, source, id), after))
      == HandoffProvenance(Some(source), Some(id), Some(SpecDir(slug)))
  {
    HandoffTitle(slug);
    HandoffLinesOpen(slug, source, id);
    HandoffSection("# Implementation Handoff: " + slug, source, id, SpecDir(slug), after);
    ReadHandoffSection(source, id, SpecDir(slug), Until(Split(Normalize(after))));
  }
}
