/**
 The readiness gate for specs: `validateSpecDirectory` of scripts/check-spec-readiness.js, the findings it
 reports, and exactly when it lets a spec pass.
 */
module SpecReadiness {
  import opened Prelude
  import opened JsText
  import opened TextLines
  import opened MarkdownSections
  import opened SourcePatterns
  import opened Provenance

  datatype SpecFile = RequirementsFile | DesignFile | TasksFile

  const REQUIRED_FILES: seq<SpecFile> := [RequirementsFile, DesignFile, TasksFile]

  function RequirementsSection(k: nat): string {
    match k
    case 0 => "Source Context Pack"
    case 1 => "Purpose"
    case 2 => "Current Implementation Truth"
    case 3 => "Requirements"
    case 4 => "Invariants"
    case 5 => "Acceptance Criteria"
    case 6 => "Open Questions"
    case _ => "Review Gate"
  }

  function DesignSection(k: nat): string {
    match k
    case 0 => "Source Context Pack"
    case 1 => "Current State"
    case 2 => "Proposed Design"
    case 3 => "Affected Components"
    case 4 => "Trust Boundary Impact"
    case 5 => "Security"
    case 6 => "Cost and Operations"
    case 7 => "Alternatives Considered"
    case 8 => "Validation Plan"
    case _ => "Review Checklist"
  }

  function RequiredSections(file: SpecFile): seq<string> {
    match file
    case RequirementsFile => seq(8, k requires 0 <= k < 8 => RequirementsSection(k))
    case DesignFile => seq(10, k requires 0 <= k < 10 => DesignSection(k))
    case TasksFile => ["Source Context Pack"]
  }

  /** What a finding in a file is about. */
  datatype Kind = MissingSection | Placeholder | OpenQuestion | UncheckedItem

  datatype SpecError =
    | NoDirectory
    | MissingFile(file: SpecFile)
    | Finding(kind: Kind, file: SpecFile, text: string)
    | NoPath(file: SpecFile)
    | NoId(file: SpecFile)
    | PathsDiffer
    | IdsDiffer

  /** The spec files that are there, by name. */
  type SpecFiles = map<SpecFile, string>

  datatype Readiness = Readiness(errors: seq<SpecError>, sourceContext: Option<string>, contextId: Option<string>)

  predicate Ready(r: Readiness) {
    r.errors == []
  }

  /* ---------- Placeholders ---------- */

  /** How many characters come before the next '>', if no line break comes first. */
  function Close(s: string): (r: Option<nat>)
    ensures r.Some? ==> r.value < |s| && s[r.value] == '>'
    ensures r.Some? ==> forall i | 0 <= i < r.value :: s[i] != '>' && s[i] != '\n'
  {
    if s == "" || s[0] == '\n' then None
    else if s[0] == '>' then Some(0)
    else if Close(s[1..]).None? then None
    else Some(Close(s[1..]).value + 1)
  }

  /** The pattern /<[^>\n]+>/ at the start of `s`. */
  function PlaceholderAt(s: string): (r: Option<string>)
    ensures r.Some? ==> r.value <= s && IsPlaceholder(r.value)
  {
    if s == "" || s[0] != '<' || Close(s[1..]).None? || Close(s[1..]).value == 0 then None
    else Some(s[..Close(s[1..]).value + 2])
  }

  /** All its matches, left to right. */
  function Placeholders(s: string): seq<string>
    decreases |s|
  {
    if s == "" then []
    else if PlaceholderAt(s).Some? then [PlaceholderAt(s).value] + Placeholders(s[|PlaceholderAt(s).value|..])
    else Placeholders(s[1..])
  }

  /** The members of a JavaScript Set, in the order of insertion. */
  function Distinct(values: seq<string>): seq<string> {
    if values == [] then []
    else
      var last := values[|values| - 1];
      var r := Distinct(values[..|values| - 1]);
      if last in r then r else r + [last]
  }

  function FindPlaceholders(markdown: string): seq<string> {
    Distinct(Placeholders(markdown))
  }

  predicate IsPlaceholder(p: string) {
    |p| >= 3 && p[0] == '<' && p[|p| - 1] == '>' && forall i | 0 < i < |p| - 1 :: p[i] != '>' && p[i] != '\n'
  }

  predicate PlaceholderHere(s: string, i: nat, p: string) {
    i + |p| <= |s| && s[i..i + |p|] == p && IsPlaceholder(p)
  }

  ghost predicate HasPlaceholder(s: string) {
    exists i: nat, p :: PlaceholderHere(s, i, p)
  }

  lemma {:induction false} CloseFinds(s: string, k: nat)
    requires k < |s| && s[k] == '>' && forall i | 0 <= i < k :: s[i] != '>' && s[i] != '\n'
    ensures Close(s) == Some(k)
  {
    if k > 0 {
      CloseFinds(s[1..], k - 1);
    }
  }

  lemma PlaceholderAtFinds(s: string, p: string)
    requires PlaceholderHere(s, 0, p)
    ensures PlaceholderAt(s) == Some(p)
  {
    assert forall i | 0 <= i < |p| :: s[i] == s[..|p|][i] == p[i];
    CloseFinds(s[1..], |p| - 2);
  }

  lemma PlaceholderFurtherOn(s: string, n: nat, i: nat, p: string)
    requires n <= |s|
    ensures PlaceholderHere(s[n..], i, p) <==> PlaceholderHere(s, n + i, p)
  {
    if n + i + |p| <= |s| {
      assert s[n..][i..i + |p|] == s[n + i..n + i + |p|];
    }
  }

  lemma {:induction false} FoundIsHere(s: string, p: string) returns (i: nat)
    requires p in Placeholders(s)
    ensures PlaceholderHere(s, i, p)
    decreases |s|
  {
    var at := PlaceholderAt(s);
    if at.Some? && p == at.value {
      i := 0;
    } else {
      var n := if at.Some? then |at.value| else 1;
      var k := FoundIsHere(s[n..], p);
      PlaceholderFurtherOn(s, n, k, p);
      i := n + k;
    }
  }

  lemma {:induction false} HereIsFound(s: string, i: nat, p: string)
    requires PlaceholderHere(s, i, p)
    ensures Placeholders(s) != []
    decreases |s|
  {
    if i == 0 {
      PlaceholderAtFinds(s, p);
    } else if PlaceholderAt(s).None? {
      PlaceholderFurtherOn(s, 1, i - 1, p);
      HereIsFound(s[1..], i - 1, p);
    }
  }

  /** Nothing is found exactly where no placeholder is. */
  lemma PlaceholdersAreFound(s: string)
    ensures Placeholders(s) == [] <==> !HasPlaceholder(s)
  {
    if Placeholders(s) != [] {
      var i := FoundIsHere(s, Placeholders(s)[0]);
    }
    if i: nat, p :| PlaceholderHere(s, i, p) {
      HereIsFound(s, i, p);
    }
  }

  /* ---------- Open questions and review items ---------- */

  /** The trimmed lines that meet `p`. */
  function TrimmedWhere(p: string -> bool, lines: seq<string>): seq<string> {
    if lines == [] then []
    else (if p(lines[0]) then [Trim(lines[0])] else []) + TrimmedWhere(p, lines[1..])
  }

  /** `/^\s*-\s+\S+/`. */
  predicate IsBullet(line: string) {
    var t := TrimStart(line);
    |t| >= 2 && t[0] == '-' && IsSpace(t[1]) && TrimStart(t[1..]) != ""
  }

  /** `/^\s*-\s*\[\s\]\s+/`. */
  predicate IsUnchecked(line: string) {
    var t := TrimStart(line);
    && t != "" && t[0] == '-'
    && var u := TrimStart(t[1..]);
       |u| >= 4 && u[0] == '[' && IsSpace(u[1]) && u[2] == ']' && IsSpace(u[3])
  }

  /** Blanks, a hyphen, at least one blank, and then something else. */
  predicate BulletAt(line: string, i: nat, j: nat) {
    && BlanksFrom(line, 0, i) && i < |line| && line[i] == '-'
    && i + 1 < j < |line| && BlanksFrom(line, i + 1, j) && !IsSpace(line[j])
  }

  lemma BulletExactly(line: string)
    ensures IsBullet(line) <==> exists i, j | 0 <= i < |line| && 0 <= j < |line| :: BulletAt(line, i, j)
  {
    if IsBullet(line) {
      BulletIsAt(line);
    }
    if i, j :| 0 <= i < |line| && 0 <= j < |line| && BulletAt(line, i, j) {
      AtIsBullet(line, i, j);
    }
  }

  lemma AtIsBullet(line: string, i: nat, j: nat)
    requires BulletAt(line, i, j)
    ensures IsBullet(line)
  {
    SkippingStops(line, 0, i);
    SkippingStops(line, i + 1, j);
    assert line[0..] == line;
    var t := TrimStart(line);
    assert t == line[i..] && t[1..] == line[i + 1..] && t[1] == line[i + 1];
    assert TrimStart(t[1..]) == line[j..];
  }

  lemma BulletIsAt(line: string)
    requires IsBullet(line)
    ensures exists i, j | 0 <= i < |line| && 0 <= j < |line| :: BulletAt(line, i, j)
  {
    assert line[0..] == line;
    var i := BlanksAreSkipped(line, 0);
    assert line[i..][1..] == line[i + 1..];
    var j := BlanksAreSkipped(line, i + 1);
    assert line[i..][1] == line[i + 1];
    assert BulletAt(line, i, j);
  }

  /** Blanks, a hyphen, any blanks, and then a box with one blank in it and one behind it. */
  predicate BoxAt(line: string, i: nat, j: nat) {
    && BlanksFrom(line, 0, i) && i < |line| && line[i] == '-' && i + 1 <= j && BlanksFrom(line, i + 1, j)
    && j + 4 <= |line| && line[j] == '[' && IsSpace(line[j + 1]) && line[j + 2] == ']' && IsSpace(line[j + 3])
  }

  lemma UncheckedExactly(line: string)
    ensures IsUnchecked(line) <==> exists i, j | 0 <= i < |line| && 0 <= j < |line| :: BoxAt(line, i, j)
  {
    if IsUnchecked(line) {
      UncheckedIsAt(line);
    }
    if i, j :| 0 <= i < |line| && 0 <= j < |line| && BoxAt(line, i, j) {
      BoxIsUnchecked(line, i, j);
    }
  }

  lemma BoxIsUnchecked(line: string, i: nat, j: nat)
    requires BoxAt(line, i, j)
    ensures IsUnchecked(line)
  {
    SkippingStops(line, 0, i);
    SkippingStops(line, i + 1, j);
    assert line[0..] == line;
    var t := TrimStart(line);
    assert t == line[i..] && t[1..] == line[i + 1..];
    var u := TrimStart(t[1..]);
    assert u == line[j..];
    assert u[0] == line[j] && u[1] == line[j + 1] && u[2] == line[j + 2] && u[3] == line[j + 3];
  }

  lemma UncheckedIsAt(line: string)
    requires IsUnchecked(line)
    ensures exists i, j | 0 <= i < |line| && 0 <= j < |line| :: BoxAt(line, i, j)
  {
    assert line[0..] == line;
    var i := BlanksAreSkipped(line, 0);
    assert line[i..][1..] == line[i + 1..];
    var j := BlanksAreSkipped(line, i + 1);
    assert forall k | 0 <= k < 4 :: line[j..][k] == line[j + k];
    assert BoxAt(line, i, j);
  }

  /** For texts compared with ASCII words that no other letters fold to. */
  function LowerAll(s: string): string {
    seq(|s|, i requires 0 <= i < |s| => Lower(s[i]))
  }

  predicate SaysNone(body: string) {
    LowerAll(body) in ["none", "- none", "resolved: none", "- resolved: none"]
  }

  /** `word`, or `upper` in place of any of its letters. */
  predicate InAnyCase(s: string, word: string, upper: string) {
    |s| == |word| == |upper| && forall i | 0 <= i < |s| :: s[i] == word[i] || s[i] == upper[i]
  }

  lemma AnyCase(s: string, word: string, upper: string)
    requires |word| == |upper| && forall i, c: char | 0 <= i < |word| :: Lower(c) == word[i] <==> c == word[i] || c == upper[i]
    ensures LowerAll(s) == word <==> InAnyCase(s, word, upper)
  {
    if LowerAll(s) == word {
      assert forall i | 0 <= i < |s| :: Lower(s[i]) == LowerAll(s)[i];
    }
    if InAnyCase(s, word, upper) {
      assert forall i | 0 <= i < |s| :: LowerAll(s)[i] == Lower(s[i]) == word[i];
    }
  }

  /** The four ways to say that no question is open. */
  lemma NoneIsSaidExactly(body: string)
    ensures SaysNone(body) <==>
      || InAnyCase(body, "none", "NONE") || InAnyCase(body, "- none", "- NONE")
      || InAnyCase(body, "resolved: none", "RESOLVED: NONE") || InAnyCase(body, "- resolved: none", "- RESOLVED: NONE")
  {
    AnyCase(body, "none", "NONE");
    AnyCase(body, "- none", "- NONE");
    AnyCase(body, "resolved: none", "RESOLVED: NONE");
    AnyCase(body, "- resolved: none", "- RESOLVED: NONE");
  }

  function FindUnresolvedOpenQuestions(markdown: string): seq<string> {
    var body := Trim(SectionOr(SectionsOf(markdown), "Open Questions"));
    if body == "" || SaysNone(body) then [] else TrimmedWhere(IsBullet, Split(body))
  }

  function FindUncheckedReviewItems(markdown: string): seq<string> {
    var body := SectionOr(SectionsOf(markdown), "Review Checklist");
    if body == "" then [] else TrimmedWhere(IsUnchecked, Split(body))
  }

  function MissingOf(sections: Sections, required: seq<string>): seq<string> {
    if required == [] then []
    else (if required[0] in sections then [] else [required[0]]) + MissingOf(sections, required[1..])
  }

  method ValidateRequiredSections(required: seq<string>, markdown: string) returns (missing: seq<string>)
    ensures missing == MissingOf(SectionsOf(markdown), required)
  {
    var sections := SplitSections(markdown);
    missing := [];
    for i := 0 to |required|
      invariant missing + MissingOf(sections, required[i..]) == MissingOf(sections, required)
    {
      var rest := required[i + 1..];
      assert required[i..][1..] == rest;
      RegroupLines(missing, if required[i] in sections then [] else [required[i]], MissingOf(sections, rest));
      if required[i] !in sections {
        missing := missing + [required[i]];
      } else {
        assert missing + [] == missing;
      }
    }
  }

  /** A title is a section's name when some line is its heading. */
  lemma {:induction false} SectionsAreHeadings(st: Splitter, lines: seq<string>, title: string)
    ensures title in SplitFrom(st, lines) <==>
      title in st.sections || st.current == Some(title) || !NeverReopened(title, lines)
    decreases |lines|
  {
    if lines != [] {
      SectionsAreHeadings(SplitLine(st, lines[0]), lines[1..], title);
      assert forall i | 1 <= i < |lines| :: lines[i] == lines[1..][i - 1];
      assert NeverReopened(title, lines) <==> Heading(lines[0]) != Some(title) && NeverReopened(title, lines[1..]);
    }
  }

  /* ---------- The gate ---------- */

  function Findings(kind: Kind, file: SpecFile, texts: seq<string>): seq<SpecError> {
    if texts == [] then [] else [Finding(kind, file, texts[0])] + Findings(kind, file, texts[1..])
  }

  /** The errors so far and what was found in one more file, in the order of the checks. */
  function Report(errors: seq<SpecError>, file: SpecFile, missing: seq<string>, placeholders: seq<string>,
                  questions: seq<string>, items: seq<string>, source: SourceContext): seq<SpecError> {
    var all := errors + Findings(MissingSection, file, missing) + Findings(Placeholder, file, placeholders) +
               Findings(OpenQuestion, file, questions) + Findings(UncheckedItem, file, items);
    var paths := if source.path.None? then all + [NoPath(file)] else all;
    if source.id.None? then paths + [NoId(file)] else paths
  }

  function WithFile(errors: seq<SpecError>, file: SpecFile, markdown: string): seq<SpecError> {
    Report(errors, file, MissingOf(SectionsOf(markdown), RequiredSections(file)), FindPlaceholders(markdown),
           if file == RequirementsFile then FindUnresolvedOpenQuestions(markdown) else [],
           FindUncheckedReviewItems(markdown), SourceContextOf(markdown))
  }

  function WithFiles(errors: seq<SpecError>, files: SpecFiles, names: seq<SpecFile>): seq<SpecError>
    requires AllThere(files)
    decreases |names|
  {
    if names == [] then errors else WithFiles(WithFile(errors, names[0], files[names[0]]), files, names[1..])
  }

  function MissingFiles(files: SpecFiles, names: seq<SpecFile>): seq<SpecError> {
    if names == [] then []
    else (if names[0] in files then [] else [MissingFile(names[0])]) + MissingFiles(files, names[1..])
  }

  function SourcesOf(files: SpecFiles, names: seq<SpecFile>): seq<SourceContext>
    requires AllThere(files)
  {
    if names == [] then [] else [SourceContextOf(files[names[0]])] + SourcesOf(files, names[1..])
  }

  /** The paths that were found, in the order of the files; and the ids. */
  function Paths(sources: seq<SourceContext>): seq<string> {
    if sources == [] then []
    else (if sources[0].path.Some? then [sources[0].path.value] else []) + Paths(sources[1..])
  }

  function Ids(sources: seq<SourceContext>): seq<string> {
    if sources == [] then []
    else (if sources[0].id.Some? then [sources[0].id.value] else []) + Ids(sources[1..])
  }

  predicate AllThere(files: SpecFiles) {
    forall f: SpecFile :: f in files
  }

  function First(values: seq<string>): Option<string> {
    if values == [] then None else Some(values[0])
  }

  function ReadinessOf(directory: Option<SpecFiles>): Readiness {
    if directory.None? then Readiness([NoDirectory], None, None)
    else if MissingFiles(directory.value, REQUIRED_FILES) != [] then
      Readiness(MissingFiles(directory.value, REQUIRED_FILES), None, None)
    else
      var files := directory.value;
      MissingFilesAreAll(files);
      Verdict(WithFiles([], files, REQUIRED_FILES), SourcesOf(files, REQUIRED_FILES))
  }

  /** The last two checks, and what the gate returns. */
  function Verdict(errors: seq<SpecError>, sources: seq<SourceContext>): Readiness {
    var paths, ids := Paths(sources), Ids(sources);
    var both := if |Distinct(paths)| > 1 then errors + [PathsDiffer] else errors;
    Readiness(if |Distinct(ids)| > 1 then both + [IdsDiffer] else both, First(paths), First(ids))
  }

  lemma {:induction false} MissingFilesExactly(files: SpecFiles, names: seq<SpecFile>, e: SpecError)
    ensures e in MissingFiles(files, names) <==> e.MissingFile? && e.file in names && e.file !in files
  {
    if names != [] {
      MissingFilesExactly(files, names[1..], e);
      assert names == [names[0]] + names[1..];
    }
  }

  lemma AllAreRequired(f: SpecFile)
    ensures f in REQUIRED_FILES
  {
    var i := match f case RequirementsFile => 0 case DesignFile => 1 case TasksFile => 2;
    assert REQUIRED_FILES[i] == f;
  }

  lemma MissingFilesAreAll(files: SpecFiles)
    ensures MissingFiles(files, REQUIRED_FILES) == [] <==> AllThere(files)
  {
    if MissingFiles(files, REQUIRED_FILES) == [] {
      forall f: SpecFile ensures f in files {
        AllAreRequired(f);
        MissingFilesExactly(files, REQUIRED_FILES, MissingFile(f));
      }
    } else {
      MissingFilesExactly(files, REQUIRED_FILES, MissingFiles(files, REQUIRED_FILES)[0]);
    }
  }

  lemma Regrouped<T>(a: seq<T>, b: seq<T>, c: seq<T>)
    ensures a + (b + c) == (a + b) + c
    ensures a + [] == a && [] + a == a
  {
  }

  method PushFindings(errors: seq<SpecError>, kind: Kind, file: SpecFile, texts: seq<string>) returns (r: seq<SpecError>)
    ensures r == errors + Findings(kind, file, texts)
  {
    r := errors;
    for i := 0 to |texts|
      invariant r + Findings(kind, file, texts[i..]) == errors + Findings(kind, file, texts)
    {
      assert texts[i..][1..] == texts[i + 1..];
      Regrouped(r, [Finding(kind, file, texts[i])], Findings(kind, file, texts[i + 1..]));
      r := r + [Finding(kind, file, texts[i])];
    }
    Regrouped(r, [], []);
  }

  method CheckFile(errors: seq<SpecError>, file: SpecFile, markdown: string) returns (r: seq<SpecError>, source: SourceContext)
    ensures r == WithFile(errors, file, markdown)
    ensures source == SourceContextOf(markdown)
  {
    var missing := ValidateRequiredSections(RequiredSections(file), markdown);
    r := PushFindings(errors, MissingSection, file, missing);
    r := PushFindings(r, Placeholder, file, FindPlaceholders(markdown));
    var questions: seq<string> := [];
    if file == RequirementsFile {
      questions := FindUnresolvedOpenQuestions(markdown);
    }
    r := PushFindings(r, OpenQuestion, file, questions);
    r := PushFindings(r, UncheckedItem, file, FindUncheckedReviewItems(markdown));
    source := ExtractSourceContext(markdown);
    if source.path.None? {
      r := r + [NoPath(file)];
    }
    if source.id.None? {
      r := r + [NoId(file)];
    }
  }

  method FindMissingFiles(files: SpecFiles) returns (errors: seq<SpecError>)
    ensures errors == MissingFiles(files, REQUIRED_FILES)
  {
    errors := [];
    for i := 0 to |REQUIRED_FILES|
      invariant errors + MissingFiles(files, REQUIRED_FILES[i..]) == MissingFiles(files, REQUIRED_FILES)
    {
      var file, rest := REQUIRED_FILES[i], REQUIRED_FILES[i + 1..];
      assert REQUIRED_FILES[i..][1..] == rest;
      Regrouped(errors, if file in files then [] else [MissingFile(file)], MissingFiles(files, rest));
      Regrouped(errors, [], []);
      if file !in files {
        errors := errors + [MissingFile(file)];
      }
    }
    Regrouped(errors, [], []);
  }

  lemma WithNextFile(errors: seq<SpecError>, files: SpecFiles, names: seq<SpecFile>, i: nat)
    requires AllThere(files) && i < |names|
    ensures WithFiles(errors, files, names[i..])
      == WithFiles(WithFile(errors, names[i], files[names[i]]), files, names[i + 1..])
  {
    assert names[i..][1..] == names[i + 1..];
  }

  lemma NextSource(sources: seq<SourceContext>, files: SpecFiles, names: seq<SpecFile>, i: nat)
    requires AllThere(files) && i < |names|
    ensures sources + SourcesOf(files, names[i..])
      == (sources + [SourceContextOf(files[names[i]])]) + SourcesOf(files, names[i + 1..])
  {
    assert names[i..][1..] == names[i + 1..];
  }

  method CheckFiles(files: SpecFiles, names: seq<SpecFile>) returns (errors: seq<SpecError>, sources: seq<SourceContext>)
    requires AllThere(files)
    ensures errors == WithFiles([], files, names)
    ensures sources == SourcesOf(files, names)
  {
    errors, sources := [], [];
    for i := 0 to |names|
      invariant WithFiles(errors, files, names[i..]) == WithFiles([], files, names)
      invariant sources + SourcesOf(files, names[i..]) == SourcesOf(files, names)
    {
      WithNextFile(errors, files, names, i);
      NextSource(sources, files, names, i);
      var source;
      errors, source := CheckFile(errors, names[i], files[names[i]]);
      sources := sources + [source];
    }
    assert sources + [] == sources;
  }

  method ValidateSpecDirectory(directory: Option<SpecFiles>) returns (r: Readiness)
    ensures r == ReadinessOf(directory)
  {
    if directory.None? {
      return Readiness([NoDirectory], None, None);
    }
    var files := directory.value;
    var errors := FindMissingFiles(files);
    if errors != [] {
      return Readiness(errors, None, None);
    }
    MissingFilesAreAll(files);
    var sources;
    errors, sources := CheckFiles(files, REQUIRED_FILES);
    var paths, ids := Paths(sources), Ids(sources);
    if |Distinct(paths)| > 1 {
      errors := errors + [PathsDiffer];
    }
    if |Distinct(ids)| > 1 {
      errors := errors + [IdsDiffer];
    }
    return Readiness(errors, First(paths), First(ids));
  }

  /* ---------- What is reported, and when nothing is ---------- */

  lemma {:induction false} MissingExactly(sections: Sections, required: seq<string>, s: string)
    ensures s in MissingOf(sections, required) <==> s in required && s !in sections
  {
    if required != [] {
      MissingExactly(sections, required[1..], s);
      assert required == [required[0]] + required[1..];
    }
  }

  lemma {:induction false} TrimmedExactly(p: string -> bool, lines: seq<string>, t: string)
    ensures t in TrimmedWhere(p, lines) <==> exists k | 0 <= k < |lines| :: p(lines[k]) && t == Trim(lines[k])
  {
    if lines != [] {
      TrimmedExactly(p, lines[1..], t);
      assert forall k | 1 <= k < |lines| :: lines[k] == lines[1..][k - 1];
    }
  }

  lemma {:induction false} DistinctKeeps(values: seq<string>, v: string)
    ensures v in Distinct(values) <==> v in values
  {
    if values != [] {
      var n := |values| - 1;
      DistinctKeeps(values[..n], v);
      DistinctKeeps(values[..n], values[n]);
      assert values == values[..n] + [values[n]];
    }
  }

  /** A Set of strings is larger than one when two of them differ. */
  lemma {:induction false} DistinctCounts(values: seq<string>)
    ensures |Distinct(values)| > 1 <==> exists i, j | 0 <= i < |values| && 0 <= j < |values| :: values[i] != values[j]
    ensures values != [] ==> |Distinct(values)| >= 1
  {
    if values != [] {
      var n := |values| - 1;
      DistinctCounts(values[..n]);
      DistinctKeeps(values[..n], values[n]);
      forall i | 0 <= i < n ensures values[i] in Distinct(values[..n]) {
        DistinctKeeps(values[..n], values[i]);
        assert values[..n][i] == values[i];
      }
      if |Distinct(values)| > 1 && |Distinct(values[..n])| <= 1 {
        assert n > 0 && values[0] != values[n];
      }
      if |Distinct(values)| <= 1 {
        forall i | 0 <= i < n ensures values[i] == values[n] {
          assert values[i] in Distinct(values[..n]) && Distinct(values) == Distinct(values[..n]);
          assert |Distinct(values)| == 1;
        }
      }
    }
  }

  lemma {:induction false} FindingsExactly(kind: Kind, file: SpecFile, texts: seq<string>, e: SpecError)
    ensures e in Findings(kind, file, texts) <==> e.Finding? && e.kind == kind && e.file == file && e.text in texts
  {
    if texts != [] {
      FindingsExactly(kind, file, texts[1..], e);
      assert texts == [texts[0]] + texts[1..];
    }
  }

  /** The finding is true of the file. */
  ghost predicate Holds(kind: Kind, file: SpecFile, markdown: string, text: string) {
    match kind
    case MissingSection => text in RequiredSections(file) && NeverReopened(text, Split(Normalize(markdown)))
    case Placeholder => text in Placeholders(markdown)
    case OpenQuestion => file == RequirementsFile && IsOpenQuestion(markdown, text)
    case UncheckedItem => IsUncheckedItem(markdown, text)
  }

  ghost predicate IsOpenQuestion(markdown: string, text: string) {
    var body := Trim(SectionOr(SectionsOf(markdown), "Open Questions"));
    !SaysNone(body) && exists k | 0 <= k < |Split(body)| :: IsBullet(Split(body)[k]) && text == Trim(Split(body)[k])
  }

  ghost predicate IsUncheckedItem(markdown: string, text: string) {
    var lines := Split(SectionOr(SectionsOf(markdown), "Review Checklist"));
    exists k | 0 <= k < |lines| :: IsUnchecked(lines[k]) && text == Trim(lines[k])
  }

  function SourceSectionOf(markdown: string): string {
    SectionOr(SectionsOf(markdown), "Source Context Pack")
  }

  /** The error is true of a spec whose files are all there. */
  ghost predicate Applies(files: SpecFiles, e: SpecError)
    requires AllThere(files)
  {
    match e
    case NoDirectory => false
    case MissingFile(_) => false
    case Finding(kind, f, text) => Holds(kind, f, files[f], text)
    case NoPath(f) => forall i: nat, c :: !PathMatch(SourceSectionOf(files[f]), i, c)
    case NoId(f) => forall i: nat, c :: !IdMatch(SourceSectionOf(files[f]), i, c)
    case PathsDiffer => TwoPathsIn(files)
    case IdsDiffer => TwoIdsIn(files)
  }

  predicate TwoPathsIn(files: SpecFiles)
    requires AllThere(files)
  {
    exists f, g :: PathIn(files, f).Some? && PathIn(files, g).Some? && PathIn(files, f) != PathIn(files, g)
  }

  predicate TwoIdsIn(files: SpecFiles)
    requires AllThere(files)
  {
    exists f, g :: IdIn(files, f).Some? && IdIn(files, g).Some? && IdIn(files, f) != IdIn(files, g)
  }

  function PathIn(files: SpecFiles, f: SpecFile): Option<string>
    requires AllThere(files)
  {
    SourceContextOf(files[f]).path
  }

  function IdIn(files: SpecFiles, f: SpecFile): Option<string>
    requires AllThere(files)
  {
    SourceContextOf(files[f]).id
  }

  lemma MissingSectionHolds(file: SpecFile, markdown: string, text: string)
    ensures text in MissingOf(SectionsOf(markdown), RequiredSections(file)) <==> Holds(MissingSection, file, markdown, text)
  {
    MissingExactly(SectionsOf(markdown), RequiredSections(file), text);
    SectionsAreHeadings(Splitter(map[], None, []), Split(Normalize(markdown)), text);
  }

  lemma PlaceholderHolds(file: SpecFile, markdown: string, text: string)
    ensures text in FindPlaceholders(markdown) <==> Holds(Placeholder, file, markdown, text)
  {
    DistinctKeeps(Placeholders(markdown), text);
  }

  lemma OpenQuestionHolds(markdown: string, text: string)
    ensures text in FindUnresolvedOpenQuestions(markdown) <==> IsOpenQuestion(markdown, text)
  {
    var body := Trim(SectionOr(SectionsOf(markdown), "Open Questions"));
    if body == "" {
      assert Split(body) == [""] && !IsBullet("");
    } else {
      TrimmedExactly(IsBullet, Split(body), text);
    }
  }

  lemma UncheckedItemHolds(markdown: string, text: string)
    ensures text in FindUncheckedReviewItems(markdown) <==> IsUncheckedItem(markdown, text)
  {
    var body := SectionOr(SectionsOf(markdown), "Review Checklist");
    if body == "" {
      assert Split(body) == [""] && !IsUnchecked("");
    } else {
      TrimmedExactly(IsUnchecked, Split(body), text);
    }
  }

  /** What one file adds to the errors. */
  ghost predicate FileApplies(file: SpecFile, markdown: string, e: SpecError) {
    match e
    case Finding(kind, f, text) => f == file && Holds(kind, file, markdown, text)
    case NoPath(f) => f == file && SourceContextOf(markdown).path.None?
    case NoId(f) => f == file && SourceContextOf(markdown).id.None?
    case _ => false
  }

  lemma ReportExactly(
      errors: seq<SpecError>, file: SpecFile, missing: seq<string>, placeholders: seq<string>,
      questions: seq<string>, items: seq<string>, source: SourceContext, e: SpecError)
    ensures e in Report(errors, file, missing, placeholders, questions, items, source) <==>
      || e in errors
      || (e.Finding? && e.file == file &&
          match e.kind
          case MissingSection => e.text in missing
          case Placeholder => e.text in placeholders
          case OpenQuestion => e.text in questions
          case UncheckedItem => e.text in items)
      || (e == NoPath(file) && source.path.None?)
      || (e == NoId(file) && source.id.None?)
  {
    FindingsExactly(MissingSection, file, missing, e);
    FindingsExactly(Placeholder, file, placeholders, e);
    FindingsExactly(OpenQuestion, file, questions, e);
    FindingsExactly(UncheckedItem, file, items, e);
  }

  lemma FileErrorsExactly(errors: seq<SpecError>, file: SpecFile, markdown: string, e: SpecError)
    ensures e in WithFile(errors, file, markdown) <==> e in errors || FileApplies(file, markdown, e)
  {
    ReportExactly(
      errors, file, MissingOf(SectionsOf(markdown), RequiredSections(file)), FindPlaceholders(markdown),
      if file == RequirementsFile then FindUnresolvedOpenQuestions(markdown) else [],
      FindUncheckedReviewItems(markdown), SourceContextOf(markdown), e);
    if e.Finding? {
      match e.kind
      case MissingSection => MissingSectionHolds(file, markdown, e.text);
      case Placeholder => PlaceholderHolds(file, markdown, e.text);
      case OpenQuestion => OpenQuestionHolds(markdown, e.text);
      case UncheckedItem => UncheckedItemHolds(markdown, e.text);
    }
  }

  lemma {:induction false} FilesErrorsExactly(errors: seq<SpecError>, files: SpecFiles, names: seq<SpecFile>, e: SpecError)
    requires AllThere(files)
    ensures e in WithFiles(errors, files, names) <==>
      e in errors || exists k | 0 <= k < |names| :: FileApplies(names[k], files[names[k]], e)
    decreases |names|
  {
    if names != [] {
      FileErrorsExactly(errors, names[0], files[names[0]], e);
      FilesErrorsExactly(WithFile(errors, names[0], files[names[0]]), files, names[1..], e);
      assert forall k | 1 <= k < |names| :: names[k] == names[1..][k - 1];
    }
  }

  lemma {:induction false} PathsExactly(files: SpecFiles, names: seq<SpecFile>, v: string)
    requires AllThere(files)
    ensures v in Paths(SourcesOf(files, names)) <==> exists k | 0 <= k < |names| :: PathIn(files, names[k]) == Some(v)
  {
    if names != [] {
      PathsExactly(files, names[1..], v);
      assert SourcesOf(files, names)[1..] == SourcesOf(files, names[1..]);
      assert forall k | 1 <= k < |names| :: names[k] == names[1..][k - 1];
    }
  }

  lemma {:induction false} IdsExactly(files: SpecFiles, names: seq<SpecFile>, v: string)
    requires AllThere(files)
    ensures v in Ids(SourcesOf(files, names)) <==> exists k | 0 <= k < |names| :: IdIn(files, names[k]) == Some(v)
  {
    if names != [] {
      IdsExactly(files, names[1..], v);
      assert SourcesOf(files, names)[1..] == SourcesOf(files, names[1..]);
      assert forall k | 1 <= k < |names| :: names[k] == names[1..][k - 1];
    }
  }

  lemma NothingFoundExactly(markdown: string)
    ensures SourceContextOf(markdown).path.None? <==> forall i: nat, c :: !PathMatch(SourceSectionOf(markdown), i, c)
    ensures SourceContextOf(markdown).id.None? <==> forall i: nat, c :: !IdMatch(SourceSectionOf(markdown), i, c)
  {
    FindPathIsLeftmost(SourceSectionOf(markdown));
    FindIdIsLeftmost(SourceSectionOf(markdown));
  }

  lemma TwoPaths(files: SpecFiles, names: seq<SpecFile>) returns (f: SpecFile, g: SpecFile)
    requires AllThere(files) && |Distinct(Paths(SourcesOf(files, names)))| > 1
    ensures PathIn(files, f).Some? && PathIn(files, g).Some? && PathIn(files, f) != PathIn(files, g)
  {
    var paths := Paths(SourcesOf(files, names));
    DistinctCounts(paths);
    var i, j :| 0 <= i < |paths| && 0 <= j < |paths| && paths[i] != paths[j];
    PathsExactly(files, names, paths[i]);
    PathsExactly(files, names, paths[j]);
    var k :| 0 <= k < |names| && PathIn(files, names[k]) == Some(paths[i]);
    var l :| 0 <= l < |names| && PathIn(files, names[l]) == Some(paths[j]);
    f, g := names[k], names[l];
  }

  lemma PathsMakeTwo(files: SpecFiles, names: seq<SpecFile>, f: SpecFile, g: SpecFile)
    requires AllThere(files) && f in names && g in names
    requires PathIn(files, f).Some? && PathIn(files, g).Some? && PathIn(files, f) != PathIn(files, g)
    ensures |Distinct(Paths(SourcesOf(files, names)))| > 1
  {
    PathsExactly(files, names, PathIn(files, f).value);
    PathsExactly(files, names, PathIn(files, g).value);
    DistinctCounts(Paths(SourcesOf(files, names)));
  }

  lemma PathsDifferExactly(files: SpecFiles, names: seq<SpecFile>)
    requires AllThere(files) && forall f: SpecFile :: f in names
    ensures |Distinct(Paths(SourcesOf(files, names)))| > 1 <==> TwoPathsIn(files)
  {
    if |Distinct(Paths(SourcesOf(files, names)))| > 1 {
      var f, g := TwoPaths(files, names);
    }
    if f, g :| PathIn(files, f).Some? && PathIn(files, g).Some? && PathIn(files, f) != PathIn(files, g) {
      PathsMakeTwo(files, names, f, g);
    }
  }

  lemma TwoIds(files: SpecFiles, names: seq<SpecFile>) returns (f: SpecFile, g: SpecFile)
    requires AllThere(files) && |Distinct(Ids(SourcesOf(files, names)))| > 1
    ensures IdIn(files, f).Some? && IdIn(files, g).Some? && IdIn(files, f) != IdIn(files, g)
  {
    var ids := Ids(SourcesOf(files, names));
    DistinctCounts(ids);
    var i, j :| 0 <= i < |ids| && 0 <= j < |ids| && ids[i] != ids[j];
    IdsExactly(files, names, ids[i]);
    IdsExactly(files, names, ids[j]);
    var k :| 0 <= k < |names| && IdIn(files, names[k]) == Some(ids[i]);
    var l :| 0 <= l < |names| && IdIn(files, names[l]) == Some(ids[j]);
    f, g := names[k], names[l];
  }

  lemma IdsMakeTwo(files: SpecFiles, names: seq<SpecFile>, f: SpecFile, g: SpecFile)
    requires AllThere(files) && f in names && g in names
    requires IdIn(files, f).Some? && IdIn(files, g).Some? && IdIn(files, f) != IdIn(files, g)
    ensures |Distinct(Ids(SourcesOf(files, names)))| > 1
  {
    IdsExactly(files, names, IdIn(files, f).value);
    IdsExactly(files, names, IdIn(files, g).value);
    DistinctCounts(Ids(SourcesOf(files, names)));
  }

  lemma IdsDifferExactly(files: SpecFiles, names: seq<SpecFile>)
    requires AllThere(files) && forall f: SpecFile :: f in names
    ensures |Distinct(Ids(SourcesOf(files, names)))| > 1 <==> TwoIdsIn(files)
  {
    if |Distinct(Ids(SourcesOf(files, names)))| > 1 {
      var f, g := TwoIds(files, names);
    }
    if f, g :| IdIn(files, f).Some? && IdIn(files, g).Some? && IdIn(files, f) != IdIn(files, g) {
      IdsMakeTwo(files, names, f, g);
    }
  }

  lemma SomeFileApplies(files: SpecFiles, e: SpecError)
    requires AllThere(files)
    ensures e in WithFiles([], files, REQUIRED_FILES) <==> Applies(files, e) && e != PathsDiffer && e != IdsDiffer
  {
    FilesErrorsExactly([], files, REQUIRED_FILES, e);
    if e.Finding? || e.NoPath? || e.NoId? {
      AllAreRequired(e.file);
      NothingFoundExactly(files[e.file]);
    }
  }

  lemma VerdictExactly(errors: seq<SpecError>, sources: seq<SourceContext>, e: SpecError)
    ensures e in Verdict(errors, sources).errors <==>
      || e in errors
      || (e == PathsDiffer && |Distinct(Paths(sources))| > 1)
      || (e == IdsDiffer && |Distinct(Ids(sources))| > 1)
  {
  }

  /** The errors of the gate are exactly those that are true of the spec. */
  lemma ErrorsExactly(directory: Option<SpecFiles>, e: SpecError)
    ensures e in ReadinessOf(directory).errors <==>
      match directory
      case None => e == NoDirectory
      case Some(files) =>
        if AllThere(files) then Applies(files, e) else e.MissingFile? && e.file !in files
  {
    if directory.Some? {
      var files := directory.value;
      MissingFilesAreAll(files);
      if e.MissingFile? {
        AllAreRequired(e.file);
      }
      if !AllThere(files) {
        MissingFilesExactly(files, REQUIRED_FILES, e);
      } else {
        forall f: SpecFile ensures f in REQUIRED_FILES {
          AllAreRequired(f);
        }
        PathsDifferExactly(files, REQUIRED_FILES);
        IdsDifferExactly(files, REQUIRED_FILES);
        SomeFileApplies(files, e);
        VerdictExactly(WithFiles([], files, REQUIRED_FILES), SourcesOf(files, REQUIRED_FILES), e);
      }
    }
  }

  /* ---------- When a spec is ready ---------- */

  ghost predicate FileIsReady(file: SpecFile, markdown: string) {
    && (forall title | title in RequiredSections(file) :: !NeverReopened(title, Split(Normalize(markdown))))
    && !HasPlaceholder(markdown)
    && (file == RequirementsFile ==> forall text :: !IsOpenQuestion(markdown, text))
    && (forall text :: !IsUncheckedItem(markdown, text))
  }

  /** All files name this path and this id. */
  predicate AgreeOn(files: SpecFiles, path: string, id: string)
    requires AllThere(files)
  {
    forall f: SpecFile :: SourceContextOf(files[f]) == SourceContext(Some(path), Some(id))
  }

  ghost predicate SpecIsReady(files: SpecFiles)
    requires AllThere(files)
  {
    (forall f: SpecFile :: FileIsReady(f, files[f])) && exists path, id :: AgreeOn(files, path, id)
  }

  lemma FileIsReadyExactly(files: SpecFiles, f: SpecFile)
    requires AllThere(files)
    ensures FileIsReady(f, files[f]) <==> forall kind, text :: !Applies(files, Finding(kind, f, text))
  {
    var markdown := files[f];
    PlaceholdersAreFound(markdown);
    if FileIsReady(f, markdown) {
      forall kind, text ensures !Applies(files, Finding(kind, f, text)) {
      }
    } else if !(forall title | title in RequiredSections(f) :: !NeverReopened(title, Split(Normalize(markdown)))) {
      var title :| title in RequiredSections(f) && NeverReopened(title, Split(Normalize(markdown)));
      assert Applies(files, Finding(MissingSection, f, title));
    } else if HasPlaceholder(markdown) {
      assert Placeholders(markdown)[0] in Placeholders(markdown);
      assert Applies(files, Finding(Placeholder, f, Placeholders(markdown)[0]));
    } else if !(f == RequirementsFile ==> forall text :: !IsOpenQuestion(markdown, text)) {
      var text :| IsOpenQuestion(markdown, text);
      assert Applies(files, Finding(OpenQuestion, f, text));
    } else {
      var text :| IsUncheckedItem(markdown, text);
      assert Applies(files, Finding(UncheckedItem, f, text));
    }
  }

  lemma FirstOfFiles(files: SpecFiles, names: seq<SpecFile>)
    requires AllThere(files) && names != []
    ensures PathIn(files, names[0]).Some? ==> First(Paths(SourcesOf(files, names))) == PathIn(files, names[0])
    ensures IdIn(files, names[0]).Some? ==> First(Ids(SourcesOf(files, names))) == IdIn(files, names[0])
  {
  }

  lemma ReadySpecIsAccepted(files: SpecFiles)
    requires AllThere(files) && SpecIsReady(files)
    ensures Ready(ReadinessOf(Some(files)))
  {
    var r := ReadinessOf(Some(files));
    if r.errors != [] {
      var e := r.errors[0];
      ErrorsExactly(Some(files), e);
      var path, id :| AgreeOn(files, path, id);
      if e.Finding? {
        FileIsReadyExactly(files, e.file);
      } else if e.NoPath? || e.NoId? {
        NothingFoundExactly(files[e.file]);
      }
    }
  }

  /** No error is true of the spec. */
  ghost predicate Faultless(files: SpecFiles)
    requires AllThere(files)
  {
    forall e :: !Applies(files, e)
  }

  lemma AcceptedIsFaultless(files: SpecFiles)
    requires AllThere(files) && Ready(ReadinessOf(Some(files)))
    ensures Faultless(files)
  {
    forall e ensures !Applies(files, e) {
      ErrorsExactly(Some(files), e);
    }
  }

  lemma FaultlessFileNames(files: SpecFiles, f: SpecFile)
    requires AllThere(files) && Faultless(files)
    ensures PathIn(files, f).Some? && IdIn(files, f).Some?
  {
    assert !Applies(files, NoPath(f)) && !Applies(files, NoId(f));
    NothingFoundExactly(files[f]);
  }

  lemma FaultlessFilesAgree(files: SpecFiles, first: SpecFile)
    requires AllThere(files) && Faultless(files)
    ensures PathIn(files, first).Some? && IdIn(files, first).Some?
    ensures AgreeOn(files, PathIn(files, first).value, IdIn(files, first).value)
  {
    assert !Applies(files, PathsDiffer) && !Applies(files, IdsDiffer);
    FaultlessFileNames(files, first);
    forall f: SpecFile
      ensures SourceContextOf(files[f]) == SourceContext(PathIn(files, first), IdIn(files, first))
    {
      FaultlessFileNames(files, f);
      assert PathIn(files, f) == PathIn(files, first) && IdIn(files, f) == IdIn(files, first);
    }
  }

  lemma FaultlessIsReady(files: SpecFiles)
    requires AllThere(files) && Faultless(files)
    ensures SpecIsReady(files)
  {
    forall f: SpecFile ensures FileIsReady(f, files[f]) {
      FileIsReadyExactly(files, f);
    }
    FaultlessFilesAgree(files, RequirementsFile);
  }

  lemma FirstIsReturned(files: SpecFiles)
    requires AllThere(files)
    ensures ReadinessOf(Some(files)).sourceContext == First(Paths(SourcesOf(files, REQUIRED_FILES)))
    ensures ReadinessOf(Some(files)).contextId == First(Ids(SourcesOf(files, REQUIRED_FILES)))
  {
    MissingFilesAreAll(files);
  }

  lemma AcceptedFilesAgree(files: SpecFiles)
    requires AllThere(files) && Ready(ReadinessOf(Some(files)))
    ensures var r := ReadinessOf(Some(files));
      r.sourceContext.Some? && r.contextId.Some? && AgreeOn(files, r.sourceContext.value, r.contextId.value)
  {
    AcceptedIsFaultless(files);
    FaultlessFilesAgree(files, REQUIRED_FILES[0]);
    FirstIsReturned(files);
    FirstOfFiles(files, REQUIRED_FILES);
  }

  /** A directory that is there, with all its files, and a ready spec in them. */
  ghost predicate HoldsReadySpec(directory: Option<SpecFiles>) {
    directory.Some? && AllThere(directory.value) && SpecIsReady(directory.value)
  }

  lemma AcceptedIsThere(directory: Option<SpecFiles>)
    requires Ready(ReadinessOf(directory))
    ensures directory.Some? && AllThere(directory.value)
  {
    if directory.None? {
      ErrorsExactly(directory, NoDirectory);
    } else if !AllThere(directory.value) {
      var f: SpecFile :| f !in directory.value;
      ErrorsExactly(directory, MissingFile(f));
    }
  }

  /** The gate lets a spec pass exactly when it is ready, and then returns the path and id that all files name. */
  lemma ReadyExactly(directory: Option<SpecFiles>)
    ensures var r := ReadinessOf(directory);
      && (Ready(r) <==> HoldsReadySpec(directory))
      && (Ready(r) ==> r.sourceContext.Some? && r.contextId.Some?
                       && AgreeOn(directory.value, r.sourceContext.value, r.contextId.value))
  {
    if Ready(ReadinessOf(directory)) {
      AcceptedIsThere(directory);
      AcceptedIsFaultless(directory.value);
      FaultlessIsReady(directory.value);
      AcceptedFilesAgree(directory.value);
    } else if HoldsReadySpec(directory) {
      ReadySpecIsAccepted(directory.value);
    }
  }

  lemma PlaceholderIsRefused(files: SpecFiles, f: SpecFile)
    requires f in files && HasPlaceholder(files[f])
    ensures !Ready(ReadinessOf(Some(files)))
  {
    ReadyExactly(Some(files));
    assert !FileIsReady(f, files[f]);
  }

  /** With a path and an id that all files name, only content is left to find fault with. */
  lemma OnlyContentIsFound(files: SpecFiles, path: string, id: string, e: SpecError)
    requires AllThere(files) && AgreeOn(files, path, id) && e in ReadinessOf(Some(files)).errors
    ensures e.Finding?
  {
    ErrorsExactly(Some(files), e);
    if e.NoPath? || e.NoId? {
      NothingFoundExactly(files[e.file]);
    }
  }

  lemma AgreementIsReturned(files: SpecFiles, path: string, id: string)
    requires AllThere(files) && AgreeOn(files, path, id)
    ensures ReadinessOf(Some(files)).sourceContext == Some(path) && ReadinessOf(Some(files)).contextId == Some(id)
  {
    FirstIsReturned(files);
    FirstOfFiles(files, REQUIRED_FILES);
  }
}
