/**
 From a context pack to the handoff: the pack that scripts/generate-context-pack.js writes, its reading by
 scripts/scaffold-spec-from-context.js, the scaffold made from it, and the handoff made from the scaffold.
 */
module PackProvenance {
  import opened Prelude
  import opened JsText
  import opened TextLines
  import F = Frontmatter
  import opened Provenance
  import opened SourcePatterns
  import opened SpecReadiness
  import opened SpecHandoff

  /* ---------- Writing and reading a pack ---------- */

  predicate SlugChar(c: char) {
    'a' <= c <= 'z' || '0' <= c <= '9'
  }

  /** Lower-case letters, digits and hyphens. */
  predicate IsSlug(s: string) {
    forall i | 0 <= i < |s| :: SlugChar(s[i]) || s[i] == '-'
  }

  /** `replace(/[^a-z0-9]+/g, "-")`; `inRun` says that the character before was replaced. */
  function Dashed(s: string, inRun: bool): (t: string)
    ensures IsSlug(t)
  {
    if s == "" then ""
    else if SlugChar(s[0]) then [s[0]] + Dashed(s[1..], false)
    else (if inRun then "" else "-") + Dashed(s[1..], true)
  }

  /** `replace(/^-+|-+$/g, "")`. */
  function TrimDashes(s: string): (t: string)
    requires IsSlug(s)
    ensures IsSlug(t)
    decreases |s|
  {
    if s == "" then ""
    else if s[0] == '-' then TrimDashes(s[1..])
    else if s[|s| - 1] == '-' then TrimDashes(s[..|s| - 1])
    else s
  }

  /** `slugify`, for any way of lowering letter case. */
  function Slugify(lower: string -> string, value: string): (slug: string)
    ensures IsSlug(slug)
  {
    var s := lower(value);
    var stem := if |s| >= 3 && s[|s| - 3..] == ".md" then s[..|s| - 3] else s;
    var slug := TrimDashes(Dashed(stem, false));
    if slug == "" then "context-pack" else slug
  }

  /* ---------- What a slug is ---------- */

  /** The maximal runs of lower-case letters and digits in `run + s`, where `run` is the run that is open. */
  function Words(run: string, s: string): seq<string>
    decreases |s|
  {
    if s == "" then (if run == "" then [] else [run])
    else if SlugChar(s[0]) then Words(run + [s[0]], s[1..])
    else (if run == "" then [] else [run]) + Words("", s[1..])
  }

  predicate NoDoubleDash(s: string) {
    forall i | 0 <= i < |s| - 1 :: s[i] != '-' || s[i + 1] != '-'
  }

  lemma {:induction false} DashedKeepsWords(run: string, s: string, inRun: bool)
    requires inRun ==> run == ""
    ensures Words(run, Dashed(s, inRun)) == Words(run, s)
    decreases |s|
  {
    if s != "" {
      var rest := Dashed(s[1..], !SlugChar(s[0]));
      if SlugChar(s[0]) {
        DashedKeepsWords(run + [s[0]], s[1..], false);
        assert ([s[0]] + rest)[1..] == rest;
      } else {
        DashedKeepsWords("", s[1..], true);
        if inRun {
          assert "" + rest == rest;
        } else {
          assert ("-" + rest)[1..] == rest;
        }
      }
    }
  }

  lemma {:induction false} DashedHasNoDouble(s: string, inRun: bool)
    ensures NoDoubleDash(Dashed(s, inRun))
    ensures inRun && Dashed(s, inRun) != "" ==> Dashed(s, inRun)[0] != '-'
  {
    if s != "" {
      var rest := Dashed(s[1..], !SlugChar(s[0]));
      DashedHasNoDouble(s[1..], !SlugChar(s[0]));
      assert Dashed(s, inRun) == (if SlugChar(s[0]) then [s[0]] else if inRun then "" else "-") + rest;
    }
  }

  lemma {:induction false} LastDashIsNoWord(run: string, s: string)
    ensures Words(run, s + "-") == Words(run, s)
    decreases |s|
  {
    if s == "" {
      assert s + "-" == "-" && "-"[1..] == "";
    } else {
      assert (s + "-")[1..] == s[1..] + "-" && (s + "-")[0] == s[0];
      LastDashIsNoWord(if SlugChar(s[0]) then run + [s[0]] else "", s[1..]);
    }
  }

  /** Trimming dashes at both ends loses no word. */
  lemma {:induction false} TrimKeepsWords(s: string)
    requires IsSlug(s) && NoDoubleDash(s)
    ensures var t := TrimDashes(s);
      && Words("", t) == Words("", s) && NoDoubleDash(t)
      && (t != "" ==> t[0] != '-' && t[|t| - 1] != '-')
    decreases |s|
  {
    if s != "" {
      if s[0] == '-' {
        TrimKeepsWords(s[1..]);
      } else if s[|s| - 1] == '-' {
        var init := s[..|s| - 1];
        assert s == init + "-";
        LastDashIsNoWord("", init);
        TrimKeepsWords(init);
      }
    }
  }

  /**
   The slug of any name: the words of the name, without its .md, joined by single dashes; and "context-pack"
   when the name has no words.
   */
  lemma SlugIsWords(lower: string -> string, value: string)
    ensures var s := lower(value);
      var stem := if |s| >= 3 && s[|s| - 3..] == ".md" then s[..|s| - 3] else s;
      var slug := Slugify(lower, value);
      if Words("", stem) == [] then slug == "context-pack"
      else Words("", slug) == Words("", stem) && NoDoubleDash(slug) && slug != "" && slug[0] != '-' && slug[|slug| - 1] != '-'
  {
    var s := lower(value);
    var stem := if |s| >= 3 && s[|s| - 3..] == ".md" then s[..|s| - 3] else s;
    var dashed := Dashed(stem, false);
    DashedKeepsWords("", stem, false);
    DashedHasNoDouble(stem, false);
    TrimKeepsWords(dashed);
    var t := TrimDashes(dashed);
    if t != "" {
      HasWord("", t);
    }
  }

  lemma {:induction false} HasWord(run: string, s: string)
    requires run != "" || (s != "" && s[0] != '-' && IsSlug(s))
    ensures Words(run, s) != []
    decreases |s|
  {
    if s != "" && SlugChar(s[0]) {
      HasWord(run + [s[0]], s[1..]);
    }
  }

  function PackId(basename: string): string {
    "context-pack-" + basename
  }

  function PackPath(basename: string): string {
    "knowledge/" + ("20-research/" + ("context-packs/" + (basename + "-context.md")))
  }

  function WritePack(basename: string, date: string, sources: seq<string>, sourceId: string, body: seq<string>): string {
    F.BuildContextPack(PackId(basename), date, sources, sourceId, body)
  }

  datatype ContextPack = ContextPack(relativePath: string, id: string)

  datatype PackError = BadFrontmatter(cause: F.FrontmatterError) | NotAContextPack | PackHasNoId

  /** `readContextPack`, on a file that is there. */
  function ReadContextPack(relativePath: string, content: string): Result<ContextPack, PackError> {
    match F.Parse(content)
    case Err(e) => Err(BadFrontmatter(e))
    case Ok(m) =>
      if "type" !in m || m["type"] != F.Scalar("context-pack") then Err(NotAContextPack)
      else if "id" !in m || !m["id"].Scalar? || m["id"].text == "" then Err(PackHasNoId)
      else Ok(ContextPack(relativePath, m["id"].text))
  }

  /** What a pack may be refused for, once its frontmatter is read. */
  lemma PackErrorsExactly(relativePath: string, content: string)
    ensures var r := ReadContextPack(relativePath, content);
      match F.Parse(content)
      case Err(e) => r == Err(BadFrontmatter(e))
      case Ok(m) =>
        && (r == Err(NotAContextPack) <==> !("type" in m && m["type"] == F.Scalar("context-pack")))
        && (r.Ok? <==> "type" in m && m["type"] == F.Scalar("context-pack") &&
                       "id" in m && m["id"].Scalar? && m["id"].text != "")
        && (r.Ok? ==> r.value.relativePath == relativePath && m["id"] == F.Scalar(r.value.id))
  {
  }

  /* ---------- A pack's id and path ---------- */

  lemma SlugIsClean(s: string)
    requires IsSlug(s)
    ensures NoBreaks(s) && !HasTerminator(s) && TICK !in s
  {
    forall c | c in s ensures c != '\n' && c != '\r' && c != TICK {
      var i :| 0 <= i < |s| && s[i] == c;
    }
  }

  lemma IdIsPlain(basename: string)
    requires IsSlug(basename)
    ensures var id := PackId(basename); id != "" && OneLine(id) && TICK !in id && F.Plain(id)
  {
    var id, prefix := PackId(basename), "context-pack-";
    SlugIsClean(basename);
    assert IsSlug(prefix);
    SlugIsClean(prefix);
    assert forall i | 0 <= i < |id| :: id[i] == if i < |prefix| then prefix[i] else basename[i - |prefix|];
    assert id[0] == 'c' && IsSlug(id);
    SlugIsClean(id);
    assert !IsSpace(id[|id| - 1]);
  }

  /** Neither line breaks nor backticks. */
  predicate IsPiece(s: string) {
    forall i | 0 <= i < |s| :: s[i] != '\n' && s[i] != '\r' && s[i] != TICK
  }

  lemma PathIsReadable(basename: string)
    requires IsSlug(basename)
    ensures OneLine(PackPath(basename)) && TICK !in PackPath(basename) && EndsMd(PackPath(basename))
  {
    SlugIsClean(basename);
    PathPieces();
    PathEnd();
    var path, head := PackPath(basename), "knowledge/" + ("20-research/" + ("context-packs/" + basename));
    assert path == head + "-context.md";
    assert path[|path| - 3..] == "-context.md"[8..];
  }

  lemma PathPieces()
    ensures IsPiece("knowledge/") && IsPiece("20-research/") && IsPiece("context-packs/") && IsPiece("-context.md")
  {
  }

  lemma PathEnd()
    ensures "-context.md"[8..] == ".md"
  {
  }

  /* ---------- The chain ---------- */

  /** A pack made of one-line values is read if and only if none of its list values is blank; its id is its own. */
  lemma PackIsRead(basename: string, date: string, sources: seq<string>, sourceId: string, body: seq<string>)
    requires IsSlug(basename) && !HasTerminator(date) && F.Clean(sources) && F.Clean([sourceId])
    ensures var r := ReadContextPack(PackPath(basename), WritePack(basename, date, sources, sourceId, body));
      if F.NoneBlank(sources) && F.NoneBlank([sourceId]) then r == Ok(ContextPack(PackPath(basename), PackId(basename)))
      else r.Err? && r.error.BadFrontmatter?
  {
    IdIsPlain(basename);
    F.ReadBackIsExact(PackId(basename));
    F.ParseOfClean(PackId(basename), date, sources, sourceId, body);
    F.PackFields(PackId(basename), F.ReadBack(date), F.ReadBacks(sources), F.ReadBack(sourceId));
  }

  /**
   The whole chain, from the name of an inbox note. A pack is written; the scaffolds are made from the path and
   the id that are read from it; they are edited at will after their provenance lines. The readiness gate then
   finds no fault with where they come from, and if it lets them pass, the handoff that is made agrees with
   the spec: the conformance check reads the pack's own path and the id it was written with.
   */
  lemma PackToHandoff(
      lower: string -> string, note: string, date: string, sources: seq<string>, sourceId: string, body: seq<string>,
      edits: SpecFile -> Edited, slug: string, handoffDate: string)
    requires !HasTerminator(date) && F.Clean(sources) && F.Clean([sourceId])
    requires F.NoneBlank(sources) && F.NoneBlank([sourceId])
    requires forall f: SpecFile :: Keeps(edits(f))
    requires TaskGraph.ValidSlug(slug) && NoBreaks(handoffDate)
    ensures var basename := Slugify(lower, note);
      var pack := ReadContextPack(PackPath(basename), WritePack(basename, date, sources, sourceId, body));
      pack.Ok? &&
      var spec := Some(EditedSpec(pack.value.relativePath, pack.value.id, edits));
      && (forall e | e in ReadinessOf(spec).errors :: e.Finding?)
      && (Ready(ReadinessOf(spec)) ==>
            var handoff := CreateImplementationHandoff(slug, spec, false, handoffDate);
            && handoff.Ok?
            && HandoffProvenanceOf(handoff.value)
                 == HandoffProvenance(Some(PackPath(basename)), Some(PackId(basename)), Some(SpecDir(slug)))
            && ProvenanceErrors(slug, ReadinessOf(spec), handoff.value) == [])
  {
    var basename := Slugify(lower, note);
    PackIsRead(basename, date, sources, sourceId, body);
    IdIsPlain(basename);
    PathIsReadable(basename);
    EditedSpecToHandoff(PackPath(basename), PackId(basename), edits, slug, handoffDate);
  }
}
