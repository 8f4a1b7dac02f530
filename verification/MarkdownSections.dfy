/**
 Markdown sections: `splitSections` of scripts/check-spec-readiness.js, and what it makes of a document that
 starts with a known section and goes on with any text.
 */
module MarkdownSections {
  import opened Prelude
  import opened JsText
  import opened TextLines

  /* ---------- Sections ---------- */

  /** `/^##\s+(.+?)\s*$/`: the trimmed title, if the line is a heading. */
  function Heading(line: string): Option<string> {
    if !("##" <= line) || |line| == 2 || !IsSpace(line[2]) then None
    else if Trim(line[2..]) != "" then (if HasTerminator(Trim(line[2..])) then None else Some(Trim(line[2..])))
    else if exists j | 3 <= j < |line| :: !IsLineTerminator(line[j]) then Some("")
    else None
  }

  /** A match of that pattern: the hashes, blanks, the group from `i` to `j`, and blanks to the end. */
  predicate HeadingAt(line: string, i: nat, j: nat) {
    && "##" <= line && 2 < i < j <= |line|
    && BlanksFrom(line, 2, i) && !HasTerminator(line[i..j]) && BlanksFrom(line, j, |line|)
  }

  /** A line is a heading exactly if the pattern matches, and however it matches, the title is the same. */
  lemma HeadingExactly(line: string)
    ensures Heading(line).Some? <==> exists i: nat, j: nat :: HeadingAt(line, i, j)
    ensures forall i: nat, j: nat | HeadingAt(line, i, j) :: Heading(line) == Some(Trim(line[i..j]))
  {
    if Heading(line).Some? {
      var i, j := MatchOfHeading(line);
    }
    forall i: nat, j: nat | HeadingAt(line, i, j) ensures Heading(line) == Some(Trim(line[i..j])) {
      MatchIsHeading(line, i, j);
    }
  }

  lemma MatchOfHeading(line: string) returns (i: nat, j: nat)
    requires Heading(line).Some?
    ensures HeadingAt(line, i, j)
  {
    var rest := line[2..];
    assert forall k | 2 <= k < |line| :: line[k] == rest[k - 2];
    if Trim(rest) != "" {
      i, j := TrimKeeps(rest);
      assert line[2 + i..2 + j] == rest[i..j];
      i, j := 2 + i, 2 + j;
    } else {
      TrimLeavesNothing(rest);
      i :| 3 <= i < |line| && !IsLineTerminator(line[i]);
      j := i + 1;
    }
  }

  lemma TrimKeeps(s: string) returns (i: nat, j: nat)
    requires Trim(s) != ""
    ensures BlanksFrom(s, 0, i) && i < j <= |s| && s[i..j] == Trim(s) && !IsSpace(s[i]) && BlanksFrom(s, j, |s|)
  {
    var end := TrimEnd(s);
    TrimEndCuts(s);
    TrimStartCuts(end);
    i, j := |end| - |TrimStart(end)|, |end|;
    assert forall k | 0 <= k < j :: s[k] == end[k];
    assert s[i..j] == end[i..];
  }

  lemma TrimBetweenBlanks(before: string, group: string, after: string)
    requires TrimStart(before) == "" && Blank(before) && Blank(after)
    ensures Trim((before + group) + after) == Trim(group)
  {
    TrimEndOfConcat(before + group, after);
    TrimEndOfConcat(before, group);
    if !Blank(group) {
      TrimStartAfterBlank(before, TrimEnd(group));
    }
  }

  lemma MatchIsHeading(line: string, i: nat, j: nat)
    requires HeadingAt(line, i, j)
    ensures Heading(line) == Some(Trim(line[i..j]))
  {
    TrimmedGroup(line, i, j);
    assert IsSpace(line[2]) && line[i..j][0] == line[i];
    assert !IsLineTerminator(line[i..j][0]);
  }

  lemma TrimmedGroup(line: string, i: nat, j: nat)
    requires HeadingAt(line, i, j)
    ensures Trim(line[2..]) == Trim(line[i..j]) && !HasTerminator(Trim(line[i..j]))
  {
    var before, group, after := line[2..i], line[i..j], line[j..];
    TrimStartLeavesNothing(before);
    TrimEndLeavesNothing(before);
    TrimEndLeavesNothing(after);
    TrimBetweenBlanks(before, group, after);
    assert line[2..] == (before + group) + after;
    TrimIsIdempotent(group);
    assert forall k | 0 <= k < |Trim(group)| :: Trim(group)[k] in group;
  }

  type Sections = map<string, string>

  /** The splitter's variables: finished sections, the open section and its lines so far. */
  datatype Splitter = Splitter(sections: Sections, current: Option<string>, buffer: seq<string>)

  function Flush(st: Splitter): Sections {
    if st.current.Some? then st.sections[st.current.value := Trim(JoinLines(st.buffer))] else st.sections
  }

  function SplitLine(st: Splitter, line: string): Splitter {
    if Heading(line).Some? then Splitter(Flush(st), Heading(line), [])
    else if st.current.Some? then st.(buffer := st.buffer + [line])
    else st
  }

  function SplitFrom(st: Splitter, lines: seq<string>): Sections
    decreases |lines|
  {
    if lines == [] then Flush(st) else SplitFrom(SplitLine(st, lines[0]), lines[1..])
  }

  function SectionsOf(markdown: string): Sections {
    SplitFrom(Splitter(map[], None, []), Split(Normalize(markdown)))
  }

  method SplitSections(markdown: string) returns (sections: Sections)
    ensures sections == SectionsOf(markdown)
  {
    var lines := Split(Normalize(markdown));
    var current: Option<string> := None;
    var buffer: seq<string> := [];
    sections := map[];
    for i := 0 to |lines|
      invariant SplitFrom(Splitter(sections, current, buffer), lines[i..]) == SectionsOf(markdown)
    {
      assert lines[i..][1..] == lines[i + 1..];
      var title := Heading(lines[i]);
      if title.Some? {
        if current.Some? {
          sections := sections[current.value := Trim(JoinLines(buffer))];
        }
        current := title;
        buffer := [];
      } else if current.Some? {
        buffer := buffer + [lines[i]];
      }
    }
    if current.Some? {
      sections := sections[current.value := Trim(JoinLines(buffer))];
    }
  }

  function SectionOr(sections: Sections, title: string): string {
    if title in sections then sections[title] else ""
  }

  lemma TitleIsNoHeading(rest: string)
    ensures Heading("# " + rest).None? && Heading("").None?
  {
    assert ("# " + rest)[1] == ' ' && "##"[1] == '#';
  }

  lemma HeadingOf(title: string)
    requires Tight(title) && !HasTerminator(title)
    ensures Heading("## " + title) == Some(title)
  {
    var line := "## " + title;
    assert line[..2] == "##";
    assert line[2..] == " " + title;
    TrimEndOfConcat(" ", title);
    TrimStartSpace(title);
  }

  /* ---------- Sections of a document ---------- */

  /** A document: the lines up to the end of its provenance lines, then any further text. */
  function Document(lines: seq<string>, after: string): string {
    JoinLines(lines) + ("\n" + after)
  }

  predicate NoHeadings(lines: seq<string>) {
    forall i | 0 <= i < |lines| :: Heading(lines[i]).None?
  }

  predicate NeverReopened(title: string, lines: seq<string>) {
    forall i | 0 <= i < |lines| :: Heading(lines[i]) != Some(title)
  }

  /** The lines before the next heading. */
  function Until(lines: seq<string>): seq<string> {
    if lines == [] || Heading(lines[0]).Some? then [] else [lines[0]] + Until(lines[1..])
  }

  lemma RegroupLines(a: seq<string>, b: seq<string>, c: seq<string>)
    ensures a + (b + c) == (a + b) + c
  {
  }

  lemma {:induction false} FinishedStays(st: Splitter, title: string, lines: seq<string>)
    requires title in st.sections && st.current != Some(title) && NeverReopened(title, lines)
    ensures title in SplitFrom(st, lines) && SplitFrom(st, lines)[title] == st.sections[title]
    decreases |lines|
  {
    if lines != [] {
      assert Heading(lines[0]) != Some(title);
      FinishedStays(SplitLine(st, lines[0]), title, lines[1..]);
    }
  }

  /** An open section ends up with the lines read so far and those before the next heading. */
  lemma {:induction false} OpenSectionGrows(st: Splitter, title: string, lines: seq<string>)
    requires st.current == Some(title) && NeverReopened(title, lines)
    ensures title in SplitFrom(st, lines)
    ensures SplitFrom(st, lines)[title] == Trim(JoinLines(st.buffer + Until(lines)))
    decreases |lines|
  {
    if lines == [] {
      assert st.buffer + [] == st.buffer;
    } else {
      assert Heading(lines[0]) != Some(title);
      if Heading(lines[0]).Some? {
        assert st.buffer + [] == st.buffer;
        FinishedStays(SplitLine(st, lines[0]), title, lines[1..]);
      } else {
        var line, rest := lines[0], lines[1..];
        OpenSectionGrows(st.(buffer := st.buffer + [line]), title, rest);
        RegroupLines(st.buffer, [line], Until(rest));
      }
    }
  }

  lemma SplitFromCons(st: Splitter, line: string, lines: seq<string>)
    ensures SplitFrom(st, [line] + lines) == SplitFrom(SplitLine(st, line), lines)
  {
    assert ([line] + lines)[1..] == lines;
  }

  lemma {:induction false} UntilOfConcat(own: seq<string>, rest: seq<string>)
    requires NoHeadings(own)
    ensures Until(own + rest) == own + Until(rest)
  {
    if own == [] {
      assert own + rest == rest;
    } else {
      assert (own + rest)[1..] == own[1..] + rest;
      assert Heading(own[0]).None?;
      UntilOfConcat(own[1..], rest);
      RegroupLines([own[0]], own[1..], Until(rest));
      assert own == [own[0]] + own[1..];
    }
  }

  lemma DocumentCons(first: string, rest: seq<string>, after: string)
    requires rest != []
    ensures Document([first] + rest, after) == first + ("\n" + Document(rest, after))
  {
    assert ([first] + rest)[1..] == rest;
    assert JoinLines([first] + rest) == first + ("\n" + JoinLines(rest));
    Regroup(first, "\n" + JoinLines(rest), "\n" + after);
    Regroup("\n", JoinLines(rest), "\n" + after);
  }

  lemma SplitFirst(first: string, text: string)
    requires NoBreaks(first)
    ensures Split(Normalize(first + ("\n" + text))) == [first] + Split(Normalize(text))
  {
    NormalizePrefix(first, "\n" + text);
    NormalizePrefix("\n", text);
    SplitFirstLine(first, Normalize(text));
  }

  lemma {:induction false} SplitOfDocument(lines: seq<string>, after: string)
    requires lines != [] && forall i | 0 <= i < |lines| :: NoBreaks(lines[i])
    ensures Split(Normalize(Document(lines, after))) == lines + Split(Normalize(after))
    decreases |lines|
  {
    var first, rest := lines[0], lines[1..];
    assert NoBreaks(first) && lines == [first] + rest;
    if rest == [] {
      assert JoinLines(lines) == first;
      SplitFirst(first, after);
    } else {
      DocumentCons(first, rest, after);
      SplitFirst(first, Document(rest, after));
      SplitOfDocument(rest, after);
      RegroupLines([first], rest, Split(Normalize(after)));
    }
  }

  /** A title line, an empty line, and the section's heading. */
  function Opening(first: string, title: string, own: seq<string>): seq<string> {
    [first] + ([""] + (["## " + title] + own))
  }

  lemma SectionOfLines(first: string, title: string, own: seq<string>, rest: seq<string>)
    requires Heading(first).None? && Heading("## " + title) == Some(title)
    requires NoHeadings(own) && NeverReopened(title, rest)
    ensures SectionOr(SplitFrom(Splitter(map[], None, []), Opening(first, title, own + rest)), title)
      == Trim(JoinLines(own + Until(rest)))
  {
    var start := Splitter(map[], None, []);
    SplitFromCons(start, first, [""] + (["## " + title] + (own + rest)));
    SplitFromCons(start, "", ["## " + title] + (own + rest));
    SplitFromCons(start, "## " + title, own + rest);
    assert NeverReopened(title, own + rest);
    OpenSectionGrows(Splitter(map[], Some(title), []), title, own + rest);
    UntilOfConcat(own, rest);
    assert [] + (own + Until(rest)) == own + Until(rest);
  }

  lemma OpeningOfConcat(first: string, title: string, own: seq<string>, rest: seq<string>)
    ensures Opening(first, title, own) + rest == Opening(first, title, own + rest)
  {
    RegroupLines(["## " + title], own, rest);
    RegroupLines([""], ["## " + title] + own, rest);
    RegroupLines([first], [""] + (["## " + title] + own), rest);
  }

  /** Lines that are one line each, with the one heading where it is meant to be. */
  predicate Opens(first: string, title: string, own: seq<string>) {
    && Heading(first).None? && Heading("## " + title) == Some(title) && NoHeadings(own)
    && forall i | 0 <= i < |Opening(first, title, own)| :: NoBreaks(Opening(first, title, own)[i])
  }

  /** The text of a document's own section, up to the next heading in whatever follows. */
  lemma SectionOfDocument(first: string, title: string, own: seq<string>, after: string)
    requires Opens(first, title, own)
    requires NeverReopened(title, Split(Normalize(after)))
    ensures SectionOr(SectionsOf(Document(Opening(first, title, own), after)), title)
      == Trim(JoinLines(own + Until(Split(Normalize(after)))))
  {
    SplitOfDocument(Opening(first, title, own), after);
    OpeningOfConcat(first, title, own, Split(Normalize(after)));
    SectionOfLines(first, title, own, Split(Normalize(after)));
  }

  /** What is left of the lines after a block once the section is trimmed. */
  function Remainder(lines: seq<string>): string {
    if Blank(Tail(lines, "")) then "" else TrimEnd(Tail(lines, ""))
  }

  lemma RemainderShape(lines: seq<string>)
    ensures Remainder(lines) == "" || (exists w :: Remainder(lines) == "\n" + w)
  {
    if !Blank(Tail(lines, "")) {
      var r := Remainder(lines);
      assert r[0] == Tail(lines, "")[0] == '\n';
      assert r == "\n" + r[1..];
    }
  }

  /** A text that trimming leaves alone. */
  predicate Tight(text: string) {
    text != "" && !IsSpace(text[0]) && !IsSpace(text[|text| - 1])
  }

  lemma TrimBlock(text: string, more: string)
    requires Tight(text)
    ensures Trim("\n" + (text + more)) == text + if Blank(more) then "" else TrimEnd(more)
  {
    var kept := if Blank(more) then "" else TrimEnd(more);
    TrimEndOfConcat(text, more);
    assert text + "" == text && TrimEnd(text + more) == text + kept;
    TrimEndOfConcat("\n", text + more);
    assert (text + kept)[0] == text[0];
    assert ("\n" + (text + kept))[1..] == text + kept;
    assert TrimStart("\n" + (text + kept)) == text + kept;
  }

  lemma JoinedSection(own: seq<string>, more: seq<string>)
    requires own != []
    ensures JoinLines(([""] + own) + more) == "\n" + (JoinLines(own) + Tail(more, ""))
  {
    assert own == [own[0]] + own[1..];
    JoinThenText(own[0], own[1..], Tail(more, ""));
    TailOfConcat(own, more, "");
    RegroupLines([""], own, more);
    assert ([""] + (own + more))[1..] == own + more;
    assert "" + Tail(own + more, "") == Tail(own + more, "");
  }

  /** Trimming a section that starts with an empty line and then `own` takes only its outer blanks. */
  lemma TrimmedSection(own: seq<string>, more: seq<string>)
    requires own != [] && Tight(JoinLines(own))
    ensures Trim(JoinLines(([""] + own) + more)) == JoinLines(own) + Remainder(more)
  {
    JoinedSection(own, more);
    TrimBlock(JoinLines(own), Tail(more, ""));
  }

  /** Joining single lines and splitting the text gives them back. */
  lemma SplitOfLines(lines: seq<string>)
    requires lines != [] && forall i | 0 <= i < |lines| :: NoBreaks(lines[i])
    ensures Split(Normalize(JoinLines(lines))) == lines
  {
    assert lines == [lines[0]] + lines[1..] && NoBreaks(lines[0]);
    NormalizePrefix(lines[0], Tail(lines[1..], ""));
    NormalizeTail(lines[1..], "");
    SplitOfJoin(lines);
  }

  /** Template lines do not reopen a section when none of them is its heading. */
  lemma LinesNeverReopen(title: string, lines: seq<string>)
    requires lines != [] && NeverReopened(title, lines) && forall i | 0 <= i < |lines| :: NoBreaks(lines[i])
    ensures NeverReopened(title, Split(Normalize(JoinLines(lines))))
  {
    SplitOfLines(lines);
  }

  /** The titles of the headings, in order. */
  function Titles(lines: seq<string>): seq<string> {
    if lines == [] then []
    else (if Heading(lines[0]).Some? then [Heading(lines[0]).value] else []) + Titles(lines[1..])
  }

  lemma {:induction false} TitlesOfConcat(a: seq<string>, b: seq<string>)
    ensures Titles(a + b) == Titles(a) + Titles(b)
  {
    if a == [] {
      assert a + b == b;
    } else {
      assert (a + b)[1..] == a[1..] + b;
      TitlesOfConcat(a[1..], b);
    }
  }

  /** The one heading of an opening. */
  lemma TitlesOfOpening(first: string, title: string, own: seq<string>)
    requires Heading(first).None? && Heading("## " + title) == Some(title) && NoHeadings(own)
    ensures Titles(Opening(first, title, own)) == [title]
  {
    var heading := "## " + title;
    TitleIsNoHeading("");
    NoTitles(own);
    TitlesOfConcat([heading], own);
    TitlesOfConcat([""], [heading] + own);
    TitlesOfConcat([first], [""] + ([heading] + own));
    assert [heading][1..] == [] && [""][1..] == [] && [first][1..] == [];
  }

  lemma {:induction false} NoTitles(lines: seq<string>)
    requires NoHeadings(lines)
    ensures Titles(lines) == []
  {
    if lines != [] {
      assert Heading(lines[0]).None?;
      NoTitles(lines[1..]);
    }
  }
}
