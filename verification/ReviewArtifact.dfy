/**
 The reviewer's review file: written by `writeReviewerArtifact` of scripts/agent-runtime-adapter.js, read
 by `parseReviewArtifact` of scripts/run-verification-evidence-gate.js.
 */
module ReviewArtifact {
  import opened Prelude
  import opened JsText
  import opened TextLines
  import EvidenceGate

  /* ---------- The reader ---------- */

  /** What `.*` matches from here on. */
  function FirstLine(s: string): (line: string)
    ensures line <= s && !HasTerminator(line)
    ensures |line| < |s| ==> IsLineTerminator(s[|line|])
  {
    if s == "" || IsLineTerminator(s[0]) then "" else [s[0]] + FirstLine(s[1..])
  }

  predicate Labelled(s: string, name: string) {
    |s| >= |name| && forall i | 0 <= i < |name| :: Lower(s[i]) == name[i]
  }

  /** `\s*(.+)\s*$` after the label: the group, trimmed. Blanks before it may span lines. */
  function Group(rest: string): Option<string> {
    if TrimStart(rest) != "" then Some(TrimEnd(FirstLine(TrimStart(rest))))
    else if exists i | 0 <= i < |rest| :: !IsLineTerminator(rest[i]) then Some("")
    else None
  }

  /** `/^\s*-\s*name\s*(.+)\s*$/mi` at the start of a line: the trimmed group, if it matches. */
  function MatchAt(s: string, name: string): Option<string> {
    var item := TrimStart(s);
    if item == "" || item[0] != '-' || !Labelled(TrimStart(item[1..]), name) then None
    else Group(TrimStart(item[1..])[|name|..])
  }

  /** The leftmost match; `^` matches at the start and after every line terminator. */
  function Search(s: string, name: string, lineStart: bool): Option<string> {
    if lineStart && MatchAt(s, name).Some? then MatchAt(s, name)
    else if s == "" then None
    else Search(s[1..], name, IsLineTerminator(s[0]))
  }

  /* ---------- What the reader matches ---------- */

  predicate AtLineStart(s: string, p: nat) {
    p == 0 || (p <= |s| && IsLineTerminator(s[p - 1]))
  }

  /** Blanks, a hyphen, blanks, and the label in any letter case, from `p` to `c`. */
  predicate LabelAt(s: string, p: nat, a: nat, b: nat, c: nat, name: string) {
    && BlanksFrom(s, p, a) && a < |s| && s[a] == '-' && BlanksFrom(s, a + 1, b)
    && c == b + |name| <= |s| && forall k | 0 <= k < |name| :: Lower(s[b + k]) == name[k]
  }

  predicate ValueMayStart(s: string, c: nat, i: nat) {
    BlanksFrom(s, c, i) && i < |s| && !IsLineTerminator(s[i])
  }

  /** As many blanks as can be, and then all that is left of the line: at least one character. */
  predicate ValueAt(s: string, c: nat, i: nat, e: nat) {
    && ValueMayStart(s, c, i) && (forall k | i < k < |s| :: !ValueMayStart(s, c, k))
    && i < e <= |s| && !HasTerminator(s[i..e]) && (e < |s| ==> IsLineTerminator(s[e]))
  }

  /** A match from `p` on that gives `value`. */
  ghost predicate Matches(s: string, p: nat, name: string, value: string) {
    && AtLineStart(s, p)
    && exists a: nat, b: nat, c: nat, i: nat, e: nat ::
         LabelAt(s, p, a, b, c, name) && ValueAt(s, c, i, e) && value == Trim(s[i..e])
  }

  lemma FirstLineIsLine(s: string, e: nat)
    requires e <= |s| && !HasTerminator(s[..e]) && (e < |s| ==> IsLineTerminator(s[e]))
    ensures FirstLine(s) == s[..e]
  {
    var line := FirstLine(s);
    assert forall k | 0 <= k < e :: s[k] == s[..e][k];
    assert forall k | 0 <= k < |line| :: s[k] == line[k];
  }

  lemma GroupIsValue(s: string, c: nat, i: nat, e: nat)
    requires ValueAt(s, c, i, e)
    ensures Group(s[c..]) == Some(Trim(s[i..e]))
  {
    var rest := s[c..];
    var k := BlanksAreSkipped(s, c);
    assert forall m | c <= m < |s| :: s[m] == rest[m - c];
    TrimLeavesNothing(s[i..e]);
    if k < |s| {
      assert ValueMayStart(s, c, k);
      assert i == k;
      assert s[k..][..e - k] == s[i..e];
      FirstLineIsLine(s[k..], e - k);
      TrimOfTight(s[i..e]);
    } else {
      assert rest[i - c] == s[i];
    }
  }

  lemma TrimOfTight(s: string)
    requires s != "" && !IsSpace(s[0])
    ensures Trim(s) == TrimEnd(s)
  {
    TrimEndLeavesNothing(s);
    TrimEndCuts(s);
    assert TrimEnd(s)[0] == s[0];
  }

  lemma ValueOfGroup(s: string, c: nat) returns (i: nat, e: nat)
    requires c <= |s| && Group(s[c..]).Some?
    ensures ValueAt(s, c, i, e)
  {
    i := StartOfGroup(s, c);
    e := LineEnd(s, i);
  }

  lemma StartOfGroup(s: string, c: nat) returns (i: nat)
    requires c <= |s| && Group(s[c..]).Some?
    ensures ValueMayStart(s, c, i) && forall k | i < k < |s| :: !ValueMayStart(s, c, k)
  {
    i := BlanksAreSkipped(s, c);
    if i == |s| {
      assert forall m | c <= m < |s| :: s[m] == s[c..][m - c];
      var at :| 0 <= at < |s[c..]| && !IsLineTerminator(s[c..][at]);
      i := LastInLine(s, c + at);
    }
  }

  lemma LineEnd(s: string, i: nat) returns (e: nat)
    requires i < |s| && !IsLineTerminator(s[i])
    ensures i < e <= |s| && !HasTerminator(s[i..e]) && (e < |s| ==> IsLineTerminator(s[e]))
  {
    var line := FirstLine(s[i..]);
    e := i + |line|;
    assert s[i..e] == line;
    assert s[i..][0] == s[i];
  }

  lemma {:induction false} LastInLine(s: string, i: nat) returns (last: nat)
    requires i < |s| && !IsLineTerminator(s[i])
    ensures i <= last < |s| && !IsLineTerminator(s[last]) && forall k | last < k < |s| :: IsLineTerminator(s[k])
    decreases |s| - i
  {
    if k :| i < k < |s| && !IsLineTerminator(s[k]) {
      last := LastInLine(s, k);
    } else {
      last := i;
    }
  }

  lemma MatchAtIsMatch(s: string, p: nat, name: string, a: nat, b: nat, c: nat)
    requires name != "" && !IsSpace(name[0]) && LabelAt(s, p, a, b, c, name)
    ensures MatchAt(s[p..], name) == Group(s[c..])
  {
    assert Lower(s[b + 0]) == name[0];
    SkippingStops(s, p, a);
    SkippingStops(s, a + 1, b);
    var item := TrimStart(s[p..]);
    assert item == s[a..] && item[1..] == s[a + 1..];
    var tail := TrimStart(item[1..]);
    assert tail == s[b..] && tail[|name|..] == s[c..];
    assert forall k | 0 <= k < |name| :: tail[k] == s[b + k];
    assert Labelled(tail, name);
  }

  lemma LabelOfMatch(s: string, p: nat, name: string) returns (a: nat, b: nat, c: nat)
    requires p <= |s| && MatchAt(s[p..], name).Some?
    ensures LabelAt(s, p, a, b, c, name)
  {
    a := BlanksAreSkipped(s, p);
    assert s[a..][0] == s[a] && s[a..][1..] == s[a + 1..];
    b := BlanksAreSkipped(s, a + 1);
    c := b + |name|;
    assert forall k | 0 <= k < |name| :: s[b..][k] == s[b + k];
  }

  lemma MatchAtExactly(s: string, p: nat, name: string, value: string)
    requires p <= |s| && name != "" && !IsSpace(name[0])
    ensures Matches(s, p, name, value) <==> AtLineStart(s, p) && MatchAt(s[p..], name) == Some(value)
  {
    if AtLineStart(s, p) && MatchAt(s[p..], name) == Some(value) {
      var a, b, c := LabelOfMatch(s, p, name);
      MatchAtIsMatch(s, p, name, a, b, c);
      var i, e := ValueOfGroup(s, c);
      GroupIsValue(s, c, i, e);
    }
    if Matches(s, p, name, value) {
      var a: nat, b: nat, c: nat, i: nat, e: nat :|
        LabelAt(s, p, a, b, c, name) && ValueAt(s, c, i, e) && value == Trim(s[i..e]);
      MatchAtIsMatch(s, p, name, a, b, c);
      GroupIsValue(s, c, i, e);
    }
  }

  lemma {:induction false} SearchFrom(s: string, p: nat, name: string)
    requires p <= |s| && name != "" && !IsSpace(name[0])
    ensures var r := Search(s[p..], name, AtLineStart(s, p));
      && (r.None? ==> forall q, v | p <= q <= |s| :: !Matches(s, q, name, v))
      && (r.Some? ==> exists q | p <= q <= |s| ::
            Matches(s, q, name, r.value) && forall q', v | p <= q' < q :: !Matches(s, q', name, v))
    decreases |s| - p
  {
    var r := Search(s[p..], name, AtLineStart(s, p));
    forall v ensures Matches(s, p, name, v) <==> AtLineStart(s, p) && MatchAt(s[p..], name) == Some(v) {
      MatchAtExactly(s, p, name, v);
    }
    if !(AtLineStart(s, p) && MatchAt(s[p..], name).Some?) && p < |s| {
      assert s[p..][1..] == s[p + 1..] && s[p..][0] == s[p];
      SearchFrom(s, p + 1, name);
    }
  }

  /** The reader finds the leftmost match of `/^\s*-\s*name\s*(.+)\s*$/mi`, and nothing if there is none. */
  lemma SearchIsLeftmost(s: string, name: string)
    requires name != "" && !IsSpace(name[0])
    ensures var r := Search(s, name, true);
      && (r.None? ==> forall p, v | 0 <= p <= |s| :: !Matches(s, p, name, v))
      && (r.Some? ==> exists p | 0 <= p <= |s| ::
            Matches(s, p, name, r.value) && forall q, v | 0 <= q < p :: !Matches(s, q, name, v))
  {
    assert s[0..] == s;
    SearchFrom(s, 0, name);
  }

  const STATUS: string := "status:"
  const REVIEWED_BY: string := "reviewed by:"

  function ParseReviewArtifact(markdown: string): EvidenceGate.Review {
    EvidenceGate.Review(Search(markdown, STATUS, true), Search(markdown, REVIEWED_BY, true))
  }

  /* ---------- The writer ---------- */

  datatype Verdict = Pass | Fail

  datatype Finding = Finding(severity: string, title: string)

  function VerdictText(v: Verdict): string {
    if v.Pass? then "PASS" else "FAIL"
  }

  /** A null actor is written as JavaScript writes it. */
  function ActorText(actor: Option<string>): string {
    if actor.Some? then actor.value else "null"
  }

  function FindingLines(findings: seq<Finding>): seq<string> {
    if findings == [] then []
    else ["- [" + findings[0].severity + "] " + findings[0].title] + FindingLines(findings[1..])
  }

  function StatusLine(v: Verdict): string {
    "- " + ("Status:" + (" " + VerdictText(v)))
  }

  function ReviewedByLine(actor: Option<string>): string {
    "- " + ("Reviewed by:" + (" " + ActorText(actor)))
  }

  const PROVIDER_LINE: string := "- Provider: codex-cli"

  function SessionLine(session: Option<string>): string {
    "- Provider Session: " + if session.Some? && session.value != "" then session.value else "unavailable"
  }

  function BodyLines(summary: string, findings: seq<Finding>): seq<string> {
    ["", "## Summary", "", summary, "", "## Findings", ""] +
    if findings == [] then ["- None"] else FindingLines(findings)
  }

  function WriteReviewerArtifact(
      v: Verdict, actor: Option<string>, session: Option<string>, summary: string, findings: seq<Finding>): string
  {
    JoinLines(
      ["# Reviewer Review"] +
      (["", StatusLine(v), ReviewedByLine(actor), PROVIDER_LINE, SessionLine(session)] +
       BodyLines(summary, findings))) + "\n"
  }

  /* ---------- The lines that matter, and anything after them ---------- */

  function ReviewText(v: Verdict, actor: Option<string>, rest: string): string {
    "# Reviewer Review" + ("\n" + ("\n" + (StatusLine(v) + ("\n" + (ReviewedByLine(actor) + ("\n" + rest))))))
  }

  lemma WrittenText(v: Verdict, actor: Option<string>, session: Option<string>, summary: string, findings: seq<Finding>)
    returns (more: string)
    ensures WriteReviewerArtifact(v, actor, session, summary, findings)
      == ReviewText(v, actor, PROVIDER_LINE + ("\n" + more))
  {
    var body := BodyLines(summary, findings);
    var lines := ["", StatusLine(v), ReviewedByLine(actor), PROVIDER_LINE, SessionLine(session)] + body;
    JoinThenText("# Reviewer Review", lines, "\n");
    FiveLines("", StatusLine(v), ReviewedByLine(actor), PROVIDER_LINE, SessionLine(session), body, "\n");
    more := SessionLine(session) + Tail(body, "\n");
    NothingBefore("\n" + (StatusLine(v) + ("\n" + (ReviewedByLine(actor) + ("\n" + (PROVIDER_LINE + ("\n" + more)))))));
  }

  lemma NothingBefore(s: string)
    ensures "" + s == s
  {
  }

  lemma TailCons(line: string, lines: seq<string>, end: string)
    ensures Tail([line] + lines, end) == "\n" + (line + Tail(lines, end))
  {
    assert ([line] + lines)[1..] == lines;
  }

  lemma FiveLines(a: string, b: string, c: string, d: string, e: string, lines: seq<string>, end: string)
    ensures Tail([a, b, c, d, e] + lines, end)
      == "\n" + (a + ("\n" + (b + ("\n" + (c + ("\n" + (d + ("\n" + (e + Tail(lines, end))))))))))
  {
    assert [a, b, c, d, e] + lines == [a] + ([b] + ([c] + ([d] + ([e] + lines))));
    TailCons(a, [b] + ([c] + ([d] + ([e] + lines))), end);
    TailCons(b, [c] + ([d] + ([e] + lines)), end);
    TailCons(c, [d] + ([e] + lines), end);
    TailCons(d, [e] + lines, end);
    TailCons(e, lines, end);
  }

  /* ---------- Searching line by line ---------- */

  /** A line without the pattern is passed over. */
  lemma {:induction false} SkipToLineEnd(line: string, rest: string, name: string)
    requires !HasTerminator(line)
    ensures Search(line + ("\n" + rest), name, false) == Search(rest, name, true)
    decreases |line|
  {
    if line == "" {
      assert line + ("\n" + rest) == "\n" + rest;
      assert ("\n" + rest)[1..] == rest;
    } else {
      assert line == [line[0]] + line[1..];
      Cons(line[0], line[1..], "\n" + rest);
      assert !IsLineTerminator(line[0]);
      assert forall i | 0 <= i < |line| - 1 :: line[1..][i] == line[i + 1];
      SkipToLineEnd(line[1..], rest, name);
    }
  }

  lemma SkipLine(line: string, rest: string, name: string)
    requires line != "" && !HasTerminator(line) && MatchAt(line + ("\n" + rest), name).None?
    ensures Search(line + ("\n" + rest), name, true) == Search(rest, name, true)
  {
    assert line == [line[0]] + line[1..];
    Cons(line[0], line[1..], "\n" + rest);
    assert !IsLineTerminator(line[0]);
    assert forall i | 0 <= i < |line| - 1 :: line[1..][i] == line[i + 1];
    SkipToLineEnd(line[1..], rest, name);
  }

  /** The pattern at a list item with this very label. */
  lemma MatchItem(words: string, name: string, rest: string)
    requires Labelled(words, name) && |words| == |name| && words != "" && !IsSpace(words[0])
    ensures MatchAt("- " + (words + rest), name) == Group(rest)
  {
    ItemStart(words + rest);
    LabelThenRest(words, name, rest);
    assert TrimStart(words + rest) == words + rest;
  }

  lemma ItemStart(s: string)
    ensures var item := TrimStart("- " + s); item != "" && item[0] == '-' && TrimStart(item[1..]) == TrimStart(s)
  {
    assert ("- " + s)[1..] == " " + s;
    TrimStartSpace(s);
  }

  lemma LabelThenRest(words: string, name: string, rest: string)
    requires Labelled(words, name) && |words| == |name| && words != ""
    ensures Labelled(words + rest, name) && (words + rest)[|name|..] == rest && (words + rest)[0] == words[0]
  {
    assert forall i | 0 <= i < |name| :: (words + rest)[i] == words[i];
  }

  /** A list item with another label does not match. */
  lemma OtherItem(other: string, name: string, rest: string)
    requires other != "" && name != "" && !IsSpace(other[0]) && Lower(other[0]) != name[0]
    ensures MatchAt("- " + (other + rest), name).None?
  {
    ItemStart(other + rest);
    assert (other + rest)[0] == other[0];
  }

  lemma BlankLineFirst(s: string)
    ensures TrimStart("\n" + s) == TrimStart(s)
  {
    assert ("\n" + s)[1..] == s;
  }

  lemma BlankLineMatches(s: string, name: string)
    ensures MatchAt("\n" + s, name) == MatchAt(s, name)
  {
    BlankLineFirst(s);
  }

  /* ---------- The three lines at the top ---------- */

  lemma Labels()
    ensures Labelled("Status:", STATUS) && |"Status:"| == |STATUS|
    ensures Labelled("Reviewed by:", REVIEWED_BY) && |"Reviewed by:"| == |REVIEWED_BY|
  {
  }

  lemma TitleIsSkipped(rest: string, name: string)
    ensures Search("# Reviewer Review" + ("\n" + rest), name, true) == Search(rest, name, true)
  {
    assert ("# Reviewer Review" + ("\n" + rest))[0] == '#';
    TitleIsClean();
    SkipLine("# Reviewer Review", rest, name);
  }

  lemma TitleIsClean()
    ensures !HasTerminator("# Reviewer Review")
  {
  }

  lemma StatusIsFound(v: Verdict, rest: string)
    ensures Search("\n" + (StatusLine(v) + ("\n" + rest)), STATUS, true) == Some(VerdictText(v))
  {
    var text := StatusLine(v) + ("\n" + rest);
    BlankLineMatches(text, STATUS);
    Labels();
    Regroup("- ", "Status:" + (" " + VerdictText(v)), "\n" + rest);
    Regroup("Status:", " " + VerdictText(v), "\n" + rest);
    Regroup(" ", VerdictText(v), "\n" + rest);
    MatchItem("Status:", STATUS, " " + (VerdictText(v) + ("\n" + rest)));
    VerdictIsRead(v, rest);
  }

  lemma VerdictIsRead(v: Verdict, rest: string)
    ensures Group(" " + (VerdictText(v) + ("\n" + rest))) == Some(VerdictText(v))
  {
    var word := VerdictText(v);
    TrimStartSpace(word + ("\n" + rest));
    assert !HasTerminator(word) && !IsSpace(word[0]) && !IsSpace(word[3]);
    TrimStartOfConcat(word, "\n" + rest);
    FirstLineEnds(word, rest);
  }

  /** A line break ends the first line, if nothing did before. */
  lemma {:induction false} FirstLineEnds(s: string, rest: string)
    ensures FirstLine(s + ("\n" + rest)) == FirstLine(s)
    ensures FirstLine(s) == s <==> !HasTerminator(s)
  {
    if s == "" {
      assert s + ("\n" + rest) == "\n" + rest;
    } else {
      assert s == [s[0]] + s[1..];
      Cons(s[0], s[1..], "\n" + rest);
      FirstLineEnds(s[1..], rest);
      if !HasTerminator(s) {
        assert forall i | 0 <= i < |s| - 1 :: s[1..][i] == s[i + 1];
      }
    }
  }

  /** A name that is read as it is written: on one line, without outer blanks, and not empty. */
  predicate PlainName(name: string) {
    name != "" && !HasTerminator(name) && Trim(name) == name
  }

  lemma NameIsRead(name: string, rest: string)
    ensures (Group(" " + (name + ("\n" + (PROVIDER_LINE + ("\n" + rest))))) == Some(name)) <==> PlainName(name)
  {
    var more := PROVIDER_LINE + ("\n" + rest);
    TrimStartSpace(name + ("\n" + more));
    if TrimStart(name) == "" {
      BlankNameReadsOn(name, rest);
    } else {
      TrimStartOfConcat(name, "\n" + more);
      FirstLineEnds(TrimStart(name), more);
      NameParts(name);
    }
  }

  /** After a blank name the group is found on the next line. */
  lemma BlankThenLine(name: string, line: string, rest: string)
    requires TrimStart(name) == "" && line != "" && !IsSpace(line[0]) && !HasTerminator(line)
    ensures Group(" " + (name + ("\n" + (line + ("\n" + rest))))) == Some(TrimEnd(line))
  {
    var more := line + ("\n" + rest);
    TrimStartSpace(name + ("\n" + more));
    TrimStartAfterBlank(name, "\n" + more);
    BlankLineFirst(more);
    assert more[0] == line[0];
    FirstLineEnds(line, rest);
  }

  lemma BlankNameReadsOn(name: string, rest: string)
    requires TrimStart(name) == ""
    ensures Group(" " + (name + ("\n" + (PROVIDER_LINE + ("\n" + rest))))) == Some(PROVIDER_LINE)
    ensures name != PROVIDER_LINE && !PlainName(name)
  {
    ProviderIsClean();
    BlankThenLine(name, PROVIDER_LINE, rest);
    BlankIsBlank(name);
    TrimIsIdempotent(name);
    assert PROVIDER_LINE[0] in PROVIDER_LINE;
  }

  lemma ProviderIsClean()
    ensures !HasTerminator(PROVIDER_LINE) && PROVIDER_LINE[0] == '-' && PROVIDER_LINE[|PROVIDER_LINE| - 1] == 'i'
  {
  }

  lemma {:induction false} BlankIsBlank(s: string)
    requires TrimStart(s) == ""
    ensures forall c | c in s :: IsSpace(c)
  {
    if s != "" {
      BlankIsBlank(s[1..]);
      assert s == [s[0]] + s[1..];
    }
  }

  lemma NameParts(name: string)
    requires TrimStart(name) != ""
    ensures TrimEnd(FirstLine(TrimStart(name))) == name <==> PlainName(name)
  {
    var start := TrimStart(name);
    TrimStartCuts(name);
    FirstLineEnds(start, "");
    TrimIsIdempotent(name);
    if TrimEnd(FirstLine(start)) == name {
      assert |name| <= |FirstLine(start)| <= |start| <= |name|;
    }
  }

  lemma ReviewerIsFound(v: Verdict, actor: Option<string>, rest: string)
    ensures var text := ReviewText(v, actor, PROVIDER_LINE + ("\n" + rest));
      (Search(text, REVIEWED_BY, true) == Some(ActorText(actor))) <==> PlainName(ActorText(actor))
  {
    var provider := PROVIDER_LINE + ("\n" + rest);
    var reviewed := ReviewedByLine(actor) + ("\n" + provider);
    var status := StatusLine(v) + ("\n" + reviewed);
    TitleIsSkipped("\n" + status, REVIEWED_BY);
    StatusLineIsOther(v, reviewed);
    BlankLineMatches(status, REVIEWED_BY);
    EmptyLineIsSkipped(status);
    StatusLineIsClean(v);
    SkipLine(StatusLine(v), reviewed, REVIEWED_BY);
    ReviewerLineMatches(actor, provider);
    NameIsRead(ActorText(actor), rest);
  }

  lemma EmptyLineIsSkipped(rest: string)
    requires MatchAt("\n" + rest, REVIEWED_BY).None?
    ensures Search("\n" + rest, REVIEWED_BY, true) == Search(rest, REVIEWED_BY, true)
  {
    assert ("\n" + rest)[1..] == rest;
  }

  lemma StatusLineIsClean(v: Verdict)
    ensures StatusLine(v) != "" && !HasTerminator(StatusLine(v))
  {
  }

  lemma StatusLineIsOther(v: Verdict, rest: string)
    ensures MatchAt(StatusLine(v) + ("\n" + rest), REVIEWED_BY).None?
  {
    var word := " " + VerdictText(v);
    Regroup("- ", "Status:" + word, "\n" + rest);
    Regroup("Status:", word, "\n" + rest);
    assert "Status:"[0] == 'S' && REVIEWED_BY[0] == 'r';
    OtherItem("Status:", REVIEWED_BY, word + ("\n" + rest));
  }

  lemma ReviewerLineMatches(actor: Option<string>, rest: string)
    ensures MatchAt(ReviewedByLine(actor) + ("\n" + rest), REVIEWED_BY) == Group(" " + (ActorText(actor) + ("\n" + rest)))
    ensures Group(" " + (ActorText(actor) + ("\n" + rest))).Some? ==>
      Search(ReviewedByLine(actor) + ("\n" + rest), REVIEWED_BY, true) == Group(" " + (ActorText(actor) + ("\n" + rest)))
  {
    var name := " " + ActorText(actor);
    Regroup("- ", "Reviewed by:" + name, "\n" + rest);
    Regroup("Reviewed by:", name, "\n" + rest);
    Regroup(" ", ActorText(actor), "\n" + rest);
    Labels();
    assert "Reviewed by:"[0] == 'R';
    MatchItem("Reviewed by:", REVIEWED_BY, " " + (ActorText(actor) + ("\n" + rest)));
  }

  /**
   Whatever summary and findings the reviewer's process put into the file, the gate reads the verdict that
   was written, and it reads the actor that was written exactly when that is a plain name.
   */
  lemma ReviewRoundTrip(v: Verdict, actor: Option<string>, session: Option<string>, summary: string, findings: seq<Finding>)
    ensures var review := ParseReviewArtifact(WriteReviewerArtifact(v, actor, session, summary, findings));
      && review.status == Some(if v.Pass? then "PASS" else "FAIL")
      && (actor.Some? ==> (review.reviewedBy == actor <==> PlainName(actor.value)))
      && (actor.None? ==> review.reviewedBy == Some("null"))
  {
    var more := WrittenText(v, actor, session, summary, findings);
    var reviewed := ReviewedByLine(actor) + ("\n" + (PROVIDER_LINE + ("\n" + more)));
    TitleIsSkipped("\n" + (StatusLine(v) + ("\n" + reviewed)), STATUS);
    StatusIsFound(v, reviewed);
    ReviewerIsFound(v, actor, more);
    if actor.None? {
      NullIsPlain();
    }
  }

  lemma NullIsPlain()
    ensures PlainName("null")
  {
  }

  /** What the file says besides: the session, the summary, and a line for each finding, or that there is none. */
  lemma ReviewSays(session: Option<string>, summary: string, findings: seq<Finding>)
    ensures SessionLine(None) == SessionLine(Some("")) == "- Provider Session: unavailable"
    ensures session.Some? && session.value != "" ==> SessionLine(session) == "- Provider Session: " + session.value
    ensures var body := BodyLines(summary, findings);
      && |body| == 7 + (if findings == [] then 1 else |findings|)
      && body[..7] == ["", "## Summary", "", summary, "", "## Findings", ""]
      && (findings == [] ==> body[7] == "- None")
      && forall i | 0 <= i < |findings| :: body[7 + i] == "- [" + findings[i].severity + "] " + findings[i].title
  {
    FindingsAreListed(findings);
  }

  lemma {:induction false} FindingsAreListed(findings: seq<Finding>)
    ensures |FindingLines(findings)| == |findings|
    ensures forall i | 0 <= i < |findings| ::
      FindingLines(findings)[i] == "- [" + findings[i].severity + "] " + findings[i].title
  {
    if findings != [] {
      FindingsAreListed(findings[1..]);
      assert forall i | 1 <= i < |findings| :: findings[i] == findings[1..][i - 1];
    }
  }

  /** For the gate: a written review approves for a reviewer exactly when it is a PASS by that reviewer. */
  lemma WrittenReviewApproves(
      v: Verdict, actor: string, session: Option<string>, summary: string, findings: seq<Finding>, reviewer: string)
    requires PlainName(actor)
    ensures EvidenceGate.Approves(
        Some(ParseReviewArtifact(WriteReviewerArtifact(v, Some(actor), session, summary, findings))), Some(reviewer))
      <==> v.Pass? && reviewer == actor
  {
    ReviewRoundTrip(v, Some(actor), session, summary, findings);
    assert "PASS"[0] != "FAIL"[0];
  }
}
