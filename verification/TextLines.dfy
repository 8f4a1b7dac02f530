/** Lines of text: splitting, joining and trimming, and how they undo each other. */
module TextLines {
  import opened JsText

  /* ---------- Lines ---------- */

  predicate OneLine(s: string) {
    forall i | 0 <= i < |s| :: s[i] != '\n'
  }

  /** `text.split("\n")`. */
  function Split(text: string): (lines: seq<string>)
    ensures lines != []
    ensures forall i | 0 <= i < |lines| :: OneLine(lines[i])
  {
    if text == "" then [""]
    else
      var rest := Split(text[1..]);
      if text[0] == '\n' then [""] + rest else [[text[0]] + rest[0]] + rest[1..]
  }

  /** Every line preceded by a line break, and then `end`. */
  function Tail(lines: seq<string>, end: string): string {
    if lines == [] then end else "\n" + (lines[0] + Tail(lines[1..], end))
  }

  /** `lines.join("\n")`. */
  function JoinLines(lines: seq<string>): string {
    if lines == [] then "" else lines[0] + Tail(lines[1..], "")
  }

  lemma {:induction false} TailOfConcat(a: seq<string>, b: seq<string>, end: string)
    ensures Tail(a + b, end) == Tail(a, Tail(b, end))
  {
    if a == [] {
      assert a + b == b;
    } else {
      assert (a + b)[1..] == a[1..] + b;
      TailOfConcat(a[1..], b, end);
    }
  }

  lemma Regroup(a: string, b: string, c: string)
    ensures a + (b + c) == (a + b) + c
  {
  }

  lemma {:induction false} TailThenText(lines: seq<string>, end: string, more: string)
    ensures Tail(lines, end) + more == Tail(lines, end + more)
  {
    if lines != [] {
      TailThenText(lines[1..], end, more);
      Regroup(lines[0], Tail(lines[1..], end), more);
      Regroup("\n", lines[0] + Tail(lines[1..], end), more);
    }
  }

  lemma JoinThenText(first: string, lines: seq<string>, more: string)
    ensures JoinLines([first] + lines) + more == first + Tail(lines, more)
  {
    assert ([first] + lines)[1..] == lines;
    TailThenText(lines, "", more);
    Regroup(first, Tail(lines, ""), more);
    assert "" + more == more;
  }

  lemma {:induction false} SplitOneLine(line: string)
    requires OneLine(line)
    ensures Split(line) == [line]
  {
    if line != "" {
      assert forall c | c in line[1..] :: c in line;
      SplitOneLine(line[1..]);
      assert line == [line[0]] + line[1..];
    }
  }

  lemma Cons(c: char, s: string, t: string)
    ensures ([c] + s) + t == [c] + (s + t)
    ensures (([c] + s) + t)[0] == c && (([c] + s) + t)[1..] == s + t
  {
  }

  lemma {:induction false} SplitFirstLine(line: string, text: string)
    requires OneLine(line)
    ensures Split(line + ("\n" + text)) == [line] + Split(text)
  {
    if line == "" {
      assert line + ("\n" + text) == "\n" + text;
      assert ("\n" + text)[1..] == text;
    } else {
      var c, rest := line[0], line[1..];
      assert line == [c] + rest;
      Cons(c, rest, "\n" + text);
      assert c in line && forall d | d in rest :: d in line;
      SplitFirstLine(rest, text);
      assert ([rest] + Split(text))[1..] == Split(text);
    }
  }

  /** Splitting undoes joining, for lines without line breaks. */
  lemma {:induction false} SplitOfJoin(lines: seq<string>)
    requires lines != [] && forall i | 0 <= i < |lines| :: OneLine(lines[i])
    ensures Split(JoinLines(lines)) == lines
    decreases |lines|
  {
    if |lines| == 1 {
      assert lines[0] + "" == lines[0];
      SplitOneLine(lines[0]);
      assert lines == [lines[0]];
    } else {
      var rest := lines[1..];
      assert JoinLines(lines) == lines[0] + ("\n" + JoinLines(rest));
      SplitFirstLine(lines[0], JoinLines(rest));
      SplitOfJoin(rest);
      assert lines == [lines[0]] + rest;
    }
  }

  /* ---------- Trimming ---------- */

  predicate Blank(s: string) {
    TrimEnd(s) == ""
  }

  lemma {:induction false} TrimEndOfConcat(a: string, b: string)
    ensures TrimEnd(a + b) == if Blank(b) then TrimEnd(a) else a + TrimEnd(b)
    decreases |b|
  {
    if b == "" {
      assert a + b == a;
    } else {
      var n := |b| - 1;
      assert (a + b)[..|a + b| - 1] == a + b[..n];
      if IsSpace(b[n]) {
        TrimEndOfConcat(a, b[..n]);
      }
    }
  }

  /** Trimming takes leading blanks off, and no more. */
  lemma {:induction false} TrimStartCuts(s: string)
    ensures var k := |s| - |TrimStart(s)|;
      && 0 <= k <= |s| && TrimStart(s) == s[k..] && (forall j | 0 <= j < k :: IsSpace(s[j]))
      && (k < |s| ==> !IsSpace(s[k]))
  {
    if s != "" && IsSpace(s[0]) {
      TrimStartCuts(s[1..]);
      var k := |s| - |TrimStart(s)|;
      assert s[1..][k - 1..] == s[k..];
      assert forall j | 0 < j < k :: s[j] == s[1..][j - 1];
    }
  }

  /** What trimming at the start removes: the blanks before the first other character. */
  lemma {:induction false} TrimStartStops(s: string, k: nat)
    requires k < |s| && !IsSpace(s[k]) && forall j | 0 <= j < k :: IsSpace(s[j])
    ensures TrimStart(s) == s[k..]
  {
    if k > 0 {
      assert s[1..][k - 1] == s[k];
      assert forall j | 0 <= j < k - 1 :: s[1..][j] == s[j + 1];
      TrimStartStops(s[1..], k - 1);
      assert s[1..][k - 1..] == s[k..];
    }
  }

  predicate BlanksFrom(s: string, i: nat, j: nat) {
    i <= j <= |s| && forall k | i <= k < j :: IsSpace(s[k])
  }

  /** Trimming what comes from `i` on ends at `k`. */
  lemma BlanksAreSkipped(s: string, i: nat) returns (k: nat)
    requires i <= |s|
    ensures BlanksFrom(s, i, k) && TrimStart(s[i..]) == s[k..] && (k < |s| ==> !IsSpace(s[k]))
  {
    TrimStartCuts(s[i..]);
    k := i + (|s[i..]| - |TrimStart(s[i..])|);
    assert forall m | i <= m < |s| :: s[m] == s[i..][m - i];
    assert s[i..][k - i..] == s[k..];
  }

  lemma SkippingStops(s: string, i: nat, k: nat)
    requires BlanksFrom(s, i, k) && k < |s| && !IsSpace(s[k])
    ensures TrimStart(s[i..]) == s[k..]
  {
    assert forall m | 0 <= m < |s| - i :: s[i..][m] == s[i + m];
    TrimStartStops(s[i..], k - i);
    assert s[i..][k - i..] == s[k..];
  }

  lemma {:induction false} TrimEndCuts(s: string)
    ensures var n := |TrimEnd(s)|;
      n <= |s| && TrimEnd(s) == s[..n] && forall j | n <= j < |s| :: IsSpace(s[j])
  {
    if s != "" && IsSpace(s[|s| - 1]) {
      TrimEndCuts(s[..|s| - 1]);
      var n := |TrimEnd(s)|;
      assert s[..|s| - 1][..n] == s[..n];
      assert forall j | n <= j < |s| - 1 :: s[j] == s[..|s| - 1][j];
    }
  }

  /** A trimmed text has no outer blanks, and trimming it again changes nothing. */
  lemma TrimIsIdempotent(s: string)
    ensures var t := Trim(s);
      && |t| <= |s| && (|t| == |s| ==> t == s)
      && TrimEnd(t) == t && TrimStart(t) == t && Trim(t) == t
      && (forall c | c in t :: c in s)
  {
    var e := TrimEnd(s);
    TrimStartCuts(e);
    var t := TrimStart(e);
    if t != "" {
      assert t[|t| - 1] == e[|e| - 1];
    }
  }

  lemma {:induction false} TrimStartBlank(s: string)
    requires s != "" && !IsSpace(s[|s| - 1])
    ensures TrimStart(s) != ""
  {
    if IsSpace(s[0]) {
      TrimStartBlank(s[1..]);
    }
  }

  lemma {:induction false} TrimStartOfConcat(q: string, more: string)
    requires TrimStart(q) != ""
    ensures TrimStart(q + more) == TrimStart(q) + more && TrimStart(q)[0] in q
  {
    assert (q + more)[0] == q[0];
    if IsSpace(q[0]) {
      assert (q + more)[1..] == q[1..] + more;
      TrimStartOfConcat(q[1..], more);
      assert forall c | c in q[1..] :: c in q;
    }
  }

  lemma {:induction false} TrimStartAfterBlank(q: string, more: string)
    requires TrimStart(q) == ""
    ensures TrimStart(q + more) == TrimStart(more)
  {
    if q == "" {
      assert q + more == more;
    } else {
      assert (q + more)[0] == q[0] && (q + more)[1..] == q[1..] + more;
      TrimStartAfterBlank(q[1..], more);
    }
  }

  lemma TrimStartSpace(s: string)
    ensures TrimStart(" " + s) == TrimStart(s)
  {
    assert (" " + s)[1..] == s;
  }

  lemma BlankIsTrimmedAway(s: string)
    ensures Trim(s) == "" <==> Blank(s)
  {
    if !Blank(s) {
      TrimStartBlank(TrimEnd(s));
    }
  }

  /** Trimming leaves nothing of exactly the texts that are white space throughout. */
  lemma TrimLeavesNothing(s: string)
    ensures Trim(s) == "" <==> forall i | 0 <= i < |s| :: IsSpace(s[i])
  {
    TrimEndLeavesNothing(s);
    TrimStartLeavesNothing(TrimEnd(s));
    if TrimEnd(s) != "" {
      assert !IsSpace(s[|TrimEnd(s)| - 1]);
      assert TrimEnd(s)[|TrimEnd(s)| - 1] == s[|TrimEnd(s)| - 1];
    }
  }

  lemma {:induction false} TrimEndLeavesNothing(s: string)
    ensures TrimEnd(s) == "" <==> forall i | 0 <= i < |s| :: IsSpace(s[i])
  {
    if s != "" {
      var init := s[..|s| - 1];
      TrimEndLeavesNothing(init);
      assert forall i | 0 <= i < |init| :: init[i] == s[i];
    }
  }

  lemma {:induction false} TrimStartLeavesNothing(s: string)
    ensures TrimStart(s) == "" <==> forall i | 0 <= i < |s| :: IsSpace(s[i])
  {
    if s != "" {
      TrimStartLeavesNothing(s[1..]);
      assert forall i | 0 <= i < |s| - 1 :: s[1..][i] == s[i + 1];
    }
  }

  /* ---------- Line endings ---------- */

  /** `replace(/\r\n/g, "\n")`. */
  function Normalize(s: string): string {
    if s == "" then ""
    else if |s| >= 2 && s[0] == '\r' && s[1] == '\n' then "\n" + Normalize(s[2..])
    else [s[0]] + Normalize(s[1..])
  }

  /** No carriage return that a line feed follows, or that could be the end of the text. */
  predicate Steady(s: string) {
    forall i | 0 <= i < |s| && s[i] == '\r' :: i + 1 < |s| && s[i + 1] != '\n'
  }

  /** A single line that stays one when a line break follows. */
  predicate NoBreaks(s: string) {
    OneLine(s) && Steady(s)
  }

  lemma {:induction false} NormalizePrefix(a: string, b: string)
    requires Steady(a)
    ensures Normalize(a + b) == a + Normalize(b)
    decreases |a|
  {
    if a == "" {
      assert a + b == b;
    } else {
      var c, rest := a[0], a[1..];
      assert a == [c] + rest;
      Cons(c, rest, b);
      assert forall i | 0 <= i < |rest| :: rest[i] == a[i + 1];
      NormalizePrefix(rest, b);
      Cons(c, rest, Normalize(b));
    }
  }

  /** Every line feed after a carriage return takes its place, and nothing else changes. */
  lemma PairBecomesBreak(a: string, b: string)
    requires Steady(a)
    ensures Normalize(a) == a
    ensures Normalize(a + ("\r\n" + b)) == a + ("\n" + Normalize(b))
  {
    NormalizePrefix(a, "");
    assert a + "" == a;
    NormalizePrefix(a, "\r\n" + b);
    assert ("\r\n" + b)[2..] == b && ("\r\n" + b)[0] == '\r' && ("\r\n" + b)[1] == '\n';
  }

  lemma {:induction false} NormalizeTail(lines: seq<string>, end: string)
    requires forall i | 0 <= i < |lines| :: Steady(lines[i])
    ensures Normalize(Tail(lines, end)) == Tail(lines, Normalize(end))
    decreases |lines|
  {
    if lines != [] {
      NormalizePrefix("\n", lines[0] + Tail(lines[1..], end));
      NormalizePrefix(lines[0], Tail(lines[1..], end));
      NormalizeTail(lines[1..], end);
    }
  }
}
