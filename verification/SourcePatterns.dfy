/**
 The two patterns by which scripts/check-spec-readiness.js finds a source path and a context id in a section:
 the searches, what the patterns match, and that the searches return the leftmost match.
 */
module SourcePatterns {
  import opened Prelude
  import opened JsText
  import opened TextLines

  /* ---------- The searches ---------- */

  const TICK: char := '`'

  function NextTick(s: string): (r: Option<nat>)
    ensures r.Some? ==> r.value < |s| && s[r.value] == TICK
    ensures r.Some? ==> TICK !in s[..r.value]
  {
    if s == "" then None
    else if s[0] == TICK then Some(0)
    else
      match NextTick(s[1..])
      case None => None
      case Some(k) =>
        assert s[..k + 1] == [s[0]] + s[1..][..k];
        Some(k + 1)
  }

  predicate EndsMd(s: string) {
    |s| > 3 && s[|s| - 3..] == ".md"
  }

  /** What stands between a backtick at the start of `s` and the next one. */
  function Quoted(s: string): Option<string> {
    if s == "" || s[0] != TICK then None
    else
      match NextTick(s[1..])
      case None => None
      case Some(k) => Some(s[1..][..k])
  }

  /** The path pattern at the start of `s`, and its leftmost match anywhere in `s`. */
  function PathAt(s: string): Option<string> {
    if Quoted(s).Some? && EndsMd(Quoted(s).value) then Quoted(s) else None
  }

  function FindPath(s: string): Option<string> {
    if s == "" then None else if PathAt(s).Some? then PathAt(s) else FindPath(s[1..])
  }

  const LABEL: string := "context id:"

  predicate StartsWithLabel(s: string) {
    |s| >= |LABEL| && forall i | 0 <= i < |LABEL| :: Lower(s[i]) == LABEL[i]
  }

  /** The id pattern at the start of `s`, and its leftmost match anywhere in `s`. */
  function IdAt(s: string): Option<string> {
    if !StartsWithLabel(s) then None
    else
      var q := Quoted(TrimStart(s[|LABEL|..]));
      if q.Some? && q.value != "" then q else None
  }

  function FindId(s: string): Option<string> {
    if s == "" then None else if IdAt(s).Some? then IdAt(s) else FindId(s[1..])
  }

  /** `.+\.md`: something, and then .md. */
  lemma EndsMdExactly(s: string)
    ensures EndsMd(s) <==> exists n | 1 <= n <= |s| :: s[n..] == ".md"
  {
    if EndsMd(s) {
      assert s[|s| - 3..] == ".md";
    }
    if n :| 1 <= n <= |s| && s[n..] == ".md" {
      assert |s[n..]| == 3;
    }
  }

  /** The label, each letter in either case. */
  lemma LabelInAnyCase(s: string)
    ensures StartsWithLabel(s) <==>
      |s| >= 11 && forall i | 0 <= i < 11 :: s[i] == "context id:"[i] || s[i] == "CONTEXT ID:"[i]
  {
    forall i | 0 <= i < 11 && i < |s| ensures Lower(s[i]) == LABEL[i] <==> s[i] == "context id:"[i] || s[i] == "CONTEXT ID:"[i] {
      CaseOfLabel(s[i], i);
    }
  }

  lemma CaseOfLabel(c: char, i: nat)
    requires i < 11
    ensures |LABEL| == 11 && (Lower(c) == LABEL[i] <==> c == "context id:"[i] || c == "CONTEXT ID:"[i])
  {
  }

  lemma {:induction false} NextTickAfter(a: string, rest: string)
    requires TICK !in a
    ensures NextTick(a + ([TICK] + rest)) == Some(|a|)
  {
    if a == "" {
      assert a + ([TICK] + rest) == [TICK] + rest;
    } else {
      assert a == [a[0]] + a[1..];
      assert a[0] in a && forall c | c in a[1..] :: c in a;
      Cons(a[0], a[1..], [TICK] + rest);
      NextTickAfter(a[1..], rest);
    }
  }

  /* ---------- What the patterns match ---------- */

  /** At offset `p`: a backtick, the text `c` without backticks, a backtick. */
  predicate QuotedHere(s: string, p: nat, c: string) {
    p + |c| + 2 <= |s| && s[p] == TICK && s[p + 1..p + 1 + |c|] == c && s[p + 1 + |c|] == TICK && TICK !in c
  }

  /** The path pattern matches at offset `i` with group `c`. */
  predicate PathMatch(s: string, i: nat, c: string) {
    QuotedHere(s, i, c) && EndsMd(c)
  }

  /** The id pattern matches at offset `i`, with `k` blanks after the label and group `c`. */
  predicate IdMatchWith(s: string, i: nat, k: nat, c: string) {
    && i + |LABEL| + k <= |s| && StartsWithLabel(s[i..])
    && (forall j | i + |LABEL| <= j < i + |LABEL| + k :: IsSpace(s[j]))
    && QuotedHere(s, i + |LABEL| + k, c) && c != ""
  }

  ghost predicate IdMatch(s: string, i: nat, c: string) {
    exists k: nat :: IdMatchWith(s, i, k, c)
  }

  ghost predicate LeftmostPath(s: string, r: Option<string>) {
    if r.Some? then exists i: nat :: PathMatch(s, i, r.value) && forall j: nat, c | j < i :: !PathMatch(s, j, c)
    else forall i: nat, c :: !PathMatch(s, i, c)
  }

  ghost predicate LeftmostId(s: string, r: Option<string>) {
    if r.Some? then exists i: nat :: IdMatch(s, i, r.value) && forall j: nat, c | j < i :: !IdMatch(s, j, c)
    else forall i: nat, c :: !IdMatch(s, i, c)
  }

  lemma QuotedIsHere(s: string, c: string)
    ensures Quoted(s) == Some(c) <==> QuotedHere(s, 0, c)
  {
    if QuotedHere(s, 0, c) {
      var rest := s[2 + |c|..];
      assert s[1..] == c + ([TICK] + rest);
      NextTickAfter(c, rest);
    }
  }

  lemma QuotedShifts(s: string, p: nat, c: string)
    requires s != ""
    ensures QuotedHere(s, p + 1, c) <==> QuotedHere(s[1..], p, c)
  {
    if p + 1 + |c| + 2 <= |s| {
      assert s[1..][p + 1..p + 1 + |c|] == s[p + 2..p + 2 + |c|];
    }
  }

  /** The search returns the match of the path pattern with the least offset, if there is one. */
  lemma {:induction false} FindPathIsLeftmost(s: string)
    ensures LeftmostPath(s, FindPath(s))
  {
    if s != "" {
      forall c ensures PathMatch(s, 0, c) <==> PathAt(s) == Some(c) {
        QuotedIsHere(s, c);
      }
      if PathAt(s).None? {
        FindPathIsLeftmost(s[1..]);
        forall i: nat, c ensures PathMatch(s, i + 1, c) <==> PathMatch(s[1..], i, c) {
          QuotedShifts(s, i, c);
        }
        LeftmostPathShifts(s, FindPath(s[1..]));
      }
    }
  }

  lemma LeftmostPathShifts(s: string, r: Option<string>)
    requires s != "" && LeftmostPath(s[1..], r)
    requires forall c :: !PathMatch(s, 0, c)
    requires forall i: nat, c :: PathMatch(s, i + 1, c) <==> PathMatch(s[1..], i, c)
    ensures LeftmostPath(s, r)
  {
    forall i: nat, c | PathMatch(s, i, c) ensures i > 0 && PathMatch(s[1..], i - 1, c) {
      assert i > 0;
      assert PathMatch(s, (i - 1) + 1, c);
    }
    if r.Some? {
      var i: nat :| PathMatch(s[1..], i, r.value) && forall j: nat, c | j < i :: !PathMatch(s[1..], j, c);
      assert PathMatch(s, i + 1, r.value);
    }
  }

  lemma QuotedInSuffix(s: string, m: nat, p: nat, c: string)
    requires m <= |s|
    ensures QuotedHere(s[m..], p, c) <==> QuotedHere(s, m + p, c)
  {
    if m + p + |c| + 2 <= |s| {
      assert s[m..][p + 1..p + 1 + |c|] == s[m + p + 1..m + p + 1 + |c|];
    }
  }

  lemma QuotedAfterBlanks(rest: string, c: string) returns (k: nat)
    requires Quoted(TrimStart(rest)) == Some(c)
    ensures QuotedHere(rest, k, c) && k <= |rest| && forall j | 0 <= j < k :: IsSpace(rest[j])
  {
    TrimStartCuts(rest);
    k := |rest| - |TrimStart(rest)|;
    QuotedIsHere(TrimStart(rest), c);
    QuotedInSuffix(rest, k, 0, c);
  }

  lemma BlanksInSuffix(s: string, m: nat, k: nat)
    requires m + k <= |s| && forall j | 0 <= j < k :: IsSpace(s[m..][j])
    ensures forall j | m <= j < m + k :: IsSpace(s[j])
  {
    forall j | m <= j < m + k ensures IsSpace(s[j]) {
      assert s[m..][j - m] == s[j];
    }
  }

  lemma IdAtIsMatch(s: string, c: string)
    ensures IdAt(s) == Some(c) ==> IdMatch(s, 0, c)
  {
    if IdAt(s) == Some(c) {
      var k := QuotedAfterBlanks(s[|LABEL|..], c);
      QuotedInSuffix(s, |LABEL|, k, c);
      BlanksInSuffix(s, |LABEL|, k);
      assert s[0..] == s;
      assert IdMatchWith(s, 0, k, c);
    }
  }

  lemma BlanksBeforeQuote(rest: string, k: nat, c: string)
    requires QuotedHere(rest, k, c) && forall j | 0 <= j < k :: IsSpace(rest[j])
    ensures Quoted(TrimStart(rest)) == Some(c)
  {
    TrimStartStops(rest, k);
    QuotedInSuffix(rest, k, 0, c);
    QuotedIsHere(rest[k..], c);
  }

  lemma MatchIsIdAt(s: string, k: nat, c: string)
    requires IdMatchWith(s, 0, k, c)
    ensures IdAt(s) == Some(c)
  {
    assert s[0..] == s;
    QuotedInSuffix(s, |LABEL|, k, c);
    assert forall j | 0 <= j < k :: s[|LABEL|..][j] == s[j + |LABEL|];
    BlanksBeforeQuote(s[|LABEL|..], k, c);
  }

  lemma IdMatchShifts(s: string, i: nat, k: nat, c: string)
    requires s != ""
    ensures IdMatchWith(s, i + 1, k, c) <==> IdMatchWith(s[1..], i, k, c)
  {
    QuotedShifts(s, i + |LABEL| + k, c);
    if i + 1 + |LABEL| + k <= |s| {
      assert s[1..][i..] == s[i + 1..];
      assert forall j | i + |LABEL| <= j < i + |LABEL| + k :: s[1..][j] == s[j + 1];
      assert forall j | i + 1 + |LABEL| <= j < i + 1 + |LABEL| + k :: s[j] == s[1..][j - 1];
    }
  }

  lemma IdMatchShiftsOne(s: string, i: nat, c: string)
    requires s != ""
    ensures IdMatch(s, i + 1, c) <==> IdMatch(s[1..], i, c)
  {
    if IdMatch(s, i + 1, c) {
      var k: nat :| IdMatchWith(s, i + 1, k, c);
      IdMatchShifts(s, i, k, c);
    }
    if IdMatch(s[1..], i, c) {
      var k: nat :| IdMatchWith(s[1..], i, k, c);
      IdMatchShifts(s, i, k, c);
    }
  }

  lemma IdMatchesShift(s: string)
    requires s != ""
    ensures forall i: nat, c :: IdMatch(s, i + 1, c) <==> IdMatch(s[1..], i, c)
  {
    forall i: nat, c ensures IdMatch(s, i + 1, c) <==> IdMatch(s[1..], i, c) {
      IdMatchShiftsOne(s, i, c);
    }
  }

  /** The search returns the match of the id pattern with the least offset, if there is one. */
  lemma {:induction false} FindIdIsLeftmost(s: string)
    ensures LeftmostId(s, FindId(s))
  {
    forall c ensures IdMatch(s, 0, c) <==> IdAt(s) == Some(c) {
      IdAtIsMatch(s, c);
      if IdMatch(s, 0, c) {
        var k: nat :| IdMatchWith(s, 0, k, c);
        MatchIsIdAt(s, k, c);
      }
    }
    if s != "" && IdAt(s).None? {
      FindIdIsLeftmost(s[1..]);
      IdMatchesShift(s);
      LeftmostIdShifts(s, FindId(s[1..]));
    }
  }

  lemma LeftmostIdShifts(s: string, r: Option<string>)
    requires s != "" && LeftmostId(s[1..], r)
    requires forall c :: !IdMatch(s, 0, c)
    requires forall i: nat, c :: IdMatch(s, i + 1, c) <==> IdMatch(s[1..], i, c)
    ensures LeftmostId(s, r)
  {
    forall i: nat, c | IdMatch(s, i, c) ensures i > 0 && IdMatch(s[1..], i - 1, c) {
      assert i > 0;
      assert IdMatch(s, (i - 1) + 1, c);
    }
    if r.Some? {
      var i: nat :| IdMatch(s[1..], i, r.value) && forall j: nat, c | j < i :: !IdMatch(s[1..], j, c);
      assert IdMatch(s, i + 1, r.value);
    }
  }
}
