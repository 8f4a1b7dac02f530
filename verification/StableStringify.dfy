/**
 Canonical JSON of scripts/run-verification-evidence-gate.js: `stableStringify`, and the evidence
 documents whose digest is taken over it.
 */
module StableStringify {
  import opened JsonValue

  /* ---------- JSON.stringify on strings and integers ---------- */

  function HexDigit(n: nat): (c: char)
    requires n < 16
  {
    "0123456789abcdef"[n]
  }

  /** Section 7 of RFC 8259: quotation mark, reverse solidus and the controls below U+0020. */
  function EscapeChar(c: char): string {
    if c == '"' then "\\\""
    else if c == '\\' then "\\\\"
    else if c as int == 8 then "\\b"
    else if c as int == 9 then "\\t"
    else if c as int == 10 then "\\n"
    else if c as int == 12 then "\\f"
    else if c as int == 13 then "\\r"
    else if c as int < 0x20 then "\\u00" + [HexDigit(c as int / 16), HexDigit(c as int % 16)]
    else [c]
  }

  function EscapeAll(s: string): string {
    if s == "" then "" else EscapeChar(s[0]) + EscapeAll(s[1..])
  }

  function Quote(s: string): string {
    "\"" + EscapeAll(s) + "\""
  }

  function Digits(n: nat): (d: string)
    ensures d != ""
    ensures forall i | 0 <= i < |d| :: '0' <= d[i] <= '9'
  {
    var last := "0123456789"[n % 10];
    if n < 10 then [last] else Digits(n / 10) + [last]
  }

  function PrintInt(n: int): string {
    if n < 0 then "-" + Digits(-n) else Digits(n)
  }

  /* ---------- Keys in JavaScript's sort order ---------- */

  /** Orders characters as their UTF-16 code units do: supplementary ones sort before U+E000. */
  function CodeUnitKey(c: char): int {
    var n := c as int;
    if n < 0xE000 then n else if n >= 0x10000 then n - 0x10000 + 0xE000 else n + 0x100000
  }

  predicate Before(a: string, b: string) {
    if b == "" then false
    else if a == "" then true
    else if a[0] == b[0] then Before(a[1..], b[1..])
    else CodeUnitKey(a[0]) < CodeUnitKey(b[0])
  }

  function InsertByKey(m: Member, sorted: seq<Member>): (r: seq<Member>)
    ensures multiset(r) == multiset(sorted) + multiset{m}
  {
    if sorted == [] then [m]
    else if Before(m.key, sorted[0].key) then [m] + sorted
    else
      assert sorted == [sorted[0]] + sorted[1..];
      [sorted[0]] + InsertByKey(m, sorted[1..])
  }

  /** `Object.keys(value).sort()`, each key still with its value. */
  function SortByKey(members: seq<Member>): (r: seq<Member>)
    ensures multiset(r) == multiset(members)
    ensures forall m :: m in r <==> m in members
  {
    if members == [] then []
    else
      assert members == [members[0]] + members[1..];
      var r := InsertByKey(members[0], SortByKey(members[1..]));
      assert forall m :: m in r <==> m in multiset(r);
      assert forall m :: m in members <==> m in multiset(members);
      r
  }

  /* ---------- The printer ---------- */

  function Join(parts: seq<string>): string {
    if parts == [] then ""
    else if |parts| == 1 then parts[0]
    else parts[0] + "," + Join(parts[1..])
  }

  function Stringify(v: Json): string
    decreases v, 1, 0
  {
    match v
    case Null => "null"
    case Bool(b) => if b then "true" else "false"
    case Num(n) => PrintInt(n)
    case Str(s) => Quote(s)
    case Arr(items) => "[" + Join(Items(items, v)) + "]"
    case Obj(members) => "{" + Join(Fields(SortByKey(members), v)) + "}"
  }

  function Items(items: seq<Json>, ghost whole: Json): (r: seq<string>)
    requires forall i | 0 <= i < |items| :: items[i] < whole
    ensures |r| == |items|
    decreases whole, 0, |items|
  {
    if items == [] then [] else [Stringify(items[0])] + Items(items[1..], whole)
  }

  function Fields(members: seq<Member>, ghost whole: Json): (r: seq<string>)
    requires forall m | m in members :: m.value < whole
    ensures |r| == |members|
    decreases whole, 0, |members|
  {
    if members == [] then []
    else [Field(members[0])] + Fields(members[1..], whole)
  }

  function Field(m: Member): string
    decreases m.value, 2
  {
    Quote(m.key) + ":" + Stringify(m.value)
  }

  /* ---------- Equality up to key order ---------- */

  function Keys(members: seq<Member>): set<string> {
    set m | m in members :: m.key
  }

  /** The same value, reading objects as unordered at every depth. */
  predicate Equiv(a: Json, b: Json)
    decreases a
  {
    match (a, b)
    case (Arr(x), Arr(y)) => |x| == |y| && forall i | 0 <= i < |x| :: Equiv(x[i], y[i])
    case (Obj(x), Obj(y)) =>
      && Keys(x) == Keys(y)
      && forall m, n | m in x && n in y && m.key == n.key :: Equiv(m.value, n.value)
    case _ => a == b
  }

  /* ---------- The sort order is strict and total ---------- */

  lemma {:induction false} BeforeIsTotal(a: string, b: string)
    ensures a == b || Before(a, b) || Before(b, a)
  {
    if a != "" && b != "" && a[0] == b[0] {
      BeforeIsTotal(a[1..], b[1..]);
      assert a == [a[0]] + a[1..] && b == [b[0]] + b[1..];
    }
  }

  lemma {:induction false} BeforeIsTransitive(a: string, b: string, c: string)
    requires Before(a, b) && Before(b, c)
    ensures Before(a, c)
  {
    if a != "" && a[0] == b[0] == c[0] {
      BeforeIsTransitive(a[1..], b[1..], c[1..]);
    }
  }

  lemma {:induction false} BeforeIsIrreflexive(a: string)
    ensures !Before(a, a)
  {
    if a != "" {
      BeforeIsIrreflexive(a[1..]);
    }
  }

  predicate KeysRise(s: seq<Member>) {
    forall i, j | 0 <= i < j < |s| :: Before(s[i].key, s[j].key)
  }

  lemma {:induction false} InsertKeepsRise(m: Member, sorted: seq<Member>)
    requires KeysRise(sorted) && forall n | n in sorted :: n.key != m.key
    ensures KeysRise(InsertByKey(m, sorted))
  {
    if sorted != [] {
      var first := sorted[0];
      BeforeIsTotal(m.key, first.key);
      if Before(m.key, first.key) {
        forall j | 0 <= j < |sorted| ensures Before(m.key, sorted[j].key) {
          if j > 0 {
            BeforeIsTransitive(m.key, first.key, sorted[j].key);
          }
        }
      } else {
        InsertKeepsRise(m, sorted[1..]);
        var rest := InsertByKey(m, sorted[1..]);
        forall n | n in rest ensures Before(first.key, n.key) {
          assert n in multiset(rest);
          assert n == m || n in sorted[1..];
        }
      }
    }
  }

  lemma {:induction false} SortRises(members: seq<Member>)
    requires DistinctKeys(members)
    ensures KeysRise(SortByKey(members))
  {
    if members != [] {
      SortRises(members[1..]);
      InsertKeepsRise(members[0], SortByKey(members[1..]));
    }
  }

  /* ---------- Each piece of text has one reading ---------- */

  /** What may follow a number: anything but another digit. */
  predicate NoDigit(s: string) {
    s != "" ==> !('0' <= s[0] <= '9')
  }

  function HexValue(c: char): int {
    if '0' <= c <= '9' then c as int - '0' as int else c as int - 'a' as int + 10
  }

  /** Reading one escaped character back: what it stands for and how much text it takes. */
  function UnescapeCode(x: string): int
    requires EscapeWidth(x) <= |x|
  {
    if x[0] != '\\' then x[0] as int
    else if x[1] == 'u' then HexValue(x[4]) * 16 + HexValue(x[5])
    else if x[1] == 'b' then 8
    else if x[1] == 't' then 9
    else if x[1] == 'n' then 10
    else if x[1] == 'f' then 12
    else if x[1] == 'r' then 13
    else x[1] as int
  }

  function EscapeWidth(x: string): (n: nat)
    ensures n >= 1
  {
    if x == "" || x[0] != '\\' then 1 else if |x| > 1 && x[1] == 'u' then 6 else 2
  }

  lemma EscapeReadsBack(c: char)
    ensures EscapeWidth(EscapeChar(c)) == |EscapeChar(c)|
    ensures UnescapeCode(EscapeChar(c)) == c as int
    ensures EscapeChar(c)[0] != '"'
  {
  }

  lemma EscapeReadsBackIn(c: char, s: string)
    ensures EscapeWidth(EscapeChar(c) + s) == |EscapeChar(c)|
    ensures UnescapeCode(EscapeChar(c) + s) == c as int
    ensures (EscapeChar(c) + s)[0] != '"'
  {
    EscapeReadsBack(c);
    var e := EscapeChar(c);
    assert forall i | 0 <= i < |e| :: (e + s)[i] == e[i];
  }

  lemma EscapeIsPrefixFree(c: char, s: string, d: char, t: string)
    requires EscapeChar(c) + s == EscapeChar(d) + t
    ensures c == d && s == t
  {
    EscapeReadsBackIn(c, s);
    EscapeReadsBackIn(d, t);
    assert s == (EscapeChar(c) + s)[|EscapeChar(c)|..];
    assert t == (EscapeChar(d) + t)[|EscapeChar(d)|..];
  }

  /** The rest of a quoted string, closing quote and following text included. */
  function Unquoted(a: string, s: string): string {
    EscapeAll(a) + "\"" + s
  }

  lemma UnquotedUnfolds(a: string, s: string)
    ensures a == "" ==> Unquoted(a, s) == "\"" + s
    ensures a != "" ==> Unquoted(a, s) == EscapeChar(a[0]) + Unquoted(a[1..], s)
    ensures a == "" <==> Unquoted(a, s)[0] == '"'
  {
    if a != "" {
      EscapeReadsBackIn(a[0], Unquoted(a[1..], s));
      assert Unquoted(a, s) == EscapeChar(a[0]) + Unquoted(a[1..], s);
    }
  }

  lemma {:induction false} QuoteHasOneReading(a: string, s: string, b: string, t: string)
    requires Unquoted(a, s) == Unquoted(b, t)
    ensures a == b && s == t
    decreases |a|
  {
    UnquotedUnfolds(a, s);
    UnquotedUnfolds(b, t);
    if a == "" {
      assert s == Unquoted(a, s)[1..] && t == Unquoted(b, t)[1..];
    } else {
      EscapeIsPrefixFree(a[0], Unquoted(a[1..], s), b[0], Unquoted(b[1..], t));
      QuoteHasOneReading(a[1..], s, b[1..], t);
      assert a == [a[0]] + a[1..] && b == [b[0]] + b[1..];
    }
  }

  function DigitsValue(d: string): int {
    if d == "" then 0 else DigitsValue(d[..|d| - 1]) * 10 + (d[|d| - 1] as int - '0' as int)
  }

  lemma {:induction false} DigitsHaveValue(n: nat)
    ensures DigitsValue(Digits(n)) == n
  {
    var d := Digits(n);
    if n >= 10 {
      DigitsHaveValue(n / 10);
      assert d[..|d| - 1] == Digits(n / 10);
    } else {
      assert d[..|d| - 1] == "";
    }
  }

  lemma Peel(p: string, s: string, q: string, t: string)
    requires |p| == |q| && p + s == q + t
    ensures p == q && s == t
  {
    assert p == (p + s)[..|p|] && q == (q + t)[..|q|];
    assert s == (p + s)[|p|..] && t == (q + t)[|q|..];
  }

  lemma Overhang(x: string, s: string, y: string, t: string)
    requires x + s == y + t && |x| < |y|
    ensures s != "" && s[0] == y[|x|]
  {
    assert s[0] == (x + s)[|x|] == (y + t)[|x|];
  }

  predicate AllDigits(x: string) {
    forall i | 0 <= i < |x| :: '0' <= x[i] <= '9'
  }

  lemma DigitRunsHaveOneReading(x: string, s: string, y: string, t: string)
    requires AllDigits(x) && AllDigits(y) && NoDigit(s) && NoDigit(t)
    requires x + s == y + t
    ensures x == y && s == t
  {
    if |x| < |y| {
      Overhang(x, s, y, t);
    } else if |y| < |x| {
      Overhang(y, t, x, s);
    } else {
      Peel(x, s, y, t);
    }
  }

  /** The first character of a printed value tells what kind of value it is. */
  predicate StartsLike(v: Json, c: char) {
    match v
    case Null => c == 'n'
    case Bool(b) => c == if b then 't' else 'f'
    case Num(n) => if n < 0 then c == '-' else '0' <= c <= '9'
    case Str(_) => c == '"'
    case Arr(_) => c == '['
    case Obj(_) => c == '{'
  }

  lemma Start(v: Json)
    ensures Stringify(v) != "" && StartsLike(v, Stringify(v)[0])
  {
  }


  /* ---------- The printer has one reading, and is blind to order ---------- */

  function Signed(negative: bool, digits: string): string {
    if negative then "-" + digits else digits
  }

  lemma SignedUnfolds(negative: bool, x: string, s: string)
    ensures Signed(negative, x) + s == if negative then "-" + (x + s) else x + s
  {
  }

  lemma SignedRunsHaveOneReading(negative: bool, x: string, s: string, y: string, t: string)
    requires Signed(negative, x) + s == Signed(negative, y) + t
    ensures x + s == y + t
  {
    SignedUnfolds(negative, x, s);
    SignedUnfolds(negative, y, t);
    if negative {
      Peel("-", x + s, "-", y + t);
    }
  }

  function Magnitude(n: int): nat {
    if n < 0 then -n else n
  }

  lemma NumberHasOneReading(n: int, s: string, m: int, t: string)
    requires PrintInt(n) + s == PrintInt(m) + t
    requires NoDigit(s) && NoDigit(t)
    requires n < 0 <==> m < 0
    ensures n == m && s == t
  {
    SignedRunsHaveOneReading(n < 0, Digits(Magnitude(n)), s, Digits(Magnitude(m)), t);
    DigitRunsHaveOneReading(Digits(Magnitude(n)), s, Digits(Magnitude(m)), t);
    DigitsHaveValue(Magnitude(n));
    DigitsHaveValue(Magnitude(m));
  }

  /** An array's text after its first item, closing bracket and following text included. */
  function ItemsRest(x: seq<Json>, s: string): (r: string)
    ensures r != "" && r[0] == if x == [] then ']' else ','
  {
    if x == [] then "]" + s else "," + (Stringify(x[0]) + ItemsRest(x[1..], s))
  }

  function ArrayText(x: seq<Json>, s: string): string {
    if x == [] then "]" + s else Stringify(x[0]) + ItemsRest(x[1..], s)
  }

  /** An object's text after its first member, closing brace and following text included. */
  function FieldsRest(x: seq<Member>, s: string): (r: string)
    ensures r != "" && r[0] == if x == [] then '}' else ','
  {
    if x == [] then "}" + s else "," + (Field(x[0]) + FieldsRest(x[1..], s))
  }

  function ObjectText(x: seq<Member>, s: string): string {
    if x == [] then "}" + s else Field(x[0]) + FieldsRest(x[1..], s)
  }

  lemma JoinUnfolds(parts: seq<string>, rest: string)
    requires |parts| > 1
    ensures Join(parts) + rest == parts[0] + ("," + (Join(parts[1..]) + rest))
  {
  }

  lemma {:induction false} JoinedItems(x: seq<Json>, whole: Json, s: string)
    requires forall i | 0 <= i < |x| :: x[i] < whole
    ensures Join(Items(x, whole)) + ("]" + s) == ArrayText(x, s)
    decreases |x|
  {
    if |x| > 1 {
      JoinedItems(x[1..], whole, s);
      JoinUnfolds(Items(x, whole), "]" + s);
      assert Items(x, whole)[1..] == Items(x[1..], whole);
    }
  }

  lemma {:induction false} JoinedFields(x: seq<Member>, whole: Json, s: string)
    requires forall m | m in x :: m.value < whole
    ensures Join(Fields(x, whole)) + ("}" + s) == ObjectText(x, s)
    decreases |x|
  {
    if |x| > 1 {
      JoinedFields(x[1..], whole, s);
      JoinUnfolds(Fields(x, whole), "}" + s);
      assert Fields(x, whole)[1..] == Fields(x[1..], whole);
    }
  }

  lemma Bracketed(open: string, inner: string, close: string, s: string)
    ensures (open + inner + close) + s == open + (inner + (close + s))
  {
  }

  lemma ArrayUnfolds(v: Json, s: string)
    requires v.Arr?
    ensures Stringify(v) + s == "[" + ArrayText(v.items, s)
  {
    JoinedItems(v.items, v, s);
    Bracketed("[", Join(Items(v.items, v)), "]", s);
  }

  lemma ObjectUnfolds(v: Json, s: string)
    requires v.Obj?
    ensures Stringify(v) + s == "{" + ObjectText(SortByKey(v.members), s)
  {
    JoinedFields(SortByKey(v.members), v, s);
    Bracketed("{", Join(Fields(SortByKey(v.members), v)), "}", s);
  }

  lemma StringUnfolds(v: Json, s: string)
    requires v.Str?
    ensures Stringify(v) + s == "\"" + Unquoted(v.s, s)
  {
    Bracketed("\"", EscapeAll(v.s), "\"", s);
    assert Unquoted(v.s, s) == EscapeAll(v.s) + ("\"" + s);
  }

  lemma SameStart(a: Json, s: string, b: Json, t: string)
    requires Stringify(a) + s == Stringify(b) + t
    ensures exists c :: StartsLike(a, c) && StartsLike(b, c)
  {
    Start(a);
    Start(b);
    assert (Stringify(a) + s)[0] == Stringify(a)[0] && (Stringify(b) + t)[0] == Stringify(b)[0];
    assert StartsLike(a, Stringify(a)[0]) && StartsLike(b, Stringify(a)[0]);
  }

  /** The text of any value, whatever may follow it, determines the value up to key order. */
  lemma {:induction false} HasOneReading(a: Json, s: string, b: Json, t: string)
    requires WellFormed(a) && WellFormed(b)
    requires Stringify(a) + s == Stringify(b) + t
    requires NoDigit(s) && NoDigit(t)
    ensures Equiv(a, b) && s == t
    decreases a, 1, 0
  {
    SameStart(a, s, b, t);
    match a
    case Null =>
      Peel("null", s, "null", t);
    case Bool(x) =>
      Peel(Stringify(a), s, Stringify(b), t);
    case Num(n) =>
      NumberHasOneReading(n, s, b.n, t);
    case Str(x) =>
      StringsHaveOneReading(a, s, b, t);
    case Arr(x) =>
      ArraysHaveOneText(a, s, b, t);
      ItemsHaveOneReading(x, s, b.items, t, a, b);
    case Obj(x) =>
      ObjectsHaveOneText(a, s, b, t);
      FieldsHaveOneReading(SortByKey(x), s, SortByKey(b.members), t, a, b);
      PairwiseIsEquiv(x, b.members);
  }

  lemma StringsHaveOneReading(a: Json, s: string, b: Json, t: string)
    requires a.Str? && b.Str? && Stringify(a) + s == Stringify(b) + t
    ensures a == b && s == t
  {
    StringUnfolds(a, s);
    StringUnfolds(b, t);
    Peel("\"", Unquoted(a.s, s), "\"", Unquoted(b.s, t));
    QuoteHasOneReading(a.s, s, b.s, t);
  }

  lemma ArraysHaveOneText(a: Json, s: string, b: Json, t: string)
    requires a.Arr? && b.Arr? && Stringify(a) + s == Stringify(b) + t
    ensures ArrayText(a.items, s) == ArrayText(b.items, t)
  {
    ArrayUnfolds(a, s);
    ArrayUnfolds(b, t);
    Peel("[", ArrayText(a.items, s), "[", ArrayText(b.items, t));
  }

  lemma ObjectsHaveOneText(a: Json, s: string, b: Json, t: string)
    requires a.Obj? && b.Obj? && Stringify(a) + s == Stringify(b) + t
    ensures ObjectText(SortByKey(a.members), s) == ObjectText(SortByKey(b.members), t)
  {
    ObjectUnfolds(a, s);
    ObjectUnfolds(b, t);
    Peel("{", ObjectText(SortByKey(a.members), s), "{", ObjectText(SortByKey(b.members), t));
  }

  predicate ItemwiseEquiv(x: seq<Json>, y: seq<Json>) {
    |x| == |y| && forall i | 0 <= i < |x| :: Equiv(x[i], y[i])
  }

  lemma ItemwiseCons(x: seq<Json>, y: seq<Json>)
    requires x != [] && y != [] && Equiv(x[0], y[0]) && ItemwiseEquiv(x[1..], y[1..])
    ensures ItemwiseEquiv(x, y)
  {
    forall i | 1 <= i < |x| ensures Equiv(x[i], y[i]) {
      assert x[i] == x[1..][i - 1] && y[i] == y[1..][i - 1];
    }
  }

  lemma NoValueStartsWithBracket(v: Json, s: string, t: string)
    ensures Stringify(v) + s != "]" + t
  {
    Start(v);
    assert (Stringify(v) + s)[0] != ("]" + t)[0];
  }

  lemma {:induction false} ItemsHaveOneReading(x: seq<Json>, s: string, y: seq<Json>, t: string, a: Json, b: Json)
    requires forall i | 0 <= i < |x| :: x[i] < a && WellFormed(x[i])
    requires forall i | 0 <= i < |y| :: y[i] < b && WellFormed(y[i])
    requires ArrayText(x, s) == ArrayText(y, t)
    ensures ItemwiseEquiv(x, y) && s == t
    decreases a, 0, |x|
  {
    if x == [] && y == [] {
      Peel("]", s, "]", t);
    } else if x == [] {
      NoValueStartsWithBracket(y[0], ItemsRest(y[1..], t), s);
    } else if y == [] {
      NoValueStartsWithBracket(x[0], ItemsRest(x[1..], s), t);
    } else {
      HasOneReading(x[0], ItemsRest(x[1..], s), y[0], ItemsRest(y[1..], t));
      ItemsRestHasOneText(x[1..], s, y[1..], t);
      ItemsHaveOneReading(x[1..], s, y[1..], t, a, b);
      ItemwiseCons(x, y);
    }
  }

  lemma ItemsRestHasOneText(x: seq<Json>, s: string, y: seq<Json>, t: string)
    requires ItemsRest(x, s) == ItemsRest(y, t)
    ensures ArrayText(x, s) == ArrayText(y, t)
  {
    if x != [] {
      Peel(",", ArrayText(x, s), ",", ArrayText(y, t));
    }
  }

  predicate PairwiseEquiv(x: seq<Member>, y: seq<Member>) {
    |x| == |y| && forall i | 0 <= i < |x| :: x[i].key == y[i].key && Equiv(x[i].value, y[i].value)
  }

  lemma PairwiseCons(x: seq<Member>, y: seq<Member>)
    requires x != [] && y != [] && x[0].key == y[0].key && Equiv(x[0].value, y[0].value)
    requires PairwiseEquiv(x[1..], y[1..])
    ensures PairwiseEquiv(x, y)
  {
    forall i | 1 <= i < |x| ensures x[i].key == y[i].key && Equiv(x[i].value, y[i].value) {
      assert x[i] == x[1..][i - 1] && y[i] == y[1..][i - 1];
    }
  }

  lemma NoFieldStartsWithBrace(m: Member, s: string, t: string)
    ensures Field(m) + s != "}" + t
  {
    assert (Field(m) + s)[0] != ("}" + t)[0];
  }

  lemma {:induction false} FieldsHaveOneReading(x: seq<Member>, s: string, y: seq<Member>, t: string, a: Json, b: Json)
    requires forall m | m in x :: m.value < a && WellFormed(m.value)
    requires forall m | m in y :: m.value < b && WellFormed(m.value)
    requires ObjectText(x, s) == ObjectText(y, t)
    ensures PairwiseEquiv(x, y) && s == t
    decreases a, 0, |x|
  {
    if x == [] && y == [] {
      Peel("}", s, "}", t);
    } else if x == [] {
      NoFieldStartsWithBrace(y[0], FieldsRest(y[1..], t), s);
    } else if y == [] {
      NoFieldStartsWithBrace(x[0], FieldsRest(x[1..], s), t);
    } else {
      FieldKeyHasOneReading(x[0], FieldsRest(x[1..], s), y[0], FieldsRest(y[1..], t));
      HasOneReading(x[0].value, FieldsRest(x[1..], s), y[0].value, FieldsRest(y[1..], t));
      FieldsRestHasOneText(x[1..], s, y[1..], t);
      FieldsHaveOneReading(x[1..], s, y[1..], t, a, b);
      PairwiseCons(x, y);
    }
  }

  lemma FieldsRestHasOneText(x: seq<Member>, s: string, y: seq<Member>, t: string)
    requires FieldsRest(x, s) == FieldsRest(y, t)
    ensures ObjectText(x, s) == ObjectText(y, t)
  {
    if x != [] {
      Peel(",", ObjectText(x, s), ",", ObjectText(y, t));
    }
  }

  lemma FieldUnfolds(m: Member, s: string)
    ensures Field(m) + s == "\"" + Unquoted(m.key, ":" + (Stringify(m.value) + s))
  {
    Bracketed(Quote(m.key), ":", Stringify(m.value), s);
    Bracketed("\"", EscapeAll(m.key), "\"", ":" + (Stringify(m.value) + s));
    assert Unquoted(m.key, ":" + (Stringify(m.value) + s)) == EscapeAll(m.key) + ("\"" + (":" + (Stringify(m.value) + s)));
  }

  lemma FieldTextsAgree(m: Member, s: string, n: Member, t: string)
    requires Field(m) + s == Field(n) + t
    ensures Unquoted(m.key, ":" + (Stringify(m.value) + s)) == Unquoted(n.key, ":" + (Stringify(n.value) + t))
  {
    FieldUnfolds(m, s);
    FieldUnfolds(n, t);
    Peel("\"", Unquoted(m.key, ":" + (Stringify(m.value) + s)), "\"", Unquoted(n.key, ":" + (Stringify(n.value) + t)));
  }

  lemma FieldKeyHasOneReading(m: Member, s: string, n: Member, t: string)
    requires Field(m) + s == Field(n) + t
    ensures m.key == n.key && Stringify(m.value) + s == Stringify(n.value) + t
  {
    FieldTextsAgree(m, s, n, t);
    QuoteHasOneReading(m.key, ":" + (Stringify(m.value) + s), n.key, ":" + (Stringify(n.value) + t));
    Peel(":", Stringify(m.value) + s, ":", Stringify(n.value) + t);
  }

  lemma KeyDeterminesIndex(x: seq<Member>, i: nat, j: nat)
    requires KeysRise(x) && i < |x| && j < |x| && x[i].key == x[j].key
    ensures i == j
  {
    BeforeIsIrreflexive(x[i].key);
  }

  lemma PairwiseHaveSameKeys(x: seq<Member>, y: seq<Member>)
    requires PairwiseEquiv(x, y)
    ensures Keys(x) == Keys(y)
  {
    forall k | k in Keys(x) ensures k in Keys(y) {
      var i :| 0 <= i < |x| && x[i].key == k;
      assert y[i] in y;
    }
    forall k | k in Keys(y) ensures k in Keys(x) {
      var i :| 0 <= i < |y| && y[i].key == k;
      assert x[i] in x;
    }
  }

  lemma PairwiseAgreeByKey(x: seq<Member>, y: seq<Member>, m: Member, n: Member)
    requires KeysRise(x) && PairwiseEquiv(x, y)
    requires m in x && n in y && m.key == n.key
    ensures Equiv(m.value, n.value)
  {
    var i :| 0 <= i < |x| && x[i] == m;
    var j :| 0 <= j < |y| && y[j] == n;
    KeyDeterminesIndex(x, i, j);
  }

  lemma SortKeepsKeys(x: seq<Member>)
    ensures Keys(SortByKey(x)) == Keys(x)
  {
  }

  lemma PairwiseIsEquiv(x: seq<Member>, y: seq<Member>)
    requires DistinctKeys(x) && PairwiseEquiv(SortByKey(x), SortByKey(y))
    ensures Equiv(Obj(x), Obj(y))
  {
    SortRises(x);
    SortKeepsKeys(x);
    SortKeepsKeys(y);
    PairwiseHaveSameKeys(SortByKey(x), SortByKey(y));
    forall m, n | m in x && n in y && m.key == n.key ensures Equiv(m.value, n.value) {
      PairwiseAgreeByKey(SortByKey(x), SortByKey(y), m, n);
    }
  }

  /** Two lists sorted by key, over the same keys, with equivalent values under each key. */
  predicate SameEntries(x: seq<Member>, y: seq<Member>) {
    && KeysRise(x) && KeysRise(y) && Keys(x) == Keys(y)
    && forall m, n | m in x && n in y && m.key == n.key :: Equiv(m.value, n.value)
  }

  lemma {:induction false} SortedListsAgree(x: seq<Member>, y: seq<Member>)
    requires SameEntries(x, y)
    ensures PairwiseEquiv(x, y)
    decreases |x|
  {
    assert x != [] ==> x[0].key in Keys(x);
    assert y != [] ==> y[0].key in Keys(y);
    if x != [] {
      LeastKeyIsFirst(x, y);
      TailsHaveSameEntries(x, y);
      SortedListsAgree(x[1..], y[1..]);
      PairwiseCons(x, y);
    }
  }

  lemma TailsHaveSameEntries(x: seq<Member>, y: seq<Member>)
    requires SameEntries(x, y) && x != [] && y != [] && x[0].key == y[0].key
    ensures SameEntries(x[1..], y[1..]) && Equiv(x[0].value, y[0].value)
  {
    TailKeys(x);
    TailKeys(y);
    assert x[0] in x && y[0] in y;
  }

  lemma LeastKeyIsFirst(x: seq<Member>, y: seq<Member>)
    requires KeysRise(x) && KeysRise(y) && Keys(x) == Keys(y) && x != [] && y != []
    ensures x[0].key == y[0].key
  {
    assert x[0].key in Keys(x) && y[0].key in Keys(y);
    var j :| 0 <= j < |y| && y[j].key == x[0].key;
    var i :| 0 <= i < |x| && x[i].key == y[0].key;
    BeforeIsAsymmetric(x[0].key, y[0].key);
  }

  lemma BeforeIsAsymmetric(a: string, b: string)
    ensures !(Before(a, b) && Before(b, a))
  {
    if Before(a, b) && Before(b, a) {
      BeforeIsTransitive(a, b, a);
      BeforeIsIrreflexive(a);
    }
  }

  lemma TailKeys(x: seq<Member>)
    requires KeysRise(x) && x != []
    ensures Keys(x[1..]) == Keys(x) - {x[0].key}
  {
    BeforeIsIrreflexive(x[0].key);
    assert x == [x[0]] + x[1..];
  }

  lemma {:induction false} BlindToOrder(a: Json, b: Json)
    requires WellFormed(a) && WellFormed(b) && Equiv(a, b)
    ensures Stringify(a) == Stringify(b)
    decreases a, 1, 0
  {
    match a
    case Arr(x) =>
      SameItems(x, b.items, a, b);
    case Obj(x) =>
      var x', y' := SortByKey(x), SortByKey(b.members);
      SortRises(x);
      SortRises(b.members);
      SortKeepsKeys(x);
      SortKeepsKeys(b.members);
      SortedListsAgree(x', y');
      SameFields(x', y', a, b);
    case _ =>
  }

  lemma {:induction false} SameItems(x: seq<Json>, y: seq<Json>, a: Json, b: Json)
    requires forall i | 0 <= i < |x| :: x[i] < a && WellFormed(x[i])
    requires forall i | 0 <= i < |y| :: y[i] < b && WellFormed(y[i])
    requires |x| == |y| && forall i | 0 <= i < |x| :: Equiv(x[i], y[i])
    ensures Items(x, a) == Items(y, b)
    decreases a, 0, |x|
  {
    if x != [] {
      BlindToOrder(x[0], y[0]);
      SameItems(x[1..], y[1..], a, b);
    }
  }

  lemma {:induction false} SameFields(x: seq<Member>, y: seq<Member>, a: Json, b: Json)
    requires forall m | m in x :: m.value < a && WellFormed(m.value)
    requires forall m | m in y :: m.value < b && WellFormed(m.value)
    requires PairwiseEquiv(x, y)
    ensures Fields(x, a) == Fields(y, b)
    decreases a, 0, |x|
  {
    if x != [] {
      BlindToOrder(x[0].value, y[0].value);
      SameFields(x[1..], y[1..], a, b);
    }
  }

  /** Same text, same value: `stableStringify` identifies JSON values exactly up to key order. */
  lemma StringifyIsExact(a: Json, b: Json)
    requires WellFormed(a) && WellFormed(b)
    ensures Stringify(a) == Stringify(b) <==> Equiv(a, b)
  {
    if Stringify(a) == Stringify(b) {
      HasOneReading(a, "", b, "");
    }
    if Equiv(a, b) {
      BlindToOrder(a, b);
    }
  }

  /* ---------- Evidence documents ---------- */

  datatype EvidenceDocument = EvidenceDocument(payload: Json, algorithm: string, value: string)

  function DigestPayload(sha256: string -> string, payload: Json): string {
    sha256(Stringify(payload))
  }

  function CreateEvidenceDocument(sha256: string -> string, payload: Json): EvidenceDocument {
    EvidenceDocument(payload, "sha256", DigestPayload(sha256, payload))
  }

  /** What JavaScript's `!value` is true of. */
  predicate Falsy(v: Json) {
    v == Null || v == Bool(false) || v == Num(0) || v == Str("")
  }

  lemma FalsyExactly(v: Json)
    ensures Falsy(v) <==>
      match v
      case Null => true
      case Bool(b) => !b
      case Num(n) => n == 0
      case Str(s) => s == ""
      case Arr(_) => false
      case Obj(_) => false
  {
  }

  predicate VerifyEvidenceDocument(sha256: string -> string, document: EvidenceDocument) {
    if Falsy(document.payload) then false
    else if document.algorithm != "sha256" then false
    else document.value == DigestPayload(sha256, document.payload)
  }

  /**
   A document re-read with its payload's keys in any order still verifies, unless the payload is one
   of the four falsy values; those documents never verify, not even as created.
   */
  lemma RereadDocumentVerifies(sha256: string -> string, payload: Json, reread: Json)
    requires WellFormed(payload) && WellFormed(reread) && Equiv(payload, reread)
    ensures VerifyEvidenceDocument(sha256, CreateEvidenceDocument(sha256, payload).(payload := reread))
            <==> !Falsy(payload)
  {
    StringifyIsExact(payload, reread);
  }

  /** A document of another algorithm, or with another digest than its payload's, is refused. */
  lemma VerifiedDocumentIsGenuine(sha256: string -> string, document: EvidenceDocument)
    requires VerifyEvidenceDocument(sha256, document)
    ensures document == CreateEvidenceDocument(sha256, document.payload)
    ensures document.algorithm == "sha256" && document.value == sha256(Stringify(document.payload))
  {
  }

  /** Any other payload passes under the same digest only with two texts that clash under SHA-256. */
  lemma AlteredDocumentNeedsClash(sha256: string -> string, payload: Json, other: Json)
    requires WellFormed(payload) && WellFormed(other) && !Equiv(payload, other)
    requires VerifyEvidenceDocument(sha256, CreateEvidenceDocument(sha256, payload).(payload := other))
    ensures Stringify(payload) != Stringify(other)
    ensures sha256(Stringify(payload)) == sha256(Stringify(other))
  {
    StringifyIsExact(payload, other);
  }
}
