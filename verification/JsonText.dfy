/**
 What the printer of scripts/run-verification-evidence-gate.js has to print: the JSON text of a value, as RFC
 8259 and the JavaScript language define it, stated apart from the printer.
 */
module JsonText {
  import opened JsonValue
  import opened StableStringify

  /* ---------- The order of keys ---------- */

  /** The UTF-16 code units of a character: itself, or a surrogate pair. */
  function UnitsOf(c: char): seq<int> {
    var n := c as int;
    if n < 0x10000 then [n] else [0xD800 + (n - 0x10000) / 0x400, 0xDC00 + (n - 0x10000) % 0x400]
  }

  function Units(s: string): seq<int> {
    if s == "" then [] else UnitsOf(s[0]) + Units(s[1..])
  }

  /** The first difference, if any, decides; a proper prefix comes first. */
  predicate LessAt(u: seq<int>, v: seq<int>, k: nat) {
    k <= |u| && k < |v| && u[..k] == v[..k] && (k == |u| || u[k] < v[k])
  }

  /** How `Array.prototype.sort` compares strings: by code units. */
  predicate UnitLess(a: string, b: string) {
    exists k | 0 <= k <= |Units(a)| :: LessAt(Units(a), Units(b), k)
  }

  predicate Less(u: seq<int>, v: seq<int>) {
    exists k | 0 <= k <= |u| :: LessAt(u, v, k)
  }

  lemma SameUpTo(u: seq<int>, v: seq<int>, k: nat)
    requires LessAt(u, v, k) && k > 0
    ensures u[0] == v[0]
  {
    assert u[..k][0] == v[..k][0];
  }

  lemma LessSteps(u: seq<int>, v: seq<int>)
    ensures v == [] ==> !Less(u, v)
    ensures u == [] && v != [] ==> Less(u, v)
    ensures u != [] && v != [] && u[0] != v[0] ==> (Less(u, v) <==> u[0] < v[0])
    ensures u != [] && v != [] && u[0] == v[0] ==> (Less(u, v) <==> Less(u[1..], v[1..]))
  {
    if u == [] && v != [] {
      assert LessAt(u, v, 0);
    }
    if u != [] && v != [] {
      if u[0] < v[0] {
        assert LessAt(u, v, 0);
      }
      if u[0] == v[0] {
        if Less(u, v) {
          var k :| 0 <= k <= |u| && LessAt(u, v, k);
          assert k > 0;
          assert u[1..][..k - 1] == u[..k][1..] && v[1..][..k - 1] == v[..k][1..];
          assert LessAt(u[1..], v[1..], k - 1);
        }
        if Less(u[1..], v[1..]) {
          var k :| 0 <= k <= |u[1..]| && LessAt(u[1..], v[1..], k);
          assert u[..k + 1] == [u[0]] + u[1..][..k] && v[..k + 1] == [v[0]] + v[1..][..k];
          assert LessAt(u, v, k + 1);
        }
      } else if Less(u, v) {
        var k :| 0 <= k <= |u| && LessAt(u, v, k);
        if k > 0 {
          SameUpTo(u, v, k);
        }
      }
    }
  }

  lemma SameCharFirst(c: char, u: seq<int>, v: seq<int>)
    ensures Less(UnitsOf(c) + u, UnitsOf(c) + v) <==> Less(u, v)
  {
    var p := UnitsOf(c);
    LessSteps(p + u, p + v);
    assert (p + u)[1..] == p[1..] + u && (p + v)[1..] == p[1..] + v;
    if |p| == 1 {
      assert p[1..] + u == u && p[1..] + v == v;
    } else {
      LessSteps(p[1..] + u, p[1..] + v);
      assert (p[1..] + u)[1..] == u && (p[1..] + v)[1..] == v;
    }
  }

  lemma OtherCharFirst(c: char, d: char, u: seq<int>, v: seq<int>)
    requires c != d
    ensures Less(UnitsOf(c) + u, UnitsOf(d) + v) <==> CodeUnitKey(c) < CodeUnitKey(d)
  {
    var p, q := UnitsOf(c), UnitsOf(d);
    LessSteps(p + u, q + v);
    if p[0] == q[0] {
      assert |p| == |q| == 2 && p[1] != q[1];
      LessSteps((p + u)[1..], (q + v)[1..]);
    }
  }

  /** The printer's comparison of keys is the comparison of their code units. */
  lemma {:induction false} BeforeIsUnitOrder(a: string, b: string)
    ensures Before(a, b) <==> UnitLess(a, b)
  {
    LessSteps(Units(a), Units(b));
    if a != "" && b != "" {
      if a[0] == b[0] {
        BeforeIsUnitOrder(a[1..], b[1..]);
        SameCharFirst(a[0], Units(a[1..]), Units(b[1..]));
      } else {
        OtherCharFirst(a[0], b[0], Units(a[1..]), Units(b[1..]));
      }
    }
  }

  /** The keys of a printed object rise in code unit order, and each keeps its value. */
  lemma KeysPrintInOrder(members: seq<Member>)
    requires DistinctKeys(members)
    ensures var sorted := SortByKey(members);
      && multiset(sorted) == multiset(members)
      && forall i, j | 0 <= i < j < |sorted| :: UnitLess(sorted[i].key, sorted[j].key)
  {
    SortRises(members);
    var sorted := SortByKey(members);
    forall i, j | 0 <= i < j < |sorted| ensures UnitLess(sorted[i].key, sorted[j].key) {
      BeforeIsUnitOrder(sorted[i].key, sorted[j].key);
    }
  }

  /* ---------- The text of a value ---------- */

  /** Sections 6 and 7 of RFC 8259 give some characters a two-character escape. */
  predicate IsShortEscape(e: char, c: char) {
    var n := c as int;
    || (e == '"' && n == 0x22) || (e == '\\' && n == 0x5C) || (e == '/' && n == 0x2F)
    || (e == 'b' && n == 0x08) || (e == 'f' && n == 0x0C) || (e == 'n' && n == 0x0A)
    || (e == 'r' && n == 0x0D) || (e == 't' && n == 0x09)
  }

  predicate IsHex(c: char) {
    '0' <= c <= '9' || 'a' <= c <= 'f'
  }

  function HexOf(s: string): int
    requires forall i | 0 <= i < |s| :: IsHex(s[i])
  {
    if s == "" then 0
    else
      var last := s[|s| - 1];
      16 * HexOf(s[..|s| - 1]) + if last <= '9' then last as int - 0x30 else last as int - 0x61 + 10
  }

  /** `p` is a way to write the character inside a JSON string, hexadecimal digits in lower case. */
  predicate IsCharText(p: string, c: char) {
    || (p == [c] && c as int >= 0x20 && c != '"' && c != '\\')
    || (|p| == 2 && p[0] == '\\' && IsShortEscape(p[1], c))
    || (|p| == 6 && p[0] == '\\' && p[1] == 'u' && (forall i | 2 <= i < 6 :: IsHex(p[i])) && HexOf(p[2..]) == c as int)
  }

  /** And the shortest one. */
  ghost predicate IsShortest(p: string, c: char) {
    IsCharText(p, c) && forall q | IsCharText(q, c) :: |p| <= |q|
  }

  ghost predicate IsBody(t: string, s: string) {
    if s == "" then t == ""
    else exists n: nat | n <= |t| :: IsShortest(t[..n], s[0]) && IsBody(t[n..], s[1..])
  }

  ghost predicate IsString(t: string, s: string) {
    |t| >= 2 && t[0] == '"' && t[|t| - 1] == '"' && IsBody(t[1..|t| - 1], s)
  }

  /** Decimal digits, without a leading zero unless the number is zero. */
  predicate IsNatural(t: string, n: nat) {
    && t != "" && (forall i | 0 <= i < |t| :: '0' <= t[i] <= '9')
    && (t[0] == '0' ==> t == "0") && DecimalOf(t) == n
  }

  function DecimalOf(t: string): int {
    if t == "" then 0 else 10 * DecimalOf(t[..|t| - 1]) + (t[|t| - 1] as int - 0x30)
  }

  predicate IsInteger(t: string, n: int) {
    if n < 0 then t != "" && t[0] == '-' && IsNatural(t[1..], -n) else IsNatural(t, n)
  }

  /** `t` is a comma-separated list of exactly these pieces. */
  predicate IsList(t: string, parts: seq<string>) {
    if parts == [] then t == ""
    else if |parts| == 1 then t == parts[0]
    else
      var n := |parts| - 1;
      var last := parts[n];
      && |t| > |last| && t[|t| - |last|..] == last && t[|t| - |last| - 1] == ','
      && IsList(t[..|t| - |last| - 1], parts[..n])
  }

  predicate IsBracketed(t: string, open: char, parts: seq<string>, close: char) {
    |t| >= 2 && t[0] == open && t[|t| - 1] == close && IsList(t[1..|t| - 1], parts)
  }

  /** `t` is the text of `v`: no white space, shortest escapes, members in the order of their keys. */
  ghost predicate IsText(t: string, v: Json)
    decreases v, 0
  {
    match v
    case Null => t == "null"
    case Bool(b) => t == if b then "true" else "false"
    case Num(n) => IsInteger(t, n)
    case Str(s) => IsString(t, s)
    case Arr(items) =>
      exists parts: seq<string> | |parts| == |items| ::
        IsBracketed(t, '[', parts, ']') && forall i | 0 <= i < |items| :: IsText(parts[i], items[i])
    case Obj(members) =>
      var sorted := SortByKey(members);
      exists parts: seq<string> | |parts| == |sorted| ::
        && IsBracketed(t, '{', parts, '}')
        && forall i | 0 <= i < |sorted| ::
             sorted[i] in members && IsMember(parts[i], sorted[i])
  }

  ghost predicate IsMember(t: string, m: Member)
    decreases m.value, 1
  {
    exists k | 0 <= k < |t| :: t[k] == ':' && IsString(t[..k], m.key) && IsText(t[k + 1..], m.value)
  }

  /* ---------- The printer prints it ---------- */

  lemma HexPair(c: char)
    requires c as int < 0x20
    ensures HexOf("00" + [HexDigit(c as int / 16), HexDigit(c as int % 16)]) == c as int
  {
    var x, y := HexDigit(c as int / 16), HexDigit(c as int % 16);
    var s := "00" + [x, y];
    assert s[..3] == "00" + [x] && s[..3][..2] == "00" && s[..3][..2][..1] == "0" && s[..3][..2][..1][..0] == "";
    assert HexOf("00") == 0;
  }

  lemma EscapeIsShortest(c: char)
    ensures IsShortest(EscapeChar(c), c)
  {
    var p := EscapeChar(c);
    if |p| == 6 {
      HexPair(c);
      assert p[2..] == "00" + [HexDigit(c as int / 16), HexDigit(c as int % 16)];
    }
    assert IsCharText(p, c);
  }

  lemma {:induction false} BodyIsPrinted(s: string)
    ensures IsBody(EscapeAll(s), s)
  {
    if s != "" {
      var p, t := EscapeChar(s[0]), EscapeAll(s);
      EscapeIsShortest(s[0]);
      BodyIsPrinted(s[1..]);
      assert t[..|p|] == p && t[|p|..] == EscapeAll(s[1..]);
    }
  }

  lemma StringIsPrinted(s: string)
    ensures IsString(Quote(s), s)
  {
    BodyIsPrinted(s);
    var t := Quote(s);
    assert t[1..|t| - 1] == EscapeAll(s);
  }

  lemma {:induction false} NaturalIsPrinted(n: nat)
    ensures IsNatural(Digits(n), n)
  {
    var d := Digits(n);
    if n >= 10 {
      NaturalIsPrinted(n / 10);
      assert d[..|d| - 1] == Digits(n / 10) && d[0] == Digits(n / 10)[0];
      assert DecimalOf(Digits(n / 10)) == n / 10;
      assert DecimalOf("0") == 0;
    } else {
      assert d[..0] == "" && |d| == 1;
    }
  }

  lemma {:induction false} JoinFromTheBack(parts: seq<string>)
    requires |parts| >= 2
    ensures Join(parts) == Join(parts[..|parts| - 1]) + ("," + parts[|parts| - 1])
  {
    var n := |parts| - 1;
    if n == 1 {
      assert parts[1..] == [parts[1]] && parts[..1] == [parts[0]];
    } else {
      JoinFromTheBack(parts[1..]);
      assert parts[1..][..n - 1] == parts[..n][1..];
    }
  }

  lemma {:induction false} ListIsPrinted(parts: seq<string>)
    ensures IsList(Join(parts), parts)
  {
    if |parts| >= 2 {
      var n := |parts| - 1;
      JoinFromTheBack(parts);
      ListIsPrinted(parts[..n]);
      var t, last := Join(parts), parts[n];
      assert t[..|t| - |last| - 1] == Join(parts[..n]);
    }
  }

  lemma BracketsArePrinted(t: string, open: string, parts: seq<string>, close: string)
    requires |open| == |close| == 1 && t == open + Join(parts) + close
    ensures IsBracketed(t, open[0], parts, close[0])
  {
    ListIsPrinted(parts);
    assert t[1..|t| - 1] == Join(parts);
  }

  lemma {:induction false} ItemsArePrinted(items: seq<Json>, whole: Json)
    requires forall i | 0 <= i < |items| :: items[i] < whole
    ensures forall i | 0 <= i < |items| :: Items(items, whole)[i] == Stringify(items[i])
    decreases |items|
  {
    if items != [] {
      ItemsArePrinted(items[1..], whole);
    }
  }

  lemma {:induction false} FieldsArePrinted(members: seq<Member>, whole: Json)
    requires forall m | m in members :: m.value < whole
    ensures forall i | 0 <= i < |members| :: Fields(members, whole)[i] == Field(members[i])
    decreases |members|
  {
    if members != [] {
      FieldsArePrinted(members[1..], whole);
    }
  }

  lemma MemberIsPrinted(m: Member)
    requires IsText(Stringify(m.value), m.value)
    ensures IsMember(Field(m), m)
  {
    var key, t := Quote(m.key), Field(m);
    StringIsPrinted(m.key);
    assert t[..|key|] == key && t[|key| + 1..] == Stringify(m.value);
  }

  lemma ArrayIsPrinted(v: Json)
    requires v.Arr? && forall i | 0 <= i < |v.items| :: IsText(Stringify(v.items[i]), v.items[i])
    ensures IsText(Stringify(v), v)
  {
    var parts := Items(v.items, v);
    BracketsArePrinted(Stringify(v), "[", parts, "]");
    ItemsArePrinted(v.items, v);
    assert forall i | 0 <= i < |v.items| :: IsText(parts[i], v.items[i]);
  }

  lemma ObjectIsPrinted(v: Json)
    requires v.Obj? && forall m | m in v.members :: IsText(Stringify(m.value), m.value)
    ensures IsText(Stringify(v), v)
  {
    var sorted := SortByKey(v.members);
    var parts := Fields(sorted, v);
    BracketsArePrinted(Stringify(v), "{", parts, "}");
    FieldsArePrinted(sorted, v);
    forall i | 0 <= i < |sorted| ensures sorted[i] in v.members && IsMember(parts[i], sorted[i]) {
      assert sorted[i] in v.members;
      MemberIsPrinted(sorted[i]);
    }
  }

  /** The printer prints the text of every value. */
  lemma {:induction false} PrintsText(v: Json)
    ensures IsText(Stringify(v), v)
    decreases v
  {
    match v
    case Num(n) =>
      NaturalIsPrinted(if n < 0 then -n else n);
    case Str(s) =>
      StringIsPrinted(s);
    case Arr(items) =>
      forall i | 0 <= i < |items| ensures IsText(Stringify(items[i]), items[i]) {
        PrintsText(items[i]);
      }
      ArrayIsPrinted(v);
    case Obj(members) =>
      forall m | m in members ensures IsText(Stringify(m.value), m.value) {
        PrintsText(m.value);
      }
      ObjectIsPrinted(v);
    case _ =>
  }
}
