/** The JavaScript string tests the modelled code relies on. */
module JsText {
  /** White space and line terminators: what `trim` removes and `\s` matches. */
  predicate IsSpace(c: char) {
    var n := c as int;
    || 9 <= n <= 13 || n == 0x20 || n == 0xA0 || n == 0x1680 || 0x2000 <= n <= 0x200A
    || n == 0x2028 || n == 0x2029 || n == 0x202F || n == 0x205F || n == 0x3000 || n == 0xFEFF
  }

  /** What a regular expression's `.` does not match. */
  predicate IsLineTerminator(c: char) {
    var n := c as int;
    n == 10 || n == 13 || n == 0x2028 || n == 0x2029
  }

  predicate HasTerminator(s: string) {
    exists i | 0 <= i < |s| :: IsLineTerminator(s[i])
  }

  /** Letter case as a case-insensitive pattern over ASCII letters ignores it. */
  function Lower(c: char): char {
    if 'A' <= c <= 'Z' then c - 'A' + 'a' else c
  }

  function TrimStart(s: string): (t: string)
    ensures |t| <= |s|
    ensures t != "" ==> !IsSpace(t[0])
  {
    if s == "" || !IsSpace(s[0]) then s else TrimStart(s[1..])
  }

  function TrimEnd(s: string): (t: string)
    ensures t <= s
    ensures t != "" ==> !IsSpace(t[|t| - 1])
  {
    if s == "" || !IsSpace(s[|s| - 1]) then s else TrimEnd(s[..|s| - 1])
  }

  function Trim(s: string): string {
    TrimStart(TrimEnd(s))
  }

  /** `c.repeat(n)`. */
  function Repeat(c: char, n: nat): (s: string)
    ensures |s| == n && forall i | 0 <= i < n :: s[i] == c
  {
    if n == 0 then "" else Repeat(c, n - 1) + [c]
  }

  predicate IsLowerHex(c: char) {
    '0' <= c <= '9' || 'a' <= c <= 'f'
  }

  /** `/^[0-9a-f]{64}$/`. */
  predicate IsDigestHex(s: string) {
    |s| == 64 && forall i | 0 <= i < 64 :: IsLowerHex(s[i])
  }

  /** The UUID pattern, case-insensitive. */
  predicate IsUuid(s: string) {
    && |s| == 36
    && forall i | 0 <= i < 36 ::
         if i in {8, 13, 18, 23} then s[i] == '-' else IsLowerHex(s[i]) || 'A' <= s[i] <= 'F'
  }

  /* ---------- The tables behind the tests ---------- */

  /** The white space and line terminators of the JavaScript language, one by one. */
  lemma SpacesAreListed(c: char)
    ensures IsSpace(c) <==> c as int in {
      0x0009, 0x000A, 0x000B, 0x000C, 0x000D, 0x0020, 0x00A0, 0x1680, 0x2000, 0x2001, 0x2002, 0x2003, 0x2004, 0x2005,
      0x2006, 0x2007, 0x2008, 0x2009, 0x200A, 0x2028, 0x2029, 0x202F, 0x205F, 0x3000, 0xFEFF}
    ensures IsLineTerminator(c) <==> c as int in {0x000A, 0x000D, 0x2028, 0x2029}
    ensures IsLineTerminator(c) ==> IsSpace(c)
  {
  }

  /** Digits and the letters from a to f, in lower case; a UUID takes them in either case, with four hyphens. */
  lemma HexIsListed(c: char)
    ensures IsLowerHex(c) <==> 0x30 <= c as int <= 0x39 || 0x61 <= c as int <= 0x66
  {
  }

  lemma UuidIsHex(s: string)
    ensures IsUuid(s) <==>
      && |s| == 36 && s[8] == s[13] == s[18] == s[23] == '-'
      && forall i | 0 <= i < 36 && i != 8 && i != 13 && i != 18 && i != 23 ::
           0x30 <= s[i] as int <= 0x39 || 0x41 <= s[i] as int <= 0x46 || 0x61 <= s[i] as int <= 0x66
  {
  }
}
