/**
 The ECDSA signature codec of lib/aws-kms-provider.js: DER ECDSA-Sig-Value (section 2.2.3 of
 RFC 3279) to the 64-byte r || s form and back, over the DER rules of ITU-T X.690.
 */
module DerCodec {
  import opened Prelude

  type byte = b: int | 0 <= b < 0x100
  type bytes = seq<byte>

  datatype DerError =
    | MissingLength
    | InvalidLongFormLength
    | ExpectedSequence
    | SequenceLengthMismatch
    | ExpectedInteger
    | InvalidIntegerLength
    | NegativeInteger
    | InvalidIntegerPadding
    | TrailingData
    | WrongRawLength
    | BodyTooLong

  /* ---------- The format, stated without a parser ---------- */

  /** A length field: short form, or long form with one or two length bytes (X.690 section 8.1.3). */
  predicate LengthField(field: bytes, n: nat) {
    || (|field| == 1 && field[0] < 0x80 && field[0] == n)
    || (|field| == 2 && field[0] == 0x81 && field[1] == n)
    || (|field| == 3 && field[0] == 0x82 && (field[1] as int) * 0x100 + field[2] == n)
  }

  /** The contents of a non-negative INTEGER of at most 256 bits (X.690 section 8.3). */
  predicate UnsignedContent(c: bytes) {
    1 <= |c| <= 33 && c[0] < 0x80 && (|c| == 33 ==> c[0] == 0)
  }

  /** The parts of an encoded signature. */
  datatype Layout = Layout(seqLen: bytes, rLen: bytes, r: bytes, sLen: bytes, s: bytes)

  /** An INTEGER: tag, length field, contents. */
  function IntegerTlv(len: bytes, c: bytes): (tlv: bytes)
    ensures |tlv| == 1 + |len| + |c|
  {
    [0x02] + (len + c)
  }

  function Body(l: Layout): (b: bytes)
    ensures |b| == 2 + |l.rLen| + |l.r| + |l.sLen| + |l.s|
  {
    IntegerTlv(l.rLen, l.r) + IntegerTlv(l.sLen, l.s)
  }

  function Assemble(l: Layout): bytes {
    [0x30] + (l.seqLen + Body(l))
  }

  predicate WellFormed(l: Layout) {
    && LengthField(l.seqLen, |Body(l)|)
    && LengthField(l.rLen, |l.r|) && UnsignedContent(l.r)
    && LengthField(l.sLen, |l.s|) && UnsignedContent(l.s)
  }

  /** `x` is an encoding whose parts are `l`. */
  predicate IsLayout(x: bytes, l: Layout) {
    WellFormed(l) && x == Assemble(l)
  }

  /** No shorter contents octets would do: X.690 section 8.3.2. */
  predicate Minimal(c: bytes) {
    |c| >= 1 && (|c| > 1 && c[0] == 0 ==> c[1] >= 0x80)
  }

  /** Distinguished encoding: short-form lengths and minimal integers (X.690 section 10.1). */
  predicate Canonical(l: Layout) {
    |l.seqLen| == 1 && |l.rLen| == 1 && |l.sLen| == 1 && Minimal(l.r) && Minimal(l.s)
  }

  function BigEndian(b: bytes): nat {
    if b == [] then 0 else BigEndian(b[..|b| - 1]) * 0x100 + b[|b| - 1]
  }

  function Power256(n: nat): nat {
    if n == 0 then 1 else 0x100 * Power256(n - 1)
  }

  /** `n` bytes stand for a number below 256 to the n, and a leading byte weighs as much as all after it allow. */
  lemma {:induction false} BigEndianIsPositional(b: bytes)
    ensures BigEndian(b) < Power256(|b|)
    ensures b != [] ==> BigEndian(b) == b[0] * Power256(|b| - 1) + BigEndian(b[1..])
  {
    if b != [] {
      var n := |b| - 1;
      BigEndianIsPositional(b[..n]);
      if n > 0 {
        assert b[..n][1..] == b[1..][..n - 1] && b[..n][0] == b[0];
      } else {
        assert b[..n] == [] && b[1..] == [];
      }
    }
  }

  function Zeros(n: nat): (z: bytes)
    ensures |z| == n && forall i | 0 <= i < n :: z[i] == 0
  {
    seq(n, _ => 0)
  }

  /** The fixed-width form of an integer's contents. */
  function Pad32(c: bytes): (p: bytes)
    requires UnsignedContent(c)
    ensures |p| == 32
  {
    if |c| == 33 then c[1..] else Zeros(32 - |c|) + c
  }

  function Raw(l: Layout): (raw: bytes)
    requires WellFormed(l)
    ensures |raw| == 64
  {
    Pad32(l.r) + Pad32(l.s)
  }

  /* ---------- Decoding ---------- */

  /** The length field at offset `o`: its value and the offset after it. */
  function LengthAt(x: bytes, o: nat): (r: Result<(nat, nat), DerError>)
    ensures r.Ok? ==> o < r.value.1 <= |x|
  {
    if o >= |x| then Err(MissingLength)
    else if x[o] < 0x80 then Ok((x[o], o + 1))
    else
      var lengthBytes := x[o] - 0x80;
      if lengthBytes == 0 || lengthBytes > 2 || o + 1 + lengthBytes > |x| then Err(InvalidLongFormLength)
      else if lengthBytes == 1 then Ok((x[o + 1], o + 2))
      else Ok(((x[o + 1] as int) * 0x100 + x[o + 2], o + 3))
  }

  /** The INTEGER at offset `o`: its length field, its contents and the offset after it. */
  function IntAt(x: bytes, o: nat): (r: Result<(bytes, bytes, nat), DerError>)
    ensures r.Ok? ==> UnsignedContent(r.value.1) && o < r.value.2 <= |x|
  {
    if o >= |x| || x[o] != 0x02 then Err(ExpectedInteger)
    else
      match LengthAt(x, o + 1)
      case Err(e) => Err(e)
      case Ok((n, start)) =>
        if n < 1 || n > 33 || start + n > |x| then Err(InvalidIntegerLength)
        else if x[start] >= 0x80 then Err(NegativeInteger)
        else if n == 33 && x[start] != 0 then Err(InvalidIntegerPadding)
        else Ok((x[o + 1..start], x[start..start + n], start + n))
  }

  function Parse(x: bytes): Result<Layout, DerError> {
    if x == [] || x[0] != 0x30 then Err(ExpectedSequence)
    else
      match LengthAt(x, 1)
      case Err(e) => Err(e)
      case Ok((n, start)) =>
        if start + n != |x| then Err(SequenceLengthMismatch)
        else
          match IntAt(x, start)
          case Err(e) => Err(e)
          case Ok((rLen, r, middle)) =>
            match IntAt(x, middle)
            case Err(e) => Err(e)
            case Ok((sLen, s, end)) =>
              if end != |x| then Err(TrailingData)
              else Ok(Layout(x[1..start], rLen, r, sLen, s))
  }

  /** The decoder's buffer and the offset its closures advance. */
  class DerReader {
    const data: bytes
    var offset: nat

    constructor (data: bytes)
      ensures this.data == data && offset == 0
    {
      this.data := data;
      offset := 0;
    }

    method ReadLength() returns (r: Result<nat, DerError>)
      modifies this`offset
      ensures match LengthAt(data, old(offset))
              case Ok((n, next)) => r == Ok(n) && offset == next
              case Err(e) => r == Err(e)
    {
      if offset >= |data| {
        return Err(MissingLength);
      }
      var first := data[offset];
      offset := offset + 1;
      if first < 0x80 {
        return Ok(first);
      }
      var lengthBytes := first % 0x80;
      if lengthBytes == 0 || lengthBytes > 2 || offset + lengthBytes > |data| {
        return Err(InvalidLongFormLength);
      }
      var length: nat := 0;
      for index := 0 to lengthBytes
        invariant index == 0 ==> length == 0
        invariant index == 1 ==> length == data[offset]
        invariant index == 2 ==> length == (data[offset] as int) * 0x100 + data[offset + 1]
      {
        length := length * 0x100 + data[offset + index];
      }
      offset := offset + lengthBytes;
      return Ok(length);
    }

    method ReadInt(sequenceEnd: nat) returns (r: Result<bytes, DerError>)
      requires sequenceEnd == |data|
      modifies this`offset
      ensures match IntAt(data, old(offset))
              case Ok((_, c, next)) => r == Ok(Pad32(c)) && offset == next
              case Err(e) => r == Err(e)
    {
      ghost var at := offset;
      if offset >= |data| || data[offset] != 0x02 {
        return Err(ExpectedInteger);
      }
      offset := offset + 1;
      var len := ReadLength();
      if len.Err? {
        return Err(len.error);
      }
      var n := len.value;
      if n < 1 || n > 33 || offset + n > sequenceEnd {
        return Err(InvalidIntegerLength);
      }
      var content := data[offset..offset + n];
      ghost var first := data[offset];
      assert content[0] == first;
      offset := offset + n;
      if content[0] >= 0x80 {
        return Err(NegativeInteger);
      }
      if |content| == 33 {
        if content[0] != 0x00 {
          return Err(InvalidIntegerPadding);
        }
        assert IntAt(data, at).value.1 == content;
        return Ok(content[1..]);
      }
      assert IntAt(data, at).value.1 == content;
      return Ok(Zeros(32 - |content|) + content);
    }
  }

  method DecodeDerSignatureToRaw(derSignature: bytes) returns (result: Result<bytes, DerError>)
    ensures match Parse(derSignature)
            case Ok(l) => WellFormed(l) && result == Ok(Raw(l))
            case Err(e) => result == Err(e)
  {
    ParseSound(derSignature);
    var reader := new DerReader(derSignature);
    if reader.offset >= |derSignature| || derSignature[reader.offset] != 0x30 {
      return Err(ExpectedSequence);
    }
    reader.offset := reader.offset + 1;
    var sequenceLength := reader.ReadLength();
    if sequenceLength.Err? {
      return Err(sequenceLength.error);
    }
    var sequenceEnd := reader.offset + sequenceLength.value;
    if sequenceEnd != |derSignature| {
      return Err(SequenceLengthMismatch);
    }
    var r := reader.ReadInt(sequenceEnd);
    if r.Err? {
      return Err(r.error);
    }
    var s := reader.ReadInt(sequenceEnd);
    if s.Err? {
      return Err(s.error);
    }
    if reader.offset != sequenceEnd {
      return Err(TrailingData);
    }
    return Ok(r.value + s.value);
  }

  /* ---------- The decoder accepts exactly the format ---------- */

  lemma LengthAtSound(x: bytes, o: nat)
    requires LengthAt(x, o).Ok?
    ensures var (n, next) := LengthAt(x, o).value; LengthField(x[o..next], n)
  {
  }

  lemma LengthAtComplete(x: bytes, o: nat, field: bytes, n: nat)
    requires o + |field| <= |x| && x[o..o + |field|] == field && LengthField(field, n)
    ensures LengthAt(x, o) == Ok((n, o + |field|))
  {
    assert forall i | 0 <= i < |field| :: x[o + i] == field[i];
  }

  lemma TlvParts(len: bytes, c: bytes)
    ensures var t := IntegerTlv(len, c);
      t[0] == 0x02 && t[1..1 + |len|] == len && t[1 + |len|..1 + |len| + |c|] == c
  {
  }

  lemma ShortTlv(n: byte, c: bytes)
    ensures [0x02, n] + c == IntegerTlv([n], c)
  {
  }

  lemma SubSlice(x: bytes, o: nat, e: nat, i: nat, j: nat)
    requires i <= j <= e - o && e <= |x|
    ensures x[o + i..o + j] == x[o..e][i..j]
  {
    var a, b := x[o + i..o + j], x[o..e][i..j];
    forall k | 0 <= k < j - i ensures a[k] == b[k] {
      assert a[k] == x[o + i + k] && b[k] == x[o..e][i + k] == x[o + (i + k)];
    }
    assert a == b;
  }

  lemma Split(x: bytes, i: nat, j: nat, k: nat)
    requires i <= j <= k <= |x|
    ensures x[i..k] == x[i..j] + x[j..k]
  {
  }

  lemma IntAtSound(x: bytes, o: nat)
    requires IntAt(x, o).Ok?
    ensures var (len, c, next) := IntAt(x, o).value;
      LengthField(len, |c|) && x[o..next] == IntegerTlv(len, c)
  {
    LengthAtSound(x, o + 1);
    var (len, c, next) := IntAt(x, o).value;
    Split(x, o, o + 1, next);
    Split(x, o + 1, o + 1 + |len|, next);
    assert x[o..o + 1] == [0x02];
  }

  lemma IntSteps(x: bytes, o: nat, start: nat, end: nat, c: bytes)
    requires o < start < end <= |x| && x[o] == 0x02 && x[start..end] == c && UnsignedContent(c)
    requires LengthAt(x, o + 1) == Ok((end - start, start))
    ensures IntAt(x, o) == Ok((x[o + 1..start], c, end))
  {
    assert x[start] == c[0] && |c| == end - start;
  }

  lemma IntAtComplete(x: bytes, o: nat, end: nat, len: bytes, c: bytes)
    requires o <= end <= |x| && x[o..end] == IntegerTlv(len, c)
    requires LengthField(len, |c|) && UnsignedContent(c)
    ensures IntAt(x, o) == Ok((len, c, end))
  {
    assert |x[o..end]| == 1 + |len| + |c|;
    var start := o + 1 + |len|;
    TlvParts(len, c);
    SubSlice(x, o, end, 1, 1 + |len|);
    SubSlice(x, o, end, 1 + |len|, 1 + |len| + |c|);
    assert x[o] == x[o..end][0];
    assert x[o + 1..start] == len;
    assert x[start..end] == c;
    LengthAtComplete(x, o + 1, len, |c|);
    IntSteps(x, o, start, end, c);
  }

  /** Slices of `x` that are the parts of `l` put `x` together. */
  predicate CutInto(x: bytes, start: nat, middle: nat, l: Layout) {
    && 1 <= start <= middle <= |x|
    && x[..1] == [0x30] && x[1..start] == l.seqLen
    && x[start..middle] == IntegerTlv(l.rLen, l.r)
    && x[middle..|x|] == IntegerTlv(l.sLen, l.s)
  }

  lemma CutsAssemble(x: bytes, start: nat, middle: nat, l: Layout)
    requires CutInto(x, start, middle, l)
    ensures x == Assemble(l) && |Body(l)| == |x| - start
  {
    Split(x, 0, 1, |x|);
    Split(x, 1, start, |x|);
    Split(x, start, middle, |x|);
    assert x == x[0..|x|];
  }

  lemma AssembledCuts(l: Layout)
    ensures CutInto(Assemble(l), 1 + |l.seqLen|, 2 + |l.seqLen| + |l.rLen| + |l.r|, l)
  {
    var x, start := Assemble(l), 1 + |l.seqLen|;
    var middle := start + |IntegerTlv(l.rLen, l.r)|;
    assert x[1..|x|] == l.seqLen + Body(l);
    assert x[start..|x|] == Body(l) by {
      SubSlice(x, 1, |x|, |l.seqLen|, |x| - 1);
      assert (l.seqLen + Body(l))[|l.seqLen|..] == Body(l);
    }
    assert x[1..start] == l.seqLen by {
      SubSlice(x, 1, |x|, 0, |l.seqLen|);
    }
    SubSlice(x, start, |x|, 0, middle - start);
    SubSlice(x, start, |x|, middle - start, |x| - start);
    assert Body(l)[..middle - start] == IntegerTlv(l.rLen, l.r);
    assert Body(l)[middle - start..] == IntegerTlv(l.sLen, l.s);
  }

  lemma ParseSound(x: bytes)
    ensures var p := Parse(x); p.Ok? ==> IsLayout(x, p.value)
  {
    if Parse(x).Ok? {
      var l := Parse(x).value;
      var (n, start) := LengthAt(x, 1).value;
      var (rLen, r, middle) := IntAt(x, start).value;
      LengthAtSound(x, 1);
      IntAtSound(x, start);
      IntAtSound(x, middle);
      assert x[..1] == [0x30];
      CutsAssemble(x, start, middle, l);
    }
  }

  lemma ParseSteps(x: bytes, start: nat, middle: nat, l: Layout)
    requires 1 <= start <= middle <= |x| && x[0] == 0x30 && x[1..start] == l.seqLen
    requires LengthAt(x, 1) == Ok((|x| - start, start))
    requires IntAt(x, start) == Ok((l.rLen, l.r, middle))
    requires IntAt(x, middle) == Ok((l.sLen, l.s, |x|))
    ensures Parse(x) == Ok(l)
  {
  }

  lemma CutsParse(x: bytes, start: nat, middle: nat, l: Layout)
    requires CutInto(x, start, middle, l)
    requires LengthField(l.seqLen, |x| - start)
    requires LengthField(l.rLen, |l.r|) && UnsignedContent(l.r)
    requires LengthField(l.sLen, |l.s|) && UnsignedContent(l.s)
    ensures Parse(x) == Ok(l)
  {
    assert x[0] == x[..1][0];
    assert |x[1..start]| == |l.seqLen|;
    LengthAtComplete(x, 1, l.seqLen, |x| - start);
    IntAtComplete(x, start, middle, l.rLen, l.r);
    IntAtComplete(x, middle, |x|, l.sLen, l.s);
    ParseSteps(x, start, middle, l);
  }

  lemma ParseComplete(x: bytes, l: Layout)
    requires IsLayout(x, l)
    ensures Parse(x) == Ok(l)
  {
    AssembledCuts(l);
    CutsParse(x, 1 + |l.seqLen|, 2 + |l.seqLen| + |l.rLen| + |l.r|, l);
  }

  /** Acceptance is exactly the format, and an encoding has one reading. */
  lemma DecoderIsExact(x: bytes, l: Layout)
    ensures Parse(x) == Ok(l) <==> IsLayout(x, l)
  {
    ParseSound(x);
    if IsLayout(x, l) {
      ParseComplete(x, l);
    }
  }

  /* ---------- Encoding ---------- */

  function StripZeros(b: bytes): (t: bytes)
    requires b != []
    ensures 1 <= |t| <= |b| && b == Zeros(|b| - |t|) + t
  {
    if |b| > 1 && b[0] == 0 then
      var t := StripZeros(b[1..]);
      assert b == [b[0]] + b[1..] == Zeros(|b| - |t|) + t;
      t
    else b
  }

  /** Leading zeros go, and one comes back if the top bit would read as a sign. */
  function IntegerContent(b: bytes): (c: bytes)
    requires |b| == 32
    ensures UnsignedContent(c)
  {
    var t := StripZeros(b);
    if t[0] >= 0x80 then [0x00] + t else t
  }

  function SignatureLayout(raw: bytes): Layout
    requires |raw| == 64
  {
    var r, s := IntegerContent(raw[..32]), IntegerContent(raw[32..]);
    Layout([4 + |r| + |s|], [|r|], r, [|s|], s)
  }

  lemma StripStep(b: bytes, start: nat)
    requires start < |b| - 1 && b[start] == 0
    ensures StripZeros(b[start..]) == StripZeros(b[start + 1..])
  {
    assert b[start..][1..] == b[start + 1..];
  }

  method EncodeInteger(bytes32: bytes) returns (tlv: bytes)
    requires |bytes32| == 32
    ensures tlv == IntegerTlv([|IntegerContent(bytes32)|], IntegerContent(bytes32))
  {
    var start := 0;
    while start < |bytes32| - 1 && bytes32[start] == 0x00
      invariant 0 <= start < |bytes32|
      invariant StripZeros(bytes32[start..]) == StripZeros(bytes32)
    {
      StripStep(bytes32, start);
      start := start + 1;
    }
    var trimmed := bytes32[start..];
    if trimmed[0] >= 0x80 {
      trimmed := [0x00] + trimmed;
    }
    ShortTlv(|trimmed|, trimmed);
    tlv := [0x02, |trimmed|] + trimmed;
  }

  lemma ShortAssemble(n: byte, l: Layout)
    requires l.seqLen == [n]
    ensures [0x30, n] + Body(l) == Assemble(l)
  {
    var b := Body(l);
    assert [0x30, n] + b == [0x30] + ([n] + b);
  }

  /** Fails on a wrong size and on nothing else: the short-form limit is never exceeded. */
  method EncodeRawToDer(rawSignature: bytes) returns (result: Result<bytes, DerError>)
    ensures result == if |rawSignature| != 64 then Err(WrongRawLength)
                      else Ok(Assemble(SignatureLayout(rawSignature)))
  {
    if |rawSignature| != 64 {
      return Err(WrongRawLength);
    }
    var rEncoded := EncodeInteger(rawSignature[..32]);
    var sEncoded := EncodeInteger(rawSignature[32..]);
    var body := rEncoded + sEncoded;
    if |body| > 0x7f {
      return Err(BodyTooLong);
    }
    ShortAssemble(|body|, SignatureLayout(rawSignature));
    return Ok([0x30, |body|] + body);
  }

  /* ---------- Values ---------- */

  lemma {:induction false} LeadingZeros(n: nat, b: bytes)
    ensures BigEndian(Zeros(n) + b) == BigEndian(b)
    decreases n, |b|
  {
    var z := Zeros(n) + b;
    if b != [] {
      assert z[..|z| - 1] == Zeros(n) + b[..|b| - 1];
      LeadingZeros(n, b[..|b| - 1]);
    } else if n > 0 {
      assert z[..|z| - 1] == Zeros(n - 1) + b;
      LeadingZeros(n - 1, b);
    } else {
      assert z == b;
    }
  }

  /** Padding keeps the value of an integer. */
  lemma PadKeepsValue(c: bytes)
    requires UnsignedContent(c)
    ensures BigEndian(Pad32(c)) == BigEndian(c)
  {
    if |c| == 33 {
      assert c == Zeros(1) + c[1..];
      LeadingZeros(1, c[1..]);
    } else {
      LeadingZeros(32 - |c|, c);
    }
  }

  /** Fixed-width big-endian is injective. */
  lemma {:induction false} SameValueSameBytes(a: bytes, b: bytes)
    requires |a| == |b| && BigEndian(a) == BigEndian(b)
    ensures a == b
  {
    if a != [] {
      var n := |a| - 1;
      assert a[n] == b[n] && BigEndian(a[..n]) == BigEndian(b[..n]);
      SameValueSameBytes(a[..n], b[..n]);
      assert a == a[..n] + [a[n]] && b == b[..n] + [b[n]];
    }
  }

  /* ---------- Padding and trimming undo each other ---------- */

  lemma {:induction false} StripOfPadded(n: nat, t: bytes)
    requires t != [] && (|t| > 1 ==> t[0] != 0)
    ensures StripZeros(Zeros(n) + t) == t
  {
    if n == 0 {
      assert Zeros(n) + t == t;
    } else {
      assert (Zeros(n) + t)[1..] == Zeros(n - 1) + t;
      StripOfPadded(n - 1, t);
    }
  }

  lemma {:induction false} StripIsTight(b: bytes)
    requires b != []
    ensures var t := StripZeros(b); |t| > 1 ==> t[0] != 0
  {
    if |b| > 1 && b[0] == 0 {
      StripIsTight(b[1..]);
    }
  }

  lemma ZeroBefore(n: nat, t: bytes)
    ensures Zeros(n) + ([0x00] + t) == Zeros(n + 1) + t
  {
  }

  lemma PadOfContent(b: bytes)
    requires |b| == 32
    ensures Pad32(IntegerContent(b)) == b
    ensures Minimal(IntegerContent(b))
  {
    var t := StripZeros(b);
    StripIsTight(b);
    if t[0] >= 0x80 && |t| < 32 {
      ZeroBefore(31 - |t|, t);
    }
  }

  /** Minimal contents are the ones trimming gives back; any other contents it replaces. */
  lemma ContentOfPad(c: bytes)
    requires UnsignedContent(c)
    ensures IntegerContent(Pad32(c)) == c <==> Minimal(c)
  {
    PadOfContent(Pad32(c));
    if Minimal(c) {
      if |c| > 1 && c[0] == 0 {
        assert Pad32(c) == Zeros(33 - |c|) + c[1..];
        StripOfPadded(33 - |c|, c[1..]);
        assert c == [0x00] + c[1..];
      } else {
        assert Pad32(c) == Zeros(32 - |c|) + c;
        StripOfPadded(32 - |c|, c);
      }
    }
  }

  /* ---------- The codec's theorems ---------- */

  /** Every accepted buffer yields 64 bytes whose halves have the two encoded values. */
  lemma DecodeKeepsValues(x: bytes, l: Layout)
    requires Parse(x) == Ok(l)
    ensures WellFormed(l) && |Raw(l)| == 64
    ensures BigEndian(Raw(l)[..32]) == BigEndian(l.r)
    ensures BigEndian(Raw(l)[32..]) == BigEndian(l.s)
  {
    ParseSound(x);
    assert Raw(l)[..32] == Pad32(l.r) && Raw(l)[32..] == Pad32(l.s);
    PadKeepsValue(l.r);
    PadKeepsValue(l.s);
  }

  /** Encoding gives a canonical encoding of 8 to 72 bytes that decodes to the same 64 bytes. */
  lemma DecodeAfterEncode(raw: bytes)
    requires |raw| == 64
    ensures var x := Assemble(SignatureLayout(raw));
      && 8 <= |x| <= 72
      && Parse(x) == Ok(SignatureLayout(raw))
      && Canonical(SignatureLayout(raw))
      && WellFormed(SignatureLayout(raw)) && Raw(SignatureLayout(raw)) == raw
  {
    var l := SignatureLayout(raw);
    PadOfContent(raw[..32]);
    PadOfContent(raw[32..]);
    assert raw == raw[..32] + raw[32..];
    ParseComplete(Assemble(l), l);
  }

  /** A canonical layout has no freedom left: it is the one the encoder chooses. */
  lemma CanonicalIsChosen(l: Layout)
    requires WellFormed(l)
    ensures SignatureLayout(Raw(l)) == l <==> Canonical(l)
  {
    assert Raw(l)[..32] == Pad32(l.r) && Raw(l)[32..] == Pad32(l.s);
    ContentOfPad(l.r);
    ContentOfPad(l.s);
  }

  /** Re-encoding what was decoded gives the same bytes exactly when they were canonical. */
  lemma EncodeAfterDecode(x: bytes, l: Layout)
    requires Parse(x) == Ok(l)
    ensures WellFormed(l)
    ensures Assemble(SignatureLayout(Raw(l))) == x <==> Canonical(l)
  {
    ParseSound(x);
    CanonicalIsChosen(l);
    DecodeAfterEncode(Raw(l));
  }

  /** One canonical encoding per pair of integers: two of them with equal values are equal. */
  lemma CanonicalIsUnique(x: bytes, y: bytes, l: Layout, m: Layout)
    requires Parse(x) == Ok(l) && Canonical(l)
    requires Parse(y) == Ok(m) && Canonical(m)
    requires BigEndian(l.r) == BigEndian(m.r) && BigEndian(l.s) == BigEndian(m.s)
    ensures x == y
  {
    ParseSound(x);
    ParseSound(y);
    PadKeepsValue(l.r);
    PadKeepsValue(l.s);
    PadKeepsValue(m.r);
    PadKeepsValue(m.s);
    SameValueSameBytes(Pad32(l.r), Pad32(m.r));
    SameValueSameBytes(Pad32(l.s), Pad32(m.s));
    EncodeAfterDecode(x, l);
    EncodeAfterDecode(y, m);
  }
}
