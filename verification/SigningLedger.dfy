/**
 The hash-chained signing ledger of lib/pg-signing-logger.js: the scan that verifies a chain, and
 what an accepted chain is worth to an auditor.
 */
module SigningLedger {
  import opened Prelude
  import opened JsonValue
  import opened JsText

  /* ---------- Rows and hashes ---------- */

  /** What `computeRowHash` hashes. The sequence number is deliberately not part of it. */
  datatype HashInput = HashInput(
    eventId: string, eventType: string, payload: Json, signature: string, previousHash: string)

  datatype Row = Row(
    sequence: nat, eventId: string, eventType: string, payload: Json, signature: string,
    previousHash: string, rowHash: string, createdAt: int)

  /** Canonicalization and SHA-256 stay abstract: every result below holds for any two functions. */
  datatype Hasher = Hasher(canonicalize: HashInput -> string, sha256: string -> string)

  const GENESIS_HASH: string := Repeat('0', 64)

  /** The event type of the rows that record stored evidence. */
  const EVIDENCE_STORED: string := "evidence.stored"

  function RowHash(h: Hasher, input: HashInput): string {
    h.sha256(h.canonicalize(input))
  }

  function Hashed(row: Row): HashInput {
    HashInput(row.eventId, row.eventType, row.payload, row.signature, row.previousHash)
  }

  /* ---------- The chain, stated row by row ---------- */

  function HashBefore(rows: seq<Row>, i: nat): string
    requires i <= |rows|
  {
    if i == 0 then GENESIS_HASH else rows[i - 1].rowHash
  }

  function LastHash(rows: seq<Row>): string {
    HashBefore(rows, |rows|)
  }

  predicate LinkOk(rows: seq<Row>, i: nat)
    requires i < |rows|
  {
    rows[i].previousHash == HashBefore(rows, i)
  }

  predicate ContentOk(h: Hasher, rows: seq<Row>, i: nat)
    requires i < |rows|
  {
    RowHash(h, Hashed(rows[i])) == rows[i].rowHash
  }

  /** Every row names its predecessor's hash and carries the hash of its own content. */
  predicate IsChain(h: Hasher, rows: seq<Row>) {
    forall i | 0 <= i < |rows| :: LinkOk(rows, i) && ContentOk(h, rows, i)
  }

  /* ---------- The verifier ---------- */

  datatype Reason = LinkMismatch(expected: string, found: string) | ContentMismatch

  datatype Integrity =
    | Valid(totalEvents: nat, lastHash: string)
    | Invalid(reason: Reason, failedAtSequence: nat)

  /** Row `i` is the first one that breaks the chain. */
  predicate FirstBreak(h: Hasher, rows: seq<Row>, i: nat) {
    i < |rows| && IsChain(h, rows[..i]) && !(LinkOk(rows, i) && ContentOk(h, rows, i))
  }

  /** What is said about a first broken row: a bad link is reported before bad content. */
  predicate ReportsBreak(rows: seq<Row>, i: nat, r: Integrity)
    requires i < |rows|
  {
    && r.Invalid?
    && r.failedAtSequence == rows[i].sequence
    && r.reason == if LinkOk(rows, i) then ContentMismatch
                   else LinkMismatch(HashBefore(rows, i), rows[i].previousHash)
  }

  /** The exact meaning of a verification result. */
  predicate Describes(h: Hasher, rows: seq<Row>, r: Integrity) {
    && (r.Valid? ==> IsChain(h, rows) && r == Valid(|rows|, LastHash(rows)))
    && (r.Invalid? ==> exists i | 0 <= i < |rows| :: FirstBreak(h, rows, i) && ReportsBreak(rows, i, r))
  }

  method VerifySigningEventRows(h: Hasher, rows: seq<Row>) returns (r: Integrity)
    ensures Describes(h, rows, r)
    ensures r.Valid? <==> IsChain(h, rows)
  {
    var expectedPreviousHash := GENESIS_HASH;
    for i := 0 to |rows|
      invariant expectedPreviousHash == HashBefore(rows, i)
      invariant forall j | 0 <= j < i :: LinkOk(rows, j) && ContentOk(h, rows, j)
    {
      var row := rows[i];
      PrefixOfPartialChain(h, rows, i);
      if row.previousHash != expectedPreviousHash {
        assert FirstBreak(h, rows, i);
        return Invalid(LinkMismatch(expectedPreviousHash, row.previousHash), row.sequence);
      }
      if RowHash(h, Hashed(row)) != row.rowHash {
        assert FirstBreak(h, rows, i);
        return Invalid(ContentMismatch, row.sequence);
      }
      expectedPreviousHash := row.rowHash;
    }
    return Valid(|rows|, expectedPreviousHash);
  }

  lemma PrefixOfPartialChain(h: Hasher, rows: seq<Row>, n: nat)
    requires n <= |rows|
    requires forall j | 0 <= j < n :: LinkOk(rows, j) && ContentOk(h, rows, j)
    ensures IsChain(h, rows[..n])
  {
    forall j | 0 <= j < n ensures LinkOk(rows[..n], j) && ContentOk(h, rows[..n], j) {
      assert LinkOk(rows, j) && ContentOk(h, rows, j);
    }
  }

  /** `Describes` leaves no freedom: two results that describe the same rows are equal. */
  lemma DescribesIsFunctional(h: Hasher, rows: seq<Row>, r: Integrity, r': Integrity)
    requires Describes(h, rows, r) && Describes(h, rows, r')
    ensures r == r'
  {
    ChainHasNoBreak(h, rows);
    if r.Invalid? && r'.Invalid? {
      var i :| 0 <= i < |rows| && FirstBreak(h, rows, i) && ReportsBreak(rows, i, r);
      var j :| 0 <= j < |rows| && FirstBreak(h, rows, j) && ReportsBreak(rows, j, r');
      OneFirstBreak(h, rows, i, j);
    }
  }

  lemma OneFirstBreak(h: Hasher, rows: seq<Row>, i: nat, j: nat)
    requires FirstBreak(h, rows, i) && FirstBreak(h, rows, j)
    ensures i == j
  {
    ChainHasNoBreakBelow(h, rows, i);
    ChainHasNoBreakBelow(h, rows, j);
  }

  lemma ChainHasNoBreakBelow(h: Hasher, rows: seq<Row>, n: nat)
    requires n <= |rows| && IsChain(h, rows[..n])
    ensures forall i | 0 <= i < n :: !FirstBreak(h, rows, i)
  {
    forall i | 0 <= i < n ensures !FirstBreak(h, rows, i) {
      assert LinkOk(rows[..n], i) && ContentOk(h, rows[..n], i);
      assert LinkOk(rows, i) && ContentOk(h, rows, i);
    }
  }

  lemma ChainHasNoBreak(h: Hasher, rows: seq<Row>)
    ensures IsChain(h, rows) ==> forall i | 0 <= i < |rows| :: !FirstBreak(h, rows, i)
  {
    if IsChain(h, rows) {
      assert rows[..|rows|] == rows;
      ChainHasNoBreakBelow(h, rows, |rows|);
    }
  }

  /* ---------- Tamper evidence ---------- */

  /** Something nobody is supposed to be able to exhibit. */
  datatype Forgery =
    | CanonicalClash(x: HashInput, y: HashInput)   // two inputs with one canonical text
    | DigestClash(s: string, t: string)            // two texts with one SHA-256 digest
    | GenesisPreimage(z: HashInput)                // an input hashing to 64 zeros

  predicate Genuine(h: Hasher, f: Forgery) {
    match f
    case CanonicalClash(x, y) => x != y && h.canonicalize(x) == h.canonicalize(y)
    case DigestClash(s, t) => s != t && h.sha256(s) == h.sha256(t)
    case GenesisPreimage(z) => RowHash(h, z) == GENESIS_HASH
  }

  /** Equal in everything but the sequence number and the time, which are not hashed. */
  predicate SameEvent(x: Row, y: Row) {
    && x.eventId == y.eventId && x.eventType == y.eventType && x.payload == y.payload && x.signature == y.signature
    && x.previousHash == y.previousHash && x.rowHash == y.rowHash
  }

  /** Two ledgers tell the same story, row by row. */
  predicate SameHistory(a: seq<Row>, b: seq<Row>) {
    |a| == |b| && forall i | 0 <= i < |a| :: SameEvent(a[i], b[i])
  }

  /** Walks two ledgers back from their heads and returns the forgery that explains a difference. */
  function FindForgery(h: Hasher, a: seq<Row>, b: seq<Row>): Option<Forgery>
    decreases |a| + |b|
  {
    if |a| == 0 && |b| == 0 then None
    else if |a| == 0 then Some(GenesisPreimage(Hashed(b[|b| - 1])))
    else if |b| == 0 then Some(GenesisPreimage(Hashed(a[|a| - 1])))
    else
      var x, y := Hashed(a[|a| - 1]), Hashed(b[|b| - 1]);
      if x == y then FindForgery(h, a[..|a| - 1], b[..|b| - 1])
      else if h.canonicalize(x) == h.canonicalize(y) then Some(CanonicalClash(x, y))
      else Some(DigestClash(h.canonicalize(x), h.canonicalize(y)))
  }

  lemma PrefixIsChain(h: Hasher, rows: seq<Row>, n: nat)
    requires IsChain(h, rows) && n <= |rows|
    ensures IsChain(h, rows[..n])
  {
    PrefixOfPartialChain(h, rows, n);
  }

  /** Equal heads mean equal histories, unless a genuine forgery can be computed from the two. */
  lemma {:induction false} TamperEvidence(h: Hasher, a: seq<Row>, b: seq<Row>)
    requires IsChain(h, a) && IsChain(h, b)
    requires LastHash(a) == LastHash(b)
    ensures var f := FindForgery(h, a, b);
      if f.Some? then Genuine(h, f.value) else SameHistory(a, b)
    decreases |a| + |b|
  {
    if |a| > 0 {
      assert LinkOk(a, |a| - 1) && ContentOk(h, a, |a| - 1);
    }
    if |b| > 0 {
      assert LinkOk(b, |b| - 1) && ContentOk(h, b, |b| - 1);
    }
    if |a| > 0 && |b| > 0 && Hashed(a[|a| - 1]) == Hashed(b[|b| - 1]) {
      var a', b' := a[..|a| - 1], b[..|b| - 1];
      PrefixIsChain(h, a, |a| - 1);
      PrefixIsChain(h, b, |b| - 1);
      TamperEvidence(h, a', b');
      if FindForgery(h, a', b').None? {
        forall i | 0 <= i < |a| ensures SameEvent(a[i], b[i]) {
          if i < |a| - 1 {
            assert a[i] == a'[i] && b[i] == b'[i] && SameEvent(a'[i], b'[i]);
          }
        }
      }
    }
  }

  /* ---------- One altered row ---------- */

  lemma OthersStayOk(h: Hasher, rows: seq<Row>, i: nat, altered: Row, j: nat)
    requires IsChain(h, rows) && i < |rows| && j < |rows| && j != i && altered.rowHash == rows[i].rowHash
    ensures LinkOk(rows[i := altered], j) && ContentOk(h, rows[i := altered], j)
  {
    assert LinkOk(rows, j) && ContentOk(h, rows, j);
    assert HashBefore(rows[i := altered], j) == HashBefore(rows, j);
  }

  /**
   One row of an accepted ledger is altered in any way that leaves its stored hash alone. The scan reports
   that very row, its link first, unless the row hashes to the stored value as it now stands.
   */
  lemma AlteredRowIsReported(h: Hasher, rows: seq<Row>, i: nat, altered: Row, r: Integrity)
    requires IsChain(h, rows) && i < |rows| && altered.rowHash == rows[i].rowHash
    requires Describes(h, rows[i := altered], r)
    ensures
      if altered.previousHash != rows[i].previousHash then
        r == Invalid(LinkMismatch(rows[i].previousHash, altered.previousHash), altered.sequence)
      else if h.sha256(h.canonicalize(HashInput(
          altered.eventId, altered.eventType, altered.payload, altered.signature, altered.previousHash))) != altered.rowHash then
        r == Invalid(ContentMismatch, altered.sequence)
      else r == Valid(|rows|, LastHash(rows))
  {
    var now := rows[i := altered];
    assert LinkOk(rows, i) && ContentOk(h, rows, i);
    forall j | 0 <= j < |rows| && j != i ensures LinkOk(now, j) && ContentOk(h, now, j) {
      OthersStayOk(h, rows, i, altered, j);
    }
    assert HashBefore(now, i) == HashBefore(rows, i);
    PrefixOfPartialChain(h, now, i);
    ChainHasNoBreak(h, now);
    ChainHasNoBreakBelow(h, now, i);
    assert r.Valid? ==> LinkOk(now, i) && ContentOk(h, now, i);
    if r.Invalid? {
      var j :| 0 <= j < |now| && FirstBreak(h, now, j) && ReportsBreak(now, j, r);
      assert j == i;
    } else {
      assert LastHash(now) == LastHash(rows);
    }
  }

  /** An altered row that is still accepted exhibits a clash between what it says and what it said. */
  lemma AlteredRowNeedsClash(h: Hasher, rows: seq<Row>, i: nat, altered: Row) returns (f: Forgery)
    requires IsChain(h, rows) && i < |rows| && altered.rowHash == rows[i].rowHash
    requires IsChain(h, rows[i := altered]) && !SameEvent(altered, rows[i])
    ensures Genuine(h, f)
    ensures f == CanonicalClash(Hashed(rows[i]), Hashed(altered)) ||
            f == DigestClash(h.canonicalize(Hashed(rows[i])), h.canonicalize(Hashed(altered)))
  {
    var was, now := Hashed(rows[i]), Hashed(altered);
    assert ContentOk(h, rows, i) && ContentOk(h, rows[i := altered], i);
    f := if h.canonicalize(was) == h.canonicalize(now) then CanonicalClash(was, now)
         else DigestClash(h.canonicalize(was), h.canonicalize(now));
  }

  /** The scan's genesis value: 64 zeros. */
  lemma GenesisIsZeros()
    ensures |GENESIS_HASH| == 64 && forall i | 0 <= i < 64 :: GENESIS_HASH[i] == '0'
  {
  }

  /**
   Deleting, repeating or reordering rows: if a non-empty list made only of rows of an accepted
   ledger is itself accepted, then it is a prefix of that ledger, or a forgery can be computed.
   Truncation is the only selection the scan accepts, and it changes totalEvents.
   */
  lemma OnlyTruncationEscapes(h: Hasher, a: seq<Row>, b: seq<Row>) returns (n: nat, f: Option<Forgery>)
    requires IsChain(h, a) && IsChain(h, b)
    requires forall row | row in b :: row in a
    ensures n <= |a|
    ensures if f.Some? then Genuine(h, f.value) else SameHistory(a[..n], b)
  {
    if b == [] {
      n, f := 0, None;
    } else {
      var last := b[|b| - 1];
      assert last in a;
      var i :| 0 <= i < |a| && a[i] == last;
      n := i + 1;
      PrefixIsChain(h, a, n);
      assert LastHash(a[..n]) == last.rowHash;
      TamperEvidence(h, a[..n], b);
      f := FindForgery(h, a[..n], b);
    }
  }

  /** The other half: every truncation is accepted, and only totalEvents and lastHash can tell. */
  lemma TruncationIsAccepted(h: Hasher, rows: seq<Row>, n: nat, r: Integrity)
    requires IsChain(h, rows) && n <= |rows|
    requires Describes(h, rows[..n], r)
    ensures r == Valid(n, HashBefore(rows, n))
  {
    PrefixIsChain(h, rows, n);
    ChainHasNoBreak(h, rows[..n]);
  }
}
