/**
 Anchoring verified evidence: lib/internal-ledger-verifier.js, `anchorVerifiedEvidence` of
 lib/verified-anchor-service.js as interleavable steps, and contracts/TrustAnchor.sol.
 */
module VerifiedAnchor {
  import opened Prelude
  import opened JsonValue
  import opened JsText
  import opened SigningLedger

  const ZERO_DIGEST: string := Repeat('0', 64)

  /* ---------- The internal ledger verifier ---------- */

  datatype LedgerRefusal =
    | LedgerVerifierError
    | LedgerChainInvalid
    | LedgerEventNotFound
    | LedgerEventTypeMismatch
    | LedgerEvidenceMismatch
    | LedgerRowHashInvalid

  /** The first row with this event id, in sequence order. */
  function FindEvent(rows: seq<Row>, eventId: string): Option<Row> {
    if rows == [] then None
    else if rows[0].eventId == eventId then Some(rows[0])
    else FindEvent(rows[1..], eventId)
  }

  /** The ledger confirms a digest: the scanned rows are a chain, and one of them records it. */
  function Confirm(h: Hasher, rows: seq<Row>, eventId: string, evidenceId: string, digest: string): Result<string, LedgerRefusal> {
    if eventId == "" || evidenceId == "" || !IsDigestHex(digest) || !IsUuid(eventId) then Err(LedgerVerifierError)
    else if !IsChain(h, rows) then Err(LedgerChainInvalid)
    else
      match FindEvent(rows, eventId)
      case None => Err(LedgerEventNotFound)
      case Some(row) =>
        if row.eventType != EVIDENCE_STORED then Err(LedgerEventTypeMismatch)
        else if Get(row.payload, "evidenceId") != Some(Str(evidenceId)) || Get(row.payload, "digestHex") != Some(Str(digest))
        then Err(LedgerEvidenceMismatch)
        else if !IsDigestHex(row.rowHash) then Err(LedgerRowHashInvalid)
        else Ok(row.rowHash)
  }

  /** `verifyRecordedEvidence` over `verifyChainIntegrityAndGetEvent`: scan once, then look up. */
  method VerifyRecordedEvidence(h: Hasher, rows: seq<Row>, eventId: string, evidenceId: string, digest: string)
    returns (r: Result<string, LedgerRefusal>)
    ensures r == Confirm(h, rows, eventId, evidenceId, digest)
  {
    if eventId == "" || evidenceId == "" || !IsDigestHex(digest) || !IsUuid(eventId) {
      return Err(LedgerVerifierError);
    }
    var integrity := VerifySigningEventRows(h, rows);
    var event: Option<Row> := None;
    var i := 0;
    while i < |rows| && event.None?
      invariant 0 <= i <= |rows|
      invariant FindEvent(rows, eventId) == if event.Some? then event else FindEvent(rows[i..], eventId)
    {
      assert rows[i..][1..] == rows[i + 1..];
      if rows[i].eventId == eventId {
        event := Some(rows[i]);
      }
      i := i + 1;
    }
    if !integrity.Valid? {
      return Err(LedgerChainInvalid);
    }
    if event.None? {
      return Err(LedgerEventNotFound);
    }
    var row := event.value;
    if row.eventType != EVIDENCE_STORED {
      return Err(LedgerEventTypeMismatch);
    }
    if Get(row.payload, "evidenceId") != Some(Str(evidenceId)) || Get(row.payload, "digestHex") != Some(Str(digest)) {
      return Err(LedgerEvidenceMismatch);
    }
    if !IsDigestHex(row.rowHash) {
      return Err(LedgerRowHashInvalid);
    }
    return Ok(row.rowHash);
  }

  /** A ledger row that says this digest was stored as this evidence. */
  predicate Attests(row: Row, eventId: string, evidenceId: string, digest: string) {
    && row.eventId == eventId
    && row.eventType == EVIDENCE_STORED
    && Get(row.payload, "evidenceId") == Some(Str(evidenceId))
    && Get(row.payload, "digestHex") == Some(Str(digest))
  }

  lemma {:induction false} FoundIsThere(rows: seq<Row>, eventId: string)
    ensures var e := FindEvent(rows, eventId); e.Some? ==> e.value in rows && e.value.eventId == eventId
  {
    if rows != [] && rows[0].eventId != eventId {
      FoundIsThere(rows[1..], eventId);
    }
  }

  /* ---------- The contract ---------- */

  type Anchors = map<string, nat>

  /** Solidity's mapping: 0 where nothing was written. */
  function AnchoredAt(anchors: Anchors, digest: string): nat {
    if digest in anchors then anchors[digest] else 0
  }

  datatype Revert = ZeroDigest | AlreadyAnchored

  predicate CanAnchor(anchors: Anchors, digest: string) {
    digest != ZERO_DIGEST && AnchoredAt(anchors, digest) == 0
  }

  class TrustAnchor {
    var anchoredAt: Anchors

    constructor ()
      ensures anchoredAt == map[]
    {
      anchoredAt := map[];
    }

    method Anchor(digest: string, timestamp: nat) returns (r: Result<nat, Revert>)
      modifies this
      ensures r.Ok? <==> CanAnchor(old(anchoredAt), digest)
      ensures r.Ok? ==> r.value == timestamp && anchoredAt == old(anchoredAt)[digest := timestamp]
      ensures r.Err? ==> anchoredAt == old(anchoredAt)
      ensures r == Err(ZeroDigest) <==> digest == ZERO_DIGEST
    {
      if digest == ZERO_DIGEST {
        return Err(ZeroDigest);
      }
      if AnchoredAt(anchoredAt, digest) != 0 {
        return Err(AlreadyAnchored);
      }
      anchoredAt := anchoredAt[digest := timestamp];
      return Ok(timestamp);
    }
  }

  /* ---------- The anchoring calls ---------- */

  type Caller = nat

  /** What the sidecar checks find; the digest is recomputed from the evidence. */
  datatype Sidecar = Sidecar(
    metadataValid: bool, keyTrusted: bool, signatureValid: bool,
    evidenceId: string, metadataDigest: string, recomputedDigest: string)

  /** A call that has passed its gate: what it is about to anchor, and where the ledger recorded it. */
  datatype Gate = Gate(evidenceId: string, digest: string, ledgerEventId: string)

  datatype GateRefusal =
    | InvalidSidecarMetadata
    | UntrustedSigningKey
    | VerificationNotApproved
    | InvalidAnchorDigest
    | ZeroAnchorDigest
    | InvalidLedgerEventId

  function OpenGate(s: Sidecar, ledgerEventId: string): Result<Gate, GateRefusal> {
    if !s.metadataValid then Err(InvalidSidecarMetadata)
    else if !s.keyTrusted then Err(UntrustedSigningKey)
    else if s.recomputedDigest != s.metadataDigest || !s.signatureValid then Err(VerificationNotApproved)
    else if !IsDigestHex(s.recomputedDigest) then Err(InvalidAnchorDigest)
    else if s.recomputedDigest == ZERO_DIGEST then Err(ZeroAnchorDigest)
    else if ledgerEventId == "" then Err(InvalidLedgerEventId)
    else Ok(Gate(s.evidenceId, s.recomputedDigest, ledgerEventId))
  }

  /**
   The sidecar's evidence is verified: its metadata are valid, its key trusted, its signature good, and the
   digest recomputed from the evidence is the signed one, 64 hex digits that are not all zero.
   */
  predicate Approved(s: Sidecar) {
    && s.metadataValid && s.keyTrusted && s.signatureValid && s.recomputedDigest == s.metadataDigest
    && |s.recomputedDigest| == 64
    && (forall i | 0 <= i < 64 :: '0' <= s.recomputedDigest[i] <= '9' || 'a' <= s.recomputedDigest[i] <= 'f')
    && exists i | 0 <= i < 64 :: s.recomputedDigest[i] != '0'
  }

  /** A gate that this sidecar and this ledger event id opened. */
  predicate Admits(s: Sidecar, ledgerEventId: string, gate: Gate) {
    && Approved(s) && ledgerEventId != ""
    && gate.digest == s.recomputedDigest && gate.evidenceId == s.evidenceId && gate.ledgerEventId == ledgerEventId
  }

  lemma NotAllZeros(digest: string)
    requires |digest| == 64
    ensures digest != ZERO_DIGEST <==> exists i | 0 <= i < 64 :: digest[i] != '0'
  {
    assert (forall i | 0 <= i < 64 :: digest[i] == '0') ==> digest == ZERO_DIGEST;
  }

  /** The gate opens exactly for approved evidence with an event id, and is then the sidecar's own. */
  lemma GateIsExact(s: Sidecar, ledgerEventId: string)
    ensures OpenGate(s, ledgerEventId).Ok? <==> Approved(s) && ledgerEventId != ""
    ensures OpenGate(s, ledgerEventId).Ok? ==> Admits(s, ledgerEventId, OpenGate(s, ledgerEventId).value)
  {
    if |s.recomputedDigest| == 64 {
      NotAllZeros(s.recomputedDigest);
    }
  }

  /** How the client's transaction call goes. */
  datatype Delivery =
    | NotExecuted      // it fails before the contract runs
    | ReplyLost        // the contract runs, and the client sees an error all the same
    | BadReceipt       // the contract runs, and the receipt does not validate
    | GoodReceipt

  /** How the client's reading of the contract goes: it fails, returns no number, or the time. */
  datatype Reading = Unreadable | NoNumber | Readable

  datatype AnchorFailure =
    | GateRefused(gate: GateRefusal)
    | LedgerRefused(ledger: LedgerRefusal)
    | AlreadyAnchoredError
    | StateReadFailed
    | InvalidAnchorState
    | TransactionFailed

  /** The ledger snapshot a call was confirmed by stays with it. */
  datatype Phase =
    | Gated(gate: Gate)
    | Confirmed(gate: Gate, snapshot: seq<Row>)
    | Checked(gate: Gate, snapshot: seq<Row>)
    | Succeeded(gate: Gate, snapshot: seq<Row>)
    | Stopped(failure: AnchorFailure)

  /** `submitted` lists every execution of the contract by a call, in order, reverted ones included. */
  datatype Submission = Submission(caller: Caller, gate: Gate, snapshot: seq<Row>)

  datatype World = World(anchors: Anchors, calls: map<Caller, Phase>, submitted: seq<Submission>)

  const GENESIS: World := World(map[], map[], [])

  datatype Step =
    | Open(c: Caller, sidecar: Sidecar, ledgerEventId: string)
    | AskLedger(c: Caller, snapshot: Option<seq<Row>>)        // None: the ledger read fails
    | ReadState(c: Caller, reading: Reading)
    | Submit(c: Caller, delivery: Delivery, timestamp: nat)
    | Outsider(digest: string, timestamp: nat)                // anyone else calling the contract

  function Execute(anchors: Anchors, digest: string, timestamp: nat): Anchors {
    if CanAnchor(anchors, digest) then anchors[digest := timestamp] else anchors
  }

  function Advance(h: Hasher, w: World, step: Step): World {
    match step
    case Open(c, sidecar, ledgerEventId) =>
      if c in w.calls then w
      else
        w.(calls := w.calls[c :=
          match OpenGate(sidecar, ledgerEventId)
          case Ok(gate) => Gated(gate)
          case Err(refusal) => Stopped(GateRefused(refusal))])
    case AskLedger(c, snapshot) =>
      if c !in w.calls || !w.calls[c].Gated? then w
      else
        var gate := w.calls[c].gate;
        w.(calls := w.calls[c :=
          if snapshot.None? then Stopped(LedgerRefused(LedgerVerifierError))
          else
            match Confirm(h, snapshot.value, gate.ledgerEventId, gate.evidenceId, gate.digest)
            case Ok(_) => Confirmed(gate, snapshot.value)
            case Err(refusal) => Stopped(LedgerRefused(refusal))])
    case ReadState(c, reading) =>
      if c !in w.calls || !w.calls[c].Confirmed? then w
      else
        var p := w.calls[c];
        w.(calls := w.calls[c :=
          if reading == Unreadable then Stopped(StateReadFailed)
          else if reading == NoNumber then Stopped(InvalidAnchorState)
          else if AnchoredAt(w.anchors, p.gate.digest) != 0 then Stopped(AlreadyAnchoredError)
          else Checked(p.gate, p.snapshot)])
    case Submit(c, delivery, timestamp) =>
      if c !in w.calls || !w.calls[c].Checked? then w
      else
        var p := w.calls[c];
        if delivery == NotExecuted then w.(calls := w.calls[c := Stopped(TransactionFailed)])
        else
          var reverted := !CanAnchor(w.anchors, p.gate.digest);
          World(
            Execute(w.anchors, p.gate.digest, timestamp),
            w.calls[c :=
              if reverted && delivery != ReplyLost then Stopped(AlreadyAnchoredError)
              else if delivery == GoodReceipt then Succeeded(p.gate, p.snapshot)
              else Stopped(TransactionFailed)],
            w.submitted + [Submission(c, p.gate, p.snapshot)])
    case Outsider(digest, timestamp) =>
      w.(anchors := Execute(w.anchors, digest, timestamp))
  }

  function Run(h: Hasher, w: World, steps: seq<Step>): World {
    if steps == [] then w else Advance(h, Run(h, w, steps[..|steps| - 1]), steps[|steps| - 1])
  }

  /** The four steps of one call with nothing in between. */
  function OneCall(h: Hasher, w: World, c: Caller, sidecar: Sidecar, ledgerEventId: string,
                   rows: Option<seq<Row>>, reading: Reading, delivery: Delivery, timestamp: nat): World {
    var gated := Advance(h, w, Open(c, sidecar, ledgerEventId));
    var asked := Advance(h, gated, AskLedger(c, rows));
    Advance(h, Advance(h, asked, ReadState(c, reading)), Submit(c, delivery, timestamp))
  }

  /** The call is in the phase that its outcome says. */
  predicate EndsAs(w: World, c: Caller, r: Result<Gate, AnchorFailure>) {
    c in w.calls &&
    match r
    case Ok(gate) => w.calls[c].Succeeded? && w.calls[c].gate == gate
    case Err(e) => w.calls[c] == Stopped(e)
  }

  /** A call that has stopped does nothing more. */
  lemma StoppedStays(h: Hasher, w: World, c: Caller, rows: Option<seq<Row>>, reading: Reading, delivery: Delivery,
                     timestamp: nat)
    requires c in w.calls && w.calls[c].Stopped?
    ensures Advance(h, w, AskLedger(c, rows)) == w
    ensures Advance(h, w, ReadState(c, reading)) == w
    ensures Advance(h, w, Submit(c, delivery, timestamp)) == w
  {
  }

  /** How a confirmed call ends when nothing comes in between. */
  function Finish(anchors: Anchors, gate: Gate, reading: Reading, delivery: Delivery): Result<Gate, AnchorFailure> {
    if reading == Unreadable then Err(StateReadFailed)
    else if reading == NoNumber then Err(InvalidAnchorState)
    else if AnchoredAt(anchors, gate.digest) != 0 then Err(AlreadyAnchoredError)
    else if delivery == NotExecuted then Err(TransactionFailed)
    else if !CanAnchor(anchors, gate.digest) && delivery != ReplyLost then Err(AlreadyAnchoredError)
    else if delivery == GoodReceipt then Ok(gate)
    else Err(TransactionFailed)
  }

  lemma ConfirmedFinishes(
      h: Hasher, w: World, c: Caller, gate: Gate, snapshot: seq<Row>, reading: Reading, delivery: Delivery, timestamp: nat)
    requires c in w.calls && w.calls[c] == Confirmed(gate, snapshot)
    ensures var w' := Advance(h, Advance(h, w, ReadState(c, reading)), Submit(c, delivery, timestamp));
      && EndsAs(w', c, Finish(w.anchors, gate, reading, delivery))
      && w'.anchors ==
           if reading == Readable && AnchoredAt(w.anchors, gate.digest) == 0 && delivery != NotExecuted
           then Execute(w.anchors, gate.digest, timestamp) else w.anchors
  {
    var checked := Advance(h, w, ReadState(c, reading));
    if reading == Readable && AnchoredAt(w.anchors, gate.digest) == 0 {
      assert checked == w.(calls := w.calls[c := Checked(gate, snapshot)]);
    }
  }

  /** What follows the gate: the ledger, the contract's state, the transaction. */
  method AnchorGated(
      h: Hasher, contract: TrustAnchor, gate: Gate, rows: Option<seq<Row>>,
      reading: Reading, delivery: Delivery, timestamp: nat, ghost begun: World, ghost c: Caller)
    returns (r: Result<Gate, AnchorFailure>)
    requires begun.anchors == contract.anchoredAt && c in begun.calls && begun.calls[c] == Gated(gate)
    requires IsDigestHex(gate.digest) && gate.digest != ZERO_DIGEST
    modifies contract
    ensures var asked := Advance(h, begun, AskLedger(c, rows));
      var w' := Advance(h, Advance(h, asked, ReadState(c, reading)), Submit(c, delivery, timestamp));
      contract.anchoredAt == w'.anchors && EndsAs(w', c, r)
    ensures r.Err? ==> !r.error.GateRefused?
    ensures r.Ok? ==> r.value == gate && rows.Some? && Justified(h, gate, rows.value)
    ensures r.Ok? ==> contract.anchoredAt == old(contract.anchoredAt)[gate.digest := timestamp]
  {
    ghost var asked := Advance(h, begun, AskLedger(c, rows));
    if rows.None? {
      StoppedStays(h, asked, c, rows, reading, delivery, timestamp);
      return Err(LedgerRefused(LedgerVerifierError));
    }
    var confirmation := VerifyRecordedEvidence(h, rows.value, gate.ledgerEventId, gate.evidenceId, gate.digest);
    if confirmation.Err? {
      StoppedStays(h, asked, c, rows, reading, delivery, timestamp);
      return Err(LedgerRefused(confirmation.error));
    }
    assert asked == begun.(calls := begun.calls[c := Confirmed(gate, rows.value)]);
    ConfirmJustifies(h, gate, rows.value);
    ConfirmedFinishes(h, asked, c, gate, rows.value, reading, delivery, timestamp);
    if reading == Unreadable {
      return Err(StateReadFailed);
    }
    if reading == NoNumber {
      return Err(InvalidAnchorState);
    }
    if AnchoredAt(contract.anchoredAt, gate.digest) != 0 {
      return Err(AlreadyAnchoredError);
    }
    if delivery == NotExecuted {
      return Err(TransactionFailed);
    }
    var executed := contract.Anchor(gate.digest, timestamp);
    if executed.Err? && delivery != ReplyLost {
      return Err(AlreadyAnchoredError);
    }
    if delivery != GoodReceipt {
      return Err(TransactionFailed);
    }
    return Ok(gate);
  }

  /**
   The service's call, alone: from any world it does to the contract what its four steps do. It is refused
   at the gate exactly when its evidence is not verified or its event id is empty; when it succeeds, it has
   anchored the digest recomputed from the evidence, which the ledger it read attests to.
   */
  method AnchorVerifiedEvidence(
      h: Hasher, contract: TrustAnchor, sidecar: Sidecar, ledgerEventId: string, rows: Option<seq<Row>>,
      reading: Reading, delivery: Delivery, timestamp: nat, ghost w: World, ghost c: Caller)
    returns (r: Result<Gate, AnchorFailure>)
    requires w.anchors == contract.anchoredAt && c !in w.calls
    modifies contract
    ensures var w' := OneCall(h, w, c, sidecar, ledgerEventId, rows, reading, delivery, timestamp);
      contract.anchoredAt == w'.anchors && EndsAs(w', c, r)
    ensures r.Err? && r.error.GateRefused? <==> !(Approved(sidecar) && ledgerEventId != "")
    ensures r.Ok? ==> Admits(sidecar, ledgerEventId, r.value) && rows.Some? && Justified(h, r.value, rows.value)
    ensures r.Ok? ==> contract.anchoredAt == old(contract.anchoredAt)[sidecar.recomputedDigest := timestamp]
  {
    GateIsExact(sidecar, ledgerEventId);
    ghost var begun := Advance(h, w, Open(c, sidecar, ledgerEventId));
    var gated := OpenGate(sidecar, ledgerEventId);
    if gated.Err? {
      StoppedStays(h, begun, c, rows, reading, delivery, timestamp);
      return Err(GateRefused(gated.error));
    }
    r := AnchorGated(h, contract, gated.value, rows, reading, delivery, timestamp, begun, c);
  }

  /* ---------- Safety over all interleavings ---------- */

  /** A block's timestamp is never 0; with one that was, a digest could be anchored again. */
  predicate ClockRuns(steps: seq<Step>) {
    forall i | 0 <= i < |steps| ::
      (steps[i].Submit? ==> steps[i].timestamp > 0) && (steps[i].Outsider? ==> steps[i].timestamp > 0)
  }

  /** The snapshot is an accepted chain with a row attesting to the gate's digest. */
  predicate Justified(h: Hasher, gate: Gate, snapshot: seq<Row>) {
    && IsDigestHex(gate.digest) && gate.digest != ZERO_DIGEST
    && IsChain(h, snapshot)
    && exists i | 0 <= i < |snapshot| :: Attests(snapshot[i], gate.ledgerEventId, gate.evidenceId, gate.digest)
  }

  predicate PhaseOk(h: Hasher, p: Phase) {
    match p
    case Gated(gate) => IsDigestHex(gate.digest) && gate.digest != ZERO_DIGEST
    case Confirmed(gate, snapshot) => Justified(h, gate, snapshot)
    case Checked(gate, snapshot) => Justified(h, gate, snapshot)
    case Succeeded(gate, snapshot) => Justified(h, gate, snapshot)
    case Stopped(_) => true
  }

  predicate Inv(h: Hasher, w: World) {
    && AnchoredAt(w.anchors, ZERO_DIGEST) == 0
    && (forall c | c in w.calls :: PhaseOk(h, w.calls[c]))
    && (forall i | 0 <= i < |w.submitted| :: Justified(h, w.submitted[i].gate, w.submitted[i].snapshot))
  }

  lemma ConfirmJustifies(h: Hasher, gate: Gate, snapshot: seq<Row>)
    requires IsDigestHex(gate.digest) && gate.digest != ZERO_DIGEST
    requires Confirm(h, snapshot, gate.ledgerEventId, gate.evidenceId, gate.digest).Ok?
    ensures Justified(h, gate, snapshot)
  {
    FoundIsThere(snapshot, gate.ledgerEventId);
    var row := FindEvent(snapshot, gate.ledgerEventId).value;
    assert Attests(row, gate.ledgerEventId, gate.evidenceId, gate.digest);
  }

  lemma StepKeepsInv(h: Hasher, w: World, step: Step)
    requires Inv(h, w)
    ensures Inv(h, Advance(h, w, step))
  {
    if step.AskLedger? && step.c in w.calls && w.calls[step.c].Gated? && step.snapshot.Some? {
      var gate := w.calls[step.c].gate;
      assert PhaseOk(h, w.calls[step.c]);
      if Confirm(h, step.snapshot.value, gate.ledgerEventId, gate.evidenceId, gate.digest).Ok? {
        ConfirmJustifies(h, gate, step.snapshot.value);
      }
    }
  }

  lemma {:induction false} RunKeepsInv(h: Hasher, steps: seq<Step>)
    ensures Inv(h, Run(h, GENESIS, steps))
    decreases |steps|
  {
    if steps != [] {
      RunKeepsInv(h, steps[..|steps| - 1]);
      StepKeepsInv(h, Run(h, GENESIS, steps[..|steps| - 1]), steps[|steps| - 1]);
    }
  }

  /**
   Whatever the interleaving: no call reaches the contract unless its own ledger snapshot was an
   accepted chain with an evidence.stored row for its metadata's evidence id and the digest
   recomputed from its evidence; and nobody anchors the zero digest.
   */
  lemma SubmittedIsJustified(h: Hasher, steps: seq<Step>)
    ensures var w := Run(h, GENESIS, steps);
      && (forall i | 0 <= i < |w.submitted| :: Justified(h, w.submitted[i].gate, w.submitted[i].snapshot))
      && AnchoredAt(w.anchors, ZERO_DIGEST) == 0
  {
    RunKeepsInv(h, steps);
  }

  /** The gate that a call has passed, if it has passed one and was not stopped since. */
  function GateOf(p: Phase): Option<Gate> {
    if p.Stopped? then None else Some(p.gate)
  }

  /** The call was opened with a sidecar and an event id that admit this gate. */
  predicate WasOpened(steps: seq<Step>, c: Caller, gate: Gate) {
    exists k | 0 <= k < |steps| ::
      steps[k].Open? && steps[k].c == c && Admits(steps[k].sidecar, steps[k].ledgerEventId, gate)
  }

  predicate AllWereOpened(steps: seq<Step>, w: World) {
    && (forall c | c in w.calls && GateOf(w.calls[c]).Some? :: WasOpened(steps, c, GateOf(w.calls[c]).value))
    && (forall i | 0 <= i < |w.submitted| :: WasOpened(steps, w.submitted[i].caller, w.submitted[i].gate))
  }

  lemma OpenedStaysOpened(steps: seq<Step>, step: Step, c: Caller, gate: Gate)
    requires WasOpened(steps, c, gate)
    ensures WasOpened(steps + [step], c, gate)
  {
    var k :| 0 <= k < |steps| && steps[k].Open? && steps[k].c == c && Admits(steps[k].sidecar, steps[k].ledgerEventId, gate);
    assert (steps + [step])[k] == steps[k];
  }

  lemma CallsStayOpened(h: Hasher, steps: seq<Step>, w: World, step: Step, c: Caller)
    requires AllWereOpened(steps, w)
    requires var w' := Advance(h, w, step); c in w'.calls && GateOf(w'.calls[c]).Some?
    ensures WasOpened(steps + [step], c, GateOf(Advance(h, w, step).calls[c]).value)
  {
    if c in w.calls {
      OpenedStaysOpened(steps, step, c, GateOf(w.calls[c]).value);
    } else {
      GateIsExact(step.sidecar, step.ledgerEventId);
      assert (steps + [step])[|steps|] == step;
    }
  }

  lemma SubmissionIsOfCall(h: Hasher, w: World, step: Step)
    ensures var w' := Advance(h, w, step);
      && |w.submitted| <= |w'.submitted| <= |w.submitted| + 1 && w'.submitted[..|w.submitted|] == w.submitted
      && (|w'.submitted| > |w.submitted| ==>
            var s := w'.submitted[|w.submitted|]; s.caller in w.calls && GateOf(w.calls[s.caller]) == Some(s.gate))
  {
  }

  lemma StepKeepsOpened(h: Hasher, steps: seq<Step>, w: World, step: Step)
    requires AllWereOpened(steps, w)
    ensures AllWereOpened(steps + [step], Advance(h, w, step))
  {
    var w' := Advance(h, w, step);
    forall c | c in w'.calls && GateOf(w'.calls[c]).Some? ensures WasOpened(steps + [step], c, GateOf(w'.calls[c]).value) {
      CallsStayOpened(h, steps, w, step, c);
    }
    SubmissionIsOfCall(h, w, step);
    forall i | 0 <= i < |w'.submitted| ensures WasOpened(steps + [step], w'.submitted[i].caller, w'.submitted[i].gate) {
      assert i < |w.submitted| ==> w'.submitted[i] == w'.submitted[..|w.submitted|][i];
      OpenedStaysOpened(steps, step, w'.submitted[i].caller, w'.submitted[i].gate);
    }
  }

  /**
   Whatever the interleaving: each submission belongs to a call that was opened with verified evidence, and
   submits the digest recomputed from that evidence under the evidence id of its metadata.
   */
  lemma {:induction false} SubmittedWasOpened(h: Hasher, steps: seq<Step>)
    ensures AllWereOpened(steps, Run(h, GENESIS, steps))
    decreases |steps|
  {
    if steps != [] {
      var n := |steps| - 1;
      SubmittedWasOpened(h, steps[..n]);
      StepKeepsOpened(h, steps[..n], Run(h, GENESIS, steps[..n]), steps[n]);
      assert steps[..n] + [steps[n]] == steps;
    }
  }

  /** Once non-zero, the recorded time of a digest never changes. */
  lemma {:induction false} AnchorsAreForever(h: Hasher, w: World, steps: seq<Step>, digest: string)
    requires AnchoredAt(w.anchors, digest) != 0
    ensures AnchoredAt(Run(h, w, steps).anchors, digest) == AnchoredAt(w.anchors, digest)
    decreases |steps|
  {
    if steps != [] {
      AnchorsAreForever(h, w, steps[..|steps| - 1], digest);
    }
  }

  /** Successful calls have anchored digests, and no two of them share one. */
  predicate SuccessesDiffer(w: World) {
    && (forall c | c in w.calls && w.calls[c].Succeeded? :: AnchoredAt(w.anchors, w.calls[c].gate.digest) != 0)
    && (forall c, d | c in w.calls && d in w.calls && w.calls[c].Succeeded? && w.calls[d].Succeeded? &&
                      w.calls[c].gate.digest == w.calls[d].gate.digest :: c == d)
  }

  lemma StepKeepsSuccesses(h: Hasher, w: World, step: Step)
    requires SuccessesDiffer(w) && ClockRuns([step])
    ensures SuccessesDiffer(Advance(h, w, step))
  {
    assert [step][0] == step;
  }

  /** At most one call per digest returns success, even when several saw it unanchored. */
  lemma {:induction false} OneSuccessPerDigest(h: Hasher, steps: seq<Step>)
    requires ClockRuns(steps)
    ensures SuccessesDiffer(Run(h, GENESIS, steps))
    decreases |steps|
  {
    if steps != [] {
      var n := |steps| - 1;
      assert ClockRuns(steps[..n]) && ClockRuns([steps[n]]);
      OneSuccessPerDigest(h, steps[..n]);
      StepKeepsSuccesses(h, Run(h, GENESIS, steps[..n]), steps[n]);
    }
  }

  /* ---------- The race is real, and the contract decides it ---------- */

  lemma RunSnoc(h: Hasher, w: World, steps: seq<Step>, step: Step)
    ensures Run(h, w, steps + [step]) == Advance(h, Run(h, w, steps), step)
  {
    assert (steps + [step])[..|steps|] == steps;
  }

  /** The gate opens, and the ledger confirms its digest in this snapshot. */
  predicate GetsThrough(h: Hasher, sidecar: Sidecar, ledgerEventId: string, snapshot: seq<Row>) {
    var gate := OpenGate(sidecar, ledgerEventId);
    gate.Ok? && Confirm(h, snapshot, gate.value.ledgerEventId, gate.value.evidenceId, gate.value.digest).Ok?
  }

  function UntilChecked(h: Hasher, w: World, c: Caller, sidecar: Sidecar, ledgerEventId: string, snapshot: seq<Row>): World {
    var asked := Advance(h, Advance(h, w, Open(c, sidecar, ledgerEventId)), AskLedger(c, Some(snapshot)));
    Advance(h, asked, ReadState(c, Readable))
  }

  /** A call on its own, up to the point where it has seen its digest unanchored. */
  lemma SeesItUnanchored(h: Hasher, w: World, c: Caller, sidecar: Sidecar, ledgerEventId: string, snapshot: seq<Row>)
    requires c !in w.calls && GetsThrough(h, sidecar, ledgerEventId, snapshot)
    requires AnchoredAt(w.anchors, OpenGate(sidecar, ledgerEventId).value.digest) == 0
    ensures UntilChecked(h, w, c, sidecar, ledgerEventId, snapshot)
      == w.(calls := w.calls[c := Checked(OpenGate(sidecar, ledgerEventId).value, snapshot)])
  {
    var gate := OpenGate(sidecar, ledgerEventId).value;
    var gated := Advance(h, w, Open(c, sidecar, ledgerEventId));
    assert gated == w.(calls := w.calls[c := Gated(gate)]);
    var asked := Advance(h, gated, AskLedger(c, Some(snapshot)));
    assert asked == w.(calls := w.calls[c := Confirmed(gate, snapshot)]);
  }

  lemma RunUntilChecked(h: Hasher, steps: seq<Step>, c: Caller, sidecar: Sidecar, ledgerEventId: string, snapshot: seq<Row>)
    returns (steps': seq<Step>)
    ensures Run(h, GENESIS, steps') == UntilChecked(h, Run(h, GENESIS, steps), c, sidecar, ledgerEventId, snapshot)
  {
    var s1, s2, s3 := Open(c, sidecar, ledgerEventId), AskLedger(c, Some(snapshot)), ReadState(c, Readable);
    RunSnoc(h, GENESIS, steps, s1);
    RunSnoc(h, GENESIS, steps + [s1], s2);
    RunSnoc(h, GENESIS, (steps + [s1]) + [s2], s3);
    steps' := ((steps + [s1]) + [s2]) + [s3];
  }

  /** Two calls that have seen one digest unanchored both submit it. */
  lemma BothSubmit(h: Hasher, w: World, c: Caller, d: Caller, gate: Gate, snapshot: seq<Row>, time: nat)
    requires c != d && c in w.calls && d in w.calls && time > 0
    requires w.calls[c] == w.calls[d] == Checked(gate, snapshot) && CanAnchor(w.anchors, gate.digest)
    ensures var end := Advance(h, Advance(h, w, Submit(c, GoodReceipt, time)), Submit(d, GoodReceipt, time));
      && c in end.calls && end.calls[c] == Succeeded(gate, snapshot)
      && d in end.calls && end.calls[d] == Stopped(AlreadyAnchoredError)
  {
    var first := Advance(h, w, Submit(c, GoodReceipt, time));
    assert first.calls == w.calls[c := Succeeded(gate, snapshot)] && first.anchors == w.anchors[gate.digest := time];
  }

  /**
   Whenever one call can get through, two can see the same digest unanchored at once. When both then
   submit, the first succeeds and the second is told that the digest is anchored already.
   */
  lemma TwoMaySeeItUnanchored(h: Hasher, sidecar: Sidecar, ledgerEventId: string, snapshot: seq<Row>, time: nat)
    returns (seen: seq<Step>)
    requires GetsThrough(h, sidecar, ledgerEventId, snapshot) && time > 0
    ensures var gate := OpenGate(sidecar, ledgerEventId).value;
      var both := Run(h, GENESIS, seen);
      var end := Run(h, GENESIS, (seen + [Submit(0, GoodReceipt, time)]) + [Submit(1, GoodReceipt, time)]);
      && 0 in both.calls && both.calls[0] == Checked(gate, snapshot)
      && 1 in both.calls && both.calls[1] == Checked(gate, snapshot)
      && 0 in end.calls && end.calls[0] == Succeeded(gate, snapshot)
      && 1 in end.calls && end.calls[1] == Stopped(AlreadyAnchoredError)
  {
    var gate := OpenGate(sidecar, ledgerEventId).value;
    var one := RunUntilChecked(h, [], 0, sidecar, ledgerEventId, snapshot);
    SeesItUnanchored(h, GENESIS, 0, sidecar, ledgerEventId, snapshot);
    seen := RunUntilChecked(h, one, 1, sidecar, ledgerEventId, snapshot);
    SeesItUnanchored(h, Run(h, GENESIS, one), 1, sidecar, ledgerEventId, snapshot);
    RunSnoc(h, GENESIS, seen, Submit(0, GoodReceipt, time));
    RunSnoc(h, GENESIS, seen + [Submit(0, GoodReceipt, time)], Submit(1, GoodReceipt, time));
    BothSubmit(h, Run(h, GENESIS, seen), 0, 1, gate, snapshot, time);
  }
}
