/**
 The pipeline and the anchoring service over one ledger: evidence is stored and recorded while other
 calls read the ledger and anchor, in any interleaving.
 */
module AnchoredEvidence {
  import opened Prelude
  import opened JsText
  import opened SigningLedger
  import P = EvidencePipeline
  import C = PipelineConservation
  import V = VerifiedAnchor

  datatype System = System(pipeline: P.Pipeline, world: V.World)

  datatype Step =
    | Evidence(e: P.Step)
    | Anchoring(a: V.Step)

  const START: System := System(P.IDLE, V.GENESIS)

  /** A ledger read that succeeds returns the rows as they are at that moment. */
  function WithLedger(s: System, a: V.Step): V.Step {
    if a.AskLedger? && a.snapshot.Some? then V.AskLedger(a.c, Some(s.pipeline.ledger)) else a
  }

  function Advance(h: Hasher, s: System, step: Step): System {
    match step
    case Evidence(e) => s.(pipeline := P.Advance(h, s.pipeline, e))
    case Anchoring(a) => s.(world := V.Advance(h, s.world, WithLedger(s, a)))
  }

  function RunFrom(h: Hasher, s: System, steps: seq<Step>): System {
    if steps == [] then s else Advance(h, RunFrom(h, s, steps[..|steps| - 1]), steps[|steps| - 1])
  }

  function Run(h: Hasher, steps: seq<Step>): System {
    RunFrom(h, START, steps)
  }

  /* ---------- What every interleaving keeps ---------- */

  /** A call's snapshot is how the ledger once was: the rows it still begins with. */
  predicate SnapshotOk(ledger: seq<Row>, p: V.Phase) {
    match p
    case Gated(_) => true
    case Confirmed(_, snapshot) => snapshot <= ledger
    case Checked(_, snapshot) => snapshot <= ledger
    case Succeeded(_, snapshot) => snapshot <= ledger
    case Stopped(_) => true
  }

  predicate Inv(h: Hasher, s: System) {
    && C.Inv(h, s.pipeline) && C.IdsDiffer(s.pipeline.ledger) && V.Inv(h, s.world)
    && (forall c | c in s.world.calls :: SnapshotOk(s.pipeline.ledger, s.world.calls[c]))
    && (forall i | 0 <= i < |s.world.submitted| :: s.world.submitted[i].snapshot <= s.pipeline.ledger)
  }

  lemma LedgerGrows(h: Hasher, p: P.Pipeline, e: P.Step)
    ensures p.ledger <= P.Advance(h, p, e).ledger
  {
  }

  lemma EvidenceKeepsInv(h: Hasher, s: System, e: P.Step)
    requires Inv(h, s)
    ensures Inv(h, Advance(h, s, Evidence(e)))
  {
    C.StepKeepsInv(h, s.pipeline, e);
    C.StepKeepsIds(h, s.pipeline, e);
    LedgerGrows(h, s.pipeline, e);
    var ledger := P.Advance(h, s.pipeline, e).ledger;
    forall c | c in s.world.calls ensures SnapshotOk(ledger, s.world.calls[c]) {
      assert SnapshotOk(s.pipeline.ledger, s.world.calls[c]);
    }
  }

  lemma AnchoringKeepsSnapshots(h: Hasher, s: System, a: V.Step)
    requires a == WithLedger(s, a)
    requires forall c | c in s.world.calls :: SnapshotOk(s.pipeline.ledger, s.world.calls[c])
    requires forall i | 0 <= i < |s.world.submitted| :: s.world.submitted[i].snapshot <= s.pipeline.ledger
    ensures var w := V.Advance(h, s.world, a);
      && (forall c | c in w.calls :: SnapshotOk(s.pipeline.ledger, w.calls[c]))
      && (forall i | 0 <= i < |w.submitted| :: w.submitted[i].snapshot <= s.pipeline.ledger)
  {
    if a.Submit? && a.c in s.world.calls {
      assert SnapshotOk(s.pipeline.ledger, s.world.calls[a.c]);
    }
  }

  lemma StepKeepsInv(h: Hasher, s: System, step: Step)
    requires Inv(h, s)
    ensures Inv(h, Advance(h, s, step))
  {
    match step
    case Evidence(e) => EvidenceKeepsInv(h, s, e);
    case Anchoring(a) =>
      AnchoringKeepsSnapshots(h, s, WithLedger(s, a));
      V.StepKeepsInv(h, s.world, WithLedger(s, a));
  }

  lemma {:induction false} RunKeepsInv(h: Hasher, s: System, steps: seq<Step>)
    requires Inv(h, s)
    ensures Inv(h, RunFrom(h, s, steps))
    decreases |steps|
  {
    if steps != [] {
      RunKeepsInv(h, s, steps[..|steps| - 1]);
      StepKeepsInv(h, RunFrom(h, s, steps[..|steps| - 1]), steps[|steps| - 1]);
    }
  }

  lemma ReachableKeepsInv(h: Hasher, steps: seq<Step>)
    ensures Inv(h, Run(h, steps))
  {
    C.RunKeepsInv(h, []);
    V.RunKeepsInv(h, []);
    RunKeepsInv(h, START, steps);
  }

  /* ---------- What the ledger once said of an event, it says for good ---------- */

  lemma {:induction false} LedgerOnlyGrows(h: Hasher, s: System, steps: seq<Step>)
    ensures s.pipeline.ledger <= RunFrom(h, s, steps).pipeline.ledger
    decreases |steps|
  {
    if steps != [] {
      var n := |steps| - 1;
      LedgerOnlyGrows(h, s, steps[..n]);
      if steps[n].Evidence? {
        LedgerGrows(h, RunFrom(h, s, steps[..n]).pipeline, steps[n].e);
      }
    }
  }

  lemma {:induction false} FoundStaysFound(rows: seq<Row>, more: seq<Row>, eventId: string)
    requires V.FindEvent(rows, eventId).Some?
    ensures V.FindEvent(rows + more, eventId) == V.FindEvent(rows, eventId)
  {
    if rows[0].eventId != eventId {
      assert (rows + more)[1..] == rows[1..] + more;
      FoundStaysFound(rows[1..], more, eventId);
    }
  }

  /**
   The ledger's answer about an event is final: once a reachable ledger has the event, every later one
   confirms or refuses its evidence in the same way, whatever happened in between.
   */
  lemma AnswerIsFinal(
      h: Hasher, before: seq<Step>, between: seq<Step>, eventId: string, evidenceId: string, digest: string)
    requires var earlier := Run(h, before).pipeline.ledger; V.FindEvent(earlier, eventId).Some?
    ensures var earlier := Run(h, before);
      V.Confirm(h, RunFrom(h, earlier, between).pipeline.ledger, eventId, evidenceId, digest)
        == V.Confirm(h, earlier.pipeline.ledger, eventId, evidenceId, digest)
  {
    var earlier := Run(h, before);
    var later := RunFrom(h, earlier, between);
    ReachableKeepsInv(h, before);
    RunKeepsInv(h, earlier, between);
    LedgerOnlyGrows(h, earlier, between);
    var rows, all := earlier.pipeline.ledger, later.pipeline.ledger;
    assert all == rows + all[|rows|..];
    FoundStaysFound(rows, all[|rows|..], eventId);
  }

  lemma {:induction false} OnlyOneHasTheId(rows: seq<Row>, k: nat)
    requires C.IdsDiffer(rows) && k < |rows|
    ensures V.FindEvent(rows, rows[k].eventId) == Some(rows[k])
  {
    if k > 0 {
      assert rows[0].eventId != rows[k].eventId;
      OnlyOneHasTheId(rows[1..], k - 1);
    }
  }

  /** A well-formed request is confirmed by a reachable ledger exactly when some row of it attests to the digest. */
  lemma ConfirmedExactly(h: Hasher, steps: seq<Step>, eventId: string, evidenceId: string, digest: string)
    requires IsUuid(eventId) && evidenceId != "" && IsDigestHex(digest)
    ensures var rows := Run(h, steps).pipeline.ledger;
      V.Confirm(h, rows, eventId, evidenceId, digest).Ok? <==>
      exists k | 0 <= k < |rows| :: V.Attests(rows[k], eventId, evidenceId, digest) && IsDigestHex(rows[k].rowHash)
  {
    ReachableKeepsInv(h, steps);
    var rows := Run(h, steps).pipeline.ledger;
    V.FoundIsThere(rows, eventId);
    if V.Confirm(h, rows, eventId, evidenceId, digest).Ok? {
      var row := V.FindEvent(rows, eventId).value;
      var k :| 0 <= k < |rows| && rows[k] == row;
      assert V.Attests(rows[k], eventId, evidenceId, digest);
    }
    if k :| 0 <= k < |rows| && V.Attests(rows[k], eventId, evidenceId, digest) && IsDigestHex(rows[k].rowHash) {
      OnlyOneHasTheId(rows, k);
    }
  }

  /* ---------- From the contract back to the store ---------- */

  /** The digest is stored under this evidence id. */
  predicate IsStoredAs(store: seq<P.StoredRow>, evidenceId: string, digest: string) {
    exists i | 0 <= i < |store| :: store[i].evidenceId == evidenceId && store[i].digestHex == digest
  }

  lemma JustifiedIsStored(h: Hasher, p: P.Pipeline, gate: V.Gate, snapshot: seq<Row>)
    requires C.Inv(h, p) && V.Justified(h, gate, snapshot) && snapshot <= p.ledger
    ensures IsStoredAs(p.store, gate.evidenceId, gate.digest)
  {
    var k :| 0 <= k < |snapshot| && V.Attests(snapshot[k], gate.ledgerEventId, gate.evidenceId, gate.digest);
    assert p.ledger[k] == snapshot[k];
    var i := C.EventHasRow(h, p, k);
    assert p.store[i].evidenceId == gate.evidenceId;
  }

  /**
   Whatever reaches the contract through the service is stored evidence: in every interleaving of
   storing, recording, reconciling and anchoring, each submitted digest is the digest of a row that
   is in the evidence store under the evidence id of the call's metadata.
   */
  lemma SubmittedIsStored(h: Hasher, steps: seq<Step>, i: nat)
    requires i < |Run(h, steps).world.submitted|
    ensures var s := Run(h, steps);
      IsStoredAs(s.pipeline.store, s.world.submitted[i].gate.evidenceId, s.world.submitted[i].gate.digest)
  {
    ReachableKeepsInv(h, steps);
    var s := Run(h, steps);
    JustifiedIsStored(h, s.pipeline, s.world.submitted[i].gate, s.world.submitted[i].snapshot);
  }

  predicate NoOutsiders(steps: seq<Step>) {
    forall i | 0 <= i < |steps| :: !(steps[i].Anchoring? && steps[i].a.Outsider?)
  }

  predicate OnlySubmitted(w: V.World) {
    forall digest | digest in w.anchors ::
      exists i | 0 <= i < |w.submitted| :: w.submitted[i].gate.digest == digest
  }

  lemma StepKeepsOnlySubmitted(h: Hasher, w: V.World, a: V.Step)
    requires OnlySubmitted(w) && !a.Outsider?
    ensures OnlySubmitted(V.Advance(h, w, a))
  {
    var w' := V.Advance(h, w, a);
    forall digest | digest in w'.anchors
      ensures exists i | 0 <= i < |w'.submitted| :: w'.submitted[i].gate.digest == digest
    {
      if digest in w.anchors {
        var i :| 0 <= i < |w.submitted| && w.submitted[i].gate.digest == digest;
        assert w'.submitted[i] == w.submitted[i];
      } else {
        assert w'.submitted[|w.submitted|].gate.digest == digest;
      }
    }
  }

  lemma {:induction false} RunKeepsOnlySubmitted(h: Hasher, steps: seq<Step>)
    requires NoOutsiders(steps)
    ensures OnlySubmitted(Run(h, steps).world)
    decreases |steps|
  {
    if steps != [] {
      var n := |steps| - 1;
      RunKeepsOnlySubmitted(h, steps[..n]);
      if steps[n].Anchoring? {
        var s := Run(h, steps[..n]);
        StepKeepsOnlySubmitted(h, s.world, WithLedger(s, steps[n].a));
      }
    }
  }

  /** When only the service calls the contract, every anchored digest belongs to stored evidence. */
  lemma AnchoredIsStored(h: Hasher, steps: seq<Step>, digest: string)
    requires NoOutsiders(steps) && V.AnchoredAt(Run(h, steps).world.anchors, digest) != 0
    ensures exists i | 0 <= i < |Run(h, steps).pipeline.store| :: Run(h, steps).pipeline.store[i].digestHex == digest
  {
    RunKeepsOnlySubmitted(h, steps);
    var s := Run(h, steps);
    var i :| 0 <= i < |s.world.submitted| && s.world.submitted[i].gate.digest == digest;
    SubmittedIsStored(h, steps, i);
    var j :| 0 <= j < |s.pipeline.store| &&
      s.pipeline.store[j].evidenceId == s.world.submitted[i].gate.evidenceId && s.pipeline.store[j].digestHex == digest;
  }
}
