/**
 Store and ledger agree over whole histories of the pipeline: every stored row is recorded once, is
 still on its way, or is owed to the ledger by exactly one reconciliation request.
 */
module PipelineConservation {
  import opened Prelude
  import opened JsonValue
  import opened JsText
  import opened SigningLedger
  import opened LedgerProtocol
  import opened EvidencePipeline

  type PipelineStep = EvidencePipeline.Step

  function RunAll(h: Hasher, p: Pipeline, steps: seq<PipelineStep>): Pipeline {
    if steps == [] then p else Advance(h, RunAll(h, p, steps[..|steps| - 1]), steps[|steps| - 1])
  }

  /* ---------- Who still has to record what ---------- */

  predicate IsStoredEvent(row: Row) {
    row.eventType == EVIDENCE_STORED
  }

  function FlightRequest(call: (SignResult, StoreResult)): Request {
    CreateLedgerRequest(call.0, call.1)
  }

  function Required(store: seq<StoredRow>): set<Request> {
    set i | 0 <= i < |store| :: RequestFor(store[i])
  }

  function Recorded(ledger: seq<Row>): set<Request> {
    set i | 0 <= i < |ledger| && IsStoredEvent(ledger[i]) :: RequestIn(ledger[i])
  }

  function Flying(inFlight: map<Call, (SignResult, StoreResult)>): set<Request> {
    set c | c in inFlight :: FlightRequest(inFlight[c])
  }

  function Owed(owed: map<nat, Request>): set<Request> {
    set id | id in owed :: owed[id]
  }

  /** One place for every stored row's request, and nothing else in any of the three places. */
  predicate Conserved(p: Pipeline) {
    && Required(p.store) == Recorded(p.ledger) + Flying(p.inFlight) + Owed(p.owed)
    && Recorded(p.ledger) !! Flying(p.inFlight) !! Owed(p.owed)
  }

  predicate RecordedOnce(ledger: seq<Row>) {
    forall i, j | 0 <= i < j < |ledger| && IsStoredEvent(ledger[i]) && IsStoredEvent(ledger[j]) ::
      RequestIn(ledger[i]) != RequestIn(ledger[j])
  }

  predicate OneCallEach(inFlight: map<Call, (SignResult, StoreResult)>) {
    forall c, d | c in inFlight && d in inFlight && FlightRequest(inFlight[c]) == FlightRequest(inFlight[d]) :: c == d
  }

  /** Each owed request is filed under the id of the row it records. */
  predicate OwedById(p: Pipeline) {
    forall id | id in p.owed :: exists i | 0 <= i < |p.store| :: p.store[i].id == id && p.owed[id] == RequestFor(p.store[i])
  }

  predicate StoreOk(p: Pipeline) {
    && (forall i, j | 0 <= i < j < |p.store| ::
          && p.store[i].id != p.store[j].id
          && !(p.store[i].evidenceId == p.store[j].evidenceId && p.store[i].version == p.store[j].version))
    && (forall i | 0 <= i < |p.store| :: p.store[i].id < p.nextId)
  }

  predicate LedgerOk(h: Hasher, p: Pipeline) {
    IsChain(h, p.ledger) && SequencesRise(p.ledger)
    && forall i | 0 <= i < |p.ledger| :: p.ledger[i].sequence < p.nextSequence
  }

  predicate Inv(h: Hasher, p: Pipeline) {
    && StoreOk(p) && LedgerOk(h, p) && Conserved(p)
    && RecordedOnce(p.ledger) && OneCallEach(p.inFlight) && OwedById(p)
  }

  /* ---------- Requests identify rows ---------- */

  /**
   Sanitizing and storing lose nothing the request needs: all three routes build the same one, which records
   the row under the signature that was made.
   */
  lemma SameRequestOnEveryRoute(id: nat, evidenceId: string, evidence: Json, version: int, s: SignResult, createdAt: int)
    ensures var row := NewStoredRow(id, evidenceId, evidence, version, s, createdAt);
      && CreateLedgerRequest(s, MapStoredRow(row)) == RequestFor(row)
      && CreateLedgerRequest(SanitizeSignResult(s), MapStoredRow(row)) == RequestFor(row)
      && Records(RequestFor(row), row) && row.signature == s.signatureBase64
  {
    RequestRecords(NewStoredRow(id, evidenceId, evidence, version, s, createdAt));
  }

  lemma SanitizeKeepsRequest(s: SignResult, r: StoreResult)
    ensures CreateLedgerRequest(SanitizeSignResult(s), r) == CreateLedgerRequest(s, r)
  {
  }

  lemma RequestNamesRow(a: StoredRow, b: StoredRow)
    requires RequestFor(a) == RequestFor(b)
    ensures a.id == b.id
  {
    var x, y := RequestFor(a).payload.members, RequestFor(b).payload.members;
    assert x[7].value.members[0].value == y[7].value.members[0].value;
  }

  /* ---------- How each step moves a request ---------- */

  lemma RecordedSnoc(ledger: seq<Row>, row: Row)
    ensures Recorded(ledger + [row]) == Recorded(ledger) + if IsStoredEvent(row) then {RequestIn(row)} else {}
  {
    var l := ledger + [row];
    forall r | r in Recorded(ledger) ensures r in Recorded(l) {
      var i :| 0 <= i < |ledger| && IsStoredEvent(ledger[i]) && r == RequestIn(ledger[i]);
      assert l[i] == ledger[i];
    }
    assert l[|ledger|] == row;
  }

  lemma RequiredSnoc(store: seq<StoredRow>, row: StoredRow)
    ensures Required(store + [row]) == Required(store) + {RequestFor(row)}
  {
    var s := store + [row];
    forall r | r in Required(store) ensures r in Required(s) {
      var i :| 0 <= i < |store| && r == RequestFor(store[i]);
      assert s[i] == store[i];
    }
    assert s[|store|] == row;
  }

  lemma FlyingAdd(inFlight: map<Call, (SignResult, StoreResult)>, c: Call, call: (SignResult, StoreResult))
    requires c !in inFlight
    ensures Flying(inFlight[c := call]) == Flying(inFlight) + {FlightRequest(call)}
  {
    var m := inFlight[c := call];
    assert c in m;
    forall r | r in Flying(inFlight) ensures r in Flying(m) {
      var d :| d in inFlight && r == FlightRequest(inFlight[d]);
      assert d in m && m[d] == inFlight[d];
    }
  }

  lemma FlyingRemove(inFlight: map<Call, (SignResult, StoreResult)>, c: Call)
    requires c in inFlight && OneCallEach(inFlight)
    ensures Flying(inFlight - {c}) == Flying(inFlight) - {FlightRequest(inFlight[c])}
    ensures FlightRequest(inFlight[c]) in Flying(inFlight)
    ensures OneCallEach(inFlight - {c})
  {
    var m := inFlight - {c};
    forall r | r in Flying(inFlight) - {FlightRequest(inFlight[c])} ensures r in Flying(m) {
      var d :| d in inFlight && r == FlightRequest(inFlight[d]);
      assert d in m && m[d] == inFlight[d];
    }
  }

  lemma OwedAdd(owed: map<nat, Request>, id: nat, r: Request)
    requires id !in owed
    ensures Owed(owed[id := r]) == Owed(owed) + {r}
  {
    var m := owed[id := r];
    assert id in m;
    forall q | q in Owed(owed) ensures q in Owed(m) {
      var k :| k in owed && q == owed[k];
      assert k in m && m[k] == owed[k];
    }
  }

  lemma OwedRemove(owed: map<nat, Request>, id: nat)
    requires id in owed
    requires forall k | k in owed && owed[k] == owed[id] :: k == id
    ensures Owed(owed - {id}) == Owed(owed) - {owed[id]}
    ensures owed[id] in Owed(owed)
  {
    var m := owed - {id};
    forall q | q in Owed(owed) - {owed[id]} ensures q in Owed(m) {
      var k :| k in owed && q == owed[k];
      assert k in m && m[k] == owed[k];
    }
  }

  /** Appending a request to the ledger keeps the chain and records the request, if it is of that kind. */
  lemma AppendRecords(h: Hasher, p: Pipeline, request: Request, eventId: string, createdAt: int)
    requires LedgerOk(h, p) && RecordedOnce(p.ledger)
    requires request.eventType == EVIDENCE_STORED ==> request !in Recorded(p.ledger)
    ensures var p' := Append(h, p, request, eventId, createdAt);
      && LedgerOk(h, p') && RecordedOnce(p'.ledger)
      && Recorded(p'.ledger) == Recorded(p.ledger) + if request.eventType == EVIDENCE_STORED then {request} else {}
  {
    NewestIsLast(p.ledger);
    var row := NewRow(h, request, NewestHash(p.ledger), p.nextSequence, eventId, createdAt);
    AppendKeepsChain(h, p.ledger, row);
    RecordedSnoc(p.ledger, row);
    var l := p.ledger + [row];
    forall i | 0 <= i < |p.ledger| && IsStoredEvent(l[i]) && IsStoredEvent(row) ensures RequestIn(l[i]) != request {
      assert RequestIn(p.ledger[i]) in Recorded(p.ledger);
    }
  }

  function Stored(p: Pipeline, c: Call, call: (SignResult, StoreResult), row: StoredRow): Pipeline {
    p.(store := p.store + [row], nextId := p.nextId + 1, inFlight := p.inFlight[c := call])
  }

  /** The new row's request is new, and is in flight. */
  lemma StoreConserves(p: Pipeline, c: Call, call: (SignResult, StoreResult), row: StoredRow)
    requires StoreOk(p) && Conserved(p) && OneCallEach(p.inFlight)
    requires c !in p.inFlight && row.id == p.nextId && FlightRequest(call) == RequestFor(row)
    ensures Conserved(Stored(p, c, call, row)) && OneCallEach(p.inFlight[c := call])
  {
    NewRowIsNew(p, row);
    RequiredSnoc(p.store, row);
    FlyingAdd(p.inFlight, c, call);
    forall d | d in p.inFlight ensures FlightRequest(p.inFlight[d]) != RequestFor(row) {
      assert FlightRequest(p.inFlight[d]) in Flying(p.inFlight);
    }
  }

  lemma StoreKeepsInv(h: Hasher, p: Pipeline, c: Call, input: Input, fault: bool, createdAt: int)
    requires Inv(h, p)
    ensures Inv(h, Advance(h, p, Store(c, input, fault, createdAt)))
  {
    if c !in p.inFlight && Refusal(p, input, fault).None? {
      var s := input.sign.value;
      var row := NewStoredRow(p.nextId, EvidenceIdOf(input.evidence), input.evidence, input.version, s, createdAt);
      SameRequestOnEveryRoute(p.nextId, EvidenceIdOf(input.evidence), input.evidence, input.version, s, createdAt);
      StoreConserves(p, c, (s, MapStoredRow(row)), row);
      StoreGrows(p, Stored(p, c, (s, MapStoredRow(row)), row), row);
    }
  }

  lemma NewRowIsNew(p: Pipeline, row: StoredRow)
    requires StoreOk(p) && row.id == p.nextId
    ensures RequestFor(row) !in Required(p.store)
  {
    forall i | 0 <= i < |p.store| ensures RequestFor(p.store[i]) != RequestFor(row) {
      if RequestFor(p.store[i]) == RequestFor(row) {
        RequestNamesRow(p.store[i], row);
      }
    }
  }

  lemma StoreGrows(p: Pipeline, p': Pipeline, row: StoredRow)
    requires StoreOk(p) && OwedById(p) && row.id == p.nextId
    requires !Exists(p.store, row.evidenceId, row.version)
    requires p'.store == p.store + [row] && p'.nextId == p.nextId + 1 && p'.owed == p.owed
    ensures StoreOk(p') && OwedById(p')
  {
    forall id | id in p'.owed ensures exists i | 0 <= i < |p'.store| :: p'.store[i].id == id && p'.owed[id] == RequestFor(p'.store[i]) {
      var i :| 0 <= i < |p.store| && p.store[i].id == id && p.owed[id] == RequestFor(p.store[i]);
      assert p'.store[i] == p.store[i];
    }
  }

  lemma RecordKeepsInv(h: Hasher, p: Pipeline, c: Call, eventId: string, createdAt: int)
    requires Inv(h, p)
    ensures Inv(h, Advance(h, p, Record(c, eventId, createdAt)))
  {
    if c in p.inFlight {
      var request := FlightRequest(p.inFlight[c]);
      FlyingRemove(p.inFlight, c);
      if CanAppend(p, request, eventId) {
        AppendRecords(h, p, request, eventId, createdAt);
      }
    }
  }

  /** A request in flight or owed belongs to a stored row. */
  lemma FlightHasRow(p: Pipeline, c: Call) returns (i: nat)
    requires Conserved(p) && c in p.inFlight
    ensures i < |p.store| && FlightRequest(p.inFlight[c]) == RequestFor(p.store[i])
    ensures p.inFlight[c].1.id == p.store[i].id
  {
    var r := FlightRequest(p.inFlight[c]);
    assert r in Flying(p.inFlight);
    assert r in Required(p.store);
    i :| 0 <= i < |p.store| && r == RequestFor(p.store[i]);
    var x, y := r.payload.members, RequestFor(p.store[i]).payload.members;
    assert x[7].value.members[0].value == y[7].value.members[0].value;
  }

  lemma OwedIsForRow(p: Pipeline, i: nat)
    requires StoreOk(p) && OwedById(p) && i < |p.store| && p.store[i].id in p.owed
    ensures p.owed[p.store[i].id] == RequestFor(p.store[i]) && RequestFor(p.store[i]) in Owed(p.owed)
  {
    var id := p.store[i].id;
    var j :| 0 <= j < |p.store| && p.store[j].id == id && p.owed[id] == RequestFor(p.store[j]);
    assert i == j;
  }

  lemma FailKeepsInv(h: Hasher, p: Pipeline, c: Call)
    requires Inv(h, p)
    ensures Inv(h, Advance(h, p, FailRecord(c)))
  {
    if c in p.inFlight {
      var (s, r) := p.inFlight[c];
      var request := FlightRequest(p.inFlight[c]);
      var i := FlightHasRow(p, c);
      SanitizeKeepsRequest(s, r);
      FlyingRemove(p.inFlight, c);
      if r.id in p.owed {
        OwedIsForRow(p, i);
      }
      OwedAdd(p.owed, r.id, request);
    }
  }

  lemma OwedIsInjective(p: Pipeline, id: nat, k: nat)
    requires OwedById(p) && id in p.owed && k in p.owed && p.owed[k] == p.owed[id]
    ensures k == id
  {
    var i :| 0 <= i < |p.store| && p.store[i].id == id && p.owed[id] == RequestFor(p.store[i]);
    var j :| 0 <= j < |p.store| && p.store[j].id == k && p.owed[k] == RequestFor(p.store[j]);
    RequestNamesRow(p.store[i], p.store[j]);
  }

  lemma OwedSettles(p: Pipeline, id: nat)
    requires StoreOk(p) && OwedById(p) && id in p.owed
    ensures Owed(p.owed - {id}) == Owed(p.owed) - {p.owed[id]} && p.owed[id] in Owed(p.owed)
    ensures p.owed[id].eventType == EVIDENCE_STORED
  {
    forall k | k in p.owed && p.owed[k] == p.owed[id] ensures k == id {
      OwedIsInjective(p, id, k);
    }
    OwedRemove(p.owed, id);
    var i :| 0 <= i < |p.store| && p.store[i].id == id && p.owed[id] == RequestFor(p.store[i]);
  }

  lemma ReconcileKeepsInv(h: Hasher, p: Pipeline, id: nat, eventId: string, createdAt: int)
    requires Inv(h, p)
    ensures Inv(h, Advance(h, p, Reconcile(id, eventId, createdAt)))
  {
    if id in p.owed && CanAppend(p, p.owed[id], eventId) {
      OwedSettles(p, id);
      AppendRecords(h, p, p.owed[id], eventId, createdAt);
    }
  }

  lemma StepKeepsInv(h: Hasher, p: Pipeline, step: PipelineStep)
    requires Inv(h, p)
    ensures Inv(h, Advance(h, p, step))
  {
    match step
    case Store(c, input, fault, createdAt) => StoreKeepsInv(h, p, c, input, fault, createdAt);
    case Record(c, eventId, createdAt) => RecordKeepsInv(h, p, c, eventId, createdAt);
    case FailRecord(c) => FailKeepsInv(h, p, c);
    case Reconcile(id, eventId, createdAt) => ReconcileKeepsInv(h, p, id, eventId, createdAt);
    case OtherEvent(request, eventId, createdAt) =>
      if request.eventType != EVIDENCE_STORED && CanAppend(p, request, eventId) {
        AppendRecords(h, p, request, eventId, createdAt);
      }
    case LoseId =>
    case LoseSequence =>
  }

  lemma {:induction false} RunKeepsInv(h: Hasher, steps: seq<PipelineStep>)
    ensures Inv(h, RunAll(h, IDLE, steps))
    decreases |steps|
  {
    if steps != [] {
      RunKeepsInv(h, steps[..|steps| - 1]);
      StepKeepsInv(h, RunAll(h, IDLE, steps[..|steps| - 1]), steps[|steps| - 1]);
    }
  }

  /** A stored row has a clean evidence id, a version from 1 on, a digest, and names for all it was signed with. */
  predicate RowIsValid(row: StoredRow) {
    && Get(row.evidence, "evidenceId") == Some(Str(row.evidenceId)) && ValidEvidenceId(row.evidenceId)
    && row.version >= 1 && IsDigestHex(row.digestHex)
    && row.canonicalization != "" && row.hashAlgorithm != "" && row.signature != "" && row.signingAlgorithm != ""
  }

  predicate RowsAreValid(store: seq<StoredRow>) {
    forall i | 0 <= i < |store| :: RowIsValid(store[i])
  }

  lemma StepKeepsRowsValid(h: Hasher, p: Pipeline, step: PipelineStep)
    requires RowsAreValid(p.store)
    ensures RowsAreValid(Advance(h, p, step).store)
  {
    if step.Store? && step.c !in p.inFlight && Refusal(p, step.input, step.fault).None? {
      RefusesExactly(p, step.input, step.fault);
    }
  }

  /** Whatever happens, only valid rows are stored. */
  lemma {:induction false} StoredRowsAreValid(h: Hasher, steps: seq<PipelineStep>)
    ensures RowsAreValid(RunAll(h, IDLE, steps).store)
    decreases |steps|
  {
    if steps != [] {
      StoredRowsAreValid(h, steps[..|steps| - 1]);
      StepKeepsRowsValid(h, RunAll(h, IDLE, steps[..|steps| - 1]), steps[|steps| - 1]);
    }
  }

  /** Event ids are unique: every row is appended under an id that no earlier one has. */
  predicate IdsDiffer(ledger: seq<Row>) {
    forall i, j | 0 <= i < j < |ledger| :: ledger[i].eventId != ledger[j].eventId
  }

  lemma StepKeepsIds(h: Hasher, p: Pipeline, step: PipelineStep)
    requires IdsDiffer(p.ledger)
    ensures IdsDiffer(Advance(h, p, step).ledger)
  {
  }

  /* ---------- The pipeline's promises ---------- */

  lemma EventHasRow(h: Hasher, p: Pipeline, k: nat) returns (i: nat)
    requires Inv(h, p) && k < |p.ledger| && IsStoredEvent(p.ledger[k])
    ensures i < |p.store|
    ensures RequestIn(p.ledger[k]) == RequestFor(p.store[i])
    ensures Records(RequestIn(p.ledger[k]), p.store[i])
  {
    assert RequestIn(p.ledger[k]) in Recorded(p.ledger);
    assert RequestIn(p.ledger[k]) in Required(p.store);
    i :| 0 <= i < |p.store| && RequestIn(p.ledger[k]) == RequestFor(p.store[i]);
    RequestRecords(p.store[i]);
  }

  /** Every evidence.stored event records a stored row: its own signature, over a payload that tells all about it. */
  lemma EveryEventHasItsRow(h: Hasher, steps: seq<PipelineStep>, k: nat) returns (i: nat)
    requires var p := RunAll(h, IDLE, steps); k < |p.ledger| && IsStoredEvent(p.ledger[k])
    ensures var p := RunAll(h, IDLE, steps);
      && i < |p.store|
      && p.ledger[k].signature == p.store[i].signature
      && PayloadTells(p.ledger[k].payload, p.store[i])
  {
    RunKeepsInv(h, steps);
    i := EventHasRow(h, RunAll(h, IDLE, steps), k);
  }

  /** One event per row, one row per (evidenceId, version), and a ledger the chain scan accepts. */
  lemma NothingIsDoubled(h: Hasher, steps: seq<PipelineStep>)
    ensures var p := RunAll(h, IDLE, steps);
      && RecordedOnce(p.ledger)
      && (forall i, j | 0 <= i < j < |p.store| ::
            !(p.store[i].evidenceId == p.store[j].evidenceId && p.store[i].version == p.store[j].version))
      && IsChain(h, p.ledger)
  {
    RunKeepsInv(h, steps);
  }

  /**
   With no call under way, the rows without a ledger event are exactly the ones with a reconciliation
   request outstanding, and that request is the one the success path would have sent.
   */
  lemma UnrecordedIsOwed(h: Hasher, steps: seq<PipelineStep>, i: nat)
    requires var p := RunAll(h, IDLE, steps); i < |p.store| && p.inFlight == map[]
    ensures var p := RunAll(h, IDLE, steps);
      && (RequestFor(p.store[i]) !in Recorded(p.ledger) <==> p.store[i].id in p.owed)
      && (p.store[i].id in p.owed ==> p.owed[p.store[i].id] == RequestFor(p.store[i]))
  {
    RunKeepsInv(h, steps);
    var p := RunAll(h, IDLE, steps);
    var r, id := RequestFor(p.store[i]), p.store[i].id;
    assert r in Required(p.store);
    assert Flying(p.inFlight) == {};
    if r in Owed(p.owed) {
      var k :| k in p.owed && r == p.owed[k];
      var j :| 0 <= j < |p.store| && p.store[j].id == k && p.owed[k] == RequestFor(p.store[j]);
      RequestNamesRow(p.store[i], p.store[j]);
    }
    if id in p.owed {
      OwedIsForRow(p, i);
    }
  }
}
