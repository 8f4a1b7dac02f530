/**
 The evidence pipeline: `processEvidence` of lib/evidence-processing-service.js over the store of
 lib/pg-evidence-store.js and the signing ledger, with store failures, ledger failures and retries
 of the reconciliation data an interrupted call leaves behind.
 */
module EvidencePipeline {
  import opened Prelude
  import opened JsonValue
  import opened JsText
  import opened TextLines
  import opened SigningLedger
  import opened LedgerProtocol

  /* ---------- Records ---------- */

  /** A property that JavaScript code reads with `?? null`. */
  datatype Nullish = Undefined | Nil | Text(s: string)

  function OrNull(x: Nullish): Nullish {
    if x.Undefined? then Nil else x
  }

  function NullishJson(x: Nullish): Json {
    if x.Text? then Str(x.s) else Null
  }

  datatype SignResult = SignResult(
    canonicalization: string, hashAlgorithm: string, digestHex: string, signatureBase64: string,
    signatureAlgorithm: string, kmsKeyId: Nullish, signedAt: Nullish)

  datatype StoredRow = StoredRow(
    id: nat, evidenceId: string, version: int, evidence: Json, canonicalization: string,
    hashAlgorithm: string, digestHex: string, signature: string, signingAlgorithm: string,
    kmsKeyId: Nullish, createdAt: int)

  /** What `appendEvidence` returns. */
  datatype StoreResult = StoreResult(
    id: nat, evidenceId: string, version: int, digestHex: string, kmsKeyId: Nullish, createdAt: int)

  function MapStoredRow(row: StoredRow): StoreResult {
    StoreResult(row.id, row.evidenceId, row.version, row.digestHex, row.kmsKeyId, row.createdAt)
  }

  function SanitizeSignResult(s: SignResult): SignResult {
    s.(kmsKeyId := OrNull(s.kmsKeyId), signedAt := OrNull(s.signedAt))
  }

  function CreateLedgerPayload(s: SignResult, r: StoreResult): Json {
    Obj([
      Member("evidenceId", Str(r.evidenceId)),
      Member("version", Num(r.version)),
      Member("digestHex", Str(s.digestHex)),
      Member("canonicalization", Str(s.canonicalization)),
      Member("hashAlgorithm", Str(s.hashAlgorithm)),
      Member("signatureAlgorithm", Str(s.signatureAlgorithm)),
      Member("kmsKeyId", NullishJson(OrNull(s.kmsKeyId))),
      Member("storeReference", ReferenceTo(r))])
  }

  function ReferenceTo(r: StoreResult): Json {
    Obj([
      Member("id", Num(r.id)),
      Member("evidenceId", Str(r.evidenceId)),
      Member("version", Num(r.version)),
      Member("digestHex", Str(r.digestHex)),
      Member("createdAt", Num(r.createdAt))])
  }

  function CreateLedgerRequest(s: SignResult, r: StoreResult): Request {
    Request(EVIDENCE_STORED, CreateLedgerPayload(s, r), s.signatureBase64)
  }

  /** The request that records a stored row, read off the row alone. */
  function RequestFor(row: StoredRow): Request {
    CreateLedgerRequest(
      SignResult(row.canonicalization, row.hashAlgorithm, row.digestHex, row.signature, row.signingAlgorithm,
                 row.kmsKeyId, Nil),
      MapStoredRow(row))
  }

  /** The request that a ledger row carries. */
  function RequestIn(row: Row): Request {
    Request(row.eventType, row.payload, row.signature)
  }

  /* ---------- What a reader of the ledger finds in a request ---------- */

  /** A reference to a stored row: its id and version, its digest and its time. */
  predicate RefersTo(reference: Json, row: StoredRow) {
    && Get(reference, "id") == Some(Num(row.id))
    && Get(reference, "evidenceId") == Some(Str(row.evidenceId))
    && Get(reference, "version") == Some(Num(row.version))
    && Get(reference, "digestHex") == Some(Str(row.digestHex))
    && Get(reference, "createdAt") == Some(Num(row.createdAt))
  }

  predicate PayloadTells(payload: Json, row: StoredRow) {
    && Get(payload, "evidenceId") == Some(Str(row.evidenceId))
    && Get(payload, "version") == Some(Num(row.version))
    && Get(payload, "digestHex") == Some(Str(row.digestHex))
    && Get(payload, "canonicalization") == Some(Str(row.canonicalization))
    && Get(payload, "hashAlgorithm") == Some(Str(row.hashAlgorithm))
    && Get(payload, "signatureAlgorithm") == Some(Str(row.signingAlgorithm))
    && Get(payload, "kmsKeyId") == Some(if row.kmsKeyId.Text? then Str(row.kmsKeyId.s) else Null)
    && Get(payload, "storeReference").Some? && RefersTo(Get(payload, "storeReference").value, row)
  }

  /** The request records the row: the row's own signature, over a payload that tells all about it. */
  predicate Records(request: Request, row: StoredRow) {
    && request.eventType == "evidence.stored" && request.signature == row.signature
    && PayloadTells(request.payload, row)
  }

  lemma ReferenceRefers(row: StoredRow)
    ensures RefersTo(ReferenceTo(MapStoredRow(row)), row)
  {
    var members := ReferenceTo(MapStoredRow(row)).members;
    LookupFinds(members, 0);
    LookupFinds(members, 1);
    LookupFinds(members, 2);
    LookupFinds(members, 3);
    LookupFinds(members, 4);
  }

  lemma PayloadHasFields(members: seq<Member>)
    requires |members| == 8 && DistinctKeys(members)
    ensures forall i | 0 <= i < 8 :: Get(Obj(members), members[i].key) == Some(members[i].value)
  {
    forall i | 0 <= i < 8 ensures Get(Obj(members), members[i].key) == Some(members[i].value) {
      LookupFinds(members, i);
    }
  }

  lemma PayloadKeysDiffer(s: SignResult, r: StoreResult)
    ensures |CreateLedgerPayload(s, r).members| == 8 && DistinctKeys(CreateLedgerPayload(s, r).members)
  {
  }

  lemma PayloadIsFound(s: SignResult, r: StoreResult)
    ensures var payload := CreateLedgerPayload(s, r);
      && Get(payload, "evidenceId") == Some(Str(r.evidenceId))
      && Get(payload, "version") == Some(Num(r.version))
      && Get(payload, "digestHex") == Some(Str(s.digestHex))
      && Get(payload, "canonicalization") == Some(Str(s.canonicalization))
      && Get(payload, "hashAlgorithm") == Some(Str(s.hashAlgorithm))
      && Get(payload, "signatureAlgorithm") == Some(Str(s.signatureAlgorithm))
      && Get(payload, "kmsKeyId") == Some(if s.kmsKeyId.Text? then Str(s.kmsKeyId.s) else Null)
      && Get(payload, "storeReference") == Some(ReferenceTo(r))
  {
    var members := CreateLedgerPayload(s, r).members;
    PayloadKeysDiffer(s, r);
    PayloadHasFields(members);
    assert members[0].key == "evidenceId" && members[1].key == "version" && members[2].key == "digestHex";
    assert members[3].key == "canonicalization" && members[4].key == "hashAlgorithm";
    assert members[5].key == "signatureAlgorithm" && members[6].key == "kmsKeyId" && members[7].key == "storeReference";
  }

  lemma RequestRecords(row: StoredRow)
    ensures Records(RequestFor(row), row)
  {
    var r := MapStoredRow(row);
    PayloadIsFound(
      SignResult(row.canonicalization, row.hashAlgorithm, row.digestHex, row.signature, row.signingAlgorithm,
                 row.kmsKeyId, Nil), r);
    ReferenceRefers(row);
  }

  /* ---------- The store ---------- */

  datatype StoreError =
    | InvalidEvidenceId
    | InvalidVersion
    | InvalidDigest
    | InvalidCanonicalization
    | InvalidHashAlgorithm
    | InvalidSignature
    | InvalidSigningAlgorithm
    | VersionAlreadyExists
    | WriteFailed

  predicate ValidEvidenceId(id: string) {
    Trim(id) != "" && forall i | 0 <= i < |id| :: id[i] as int >= 0x20
  }

  /**
   The checks `appendEvidence` makes before its INSERT, in its order. Evidence with a string
   evidenceId is an object, so the check that it is one cannot fail after the first.
   */
  function StoreRefusal(evidence: Json, version: int, s: SignResult): Option<StoreError> {
    match Get(evidence, "evidenceId")
    case Some(Str(id)) =>
      if !ValidEvidenceId(id) then Some(InvalidEvidenceId)
      else if version < 1 then Some(InvalidVersion)
      else if !IsDigestHex(s.digestHex) then Some(InvalidDigest)
      else if s.canonicalization == "" then Some(InvalidCanonicalization)
      else if s.hashAlgorithm == "" then Some(InvalidHashAlgorithm)
      else if s.signatureBase64 == "" then Some(InvalidSignature)
      else if s.signatureAlgorithm == "" then Some(InvalidSigningAlgorithm)
      else None
    case _ => Some(InvalidEvidenceId)
  }

  predicate Exists(store: seq<StoredRow>, evidenceId: string, version: int) {
    exists i | 0 <= i < |store| :: store[i].evidenceId == evidenceId && store[i].version == version
  }

  function NewStoredRow(id: nat, evidenceId: string, evidence: Json, version: int, s: SignResult, createdAt: int): StoredRow {
    StoredRow(id, evidenceId, version, evidence, s.canonicalization, s.hashAlgorithm, s.digestHex,
              s.signatureBase64, s.signatureAlgorithm, OrNull(s.kmsKeyId), createdAt)
  }

  /** The row stores this evidence, version and signature. */
  predicate Stores(row: StoredRow, evidence: Json, version: int, s: SignResult, createdAt: int) {
    && Get(evidence, "evidenceId") == Some(Str(row.evidenceId))
    && row.evidence == evidence && row.version == version && row.createdAt == createdAt
    && row.canonicalization == s.canonicalization && row.hashAlgorithm == s.hashAlgorithm
    && row.digestHex == s.digestHex && row.signature == s.signatureBase64
    && row.signingAlgorithm == s.signatureAlgorithm
    && row.kmsKeyId == if s.kmsKeyId == Undefined then Nil else s.kmsKeyId
  }

  /** What the store demands of a row. */
  predicate MayBeStored(evidence: Json, version: int, s: SignResult) {
    && HasValidId(evidence) && version >= 1
    && |s.digestHex| == 64 && (forall i | 0 <= i < 64 :: '0' <= s.digestHex[i] <= '9' || 'a' <= s.digestHex[i] <= 'f')
    && s.canonicalization != "" && s.hashAlgorithm != "" && s.signatureBase64 != "" && s.signatureAlgorithm != ""
  }

  lemma IdIsValidExactly(id: string)
    ensures ValidEvidenceId(id) <==>
      (exists i | 0 <= i < |id| :: !IsSpace(id[i])) && forall i | 0 <= i < |id| :: id[i] as int >= 32
  {
    TrimLeavesNothing(id);
  }

  /** Which check of the store fails: the first of these that does. */
  lemma StoreRefusesExactly(evidence: Json, version: int, s: SignResult)
    ensures var r := StoreRefusal(evidence, version, s);
      && (r.None? <==> MayBeStored(evidence, version, s))
      && (r == Some(InvalidEvidenceId) <==> !HasValidId(evidence))
      && (r == Some(InvalidVersion) <==> HasValidId(evidence) && version < 1)
      && (r == Some(InvalidDigest) <==> HasValidId(evidence) && version >= 1 && !IsDigestHex(s.digestHex))
      && (r == Some(InvalidCanonicalization) <==>
            HasValidId(evidence) && version >= 1 && IsDigestHex(s.digestHex) && s.canonicalization == "")
      && (r == Some(InvalidHashAlgorithm) <==>
            && HasValidId(evidence) && version >= 1 && IsDigestHex(s.digestHex) && s.canonicalization != ""
            && s.hashAlgorithm == "")
      && (r == Some(InvalidSignature) <==>
            && HasValidId(evidence) && version >= 1 && IsDigestHex(s.digestHex) && s.canonicalization != ""
            && s.hashAlgorithm != "" && s.signatureBase64 == "")
      && r != Some(VersionAlreadyExists) && r != Some(WriteFailed)
  {
  }

  /** The evidence has an id, of more than white space and without control characters. */
  predicate HasValidId(evidence: Json) {
    && Get(evidence, "evidenceId").Some? && Get(evidence, "evidenceId").value.Str?
    && ValidEvidenceId(Get(evidence, "evidenceId").value.s)
  }

  /* ---------- The system and its steps ---------- */

  type Call = nat

  /**
   Both tables, the calls between their store write and their ledger write, and the reconciliation
   requests that have been handed out and not yet been carried out, by id of the stored row.
   */
  datatype Pipeline = Pipeline(
    store: seq<StoredRow>, nextId: nat,
    ledger: seq<Row>, nextSequence: nat,
    inFlight: map<Call, (SignResult, StoreResult)>,
    owed: map<nat, Request>)

  const IDLE: Pipeline := Pipeline([], 1, [], 1, map[], map[])

  /** One call's arguments; `sign` is None when signing fails. */
  datatype Input = Input(evidence: Json, schemaValid: bool, version: int, sign: Option<SignResult>)

  datatype Step =
    | Store(c: Call, input: Input, fault: bool, createdAt: int)       // validate, sign and store
    | Record(c: Call, eventId: string, createdAt: int)                // the call's ledger write
    | FailRecord(c: Call)                                             // it fails instead
    | Reconcile(id: nat, eventId: string, createdAt: int)             // a retried request
    | OtherEvent(request: Request, eventId: string, createdAt: int)   // any other ledger event
    | LoseSequence                                                    // a ledger INSERT fails or is rolled back
    | LoseId                                                          // a store INSERT fails after taking its id

  datatype ProcessError =
    | SchemaValidationFailed
    | BadVersion
    | SigningFailed
    | StoreWriteFailed(code: StoreError, signResult: SignResult)
    | LedgerWriteFailed(ledgerSignResult: SignResult, storeResult: StoreResult, reconciliationData: Request)

  /** Why a call stops before its ledger write, if it does. */
  function Refusal(p: Pipeline, input: Input, fault: bool): Option<ProcessError> {
    if !input.schemaValid then Some(SchemaValidationFailed)
    else if input.version < 1 then Some(BadVersion)
    else if input.sign.None? then Some(SigningFailed)
    else
      var s := input.sign.value;
      var refusal := StoreRefusal(input.evidence, input.version, s);
      if refusal.Some? then Some(StoreWriteFailed(refusal.value, SanitizeSignResult(s)))
      else if fault then Some(StoreWriteFailed(WriteFailed, SanitizeSignResult(s)))
      else if Exists(p.store, EvidenceIdOf(input.evidence), input.version)
      then Some(StoreWriteFailed(VersionAlreadyExists, SanitizeSignResult(s)))
      else None
  }

  /** An INSERT that meets a taken version has used up its row id; nothing else of a refused call remains. */
  function AfterRefusal(p: Pipeline, e: ProcessError): Pipeline {
    if e.StoreWriteFailed? && e.code == VersionAlreadyExists then p.(nextId := p.nextId + 1) else p
  }

  /** A call gets past the store exactly when the schema, the signer and the store agree to it. */
  lemma RefusesExactly(p: Pipeline, input: Input, fault: bool)
    ensures Refusal(p, input, fault).None? <==>
      && input.schemaValid && input.sign.Some? && MayBeStored(input.evidence, input.version, input.sign.value) && !fault
      && !exists i | 0 <= i < |p.store| ::
           Get(input.evidence, "evidenceId") == Some(Str(p.store[i].evidenceId)) && p.store[i].version == input.version
    ensures Refusal(p, input, fault) == Some(SchemaValidationFailed) <==> !input.schemaValid
    ensures Refusal(p, input, fault) == Some(BadVersion) <==> input.schemaValid && input.version < 1
    ensures Refusal(p, input, fault) == Some(SigningFailed) <==>
      input.schemaValid && input.version >= 1 && input.sign.None?
  {
    if input.sign.Some? {
      StoreRefusesExactly(input.evidence, input.version, input.sign.value);
    }
  }

  function EvidenceIdOf(evidence: Json): string {
    match Get(evidence, "evidenceId")
    case Some(Str(id)) => id
    case _ => ""
  }

  /** A ledger transaction all at once: what a transaction among others comes to when it commits. */
  function Append(h: Hasher, p: Pipeline, request: Request, eventId: string, createdAt: int): Pipeline {
    var l := Atomic(h, Ledger(p.ledger, p.nextSequence), AppendRow(request, eventId, createdAt));
    p.(ledger := l.rows, nextSequence := l.nextSequence)
  }

  predicate CanAppend(p: Pipeline, request: Request, eventId: string) {
    ValidRequest(request) && !EventIdTaken(p.ledger, eventId)
  }

  function Advance(h: Hasher, p: Pipeline, step: Step): Pipeline {
    match step
    case Store(c, input, fault, createdAt) =>
      if c in p.inFlight then p
      else if Refusal(p, input, fault).Some? then AfterRefusal(p, Refusal(p, input, fault).value)
      else
        var s := input.sign.value;
        var row := NewStoredRow(p.nextId, EvidenceIdOf(input.evidence), input.evidence, input.version, s, createdAt);
        p.(store := p.store + [row], nextId := p.nextId + 1, inFlight := p.inFlight[c := (s, MapStoredRow(row))])
    case Record(c, eventId, createdAt) =>
      if c in p.inFlight then
        var request := CreateLedgerRequest(p.inFlight[c].0, p.inFlight[c].1);
        if CanAppend(p, request, eventId)
        then Append(h, p, request, eventId, createdAt).(inFlight := p.inFlight - {c}) else p
      else p
    case FailRecord(c) =>
      if c in p.inFlight then
        var (s, r) := p.inFlight[c];
        p.(inFlight := p.inFlight - {c}, owed := p.owed[r.id := CreateLedgerRequest(SanitizeSignResult(s), r)])
      else p
    case Reconcile(id, eventId, createdAt) =>
      if id in p.owed && CanAppend(p, p.owed[id], eventId)
      then Append(h, p, p.owed[id], eventId, createdAt).(owed := p.owed - {id}) else p
    case OtherEvent(request, eventId, createdAt) =>
      if request.eventType != EVIDENCE_STORED && CanAppend(p, request, eventId)
      then Append(h, p, request, eventId, createdAt) else p
    case LoseId => p.(nextId := p.nextId + 1)
    case LoseSequence => p.(nextSequence := Atomic(h, Ledger(p.ledger, p.nextSequence), LostSequence).nextSequence)
  }

  /** A failed or rolled back INSERT leaves a gap in the numbers of its table, and nothing else. */
  lemma LossesLeaveGaps(h: Hasher, p: Pipeline)
    ensures Advance(h, p, LoseId) == p.(nextId := p.nextId + 1)
    ensures Advance(h, p, LoseSequence) == p.(nextSequence := p.nextSequence + 1)
  {
  }

  /** A call in flight lands: as a row of the ledger, or as a reconciliation request. */
  lemma FlightLands(h: Hasher, p: Pipeline, c: Call, s: SignResult, r: StoreResult, eventId: string, createdAt: int)
    requires c !in p.inFlight
    ensures var during := p.(inFlight := p.inFlight[c := (s, r)]);
      && Advance(h, during, FailRecord(c)) == p.(owed := p.owed[r.id := CreateLedgerRequest(SanitizeSignResult(s), r)])
      && (CanAppend(p, CreateLedgerRequest(s, r), eventId) ==>
            Advance(h, during, Record(c, eventId, createdAt)) == Append(h, p, CreateLedgerRequest(s, r), eventId, createdAt))
  {
    assert p.inFlight[c := (s, r)] - {c} == p.inFlight;
  }

  /** What the store's checks let through is a valid ledger request. */
  lemma StoredIsValid(evidence: Json, version: int, s: SignResult, r: StoreResult)
    requires StoreRefusal(evidence, version, s).None?
    ensures ValidRequest(CreateLedgerRequest(s, r))
  {
  }

  /** Sanitized or not, the sign result sends the request that the stored row would send, and it records the row. */
  lemma SentRequestRecords(id: nat, evidence: Json, version: int, s: SignResult, createdAt: int)
    requires MayBeStored(evidence, version, s)
    ensures var row := NewStoredRow(id, EvidenceIdOf(evidence), evidence, version, s, createdAt);
      && Stores(row, evidence, version, s, createdAt)
      && CreateLedgerRequest(s, MapStoredRow(row)) == RequestFor(row)
      && CreateLedgerRequest(SanitizeSignResult(s), MapStoredRow(row)) == RequestFor(row)
      && Records(RequestFor(row), row)
  {
    RequestRecords(NewStoredRow(id, EvidenceIdOf(evidence), evidence, version, s, createdAt));
  }

  /* ---------- The service as it runs ---------- */

  /** What a successful call returns. */
  datatype Receipt = Receipt(
    evidenceId: string, version: int, digest: string, canonicalization: string, hashAlgorithm: string,
    signatureAlgorithm: string, kmsKeyId: Nullish, signedAt: Nullish, storeReference: StoreResult,
    ledgerEventId: string)

  /** `x ?? null`, for what is not undefined or null in any other way. */
  predicate IsOrNull(y: Nullish, x: Nullish) {
    if x.Undefined? then y == Nil else y == x
  }

  /** The reference names the row. */
  predicate References(reference: StoreResult, row: StoredRow) {
    && reference.id == row.id && reference.evidenceId == row.evidenceId && reference.version == row.version
    && reference.digestHex == row.digestHex && reference.kmsKeyId == row.kmsKeyId && reference.createdAt == row.createdAt
  }

  /** The receipt tells what was signed, where it is stored, and which ledger event records it. */
  predicate Confirms(receipt: Receipt, s: SignResult, row: StoredRow, eventId: string) {
    && receipt.evidenceId == row.evidenceId && receipt.version == row.version && receipt.digest == s.digestHex
    && receipt.canonicalization == s.canonicalization && receipt.hashAlgorithm == s.hashAlgorithm
    && receipt.signatureAlgorithm == s.signatureAlgorithm
    && IsOrNull(receipt.kmsKeyId, s.kmsKeyId) && IsOrNull(receipt.signedAt, s.signedAt)
    && References(receipt.storeReference, row) && receipt.ledgerEventId == eventId
  }

  /** The sign result without undefined fields. */
  predicate Sanitized(t: SignResult, s: SignResult) {
    && t.canonicalization == s.canonicalization && t.hashAlgorithm == s.hashAlgorithm && t.digestHex == s.digestHex
    && t.signatureBase64 == s.signatureBase64 && t.signatureAlgorithm == s.signatureAlgorithm
    && IsOrNull(t.kmsKeyId, s.kmsKeyId) && IsOrNull(t.signedAt, s.signedAt)
  }

  class EvidenceProcessingService {
    var store: seq<StoredRow>
    var nextId: nat
    var ledger: seq<Row>
    var nextSequence: nat
    var inFlight: map<Call, (SignResult, StoreResult)>
    var owed: map<nat, Request>

    ghost function View(): Pipeline
      reads this
    {
      Pipeline(store, nextId, ledger, nextSequence, inFlight, owed)
    }

    constructor ()
      ensures View() == IDLE
    {
      store, nextId, ledger, nextSequence, inFlight, owed := [], 1, [], 1, map[], map[];
    }

    method AppendEvidence(evidence: Json, version: int, s: SignResult, fault: bool, createdAt: int)
      returns (r: Result<StoreResult, StoreError>)
      modifies this`store, this`nextId
      ensures match StoreRefusal(evidence, version, s)
              case Some(e) => r == Err(e)
              case None =>
                if fault then r == Err(WriteFailed)
                else if Exists(old(store), EvidenceIdOf(evidence), version) then r == Err(VersionAlreadyExists)
                else
                  var row := NewStoredRow(old(nextId), EvidenceIdOf(evidence), evidence, version, s, createdAt);
                  r == Ok(MapStoredRow(row)) && store == old(store) + [row] && nextId == old(nextId) + 1
      ensures r.Ok? ==> MayBeStored(evidence, version, s) && |store| == |old(store)| + 1
      ensures r.Ok? ==> References(r.value, store[|old(store)|]) && Stores(store[|old(store)|], evidence, version, s, createdAt)
      ensures r.Ok? ==>
        && CreateLedgerRequest(s, r.value) == CreateLedgerRequest(SanitizeSignResult(s), r.value) == RequestFor(store[|old(store)|])
        && Records(RequestFor(store[|old(store)|]), store[|old(store)|])
      ensures r.Err? ==> store == old(store)
      ensures r.Err? ==> nextId == if r.error == VersionAlreadyExists then old(nextId) + 1 else old(nextId)
    {
      var refusal := StoreRefusal(evidence, version, s);
      if refusal.Some? {
        return Err(refusal.value);
      }
      if fault {
        return Err(WriteFailed);
      }
      var evidenceId := EvidenceIdOf(evidence);
      for i := 0 to |store|
        invariant forall j | 0 <= j < i :: store[j].evidenceId != evidenceId || store[j].version != version
      {
        if store[i].evidenceId == evidenceId && store[i].version == version {
          nextId := nextId + 1;
          return Err(VersionAlreadyExists);
        }
      }
      var row := NewStoredRow(nextId, evidenceId, evidence, version, s, createdAt);
      StoreRefusesExactly(evidence, version, s);
      SentRequestRecords(nextId, evidence, version, s, createdAt);
      store := store + [row];
      nextId := nextId + 1;
      return Ok(MapStoredRow(row));
    }

    /** The ledger write, which also fails for reasons of its own. */
    method AppendEvent(h: Hasher, request: Request, fault: bool, eventId: string, createdAt: int) returns (ok: bool)
      modifies this`ledger, this`nextSequence
      ensures ok <==> !fault && CanAppend(old(View()), request, eventId)
      ensures View() == if ok then Append(h, old(View()), request, eventId, createdAt) else old(View())
      ensures ok ==> |ledger| == |old(ledger)| + 1
      ensures ok ==> RequestIn(ledger[|old(ledger)|]) == request && ledger[|old(ledger)|].eventId == eventId
    {
      if fault || !ValidRequest(request) || EventIdTaken(ledger, eventId) {
        return false;
      }
      ledger := ledger + [NewRow(h, request, NewestHash(ledger), nextSequence, eventId, createdAt)];
      nextSequence := nextSequence + 1;
      return true;
    }

    /** The ledger write of a stored row, and what the caller is told; `row` is what the reference names. */
    method RecordStored(h: Hasher, s: SignResult, storeResult: StoreResult, fault: bool, eventId: string, createdAt: int,
                        ghost row: StoredRow)
      returns (r: Result<Receipt, ProcessError>)
      requires References(storeResult, row) && row.digestHex == s.digestHex
      requires CreateLedgerRequest(s, storeResult) == CreateLedgerRequest(SanitizeSignResult(s), storeResult) == RequestFor(row)
      modifies this`ledger, this`nextSequence, this`owed
      ensures r.Ok? <==> !fault && CanAppend(old(View()), RequestFor(row), eventId)
      ensures View() ==
        if r.Ok? then Append(h, old(View()), RequestFor(row), eventId, createdAt)
        else old(View()).(owed := old(owed)[row.id := RequestFor(row)])
      ensures r.Ok? ==> Confirms(r.value, s, row, eventId) && |ledger| == |old(ledger)| + 1
      ensures r.Ok? ==> ledger[|old(ledger)|].eventId == eventId && RequestIn(ledger[|old(ledger)|]) == RequestFor(row)
      ensures r.Err? ==> r.error.LedgerWriteFailed? && Sanitized(r.error.ledgerSignResult, s)
      ensures r.Err? ==> References(r.error.storeResult, row) && r.error.reconciliationData == RequestFor(row)
    {
      var request := CreateLedgerRequest(s, storeResult);
      var recorded := AppendEvent(h, request, fault, eventId, createdAt);
      if !recorded {
        var sanitized := SanitizeSignResult(s);
        var reconciliation := CreateLedgerRequest(sanitized, storeResult);
        owed := owed[storeResult.id := reconciliation];
        return Err(LedgerWriteFailed(sanitized, storeResult, reconciliation));
      }
      return Ok(Receipt(
        storeResult.evidenceId, storeResult.version, s.digestHex, s.canonicalization, s.hashAlgorithm,
        s.signatureAlgorithm, OrNull(s.kmsKeyId), OrNull(s.signedAt), storeResult, eventId));
    }

    /** One call from start to end, as call `c`, among whatever other calls are in flight. */
    method ProcessEvidence(h: Hasher, c: Call, input: Input, storeFault: bool, ledgerFault: bool,
                           eventId: string, createdAt: int)
      returns (r: Result<Receipt, ProcessError>)
      requires c !in inFlight
      modifies this
      ensures View() == var stored := Advance(h, old(View()), Store(c, input, storeFault, createdAt));
        if Refusal(old(View()), input, storeFault).Some? then stored
        else if r.Ok? then Advance(h, stored, Record(c, eventId, createdAt))
        else Advance(h, stored, FailRecord(c))
      ensures c !in inFlight
      ensures Refusal(old(View()), input, storeFault).Some? ==>
        r == Err(Refusal(old(View()), input, storeFault).value)
      ensures Refusal(old(View()), input, storeFault).None? ==>
        && |store| == |old(store)| + 1 && store[..|old(store)|] == old(store)
        && input.sign.Some? && Stores(store[|old(store)|], input.evidence, input.version, input.sign.value, createdAt)
        && if ledgerFault || EventIdTaken(old(ledger), eventId) then
             && r.Err? && r.error.LedgerWriteFailed?
             && Sanitized(r.error.ledgerSignResult, input.sign.value)
             && References(r.error.storeResult, store[|old(store)|])
             && Records(r.error.reconciliationData, store[|old(store)|])
             && store[|old(store)|].id in owed && owed[store[|old(store)|].id] == r.error.reconciliationData
           else
             && r.Ok? && Confirms(r.value, input.sign.value, store[|old(store)|], eventId)
             && |ledger| == |old(ledger)| + 1
             && ledger[|old(ledger)|].eventId == eventId
             && Records(RequestIn(ledger[|old(ledger)|]), store[|old(store)|])
    {
      if !input.schemaValid {
        return Err(SchemaValidationFailed);
      }
      if input.version < 1 {
        return Err(BadVersion);
      }
      if input.sign.None? {
        return Err(SigningFailed);
      }
      var s := input.sign.value;
      var stored := AppendEvidence(input.evidence, input.version, s, storeFault, createdAt);
      if stored.Err? {
        return Err(StoreWriteFailed(stored.error, SanitizeSignResult(s)));
      }
      var storeResult := stored.value;
      ghost var during := View().(inFlight := inFlight[c := (s, storeResult)]);
      assert during == Advance(h, old(View()), Store(c, input, storeFault, createdAt));
      FlightLands(h, View(), c, s, storeResult, eventId, createdAt);
      StoredIsValid(input.evidence, input.version, s, storeResult);
      r := RecordStored(h, s, storeResult, ledgerFault, eventId, createdAt, store[|store| - 1]);
    }
  }
}
