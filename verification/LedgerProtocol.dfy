/**
 Concurrent appends to the signing ledger: any number of writers, each running the statements of
 `appendEvent` (BEGIN, advisory lock, read the last row, INSERT, then COMMIT or ROLLBACK), one
 statement at a time and in any interleaving.
 */
module LedgerProtocol {
  import opened Prelude
  import opened JsonValue
  import opened SigningLedger

  type Writer = nat

  datatype Request = Request(eventType: string, payload: Json, signature: string)

  /** How far a writer's open transaction has come. */
  datatype Phase =
    | Begun(request: Request)
    | Locked(request: Request)
    | Linked(request: Request, previousHash: string)
    | Inserted(request: Request, row: Row)
    | Doomed   // the INSERT failed: nothing but ROLLBACK can follow

  /** Committed rows in commit order, the BIGSERIAL counter, the advisory lock, open transactions. */
  datatype Table = Table(
    rows: seq<Row>, nextSequence: nat, holder: Option<Writer>, writers: map<Writer, Phase>)

  datatype Step =
    | Begin(w: Writer, request: Request)
    | Lock(w: Writer)
    | ReadLast(w: Writer)
    | Insert(w: Writer, eventId: string, createdAt: int)
    | Commit(w: Writer)
    | Rollback(w: Writer)

  predicate ValidRequest(request: Request) {
    request.eventType != "" && request.signature != ""
  }

  /** The row of `ORDER BY sequence DESC LIMIT 1`, wherever it sits in the table. */
  function NewestRow(rows: seq<Row>): Option<Row> {
    if rows == [] then None
    else
      var rest := NewestRow(rows[1..]);
      if rest.Some? && rest.value.sequence >= rows[0].sequence then rest else Some(rows[0])
  }

  function NewestHash(rows: seq<Row>): string {
    var newest := NewestRow(rows);
    if newest.Some? then newest.value.rowHash else GENESIS_HASH
  }

  function NewRow(h: Hasher, request: Request, previousHash: string, sequence: nat, eventId: string, createdAt: int): Row {
    Row(sequence, eventId, request.eventType, request.payload, request.signature, previousHash,
        RowHash(h, HashInput(eventId, request.eventType, request.payload, request.signature, previousHash)),
        createdAt)
  }

  /** The row records this request, under this id and at this time. */
  predicate Carries(row: Row, request: Request, eventId: string, createdAt: int) {
    && row.eventType == request.eventType && row.payload == request.payload && row.signature == request.signature
    && row.eventId == eventId && row.createdAt == createdAt
  }

  datatype AppendError = NoEventType | NoSignature | InsertFailed

  predicate EventIdTaken(rows: seq<Row>, eventId: string) {
    exists i | 0 <= i < |rows| :: rows[i].eventId == eventId
  }

  /** Ending a transaction releases the advisory lock in the same instant. */
  function Released(t: Table, w: Writer): Table {
    t.(writers := t.writers - {w}, holder := if t.holder == Some(w) then None else t.holder)
  }

  /** One statement of one writer. A statement that cannot run now leaves everything as it is. */
  function Next(h: Hasher, t: Table, step: Step): Table {
    match step
    case Begin(w, request) =>
      if w !in t.writers && ValidRequest(request) then t.(writers := t.writers[w := Begun(request)]) else t
    case Lock(w) =>
      if w in t.writers && t.writers[w].Begun? && t.holder == None
      then t.(holder := Some(w), writers := t.writers[w := Locked(t.writers[w].request)]) else t
    case ReadLast(w) =>
      if w in t.writers && t.writers[w].Locked?
      then t.(writers := t.writers[w := Linked(t.writers[w].request, NewestHash(t.rows))]) else t
    case Insert(w, eventId, createdAt) =>
      if w in t.writers && t.writers[w].Linked? then
        var p := t.writers[w];
        var phase := if EventIdTaken(t.rows, eventId) then Doomed
                     else Inserted(p.request, NewRow(h, p.request, p.previousHash, t.nextSequence, eventId, createdAt));
        t.(writers := t.writers[w := phase], nextSequence := t.nextSequence + 1)
      else t
    case Commit(w) =>
      if Commits(t, step) then Released(t.(rows := t.rows + [t.writers[w].row]), w) else t
    case Rollback(w) =>
      if w in t.writers then Released(t, w) else t
  }

  predicate Commits(t: Table, step: Step) {
    step.Commit? && step.w in t.writers && t.writers[step.w].Inserted?
  }

  const EMPTY: Table := Table([], 1, None, map[])

  /* ---------- The table as the database holds it ---------- */

  /** The same protocol with the table changed in place, one method per statement. */
  class SigningEvents {
    var rows: seq<Row>
    var nextSequence: nat
    var holder: Option<Writer>
    var writers: map<Writer, Phase>

    ghost function View(): Table
      reads this
    {
      Table(rows, nextSequence, holder, writers)
    }

    constructor ()
      ensures View() == EMPTY
    {
      rows, nextSequence, holder, writers := [], 1, None, map[];
    }

    method BeginTransaction(ghost h: Hasher, w: Writer, request: Request)
      modifies this`writers
      ensures View() == Next(h, old(View()), Begin(w, request))
    {
      if w !in writers && request.eventType != "" && request.signature != "" {
        writers := writers[w := Begun(request)];
      }
    }

    method AcquireLock(ghost h: Hasher, w: Writer)
      modifies this`writers, this`holder
      ensures View() == Next(h, old(View()), Lock(w))
    {
      if w in writers && writers[w].Begun? && holder == None {
        holder := Some(w);
        writers := writers[w := Locked(writers[w].request)];
      }
    }

    method SelectLast(ghost h: Hasher, w: Writer)
      modifies this`writers
      ensures View() == Next(h, old(View()), ReadLast(w))
    {
      if w in writers && writers[w].Locked? {
        var previousHash := GENESIS_HASH;
        var best: Option<Row> := None;
        var i := |rows|;
        while i > 0
          invariant 0 <= i <= |rows|
          invariant best == NewestRow(rows[i..])
          invariant previousHash == NewestHash(rows[i..])
        {
          i := i - 1;
          assert rows[i..][1..] == rows[i + 1..];
          if best == None || best.value.sequence < rows[i].sequence {
            best, previousHash := Some(rows[i]), rows[i].rowHash;
          }
        }
        writers := writers[w := Linked(writers[w].request, previousHash)];
      }
    }

    method InsertRow(h: Hasher, w: Writer, eventId: string, createdAt: int)
      modifies this`writers, this`nextSequence
      ensures View() == Next(h, old(View()), Insert(w, eventId, createdAt))
    {
      if w in writers && writers[w].Linked? {
        var p := writers[w];
        var sequence := nextSequence;
        nextSequence := sequence + 1;
        if EventIdTaken(rows, eventId) {
          writers := writers[w := Doomed];
        } else {
          writers := writers[w := Inserted(p.request, NewRow(h, p.request, p.previousHash, sequence, eventId, createdAt))];
        }
      }
    }

    method CommitTransaction(ghost h: Hasher, w: Writer)
      modifies this`rows, this`writers, this`holder
      ensures View() == Next(h, old(View()), Commit(w))
    {
      if w in writers && writers[w].Inserted? {
        rows := rows + [writers[w].row];
        EndTransaction(w);
      }
    }

    method RollbackTransaction(ghost h: Hasher, w: Writer)
      modifies this`writers, this`holder
      ensures View() == Next(h, old(View()), Rollback(w))
    {
      if w in writers {
        EndTransaction(w);
      }
    }

    method EndTransaction(w: Writer)
      modifies this`writers, this`holder
      ensures View() == Released(old(View()), w)
    {
      writers := writers - {w};
      if holder == Some(w) {
        holder := None;
      }
    }

    /** The first three statements of `appendEvent`, with nobody else about. */
    method LinkToLast(ghost h: Hasher, w: Writer, request: Request)
      requires holder == None && w !in writers && ValidRequest(request)
      modifies this`writers, this`holder
      ensures holder == Some(w)
      ensures writers == old(writers)[w := Linked(request, NewestHash(rows))]
    {
      BeginTransaction(h, w, request);
      AcquireLock(h, w);
      SelectLast(h, w);
    }

    /**
     `appendEvent` run without interference: it succeeds exactly for a valid request with an unused
     event id, and then the ledger gained one row and nothing else changed; otherwise it reports the
     error and no row is added. Either way the lock is free again.
     */
    method AppendEvent(h: Hasher, w: Writer, request: Request, eventId: string, createdAt: int)
      returns (result: Result<Row, AppendError>)
      requires holder == None && w !in writers
      modifies this
      ensures result == Err(NoEventType) <==> request.eventType == ""
      ensures result == Err(NoSignature) <==> request.eventType != "" && request.signature == ""
      ensures result == Err(InsertFailed) <==>
        request.eventType != "" && request.signature != "" && exists i | 0 <= i < |old(rows)| :: old(rows)[i].eventId == eventId
      ensures result.Ok? ==> rows == old(rows) + [result.value] && Carries(result.value, request, eventId, createdAt)
      ensures result.Ok? ==> result.value.sequence == old(nextSequence) && result.value.previousHash == NewestHash(old(rows))
      ensures result.Ok? ==> result.value.rowHash == h.sha256(h.canonicalize(HashInput(
        eventId, request.eventType, request.payload, request.signature, NewestHash(old(rows)))))
      ensures result.Err? ==> rows == old(rows)
      ensures holder == None && writers == old(writers)
    {
      if request.eventType == "" {
        return Err(NoEventType);
      }
      if request.signature == "" {
        return Err(NoSignature);
      }
      LinkToLast(h, w, request);
      InsertRow(h, w, eventId, createdAt);
      if writers[w].Inserted? {
        var row := writers[w].row;
        CommitTransaction(h, w);
        result := Ok(row);
      } else {
        RollbackTransaction(h, w);
        result := Err(InsertFailed);
      }
    }
  }

  /* ---------- All interleavings ---------- */

  function Exec(h: Hasher, t: Table, steps: seq<Step>): Table
    decreases |steps|
  {
    if steps == [] then t else Exec(h, Next(h, t, steps[0]), steps[1..])
  }

  function CommitCount(h: Hasher, t: Table, steps: seq<Step>): nat
    decreases |steps|
  {
    if steps == [] then 0
    else (if Commits(t, steps[0]) then 1 else 0) + CommitCount(h, Next(h, t, steps[0]), steps[1..])
  }

  predicate SequencesRise(rows: seq<Row>) {
    forall i, j | 0 <= i < j < |rows| :: rows[i].sequence < rows[j].sequence
  }

  predicate EventIdsDiffer(rows: seq<Row>) {
    forall i, j | 0 <= i < j < |rows| :: rows[i].eventId != rows[j].eventId
  }

  /** What the lock holder's transaction has established so far. */
  predicate PhaseOk(h: Hasher, t: Table, p: Phase) {
    match p
    case Linked(_, previousHash) => previousHash == LastHash(t.rows)
    case Inserted(request, row) =>
      && t.nextSequence > 0
      && row == NewRow(h, request, LastHash(t.rows), t.nextSequence - 1, row.eventId, row.createdAt)
      && (forall i | 0 <= i < |t.rows| :: t.rows[i].sequence < row.sequence && t.rows[i].eventId != row.eventId)
    case _ => true
  }

  predicate Inv(h: Hasher, t: Table) {
    && IsChain(h, t.rows)
    && SequencesRise(t.rows)
    && EventIdsDiffer(t.rows)
    && (forall i | 0 <= i < |t.rows| :: t.rows[i].sequence < t.nextSequence)
    && (forall w | w in t.writers :: !t.writers[w].Begun? ==> t.holder == Some(w))
    && (forall w | w in t.writers :: PhaseOk(h, t, t.writers[w]))
  }

  lemma {:induction false} NewestIsLast(rows: seq<Row>)
    requires SequencesRise(rows)
    ensures NewestHash(rows) == LastHash(rows)
    ensures rows != [] ==> NewestRow(rows) == Some(rows[|rows| - 1])
  {
    if |rows| > 1 {
      var rest := rows[1..];
      NewestIsLast(rest);
      assert rest[|rest| - 1] == rows[|rows| - 1];
      assert rows[0].sequence < rows[|rows| - 1].sequence;
    } else if |rows| == 1 {
      assert rows[1..] == [];
      assert NewestRow(rows[1..]) == None;
      assert NewestRow(rows) == Some(rows[0]);
    }
  }

  /** `ORDER BY sequence DESC LIMIT 1`: a row of greatest sequence number. */
  lemma {:induction false} NewestIsGreatest(rows: seq<Row>)
    ensures NewestRow(rows).None? <==> rows == []
    ensures rows != [] ==> NewestRow(rows).value in rows && NewestHash(rows) == NewestRow(rows).value.rowHash
    ensures forall row | row in rows :: row.sequence <= NewestRow(rows).value.sequence
  {
    if rows != [] {
      NewestIsGreatest(rows[1..]);
      assert rows == [rows[0]] + rows[1..];
    }
  }

  lemma AppendKeepsChain(h: Hasher, rows: seq<Row>, row: Row)
    requires IsChain(h, rows)
    requires row.previousHash == LastHash(rows) && row.rowHash == RowHash(h, Hashed(row))
    ensures IsChain(h, rows + [row])
  {
    forall i | 0 <= i < |rows| + 1 ensures LinkOk(rows + [row], i) && ContentOk(h, rows + [row], i) {
      if i < |rows| {
        assert LinkOk(rows, i) && ContentOk(h, rows, i);
      }
    }
  }

  lemma InsertKeepsInv(h: Hasher, t: Table, w: Writer, eventId: string, createdAt: int)
    requires Inv(h, t) && w in t.writers && t.writers[w].Linked?
    ensures Inv(h, Next(h, t, Insert(w, eventId, createdAt)))
  {
    assert PhaseOk(h, t, t.writers[w]);
    var t' := Next(h, t, Insert(w, eventId, createdAt));
    assert PhaseOk(h, t', t'.writers[w]);
    forall v | v in t'.writers && v != w ensures PhaseOk(h, t', t'.writers[v]) {
      assert PhaseOk(h, t, t.writers[v]);
    }
  }

  lemma CommitKeepsInv(h: Hasher, t: Table, w: Writer)
    requires Inv(h, t) && Commits(t, Commit(w))
    ensures Inv(h, Next(h, t, Commit(w)))
  {
    assert PhaseOk(h, t, t.writers[w]);
    AppendKeepsChain(h, t.rows, t.writers[w].row);
    var t' := Next(h, t, Commit(w));
    forall v | v in t'.writers ensures t'.writers[v].Begun? {
      assert v in t.writers && v != w;
    }
  }

  lemma StepKeepsInv(h: Hasher, t: Table, step: Step)
    requires Inv(h, t)
    ensures Inv(h, Next(h, t, step))
  {
    if Commits(t, step) {
      CommitKeepsInv(h, t, step.w);
    } else if step.Insert? && step.w in t.writers && t.writers[step.w].Linked? {
      InsertKeepsInv(h, t, step.w, step.eventId, step.createdAt);
    } else {
      OtherStepsKeepInv(h, t, step);
    }
  }

  lemma OtherStepsKeepInv(h: Hasher, t: Table, step: Step)
    requires Inv(h, t) && !Commits(t, step)
    requires !(step.Insert? && step.w in t.writers && t.writers[step.w].Linked?)
    ensures Inv(h, Next(h, t, step))
  {
    NewestIsLast(t.rows);
    var t' := Next(h, t, step);
    assert t'.rows == t.rows && t'.nextSequence == t.nextSequence;
    forall v | v in t'.writers ensures PhaseOk(h, t', t'.writers[v]) {
      assert v in t.writers ==> PhaseOk(h, t, t.writers[v]);
    }
  }

  lemma {:induction false} RunKeepsInv(h: Hasher, t: Table, steps: seq<Step>)
    requires Inv(h, t)
    ensures Inv(h, Exec(h, t, steps))
    ensures |Exec(h, t, steps).rows| == |t.rows| + CommitCount(h, t, steps)
    ensures t.rows <= Exec(h, t, steps).rows
    decreases |steps|
  {
    if steps != [] {
      StepKeepsInv(h, t, steps[0]);
      RunKeepsInv(h, Next(h, t, steps[0]), steps[1..]);
    }
  }

  /** A SELECT ... ORDER BY sequence ASC returns the table's rows, sorted on the primary key. */
  predicate OrderedScan(rows: seq<Row>, scan: seq<Row>) {
    multiset(scan) == multiset(rows) && SequencesRise(scan)
  }

  lemma DropLast(s: seq<Row>)
    requires s != []
    ensures s == s[..|s| - 1] + [s[|s| - 1]]
    ensures multiset(s[..|s| - 1]) == multiset(s) - multiset{s[|s| - 1]}
  {
    assert s == s[..|s| - 1] + [s[|s| - 1]];
  }

  /** Both lists end with the row of the greatest sequence number. */
  lemma SameLastRow(rows: seq<Row>, scan: seq<Row>)
    requires SequencesRise(rows) && OrderedScan(rows, scan)
    ensures |scan| == |rows|
    ensures rows != [] ==> scan[|scan| - 1] == rows[|rows| - 1]
  {
    assert |scan| == |rows| by {
      assert |multiset(scan)| == |multiset(rows)|;
    }
    if rows != [] {
      var n := |rows| - 1;
      assert rows[n] in multiset(rows) && scan[n] in multiset(scan);
      var j :| 0 <= j < |scan| && scan[j] == rows[n];
      var i :| 0 <= i < |rows| && rows[i] == scan[n];
      assert rows[i].sequence <= rows[n].sequence && scan[j].sequence <= scan[n].sequence;
    }
  }

  lemma WithoutLastRow(rows: seq<Row>, scan: seq<Row>)
    requires SequencesRise(rows) && OrderedScan(rows, scan) && rows != []
    ensures |scan| == |rows| && OrderedScan(rows[..|rows| - 1], scan[..|scan| - 1])
  {
    SameLastRow(rows, scan);
    DropLast(rows);
    DropLast(scan);
  }

  lemma {:induction false} ScanIsCommitOrder(rows: seq<Row>, scan: seq<Row>)
    requires SequencesRise(rows) && OrderedScan(rows, scan)
    ensures scan == rows
    decreases |rows|
  {
    SameLastRow(rows, scan);
    if rows != [] {
      WithoutLastRow(rows, scan);
      ScanIsCommitOrder(rows[..|rows| - 1], scan[..|scan| - 1]);
      DropLast(rows);
      DropLast(scan);
    }
  }

  /**
   The ledger's promise. After any interleaving of any statements of any writers, whatever scan the
   verifier makes of the committed rows, and whatever result describes that scan, the result says
   valid, with one event per commit. Sequence numbers rise in commit order; event ids differ.
   */
  lemma EveryInterleavingVerifies(h: Hasher, steps: seq<Step>, scan: seq<Row>, r: Integrity)
    requires OrderedScan(Exec(h, EMPTY, steps).rows, scan)
    requires Describes(h, scan, r)
    ensures r == Valid(CommitCount(h, EMPTY, steps), LastHash(scan))
    ensures scan == Exec(h, EMPTY, steps).rows
    ensures SequencesRise(scan) && EventIdsDiffer(scan)
  {
    RunKeepsInv(h, EMPTY, steps);
    ScanIsCommitOrder(Exec(h, EMPTY, steps).rows, scan);
    ChainHasNoBreak(h, scan);
  }

  lemma {:induction false} ExecSplit(h: Hasher, t: Table, first: seq<Step>, second: seq<Step>)
    ensures Exec(h, t, first + second) == Exec(h, Exec(h, t, first), second)
    decreases |first|
  {
    if first == [] {
      assert first + second == second;
    } else {
      assert (first + second)[1..] == first[1..] + second;
      ExecSplit(h, Next(h, t, first[0]), first[1..], second);
    }
  }

  /** No committed row is ever changed, moved or removed by anything that happens later. */
  lemma CommittedRowsArePermanent(h: Hasher, earlier: seq<Step>, later: seq<Step>)
    ensures Exec(h, EMPTY, earlier).rows <= Exec(h, EMPTY, earlier + later).rows
  {
    ExecSplit(h, EMPTY, earlier, later);
    RunKeepsInv(h, EMPTY, earlier);
    RunKeepsInv(h, Exec(h, EMPTY, earlier), later);
  }

  predicate Named(eventType: string, signature: string) {
    eventType != "" && signature != ""
  }

  /** No row and no open transaction lacks its event type or its signature. */
  predicate AllNamed(t: Table) {
    && (forall i | 0 <= i < |t.rows| :: Named(t.rows[i].eventType, t.rows[i].signature))
    && (forall w | w in t.writers ::
          match t.writers[w]
          case Begun(request) => Named(request.eventType, request.signature)
          case Locked(request) => Named(request.eventType, request.signature)
          case Linked(request, _) => Named(request.eventType, request.signature)
          case Inserted(_, row) => Named(row.eventType, row.signature)
          case Doomed => true)
  }

  lemma StepKeepsNames(h: Hasher, t: Table, step: Step)
    requires AllNamed(t)
    ensures AllNamed(Next(h, t, step))
  {
  }

  /** Whatever the interleaving, no row without an event type or a signature is ever committed. */
  lemma {:induction false} CommittedRowsAreNamed(h: Hasher, t: Table, steps: seq<Step>)
    requires AllNamed(t)
    ensures AllNamed(Exec(h, t, steps))
    decreases |steps|
  {
    if steps != [] {
      StepKeepsNames(h, t, steps[0]);
      CommittedRowsAreNamed(h, Next(h, t, steps[0]), steps[1..]);
    }
  }

  /** At most one transaction is past the lock, in every reachable state. */
  lemma LockExcludes(h: Hasher, steps: seq<Step>, v: Writer, w: Writer)
    requires var t := Exec(h, EMPTY, steps);
      v in t.writers && w in t.writers && !t.writers[v].Begun? && !t.writers[w].Begun?
    ensures v == w
  {
    RunKeepsInv(h, EMPTY, steps);
  }

  /* ---------- The interleaved protocol refines an atomic one ---------- */

  /** A ledger on which transactions happen all at once. */
  datatype Ledger = Ledger(rows: seq<Row>, nextSequence: nat)

  datatype Transaction =
    | AppendRow(request: Request, eventId: string, createdAt: int)
    | LostSequence   // an INSERT that failed or was rolled back

  function Atomic(h: Hasher, l: Ledger, x: Transaction): Ledger {
    match x
    case AppendRow(request, eventId, createdAt) =>
      Ledger(l.rows + [NewRow(h, request, NewestHash(l.rows), l.nextSequence, eventId, createdAt)], l.nextSequence + 1)
    case LostSequence => l.(nextSequence := l.nextSequence + 1)
  }

  function AllAtOnce(h: Hasher, xs: seq<Transaction>): Ledger {
    if xs == [] then Ledger([], 1) else Atomic(h, AllAtOnce(h, xs[..|xs| - 1]), xs[|xs| - 1])
  }

  /** What a client asked for: the request it began with, and its INSERT if that went through. */
  datatype Intent = Intent(request: Request, insert: Option<(string, int)>)

  /** The transactions that are open, by what their clients asked for, and those that are over. */
  datatype Log = Log(open: map<Writer, Intent>, done: seq<Transaction>)

  /** The log is kept from the statements alone: it never looks at a row or at a phase's contents. */
  function Observe(t: Table, log: Log, step: Step): Log {
    match step
    case Begin(w, request) =>
      if w !in t.writers && ValidRequest(request) then log.(open := log.open[w := Intent(request, None)]) else log
    case Insert(w, eventId, createdAt) =>
      if w in t.writers && t.writers[w].Linked? && w in log.open then
        if EventIdTaken(t.rows, eventId) then log.(done := log.done + [LostSequence])
        else log.(open := log.open[w := log.open[w].(insert := Some((eventId, createdAt)))])
      else log
    case Commit(w) =>
      if Commits(t, step) && w in log.open && log.open[w].insert.Some? then
        var (eventId, createdAt) := log.open[w].insert.value;
        Log(log.open - {w}, log.done + [AppendRow(log.open[w].request, eventId, createdAt)])
      else log
    case Rollback(w) =>
      if w in t.writers && w in log.open then
        Log(log.open - {w}, if log.open[w].insert.Some? then log.done + [LostSequence] else log.done)
      else log
    case _ => log
  }

  function LogOf(h: Hasher, steps: seq<Step>): Log {
    if steps == [] then Log(map[], [])
    else
      var n := |steps| - 1;
      Observe(Exec(h, EMPTY, steps[..n]), LogOf(h, steps[..n]), steps[n])
  }

  /** An open transaction is where its client's intent says. */
  predicate Follows(p: Phase, intent: Intent) {
    match p
    case Begun(request) => intent == Intent(request, None)
    case Locked(request) => intent == Intent(request, None)
    case Linked(request, _) => intent == Intent(request, None)
    case Inserted(request, row) => intent == Intent(request, Some((row.eventId, row.createdAt)))
    case Doomed => intent.insert == None
  }

  /** Whether the lock's holder has taken a sequence number for a row that is not committed yet. */
  predicate Pending(t: Table) {
    t.holder.Some? && t.holder.value in t.writers && t.writers[t.holder.value].Inserted?
  }

  predicate Refines(h: Hasher, t: Table, log: Log) {
    && Inv(h, t)
    && t.writers.Keys == log.open.Keys
    && (forall w | w in t.writers :: Follows(t.writers[w], log.open[w]))
    && AllAtOnce(h, log.done).rows == t.rows
    && AllAtOnce(h, log.done).nextSequence + (if Pending(t) then 1 else 0) == t.nextSequence
  }

  lemma AllAtOnceSnoc(h: Hasher, xs: seq<Transaction>, x: Transaction)
    ensures AllAtOnce(h, xs + [x]) == Atomic(h, AllAtOnce(h, xs), x)
  {
    assert (xs + [x])[..|xs|] == xs;
  }

  lemma HolderIsOnly(h: Hasher, t: Table, w: Writer)
    requires Inv(h, t) && w in t.writers && !t.writers[w].Begun?
    ensures t.holder == Some(w)
  {
  }

  lemma CommitRefines(h: Hasher, t: Table, log: Log, w: Writer)
    requires Refines(h, t, log) && Commits(t, Commit(w))
    ensures Refines(h, Next(h, t, Commit(w)), Observe(t, log, Commit(w)))
  {
    HolderIsOnly(h, t, w);
    CommitKeepsInv(h, t, w);
    NewestIsLast(t.rows);
    assert PhaseOk(h, t, t.writers[w]) && Follows(t.writers[w], log.open[w]);
    var (eventId, createdAt) := log.open[w].insert.value;
    AllAtOnceSnoc(h, log.done, AppendRow(log.open[w].request, eventId, createdAt));
  }

  lemma InsertRefines(h: Hasher, t: Table, log: Log, w: Writer, eventId: string, createdAt: int)
    requires Refines(h, t, log) && w in t.writers && t.writers[w].Linked?
    ensures Refines(h, Next(h, t, Insert(w, eventId, createdAt)), Observe(t, log, Insert(w, eventId, createdAt)))
  {
    HolderIsOnly(h, t, w);
    InsertKeepsInv(h, t, w, eventId, createdAt);
    assert Follows(t.writers[w], log.open[w]);
    AllAtOnceSnoc(h, log.done, LostSequence);
  }

  lemma RollbackRefines(h: Hasher, t: Table, log: Log, w: Writer)
    requires Refines(h, t, log) && w in t.writers
    ensures Refines(h, Next(h, t, Rollback(w)), Observe(t, log, Rollback(w)))
  {
    StepKeepsInv(h, t, Rollback(w));
    assert Follows(t.writers[w], log.open[w]);
    if t.writers[w].Inserted? {
      HolderIsOnly(h, t, w);
      AllAtOnceSnoc(h, log.done, LostSequence);
    }
  }

  lemma StepRefines(h: Hasher, t: Table, log: Log, step: Step)
    requires Refines(h, t, log)
    ensures Refines(h, Next(h, t, step), Observe(t, log, step))
  {
    StepKeepsInv(h, t, step);
    if Commits(t, step) {
      CommitRefines(h, t, log, step.w);
    } else if step.Insert? && step.w in t.writers && t.writers[step.w].Linked? {
      InsertRefines(h, t, log, step.w, step.eventId, step.createdAt);
    } else if step.Rollback? && step.w in t.writers {
      RollbackRefines(h, t, log, step.w);
    }
  }

  lemma ExecSnoc(h: Hasher, steps: seq<Step>)
    requires steps != []
    ensures Exec(h, EMPTY, steps) == Next(h, Exec(h, EMPTY, steps[..|steps| - 1]), steps[|steps| - 1])
  {
    var n := |steps| - 1;
    assert steps == steps[..n] + [steps[n]];
    ExecSplit(h, EMPTY, steps[..n], [steps[n]]);
    assert [steps[n]][1..] == [];
  }

  lemma {:induction false} RunRefines(h: Hasher, steps: seq<Step>)
    ensures Refines(h, Exec(h, EMPTY, steps), LogOf(h, steps))
    decreases |steps|
  {
    if steps != [] {
      var n := |steps| - 1;
      RunRefines(h, steps[..n]);
      ExecSnoc(h, steps);
      StepRefines(h, Exec(h, EMPTY, steps[..n]), LogOf(h, steps[..n]), steps[n]);
    }
  }

  /**
   The interleaved protocol refines an atomic one. After any interleaving the committed rows are what the
   transactions that are over would have produced one at a time: each commit appended the request that its
   writer began with, under the id and time of its INSERT, the next sequence number and the newest hash.
   */
  lemma RunsAreAtomic(h: Hasher, steps: seq<Step>)
    ensures var t, log := Exec(h, EMPTY, steps), LogOf(h, steps);
      && t.rows == AllAtOnce(h, log.done).rows
      && t.nextSequence == AllAtOnce(h, log.done).nextSequence + (if Pending(t) then 1 else 0)
      && log.open.Keys == t.writers.Keys
  {
    RunRefines(h, steps);
  }

  /** The commit of `w` does what one atomic append of its own request would have done. */
  predicate AppendsOwnRequest(h: Hasher, t: Table, t': Table, log: Log, w: Writer) {
    && w in log.open && log.open[w].insert.Some? && t.nextSequence > 0
    && var (eventId, createdAt) := log.open[w].insert.value;
       && Ledger(t'.rows, t'.nextSequence)
            == Atomic(h, Ledger(t.rows, t.nextSequence - 1), AppendRow(log.open[w].request, eventId, createdAt))
       && !EventIdTaken(t.rows, eventId)
  }

  lemma CommitAppends(h: Hasher, t: Table, log: Log, w: Writer)
    requires Refines(h, t, log) && Commits(t, Commit(w))
    ensures AppendsOwnRequest(h, t, Next(h, t, Commit(w)), log, w)
  {
    NewestIsLast(t.rows);
    assert PhaseOk(h, t, t.writers[w]) && Follows(t.writers[w], log.open[w]);
  }

  lemma OnlyCommitsAddRows(h: Hasher, t: Table, step: Step)
    requires !Commits(t, step)
    ensures Next(h, t, step).rows == t.rows
  {
  }

  /** Each step of any writer leaves the committed rows alone, or is one atomic append of its own request. */
  lemma EachStepIsAnAppendOrNothing(h: Hasher, steps: seq<Step>, step: Step)
    ensures var t := Exec(h, EMPTY, steps);
      if Commits(t, step) then AppendsOwnRequest(h, t, Next(h, t, step), LogOf(h, steps), step.w)
      else Next(h, t, step).rows == t.rows
  {
    RunRefines(h, steps);
    var t, log := Exec(h, EMPTY, steps), LogOf(h, steps);
    if Commits(t, step) {
      assert step == Commit(step.w);
      CommitAppends(h, t, log, step.w);
    } else {
      OnlyCommitsAddRows(h, t, step);
    }
  }

  /* ---------- Sequence numbers ---------- */

  /** The step takes a sequence number, or gives up one it took, without a row to show for it. */
  predicate Loses(t: Table, step: Step) {
    || (step.Insert? && step.w in t.writers && t.writers[step.w].Linked? && EventIdTaken(t.rows, step.eventId))
    || (step.Rollback? && step.w in t.writers && t.writers[step.w].Inserted?)
  }

  function LossCount(h: Hasher, steps: seq<Step>): nat {
    if steps == [] then 0
    else
      var n := |steps| - 1;
      LossCount(h, steps[..n]) + if Loses(Exec(h, EMPTY, steps[..n]), steps[n]) then 1 else 0
  }

  lemma StepAccounts(h: Hasher, t: Table, step: Step)
    requires Inv(h, t)
    ensures var t' := Next(h, t, step);
      t'.nextSequence - |t'.rows| - (if Pending(t') then 1 else 0)
      == t.nextSequence - |t.rows| - (if Pending(t) then 1 else 0) + (if Loses(t, step) then 1 else 0)
  {
    if step.w in t.writers && !t.writers[step.w].Begun? {
      HolderIsOnly(h, t, step.w);
    }
  }

  /**
   Every gap is accounted for: in every reachable state the sequence numbers given out are those of the
   committed rows, of the one row that waits for its COMMIT, and of the INSERTs that failed or were rolled back.
   */
  lemma {:induction false} SequenceAccounts(h: Hasher, steps: seq<Step>)
    ensures var t := Exec(h, EMPTY, steps);
      t.nextSequence == 1 + |t.rows| + (if Pending(t) then 1 else 0) + LossCount(h, steps)
    decreases |steps|
  {
    if steps != [] {
      var n := |steps| - 1;
      SequenceAccounts(h, steps[..n]);
      ExecSnoc(h, steps);
      RunKeepsInv(h, EMPTY, steps[..n]);
      StepAccounts(h, Exec(h, EMPTY, steps[..n]), steps[n]);
    }
  }

  /**
   A transaction that inserted and then rolled back leaves the table exactly as it found it, except
   that its sequence number is gone for good: the benign gap the scan must not complain about.
   */
  lemma RollbackLeavesOnlyAGap(h: Hasher, t: Table, w: Writer, request: Request, eventId: string, createdAt: int)
    requires t.holder == None && w !in t.writers && ValidRequest(request)
    ensures var steps := [Begin(w, request), Lock(w), ReadLast(w), Insert(w, eventId, createdAt), Rollback(w)];
      Exec(h, t, steps) == t.(nextSequence := t.nextSequence + 1)
  {
    var t1 := Next(h, t, Begin(w, request));
    var t2 := Next(h, t1, Lock(w));
    var t3 := Next(h, t2, ReadLast(w));
    var t4 := Next(h, t3, Insert(w, eventId, createdAt));
    var t5 := Next(h, t4, Rollback(w));
    assert t5.writers == t.writers;
    var steps := [Begin(w, request), Lock(w), ReadLast(w), Insert(w, eventId, createdAt), Rollback(w)];
    assert steps[1..] == [Lock(w), ReadLast(w), Insert(w, eventId, createdAt), Rollback(w)];
    assert steps[1..][1..] == [ReadLast(w), Insert(w, eventId, createdAt), Rollback(w)];
    assert steps[1..][1..][1..] == [Insert(w, eventId, createdAt), Rollback(w)];
    assert steps[1..][1..][1..][1..] == [Rollback(w)];
    calc {
      Exec(h, t, steps);
      Exec(h, t1, steps[1..]);
      Exec(h, t2, steps[1..][1..]);
      Exec(h, t3, steps[1..][1..][1..]);
      Exec(h, t4, steps[1..][1..][1..][1..]);
      t5;
    }
  }
}
