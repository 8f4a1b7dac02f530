/**
 Whole runs of the task graph: what is reachable, what the history records, and when runs end; and the
 separately written list of reachable states in scripts/work-development-orchestrator.js.
 */
module TaskGraphRuns {
  import opened Prelude
  import opened TaskGraph

  datatype Stamped = Stamped(event: Event, at: Time)

  /** All events accepted one after the other, or None as soon as one is rejected. */
  function Run(g: Graph, steps: seq<Stamped>): Option<Graph> {
    if steps == [] then Some(g)
    else
      var n := |steps| - 1;
      match Run(g, steps[..n])
      case None => None
      case Some(g') =>
        match Apply(g', steps[n].event, steps[n].at)
        case Ok(g'') => Some(g'')
        case Err(_) => None
  }

  /* ---------- The orchestrator's list of reachable states ---------- */

  datatype Vector = Vector(builder: TaskStatus, reviewer: TaskStatus, security: TaskStatus, verification: TaskStatus)

  function VectorOf(t: Tasks): Vector {
    Vector(t.builder.status, t.reviewer.status, t.securityReviewer.status, t.verification.status)
  }

  /** `validateTaskGraphState`, on a graph with exactly the four supported tasks. */
  predicate ValidState(status: GraphStatus, delegated: bool, v: Vector) {
    var activeStates :=
      if delegated then {
        Vector(Ready, Blocked, Blocked, Blocked),
        Vector(Pass, Ready, Blocked, Blocked),
        Vector(Pass, Pass, Ready, Blocked),
        Vector(Pass, Pass, Pass, Ready)
      } else {
        Vector(Ready, Blocked, Skipped, Blocked),
        Vector(Pass, Ready, Skipped, Blocked),
        Vector(Pass, Pass, Skipped, Ready)
      };
    var completeState :=
      if delegated then Vector(Pass, Pass, Pass, Pass) else Vector(Pass, Pass, Skipped, Pass);
    var failedStates :=
      if delegated then {
        Vector(Fail, Blocked, Blocked, Blocked),
        Vector(Pass, Fail, Blocked, Blocked),
        Vector(Pass, Pass, Fail, Blocked),
        Vector(Pass, Pass, Pass, Fail)
      } else {
        Vector(Fail, Blocked, Skipped, Blocked),
        Vector(Pass, Fail, Skipped, Blocked),
        Vector(Pass, Pass, Skipped, Fail)
      };
    || (status == Active && v in activeStates)
    || (status == Complete && v == completeState)
    || (status == Failed && v in failedStates)
  }

  /* ---------- Stages ---------- */

  /** The tasks of one attempt, in order. */
  function Order(delegated: bool): seq<TaskName> {
    if delegated then [Builder, Reviewer, SecurityReviewer, Verification] else [Builder, Reviewer, Verification]
  }

  /** Stage `k` with `mark` on its current task: passed before it, blocked after it. */
  function StageVector(delegated: bool, k: nat, mark: TaskStatus): Vector {
    var at := (p: nat) => if p < k then Pass else if p == k then mark else Blocked;
    if delegated then Vector(at(0), at(1), at(2), at(3)) else Vector(at(0), at(1), Skipped, at(2))
  }

  function StageOf(delegated: bool, v: Vector): nat {
    if v.builder != Pass then 0
    else if v.reviewer != Pass then 1
    else if delegated then (if v.security != Pass then 2 else if v.verification != Pass then 3 else 4)
    else (if v.verification != Pass then 2 else 3)
  }

  function Stage(g: Graph): nat {
    StageOf(Delegated(g.roles), VectorOf(g.tasks))
  }

  function MarkOf(status: GraphStatus): TaskStatus {
    match status
    case Active => Ready
    case Complete => Pass
    case Failed => Fail
  }

  predicate AtStage(status: GraphStatus, delegated: bool, v: Vector, k: nat) {
    && v == StageVector(delegated, k, MarkOf(status))
    && (if status == Complete then k == |Order(delegated)| else k < |Order(delegated)|)
  }

  /** The fourteen listed states are exactly the stages. */
  lemma ListedStatesAreStages(status: GraphStatus, delegated: bool, v: Vector)
    ensures ValidState(status, delegated, v) <==> AtStage(status, delegated, v, StageOf(delegated, v))
  {
  }

  /* ---------- What every run keeps ---------- */

  function FailCount(h: seq<Entry>): nat {
    if h == [] then 0 else FailCount(h[..|h| - 1]) + if IsFail(h[|h| - 1].event) then 1 else 0
  }

  /** The entries after the last failing one. */
  function Tail(h: seq<Entry>): seq<Entry> {
    if h == [] || IsFail(h[|h| - 1].event) then [] else Tail(h[..|h| - 1]) + [h[|h| - 1]]
  }

  function EventsOf(h: seq<Entry>): seq<Event> {
    if h == [] then [] else EventsOf(h[..|h| - 1]) + [h[|h| - 1].event]
  }

  function PassesUpTo(delegated: bool, k: nat): seq<Event>
    requires k <= |Order(delegated)|
  {
    if k == 0 then [] else PassesUpTo(delegated, k - 1) + [PassEvent(Order(delegated)[k - 1])]
  }

  function StampsOf(h: seq<Entry>): (r: seq<Stamped>)
    ensures |r| == |h|
  {
    if h == [] then [] else StampsOf(h[..|h| - 1]) + [Stamped(h[|h| - 1].event, h[|h| - 1].at)]
  }

  /** What entry `i` records: failures so far, the outcome they imply, and the failing task. */
  predicate EntryIsFaithful(h: seq<Entry>, i: nat, maxRetries: nat)
    requires i < |h|
  {
    var e := h[i];
    && e.retryCount == FailCount(h[..i + 1])
    && e.source == (if IsFail(e.event) then Some(TaskOf(e.event)) else None)
    && e.outcome == if IsFail(e.event) then (if e.retryCount > maxRetries then FailedMaxRetries else Retry)
                    else if e.event.VerifyPass? then Completed else StillActive
  }

  predicate AllFaithful(h: seq<Entry>, maxRetries: nat) {
    forall i | 0 <= i < |h| :: EntryIsFaithful(h, i, maxRetries)
  }

  /** A running or completed attempt: its passes since the last failure, in order. */
  predicate ExplainsAttempt(h: seq<Entry>, retryCount: nat, delegated: bool, k: nat) {
    k <= |Order(delegated)| && FailCount(h) == retryCount && EventsOf(Tail(h)) == PassesUpTo(delegated, k)
  }

  /** A failed graph: the attempt as it was, then the failure that used up the last retry. */
  predicate ExplainsFailure(h: seq<Entry>, maxRetries: nat, delegated: bool, k: nat) {
    && h != [] && k < |Order(delegated)|
    && ExplainsAttempt(h[..|h| - 1], maxRetries, delegated, k)
    && h[|h| - 1].event == FailEvent(Order(delegated)[k])
    && h[|h| - 1].outcome == FailedMaxRetries
  }

  /** Everything the history says about the present state of the graph. */
  predicate HistoryExplains(g: Graph) {
    && AllFaithful(g.history, g.maxRetries)
    && g.retryCount <= g.maxRetries
    && (g.status != Failed ==> ExplainsAttempt(g.history, g.retryCount, Delegated(g.roles), Stage(g)))
    && (g.status == Failed ==>
          g.retryCount == g.maxRetries && ExplainsFailure(g.history, g.maxRetries, Delegated(g.roles), Stage(g)))
    && g.updatedAt == if g.history == [] then g.generatedAt else g.history[|g.history| - 1].at
  }

  predicate WellShaped(g: Graph) {
    && (g.roles.securityReviewer.Some? ==> g.roles.securityReviewer.value != "")
    && ValidState(g.status, Delegated(g.roles), VectorOf(g.tasks))
    && g.tasks.builder.actor == ActorFor(g.roles.builder)
    && g.tasks.reviewer.actor == ActorFor(g.roles.reviewer)
    && g.tasks.securityReviewer.actor == g.roles.securityReviewer
    && g.tasks.verification.actor == Some("verification-gate")
  }

  /** The graph `g` started from, read off its unchanging fields. */
  function Origin(g: Graph): Graph {
    Initial(g.feature, g.roles, g.maxRetries, g.generatedAt)
  }

  predicate Consistent(g: Graph) {
    WellShaped(g) && HistoryExplains(g)
  }

  /** A fresh graph: the first task is ready and nothing has happened. */
  predicate Fresh(g: Graph) {
    WellShaped(g) && g.status == Active && Stage(g) == 0 && g.retryCount == 0 && g.history == []
  }

  lemma InitialIsFresh(feature: string, roles: Roles, maxRetries: nat, now: Time)
    ensures Fresh(Initial(feature, roles, maxRetries, now)) && Consistent(Initial(feature, roles, maxRetries, now))
  {
    var g := Initial(feature, roles, maxRetries, now);
    ListedStatesAreStages(g.status, Delegated(g.roles), VectorOf(g.tasks));
  }

  /* ---------- One event ---------- */

  lemma Snoc(h: seq<Entry>, e: Entry)
    ensures var x := h + [e]; x != [] && x[..|x| - 1] == h && x[|x| - 1] == e
  {
  }

  lemma FaithfulSnoc(h: seq<Entry>, e: Entry, maxRetries: nat)
    requires AllFaithful(h, maxRetries) && EntryIsFaithful(h + [e], |h|, maxRetries)
    ensures AllFaithful(h + [e], maxRetries)
  {
    forall i | 0 <= i < |h| ensures EntryIsFaithful(h + [e], i, maxRetries) {
      assert EntryIsFaithful(h, i, maxRetries);
      assert (h + [e])[..i + 1] == h[..i + 1];
    }
  }

  lemma NewEntryIsFaithful(h: seq<Entry>, e: Entry, maxRetries: nat)
    requires e.retryCount == FailCount(h) + (if IsFail(e.event) then 1 else 0)
    requires e.source == if IsFail(e.event) then Some(TaskOf(e.event)) else None
    requires e.outcome == if IsFail(e.event) then (if e.retryCount > maxRetries then FailedMaxRetries else Retry)
                          else if e.event.VerifyPass? then Completed else StillActive
    ensures EntryIsFaithful(h + [e], |h|, maxRetries)
  {
    Snoc(h, e);
    assert (h + [e])[..|h| + 1] == h + [e];
  }

  lemma EventsSnoc(h: seq<Entry>, e: Entry)
    ensures EventsOf(h + [e]) == EventsOf(h) + [e.event]
  {
    Snoc(h, e);
  }

  lemma StampsSnoc(h: seq<Entry>, e: Entry)
    ensures StampsOf(h + [e]) == StampsOf(h) + [Stamped(e.event, e.at)]
  {
    Snoc(h, e);
  }

  lemma TailSnoc(h: seq<Entry>, e: Entry)
    requires !IsFail(e.event)
    ensures Tail(h + [e]) == Tail(h) + [e] && FailCount(h + [e]) == FailCount(h)
  {
    Snoc(h, e);
  }

  lemma PassesSnoc(delegated: bool, k: nat)
    requires k < |Order(delegated)|
    ensures PassesUpTo(delegated, k + 1) == PassesUpTo(delegated, k) + [PassEvent(Order(delegated)[k])]
  {
  }

  lemma PassExtendsAttempt(h: seq<Entry>, e: Entry, retryCount: nat, delegated: bool, k: nat)
    requires ExplainsAttempt(h, retryCount, delegated, k) && k < |Order(delegated)|
    requires e.event == PassEvent(Order(delegated)[k])
    ensures ExplainsAttempt(h + [e], retryCount, delegated, k + 1)
  {
    TailSnoc(h, e);
    EventsSnoc(Tail(h), e);
    PassesSnoc(delegated, k);
  }

  lemma RetryStartsAttempt(h: seq<Entry>, e: Entry, retryCount: nat, delegated: bool, k: nat)
    requires ExplainsAttempt(h, retryCount, delegated, k) && IsFail(e.event)
    ensures ExplainsAttempt(h + [e], retryCount + 1, delegated, 0)
  {
    Snoc(h, e);
  }

  /** The accepted events are the pass and the fail of the current task of an active graph. */
  lemma AcceptedExactly(g: Graph, event: Event, now: Time)
    requires ValidState(g.status, Delegated(g.roles), VectorOf(g.tasks))
    ensures Apply(g, event, now).Ok? <==>
      g.status == Active && Stage(g) < |Order(Delegated(g.roles))| &&
      (event == PassEvent(Order(Delegated(g.roles))[Stage(g)]) || event == FailEvent(Order(Delegated(g.roles))[Stage(g)]))
  {
  }

  lemma ApplyKeepsShape(g: Graph, event: Event, now: Time)
    requires WellShaped(g) && Apply(g, event, now).Ok?
    ensures var g' := Apply(g, event, now).value;
      && WellShaped(g')
      && Stage(g') == if !IsFail(event) then Stage(g) + 1 else if g'.status == Failed then Stage(g) else 0
  {
  }

  /** The entry an accepted event appends. */
  function NewEntry(g: Graph, event: Event, now: Time): Entry {
    var count := g.retryCount + if IsFail(event) then 1 else 0;
    Entry(
      event,
      if IsFail(event) then Some(TaskOf(event)) else None,
      if IsFail(event) then (if count > g.maxRetries then FailedMaxRetries else Retry)
      else if event.VerifyPass? then Completed else StillActive,
      count,
      now)
  }

  lemma ApplyAppends(g: Graph, event: Event, now: Time)
    requires WellShaped(g) && g.retryCount <= g.maxRetries && Apply(g, event, now).Ok?
    ensures var g' := Apply(g, event, now).value;
      && g'.history == g.history + [NewEntry(g, event, now)]
      && g'.updatedAt == now && g'.maxRetries == g.maxRetries && g'.roles == g.roles
      && (g'.status == Failed <==> IsFail(event) && g.retryCount == g.maxRetries)
      && g'.retryCount == if IsFail(event) && g'.status != Failed then g.retryCount + 1 else g.retryCount
  {
  }

  lemma ApplyKeepsHistory(g: Graph, event: Event, now: Time)
    requires WellShaped(g) && HistoryExplains(g) && Apply(g, event, now).Ok?
    ensures HistoryExplains(Apply(g, event, now).value)
  {
    var g' := Apply(g, event, now).value;
    var h, e := g.history, NewEntry(g, event, now);
    var delegated, k := Delegated(g.roles), Stage(g);
    AcceptedExactly(g, event, now);
    ApplyAppends(g, event, now);
    ApplyKeepsShape(g, event, now);
    NewEntryIsFaithful(h, e, g.maxRetries);
    FaithfulSnoc(h, e, g.maxRetries);
    Snoc(h, e);
    if !IsFail(event) {
      PassExtendsAttempt(h, e, g.retryCount, delegated, k);
    } else if g'.status != Failed {
      RetryStartsAttempt(h, e, g.retryCount, delegated, k);
    } else {
      assert g'.history[..|g'.history| - 1] == h;
    }
  }

  lemma ApplyKeepsConsistent(g: Graph, event: Event, now: Time)
    requires Consistent(g) && Apply(g, event, now).Ok?
    ensures Consistent(Apply(g, event, now).value)
  {
    ApplyKeepsShape(g, event, now);
    ApplyKeepsHistory(g, event, now);
  }

  lemma ApplyStamps(g: Graph, event: Event, now: Time)
    requires WellShaped(g) && g.retryCount <= g.maxRetries && Apply(g, event, now).Ok?
    ensures var g' := Apply(g, event, now).value;
      Origin(g') == Origin(g) && StampsOf(g'.history) == StampsOf(g.history) + [Stamped(event, now)]
  {
    ApplyAppends(g, event, now);
    StampsSnoc(g.history, NewEntry(g, event, now));
  }

  lemma RunSnoc(g: Graph, steps: seq<Stamped>, step: Stamped)
    requires Run(g, steps).Some? && Apply(Run(g, steps).value, step.event, step.at).Ok?
    ensures Run(g, steps + [step]) == Some(Apply(Run(g, steps).value, step.event, step.at).value)
  {
    assert (steps + [step])[..|steps|] == steps;
  }

  /* ---------- All runs ---------- */

  /** `g` started as `origin`, and its history says by which steps it came about. */
  predicate Tracks(origin: Graph, steps: seq<Stamped>, g: Graph) {
    Consistent(g) && Origin(g) == origin && StampsOf(g.history) == steps
  }

  lemma StepTracks(origin: Graph, steps: seq<Stamped>, before: Graph, g: Graph)
    requires steps != [] && Tracks(origin, steps[..|steps| - 1], before)
    requires Apply(before, steps[|steps| - 1].event, steps[|steps| - 1].at) == Ok(g)
    ensures Tracks(origin, steps, g)
  {
    var last := steps[|steps| - 1];
    ApplyStamps(before, last.event, last.at);
    assert StampsOf(g.history) == steps;
    ApplyKeepsConsistent(before, last.event, last.at);
  }

  lemma RunUnfolds(g: Graph, steps: seq<Stamped>) returns (before: Graph)
    requires steps != [] && Run(g, steps).Some?
    ensures var n := |steps| - 1;
      && Run(g, steps[..n]) == Some(before)
      && Apply(before, steps[n].event, steps[n].at) == Ok(Run(g, steps).value)
  {
    before := Run(g, steps[..|steps| - 1]).value;
  }

  lemma {:induction false} RunsTrack(origin: Graph, steps: seq<Stamped>, g: Graph)
    requires Tracks(origin, [], origin) && Run(origin, steps) == Some(g)
    ensures Tracks(origin, steps, g)
    decreases |steps|
  {
    if steps != [] {
      var before := RunUnfolds(origin, steps);
      RunsTrack(origin, steps[..|steps| - 1], before);
      StepTracks(origin, steps, before, g);
    }
  }

  /** Every run from an initial graph stays inside, and its history is the run itself. */
  lemma EveryRunIsConsistent(feature: string, roles: Roles, maxRetries: nat, start: Time, steps: seq<Stamped>)
    ensures var r := Run(Initial(feature, roles, maxRetries, start), steps);
      r.Some? ==>
        && Consistent(r.value)
        && Origin(r.value) == Initial(feature, roles, maxRetries, start)
        && StampsOf(r.value.history) == steps
  {
    InitialIsFresh(feature, roles, maxRetries, start);
    var r := Run(Initial(feature, roles, maxRetries, start), steps);
    if r.Some? {
      RunsTrack(Initial(feature, roles, maxRetries, start), steps, r.value);
    }
  }

  /* ---------- Reachable is exactly what the orchestrator accepts ---------- */

  function ReadyTasks(v: Vector): set<TaskName> {
    (if v.builder == Ready then {Builder} else {}) + (if v.reviewer == Ready then {Reviewer} else {}) +
    (if v.security == Ready then {SecurityReviewer} else {}) + (if v.verification == Ready then {Verification} else {})
  }

  /** Soundness: a run only meets listed states; one READY task while active and none afterwards. */
  lemma ReachedStatesAreListed(feature: string, roles: Roles, maxRetries: nat, start: Time, steps: seq<Stamped>)
    requires Run(Initial(feature, roles, maxRetries, start), steps).Some?
    ensures var g := Run(Initial(feature, roles, maxRetries, start), steps).value;
      && Delegated(g.roles) == Delegated(roles)
      && ValidState(g.status, Delegated(roles), VectorOf(g.tasks))
      && ReadyTasks(VectorOf(g.tasks)) == if g.status == Active then {Order(Delegated(roles))[Stage(g)]} else {}
  {
    EveryRunIsConsistent(feature, roles, maxRetries, start, steps);
    var g := Run(Initial(feature, roles, maxRetries, start), steps).value;
    ListedStatesAreStages(g.status, Delegated(g.roles), VectorOf(g.tasks));
  }

  /** The events of that many full attempts. */
  function AttemptEvents(delegated: bool, attempts: nat): nat {
    if delegated then 4 * attempts else 3 * attempts
  }

  /** A run of exactly `r * n + k` events to stage `k` of attempt `r`: every attempt fails last. */
  lemma {:induction false} ReachStage(origin: Graph, r: nat, k: nat)
    returns (steps: seq<Stamped>, g: Graph)
    requires Fresh(origin) && r <= origin.maxRetries && k < |Order(Delegated(origin.roles))|
    ensures Run(origin, steps) == Some(g) && WellShaped(g)
    ensures g.status == Active && g.retryCount == r && Stage(g) == k
    ensures g.maxRetries == origin.maxRetries && g.roles == origin.roles
    ensures |steps| == AttemptEvents(Delegated(origin.roles), r) + k
    decreases r, k
  {
    if k > 0 {
      var before, g' := ReachStage(origin, r, k - 1);
      steps, g := TakeStep(origin, before, g', Stamped(PassEvent(CurrentTask(g')), origin.generatedAt));
    } else if r > 0 {
      var before, g' := ReachStage(origin, r - 1, |Order(Delegated(origin.roles))| - 1);
      steps, g := TakeStep(origin, before, g', Stamped(FailEvent(CurrentTask(g')), origin.generatedAt));
    } else {
      steps, g := [], origin;
    }
  }

  function CurrentTask(g: Graph): TaskName
    requires Stage(g) < |Order(Delegated(g.roles))|
  {
    Order(Delegated(g.roles))[Stage(g)]
  }

  lemma TakeStep(origin: Graph, before: seq<Stamped>, g: Graph, step: Stamped)
    returns (steps: seq<Stamped>, g': Graph)
    requires Run(origin, before) == Some(g) && WellShaped(g) && g.status == Active && g.retryCount <= g.maxRetries
    requires Stage(g) < |Order(Delegated(g.roles))|
    requires step.event == PassEvent(CurrentTask(g)) || step.event == FailEvent(CurrentTask(g))
    ensures steps == before + [step] && Run(origin, steps) == Some(g') && WellShaped(g')
    ensures g'.maxRetries == g.maxRetries && g'.roles == g.roles
    ensures IsFail(step.event) ==>
      if g.retryCount == g.maxRetries then g'.status == Failed && Stage(g') == Stage(g)
      else g'.status == Active && g'.retryCount == g.retryCount + 1 && Stage(g') == 0
    ensures !IsFail(step.event) ==>
      g'.retryCount == g.retryCount && Stage(g') == Stage(g) + 1 &&
      g'.status == if Stage(g') == |Order(Delegated(g.roles))| then Complete else Active
  {
    AcceptedExactly(g, step.event, step.at);
    ApplyAppends(g, step.event, step.at);
    ApplyKeepsShape(g, step.event, step.at);
    RunSnoc(origin, before, step);
    steps, g' := before + [step], Apply(g, step.event, step.at).value;
    ListedStatesAreStages(g'.status, Delegated(g'.roles), VectorOf(g'.tasks));
  }

  /** Completeness: every listed state is reached, whatever the roles and the number of retries. */
  lemma ListedStatesAreReached(feature: string, roles: Roles, maxRetries: nat, start: Time, status: GraphStatus, v: Vector)
    returns (steps: seq<Stamped>, g: Graph)
    requires ValidState(status, Delegated(roles), v)
    ensures Run(Initial(feature, roles, maxRetries, start), steps) == Some(g)
    ensures g.status == status && VectorOf(g.tasks) == v
  {
    var delegated, k := Delegated(roles), StageOf(Delegated(roles), v);
    ListedStatesAreStages(status, delegated, v);
    var at := if status == Complete then k - 1 else k;
    InitialIsFresh(feature, roles, maxRetries, start);
    steps, g := ReachStage(Initial(feature, roles, maxRetries, start), if status == Failed then maxRetries else 0, at);
    if status == Complete {
      steps, g := TakeStep(Initial(feature, roles, maxRetries, start), steps, g, Stamped(PassEvent(CurrentTask(g)), start));
    } else if status == Failed {
      steps, g := TakeStep(Initial(feature, roles, maxRetries, start), steps, g, Stamped(FailEvent(CurrentTask(g)), start));
    }
    ListedStatesAreStages(status, delegated, VectorOf(g.tasks));
  }

  /* ---------- The history is a faithful log ---------- */

  function RetryEntries(h: seq<Entry>): nat {
    if h == [] then 0 else RetryEntries(h[..|h| - 1]) + if h[|h| - 1].outcome == Retry then 1 else 0
  }

  lemma FaithfulPrefix(h: seq<Entry>, maxRetries: nat)
    requires AllFaithful(h, maxRetries) && h != []
    ensures AllFaithful(h[..|h| - 1], maxRetries)
  {
    var p := h[..|h| - 1];
    forall i | 0 <= i < |p| ensures EntryIsFaithful(p, i, maxRetries) {
      assert EntryIsFaithful(h, i, maxRetries);
      assert p[..i + 1] == h[..i + 1];
    }
  }

  lemma {:induction false} RetriesAreFailures(h: seq<Entry>, maxRetries: nat)
    requires AllFaithful(h, maxRetries)
    ensures RetryEntries(h) == if FailCount(h) <= maxRetries then FailCount(h) else maxRetries
  {
    if h != [] {
      FaithfulPrefix(h, maxRetries);
      RetriesAreFailures(h[..|h| - 1], maxRetries);
      assert EntryIsFaithful(h, |h| - 1, maxRetries);
      assert h[..|h|] == h;
    }
  }

  /**
   After any run: replaying the history on the graph's own origin rebuilds the whole graph; the retry
   counter is the number of RETRY entries; COMPLETE means the entries since the last failure are the
   passes of every task in order; FAILED means exactly maxRetries + 1 failures, the last one recorded
   with retryCount maxRetries + 1 while the graph's own counter stays at maxRetries.
   */
  lemma HistoryIsFaithful(feature: string, roles: Roles, maxRetries: nat, start: Time, steps: seq<Stamped>)
    requires Run(Initial(feature, roles, maxRetries, start), steps).Some?
    ensures var g := Run(Initial(feature, roles, maxRetries, start), steps).value;
      && Run(Origin(g), StampsOf(g.history)) == Some(g)
      && StampsOf(g.history) == steps
      && g.retryCount == RetryEntries(g.history)
      && (g.status == Complete ==>
            EventsOf(Tail(g.history)) == PassesUpTo(Delegated(roles), |Order(Delegated(roles))|))
      && (g.status == Failed ==>
            && g.history != []
            && FailCount(g.history) == maxRetries + 1 && g.retryCount == maxRetries
            && g.history[|g.history| - 1].outcome == FailedMaxRetries
            && g.history[|g.history| - 1].retryCount == maxRetries + 1)
      && (g.status != Failed ==> FailCount(g.history) == g.retryCount <= maxRetries)
  {
    EveryRunIsConsistent(feature, roles, maxRetries, start, steps);
    var g := Run(Initial(feature, roles, maxRetries, start), steps).value;
    assert g.maxRetries == Origin(g).maxRetries == maxRetries;
    assert Origin(g).roles.securityReviewer.Some? <==> Delegated(roles);
    ListedStatesAreStages(g.status, Delegated(g.roles), VectorOf(g.tasks));
    RetriesAreFailures(g.history, maxRetries);
    if g.status == Failed {
      var n := |g.history| - 1;
      assert EntryIsFaithful(g.history, n, maxRetries);
      assert g.history[..n + 1] == g.history;
    }
  }

  /* ---------- Runs end ---------- */

  /** (maxRetries - retryCount) * n + (n - stage), n being the number of tasks of one attempt. */
  function Potential(g: Graph): int {
    if Delegated(g.roles) then (g.maxRetries - g.retryCount) * 4 + (4 - Stage(g))
    else (g.maxRetries - g.retryCount) * 3 + (3 - Stage(g))
  }

  /** The failure that finds no retry left. */
  predicate IsLastFailure(g: Graph, event: Event) {
    IsFail(event) && g.retryCount == g.maxRetries
  }

  /** The formula falls with every accepted event but one: the failure that uses up the last retry. */
  lemma PotentialFallsExactly(g: Graph, event: Event, now: Time)
    requires Consistent(g) && Apply(g, event, now).Ok?
    ensures Potential(Apply(g, event, now).value) < Potential(g) <==> !IsLastFailure(g, event)
    ensures Apply(g, event, now).value.status == Failed <==> IsLastFailure(g, event)
  {
    ApplyAppends(g, event, now);
    ApplyKeepsShape(g, event, now);
    AcceptedExactly(g, event, now);
  }

  /** An input for that exception: with no retries at all, the first failure leaves the formula at n. */
  lemma LastFailureKeepsPotential(feature: string, roles: Roles, start: Time, now: Time)
    ensures var g := Initial(feature, roles, 0, start);
      && Apply(g, BuilderFail, now).Ok?
      && Potential(Apply(g, BuilderFail, now).value) == Potential(g) == |Order(Delegated(roles))|
  {
    InitialIsFresh(feature, roles, 0, start);
    var g := Initial(feature, roles, 0, start);
    AcceptedExactly(g, BuilderFail, now);
    ApplyAppends(g, BuilderFail, now);
    ApplyKeepsShape(g, BuilderFail, now);
  }

  /** How many more events a graph can possibly accept: none once it is terminal. */
  function Measure(g: Graph): nat
    requires WellShaped(g) && g.retryCount <= g.maxRetries
  {
    ListedStatesAreStages(g.status, Delegated(g.roles), VectorOf(g.tasks));
    if g.status != Active then 0 else Potential(g)
  }

  lemma EventsLowerMeasure(g: Graph, event: Event, now: Time)
    requires Consistent(g) && Apply(g, event, now).Ok?
    ensures Consistent(Apply(g, event, now).value)
    ensures Measure(Apply(g, event, now).value) < Measure(g)
  {
    ApplyKeepsConsistent(g, event, now);
    ApplyAppends(g, event, now);
    ApplyKeepsShape(g, event, now);
    AcceptedExactly(g, event, now);
  }

  lemma {:induction false} MeasureBoundsRuns(origin: Graph, steps: seq<Stamped>)
    requires Tracks(origin, [], origin) && Run(origin, steps).Some?
    ensures Consistent(Run(origin, steps).value)
    ensures |steps| + Measure(Run(origin, steps).value) <= Measure(origin)
    decreases |steps|
  {
    if steps != [] {
      var n := |steps| - 1;
      var before := RunUnfolds(origin, steps);
      MeasureBoundsRuns(origin, steps[..n]);
      EventsLowerMeasure(before, steps[n].event, steps[n].at);
    }
  }

  /** No run is longer than n * (maxRetries + 1), n being the number of tasks of one attempt. */
  lemma RunsAreBounded(feature: string, roles: Roles, maxRetries: nat, start: Time, steps: seq<Stamped>)
    requires Run(Initial(feature, roles, maxRetries, start), steps).Some?
    ensures |steps| <= AttemptEvents(Delegated(roles), maxRetries + 1)
  {
    InitialIsFresh(feature, roles, maxRetries, start);
    MeasureBoundsRuns(Initial(feature, roles, maxRetries, start), steps);
  }

  /** The bound is reached: failing every attempt at its last task takes that many events. */
  lemma BoundIsTight(origin: Graph) returns (steps: seq<Stamped>, g: Graph)
    requires Fresh(origin)
    ensures Run(origin, steps) == Some(g) && g.status == Failed
    ensures |steps| == AttemptEvents(Delegated(origin.roles), origin.maxRetries + 1)
  {
    var before, last := ReachStage(origin, origin.maxRetries, |Order(Delegated(origin.roles))| - 1);
    steps, g := TakeStep(origin, before, last, Stamped(FailEvent(CurrentTask(last)), origin.generatedAt));
  }
}
