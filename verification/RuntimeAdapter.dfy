/**
 The agent runtime of scripts/agent-runtime-adapter.js: one run of one task picks an adapter, writes
 run evidence, and then feeds the mapped event to the task graph.
 */
module RuntimeAdapter {
  import opened Prelude
  import opened TaskGraph
  import opened TaskGraphRuns

  /* ---------- Configuration and evidence ---------- */

  datatype AdapterType = DryRun | Scripted | CodexExecReview | OtherAdapter(name: string)

  datatype Adapter = Adapter(kind: AdapterType, timeoutMs: int, sandbox: Option<string>)

  /** A role is None when it is null; `localOptIn` holds the adapter types of the local override file, by task. */
  datatype RuntimeConfig = RuntimeConfig(
    feature: string,
    adapters: map<TaskName, Adapter>,
    roles: map<TaskName, Option<string>>,
    localOptIn: map<TaskName, AdapterType>)

  datatype RunResult = ResultPass | ResultFail | ResultTimeout | ResultDryRun | ResultProviderError

  datatype ExecutionStatus = Success | Timeout | Error | InvalidOutput

  datatype Provider = Provider(name: string, sessionId: Option<string>, executionStatus: ExecutionStatus)

  datatype RunEvidence = RunEvidence(
    runId: string, feature: string, task: TaskName, actor: Option<string>, adapter: AdapterType,
    result: RunResult, graphEvent: Option<Event>, provider: Option<Provider>,
    startedAt: Time, finishedAt: Time)

  /** What the reviewer process and its output file turn out to be. */
  datatype CodexProcess =
    | TimedOut
    | ProcessFailed        // it could not run, or its exit status was not 0
    | NoMessage            // it exited with status 0 but left no final message
    | Unparsable           // its final message is not a valid review
    | Reviewed(pass: bool)

  datatype RunError =
    | InvalidFeature
    | UnsupportedTask
    | GraphFeatureMismatch
    | GraphNotActive
    | TaskNotReady
    | ConfigFeatureMismatch
    | AdapterMissing
    | ActorMismatch
    | NoLocalOptIn
    | UnsafeSandbox
    | InvalidScriptedResult
    | ReviewerOnly
    | UnsupportedAdapter
    | TransitionRejected(cause: GraphError)

  function TaskOfName(name: string): Option<TaskName> {
    match name
    case "builder" => Some(Builder)
    case "reviewer" => Some(Reviewer)
    case "securityReviewer" => Some(SecurityReviewer)
    case "verification" => Some(Verification)
    case _ => None
  }

  function ScriptedResult(normalized: string): Option<RunResult> {
    match normalized
    case "PASS" => Some(ResultPass)
    case "FAIL" => Some(ResultFail)
    case "TIMEOUT" => Some(ResultTimeout)
    case _ => None
  }

  /** `TASK_EVENTS`: a timeout counts as a failure; other results have no event. */
  function TaskEvent(task: TaskName, result: RunResult): Option<Event> {
    match (task, result)
    case (Builder, ResultPass) => Some(BuilderPass)
    case (Builder, ResultFail) => Some(BuilderFail)
    case (Builder, ResultTimeout) => Some(BuilderFail)
    case (Reviewer, ResultPass) => Some(ReviewerPass)
    case (Reviewer, ResultFail) => Some(ReviewerFail)
    case (Reviewer, ResultTimeout) => Some(ReviewerFail)
    case (SecurityReviewer, ResultPass) => Some(SecurityPass)
    case (SecurityReviewer, ResultFail) => Some(SecurityFail)
    case (SecurityReviewer, ResultTimeout) => Some(SecurityFail)
    case (Verification, ResultPass) => Some(VerifyPass)
    case (Verification, ResultFail) => Some(VerifyFail)
    case (Verification, ResultTimeout) => Some(VerifyFail)
    case _ => None
  }

  /** The outcome table of `runCodexReviewer`. */
  function CodexOutcome(process: CodexProcess): (RunResult, Option<Event>, ExecutionStatus) {
    match process
    case TimedOut => (ResultTimeout, Some(ReviewerFail), Timeout)
    case ProcessFailed => (ResultProviderError, None, Error)
    case NoMessage => (ResultProviderError, None, InvalidOutput)
    case Unparsable => (ResultProviderError, None, InvalidOutput)
    case Reviewed(pass) =>
      if pass then (ResultPass, Some(ReviewerPass), Success) else (ResultFail, Some(ReviewerFail), Success)
  }

  /* ---------- One run, on the feature's files ---------- */

  /** Everything a run reads from outside: arguments, configuration, the provider and the clock. */
  datatype Call = Call(
    feature: string, taskName: string, config: RuntimeConfig, scripted: string, codex: CodexProcess,
    sessionId: Option<string>, runId: string, startedAt: Time, finishedAt: Time)

  /** The two things runs change: the task graph file and the run evidence directory. */
  class FeatureFiles {
    var graph: Graph
    var runs: seq<RunEvidence>

    constructor (graph: Graph)
      ensures this.graph == graph && runs == []
    {
      this.graph, runs := graph, [];
    }

    /**
     Every error but TransitionRejected is raised before anything is written. Otherwise one evidence
     record is written, and the graph makes the step the record names, if it names one.
     */
    method RunTask(call: Call) returns (r: Result<RunEvidence, RunError>)
      modifies this
      ensures r == RunOutcome(old(graph), call)
      ensures graph == NextGraph(old(graph), call)
      ensures runs == old(runs) + Written(old(graph), call)
    {
      if !ValidSlug(call.feature) {
        return Err(InvalidFeature);
      }
      var named := TaskOfName(call.taskName);
      if named.None? {
        return Err(UnsupportedTask);
      }
      var task := named.value;
      if graph.feature != call.feature {
        return Err(GraphFeatureMismatch);
      }
      if graph.status != Active {
        return Err(GraphNotActive);
      }
      if StatusOf(graph.tasks, task) != Ready {
        return Err(TaskNotReady);
      }
      if call.config.feature != call.feature {
        return Err(ConfigFeatureMismatch);
      }
      if task !in call.config.adapters {
        return Err(AdapterMissing);
      }
      var adapter := call.config.adapters[task];
      var actor := ActorOf(graph.tasks, task);
      if RoleDiffers(call.config, task, actor) {
        return Err(ActorMismatch);
      }
      if adapter.kind == CodexExecReview {
        if task !in call.config.localOptIn || call.config.localOptIn[task] != CodexExecReview {
          return Err(NoLocalOptIn);
        }
        if adapter.sandbox.Some? && adapter.sandbox.value != "" && adapter.sandbox.value != "read-only" {
          return Err(UnsafeSandbox);
        }
      }
      var result := ResultDryRun;
      var graphEvent: Option<Event> := None;
      var provider: Option<Provider> := None;
      if adapter.kind == DryRun {
      } else if adapter.kind == Scripted {
        var scripted := ScriptedResult(call.scripted);
        if scripted.None? {
          return Err(InvalidScriptedResult);
        }
        result := scripted.value;
        graphEvent := TaskEvent(task, result);
      } else if adapter.kind == CodexExecReview {
        if task != Reviewer {
          return Err(ReviewerOnly);
        }
        var (codexResult, codexEvent, executionStatus) := CodexOutcome(call.codex);
        result, graphEvent := codexResult, codexEvent;
        provider := Some(Provider("codex-cli", call.sessionId, executionStatus));
      } else {
        return Err(UnsupportedAdapter);
      }
      var evidence := RunEvidence(
        call.runId, call.feature, task, actor, adapter.kind, result, graphEvent, provider,
        call.startedAt, call.finishedAt);
      runs := runs + [evidence];
      if graphEvent.Some? {
        match Apply(graph, graphEvent.value, call.finishedAt)
        case Ok(next) =>
          graph := next;
        case Err(cause) =>
          return Err(TransitionRejected(cause));
      }
      return Ok(evidence);
    }
  }

  /** `graphTask.actor || null`. */
  function ActorOf(tasks: Tasks, task: TaskName): Option<string> {
    var actor :=
      match task
      case Builder => tasks.builder.actor
      case Reviewer => tasks.reviewer.actor
      case SecurityReviewer => tasks.securityReviewer.actor
      case Verification => tasks.verification.actor;
    if actor == Some("") then None else actor
  }

  /** A role that is missing differs from every actor, a null one only from those that have a name. */
  predicate RoleDiffers(config: RuntimeConfig, task: TaskName, actor: Option<string>) {
    task != Verification && (task !in config.roles || config.roles[task] != actor)
  }

  /* ---------- The run as functions of the graph and the call ---------- */

  /** What is checked before the adapter runs: the first failing check, if any. */
  function Refusal(g: Graph, call: Call): Option<RunError> {
    if !ValidSlug(call.feature) then Some(InvalidFeature)
    else if TaskOfName(call.taskName).None? then Some(UnsupportedTask)
    else
      var task := TaskOfName(call.taskName).value;
      if g.feature != call.feature then Some(GraphFeatureMismatch)
      else if g.status != Active then Some(GraphNotActive)
      else if StatusOf(g.tasks, task) != Ready then Some(TaskNotReady)
      else if call.config.feature != call.feature then Some(ConfigFeatureMismatch)
      else if task !in call.config.adapters then Some(AdapterMissing)
      else
        var adapter := call.config.adapters[task];
        if RoleDiffers(call.config, task, ActorOf(g.tasks, task)) then Some(ActorMismatch)
        else
          match adapter.kind
          case DryRun => None
          case Scripted => if ScriptedResult(call.scripted).None? then Some(InvalidScriptedResult) else None
          case CodexExecReview =>
            if task !in call.config.localOptIn || call.config.localOptIn[task] != CodexExecReview then Some(NoLocalOptIn)
            else if adapter.sandbox.Some? && adapter.sandbox.value !in {"", "read-only"} then Some(UnsafeSandbox)
            else if task != Reviewer then Some(ReviewerOnly)
            else None
          case OtherAdapter(_) => Some(UnsupportedAdapter)
  }

  /** The record a run that is not refused writes. */
  function Evidence(g: Graph, call: Call): RunEvidence
    requires Refusal(g, call).None?
  {
    var task := TaskOfName(call.taskName).value;
    var kind := call.config.adapters[task].kind;
    var (result, event, provider) :=
      match kind
      case Scripted =>
        var scripted := ScriptedResult(call.scripted).value;
        (scripted, TaskEvent(task, scripted), None)
      case CodexExecReview =>
        var (codexResult, codexEvent, executionStatus) := CodexOutcome(call.codex);
        (codexResult, codexEvent, Some(Provider("codex-cli", call.sessionId, executionStatus)))
      case _ => (ResultDryRun, None, None);
    RunEvidence(call.runId, call.feature, task, ActorOf(g.tasks, task), kind, result, event, provider,
                call.startedAt, call.finishedAt)
  }

  function Written(g: Graph, call: Call): seq<RunEvidence> {
    if Refusal(g, call).Some? then [] else [Evidence(g, call)]
  }

  function NextGraph(g: Graph, call: Call): Graph {
    if Refusal(g, call).Some? then g
    else
      var e := Evidence(g, call);
      if e.graphEvent.None? then g
      else
        match Apply(g, e.graphEvent.value, call.finishedAt)
        case Ok(g') => g'
        case Err(_) => g
  }

  function RunOutcome(g: Graph, call: Call): Result<RunEvidence, RunError> {
    if Refusal(g, call).Some? then Err(Refusal(g, call).value)
    else
      var e := Evidence(g, call);
      if e.graphEvent.None? then Ok(e)
      else
        match Apply(g, e.graphEvent.value, call.finishedAt)
        case Ok(_) => Ok(e)
        case Err(cause) => Err(TransitionRejected(cause))
  }

  /* ---------- Which runs are made, and what they record ---------- */

  /** The tasks by the names that the command line and the configuration use. */
  predicate Names(name: string, task: TaskName) {
    match task
    case Builder => name == "builder"
    case Reviewer => name == "reviewer"
    case SecurityReviewer => name == "securityReviewer"
    case Verification => name == "verification"
  }

  /** What the adapter of a task demands before it may run. */
  predicate MayRun(adapter: Adapter, task: TaskName, call: Call) {
    match adapter.kind
    case DryRun => true
    case Scripted => call.scripted == "PASS" || call.scripted == "FAIL" || call.scripted == "TIMEOUT"
    case CodexExecReview =>
      && task == Reviewer
      && task in call.config.localOptIn && call.config.localOptIn[task] == CodexExecReview
      && (adapter.sandbox.None? || adapter.sandbox.value == "" || adapter.sandbox.value == "read-only")
    case OtherAdapter(_) => false
  }

  /** A task may be run: it is READY, its adapter is configured, and the configured role is its actor. */
  predicate TaskMayRun(g: Graph, call: Call, task: TaskName) {
    && StatusOf(g.tasks, task) == Ready
    && task in call.config.adapters && MayRun(call.config.adapters[task], task, call)
    && (task == Verification || (task in call.config.roles && call.config.roles[task] == ActorOf(g.tasks, task)))
  }

  /** A run is made exactly when all of this holds. */
  lemma RunsExactly(g: Graph, call: Call)
    ensures Refusal(g, call).None? <==>
      && ValidSlug(call.feature) && g.feature == call.feature && g.status == Active && call.config.feature == call.feature
      && exists task :: Names(call.taskName, task) && TaskMayRun(g, call, task)
  {
    if Refusal(g, call).None? {
      assert Names(call.taskName, TaskOfName(call.taskName).value);
      assert TaskMayRun(g, call, TaskOfName(call.taskName).value);
    }
    if task :| Names(call.taskName, task) && TaskMayRun(g, call, task) {
      assert TaskOfName(call.taskName) == Some(task);
    }
  }

  /** What is recorded of the run itself: the call's own data, and the actor of the task it names. */
  lemma EvidenceTellsTheCall(g: Graph, call: Call)
    requires Refusal(g, call).None?
    ensures var e := Evidence(g, call);
      && e.runId == call.runId && e.feature == call.feature
      && e.startedAt == call.startedAt && e.finishedAt == call.finishedAt
      && Names(call.taskName, e.task)
      && e.task in call.config.adapters && e.adapter == call.config.adapters[e.task].kind
      && var actor := (match e.task
                       case Builder => g.tasks.builder.actor
                       case Reviewer => g.tasks.reviewer.actor
                       case SecurityReviewer => g.tasks.securityReviewer.actor
                       case Verification => g.tasks.verification.actor);
         (actor == Some("") ==> e.actor == None) && (actor != Some("") ==> e.actor == actor)
  {
  }

  /** What is recorded of the outcome, adapter by adapter. */
  lemma EvidenceTellsTheOutcome(g: Graph, call: Call)
    requires Refusal(g, call).None?
    ensures var e := Evidence(g, call);
      match e.adapter
      case Scripted =>
        && e.provider.None? && e.result in {ResultPass, ResultFail, ResultTimeout}
        && (e.result == ResultPass <==> call.scripted == "PASS")
        && (e.result == ResultFail <==> call.scripted == "FAIL")
        && (e.result == ResultTimeout <==> call.scripted == "TIMEOUT")
      case CodexExecReview =>
        && e.task == Reviewer
        && e.provider.Some? && e.provider.value.name == "codex-cli" && e.provider.value.sessionId == call.sessionId
        && (match call.codex
            case TimedOut => e.result == ResultTimeout && e.provider.value.executionStatus == Timeout
            case ProcessFailed => e.result == ResultProviderError && e.provider.value.executionStatus == Error
            case NoMessage => e.result == ResultProviderError && e.provider.value.executionStatus == InvalidOutput
            case Unparsable => e.result == ResultProviderError && e.provider.value.executionStatus == InvalidOutput
            case Reviewed(pass) =>
              e.provider.value.executionStatus == Success && e.result == if pass then ResultPass else ResultFail)
      case _ => e.provider.None? && e.result == ResultDryRun
  {
  }

  /* ---------- The runtime refines the task graph ---------- */

  /** The event of a run is the pass or the fail of the task it ran, or none at all. */
  lemma EvidenceNamesItsTask(g: Graph, call: Call)
    requires Refusal(g, call).None?
    ensures var e := Evidence(g, call);
      && (e.graphEvent.Some? <==> e.result in {ResultPass, ResultFail, ResultTimeout})
      && (e.graphEvent.Some? ==>
            e.graphEvent.value == if e.result == ResultPass then PassEvent(e.task) else FailEvent(e.task))
  {
  }

  /** From a consistent graph no run writes evidence for an event the graph then rejects. */
  lemma NeverRejectedAfterEvidence(g: Graph, call: Call)
    requires Consistent(g)
    ensures RunOutcome(g, call).Err? <==> Refusal(g, call).Some?
    ensures RunOutcome(g, call).Err? ==> Written(g, call) == [] && NextGraph(g, call) == g
    ensures Consistent(NextGraph(g, call))
  {
    if Refusal(g, call).None? {
      EvidenceNamesItsTask(g, call);
      var e := Evidence(g, call);
      ListedStatesAreStages(g.status, Delegated(g.roles), VectorOf(g.tasks));
      ReadyTaskIsCurrent(g, e.task);
      if e.graphEvent.Some? {
        AcceptedExactly(g, e.graphEvent.value, call.finishedAt);
        ApplyKeepsConsistent(g, e.graphEvent.value, call.finishedAt);
      }
    }
  }

  lemma ReadyTaskIsCurrent(g: Graph, task: TaskName)
    requires WellShaped(g) && g.status == Active && StatusOf(g.tasks, task) == Ready
    ensures Stage(g) < |Order(Delegated(g.roles))| && CurrentTask(g) == task
  {
  }

  /** Dry runs and provider errors record evidence and leave the graph alone. */
  lemma OnlyVerdictsMoveTheGraph(g: Graph, call: Call)
    requires Consistent(g) && Refusal(g, call).None?
    ensures NextGraph(g, call) == g <==> Evidence(g, call).result in {ResultDryRun, ResultProviderError}
  {
    NeverRejectedAfterEvidence(g, call);
    EvidenceNamesItsTask(g, call);
    var e := Evidence(g, call);
    if e.graphEvent.Some? {
      ApplyAppends(g, e.graphEvent.value, call.finishedAt);
      assert |NextGraph(g, call).history| == |g.history| + 1;
    }
  }

  /** The stamped events that run evidence records, in order. */
  function RecordedEvents(runs: seq<RunEvidence>): seq<Stamped> {
    if runs == [] then []
    else
      var last := runs[|runs| - 1];
      RecordedEvents(runs[..|runs| - 1]) +
      if last.graphEvent.Some? then [Stamped(last.graphEvent.value, last.finishedAt)] else []
  }

  /** Graph and evidence directory after a series of runs. */
  function After(g: Graph, calls: seq<Call>): (Graph, seq<RunEvidence>) {
    if calls == [] then (g, [])
    else
      var n := |calls| - 1;
      var (g', runs) := After(g, calls[..n]);
      (NextGraph(g', calls[n]), runs + Written(g', calls[n]))
  }

  /** The graph is what running the recorded events from `origin` gives, and its history is those events. */
  predicate Agree(origin: Graph, g: Graph, runs: seq<RunEvidence>) {
    Tracks(origin, RecordedEvents(runs), g) && Run(origin, RecordedEvents(runs)) == Some(g)
  }

  lemma RecordedSnoc(runs: seq<RunEvidence>, e: RunEvidence)
    ensures RecordedEvents(runs + [e]) ==
      RecordedEvents(runs) + if e.graphEvent.Some? then [Stamped(e.graphEvent.value, e.finishedAt)] else []
  {
    assert (runs + [e])[..|runs|] == runs;
  }

  lemma RunKeepsAgreement(origin: Graph, g: Graph, call: Call, runs: seq<RunEvidence>)
    requires Agree(origin, g, runs)
    ensures Agree(origin, NextGraph(g, call), runs + Written(g, call))
  {
    NeverRejectedAfterEvidence(g, call);
    if Refusal(g, call).Some? {
      assert runs + Written(g, call) == runs;
    } else {
      var e := Evidence(g, call);
      RecordedSnoc(runs, e);
      if e.graphEvent.Some? {
        ApplyStamps(g, e.graphEvent.value, call.finishedAt);
        RunSnoc(origin, RecordedEvents(runs), Stamped(e.graphEvent.value, call.finishedAt));
      }
    }
  }

  /**
   Whatever calls are made, the evidence directory and the graph agree: the recorded events, in order
   and with their times, are the graph's history, and running them from the start gives the graph.
   */
  lemma {:induction false} EvidenceMatchesHistory(feature: string, roles: Roles, maxRetries: nat, start: Time, calls: seq<Call>)
    ensures var (g, runs) := After(Initial(feature, roles, maxRetries, start), calls);
      Agree(Initial(feature, roles, maxRetries, start), g, runs)
    decreases |calls|
  {
    if calls == [] {
      InitialIsFresh(feature, roles, maxRetries, start);
    } else {
      var n := |calls| - 1;
      EvidenceMatchesHistory(feature, roles, maxRetries, start, calls[..n]);
      var (g, runs) := After(Initial(feature, roles, maxRetries, start), calls[..n]);
      RunKeepsAgreement(Initial(feature, roles, maxRetries, start), g, calls[n], runs);
    }
  }
}
