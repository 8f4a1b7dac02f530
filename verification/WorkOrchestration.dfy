/**
 The status report of scripts/work-development-orchestrator.js on the committed documents: which states it
 calls inconsistent, and what it tells people to do next about the others.
 */
module WorkOrchestration {
  import opened Prelude
  import opened JsText
  import opened TaskGraph
  import opened TaskGraphRuns
  import opened RuntimeAdapter
  import opened RuntimeSummary
  import opened EvidenceGate

  datatype Phase = BuildPhase | ReviewPhase | SecurityPhase | VerificationPhase | HumanDecision | HumanIntervention

  /** The verification evidence file: absent, or read and checked. */
  datatype EvidenceFile = Absent | BadDigest | NotMatchingPass | MatchingPass

  datatype RoleError = NoBuilder | NoReviewer | ReviewerIsTheBuilder | SecurityIsTheBuilder

  datatype StatusError =
    | InvalidRoles(roleError: RoleError)
    | RolesDiffer
    | BuilderActor | ReviewerActor | SecurityActor | UndelegatedSecurity | VerificationActor
    | UnreachableStatuses
    | NotOneReady | ReadyInTerminal
    | EvidenceDigest | EvidenceNotPass | EvidenceMissing
    | OtherDelegation | OtherGraph | OtherRuntime
    | RuntimeRolesDiffer | NotDryRun(task: TaskName) | RuntimeConfigInvalid | RuntimeEvidenceInvalid(error: RuntimeError)

  /** The feature's documents, as they were read; `runtimeConfigReadable` is whether the adapter accepts its file. */
  datatype Documents = Documents(
    feature: string, delegationFeature: string, roles: RoleFields, graph: Graph,
    runtimeFeature: string, runtimeRoles: RoleFields, adapters: map<TaskName, Adapter>, runtimeConfigReadable: bool,
    runtimeEvidence: Result<RuntimeInfo, RuntimeError>, evidence: EvidenceFile)

  datatype Report =
    | Inconsistent(errors: seq<StatusError>)
    | Progress(status: GraphStatus, phase: Phase, readyTask: Option<TaskName>, recordVerdict: bool)

  /* ---------- Roles ---------- */

  /** `String(value || "").trim()`. */
  function Identity(role: Option<string>): string {
    if role.Some? then Trim(role.value) else ""
  }

  predicate RoleFault(roles: RoleFields, e: RoleError) {
    var b, r, s := Identity(roles.builder), Identity(roles.reviewer), Identity(roles.securityReviewer);
    match e
    case NoBuilder => b == ""
    case NoReviewer => r == ""
    case ReviewerIsTheBuilder => b != "" && r != "" && b == r
    case SecurityIsTheBuilder => s != "" && b != "" && s == b
  }

  predicate SameRoles(roles: RoleFields, g: Graph) {
    && NonEmpty(roles.builder) == NonEmpty(Some(g.roles.builder))
    && NonEmpty(roles.reviewer) == NonEmpty(Some(g.roles.reviewer))
    && NonEmpty(roles.securityReviewer) == NonEmpty(g.roles.securityReviewer)
  }

  lemma SameRolesExactly(roles: RoleFields, g: Graph)
    ensures SameRoles(roles, g) <==> forall role :: !RoleDisagrees(g.roles, roles, role)
  {
    assert SameRoles(roles, g) || RoleDisagrees(g.roles, roles, BuilderRole) || RoleDisagrees(g.roles, roles, ReviewerRole)
      || RoleDisagrees(g.roles, roles, SecurityReviewerRole);
  }

  /* ---------- READY tasks ---------- */

  ghost predicate OnlyReady(tasks: Tasks, task: TaskName) {
    forall t :: StatusOf(tasks, t) == Ready <==> t == task
  }

  ghost predicate OneReady(tasks: Tasks) {
    exists task :: OnlyReady(tasks, task)
  }

  ghost predicate NoneReady(tasks: Tasks) {
    forall t :: StatusOf(tasks, t) != Ready
  }

  /* ---------- When each error is reported ---------- */

  predicate CommittedDryRun(d: Documents, task: TaskName) {
    task in d.adapters && d.adapters[task].kind == DryRun
  }

  ghost predicate Fault(d: Documents, e: StatusError) {
    var roles, g, evidence := d.roles, d.graph, d.evidence;
    match e
    case InvalidRoles(x) => RoleFault(roles, x)
    case RolesDiffer => exists role :: RoleDisagrees(g.roles, roles, role)
    case BuilderActor => g.tasks.builder.actor != Some(g.roles.builder)
    case ReviewerActor => g.tasks.reviewer.actor != Some(g.roles.reviewer)
    case SecurityActor => Delegated(g.roles) && g.tasks.securityReviewer.actor != g.roles.securityReviewer
    case UndelegatedSecurity =>
      !Delegated(g.roles) && (g.tasks.securityReviewer.actor != None || g.tasks.securityReviewer.status != Skipped)
    case VerificationActor => g.tasks.verification.actor != Some("verification-gate")
    case UnreachableStatuses => !ValidState(g.status, Delegated(g.roles), VectorOf(g.tasks))
    case NotOneReady => g.status == Active && !OneReady(g.tasks)
    case ReadyInTerminal => g.status != Active && !NoneReady(g.tasks)
    case EvidenceDigest => evidence == BadDigest
    case EvidenceNotPass => evidence == NotMatchingPass
    case EvidenceMissing => g.status == Complete && evidence == Absent
    case OtherDelegation => d.delegationFeature != d.feature
    case OtherGraph => g.feature != d.feature
    case OtherRuntime => d.runtimeFeature != d.feature
    case RuntimeRolesDiffer => exists role :: RoleDisagrees(g.roles, d.runtimeRoles, role)
    case NotDryRun(task) => !CommittedDryRun(d, task)
    case RuntimeConfigInvalid => !d.runtimeConfigReadable
    case RuntimeEvidenceInvalid(x) => d.runtimeEvidence == Err(x)
  }

  /* ---------- The report ---------- */

  const TASK_NAMES: seq<TaskName> := [Builder, Reviewer, SecurityReviewer, Verification]

  /** The entries of `tasks` that are READY, in order. */
  method ReadyTaskList(tasks: Tasks) returns (ready: seq<TaskName>)
    ensures forall task :: task in ready <==> StatusOf(tasks, task) == Ready
    ensures |ready| == 1 <==> OneReady(tasks)
    ensures |ready| == 1 ==> OnlyReady(tasks, ready[0])
    ensures ready == [] <==> NoneReady(tasks)
  {
    ready := [];
    for i := 0 to 4
      invariant forall task :: task in ready <==> task in TASK_NAMES[..i] && StatusOf(tasks, task) == Ready
      invariant forall j, k | 0 <= j < k < |ready| :: ready[j] != ready[k]
    {
      var task := TASK_NAMES[i];
      assert TASK_NAMES[..i + 1] == TASK_NAMES[..i] + [task];
      assert task !in TASK_NAMES[..i];
      if StatusOf(tasks, task) == Ready {
        ready := ready + [task];
      }
    }
    AllNames();
    assert TASK_NAMES[..4] == TASK_NAMES;
    CountReady(tasks, ready);
  }

  lemma AllNames()
    ensures forall task: TaskName :: task in TASK_NAMES
  {
    forall task: TaskName ensures task in TASK_NAMES {
      assert task == TASK_NAMES[0] || task == TASK_NAMES[1] || task == TASK_NAMES[2] || task == TASK_NAMES[3];
    }
  }

  lemma CountReady(tasks: Tasks, ready: seq<TaskName>)
    requires forall task :: task in ready <==> StatusOf(tasks, task) == Ready
    requires forall j, k | 0 <= j < k < |ready| :: ready[j] != ready[k]
    ensures |ready| == 1 <==> OneReady(tasks)
    ensures |ready| == 1 ==> OnlyReady(tasks, ready[0])
    ensures ready == [] <==> NoneReady(tasks)
  {
    assert |ready| < 2 || ready[0] != ready[1];
    if |ready| == 1 {
      assert ready == [ready[0]];
      assert OnlyReady(tasks, ready[0]);
    }
    if OneReady(tasks) {
      var task :| OnlyReady(tasks, task);
      assert StatusOf(tasks, task) == Ready;
      assert task in ready;
      forall k | 0 <= k < |ready| ensures ready[k] == task {
        assert ready[k] in ready;
        assert StatusOf(tasks, ready[k]) == Ready;
      }
    }
    if ready != [] {
      assert StatusOf(tasks, ready[0]) == Ready;
    }
  }

  function PhaseOf(task: TaskName): Phase {
    match task
    case Builder => BuildPhase
    case Reviewer => ReviewPhase
    case SecurityReviewer => SecurityPhase
    case Verification => VerificationPhase
  }

  /** The part of the report that collects an error. */
  function Part(e: StatusError): nat {
    match e
    case InvalidRoles(_) => 0
    case RolesDiffer | BuilderActor | ReviewerActor => 1
    case SecurityActor | UndelegatedSecurity | VerificationActor => 2
    case UnreachableStatuses | NotOneReady | ReadyInTerminal => 3
    case EvidenceDigest | EvidenceNotPass | EvidenceMissing => 4
    case OtherDelegation | OtherGraph | OtherRuntime => 5
    case _ => 6
  }

  /** `errors` are the faults of one part, all of them and nothing else. */
  ghost predicate AreFaultsOf(part: nat, d: Documents, errors: seq<StatusError>) {
    forall e :: e in errors <==> Part(e) == part && Fault(d, e)
  }

  /** `validateDelegationRoles`. */
  method RoleErrors(d: Documents) returns (errors: seq<StatusError>)
    ensures AreFaultsOf(0, d, errors)
  {
    var roles := d.roles;
    var b, r, s := Identity(roles.builder), Identity(roles.reviewer), Identity(roles.securityReviewer);
    errors := [];
    if b == "" {
      errors := errors + [InvalidRoles(NoBuilder)];
    }
    if r == "" {
      errors := errors + [InvalidRoles(NoReviewer)];
    }
    if b != "" && r != "" && b == r {
      errors := errors + [InvalidRoles(ReviewerIsTheBuilder)];
    }
    if s != "" && b != "" && s == b {
      errors := errors + [InvalidRoles(SecurityIsTheBuilder)];
    }
  }

  method ActorErrors(d: Documents)
    returns (first: seq<StatusError>, second: seq<StatusError>)
    ensures AreFaultsOf(1, d, first) && AreFaultsOf(2, d, second)
  {
    var g := d.graph;
    SameRolesExactly(d.roles, g);
    first, second := [], [];
    if !SameRoles(d.roles, g) {
      first := first + [RolesDiffer];
    }
    if g.tasks.builder.actor != Some(g.roles.builder) {
      first := first + [BuilderActor];
    }
    if g.tasks.reviewer.actor != Some(g.roles.reviewer) {
      first := first + [ReviewerActor];
    }
    if Delegated(g.roles) {
      if g.tasks.securityReviewer.actor != g.roles.securityReviewer {
        second := second + [SecurityActor];
      }
    } else if g.tasks.securityReviewer.actor != None || g.tasks.securityReviewer.status != Skipped {
      second := second + [UndelegatedSecurity];
    }
    if g.tasks.verification.actor != Some("verification-gate") {
      second := second + [VerificationActor];
    }
  }

  method StatusErrors(d: Documents)
    returns (errors: seq<StatusError>, readyTasks: seq<TaskName>)
    ensures AreFaultsOf(3, d, errors)
    ensures |readyTasks| == 1 <==> OneReady(d.graph.tasks)
    ensures |readyTasks| == 1 ==> OnlyReady(d.graph.tasks, readyTasks[0])
  {
    var g := d.graph;
    errors := if ValidState(g.status, Delegated(g.roles), VectorOf(g.tasks)) then [] else [UnreachableStatuses];
    readyTasks := ReadyTaskList(g.tasks);
    if g.status == Active && |readyTasks| != 1 {
      errors := errors + [NotOneReady];
    }
    if g.status != Active && |readyTasks| != 0 {
      errors := errors + [ReadyInTerminal];
    }
  }

  method EvidenceErrors(d: Documents) returns (errors: seq<StatusError>)
    ensures AreFaultsOf(4, d, errors)
  {
    var g, evidence := d.graph, d.evidence;
    errors := [];
    if evidence == BadDigest {
      errors := errors + [EvidenceDigest];
    } else if evidence == NotMatchingPass {
      errors := errors + [EvidenceNotPass];
    }
    if g.status == Complete && evidence == Absent {
      errors := errors + [EvidenceMissing];
    }
  }

  /** Every document must be about the feature. */
  method FeatureErrors(d: Documents) returns (errors: seq<StatusError>)
    ensures AreFaultsOf(5, d, errors)
  {
    errors := [];
    if d.delegationFeature != d.feature {
      errors := errors + [OtherDelegation];
    }
    if d.graph.feature != d.feature {
      errors := errors + [OtherGraph];
    }
    if d.runtimeFeature != d.feature {
      errors := errors + [OtherRuntime];
    }
  }

  /** Runtime roles, committed adapters, and the runtime's own checks. */
  method RuntimeErrors(d: Documents) returns (errors: seq<StatusError>)
    ensures AreFaultsOf(6, d, errors)
  {
    errors := AdapterErrors(d);
    SameRolesExactly(d.runtimeRoles, d.graph);
    if !SameRoles(d.runtimeRoles, d.graph) {
      errors := errors + [RuntimeRolesDiffer];
    }
    if !d.runtimeConfigReadable {
      errors := errors + [RuntimeConfigInvalid];
    }
    if d.runtimeEvidence.Err? {
      errors := errors + [RuntimeEvidenceInvalid(d.runtimeEvidence.error)];
    }
  }

  /** Every committed adapter must be a dry run. */
  method AdapterErrors(d: Documents) returns (errors: seq<StatusError>)
    ensures forall e :: e in errors <==> e.NotDryRun? && !CommittedDryRun(d, e.task)
  {
    errors := [];
    for i := 0 to 4
      invariant forall e :: e in errors <==> e.NotDryRun? && e.task in TASK_NAMES[..i] && !CommittedDryRun(d, e.task)
    {
      var task := TASK_NAMES[i];
      assert TASK_NAMES[..i + 1] == TASK_NAMES[..i] + [task];
      if !(task in d.adapters && d.adapters[task].kind == DryRun) {
        errors := errors + [NotDryRun(task)];
      }
    }
    AllNames();
    assert TASK_NAMES[..4] == TASK_NAMES;
  }

  method CollectErrors(d: Documents)
    returns (errors: seq<StatusError>, readyTasks: seq<TaskName>)
    ensures forall e :: e in errors <==> Fault(d, e)
    ensures |readyTasks| == 1 <==> OneReady(d.graph.tasks)
    ensures |readyTasks| == 1 ==> OnlyReady(d.graph.tasks, readyTasks[0])
  {
    var roleErrors := RoleErrors(d);
    var roleActors, otherActors := ActorErrors(d);
    var statusErrors, ready := StatusErrors(d);
    var evidenceErrors := EvidenceErrors(d);
    var featureErrors := FeatureErrors(d);
    var runtimeErrors := RuntimeErrors(d);
    errors := featureErrors + runtimeErrors + roleErrors + roleActors + otherActors + statusErrors + evidenceErrors;
    readyTasks := ready;
    forall e ensures e in errors <==> Fault(d, e) {
      assert Part(e) <= 6;
    }
  }

  method GetWorkOrchestrationStatus(d: Documents) returns (r: Report)
    ensures r.Inconsistent? ==> r.errors != [] && forall e :: e in r.errors <==> Fault(d, e)
    ensures r.Progress? ==> forall e :: !Fault(d, e)
    ensures r.Progress? ==> r.status == d.graph.status
    ensures r.Progress? && d.graph.status == Active ==>
      && r.readyTask.Some? && OnlyReady(d.graph.tasks, r.readyTask.value)
      && (match r.readyTask.value
          case Builder => r.phase == BuildPhase
          case Reviewer => r.phase == ReviewPhase
          case SecurityReviewer => r.phase == SecurityPhase
          case Verification => r.phase == VerificationPhase)
      && (r.recordVerdict <==> r.readyTask.value == Verification && d.evidence == MatchingPass)
    ensures r.Progress? && d.graph.status != Active ==>
      r == Progress(d.graph.status, if d.graph.status == Complete then HumanDecision else HumanIntervention, None, false)
  {
    var g, evidence := d.graph, d.evidence;
    var errors, readyTasks := CollectErrors(d);
    if |errors| > 0 {
      assert errors[0] in errors;
      return Inconsistent(errors);
    }
    if g.status == Complete {
      return Progress(Complete, HumanDecision, None, false);
    }
    if g.status == Failed {
      return Progress(Failed, HumanIntervention, None, false);
    }
    assert !Fault(d, NotOneReady);
    assert |readyTasks| == 1;
    var readyTask := readyTasks[0];
    return Progress(Active, PhaseOf(readyTask), Some(readyTask), readyTask == Verification && evidence == MatchingPass);
  }

  /* ---------- The report is right ---------- */

  /** The two READY-task checks find nothing that the list of states does not: they are redundant. */
  lemma ReadyChecksAreImplied(d: Documents)
    requires !Fault(d, UnreachableStatuses)
    ensures !Fault(d, NotOneReady) && !Fault(d, ReadyInTerminal)
  {
    var g := d.graph;
    ListedStatesAreStages(g.status, Delegated(g.roles), VectorOf(g.tasks));
    if g.status == Active {
      assert OnlyReady(g.tasks, CurrentTask(g));
    }
  }

  predicate EvidenceInOrder(g: Graph, evidence: EvidenceFile) {
    evidence == MatchingPass || (evidence == Absent && g.status != Complete)
  }

  /** The documents belong together, the runtime is in its committed state, and its files can be read. */
  ghost predicate InOrder(d: Documents) {
    && d.delegationFeature == d.graph.feature == d.runtimeFeature == d.feature
    && (forall x :: !RoleFault(d.roles, x))
    && SameRoles(d.roles, d.graph) && SameRoles(d.runtimeRoles, d.graph)
    && (forall task :: CommittedDryRun(d, task)) && d.runtimeConfigReadable && d.runtimeEvidence.Ok?
    && EvidenceInOrder(d.graph, d.evidence)
  }

  lemma ActorsHaveNoFault(d: Documents, e: StatusError)
    requires Consistent(d.graph) && SameRoles(d.roles, d.graph)
    requires !RoleFault(d.roles, NoBuilder) && !RoleFault(d.roles, NoReviewer)
    requires Part(e) == 1 || Part(e) == 2
    ensures !Fault(d, e)
  {
    SameRolesExactly(d.roles, d.graph);
    var g := d.graph;
    NamedRoles(d.roles, g);
    ListedStatesAreStages(g.status, Delegated(g.roles), VectorOf(g.tasks));
  }

  lemma StateHasNoFault(d: Documents, e: StatusError)
    requires Consistent(d.graph) && Part(e) == 3
    ensures !Fault(d, e)
  {
    ListedStatesAreStages(d.graph.status, Delegated(d.graph.roles), VectorOf(d.graph.tasks));
    ReadyChecksAreImplied(d);
  }

  lemma RestHasNoFault(d: Documents, e: StatusError)
    requires InOrder(d) && Part(e) !in {1, 2, 3}
    ensures !Fault(d, e)
  {
    SameRolesExactly(d.roles, d.graph);
    SameRolesExactly(d.runtimeRoles, d.graph);
  }

  lemma InOrderHasNoFault(d: Documents)
    requires Consistent(d.graph) && InOrder(d)
    ensures forall e :: !Fault(d, e)
  {
    assert !RoleFault(d.roles, NoBuilder) && !RoleFault(d.roles, NoReviewer);
    SameRolesExactly(d.roles, d.graph);
    forall e ensures !Fault(d, e) {
      if Part(e) == 1 || Part(e) == 2 {
        ActorsHaveNoFault(d, e);
      } else if Part(e) == 3 {
        StateHasNoFault(d, e);
      } else {
        RestHasNoFault(d, e);
      }
    }
  }

  lemma NoRuntimeFault(d: Documents)
    requires forall e :: !Fault(d, e)
    ensures SameRoles(d.runtimeRoles, d.graph) && d.runtimeConfigReadable && d.runtimeEvidence.Ok?
    ensures forall task :: CommittedDryRun(d, task)
  {
    assert !Fault(d, RuntimeRolesDiffer) && !Fault(d, RuntimeConfigInvalid);
    SameRolesExactly(d.runtimeRoles, d.graph);
    assert d.runtimeEvidence.Err? ==> Fault(d, RuntimeEvidenceInvalid(d.runtimeEvidence.error));
    forall task ensures CommittedDryRun(d, task) {
      assert !Fault(d, NotDryRun(task));
    }
  }

  lemma NoRoleFault(d: Documents)
    requires forall e :: !Fault(d, e)
    ensures SameRoles(d.roles, d.graph) && forall x :: !RoleFault(d.roles, x)
  {
    assert !Fault(d, RolesDiffer);
    SameRolesExactly(d.roles, d.graph);
    forall x ensures !RoleFault(d.roles, x) {
      assert !Fault(d, InvalidRoles(x));
    }
  }

  lemma NoFaultIsInOrder(d: Documents)
    requires forall e :: !Fault(d, e)
    ensures InOrder(d)
  {
    assert d.delegationFeature == d.graph.feature == d.runtimeFeature == d.feature by {
      assert !Fault(d, OtherDelegation) && !Fault(d, OtherGraph) && !Fault(d, OtherRuntime);
    }
    assert EvidenceInOrder(d.graph, d.evidence) by {
      assert !Fault(d, EvidenceDigest) && !Fault(d, EvidenceNotPass) && !Fault(d, EvidenceMissing);
    }
    NoRoleFault(d);
    NoRuntimeFault(d);
  }

  /**
   A reachable graph is never the reason for calling the state inconsistent: with one there is no fault
   exactly when the documents around it are in order, whatever stage it has reached.
   */
  lemma ReachableIsNeverInconsistent(d: Documents)
    requires Consistent(d.graph)
    ensures (forall e :: !Fault(d, e)) <==> InOrder(d)
  {
    if forall e :: !Fault(d, e) {
      NoFaultIsInOrder(d);
    }
    if InOrder(d) {
      InOrderHasNoFault(d);
    }
  }

  lemma NamedRoles(roles: RoleFields, g: Graph)
    requires SameRoles(roles, g) && Identity(roles.builder) != "" && Identity(roles.reviewer) != ""
    ensures g.roles.builder != "" && g.roles.reviewer != ""
  {
  }

  /**
   Any graph that is not called inconsistent, reachable or not, can go on from where the report says: the
   task it names is the only one whose verdict the graph accepts, and a terminal graph accepts none.
   */
  lemma ReportedTaskIsNext(d: Documents, r: Report, event: Event, now: Time)
    requires forall e :: !Fault(d, e)
    requires r.Progress? && r.status == d.graph.status
    requires d.graph.status == Active ==> r.readyTask.Some? && OnlyReady(d.graph.tasks, r.readyTask.value)
    requires d.graph.status != Active ==> r.readyTask.None?
    ensures Apply(d.graph, event, now).Ok? <==>
      r.readyTask.Some? && (event == PassEvent(r.readyTask.value) || event == FailEvent(r.readyTask.value))
  {
    var g := d.graph;
    assert !Fault(d, UnreachableStatuses);
    AcceptedExactly(g, event, now);
    ListedStatesAreStages(g.status, Delegated(g.roles), VectorOf(g.tasks));
    if g.status == Active {
      assert StatusOf(g.tasks, CurrentTask(g)) == Ready;
    }
  }

  /**
   For a reachable graph the named task is read off the history: as many tasks as have passed since the last
   failure come before it, and those passes are in the order of the tasks.
   */
  lemma ReportedTaskFollowsHistory(g: Graph, task: TaskName)
    requires Consistent(g) && g.status == Active && OnlyReady(g.tasks, task)
    ensures var passed := EventsOf(Tail(g.history));
      && |passed| < |Order(Delegated(g.roles))|
      && passed == PassesUpTo(Delegated(g.roles), |passed|)
      && task == Order(Delegated(g.roles))[|passed|]
  {
    ListedStatesAreStages(g.status, Delegated(g.roles), VectorOf(g.tasks));
    PassesLength(Delegated(g.roles), Stage(g));
    assert StatusOf(g.tasks, CurrentTask(g)) == Ready;
  }
}
