/** The agent task graph of scripts/agent-task-graph.js: a retrying state machine with a history. */
module TaskGraph {
  import opened Prelude

  type Time = string

  datatype TaskName = Builder | Reviewer | SecurityReviewer | Verification
  datatype TaskStatus = Ready | Blocked | Pass | Fail | Skipped
  datatype GraphStatus = Active | Complete | Failed

  datatype Event =
    | BuilderPass | BuilderFail
    | ReviewerPass | ReviewerFail
    | SecurityPass | SecurityFail
    | VerifyPass | VerifyFail

  datatype Outcome = StillActive | Completed | Retry | FailedMaxRetries

  datatype Task = Task(status: TaskStatus, actor: Option<string>)
  datatype Roles = Roles(builder: string, reviewer: string, securityReviewer: Option<string>)
  datatype Tasks = Tasks(builder: Task, reviewer: Task, securityReviewer: Task, verification: Task)

  /** Failing entries name the failing task in `source`; the others have no such field. */
  datatype Entry = Entry(event: Event, source: Option<TaskName>, outcome: Outcome, retryCount: nat, at: Time)

  datatype Graph = Graph(
    feature: string, generatedAt: Time, updatedAt: Time, status: GraphStatus,
    maxRetries: nat, retryCount: nat, roles: Roles, tasks: Tasks, history: seq<Entry>)

  datatype GraphError =
    | InvalidSlug
    | InvalidMaxRetries
    | UnsupportedEvent(name: string)
    | TerminalGraph(status: GraphStatus)
    | NotDelegated(event: Event)
    | NotReady(event: Event, task: TaskName, found: TaskStatus)

  /* ---------- Names ---------- */

  function EventOf(name: string): Option<Event> {
    match name
    case "builder-pass" => Some(BuilderPass)
    case "builder-fail" => Some(BuilderFail)
    case "reviewer-pass" => Some(ReviewerPass)
    case "reviewer-fail" => Some(ReviewerFail)
    case "security-pass" => Some(SecurityPass)
    case "security-fail" => Some(SecurityFail)
    case "verify-pass" => Some(VerifyPass)
    case "verify-fail" => Some(VerifyFail)
    case _ => None
  }

  function TaskOf(event: Event): TaskName {
    match event
    case BuilderPass | BuilderFail => Builder
    case ReviewerPass | ReviewerFail => Reviewer
    case SecurityPass | SecurityFail => SecurityReviewer
    case VerifyPass | VerifyFail => Verification
  }

  predicate IsFail(event: Event) {
    event.BuilderFail? || event.ReviewerFail? || event.SecurityFail? || event.VerifyFail?
  }

  function PassEvent(task: TaskName): Event {
    match task
    case Builder => BuilderPass
    case Reviewer => ReviewerPass
    case SecurityReviewer => SecurityPass
    case Verification => VerifyPass
  }

  function FailEvent(task: TaskName): Event {
    match task
    case Builder => BuilderFail
    case Reviewer => ReviewerFail
    case SecurityReviewer => SecurityFail
    case Verification => VerifyFail
  }

  /* ---------- Construction ---------- */

  /** JavaScript truthiness of the optional role. */
  predicate Delegated(roles: Roles) {
    roles.securityReviewer.Some? && roles.securityReviewer.value != ""
  }

  /** `actor || null`. */
  function ActorFor(role: string): Option<string> {
    if role == "" then None else Some(role)
  }

  predicate SlugChar(c: char) {
    'a' <= c <= 'z' || '0' <= c <= '9'
  }

  predicate ValidSlug(slug: string) {
    && slug != "" && SlugChar(slug[0])
    && forall i | 0 <= i < |slug| :: SlugChar(slug[i]) || slug[i] == '-'
  }

  /** A slug: letters in lower case, digits and hyphens, of which none comes first. */
  lemma SlugExactly(slug: string)
    ensures ValidSlug(slug) <==>
      && |slug| > 0 && slug[0] as int != 0x2D
      && forall i | 0 <= i < |slug| ::
           0x61 <= slug[i] as int <= 0x7A || 0x30 <= slug[i] as int <= 0x39 || slug[i] as int == 0x2D
  {
  }

  function Initial(feature: string, roles: Roles, maxRetries: nat, now: Time): Graph {
    var security := if Delegated(roles) then roles.securityReviewer else None;
    Graph(
      feature, now, now, Active, maxRetries, 0,
      Roles(roles.builder, roles.reviewer, security),
      Tasks(
        Task(Ready, ActorFor(roles.builder)),
        Task(Blocked, ActorFor(roles.reviewer)),
        if security.Some? then Task(Blocked, security) else Task(Skipped, None),
        Task(Blocked, Some("verification-gate"))),
      [])
  }

  /* ---------- Transitions ---------- */

  function StatusOf(tasks: Tasks, name: TaskName): TaskStatus {
    match name
    case Builder => tasks.builder.status
    case Reviewer => tasks.reviewer.status
    case SecurityReviewer => tasks.securityReviewer.status
    case Verification => tasks.verification.status
  }

  function SetStatus(tasks: Tasks, name: TaskName, status: TaskStatus): Tasks {
    match name
    case Builder => tasks.(builder := tasks.builder.(status := status))
    case Reviewer => tasks.(reviewer := tasks.reviewer.(status := status))
    case SecurityReviewer => tasks.(securityReviewer := tasks.securityReviewer.(status := status))
    case Verification => tasks.(verification := tasks.verification.(status := status))
  }

  /** The task that a pass makes READY, if any. */
  function Successor(roles: Roles, task: TaskName): Option<TaskName> {
    match task
    case Builder => Some(Reviewer)
    case Reviewer => Some(if Delegated(roles) then SecurityReviewer else Verification)
    case SecurityReviewer => Some(Verification)
    case Verification => None
  }

  function AfterPass(g: Graph, event: Event, now: Time): Graph {
    var task := TaskOf(event);
    var next := Successor(g.roles, task);
    var passed := SetStatus(g.tasks, task, Pass);
    var tasks := if next.Some? then SetStatus(passed, next.value, Ready) else passed;
    var status := if next.Some? then Active else Complete;
    var outcome := if next.Some? then StillActive else Completed;
    g.(tasks := tasks, status := status, updatedAt := now,
       history := g.history + [Entry(event, None, outcome, g.retryCount, now)])
  }

  function AfterFail(g: Graph, event: Event, now: Time): Graph {
    var task := TaskOf(event);
    var entry := Entry(event, Some(task), Retry, g.retryCount + 1, now);
    if g.retryCount >= g.maxRetries then
      g.(tasks := SetStatus(g.tasks, task, Fail), status := Failed, updatedAt := now,
         history := g.history + [entry.(outcome := FailedMaxRetries)])
    else
      var security := if Delegated(g.roles) then Blocked else Skipped;
      g.(tasks := Tasks(
           g.tasks.builder.(status := Ready), g.tasks.reviewer.(status := Blocked),
           g.tasks.securityReviewer.(status := security), g.tasks.verification.(status := Blocked)),
         retryCount := g.retryCount + 1, updatedAt := now, history := g.history + [entry])
  }

  function Apply(g: Graph, event: Event, now: Time): Result<Graph, GraphError> {
    if g.status != Active then Err(TerminalGraph(g.status))
    else if TaskOf(event) == SecurityReviewer && !Delegated(g.roles) then Err(NotDelegated(event))
    else if StatusOf(g.tasks, TaskOf(event)) != Ready then
      Err(NotReady(event, TaskOf(event), StatusOf(g.tasks, TaskOf(event))))
    else Ok(if IsFail(event) then AfterFail(g, event, now) else AfterPass(g, event, now))
  }

  /** `applyEvent`, on the name of an event. */
  function ApplyNamed(g: Graph, name: string, now: Time): Result<Graph, GraphError> {
    match EventOf(name)
    case None => Err(UnsupportedEvent(name))
    case Some(event) => Apply(g, event, now)
  }

  /* ---------- What each name does ---------- */

  /** What an event may change; it adds one entry to the history. */
  function Moved(g: Graph, tasks: Tasks, status: GraphStatus, retryCount: nat, entry: Entry): Graph {
    g.(tasks := tasks, status := status, retryCount := retryCount, updatedAt := entry.at, history := g.history + [entry])
  }

  predicate NobodyNamed(reviewer: Option<string>) {
    reviewer.None? || reviewer.value == ""
  }

  /** The tasks of a new attempt, with their actors. */
  function Restarted(g: Graph): Tasks {
    Tasks(
      g.tasks.builder.(status := Ready), g.tasks.reviewer.(status := Blocked),
      g.tasks.securityReviewer.(status := if NobodyNamed(g.roles.securityReviewer) then Skipped else Blocked),
      g.tasks.verification.(status := Blocked))
  }

  lemma BuilderByName(g: Graph, now: Time)
    requires g.status == Active && g.tasks.builder.status == Ready
    ensures ApplyNamed(g, "builder-pass", now) == Ok(Moved(
      g, g.tasks.(builder := g.tasks.builder.(status := Pass), reviewer := g.tasks.reviewer.(status := Ready)),
      Active, g.retryCount, Entry(BuilderPass, None, StillActive, g.retryCount, now)))
    ensures ApplyNamed(g, "builder-fail", now) == Ok(
      if g.retryCount < g.maxRetries then
        Moved(g, Restarted(g), Active, g.retryCount + 1,
              Entry(BuilderFail, Some(Builder), Retry, g.retryCount + 1, now))
      else
        Moved(g, g.tasks.(builder := g.tasks.builder.(status := Fail)), Failed, g.retryCount,
              Entry(BuilderFail, Some(Builder), FailedMaxRetries, g.retryCount + 1, now)))
  {
  }

  lemma ReviewerByName(g: Graph, now: Time)
    requires g.status == Active && g.tasks.reviewer.status == Ready
    ensures ApplyNamed(g, "reviewer-pass", now) == Ok(Moved(
      g, if NobodyNamed(g.roles.securityReviewer)
         then g.tasks.(reviewer := g.tasks.reviewer.(status := Pass), verification := g.tasks.verification.(status := Ready))
         else g.tasks.(reviewer := g.tasks.reviewer.(status := Pass), securityReviewer := g.tasks.securityReviewer.(status := Ready)),
      Active, g.retryCount, Entry(ReviewerPass, None, StillActive, g.retryCount, now)))
    ensures ApplyNamed(g, "reviewer-fail", now) == Ok(
      if g.retryCount < g.maxRetries then
        Moved(g, Restarted(g), Active, g.retryCount + 1,
              Entry(ReviewerFail, Some(Reviewer), Retry, g.retryCount + 1, now))
      else
        Moved(g, g.tasks.(reviewer := g.tasks.reviewer.(status := Fail)), Failed, g.retryCount,
              Entry(ReviewerFail, Some(Reviewer), FailedMaxRetries, g.retryCount + 1, now)))
  {
  }

  lemma SecurityReviewerByName(g: Graph, now: Time)
    requires g.status == Active && g.tasks.securityReviewer.status == Ready && !NobodyNamed(g.roles.securityReviewer)
    ensures ApplyNamed(g, "security-pass", now) == Ok(Moved(
      g, g.tasks.(securityReviewer := g.tasks.securityReviewer.(status := Pass),
                  verification := g.tasks.verification.(status := Ready)),
      Active, g.retryCount, Entry(SecurityPass, None, StillActive, g.retryCount, now)))
    ensures ApplyNamed(g, "security-fail", now) == Ok(
      if g.retryCount < g.maxRetries then
        Moved(g, Restarted(g), Active, g.retryCount + 1,
              Entry(SecurityFail, Some(SecurityReviewer), Retry, g.retryCount + 1, now))
      else
        Moved(g, g.tasks.(securityReviewer := g.tasks.securityReviewer.(status := Fail)), Failed, g.retryCount,
              Entry(SecurityFail, Some(SecurityReviewer), FailedMaxRetries, g.retryCount + 1, now)))
  {
  }

  lemma VerificationByName(g: Graph, now: Time)
    requires g.status == Active && g.tasks.verification.status == Ready
    ensures ApplyNamed(g, "verify-pass", now) == Ok(Moved(
      g, g.tasks.(verification := g.tasks.verification.(status := Pass)),
      Complete, g.retryCount, Entry(VerifyPass, None, Completed, g.retryCount, now)))
    ensures ApplyNamed(g, "verify-fail", now) == Ok(
      if g.retryCount < g.maxRetries then
        Moved(g, Restarted(g), Active, g.retryCount + 1,
              Entry(VerifyFail, Some(Verification), Retry, g.retryCount + 1, now))
      else
        Moved(g, g.tasks.(verification := g.tasks.verification.(status := Fail)), Failed, g.retryCount,
              Entry(VerifyFail, Some(Verification), FailedMaxRetries, g.retryCount + 1, now)))
  {
  }

  const NAMES: set<string> := {
    "builder-pass", "builder-fail", "reviewer-pass", "reviewer-fail",
    "security-pass", "security-fail", "verify-pass", "verify-fail"}

  /** Any other name is unsupported, and a terminal graph takes none of the eight. */
  lemma NamesExactly(g: Graph, name: string, now: Time)
    ensures ApplyNamed(g, name, now) == Err(UnsupportedEvent(name)) <==> name !in NAMES
    ensures name in NAMES && g.status != Active ==> ApplyNamed(g, name, now) == Err(TerminalGraph(g.status))
  {
  }

  /** An event of a task that is not READY is refused with the task's status. */
  lemma NotReadyIsRefused(g: Graph, now: Time)
    requires g.status == Active
    ensures g.tasks.builder.status != Ready ==>
      && ApplyNamed(g, "builder-pass", now) == Err(NotReady(BuilderPass, Builder, g.tasks.builder.status))
      && ApplyNamed(g, "builder-fail", now) == Err(NotReady(BuilderFail, Builder, g.tasks.builder.status))
    ensures g.tasks.reviewer.status != Ready ==>
      && ApplyNamed(g, "reviewer-pass", now) == Err(NotReady(ReviewerPass, Reviewer, g.tasks.reviewer.status))
      && ApplyNamed(g, "reviewer-fail", now) == Err(NotReady(ReviewerFail, Reviewer, g.tasks.reviewer.status))
    ensures g.tasks.verification.status != Ready ==>
      && ApplyNamed(g, "verify-pass", now) == Err(NotReady(VerifyPass, Verification, g.tasks.verification.status))
      && ApplyNamed(g, "verify-fail", now) == Err(NotReady(VerifyFail, Verification, g.tasks.verification.status))
  {
  }

  /** A security event needs a delegated security reviewer before anything else. */
  lemma SecurityIsRefused(g: Graph, now: Time)
    requires g.status == Active
    ensures NobodyNamed(g.roles.securityReviewer) ==>
      && ApplyNamed(g, "security-pass", now) == Err(NotDelegated(SecurityPass))
      && ApplyNamed(g, "security-fail", now) == Err(NotDelegated(SecurityFail))
    ensures !NobodyNamed(g.roles.securityReviewer) && g.tasks.securityReviewer.status != Ready ==>
      && ApplyNamed(g, "security-pass", now)
           == Err(NotReady(SecurityPass, SecurityReviewer, g.tasks.securityReviewer.status))
      && ApplyNamed(g, "security-fail", now)
           == Err(NotReady(SecurityFail, SecurityReviewer, g.tasks.securityReviewer.status))
  {
  }

  /* ---------- The graph as an object that is cloned and then changed in place ---------- */

  class GraphObject {
    const feature: string
    const generatedAt: Time
    const maxRetries: nat
    const roles: Roles
    var updatedAt: Time
    var status: GraphStatus
    var retryCount: nat
    var tasks: Tasks
    var history: seq<Entry>

    ghost function View(): Graph
      reads this
    {
      Graph(feature, generatedAt, updatedAt, status, maxRetries, retryCount, roles, tasks, history)
    }

    constructor (g: Graph)
      ensures View() == g
    {
      feature, generatedAt, updatedAt, status := g.feature, g.generatedAt, g.updatedAt, g.status;
      maxRetries, retryCount, roles, tasks, history := g.maxRetries, g.retryCount, g.roles, g.tasks, g.history;
    }

    /** `structuredClone`. */
    constructor Clone(g: GraphObject)
      ensures View() == g.View()
    {
      feature, generatedAt, updatedAt, status := g.feature, g.generatedAt, g.updatedAt, g.status;
      maxRetries, retryCount, roles, tasks, history := g.maxRetries, g.retryCount, g.roles, g.tasks, g.history;
    }

    method SetTask(name: TaskName, status: TaskStatus)
      modifies this`tasks
      ensures tasks == SetStatus(old(tasks), name, status)
    {
      tasks := SetStatus(tasks, name, status);
    }

    /** Works on a clone of a clone whose failing task is already marked FAIL. */
    method ResetForRetry(source: TaskName, event: Event, now: Time) returns (next: GraphObject)
      requires source == TaskOf(event)
      requires tasks == SetStatus(tasks, source, Fail)
      ensures fresh(next) && unchanged(this)
      ensures next.View() == AfterFail(View(), event, now)
    {
      next := new GraphObject.Clone(this);
      var entry := Entry(event, Some(source), Retry, next.retryCount + 1, now);
      next.history := next.history + [entry];
      if next.retryCount >= next.maxRetries {
        next.status := Failed;
        next.updatedAt := now;
        next.history := next.history[|next.history| - 1 := entry.(outcome := FailedMaxRetries)];
        assert next.history == history + [entry.(outcome := FailedMaxRetries)];
        return;
      }
      next.retryCount := next.retryCount + 1;
      next.SetTask(Builder, Ready);
      next.SetTask(Reviewer, Blocked);
      next.SetTask(SecurityReviewer, if Delegated(next.roles) then Blocked else Skipped);
      next.SetTask(Verification, Blocked);
      next.updatedAt := now;
    }

    /** The receiver is left as it was: the result is a new graph or an error. */
    method ApplyEvent(name: string, now: Time) returns (result: Result<GraphObject, GraphError>)
      ensures unchanged(this)
      ensures match ApplyNamed(View(), name, now)
        case Ok(g) => result.Ok? && fresh(result.value) && result.value.View() == g
        case Err(e) => result == Err(e)
    {
      var parsed := EventOf(name);
      if parsed.None? {
        return Err(UnsupportedEvent(name));
      }
      var event := parsed.value;
      if status == Complete || status == Failed {
        return Err(TerminalGraph(status));
      }
      var next := new GraphObject.Clone(this);
      var task := TaskOf(event);
      if task == SecurityReviewer && !Delegated(next.roles) {
        return Err(NotDelegated(event));
      }
      if StatusOf(next.tasks, task) != Ready {
        return Err(NotReady(event, task, StatusOf(next.tasks, task)));
      }
      match event {
        case BuilderPass =>
          next.SetTask(Builder, Pass);
          next.SetTask(Reviewer, Ready);
        case ReviewerPass =>
          next.SetTask(Reviewer, Pass);
          if Delegated(next.roles) {
            next.SetTask(SecurityReviewer, Ready);
          } else {
            next.SetTask(Verification, Ready);
          }
        case SecurityPass =>
          next.SetTask(SecurityReviewer, Pass);
          next.SetTask(Verification, Ready);
        case VerifyPass =>
          next.SetTask(Verification, Pass);
          next.status := Complete;
        case _ =>
          assert IsFail(event);
          next.SetTask(task, Fail);
          next := next.ResetForRetry(task, event, now);
          return Ok(next);
      }
      assert next.tasks == AfterPass(View(), event, now).tasks && !IsFail(event);
      assert next.status == AfterPass(View(), event, now).status;
      next.updatedAt := now;
      var outcome := if next.status == Complete then Completed else StillActive;
      next.history := next.history + [Entry(event, None, outcome, next.retryCount, now)];
      return Ok(next);
    }
  }

  method CreateInitialGraph(feature: string, roles: Roles, maxRetries: int, now: Time)
    returns (result: Result<GraphObject, GraphError>)
    ensures !ValidSlug(feature) ==> result == Err(InvalidSlug)
    ensures ValidSlug(feature) && maxRetries < 0 ==> result == Err(InvalidMaxRetries)
    ensures ValidSlug(feature) && maxRetries >= 0 ==>
      result.Ok? && fresh(result.value) && result.value.View() == Initial(feature, roles, maxRetries, now)
    ensures result.Ok? ==>
      var g := result.value.View();
      && g.feature == feature && g.maxRetries == maxRetries && g.generatedAt == g.updatedAt == now
      && g.roles.builder == roles.builder && g.roles.reviewer == roles.reviewer
      && g.roles.securityReviewer == (if roles.securityReviewer == Some("") then None else roles.securityReviewer)
      && g.tasks.builder.actor == (if roles.builder == "" then None else Some(roles.builder))
      && g.tasks.reviewer.actor == (if roles.reviewer == "" then None else Some(roles.reviewer))
  {
    if !ValidSlug(feature) {
      return Err(InvalidSlug);
    }
    if maxRetries < 0 {
      return Err(InvalidMaxRetries);
    }
    var graph := new GraphObject(Initial(feature, roles, maxRetries, now));
    return Ok(graph);
  }
}
