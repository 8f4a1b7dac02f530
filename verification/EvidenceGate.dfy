/**
 The verification evidence gate of scripts/run-verification-evidence-gate.js: which inputs it passes,
 what a PASS says about the task graph it read, and about the runs that led to that graph.
 */
module EvidenceGate {
  import opened Prelude
  import opened TaskGraph
  import opened TaskGraphRuns
  import opened RuntimeAdapter
  import opened RuntimeSummary

  /* ---------- What the gate reads ---------- */

  datatype RoleName = BuilderRole | ReviewerRole | SecurityReviewerRole

  const ROLE_NAMES: seq<RoleName> := [BuilderRole, ReviewerRole, SecurityReviewerRole]

  /** Role fields as they stand in the delegation file, where each may be absent. */
  datatype RoleFields = RoleFields(builder: Option<string>, reviewer: Option<string>, securityReviewer: Option<string>)

  datatype Delegation = Delegation(feature: string, roles: RoleFields)

  datatype Conformance = Conformance(
    conformant: bool, errors: seq<string>, changedFiles: seq<string>, sensitiveFiles: seq<string>,
    sourceContext: string, contextId: string, specDir: string)

  /** The two lines a review file declares, each of which may be absent. */
  datatype Review = Review(status: Option<string>, reviewedBy: Option<string>)

  datatype Inputs = Inputs(
    feature: string, baseRef: string, now: Time, conformance: Conformance, structurePassed: bool,
    delegation: Document<Delegation>, graph: Document<Graph>,
    runtime: Document<CommittedRuntime>, runFiles: seq<RunFile>,
    reviewerReview: Option<Review>, securityReview: Option<Review>)

  datatype DelegationError =
    | DelegationMissing | DelegationFeature | IdentitiesRequired | ReviewerIsBuilder | SecurityReviewerIsBuilder
    | DelegationInvalidJson

  datatype GraphStateError = GraphMissing | GraphFeature | NotActive | VerificationNotReady | GraphInvalidJson

  datatype GateError =
    | StructureFailed
    | BadDelegation(delegation: DelegationError)
    | BadTaskGraph(graph: GraphStateError)
    | RoleDiffers(role: RoleName)
    | BadRuntime(runtime: RuntimeError)
    | ReviewMissing | ReviewNotPass | ReviewerUnnamed | ReviewerDiffers
    | SecurityNotDelegated | SecurityReviewMissing(sensitive: bool)
    | SecurityNotPass | SecurityReviewerUnnamed | SecurityReviewerDiffers

  datatype Payload = Payload(
    feature: string, generatedAt: Time, baseRef: string,
    sourceContext: string, contextId: string, specDir: string, roles: RoleFields,
    graphStatus: GraphStatus, retryCount: nat, maxRetries: nat, tasks: Tasks,
    adapters: map<TaskName, Adapter>, runs: map<TaskName, TaskSummary>,
    changedFiles: seq<string>, sensitiveFiles: seq<string>, reviewerReview: Review, securityReview: Review)

  datatype GateResult =
    | BadSlug
    | NotConformant(conformanceErrors: seq<string>)
    | NotVerified(errors: seq<GateError>)
    | Verified(payload: Payload)

  function ReadDelegation(file: Document<Delegation>, feature: string): Result<RoleFields, DelegationError> {
    match file
    case Missing => Err(DelegationMissing)
    case Malformed => Err(DelegationInvalidJson)
    case Parsed(document) =>
      var roles := document.roles;
      if document.feature != feature then Err(DelegationFeature)
      else if NonEmpty(roles.builder).None? || NonEmpty(roles.reviewer).None? then Err(IdentitiesRequired)
      else if roles.builder == roles.reviewer then Err(ReviewerIsBuilder)
      else if NonEmpty(roles.securityReviewer).Some? && roles.securityReviewer == roles.builder then
        Err(SecurityReviewerIsBuilder)
      else Ok(roles)
  }

  function ReadTaskGraphState(file: Document<Graph>, feature: string): Result<Graph, GraphStateError> {
    match file
    case Missing => Err(GraphMissing)
    case Malformed => Err(GraphInvalidJson)
    case Parsed(graph) =>
      if graph.feature != feature then Err(GraphFeature)
      else if graph.status != Active then Err(NotActive)
      else if graph.tasks.verification.status != Ready then Err(VerificationNotReady)
      else Ok(graph)
  }

  function GraphRole(roles: Roles, role: RoleName): Option<string> {
    match role
    case BuilderRole => NonEmpty(Some(roles.builder))
    case ReviewerRole => NonEmpty(Some(roles.reviewer))
    case SecurityReviewerRole => NonEmpty(roles.securityReviewer)
  }

  function DelegatedRole(roles: RoleFields, role: RoleName): Option<string> {
    match role
    case BuilderRole => NonEmpty(roles.builder)
    case ReviewerRole => NonEmpty(roles.reviewer)
    case SecurityReviewerRole => NonEmpty(roles.securityReviewer)
  }

  /** The two files disagree on a role, where an empty name is no name. */
  predicate RoleDisagrees(roles: Roles, fields: RoleFields, role: RoleName) {
    match role
    case BuilderRole => NonEmpty(Some(roles.builder)) != NonEmpty(fields.builder)
    case ReviewerRole => NonEmpty(Some(roles.reviewer)) != NonEmpty(fields.reviewer)
    case SecurityReviewerRole => NonEmpty(roles.securityReviewer) != NonEmpty(fields.securityReviewer)
  }

  /* ---------- When each error is reported ---------- */

  function DelegationOf(i: Inputs): Result<RoleFields, DelegationError> {
    ReadDelegation(i.delegation, i.feature)
  }

  predicate SecurityDelegated(i: Inputs) {
    DelegationOf(i).Ok? && NonEmpty(DelegationOf(i).value.securityReviewer).Some?
  }

  predicate SecurityRequired(i: Inputs) {
    i.conformance.sensitiveFiles != [] || SecurityDelegated(i)
  }

  ghost predicate Reported(le: Collation, i: Inputs, e: GateError) {
    var delegation, graph := DelegationOf(i), ReadTaskGraphState(i.graph, i.feature);
    match e
    case StructureFailed => !i.structurePassed
    case BadDelegation(x) => delegation == Err(x)
    case BadTaskGraph(x) => graph == Err(x)
    case RoleDiffers(role) =>
      delegation.Ok? && graph.Ok? && RoleDisagrees(graph.value.roles, delegation.value, role)
    case BadRuntime(x) => Reads(le, i.feature, i.runtime, i.runFiles, Err(x))
    case ReviewMissing => delegation.Ok? && i.reviewerReview.None?
    case ReviewNotPass => delegation.Ok? && i.reviewerReview.Some? && i.reviewerReview.value.status != Some("PASS")
    case ReviewerUnnamed =>
      delegation.Ok? && i.reviewerReview.Some? && NonEmpty(i.reviewerReview.value.reviewedBy).None?
    case ReviewerDiffers =>
      && delegation.Ok? && i.reviewerReview.Some? && NonEmpty(i.reviewerReview.value.reviewedBy).Some?
      && i.reviewerReview.value.reviewedBy != delegation.value.reviewer
    case SecurityNotDelegated => SecurityRequired(i) && !SecurityDelegated(i)
    case SecurityReviewMissing(sensitive) =>
      SecurityRequired(i) && i.securityReview.None? && (sensitive <==> i.conformance.sensitiveFiles != [])
    case SecurityNotPass =>
      SecurityRequired(i) && i.securityReview.Some? && i.securityReview.value.status != Some("PASS")
    case SecurityReviewerUnnamed =>
      SecurityRequired(i) && i.securityReview.Some? && NonEmpty(i.securityReview.value.reviewedBy).None?
    case SecurityReviewerDiffers =>
      && SecurityDelegated(i) && i.securityReview.Some? && NonEmpty(i.securityReview.value.reviewedBy).Some?
      && i.securityReview.value.reviewedBy != delegation.value.securityReviewer
  }

  /** The part of the gate that reports an error. */
  function Part(e: GateError): nat {
    match e
    case StructureFailed => 0
    case BadDelegation(_) => 1
    case BadTaskGraph(_) => 2
    case RoleDiffers(_) => 3
    case BadRuntime(_) => 4
    case ReviewMissing | ReviewNotPass | ReviewerUnnamed | ReviewerDiffers => 5
    case _ => 6
  }

  /** `errors` are exactly the errors to report of the parts before `part`. */
  ghost predicate ReportedBefore(le: Collation, i: Inputs, errors: seq<GateError>, part: nat) {
    forall e :: e in errors <==> Part(e) < part && Reported(le, i, e)
  }

  function PayloadOf(i: Inputs, roles: RoleFields, g: Graph, runtime: RuntimeInfo, reviewer: Review, security: Review): Payload {
    Payload(
      i.feature, i.now, i.baseRef,
      i.conformance.sourceContext, i.conformance.contextId, i.conformance.specDir, roles,
      g.status, g.retryCount, g.maxRetries, g.tasks, runtime.adapters, runtime.summary,
      i.conformance.changedFiles, i.conformance.sensitiveFiles, reviewer, security)
  }

  /** What a PASS payload says: the call's own arguments, the files as they were read, and the runs' summary. */
  ghost predicate IsPayload(le: Collation, i: Inputs, p: Payload) {
    && i.graph.Parsed? && i.delegation.Parsed? && i.reviewerReview.Some?
    && p.feature == i.feature && p.generatedAt == i.now && p.baseRef == i.baseRef
    && p.sourceContext == i.conformance.sourceContext && p.contextId == i.conformance.contextId
    && p.specDir == i.conformance.specDir
    && p.changedFiles == i.conformance.changedFiles && p.sensitiveFiles == i.conformance.sensitiveFiles
    && p.roles == i.delegation.value.roles
    && p.graphStatus == i.graph.value.status && p.tasks == i.graph.value.tasks
    && p.retryCount == i.graph.value.retryCount && p.maxRetries == i.graph.value.maxRetries
    && Reads(le, i.feature, i.runtime, i.runFiles, Ok(RuntimeInfo(p.adapters, p.runs)))
    && p.reviewerReview == i.reviewerReview.value
    && p.securityReview == if SecurityRequired(i) && i.securityReview.Some? then i.securityReview.value
                           else Review(Some("N/A"), None)
  }

  /** The role-provenance loop. */
  method CompareRoles(le: Collation, i: Inputs, graphRoles: Roles, roles: RoleFields, before: seq<GateError>)
    returns (errors: seq<GateError>)
    requires DelegationOf(i) == Ok(roles)
    requires ReadTaskGraphState(i.graph, i.feature).Ok? && ReadTaskGraphState(i.graph, i.feature).value.roles == graphRoles
    requires ReportedBefore(le, i, before, 3)
    ensures ReportedBefore(le, i, errors, 4)
  {
    errors := before;
    for k := 0 to 3
      invariant forall e :: e in errors <==>
        e in before || (Reported(le, i, e) && e.RoleDiffers? && e.role in ROLE_NAMES[..k])
    {
      var role := ROLE_NAMES[k];
      if GraphRole(graphRoles, role) != DelegatedRole(roles, role) {
        errors := errors + [RoleDiffers(role)];
      }
      assert ROLE_NAMES[..k + 1] == ROLE_NAMES[..k] + [role];
    }
    forall role: RoleName ensures role in ROLE_NAMES[..3] {
      assert ROLE_NAMES[..3] == ROLE_NAMES;
      assert role == ROLE_NAMES[0] || role == ROLE_NAMES[1] || role == ROLE_NAMES[2];
    }
  }

  method CheckReview(le: Collation, i: Inputs, roles: RoleFields, before: seq<GateError>)
    returns (review: Review, errors: seq<GateError>)
    requires DelegationOf(i) == Ok(roles) && ReportedBefore(le, i, before, 5)
    ensures ReportedBefore(le, i, errors, 6)
    ensures review == if i.reviewerReview.Some? then i.reviewerReview.value else Review(None, None)
  {
    errors := before;
    if i.reviewerReview.None? {
      return Review(None, None), errors + [ReviewMissing];
    }
    review := i.reviewerReview.value;
    if review.status != Some("PASS") {
      errors := errors + [ReviewNotPass];
    }
    if NonEmpty(review.reviewedBy).None? {
      errors := errors + [ReviewerUnnamed];
    } else if review.reviewedBy != roles.reviewer {
      errors := errors + [ReviewerDiffers];
    }
  }

  method CheckSecurityReview(le: Collation, i: Inputs, before: seq<GateError>)
    returns (review: Review, errors: seq<GateError>)
    requires SecurityRequired(i) && ReportedBefore(le, i, before, 6)
    ensures ReportedBefore(le, i, errors, 7)
    ensures review == if i.securityReview.Some? then i.securityReview.value else Review(Some("N/A"), None)
  {
    var found;
    review, found := ReadSecurityReview(le, i);
    errors := before + found;
  }

  /** The errors of the security review alone. */
  method ReadSecurityReview(le: Collation, i: Inputs) returns (review: Review, errors: seq<GateError>)
    requires SecurityRequired(i)
    ensures forall e :: e in errors <==> Part(e) == 6 && Reported(le, i, e)
    ensures review == if i.securityReview.Some? then i.securityReview.value else Review(Some("N/A"), None)
  {
    errors := [];
    var delegation := ReadDelegation(i.delegation, i.feature);
    if delegation.Err? || NonEmpty(delegation.value.securityReviewer).None? {
      errors := errors + [SecurityNotDelegated];
    }
    if i.securityReview.None? {
      return Review(Some("N/A"), None), errors + [SecurityReviewMissing(i.conformance.sensitiveFiles != [])];
    }
    review := i.securityReview.value;
    if review.status != Some("PASS") {
      errors := errors + [SecurityNotPass];
    }
    if NonEmpty(review.reviewedBy).None? {
      errors := errors + [SecurityReviewerUnnamed];
    } else if delegation.Ok? && NonEmpty(delegation.value.securityReviewer).Some?
              && review.reviewedBy != delegation.value.securityReviewer {
      errors := errors + [SecurityReviewerDiffers];
    }
  }

  /** A failing read has one error only. */
  lemma RuntimeErrorIsUnique(le: Collation, i: Inputs, r: Result<RuntimeInfo, RuntimeError>)
    requires Reads(le, i.feature, i.runtime, i.runFiles, r)
    ensures forall x :: Reads(le, i.feature, i.runtime, i.runFiles, Err(x)) <==> r == Err(x)
  {
  }

  /** Structure, delegation, task graph, roles and runtime evidence. */
  method CheckSources(le: Collation, i: Inputs)
    returns (delegation: Result<RoleFields, DelegationError>, graph: Result<Graph, GraphStateError>,
             runtime: Result<RuntimeInfo, RuntimeError>, errors: seq<GateError>)
    requires IsCollation(le)
    ensures delegation == DelegationOf(i) && graph == ReadTaskGraphState(i.graph, i.feature)
    ensures Reads(le, i.feature, i.runtime, i.runFiles, runtime)
    ensures ReportedBefore(le, i, errors, 5)
  {
    errors := [];
    if !i.structurePassed {
      errors := errors + [StructureFailed];
    }
    delegation := ReadDelegation(i.delegation, i.feature);
    assert ReportedBefore(le, i, errors, 1);
    if delegation.Err? {
      errors := errors + [BadDelegation(delegation.error)];
    }
    assert ReportedBefore(le, i, errors, 2);
    graph := ReadTaskGraphState(i.graph, i.feature);
    if graph.Err? {
      errors := errors + [BadTaskGraph(graph.error)];
    }
    assert ReportedBefore(le, i, errors, 3);
    if delegation.Ok? && graph.Ok? {
      errors := CompareRoles(le, i, graph.value.roles, delegation.value, errors);
    }
    assert ReportedBefore(le, i, errors, 4);
    runtime := ReadRuntimeEvidenceSummary(le, i.feature, i.runtime, i.runFiles);
    if runtime.Err? {
      errors := errors + [BadRuntime(runtime.error)];
    }
    RuntimeErrorIsUnique(le, i, runtime);
    assert ReportedBefore(le, i, errors, 5);
  }

  method ValidateVerificationEvidenceGate(le: Collation, i: Inputs) returns (r: GateResult)
    requires IsCollation(le)
    ensures r.BadSlug? <==> !ValidSlug(i.feature)
    ensures r.NotConformant? <==> ValidSlug(i.feature) && !i.conformance.conformant
    ensures r.NotConformant? ==> r.conformanceErrors == i.conformance.errors
    ensures r.NotVerified? ==> forall e :: e in r.errors <==> Reported(le, i, e)
    ensures r.Verified? ==> (forall e :: !Reported(le, i, e)) && IsPayload(le, i, r.payload)
    ensures r.NotVerified? ==> r.errors != []
  {
    if !ValidSlug(i.feature) {
      return BadSlug;
    }
    if !i.conformance.conformant {
      return NotConformant(i.conformance.errors);
    }
    var delegation, graph, runtime, errors := CheckSources(le, i);
    var reviewerReview := Review(None, None);
    if delegation.Ok? {
      reviewerReview, errors := CheckReview(le, i, delegation.value, errors);
    }
    assert ReportedBefore(le, i, errors, 6);
    var securityReview := Review(Some("N/A"), None);
    if i.conformance.sensitiveFiles != [] || (delegation.Ok? && NonEmpty(delegation.value.securityReviewer).Some?) {
      securityReview, errors := CheckSecurityReview(le, i, errors);
    }
    assert ReportedBefore(le, i, errors, 7);
    if |errors| > 0 {
      return NotVerified(errors);
    }
    assert delegation.Err? ==> Reported(le, i, BadDelegation(delegation.error));
    assert graph.Err? ==> Reported(le, i, BadTaskGraph(graph.error));
    assert runtime.Err? ==> Reported(le, i, BadRuntime(runtime.error));
    assert delegation.Ok? && i.reviewerReview.None? ==> Reported(le, i, ReviewMissing);
    return Verified(PayloadOf(i, delegation.value, graph.value, runtime.value, reviewerReview, securityReview));
  }

  /* ---------- What a PASS says ---------- */

  /** The tasks of an attempt that come before verification. */
  function BeforeVerification(delegated: bool): nat {
    |Order(delegated)| - 1
  }

  /** The verification task is READY exactly when this attempt's history is the passes before it. */
  lemma ReadyToVerify(g: Graph)
    requires Consistent(g)
    ensures g.status == Active && g.tasks.verification.status == Ready <==>
      EventsOf(Tail(g.history)) == PassesUpTo(Delegated(g.roles), BeforeVerification(Delegated(g.roles)))
  {
    var delegated, k := Delegated(g.roles), Stage(g);
    ListedStatesAreStages(g.status, delegated, VectorOf(g.tasks));
    PassesLength(delegated, BeforeVerification(delegated));
    if g.status == Failed {
      var n := |g.history| - 1;
      assert IsFail(g.history[n].event);
      assert Tail(g.history) == [];
    } else {
      PassesLength(delegated, k);
      assert EventsOf(Tail(g.history)) == PassesUpTo(delegated, k);
    }
  }

  lemma {:induction false} PassesLength(delegated: bool, k: nat)
    requires k <= |Order(delegated)|
    ensures |PassesUpTo(delegated, k)| == k
  {
    if k > 0 {
      PassesLength(delegated, k - 1);
    }
  }

  /** A delegation: two named identities, and nobody reviews their own work. */
  predicate IndependentRoles(roles: RoleFields) {
    && NonEmpty(roles.builder).Some? && NonEmpty(roles.reviewer).Some?
    && roles.reviewer != roles.builder
    && (NonEmpty(roles.securityReviewer).Some? ==> roles.securityReviewer != roles.builder)
  }

  predicate Approves(review: Option<Review>, reviewer: Option<string>) {
    review.Some? && review.value.status == Some("PASS") && review.value.reviewedBy == reviewer
  }

  predicate RuntimeReadable(i: Inputs) {
    && i.runtime.Parsed? && i.runtime.value.feature == i.feature
    && BadJson !in i.runFiles
    && forall run | run in Runs(i.runFiles) :: run.feature == i.feature
  }

  /** What has to hold of the files for a PASS, in terms of the history of the graph `g`. */
  predicate Deserved(i: Inputs, g: Graph) {
    && i.structurePassed
    && i.delegation.Parsed? && i.delegation.value.feature == i.feature
    && g.feature == i.feature
    && RuntimeReadable(i)
    && var roles := i.delegation.value.roles;
       var security := NonEmpty(roles.securityReviewer).Some?;
       && IndependentRoles(roles)
       && (forall role | role in ROLE_NAMES :: GraphRole(g.roles, role) == DelegatedRole(roles, role))
       && EventsOf(Tail(g.history)) ==
            [BuilderPass, ReviewerPass] + (if security then [SecurityPass] else [])
       && Approves(i.reviewerReview, roles.reviewer)
       && (security ==> Approves(i.securityReview, roles.securityReviewer))
       && (i.conformance.sensitiveFiles != [] ==> security)
  }

  lemma PassesBefore(delegated: bool)
    ensures PassesUpTo(delegated, BeforeVerification(delegated)) ==
      [BuilderPass, ReviewerPass] + (if delegated then [SecurityPass] else [])
  {
    assert PassesUpTo(delegated, 1) == [BuilderPass];
    assert PassesUpTo(delegated, 2) == [BuilderPass, ReviewerPass];
  }

  lemma RuntimeErrors(le: Collation, i: Inputs)
    ensures (forall x :: !Reported(le, i, BadRuntime(x))) <==> RuntimeReadable(i)
  {
    assert !RuntimeReadable(i) ==>
      || Reported(le, i, BadRuntime(RuntimeMissing)) || Reported(le, i, BadRuntime(InvalidRuntimeJson))
      || Reported(le, i, BadRuntime(RuntimeFeatureMismatch)) || Reported(le, i, BadRuntime(RunFeatureMismatch));
  }

  lemma DelegationErrors(le: Collation, i: Inputs)
    ensures (forall x :: !Reported(le, i, BadDelegation(x))) <==>
      i.delegation.Parsed? && i.delegation.value.feature == i.feature && IndependentRoles(i.delegation.value.roles)
    ensures (forall x :: !Reported(le, i, BadDelegation(x))) ==> DelegationOf(i) == Ok(i.delegation.value.roles)
  {
    var r := DelegationOf(i);
    assert r.Err? ==> Reported(le, i, BadDelegation(r.error));
  }

  lemma GraphErrors(le: Collation, i: Inputs, g: Graph)
    requires Consistent(g) && i.graph == Parsed(g)
    ensures (forall x :: !Reported(le, i, BadTaskGraph(x))) <==>
      g.feature == i.feature &&
      EventsOf(Tail(g.history)) == PassesUpTo(Delegated(g.roles), BeforeVerification(Delegated(g.roles)))
    ensures (forall x :: !Reported(le, i, BadTaskGraph(x))) ==> ReadTaskGraphState(i.graph, i.feature) == Ok(g)
  {
    var r := ReadTaskGraphState(i.graph, i.feature);
    assert r.Err? ==> Reported(le, i, BadTaskGraph(r.error));
    ReadyToVerify(g);
  }

  /** Which of the delegation's errors is reported: the first that holds. */
  lemma DelegationErrorIsExact(le: Collation, i: Inputs)
    ensures Reported(le, i, BadDelegation(DelegationMissing)) <==> i.delegation.Missing?
    ensures Reported(le, i, BadDelegation(DelegationInvalidJson)) <==> i.delegation.Malformed?
    ensures Reported(le, i, BadDelegation(DelegationFeature)) <==>
      i.delegation.Parsed? && i.delegation.value.feature != i.feature
    ensures Reported(le, i, BadDelegation(IdentitiesRequired)) <==>
      && i.delegation.Parsed? && i.delegation.value.feature == i.feature
      && (NonEmpty(i.delegation.value.roles.builder).None? || NonEmpty(i.delegation.value.roles.reviewer).None?)
    ensures Reported(le, i, BadDelegation(ReviewerIsBuilder)) <==>
      && i.delegation.Parsed? && i.delegation.value.feature == i.feature
      && NonEmpty(i.delegation.value.roles.builder).Some?
      && i.delegation.value.roles.reviewer == i.delegation.value.roles.builder
    ensures Reported(le, i, BadDelegation(SecurityReviewerIsBuilder)) <==>
      && i.delegation.Parsed? && i.delegation.value.feature == i.feature
      && NonEmpty(i.delegation.value.roles.builder).Some? && NonEmpty(i.delegation.value.roles.reviewer).Some?
      && i.delegation.value.roles.reviewer != i.delegation.value.roles.builder
      && i.delegation.value.roles.securityReviewer == i.delegation.value.roles.builder
  {
  }

  /** Which of the task graph's errors is reported. */
  lemma GraphErrorIsExact(le: Collation, i: Inputs)
    ensures Reported(le, i, BadTaskGraph(GraphMissing)) <==> i.graph.Missing?
    ensures Reported(le, i, BadTaskGraph(GraphInvalidJson)) <==> i.graph.Malformed?
    ensures Reported(le, i, BadTaskGraph(GraphFeature)) <==> i.graph.Parsed? && i.graph.value.feature != i.feature
    ensures Reported(le, i, BadTaskGraph(NotActive)) <==>
      i.graph.Parsed? && i.graph.value.feature == i.feature && i.graph.value.status != Active
    ensures Reported(le, i, BadTaskGraph(VerificationNotReady)) <==>
      && i.graph.Parsed? && i.graph.value.feature == i.feature && i.graph.value.status == Active
      && i.graph.value.tasks.verification.status != Ready
  {
  }

  /** The errors of the two reviews, given a good delegation. */
  lemma ReviewErrors(le: Collation, i: Inputs, roles: RoleFields)
    requires DelegationOf(i) == Ok(roles)
    ensures (forall e | Part(e) == 5 :: !Reported(le, i, e)) <==> Approves(i.reviewerReview, roles.reviewer)
  {
    assert Part(ReviewMissing) == Part(ReviewNotPass) == Part(ReviewerUnnamed) == Part(ReviewerDiffers) == 5;
    assert !Approves(i.reviewerReview, roles.reviewer) ==>
      || Reported(le, i, ReviewMissing) || Reported(le, i, ReviewNotPass)
      || Reported(le, i, ReviewerUnnamed) || Reported(le, i, ReviewerDiffers);
  }

  lemma SecurityErrors(le: Collation, i: Inputs, roles: RoleFields)
    requires DelegationOf(i) == Ok(roles)
    ensures (forall e | Part(e) == 6 :: !Reported(le, i, e)) <==>
      && (i.conformance.sensitiveFiles != [] ==> NonEmpty(roles.securityReviewer).Some?)
      && (NonEmpty(roles.securityReviewer).Some? ==> Approves(i.securityReview, roles.securityReviewer))
  {
    var missing := SecurityReviewMissing(i.conformance.sensitiveFiles != []);
    assert Part(SecurityNotDelegated) == Part(missing) == Part(SecurityNotPass) == 6;
    assert Part(SecurityReviewerUnnamed) == Part(SecurityReviewerDiffers) == 6;
    assert SecurityDelegated(i) && !Approves(i.securityReview, roles.securityReviewer) ==>
      || Reported(le, i, missing) || Reported(le, i, SecurityNotPass)
      || Reported(le, i, SecurityReviewerUnnamed) || Reported(le, i, SecurityReviewerDiffers);
    assert i.conformance.sensitiveFiles != [] && !SecurityDelegated(i) ==> Reported(le, i, SecurityNotDelegated);
  }

  lemma RoleErrors(le: Collation, i: Inputs, roles: RoleFields, g: Graph)
    requires DelegationOf(i) == Ok(roles) && ReadTaskGraphState(i.graph, i.feature) == Ok(g)
    ensures (forall role :: !Reported(le, i, RoleDiffers(role))) <==>
      forall role :: GraphRole(g.roles, role) == DelegatedRole(roles, role)
  {
    forall role ensures Reported(le, i, RoleDiffers(role)) <==> GraphRole(g.roles, role) != DelegatedRole(roles, role) {
    }
  }

  lemma SecurityRoleAgrees(i: Inputs, g: Graph)
    requires i.delegation.Parsed?
    requires GraphRole(g.roles, SecurityReviewerRole) == DelegatedRole(i.delegation.value.roles, SecurityReviewerRole)
    ensures Delegated(g.roles) <==> NonEmpty(i.delegation.value.roles.securityReviewer).Some?
  {
  }

  lemma SilenceIsDeserved(le: Collation, i: Inputs, g: Graph)
    requires Consistent(g) && i.graph == Parsed(g)
    requires forall e :: !Reported(le, i, e)
    ensures Deserved(i, g)
  {
    RuntimeErrors(le, i);
    DelegationErrors(le, i);
    GraphErrors(le, i, g);
    var roles := i.delegation.value.roles;
    RoleErrors(le, i, roles, g);
    ReviewErrors(le, i, roles);
    SecurityErrors(le, i, roles);
    SecurityRoleAgrees(i, g);
    PassesBefore(Delegated(g.roles));
    assert !Reported(le, i, StructureFailed);
  }

  lemma SilenceByParts(le: Collation, i: Inputs)
    requires !Reported(le, i, StructureFailed)
    requires forall x :: !Reported(le, i, BadDelegation(x))
    requires forall x :: !Reported(le, i, BadTaskGraph(x))
    requires forall role :: !Reported(le, i, RoleDiffers(role))
    requires forall x :: !Reported(le, i, BadRuntime(x))
    requires forall e | Part(e) == 5 :: !Reported(le, i, e)
    requires forall e | Part(e) == 6 :: !Reported(le, i, e)
    ensures forall e :: !Reported(le, i, e)
  {
    forall e ensures !Reported(le, i, e) {
      match e
      case StructureFailed =>
      case BadDelegation(x) =>
      case BadTaskGraph(x) =>
      case RoleDiffers(role) =>
      case BadRuntime(x) =>
      case _ => assert Part(e) == 5 || Part(e) == 6;
    }
  }

  lemma RolesAgree(i: Inputs, g: Graph)
    requires Deserved(i, g)
    ensures forall role :: GraphRole(g.roles, role) == DelegatedRole(i.delegation.value.roles, role)
  {
    forall role ensures GraphRole(g.roles, role) == DelegatedRole(i.delegation.value.roles, role) {
      assert role == ROLE_NAMES[0] || role == ROLE_NAMES[1] || role == ROLE_NAMES[2];
      assert role in ROLE_NAMES;
    }
  }

  lemma DeservedIsSilent(le: Collation, i: Inputs, g: Graph)
    requires Consistent(g) && i.graph == Parsed(g) && Deserved(i, g)
    ensures forall e :: !Reported(le, i, e)
  {
    var roles := i.delegation.value.roles;
    RolesAgree(i, g);
    SecurityRoleAgrees(i, g);
    PassesBefore(Delegated(g.roles));
    RuntimeErrors(le, i);
    DelegationErrors(le, i);
    GraphErrors(le, i, g);
    RoleErrors(le, i, roles, g);
    ReviewErrors(le, i, roles);
    SecurityErrors(le, i, roles);
    SilenceByParts(le, i);
  }

  /** For a reachable graph the gate reports nothing exactly when a PASS is deserved. */
  lemma PassesExactly(le: Collation, i: Inputs, g: Graph)
    requires Consistent(g) && i.graph == Parsed(g)
    ensures (forall e :: !Reported(le, i, e)) <==> Deserved(i, g)
  {
    if Deserved(i, g) {
      DeservedIsSilent(le, i, g);
    }
    if forall e :: !Reported(le, i, e) {
      SilenceIsDeserved(le, i, g);
    }
  }

  /**
   A PASS payload, read from a reachable graph: its reviewers are the delegated ones, they are the actors of
   the tasks it lists and none of them is the builder; sensitive files come with a security reviewer; its
   retry count is the number of retries so far; and reporting the verdict completes the graph.
   */
  lemma PassPayload(le: Collation, i: Inputs, g: Graph, p: Payload, now: Time)
    requires Consistent(g) && i.graph == Parsed(g)
    requires (forall e :: !Reported(le, i, e)) && IsPayload(le, i, p)
    ensures p.graphStatus == Active && p.retryCount == RetryEntries(g.history) == FailCount(g.history)
    ensures p.reviewerReview.reviewedBy == p.roles.reviewer == p.tasks.reviewer.actor
    ensures p.roles.builder == p.tasks.builder.actor && p.roles.builder != p.roles.reviewer
    ensures NonEmpty(p.roles.securityReviewer) == p.tasks.securityReviewer.actor
    ensures p.tasks.securityReviewer.actor.Some? ==>
      p.securityReview == Review(Some("PASS"), p.roles.securityReviewer) && p.roles.securityReviewer != p.roles.builder
    ensures p.sensitiveFiles != [] ==> p.tasks.securityReviewer.actor.Some?
    ensures Apply(g, VerifyPass, now).Ok? && Apply(g, VerifyPass, now).value.status == Complete
  {
    SilenceIsDeserved(le, i, g);
    SilenceMeansReady(le, i, g);
    DelegationErrors(le, i);
    RolesAreActors(i, g);
    VerdictCompletes(g, now);
  }

  lemma RolesAreActors(i: Inputs, g: Graph)
    requires WellShaped(g) && Deserved(i, g)
    ensures var roles := i.delegation.value.roles;
      && roles.builder == g.tasks.builder.actor && roles.reviewer == g.tasks.reviewer.actor
      && NonEmpty(roles.securityReviewer) == g.tasks.securityReviewer.actor
  {
    RolesAgree(i, g);
    var roles := i.delegation.value.roles;
    assert GraphRole(g.roles, BuilderRole) == DelegatedRole(roles, BuilderRole);
    assert GraphRole(g.roles, ReviewerRole) == DelegatedRole(roles, ReviewerRole);
    assert GraphRole(g.roles, SecurityReviewerRole) == DelegatedRole(roles, SecurityReviewerRole);
  }

  /** A graph the gate passed counts its retries, and takes the verdict. */
  lemma VerdictCompletes(g: Graph, now: Time)
    requires Consistent(g) && g.status == Active && g.tasks.verification.status == Ready
    ensures g.retryCount == RetryEntries(g.history) == FailCount(g.history)
    ensures Apply(g, VerifyPass, now).Ok? && Apply(g, VerifyPass, now).value.status == Complete
  {
    ListedStatesAreStages(g.status, Delegated(g.roles), VectorOf(g.tasks));
    RetriesAreFailures(g.history, g.maxRetries);
  }

  /* ---------- A PASS is backed by the runs that led to it ---------- */

  /** The last run of `task` recorded that its actor passed it. */
  predicate LastRunPassed(g: Graph, runs: seq<RunEvidence>, task: TaskName) {
    var own := Of(runs, task);
    own != [] &&
    var last := own[|own| - 1];
    last.result == ResultPass && last.graphEvent == Some(PassEvent(task)) && last.actor == ActorOf(g.tasks, task)
  }

  /** The tasks before the current one were each passed by their last run. */
  predicate StagesAreBacked(g: Graph, runs: seq<RunEvidence>) {
    forall p | 0 <= p < Stage(g) && p < |Order(Delegated(g.roles))| ::
      LastRunPassed(g, runs, Order(Delegated(g.roles))[p])
  }

  lemma OrderIsInjective(delegated: bool, p: nat, q: nat)
    requires p < |Order(delegated)| && q < |Order(delegated)| && p != q
    ensures Order(delegated)[p] != Order(delegated)[q]
  {
  }

  lemma ActorsStay(g: Graph, event: Event, now: Time, task: TaskName)
    requires Apply(g, event, now).Ok?
    ensures ActorOf(Apply(g, event, now).value.tasks, task) == ActorOf(g.tasks, task)
    ensures Apply(g, event, now).value.roles == g.roles
  {
  }

  /** A run of another task changes nothing for this one. */
  lemma BackingIsKept(g: Graph, g': Graph, runs: seq<RunEvidence>, e: RunEvidence, task: TaskName)
    requires LastRunPassed(g, runs, task) && e.task != task
    requires ActorOf(g'.tasks, task) == ActorOf(g.tasks, task)
    ensures LastRunPassed(g', runs + [e], task)
  {
    OfSnoc(runs, e, task);
  }

  /** A run that passes its task is that task's last run. */
  lemma BackingIsGained(g': Graph, runs: seq<RunEvidence>, e: RunEvidence, task: TaskName)
    requires e.task == task && e.result == ResultPass && e.graphEvent == Some(PassEvent(task))
    requires e.actor == ActorOf(g'.tasks, task)
    ensures LastRunPassed(g', runs + [e], task)
  {
    OfSnoc(runs, e, task);
  }

  lemma EventKeepsBacking(g: Graph, runs: seq<RunEvidence>, e: RunEvidence, now: Time)
    requires Consistent(g) && StagesAreBacked(g, runs)
    requires Stage(g) < |Order(Delegated(g.roles))| && CurrentTask(g) == e.task && e.actor == ActorOf(g.tasks, e.task)
    requires e.graphEvent == Some(if e.result == ResultPass then PassEvent(e.task) else FailEvent(e.task))
    requires Apply(g, e.graphEvent.value, now).Ok?
    ensures StagesAreBacked(Apply(g, e.graphEvent.value, now).value, runs + [e])
  {
    var g', delegated, k := Apply(g, e.graphEvent.value, now).value, Delegated(g.roles), Stage(g);
    ApplyKeepsShape(g, e.graphEvent.value, now);
    forall p | 0 <= p < Stage(g') && p < |Order(delegated)|
      ensures LastRunPassed(g', runs + [e], Order(delegated)[p])
    {
      ActorsStay(g, e.graphEvent.value, now, Order(delegated)[p]);
      if p == k {
        BackingIsGained(g', runs, e, e.task);
      } else {
        OrderIsInjective(delegated, p, k);
        BackingIsKept(g, g', runs, e, Order(delegated)[p]);
      }
    }
  }

  /** What a run that is not refused does, read off its evidence. */
  lemma RunFollowsEvidence(g: Graph, call: Call)
    requires Consistent(g) && Refusal(g, call).None?
    ensures var e := Evidence(g, call);
      && Written(g, call) == [e]
      && g.status == Active && Stage(g) < |Order(Delegated(g.roles))| && CurrentTask(g) == e.task
      && e.actor == ActorOf(g.tasks, e.task)
      && (e.graphEvent.None? ==> NextGraph(g, call) == g)
      && (e.graphEvent.Some? ==>
            && e.graphEvent == Some(if e.result == ResultPass then PassEvent(e.task) else FailEvent(e.task))
            && Apply(g, e.graphEvent.value, call.finishedAt) == Ok(NextGraph(g, call)))
  {
    EvidenceIsOfReadyTask(g, call);
    if Evidence(g, call).graphEvent.Some? {
      EventIsAccepted(g, call);
    }
    ReadyTaskIsCurrent(g, Evidence(g, call).task);
  }

  lemma EvidenceIsOfReadyTask(g: Graph, call: Call)
    requires Refusal(g, call).None?
    ensures var e := Evidence(g, call);
      g.status == Active && StatusOf(g.tasks, e.task) == Ready && e.actor == ActorOf(g.tasks, e.task)
  {
  }

  lemma EventIsAccepted(g: Graph, call: Call)
    requires Consistent(g) && Refusal(g, call).None? && Evidence(g, call).graphEvent.Some?
    ensures var e := Evidence(g, call);
      && e.graphEvent == Some(if e.result == ResultPass then PassEvent(e.task) else FailEvent(e.task))
      && Apply(g, e.graphEvent.value, call.finishedAt) == Ok(NextGraph(g, call))
  {
    EvidenceNamesItsTask(g, call);
    NeverRejectedAfterEvidence(g, call);
  }

  lemma RunKeepsBacking(g: Graph, call: Call, runs: seq<RunEvidence>)
    requires Consistent(g) && StagesAreBacked(g, runs)
    ensures StagesAreBacked(NextGraph(g, call), runs + Written(g, call))
  {
    if Refusal(g, call).Some? {
      assert runs + Written(g, call) == runs;
    } else {
      var e := Evidence(g, call);
      RunFollowsEvidence(g, call);
      if e.graphEvent.Some? {
        EventKeepsBacking(g, runs, e, call.finishedAt);
      } else {
        WaitKeepsBacking(g, runs, e);
      }
    }
  }

  lemma WaitKeepsBacking(g: Graph, runs: seq<RunEvidence>, e: RunEvidence)
    requires StagesAreBacked(g, runs)
    requires Stage(g) < |Order(Delegated(g.roles))| && CurrentTask(g) == e.task
    ensures StagesAreBacked(g, runs + [e])
  {
    var delegated := Delegated(g.roles);
    forall p | 0 <= p < Stage(g) ensures LastRunPassed(g, runs + [e], Order(delegated)[p]) {
      OrderIsInjective(delegated, p, Stage(g));
      BackingIsKept(g, g, runs, e, Order(delegated)[p]);
    }
  }

  lemma {:induction false} StagesStayBacked(feature: string, roles: Roles, maxRetries: nat, start: Time, calls: seq<Call>)
    ensures var (g, runs) := After(Initial(feature, roles, maxRetries, start), calls);
      StagesAreBacked(g, runs)
    decreases |calls|
  {
    if calls == [] {
      InitialIsFresh(feature, roles, maxRetries, start);
    } else {
      var n := |calls| - 1;
      StagesStayBacked(feature, roles, maxRetries, start, calls[..n]);
      EvidenceMatchesHistory(feature, roles, maxRetries, start, calls[..n]);
      var (g, runs) := After(Initial(feature, roles, maxRetries, start), calls[..n]);
      RunKeepsBacking(g, calls[n], runs);
    }
  }

  /** Each run comes after the earlier ones in the summary's order: by finishedAt, startedAt, runId. */
  predicate RunsFollow(le: Collation, runs: seq<RunEvidence>) {
    forall i, j | 0 <= i < j < |runs| :: !RunLe(le, runs[j], runs[i])
  }

  lemma {:induction false} LatestIsLast(le: Collation, runs: seq<RunEvidence>, task: TaskName, x: RunEvidence)
    requires IsCollation(le) && RunsFollow(le, runs) && IsLatest(le, runs, task, x)
    ensures Of(runs, task) != [] && x == Of(runs, task)[|Of(runs, task)| - 1]
  {
    var init, last := runs[..|runs| - 1], runs[|runs| - 1];
    assert runs == init + [last];
    if last.task == task {
      assert RunLe(le, last, x);
      var j :| 0 <= j < |runs| && runs[j] == x;
      assert RunLe(le, runs[|runs| - 1], runs[j]);
      assert j == |runs| - 1;
    } else {
      LatestIsLast(le, init, task, x);
    }
  }

  /** The summary shows the pass. */
  predicate ShowsPass(summary: map<TaskName, TaskSummary>, task: TaskName) {
    && task in summary && summary[task].latestResult == ResultPass
    && summary[task].latestGraphEvent == Some(PassEvent(task))
  }

  lemma BackingShows(le: Collation, g: Graph, runs: seq<RunEvidence>, summary: map<TaskName, TaskSummary>, task: TaskName)
    requires IsCollation(le) && RunsFollow(le, runs) && Summarizes(le, runs, summary)
    requires LastRunPassed(g, runs, task)
    ensures ShowsPass(summary, task)
  {
    assert EntryIsRight(le, runs, task, summary[task]);
    var x :| x in runs && IsLatest(le, runs, task, x) && TellsOf(summary[task], |Of(runs, task)|, x);
    LatestIsLast(le, runs, task, x);
  }

  lemma ReadyToVerifyIsLastStage(g: Graph)
    requires WellShaped(g) && g.status == Active && g.tasks.verification.status == Ready
    ensures Stage(g) == BeforeVerification(Delegated(g.roles))
  {
    ListedStatesAreStages(g.status, Delegated(g.roles), VectorOf(g.tasks));
  }

  /** What the gate passed is a graph at its last stage. */
  lemma SilenceMeansReady(le: Collation, i: Inputs, g: Graph)
    requires i.graph == Parsed(g) && forall e :: !Reported(le, i, e)
    ensures g.status == Active && g.tasks.verification.status == Ready
  {
    var r := ReadTaskGraphState(i.graph, i.feature);
    assert r.Err? ==> Reported(le, i, BadTaskGraph(r.error));
  }

  /** The payload's summary is the summary of the runs, however their files are listed. */
  lemma PayloadSummarizes(le: Collation, i: Inputs, p: Payload, runs: seq<RunEvidence>)
    requires IsPayload(le, i, p) && BadJson !in i.runFiles && multiset(Runs(i.runFiles)) == multiset(runs)
    ensures Summarizes(le, runs, p.runs)
  {
    SummaryOfPermutation(le, Runs(i.runFiles), runs, p.runs);
  }

  lemma AfterKeepsRoles(feature: string, roles: Roles, maxRetries: nat, start: Time, calls: seq<Call>)
    ensures var (g, runs) := After(Initial(feature, roles, maxRetries, start), calls);
      Consistent(g) && Delegated(g.roles) == Delegated(roles)
  {
    EvidenceMatchesHistory(feature, roles, maxRetries, start, calls);
    var (g, runs) := After(Initial(feature, roles, maxRetries, start), calls);
    assert Delegated(Origin(g).roles) == Delegated(g.roles);
  }

  /**
   When the graph was driven by runs alone and these follow one another in the summary's order, a PASS cannot
   be had without them: whatever order the run files are listed in, the summary in the payload names, for every task before
   verification, a latest run that passed the task.
   */
  lemma PassIsBackedByRuns(
      le: Collation, i: Inputs, p: Payload, roles: Roles, maxRetries: nat, start: Time, calls: seq<Call>,
      g: Graph, runs: seq<RunEvidence>)
    requires IsCollation(le) && (forall e :: !Reported(le, i, e)) && IsPayload(le, i, p)
    requires (g, runs) == After(Initial(i.feature, roles, maxRetries, start), calls)
    requires i.graph == Parsed(g) && RunsFollow(le, runs)
    requires BadJson !in i.runFiles && multiset(Runs(i.runFiles)) == multiset(runs)
    ensures forall k | 0 <= k < BeforeVerification(Delegated(roles)) :: ShowsPass(p.runs, Order(Delegated(roles))[k])
  {
    AfterKeepsRoles(i.feature, roles, maxRetries, start, calls);
    StagesStayBacked(i.feature, roles, maxRetries, start, calls);
    SilenceMeansReady(le, i, g);
    ReadyToVerifyIsLastStage(g);
    PayloadSummarizes(le, i, p, runs);
    forall k | 0 <= k < BeforeVerification(Delegated(roles)) ensures ShowsPass(p.runs, Order(Delegated(roles))[k]) {
      assert LastRunPassed(g, runs, Order(Delegated(roles))[k]);
      BackingShows(le, g, runs, p.runs, Order(Delegated(roles))[k]);
    }
  }
}
