/**
 The wording of the generated Markdown after its provenance lines, section by section: the three files of
 scripts/scaffold-spec-from-context.js and the handoff of scripts/create-implementation-handoff.js. Each section
 promises what the documents need of it: one line each, no headings of its own, another title.
 */
module Templates {
  import opened TextLines
  import opened MarkdownSections
  import opened Provenance

  /* ---------- Lines and sections ---------- */

  /** A section of a template. */
  datatype Part = Part(title: string, lines: seq<string>)

  function PartLines(p: Part): seq<string> {
    ["## " + p.title, ""] + (p.lines + [""])
  }

  function Render(parts: seq<Part>): seq<string> {
    if parts == [] then [] else PartLines(parts[0]) + Render(parts[1..])
  }

  predicate TextChar(c: char) {
    c != '\n' && c != '\r' && c != '#'
  }

  /** Fixed wording: within one line, and nothing that could make the line a heading. */
  predicate IsPhrase(s: string) {
    forall i | 0 <= i < |s| :: TextChar(s[i])
  }

  /** One line that is no heading. */
  predicate Plain(line: string) {
    NoBreaks(line) && forall i | 0 <= i < |line| && i == 0 :: line[i] != '#'
  }

  /** Fixed wording that can be a line, or part of one. */
  predicate Wording(s: string) {
    IsPhrase(s) && Plain(s)
  }

  predicate AllPlain(lines: seq<string>) {
    forall i | 0 <= i < |lines| :: Plain(lines[i])
  }

  predicate IsPrintable(s: string) {
    forall i | 0 <= i < |s| :: ' ' <= s[i] <= '~'
  }

  /** A part that does not open the section `own` again. */
  predicate Elsewhere(own: string, p: Part) {
    IsTitle(p.title) && p.title != own && AllPlain(p.lines)
  }

  /** A title that reads back as it was written. */
  predicate IsTitle(title: string) {
    title != "" && title[0] != ' ' && title[|title| - 1] != ' ' && IsPrintable(title)
  }

  /** A title of some section other than `own`. */
  function Title(own: string, text: string): (title: string)
    requires IsTitle(text) && text != own
    ensures IsTitle(title) && title != own
  {
    text
  }

  predicate AllElsewhere(own: string, parts: seq<Part>) {
    forall i | 0 <= i < |parts| :: Elsewhere(own, parts[i])
  }

  type PlainLines = lines: seq<string> | AllPlain(lines) witness []

  function Fixed(text: string): (line: string)
    requires IsPhrase(text)
    ensures Wording(line)
  {
    text
  }

  /** A longer line: its words up to here, and the rest of them. */
  function Then(words: string, more: string): (text: string)
    requires IsPhrase(words) && IsPhrase(more)
    ensures Wording(text)
  {
    words + " " + more
  }

  /** A line with a value in it. */
  function Filled(before: string, value: string, after: string): (line: string)
    requires IsPhrase(before) && before != "" && IsPhrase(after)
    ensures (if after == "" then NoBreaks(value) else OneLine(value)) ==> Plain(line)
  {
    before + value + after
  }

  function Field(name: string, value: string): (line: string)
    requires IsPhrase(name)
    ensures OneLine(value) ==> Plain(line)
  {
    FieldLine(name, value)
  }

  const SOURCE: string := "Source Context Pack"
  const PROVENANCE: string := "Provenance"

  function BranchName(slug: string): (name: string)
    ensures NoBreaks(slug) ==> NoBreaks(name)
  {
    "feature/" + slug
  }

  function WorktreePath(slug: string): (path: string)
    ensures NoBreaks(slug) ==> NoBreaks(path)
  {
    "../worktrees/" + slug
  }

  /* ---------- The rest of requirements.md ---------- */

  function DefineOutcome(): (line: string)
    ensures Wording(line)
  {
    Then(Then("<Define the", "user/business/technical outcome"), "this feature must achieve.>")
  }

  function Purpose(): (lines: seq<string>)
    ensures AllPlain(lines)
  {
    [DefineOutcome()]
  }

  function ConfirmBehavior(): (line: string)
    ensures Wording(line)
  {
    Then(Then("- Confirm current behavior", "against code, tests, and"), "`docs/module-registry.md`.")
  }

  function TreatAsContext(): (line: string)
    ensures Wording(line)
  {
    Then(Then("- Treat the Context Pack", "as supporting context,"), "not implementation truth.")
  }

  function CurrentImplementationTruth(): (lines: seq<string>)
    ensures AllPlain(lines)
  {
    [ConfirmBehavior(), TreatAsContext()]
  }

  function RequirementSlot(number: string): (line: string)
    requires IsPhrase(number)
    ensures Wording(line)
  {
    Then("- [ ] <Requirement", number)
  }

  function Requirements(): (lines: seq<string>)
    ensures AllPlain(lines)
  {
    [RequirementSlot("1>"), RequirementSlot("2>"), RequirementSlot("3>")]
  }

  function PreserveTheFlow(): (line: string)
    ensures Wording(line)
  {
    Then("- Preserve `Evidence → Schema", "→ Sign → Store → Ledger` unless")
  }

  function UnlessApproved(): (line: string)
    ensures Wording(line)
  {
    Then("explicitly approved as", "an architecture change.")
  }

  function DoNotBypass(): (line: string)
    ensures Wording(line)
  {
    Then("- Do not bypass schema validation,", "signing, storage, or ledger boundaries.")
  }

  function DoNotWeaken(): (line: string)
    ensures Wording(line)
  {
    Then("- Do not weaken security controls", "to make implementation easier.")
  }

  function KeepLocalFirst(): (line: string)
    ensures Wording(line)
  {
    Then(Then("- Keep Local-first /", "AWS-on-demand unless a reviewed"), "requirement justifies otherwise.")
  }

  function Invariants(): (lines: seq<string>)
    ensures AllPlain(lines)
  {
    [Then(PreserveTheFlow(), UnlessApproved()), DoNotBypass(), DoNotWeaken(), KeepLocalFirst()]
  }

  function TestsStayGreen(): (line: string)
    ensures Wording(line)
  {
    Then("- [ ] Existing relevant", "tests remain green.")
  }

  function NewBehaviorIsTested(): (line: string)
    ensures Wording(line)
  {
    Then("- [ ] New behavior has", "deterministic tests.")
  }

  function SecurityIsReviewed(): (line: string)
    ensures Wording(line)
  {
    Then("- [ ] Security-sensitive changes", "receive independent review.")
  }

  function CostIsDocumented(): (line: string)
    ensures Wording(line)
  {
    Then("- [ ] Cost/operational", "impact is documented.")
  }

  function AcceptanceCriteria(): (lines: seq<string>)
    ensures AllPlain(lines)
  {
    [TestsStayGreen(), NewBehaviorIsTested(), SecurityIsReviewed(), CostIsDocumented()]
  }

  function OpenQuestions(): (lines: seq<string>)
    ensures AllPlain(lines)
  {
    [Fixed("- <Question 1>")]
  }

  function NotApproved(): (line: string)
    ensures Wording(line)
  {
    Then("This scaffold is not an", "approved specification")
  }

  function UntilReviewed(): (line: string)
    ensures Wording(line)
  {
    Then(Then("until Kiro/Codex review", "the Context Pack, relevant"), "code/tests/module registry,")
  }

  function AndApproved(): (line: string)
    ensures Wording(line)
  {
    Then("and a Human approves material", "architecture/security/cost changes.")
  }

  function ReviewGate(): (lines: seq<string>)
    ensures AllPlain(lines)
  {
    [Then(Then(NotApproved(), UntilReviewed()), AndApproved())]
  }

  /* ---------- The rest of design.md ---------- */

  function SummarizeState(): (line: string)
    ensures Wording(line)
  {
    Then(Then("<Summarize verified", "current implementation from"), "code/tests/module registry.>")
  }

  function CurrentState(): (lines: seq<string>)
    ensures AllPlain(lines)
  {
    [SummarizeState()]
  }

  function DescribeDesign(): (line: string)
    ensures Wording(line)
  {
    Then("<Describe the smallest design that", "satisfies the reviewed requirements.>")
  }

  function ProposedDesign(): (lines: seq<string>)
    ensures AllPlain(lines)
  {
    [DescribeDesign()]
  }

  function ComponentSlot(): (line: string)
    ensures Wording(line)
  {
    Fixed("- <Component / file / module>")
  }

  function AffectedComponents(): (lines: seq<string>)
    ensures AllPlain(lines)
  {
    [ComponentSlot()]
  }

  function FlowImpact(): (line: string)
    ensures Wording(line)
  {
    Then(Then(Then("- `Evidence → Schema", "→ Sign → Store →"), "Ledger`: <unchanged /"),
         "explain reviewed impact>")
  }

  function TrustBoundaryImpact(): (lines: seq<string>)
    ensures AllPlain(lines)
  {
    [FlowImpact()]
  }

  function Impact(subject: string): (line: string)
    requires IsPhrase(subject)
    ensures Wording(line)
  {
    Then(Then("-", subject), "impact: <none / explain>")
  }

  function Security(): (lines: seq<string>)
    ensures AllPlain(lines)
  {
    [Impact("IAM / KMS"), Impact("Secret / PII"), Impact("Auditability")]
  }

  function OperationalBurden(): (line: string)
    ensures Wording(line)
  {
    Fixed("- Operational burden: <none / explain>")
  }

  function CostAndOperations(): (lines: seq<string>)
    ensures AllPlain(lines)
  {
    [Impact("AWS resource"), Impact("Recurring cost"), OperationalBurden()]
  }

  function AlternativeSlot(): (line: string)
    ensures Wording(line)
  {
    Fixed("- <Alternative 1 and why rejected>")
  }

  function AlternativesConsidered(): (lines: seq<string>)
    ensures AllPlain(lines)
  {
    [AlternativeSlot()]
  }

  function ChecksToPlan(): (lines: seq<string>)
    ensures AllPlain(lines)
  {
    [Fixed("- Existing tests:"), Fixed("- New tests:"), Fixed("- Security checks:")]
  }

  function ValidationPlan(): (lines: seq<string>)
    ensures AllPlain(lines)
  {
    ChecksToPlan()
  }

  function DesignMatches(): (line: string)
    ensures Wording(line)
  {
    Then("- [ ] Design matches", "reviewed requirements.")
  }

  function ClaimsWereChecked(): (line: string)
    ensures Wording(line)
  {
    Then("- [ ] Current-state claims were checked", "against code/tests/module registry.")
  }

  function BoundaryIsExplicit(): (line: string)
    ensures Wording(line)
  {
    Fixed("- [ ] Trust boundary impact is explicit.")
  }

  function CostIsExplicit(): (line: string)
    ensures Wording(line)
  {
    Then("- [ ] Security/cost/operations", "are explicit.")
  }

  function ApprovalIsIdentified(): (line: string)
    ensures Wording(line)
  {
    Then("- [ ] Human Approval", "identified where required.")
  }

  function ReviewChecklist(): (lines: seq<string>)
    ensures AllPlain(lines)
  {
    [DesignMatches(), ClaimsWereChecked(), BoundaryIsExplicit(), CostIsExplicit(), ApprovalIsIdentified()]
  }

  /* ---------- The rest of tasks.md ---------- */

  function ReadPack(): (line: string)
    ensures Wording(line)
  {
    Then("- [ ] Re-read Context Pack", "and repository `AGENTS.md`.")
  }

  function VerifyRegistry(): (line: string)
    ensures Wording(line)
  {
    Then("- [ ] Verify current code/tests/module", "registry related to the feature.")
  }

  function FinalizeRequirements(): (line: string)
    ensures Wording(line)
  {
    Then("- [ ] Review and finalize", "`requirements.md`.")
  }

  function FinalizeDesign(): (line: string)
    ensures Wording(line)
  {
    Fixed("- [ ] Review and finalize `design.md`.")
  }

  function IdentifyScope(): (line: string)
    ensures Wording(line)
  {
    Then("- [ ] Identify minimal", "implementation scope.")
  }

  function ImplementSmallest(): (line: string)
    ensures Wording(line)
  {
    Then("- [ ] Implement the", "smallest safe change.")
  }

  function AddTests(): (line: string)
    ensures Wording(line)
  {
    Fixed("- [ ] Add or update deterministic tests.")
  }

  function RunStructureCheck(): (line: string)
    ensures Wording(line)
  {
    Fixed("- [ ] Run `npm run check:structure`.")
  }

  function RunSecurityChecks(): (line: string)
    ensures Wording(line)
  {
    Fixed("- [ ] Run relevant security checks.")
  }

  function ReviewTheDiff(): (line: string)
    ensures Wording(line)
  {
    Fixed("- [ ] Perform independent diff review.")
  }

  function RecordLearning(): (line: string)
    ensures Wording(line)
  {
    Then("- [ ] Record reusable learning", "in `knowledge/30-learnings/`.")
  }

  function OpenPullRequest(): (line: string)
    ensures Wording(line)
  {
    Then(Then("- [ ] Open PR and keep material", "architecture/security/cost"),
         "changes behind Human Approval.")
  }

  function TaskLines(): (lines: seq<string>)
    ensures AllPlain(lines)
  {
    [ReadPack(), VerifyRegistry(), FinalizeRequirements(), FinalizeDesign(), IdentifyScope(), ImplementSmallest()] +
    [AddTests(), RunStructureCheck(), RunSecurityChecks(), ReviewTheDiff(), RecordLearning(), OpenPullRequest()]
  }

  /* ---------- The rest of the handoff ---------- */

  function BranchLine(slug: string): (line: string)
    ensures NoBreaks(slug) ==> Plain(line)
  {
    Field("Suggested branch", BranchName(slug))
  }

  function WorktreeLine(slug: string): (line: string)
    ensures NoBreaks(slug) ==> Plain(line)
  {
    Field("Suggested worktree", WorktreePath(slug))
  }

  function SuggestedCommands(): (line: string)
    ensures Wording(line)
  {
    Then("Suggested commands", "(review before running):")
  }

  function GitCommands(): (lines: seq<string>)
    ensures AllPlain(lines)
  {
    [Fixed("~~~bash"), Fixed("git status --short"), Fixed("git fetch --prune")]
  }

  function AddWorktree(slug: string): (line: string)
    ensures NoBreaks(slug) ==> Plain(line)
  {
    Filled("git worktree add ", WorktreePath(slug) + " -b " + BranchName(slug), " main")
  }

  function EnterWorktree(slug: string): (lines: seq<string>)
    ensures NoBreaks(slug) ==> AllPlain(lines)
  {
    [Filled("cd ", WorktreePath(slug), ""), Filled("npm run spec:ready -- ", slug, ""), Fixed("~~~")]
  }

  function DoesNotExecute(): (line: string)
    ensures Wording(line)
  {
    Then("The generator does not", "execute these commands.")
  }

  function SuggestedGitPlan(slug: string): (lines: seq<string>)
    ensures NoBreaks(slug) ==> AllPlain(lines)
  {
    [BranchLine(slug), WorktreeLine(slug), "", SuggestedCommands(), ""] + GitCommands() +
      ([AddWorktree(slug)] + EnterWorktree(slug)) + ["", DoesNotExecute()]
  }

  function ConfirmStatus(): (line: string)
    ensures Wording(line)
  {
    Then("- [ ] Confirm working tree status is", "understood before creating a worktree.")
  }

  function ReadAgents(): (line: string)
    ensures Wording(line)
  {
    Fixed("- [ ] Re-read repository `AGENTS.md`.")
  }

  function ReadAgain(file: string): (line: string)
    ensures OneLine(file) ==> Plain(line)
  {
    Filled("- [ ] Re-read `", file, "`.")
  }

  function SpecFile(slug: string, name: string): (file: string)
    requires OneLine(name)
    ensures OneLine(slug) ==> OneLine(file)
  {
    SpecDir(slug) + ("/" + name)
  }

  function FilesToReadAgain(slug: string, source: string): (lines: seq<string>)
    ensures NoBreaks(slug) && OneLine(source) ==> AllPlain(lines)
  {
    [ReadAgain(source), ReadAgain(SpecFile(slug, "requirements.md")), ReadAgain(SpecFile(slug, "design.md"))]
  }

  function ConfirmReady(slug: string): (line: string)
    ensures NoBreaks(slug) ==> Plain(line)
  {
    Filled("- [ ] Confirm `npm run spec:ready -- ", slug, "` passes in the implementation worktree.")
  }

  function VerifyBeforeEditing(): (line: string)
    ensures Wording(line)
  {
    Then("- [ ] Verify current code/tests/module", "registry before editing.")
  }

  function KeepScopeMinimal(): (line: string)
    ensures Wording(line)
  {
    Then("- [ ] Keep implementation", "scope minimal and test-backed.")
  }

  function StartLines(slug: string, source: string): (lines: seq<string>)
    ensures NoBreaks(slug) && OneLine(source) ==> AllPlain(lines)
  {
    [ConfirmStatus(), ReadAgents()] + FilesToReadAgain(slug, source) +
    [ConfirmReady(slug), VerifyBeforeEditing(), KeepScopeMinimal()]
  }

  function DeveloperStartChecklist(slug: string, source: string): (lines: seq<string>)
    ensures NoBreaks(slug) && OneLine(source) ==> AllPlain(lines)
  {
    StartLines(slug, source)
  }

  function HandoffFileLine(slug: string): (line: string)
    ensures NoBreaks(slug) ==> Plain(line)
  {
    Field("Implementation Handoff", SpecFile(slug, "implementation-handoff.md"))
  }

  function SourceAgain(slug: string, source: string, id: string): (lines: seq<string>)
    ensures NoBreaks(slug) && OneLine(source) && OneLine(id) ==> AllPlain(lines)
  {
    [Field("Source Context Pack", source), Field("Context ID", id), Field("Spec", SpecDir(slug)),
     Fixed("- Spec Readiness: PASS")]
  }

  function PRProvenance(slug: string, source: string, id: string): (lines: seq<string>)
    ensures NoBreaks(slug) && OneLine(source) && OneLine(id) ==> AllPlain(lines)
  {
    SourceAgain(slug, source, id) + [HandoffFileLine(slug), BranchLine(slug)]
  }

  function DeploymentOrDestroy(): (line: string)
    ensures Wording(line)
  {
    Then(Then("Production deployment,", "Terraform destroy, IAM/KMS"), "privilege expansion,")
  }

  function ControlsOrExposure(): (line: string)
    ensures Wording(line)
  {
    Then(Then("security-control removal,", "public exposure expansion,"), "material recurring cost,")
  }

  function NeedApproval(): (line: string)
    ensures Wording(line)
  {
    Then("or canonical trust-boundary changes", "still require Human Approval.")
  }

  function HumanApprovalReminder(): (lines: seq<string>)
    ensures AllPlain(lines)
  {
    [Then(Then(DeploymentOrDestroy(), ControlsOrExposure()), NeedApproval())]
  }
}
