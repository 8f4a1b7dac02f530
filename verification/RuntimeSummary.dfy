/**
 The summary of run evidence that scripts/run-verification-evidence-gate.js reads from a directory:
 what it contains, and that the order in which the directory lists its files does not matter.
 */
module RuntimeSummary {
  import opened Prelude
  import opened TaskGraph
  import opened RuntimeAdapter

  /* ---------- What is read ---------- */

  /** A JSON file that may be absent or may not parse. */
  datatype Document<+T> = Missing | Malformed | Parsed(value: T)

  datatype CommittedRuntime = CommittedRuntime(feature: string, adapters: map<TaskName, Adapter>)

  datatype RunFile = BadJson | Run(run: RunEvidence)

  datatype TaskSummary = TaskSummary(
    runCount: nat, latestResult: RunResult, latestAdapter: AdapterType, latestRunId: string,
    latestGraphEvent: Option<Event>, latestProvider: Option<string>, latestProviderSessionId: Option<string>,
    latestProviderExecutionStatus: Option<ExecutionStatus>)

  datatype RuntimeInfo = RuntimeInfo(adapters: map<TaskName, Adapter>, summary: map<TaskName, TaskSummary>)

  datatype RuntimeError = RuntimeMissing | RuntimeFeatureMismatch | RunFeatureMismatch | InvalidRuntimeJson

  /* ---------- The order of runs ---------- */

  /** `a.localeCompare(b) <= 0`; two different strings may compare as equal. */
  type Collation = (string, string) -> bool

  ghost predicate IsCollation(le: Collation) {
    && (forall a, b :: le(a, b) || le(b, a))
    && (forall a, b, c :: le(a, b) && le(b, c) ==> le(a, c))
  }

  /** By finishedAt, then startedAt, then runId. */
  predicate RunLe(le: Collation, a: RunEvidence, b: RunEvidence) {
    if !le(b.finishedAt, a.finishedAt) then true
    else if !le(a.finishedAt, b.finishedAt) then false
    else if !le(b.startedAt, a.startedAt) then true
    else if !le(a.startedAt, b.startedAt) then false
    else le(a.runId, b.runId)
  }

  lemma RunLeIsCollation(le: Collation, a: RunEvidence, b: RunEvidence, c: RunEvidence)
    requires IsCollation(le)
    ensures RunLe(le, a, b) || RunLe(le, b, a)
    ensures RunLe(le, a, b) && RunLe(le, b, c) ==> RunLe(le, a, c)
    ensures RunLe(le, a, b) && RunLe(le, b, a) ==> le(a.runId, b.runId) && le(b.runId, a.runId)
  {
  }

  predicate Sorted(le: Collation, runs: seq<RunEvidence>) {
    forall i, j | 0 <= i < j < |runs| :: RunLe(le, runs[i], runs[j])
  }

  /** A stable sort, as the language guarantees of `Array.prototype.sort`. */
  function SortRuns(le: Collation, runs: seq<RunEvidence>): seq<RunEvidence> {
    if runs == [] then [] else Insert(le, SortRuns(le, runs[..|runs| - 1]), runs[|runs| - 1])
  }

  function Insert(le: Collation, runs: seq<RunEvidence>, run: RunEvidence): seq<RunEvidence> {
    if runs == [] || RunLe(le, runs[|runs| - 1], run) then runs + [run]
    else Insert(le, runs[..|runs| - 1], run) + [runs[|runs| - 1]]
  }

  lemma {:induction false} InsertSorts(le: Collation, runs: seq<RunEvidence>, run: RunEvidence)
    requires IsCollation(le) && Sorted(le, runs)
    ensures Sorted(le, Insert(le, runs, run))
    ensures multiset(Insert(le, runs, run)) == multiset(runs) + multiset{run}
  {
    if runs != [] {
      var init, last := runs[..|runs| - 1], runs[|runs| - 1];
      assert runs == init + [last];
      if RunLe(le, last, run) {
        forall i | 0 <= i < |runs| ensures RunLe(le, runs[i], run) {
          RunLeIsCollation(le, runs[i], last, run);
        }
      } else {
        InsertSorts(le, init, run);
        RunLeIsCollation(le, run, last, last);
        var inserted := Insert(le, init, run);
        forall x | x in inserted ensures RunLe(le, x, last) {
          assert x in multiset(inserted);
          assert x == run || x in init;
        }
      }
    }
  }

  lemma {:induction false} SortSorts(le: Collation, runs: seq<RunEvidence>)
    requires IsCollation(le)
    ensures Sorted(le, SortRuns(le, runs)) && multiset(SortRuns(le, runs)) == multiset(runs)
  {
    if runs != [] {
      var init, last := runs[..|runs| - 1], runs[|runs| - 1];
      assert runs == init + [last];
      SortSorts(le, init);
      InsertSorts(le, SortRuns(le, init), last);
    }
  }

  /* ---------- What the summary says ---------- */

  function Of(runs: seq<RunEvidence>, task: TaskName): seq<RunEvidence> {
    if runs == [] then []
    else
      var last := runs[|runs| - 1];
      Of(runs[..|runs| - 1], task) + if last.task == task then [last] else []
  }

  /** `x` is the greatest run of its task. */
  predicate IsLatest(le: Collation, runs: seq<RunEvidence>, task: TaskName, x: RunEvidence) {
    x in runs && x.task == task && forall r | r in runs && r.task == task :: RunLe(le, r, x)
  }

  function NonEmpty(s: Option<string>): Option<string> {
    if s == Some("") then None else s
  }

  function SummaryEntry(count: nat, latest: RunEvidence): TaskSummary {
    var p := latest.provider;
    TaskSummary(
      count, latest.result, latest.adapter, latest.runId, latest.graphEvent,
      if p.Some? then NonEmpty(Some(p.value.name)) else None,
      if p.Some? then NonEmpty(p.value.sessionId) else None,
      if p.Some? then Some(p.value.executionStatus) else None)
  }

  /** The entry tells of this run, and how many there were; an empty provider or session name counts as none. */
  predicate TellsOf(e: TaskSummary, count: nat, run: RunEvidence) {
    && e.runCount == count
    && e.latestResult == run.result && e.latestAdapter == run.adapter && e.latestRunId == run.runId
    && e.latestGraphEvent == run.graphEvent
    && (run.provider.None? ==>
          e.latestProvider.None? && e.latestProviderSessionId.None? && e.latestProviderExecutionStatus.None?)
    && (run.provider.Some? ==>
          && e.latestProvider == (if run.provider.value.name == "" then None else Some(run.provider.value.name))
          && (if run.provider.value.sessionId.None? || run.provider.value.sessionId.value == ""
              then e.latestProviderSessionId.None? else e.latestProviderSessionId == run.provider.value.sessionId)
          && e.latestProviderExecutionStatus == Some(run.provider.value.executionStatus))
  }

  lemma EntryTells(count: nat, run: RunEvidence)
    ensures TellsOf(SummaryEntry(count, run), count, run)
    ensures forall e :: TellsOf(e, count, run) ==> e == SummaryEntry(count, run)
  {
  }

  /** One entry for each task that was run: how often, and what its latest run was. */
  predicate EntryIsRight(le: Collation, runs: seq<RunEvidence>, task: TaskName, e: TaskSummary) {
    exists latest | latest in runs :: IsLatest(le, runs, task, latest) && TellsOf(e, |Of(runs, task)|, latest)
  }

  ghost predicate Summarizes(le: Collation, runs: seq<RunEvidence>, summary: map<TaskName, TaskSummary>) {
    && (forall task :: task in summary <==> Of(runs, task) != [])
    && (forall task | task in summary :: EntryIsRight(le, runs, task, summary[task]))
  }

  function Runs(files: seq<RunFile>): seq<RunEvidence>
    requires BadJson !in files
  {
    if files == [] then [] else Runs(files[..|files| - 1]) + [files[|files| - 1].run]
  }

  /** The exact result of reading the configuration and the run files. */
  ghost predicate Reads(le: Collation, feature: string, config: Document<CommittedRuntime>, files: seq<RunFile>,
                        r: Result<RuntimeInfo, RuntimeError>)
  {
    match config
    case Missing => r == Err(RuntimeMissing)
    case Malformed => r == Err(InvalidRuntimeJson)
    case Parsed(c) =>
      if c.feature != feature then r == Err(RuntimeFeatureMismatch)
      else if BadJson in files then r == Err(InvalidRuntimeJson)
      else if exists run | run in Runs(files) :: run.feature != feature then r == Err(RunFeatureMismatch)
      else r.Ok? && r.value.adapters == c.adapters && Summarizes(le, Runs(files), r.value.summary)
  }

  /* ---------- The reader ---------- */

  method ReadRuntimeEvidenceSummary(le: Collation, feature: string, config: Document<CommittedRuntime>, files: seq<RunFile>)
    returns (r: Result<RuntimeInfo, RuntimeError>)
    requires IsCollation(le)
    ensures Reads(le, feature, config, files, r)
  {
    if config.Missing? {
      return Err(RuntimeMissing);
    }
    if config.Malformed? {
      return Err(InvalidRuntimeJson);
    }
    if config.value.feature != feature {
      return Err(RuntimeFeatureMismatch);
    }
    if BadJson in files {
      return Err(InvalidRuntimeJson);
    }
    var runs := SortRuns(le, Runs(files));
    SortSorts(le, Runs(files));
    SameElements(runs, Runs(files));
    var grouped := GroupByTask(feature, runs);
    if grouped.None? {
      return Err(RunFeatureMismatch);
    }
    var summary := SummarizeGroups(le, runs, grouped.value);
    SummaryOfPermutation(le, runs, Runs(files), summary);
    return Ok(RuntimeInfo(config.value.adapters, summary));
  }

  /** Task names in the order of their first run, with the runs of each. */
  datatype Groups = Groups(names: seq<TaskName>, byTask: map<TaskName, seq<RunEvidence>>)

  predicate GroupsAre(runs: seq<RunEvidence>, g: Groups) {
    && (forall task | task in g.names :: task in g.byTask)
    && (forall task | task in g.byTask :: task in g.names && g.byTask[task] == Of(runs, task) != [])
    && (forall run | run in runs :: run.task in g.byTask)
  }

  /** The grouping loop; None when a run belongs to another feature. */
  method GroupByTask(feature: string, runs: seq<RunEvidence>) returns (r: Option<Groups>)
    ensures r.None? <==> exists run | run in runs :: run.feature != feature
    ensures r.Some? ==> GroupsAre(runs, r.value)
  {
    var g := Groups([], map[]);
    for i := 0 to |runs|
      invariant forall run | run in runs[..i] :: run.feature == feature
      invariant GroupsAre(runs[..i], g)
    {
      var run := runs[i];
      if run.feature != feature {
        return None;
      }
      assert runs[..i + 1] == runs[..i] + [run];
      AddToGroup(runs[..i], g, run);
      g := Added(g, run);
    }
    assert runs[..|runs|] == runs;
    return Some(g);
  }

  function Added(g: Groups, run: RunEvidence): Groups {
    if run.task in g.byTask then g.(byTask := g.byTask[run.task := g.byTask[run.task] + [run]])
    else Groups(g.names + [run.task], g.byTask[run.task := [run]])
  }

  lemma OfSnoc(runs: seq<RunEvidence>, run: RunEvidence, task: TaskName)
    ensures Of(runs + [run], task) == Of(runs, task) + if run.task == task then [run] else []
  {
    assert (runs + [run])[..|runs|] == runs;
  }

  lemma {:induction false} OfContains(runs: seq<RunEvidence>, task: TaskName)
    ensures forall x :: x in Of(runs, task) <==> x in runs && x.task == task
  {
    if runs != [] {
      var init, last := runs[..|runs| - 1], runs[|runs| - 1];
      assert runs == init + [last];
      OfContains(init, task);
    }
  }

  lemma AddToGroup(runs: seq<RunEvidence>, g: Groups, run: RunEvidence)
    requires GroupsAre(runs, g)
    ensures GroupsAre(runs + [run], Added(g, run))
  {
    var g' := Added(g, run);
    assert run.task in g'.byTask && run.task in g'.names;
    assert run.task !in g.byTask ==> Of(runs, run.task) == [] by {
      OfContains(runs, run.task);
      assert Of(runs, run.task) != [] ==> Of(runs, run.task)[0] in Of(runs, run.task);
    }
    forall task | task in g'.byTask ensures g'.byTask[task] == Of(runs + [run], task) != [] {
      OfSnoc(runs, run, task);
    }
  }

  /** The second loop: the last run of each group is its latest. */
  method SummarizeGroups(le: Collation, runs: seq<RunEvidence>, g: Groups) returns (summary: map<TaskName, TaskSummary>)
    requires IsCollation(le) && Sorted(le, runs) && GroupsAre(runs, g)
    ensures Summarizes(le, runs, summary)
  {
    summary := map[];
    for i := 0 to |g.names|
      invariant forall task :: task in summary <==> task in g.names[..i]
      invariant forall task | task in summary :: EntryIsRight(le, runs, task, summary[task])
    {
      var task := g.names[i];
      var taskRuns := g.byTask[task];
      var latest := taskRuns[|taskRuns| - 1];
      LastEntryIsRight(le, runs, task);
      summary := summary[task := SummaryEntry(|taskRuns|, latest)];
      assert g.names[..i + 1] == g.names[..i] + [task];
    }
    forall task ensures task in summary <==> Of(runs, task) != [] {
      OfContains(runs, task);
      if Of(runs, task) != [] {
        assert Of(runs, task)[0] in Of(runs, task);
      }
      assert g.names[..|g.names|] == g.names;
    }
  }

  lemma LastEntryIsRight(le: Collation, runs: seq<RunEvidence>, task: TaskName)
    requires IsCollation(le) && Sorted(le, runs) && Of(runs, task) != []
    ensures EntryIsRight(le, runs, task, SummaryEntry(|Of(runs, task)|, Of(runs, task)[|Of(runs, task)| - 1]))
  {
    LastIsLatest(le, runs, task);
    EntryTells(|Of(runs, task)|, Of(runs, task)[|Of(runs, task)| - 1]);
  }

  lemma {:induction false} LastIsLatest(le: Collation, runs: seq<RunEvidence>, task: TaskName)
    requires IsCollation(le) && Sorted(le, runs) && Of(runs, task) != []
    ensures IsLatest(le, runs, task, Of(runs, task)[|Of(runs, task)| - 1])
  {
    var init, last := runs[..|runs| - 1], runs[|runs| - 1];
    assert runs == init + [last];
    RunLeIsCollation(le, last, last, last);
    if last.task != task {
      LastIsLatest(le, init, task);
    }
  }

  /* ---------- Listing order does not matter ---------- */

  lemma SameElements<T>(a: seq<T>, b: seq<T>)
    requires multiset(a) == multiset(b)
    ensures forall x :: x in a <==> x in b
  {
    forall x ensures x in a <==> x in b {
      assert x in a <==> x in multiset(a);
      assert x in b <==> x in multiset(b);
    }
  }

  lemma {:induction false} OfConcat(a: seq<RunEvidence>, b: seq<RunEvidence>, task: TaskName)
    ensures Of(a + b, task) == Of(a, task) + Of(b, task)
  {
    if b == [] {
      assert a + b == a;
    } else {
      var init, last := b[..|b| - 1], b[|b| - 1];
      assert a + b == (a + init) + [last];
      OfSnoc(a + init, last, task);
      OfConcat(a, init, task);
    }
  }

  /** Taking one run out of a list. */
  lemma TakeOut(b: seq<RunEvidence>, run: RunEvidence, task: TaskName) returns (rest: seq<RunEvidence>)
    requires run in b
    ensures multiset(b) == multiset(rest) + multiset{run}
    ensures |Of(b, task)| == |Of(rest, task)| + if run.task == task then 1 else 0
  {
    var j :| 0 <= j < |b| && b[j] == run;
    var before, after := b[..j], b[j + 1..];
    rest := before + after;
    assert b == before + [run] + after;
    OfConcat(before, after, task);
    OfConcat(before + [run], after, task);
    OfSnoc(before, run, task);
  }

  lemma {:induction false} CountOfPermutation(a: seq<RunEvidence>, b: seq<RunEvidence>, task: TaskName)
    requires multiset(a) == multiset(b)
    ensures |Of(a, task)| == |Of(b, task)|
    decreases |a|
  {
    SameElements(a, b);
    if a == [] {
      assert |b| == |multiset(b)| == |multiset(a)| == 0;
    } else {
      var init, last := a[..|a| - 1], a[|a| - 1];
      assert a == init + [last];
      assert last in a;
      var rest := TakeOut(b, last, task);
      assert multiset(rest) == multiset(b) - multiset{last};
      assert multiset(init) == multiset(a) - multiset{last};
      CountOfPermutation(init, rest, task);
    }
  }

  lemma SummaryOfPermutation(le: Collation, a: seq<RunEvidence>, b: seq<RunEvidence>, summary: map<TaskName, TaskSummary>)
    requires multiset(a) == multiset(b) && Summarizes(le, a, summary)
    ensures Summarizes(le, b, summary)
  {
    SameElements(a, b);
    forall task ensures (Of(a, task) != [] <==> Of(b, task) != []) {
      CountOfPermutation(a, b, task);
    }
    forall task | task in summary ensures EntryIsRight(le, b, task, summary[task]) {
      CountOfPermutation(a, b, task);
      assert EntryIsRight(le, a, task, summary[task]);
      var latest :| latest in a && IsLatest(le, a, task, latest) && TellsOf(summary[task], |Of(a, task)|, latest);
      assert IsLatest(le, b, task, latest);
    }
  }

  /** No two different runs have run identifiers that compare as equal. */
  predicate DistinctRunIds(le: Collation, runs: seq<RunEvidence>) {
    forall x, y | x in runs && y in runs && le(x.runId, y.runId) && le(y.runId, x.runId) :: x == y
  }

  lemma EntryIsUnique(le: Collation, runs: seq<RunEvidence>, task: TaskName, e: TaskSummary, e': TaskSummary)
    requires IsCollation(le) && DistinctRunIds(le, runs)
    requires EntryIsRight(le, runs, task, e) && EntryIsRight(le, runs, task, e')
    ensures e == e'
  {
    var x :| x in runs && IsLatest(le, runs, task, x) && TellsOf(e, |Of(runs, task)|, x);
    var y :| y in runs && IsLatest(le, runs, task, y) && TellsOf(e', |Of(runs, task)|, y);
    RunLeIsCollation(le, x, y, x);
  }

  lemma SummaryIsUnique(le: Collation, runs: seq<RunEvidence>, s: map<TaskName, TaskSummary>, s': map<TaskName, TaskSummary>)
    requires IsCollation(le) && DistinctRunIds(le, runs)
    requires Summarizes(le, runs, s) && Summarizes(le, runs, s')
    ensures s == s'
  {
    forall task | task in s ensures task in s' && s[task] == s'[task] {
      assert Of(runs, task) != [];
      EntryIsUnique(le, runs, task, s[task], s'[task]);
    }
    forall task | task in s' ensures task in s {
      assert Of(runs, task) != [];
    }
  }

  lemma {:induction false} RunsOfPermutation(a: seq<RunFile>, b: seq<RunFile>)
    requires multiset(a) == multiset(b) && BadJson !in a && BadJson !in b
    ensures multiset(Runs(a)) == multiset(Runs(b))
  {
    forall run ensures multiset(Runs(a))[run] == multiset(Runs(b))[run] {
      RunsCount(a, run);
      RunsCount(b, run);
    }
  }

  lemma {:induction false} RunsCount(files: seq<RunFile>, run: RunEvidence)
    requires BadJson !in files
    ensures multiset(Runs(files))[run] == multiset(files)[Run(run)]
  {
    if files != [] {
      var init, last := files[..|files| - 1], files[|files| - 1];
      assert files == init + [last] && last in files;
      RunsCount(init, run);
      assert Runs(files) == Runs(init) + [last.run];
    }
  }

  /**
   Reading the same files listed in any other order gives the same result, errors included,
   provided the run identifiers are distinct.
   */
  lemma ListingOrderIsIrrelevant(
      le: Collation, feature: string, config: Document<CommittedRuntime>, a: seq<RunFile>, b: seq<RunFile>,
      r: Result<RuntimeInfo, RuntimeError>, r': Result<RuntimeInfo, RuntimeError>)
    requires IsCollation(le) && multiset(a) == multiset(b)
    requires BadJson !in a ==> DistinctRunIds(le, Runs(a))
    requires Reads(le, feature, config, a, r) && Reads(le, feature, config, b, r')
    ensures r == r'
  {
    SameElements(a, b);
    if config.Parsed? && config.value.feature == feature && BadJson !in a {
      RunsOfPermutation(a, b);
      SameElements(Runs(a), Runs(b));
      if r.Ok? && r'.Ok? {
        SummaryOfPermutation(le, Runs(b), Runs(a), r'.value.summary);
        SummaryIsUnique(le, Runs(a), r.value.summary, r'.value.summary);
      }
    }
  }

  /* ---------- Counting ---------- */

  function CountIn(summary: map<TaskName, TaskSummary>, task: TaskName): nat {
    if task in summary then summary[task].runCount else 0
  }

  lemma {:induction false} EveryRunHasOneTask(runs: seq<RunEvidence>)
    ensures |Of(runs, Builder)| + |Of(runs, Reviewer)| + |Of(runs, SecurityReviewer)| + |Of(runs, Verification)| == |runs|
  {
    if runs != [] {
      EveryRunHasOneTask(runs[..|runs| - 1]);
    }
  }

  /** Every run is counted, and counted once: the run counts add up to the number of runs. */
  lemma CountsAddUp(le: Collation, runs: seq<RunEvidence>, summary: map<TaskName, TaskSummary>)
    requires Summarizes(le, runs, summary)
    ensures CountIn(summary, Builder) + CountIn(summary, Reviewer)
      + CountIn(summary, SecurityReviewer) + CountIn(summary, Verification) == |runs|
  {
    EveryRunHasOneTask(runs);
    forall task ensures CountIn(summary, task) == |Of(runs, task)| {
      if task in summary {
        assert EntryIsRight(le, runs, task, summary[task]);
      }
    }
  }
}
