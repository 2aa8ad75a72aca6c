/** Pipelines, their results, and the aggregation of results into statuses. */
module Domain {
  import opened Basics
  import opened Numerals

  // ---------- What is to be run ----------

  datatype Step = Step(name: string, run: string, timeout: int)

  datatype Job = Job(name: string, image: string, setup: seq<string>, steps: seq<Step>, env: map<string, string>)

  datatype Stage = Stage(name: string, jobs: seq<Job>)

  datatype Pipeline = Pipeline(name: string, stages: seq<Stage>)

  // ---------- What happened ----------

  datatype Status = Unknown | Pending | Running | Passed | Failed | Skipped | Errored

  function Slug(s: Status): string {
    match s
    case Unknown => ""
    case Pending => "pending"
    case Running => "running"
    case Passed => "passed"
    case Failed => "failed"
    case Skipped => "skipped"
    case Errored => "errored"
  }

  type ExitCode = Int64
  const EXIT_SUCCESS: ExitCode := 0
  const EXIT_FAILURE: ExitCode := 1
  const EXIT_NONE: ExitCode := -1

  /** The infrastructure faults a step, or a job's setup, can carry. */
  datatype Fault = EnvReadFault | CancelledFault | ExecFault | ImageFault | ContainerFault | StartFault | SetupFault

  /** `duration` is in nanoseconds. */
  datatype StepResult = StepResult(
    stepName: string, stdout: string, stderr: string, exitCode: ExitCode, duration: Int64, err: Option<Fault>)
  {
    function Status(): Status {
      if err.Some? then Errored
      else if exitCode == EXIT_SUCCESS then Passed
      else Failed
    }
  }

  datatype JobResult = JobResult(jobName: string, stepResults: seq<StepResult>, setupErr: Option<Fault>)

  datatype StageResult = StageResult(stageName: string, jobResults: seq<JobResult>, duration: Int64)

  datatype PipelineResult = PipelineResult(
    runId: string, duration: Int64, pipelineName: string, stageResults: seq<StageResult>)

  // ---------- Precedence ----------

  function StatusRank(s: Status): nat {
    match s
    case Errored => 6
    case Failed => 5
    case Unknown => 4
    case Running => 3
    case Pending => 2
    case Skipped => 1
    case Passed => 0
  }

  function WorstStatus(a: Status, b: Status): Status {
    if StatusRank(b) > StatusRank(a) then b else a
  }

  /** The highest-ranked status of a sequence; Passed when there is none. */
  function Worst(statuses: seq<Status>): (worst: Status)
    ensures worst == Passed || worst in statuses
    ensures forall s :: s in statuses ==> StatusRank(s) <= StatusRank(worst)
  {
    if statuses == [] then Passed
    else
      var init, last := statuses[..|statuses| - 1], statuses[|statuses| - 1];
      assert statuses == init + [last];
      WorstStatus(Worst(init), last)
  }

  // ---------- The leaves of a result tree ----------

  function StepStatuses(results: seq<StepResult>): (statuses: seq<Status>) {
    seq(|results|, i requires 0 <= i < |results| => results[i].Status())
  }

  /** A setup error replaces all of a job's steps; a job without steps is one Pending leaf. */
  function JobLeaves(r: JobResult): (leaves: seq<Status>)
    ensures leaves != []
  {
    if r.setupErr.Some? then [Errored]
    else if r.stepResults == [] then [Pending]
    else StepStatuses(r.stepResults)
  }

  function JobsLeaves(jobs: seq<JobResult>): (leaves: seq<Status>) {
    if jobs == [] then [] else JobsLeaves(jobs[..|jobs| - 1]) + JobLeaves(jobs[|jobs| - 1])
  }

  function StageLeaves(r: StageResult): (leaves: seq<Status>) {
    if r.jobResults == [] then [Pending] else JobsLeaves(r.jobResults)
  }

  function StagesLeaves(stages: seq<StageResult>): (leaves: seq<Status>) {
    if stages == [] then [] else StagesLeaves(stages[..|stages| - 1]) + StageLeaves(stages[|stages| - 1])
  }

  function PipelineLeaves(r: PipelineResult): (leaves: seq<Status>) {
    if r.stageResults == [] then [Pending] else StagesLeaves(r.stageResults)
  }

  // The statuses the rest of the system speaks of: the worst leaf.

  function JobStatus(r: JobResult): Status { Worst(JobLeaves(r)) }

  function StageStatus(r: StageResult): Status { Worst(StageLeaves(r)) }

  function PipelineStatus(r: PipelineResult): Status { Worst(PipelineLeaves(r)) }

  // ---------- The aggregation loops ----------

  lemma {:induction false} WorstAppend(a: seq<Status>, b: seq<Status>)
    ensures Worst(a + b) == WorstStatus(Worst(a), Worst(b))
  {
    if b == [] {
      assert a + b == a;
    } else {
      var ab := a + b;
      assert ab[..|ab| - 1] == a + b[..|b| - 1] && ab[|ab| - 1] == b[|b| - 1];
      WorstAppend(a, b[..|b| - 1]);
    }
  }

  lemma WorstOfMoreJobs(jobs: seq<JobResult>, i: nat)
    requires i < |jobs|
    ensures Worst(JobsLeaves(jobs[..i + 1])) == WorstStatus(Worst(JobsLeaves(jobs[..i])), JobStatus(jobs[i]))
  {
    assert jobs[..i + 1][..i] == jobs[..i];
    WorstAppend(JobsLeaves(jobs[..i]), JobLeaves(jobs[i]));
  }

  lemma WorstOfMoreStages(stages: seq<StageResult>, i: nat)
    requires i < |stages|
    ensures Worst(StagesLeaves(stages[..i + 1])) == WorstStatus(Worst(StagesLeaves(stages[..i])), StageStatus(stages[i]))
  {
    assert stages[..i + 1][..i] == stages[..i];
    WorstAppend(StagesLeaves(stages[..i]), StageLeaves(stages[i]));
  }

  method ComputeJobStatus(r: JobResult) returns (worst: Status)
    ensures worst == JobStatus(r)
  {
    if r.setupErr.Some? {
      return Errored;
    }
    if |r.stepResults| == 0 {
      return Pending;
    }
    worst := Passed;
    var leaves := StepStatuses(r.stepResults);
    for i := 0 to |r.stepResults|
      invariant worst == Worst(leaves[..i])
    {
      assert leaves[..i + 1][..i] == leaves[..i];
      worst := WorstStatus(worst, r.stepResults[i].Status());
    }
    assert leaves[..|r.stepResults|] == leaves;
  }

  method ComputeStageStatus(r: StageResult) returns (worst: Status)
    ensures worst == StageStatus(r)
  {
    if |r.jobResults| == 0 {
      return Pending;
    }
    worst := Passed;
    assert worst == Worst(JobsLeaves(r.jobResults[..0]));
    hide JobLeaves, JobsLeaves, WorstStatus, StepStatuses, Worst, StatusRank, JobStatus;
    for i := 0 to |r.jobResults|
      invariant worst == Worst(JobsLeaves(r.jobResults[..i]))
    {
      var s := ComputeJobStatus(r.jobResults[i]);
      WorstOfMoreJobs(r.jobResults, i);
      worst := WorstStatus(worst, s);
    }
    assert r.jobResults[..|r.jobResults|] == r.jobResults;
  }

  /** The three nested loops compute the worst status over all leaves of the tree. */
  method ComputePipelineStatus(r: PipelineResult) returns (worst: Status)
    ensures worst == PipelineStatus(r)
  {
    if |r.stageResults| == 0 {
      return Pending;
    }
    worst := Passed;
    assert worst == Worst(StagesLeaves(r.stageResults[..0]));
    hide StageLeaves, StagesLeaves, WorstStatus, Worst, StatusRank, StageStatus;
    for i := 0 to |r.stageResults|
      invariant worst == Worst(StagesLeaves(r.stageResults[..i]))
    {
      var s := ComputeStageStatus(r.stageResults[i]);
      WorstOfMoreStages(r.stageResults, i);
      worst := WorstStatus(worst, s);
    }
    assert r.stageResults[..|r.stageResults|] == r.stageResults;
  }

  function TotalDuration(results: seq<StepResult>): int {
    if results == [] then 0
    else TotalDuration(results[..|results| - 1]) + results[|results| - 1].duration
  }

  /** 64-bit additions that may wrap at every step still end at the wrapped exact sum. */
  method ComputeJobDuration(r: JobResult) returns (d: Int64)
    ensures d == Wrap64(TotalDuration(r.stepResults))
  {
    if |r.stepResults| == 0 {
      return 0;
    }
    d := 0;
    for i := 0 to |r.stepResults|
      invariant d == Wrap64(TotalDuration(r.stepResults[..i]))
    {
      assert r.stepResults[..i + 1][..i] == r.stepResults[..i];
      WrapAdd(TotalDuration(r.stepResults[..i]), r.stepResults[i].duration);
      d := Wrap64(d + r.stepResults[i].duration);
    }
    assert r.stepResults[..|r.stepResults|] == r.stepResults;
  }

  lemma WrapAdd(x: int, y: int)
    ensures Wrap64(Wrap64(x) + y) == Wrap64(x + y)
  {
    var k :| Wrap64(x) == x + k * TWO_TO_THE_64;
    var a := x + y - MIN_INT64;
    assert (a + k * TWO_TO_THE_64) % TWO_TO_THE_64 == a % TWO_TO_THE_64;
  }

  // ---------- Laws of the aggregation ----------

  /** The worst status depends only on which leaves occur. */
  lemma WorstOfSameElements(a: seq<Status>, b: seq<Status>)
    requires forall s :: s in a <==> s in b
    ensures Worst(a) == Worst(b)
  {
    var x, y := Worst(a), Worst(b);
    assert StatusRank(x) <= StatusRank(y) by {
      if x in a { assert x in b; }
    }
    assert StatusRank(y) <= StatusRank(x) by {
      if y in b { assert y in a; }
    }
  }

  lemma {:induction false} JobsLeavesMember(jobs: seq<JobResult>, s: Status)
    ensures s in JobsLeaves(jobs) <==> exists j :: j in jobs && s in JobLeaves(j)
  {
    if jobs != [] {
      var init, last := jobs[..|jobs| - 1], jobs[|jobs| - 1];
      assert jobs == init + [last];
      JobsLeavesMember(init, s);
    }
  }

  lemma {:induction false} StagesLeavesMember(stages: seq<StageResult>, s: Status)
    ensures s in StagesLeaves(stages) <==> exists g :: g in stages && s in StageLeaves(g)
  {
    if stages != [] {
      var init, last := stages[..|stages| - 1], stages[|stages| - 1];
      assert stages == init + [last];
      StagesLeavesMember(init, s);
    }
  }

  lemma StagePermutation(g: StageResult, h: StageResult)
    requires multiset(g.jobResults) == multiset(h.jobResults)
    ensures forall s :: s in StageLeaves(g) <==> s in StageLeaves(h)
    ensures StageStatus(g) == StageStatus(h)
  {
    assert |multiset(g.jobResults)| == |multiset(h.jobResults)|;
    assert forall j :: j in g.jobResults <==> j in multiset(g.jobResults);
    assert forall j :: j in h.jobResults <==> j in multiset(h.jobResults);
    forall s
      ensures s in StageLeaves(g) <==> s in StageLeaves(h)
    {
      JobsLeavesMember(g.jobResults, s);
      JobsLeavesMember(h.jobResults, s);
    }
    WorstOfSameElements(StageLeaves(g), StageLeaves(h));
  }

  /** A stage as the bag of its jobs' results. */
  function JobBags(r: PipelineResult): (bags: seq<multiset<JobResult>>) {
    seq(|r.stageResults|, i requires 0 <= i < |r.stageResults| => multiset(r.stageResults[i].jobResults))
  }

  lemma MatchingStage(p: PipelineResult, q: PipelineResult, i: nat) returns (k: nat)
    requires multiset(JobBags(p)) == multiset(JobBags(q)) && i < |p.stageResults|
    ensures k < |q.stageResults|
    ensures multiset(p.stageResults[i].jobResults) == multiset(q.stageResults[k].jobResults)
  {
    assert JobBags(p)[i] in multiset(JobBags(p));
    assert JobBags(p)[i] in JobBags(q);
    k :| 0 <= k < |JobBags(q)| && JobBags(q)[k] == JobBags(p)[i];
  }

  lemma LeafOfMatchingStage(p: PipelineResult, q: PipelineResult, s: Status)
    requires multiset(JobBags(p)) == multiset(JobBags(q))
    requires s in PipelineLeaves(p)
    ensures s in PipelineLeaves(q)
  {
    assert |multiset(JobBags(p))| == |multiset(JobBags(q))|;
    if p.stageResults != [] {
      StagesLeavesMember(p.stageResults, s);
      var i :| 0 <= i < |p.stageResults| && s in StageLeaves(p.stageResults[i]);
      var k := MatchingStage(p, q, i);
      StagePermutation(p.stageResults[i], q.stageResults[k]);
      StagesLeavesMember(q.stageResults, s);
    }
  }

  /** Reordering stages, and reordering the jobs within each stage, leaves the status alone. */
  lemma PermutationInvariance(p: PipelineResult, q: PipelineResult)
    requires multiset(JobBags(p)) == multiset(JobBags(q))
    ensures PipelineStatus(p) == PipelineStatus(q)
  {
    forall s
      ensures s in PipelineLeaves(p) <==> s in PipelineLeaves(q)
    {
      if s in PipelineLeaves(p) { LeafOfMatchingStage(p, q, s); }
      if s in PipelineLeaves(q) { LeafOfMatchingStage(q, p, s); }
    }
    WorstOfSameElements(PipelineLeaves(p), PipelineLeaves(q));
  }

  /** No leaf getting better means the whole not getting better. */
  lemma Monotonicity(p: PipelineResult, q: PipelineResult)
    requires |PipelineLeaves(p)| == |PipelineLeaves(q)|
    requires forall i :: 0 <= i < |PipelineLeaves(p)| ==>
      StatusRank(PipelineLeaves(p)[i]) <= StatusRank(PipelineLeaves(q)[i])
    ensures StatusRank(PipelineStatus(p)) <= StatusRank(PipelineStatus(q))
  {
    var worst := PipelineStatus(p);
    if worst in PipelineLeaves(p) {
      var i :| 0 <= i < |PipelineLeaves(p)| && PipelineLeaves(p)[i] == worst;
      assert PipelineLeaves(q)[i] in PipelineLeaves(q);
    }
  }

  // ---------- Statuses, read off the results themselves ----------

  ghost predicate StepFaulty(r: StepResult) { r.err.Some? }
  ghost predicate StepFails(r: StepResult) { r.err.None? && r.exitCode != 0 }

  /** Its setup failed, or some step hit an infrastructure fault. */
  ghost predicate JobFaulty(r: JobResult) {
    r.setupErr.Some? || exists s :: s in r.stepResults && StepFaulty(s)
  }

  /** It got to its steps, and some process exited non-zero. */
  ghost predicate JobFails(r: JobResult) {
    r.setupErr.None? && exists s :: s in r.stepResults && StepFails(s)
  }

  /** It has steps, and every process exited zero. */
  ghost predicate JobSucceeds(r: JobResult) {
    r.setupErr.None? && r.stepResults != [] && forall s :: s in r.stepResults ==> s.err.None? && s.exitCode == 0
  }

  ghost predicate StageFaulty(r: StageResult) { exists j :: j in r.jobResults && JobFaulty(j) }
  ghost predicate StageFails(r: StageResult) { exists j :: j in r.jobResults && JobFails(j) }
  ghost predicate StageSucceeds(r: StageResult) {
    r.jobResults != [] && forall j :: j in r.jobResults ==> JobSucceeds(j)
  }

  ghost predicate PipelineFaulty(r: PipelineResult) { exists s :: s in r.stageResults && StageFaulty(s) }
  ghost predicate PipelineFails(r: PipelineResult) { exists s :: s in r.stageResults && StageFails(s) }
  ghost predicate PipelineSucceeds(r: PipelineResult) {
    r.stageResults != [] && forall s :: s in r.stageResults ==> StageSucceeds(s)
  }

  /** The status that goes with these three facts; Pending if none holds. */
  predicate StatusFits(status: Status, faulty: bool, fails: bool, succeeds: bool) {
    && (status == Errored <==> faulty)
    && (status == Failed <==> !faulty && fails)
    && (status == Passed <==> succeeds)
    && (status == Pending <==> !faulty && !fails && !succeeds)
  }

  lemma StepStatusesMember(results: seq<StepResult>, s: Status)
    ensures s in StepStatuses(results) <==> exists r :: r in results && r.Status() == s
  {
    if r :| r in results && r.Status() == s {
      var i :| 0 <= i < |results| && results[i] == r;
      assert StepStatuses(results)[i] == s;
    }
  }

  lemma LeavesOfJob(r: JobResult)
    ensures Errored in JobLeaves(r) <==> JobFaulty(r)
    ensures Failed in JobLeaves(r) <==> JobFails(r)
    ensures (forall s :: s in JobLeaves(r) ==> s == Passed) <==> JobSucceeds(r)
    ensures forall s :: s in JobLeaves(r) ==> s in {Errored, Failed, Passed, Pending}
  {
    hide StepStatuses;
    forall s
      ensures s in StepStatuses(r.stepResults) <==> exists t :: t in r.stepResults && t.Status() == s
    {
      StepStatusesMember(r.stepResults, s);
    }
    if r.setupErr.Some? {
      assert JobLeaves(r) == [Errored] && Errored in JobLeaves(r);
    } else if r.stepResults == [] {
      assert JobLeaves(r) == [Pending] && Pending in JobLeaves(r);
    } else {
      assert JobLeaves(r) == StepStatuses(r.stepResults);
      assert forall t :: t in r.stepResults ==> t.Status() in JobLeaves(r);
      assert forall t :: t in r.stepResults ==> (t.Status() == Passed <==> t.err.None? && t.exitCode == 0);
    }
  }

  /** The worst of leaves of these four kinds. */
  lemma WorstFits(leaves: seq<Status>, faulty: bool, fails: bool, succeeds: bool)
    requires leaves != [] && forall s :: s in leaves ==> s in {Errored, Failed, Passed, Pending}
    requires Errored in leaves <==> faulty
    requires Failed in leaves <==> fails
    requires (forall s :: s in leaves ==> s == Passed) <==> succeeds
    ensures StatusFits(Worst(leaves), faulty, fails, succeeds)
  {
    assert leaves[0] in leaves;
  }

  /** Errored for a failed setup or a fault, else Failed for a non-zero exit, Pending without
      steps, else Passed. */
  lemma JobStatusInWords(r: JobResult)
    ensures StatusFits(JobStatus(r), JobFaulty(r), JobFails(r), JobSucceeds(r))
  {
    LeavesOfJob(r);
    WorstFits(JobLeaves(r), JobFaulty(r), JobFails(r), JobSucceeds(r));
  }

  lemma LeavesOfStage(r: StageResult)
    ensures Errored in StageLeaves(r) <==> StageFaulty(r)
    ensures Failed in StageLeaves(r) <==> StageFails(r)
    ensures (forall s :: s in StageLeaves(r) ==> s == Passed) <==> StageSucceeds(r)
    ensures forall s :: s in StageLeaves(r) ==> s in {Errored, Failed, Passed, Pending}
    ensures StageLeaves(r) != []
  {
    hide JobLeaves, JobFaulty, JobFails, JobSucceeds;
    forall j
      ensures Errored in JobLeaves(j) <==> JobFaulty(j)
      ensures Failed in JobLeaves(j) <==> JobFails(j)
      ensures (forall s :: s in JobLeaves(j) ==> s == Passed) <==> JobSucceeds(j)
      ensures forall s :: s in JobLeaves(j) ==> s in {Errored, Failed, Passed, Pending}
    {
      LeavesOfJob(j);
    }
    forall s
      ensures s in JobsLeaves(r.jobResults) <==> exists j :: j in r.jobResults && s in JobLeaves(j)
    {
      JobsLeavesMember(r.jobResults, s);
    }
    if r.jobResults != [] {
      var j := r.jobResults[0];
      assert j in r.jobResults && JobLeaves(j)[0] in JobLeaves(j);
      if forall s :: s in StageLeaves(r) ==> s == Passed {
        forall x | x in r.jobResults
          ensures JobSucceeds(x)
        {
          assert forall s :: s in JobLeaves(x) ==> s in StageLeaves(r);
        }
      }
    } else {
      assert Pending in StageLeaves(r);
    }
  }

  lemma StageStatusInWords(r: StageResult)
    ensures StatusFits(StageStatus(r), StageFaulty(r), StageFails(r), StageSucceeds(r))
  {
    hide StageLeaves, StageFaulty, StageFails, StageSucceeds;
    LeavesOfStage(r);
    WorstFits(StageLeaves(r), StageFaulty(r), StageFails(r), StageSucceeds(r));
  }

  lemma LeavesOfPipeline(r: PipelineResult)
    ensures Errored in PipelineLeaves(r) <==> PipelineFaulty(r)
    ensures Failed in PipelineLeaves(r) <==> PipelineFails(r)
    ensures (forall s :: s in PipelineLeaves(r) ==> s == Passed) <==> PipelineSucceeds(r)
    ensures forall s :: s in PipelineLeaves(r) ==> s in {Errored, Failed, Passed, Pending}
    ensures PipelineLeaves(r) != []
  {
    hide StageLeaves, StageFaulty, StageFails, StageSucceeds;
    forall g
      ensures Errored in StageLeaves(g) <==> StageFaulty(g)
      ensures Failed in StageLeaves(g) <==> StageFails(g)
      ensures (forall s :: s in StageLeaves(g) ==> s == Passed) <==> StageSucceeds(g)
      ensures forall s :: s in StageLeaves(g) ==> s in {Errored, Failed, Passed, Pending}
      ensures StageLeaves(g) != []
    {
      LeavesOfStage(g);
    }
    forall s
      ensures s in StagesLeaves(r.stageResults) <==> exists g :: g in r.stageResults && s in StageLeaves(g)
    {
      StagesLeavesMember(r.stageResults, s);
    }
    if r.stageResults != [] {
      var g := r.stageResults[0];
      assert g in r.stageResults && StageLeaves(g)[0] in StageLeaves(g);
      if forall s :: s in PipelineLeaves(r) ==> s == Passed {
        forall x | x in r.stageResults
          ensures StageSucceeds(x)
        {
          assert forall s :: s in StageLeaves(x) ==> s in PipelineLeaves(r);
        }
      }
    } else {
      assert Pending in PipelineLeaves(r);
    }
  }

  /** A pipeline's status, from the exit codes and faults of its steps and jobs. */
  lemma PipelineStatusInWords(r: PipelineResult)
    ensures StatusFits(PipelineStatus(r), PipelineFaulty(r), PipelineFails(r), PipelineSucceeds(r))
  {
    hide PipelineLeaves, PipelineFaulty, PipelineFails, PipelineSucceeds;
    LeavesOfPipeline(r);
    WorstFits(PipelineLeaves(r), PipelineFaulty(r), PipelineFails(r), PipelineSucceeds(r));
  }

  /** Worst first: Errored, Failed, Unknown, Running, Pending, Skipped, Passed. */
  lemma Precedence(i: nat, j: nat)
    requires i < j < 7
    ensures var order := [Errored, Failed, Unknown, Running, Pending, Skipped, Passed];
      WorstStatus(order[i], order[j]) == WorstStatus(order[j], order[i]) == order[i]
  {
  }

  /** Durations add up. */
  lemma {:induction false} TotalDurationAdds(a: seq<StepResult>, b: seq<StepResult>)
    ensures TotalDuration(a + b) == TotalDuration(a) + TotalDuration(b)
    ensures |a| == 1 ==> TotalDuration(a) == a[0].duration
  {
    if |a| == 1 {
      assert a[..0] == [];
    }
    if b == [] {
      assert a + b == a;
    } else {
      var ab := a + b;
      assert ab[..|ab| - 1] == a + b[..|b| - 1] && ab[|ab| - 1] == b[|b| - 1];
      TotalDurationAdds(a, b[..|b| - 1]);
    }
  }

  /** The precedence pinned by the documentation, read back from any result tree. */
  lemma StatusCharacterised(r: PipelineResult)
    ensures PipelineStatus(r) == Errored <==> Errored in PipelineLeaves(r)
    ensures PipelineStatus(r) == Failed <==> Failed in PipelineLeaves(r) && Errored !in PipelineLeaves(r)
    ensures PipelineStatus(r) == Passed <==> forall s :: s in PipelineLeaves(r) ==> s == Passed
  {
    var leaves := PipelineLeaves(r);
    assert forall s: Status :: StatusRank(s) <= StatusRank(Errored);
    assert forall s: Status :: s != Errored ==> StatusRank(s) <= StatusRank(Failed);
    assert forall s: Status :: StatusRank(s) <= StatusRank(Passed) ==> s == Passed;
  }
}
