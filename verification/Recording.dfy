/**
 From the run to the database: the rows that recording a stream leaves are the results of
 the runs that published it.
 */
module Recording {
  import opened Basics
  import opened Numerals
  import opened Domain
  import opened Events
  import opened Bus
  import opened Runner
  import opened Jobs
  import opened StepMachine
  import opened Interleavings
  import opened Orchestrator
  import opened Tables
  import opened Cells
  import opened Replay
  import opened Traces

  // ---------- What the database should say ----------

  function StepColumns(r: StepResult): StepInfo {
    StepInfo(Slug(r.Status()), if r.exitCode == EXIT_NONE then None else Some(r.exitCode), Some(Milliseconds(r.duration)))
  }

  /** The last of the results that carry a step's name. */
  function LastNamed(results: seq<StepResult>, name: string): Option<StepResult> {
    if results == [] then None
    else if results[|results| - 1].stepName == name then Some(results[|results| - 1])
    else LastNamed(results[..|results| - 1], name)
  }

  function StepRowOfResults(results: seq<StepResult>, name: string): Option<StepInfo> {
    match LastNamed(results, name)
    case None => None
    case Some(r) => Some(StepColumns(r))
  }

  function ExpectedRun(p: Pipeline, w: RunWorld, runId: string): RunInfo {
    RunInfo(p.name, Slug(PipelineStatus(PipelineResultOf(p, w, runId))), w.startedAt, Some(w.finishedAt))
  }

  function ExpectedJob(job: Job, w: JobWorld, stage: string): JobInfo {
    JobInfo(stage, Slug(JobStatus(RunJob(job, w).result)), w.startedAt, Some(w.finishedAt))
  }

  /** The rows agree with what ran: the run's row holds the result's status; every job of every
      executed stage has its row, with its stage and status; every step that has a result has
      its row, with the columns of its last result; and no other job or step has one. */
  ghost predicate Agrees(c: Cell, k: Key, p: Pipeline, w: RunWorld) {
    && c.run == Some(ExpectedRun(p, w, k.run))
    && (forall s, i :: 0 <= s < Executed(p, w) && JobIn(p, s, i, k.job) ==>
          JobAgrees(c, k, p.stages[s].jobs[i], w.stages(s).jobs(i), p.stages[s].name))
    && ((forall s, i :: 0 <= s < Executed(p, w) ==> !JobIn(p, s, i, k.job)) ==> c.job == None && c.step == None)
  }

  predicate JobAgrees(c: Cell, k: Key, job: Job, w: JobWorld, stage: string) {
    && c.job == Some(ExpectedJob(job, w, stage))
    && c.step == StepRowOfResults(RunJob(job, w).result.stepResults, k.step)
  }

  // ---------- The cell of one job ----------

  lemma {:induction false} RecordCellAllAppend(c: Cell, a: seq<Event>, b: seq<Event>, k: Key)
    ensures RecordCellAll(c, a + b, k) == RecordCellAll(RecordCellAll(c, a, k), b, k)
  {
    hide RecordCell;
    if b == [] {
      assert a + b == a;
    } else {
      var ab := a + b;
      assert ab[..|ab| - 1] == a + b[..|b| - 1] && ab[|ab| - 1] == b[|b| - 1];
      RecordCellAllAppend(c, a, b[..|b| - 1], k);
    }
  }

  lemma RecordOneCell(c: Cell, e: Event, k: Key)
    ensures RecordCellAll(c, [e], k) == RecordCell(c, e, k)
  {
    hide RecordCell;
    assert [e][..0] == [];
  }

  /** A step's block records its last result, over whatever the step's row held before. */
  lemma StepBlockRecorded(c: Cell, job: string, step: Step, w: StepWorld, pipeline: string, runId: string, k: Key)
    requires c.run.Some? && c.job.Some? && runId == k.run && job == k.job
    ensures var r := RunStep(step, w).results;
      RecordCellAll(c, StampAll(StepEvents(job, step, w), pipeline, runId), k) ==
        if step.name == k.step then c.(step := Some(StepColumns(r[|r| - 1]))) else c
  {
    hide StampAll, StepEvents, RunStep, NumberOk, Number, RecordCellAll;
    StepHasShape(step, w);
    var r := RunStep(step, w).results;
    var block := StepBlock(job, step, w, pipeline, runId);
    RecordOneCell(c, block[0], k);
    var c1 := RecordCell(c, block[0], k);
    RecordOneCell(c1, block[1], k);
    var c2 := RecordCell(c1, block[1], k);
    RecordCellAllAppend(c, [block[0]], [block[1]], k);
    if |block| == 2 {
      assert block == [block[0]] + [block[1]];
    } else {
      RecordOneCell(c2, block[2], k);
      RecordCellAllAppend(c, [block[0]] + [block[1]], [block[2]], k);
      assert block == [block[0]] + [block[1]] + [block[2]];
    }
  }

  lemma LastNamedAppend(results: seq<StepResult>, more: seq<StepResult>, step: Step, name: string)
    requires 1 <= |more| <= 2 && more[0].stepName == step.name && more[|more| - 1].stepName == step.name
    ensures LastNamed(results + more, name) == if step.name == name then Some(more[|more| - 1]) else LastNamed(results, name)
  {
    var all := results + more;
    assert all[|all| - 1] == more[|more| - 1];
    if |more| == 1 {
      assert all[..|all| - 1] == results;
    } else {
      var one := all[..|all| - 1];
      assert one[|one| - 1] == more[0] && one[..|one| - 1] == results;
    }
  }

  lemma {:induction false} StepsRecorded(
      c: Cell, job: Job, steps: nat -> StepWorld, n: nat, pipeline: string, runId: string, k: Key)
    requires c.run.Some? && c.job.Some? && c.step.None? && runId == k.run && job.name == k.job
    requires n <= |job.steps| && RunUpTo(job, steps, n).executed == n
    ensures RecordCellAll(c, StampAll(EventsUpTo(job, steps, n), pipeline, runId), k) ==
      c.(step := StepRowOfResults(RunUpTo(job, steps, n).results, k.step))
  {
    hide StampAll, StepEvents, RunStep, StepColumns, LastNamed;
    if n == 0 {
      assert StampAll(EventsUpTo(job, steps, 0), pipeline, runId) == [];
      NothingNamed(k.step);
    } else {
      StepsRecorded(c, job, steps, n - 1, pipeline, runId, k);
      var before := StampAll(EventsUpTo(job, steps, n - 1), pipeline, runId);
      var now := StampAll(StepEvents(job.name, job.steps[n - 1], steps(n - 1)), pipeline, runId);
      StampConcat(EventsUpTo(job, steps, n - 1), StepEvents(job.name, job.steps[n - 1], steps(n - 1)), pipeline, runId);
      RecordCellAllAppend(c, before, now, k);
      StepBlockRecorded(RecordCellAll(c, before, k), job.name, job.steps[n - 1], steps(n - 1), pipeline, runId, k);
      StepHasShape(job.steps[n - 1], steps(n - 1));
      LastNamedAppend(RunUpTo(job, steps, n - 1).results, RunStep(job.steps[n - 1], steps(n - 1)).results,
        job.steps[n - 1], k.step);
    }
  }

  lemma NothingNamed(name: string)
    ensures LastNamed([], name) == None
  {
  }

  /** A whole job, recorded after its run has started. */
  lemma JobRecorded(c: Cell, job: Job, w: JobWorld, stage: string, pipeline: string, runId: string, k: Key)
    requires c.run.Some? && c.job.None? && c.step.None? && runId == k.run && job.name == k.job
    ensures RecordCellAll(c, JobTrace(job, w, stage, pipeline, runId), k) ==
      Cell(c.run, Some(ExpectedJob(job, w, stage)), StepRowOfResults(RunJob(job, w).result.stepResults, k.step))
  {
    hide RecordCellAll, RunUpTo, EventsUpTo, StampAll, JobStatus, StepRowOfResults;
    var start := JobStartedEvent(job, w, stage, pipeline, runId);
    var steps := StampAll(RunJob(job, w).events, pipeline, runId);
    var finish := JobFinishedEvent(job, w, JobStatus(RunJob(job, w).result), pipeline, runId);
    RecordOneCell(c, start, k);
    var c1 := RecordCell(c, start, k);
    RecordCellAllAppend(c, [start], steps, k);
    if SetupStops(job, w).None? {
      ExecutedRounds(job, w.steps, |job.steps|);
      StepsRecorded(c1, job, w.steps, RunAll(job, w.steps).executed, pipeline, runId, k);
    } else {
      NoStepsRecorded(c1, pipeline, runId, k);
    }
    var c2 := RecordCellAll(c1, steps, k);
    RecordOneCell(c2, finish, k);
    RecordCellAllAppend(c, [start] + steps, [finish], k);
  }

  lemma NoStepsRecorded(c: Cell, pipeline: string, runId: string, k: Key)
    ensures RecordCellAll(c, StampAll([], pipeline, runId), k) == c
    ensures StepRowOfResults([], k.step) == None
  {
    assert StampAll([], pipeline, runId) == [];
  }

  // ---------- The cell of a whole run ----------

  lemma RunRecorded(t: seq<Event>, p: Pipeline, w: RunWorld, k: Key)
    requires IsRunTrace(t, p, w, k.run) && UniqueJobNames(p) && k.run != ""
    ensures Agrees(RecordCellAll(NO_CELL, t, k), k, p, w)
  {
    hide IsRunTrace, UniqueJobNames, RecordCellAll, PipelineResultOf, PipelineStatus, JobTrace, Executed, ExpectedJob,
      StepRowOfResults, RunJob;
    CellIgnoresTheRest(NO_CELL, t, k, Concerning(k));
    var start := PipelineStartedEvent(p, w, k.run);
    var finish := PipelineFinishedEvent(p, w, k.run, PipelineStatus(PipelineResultOf(p, w, k.run)));
    RecordOneCell(NO_CELL, start, k);
    var c1 := RecordCell(NO_CELL, start, k);
    if s, i :| 0 <= s < Executed(p, w) && JobIn(p, s, i, k.job) {
      JobProjection(t, p, w, k.run, s, i, k);
      var job, jw, stage := p.stages[s].jobs[i], w.stages(s).jobs(i), p.stages[s].name;
      var trace := JobTrace(job, jw, stage, p.name, k.run);
      JobRecorded(c1, job, jw, stage, p.name, k.run, k);
      RecordCellAllAppend(NO_CELL, [start], trace, k);
      RecordCellAllAppend(NO_CELL, [start] + trace, [finish], k);
      RecordOneCell(RecordCellAll(c1, trace, k), finish, k);
      assert forall u, j :: 0 <= u < Executed(p, w) && JobIn(p, u, j, k.job) ==> u == s && j == i by {
        OnlyOneJob(p, s, i, k.job);
      }
    } else {
      NoProjection(t, p, w, k.run, k);
      RecordCellAllAppend(NO_CELL, [start], [finish], k);
      RecordOneCell(c1, finish, k);
    }
  }

  lemma OnlyOneJob(p: Pipeline, s: int, i: int, name: string)
    requires UniqueJobNames(p) && JobIn(p, s, i, name)
    ensures forall u, j :: JobIn(p, u, j, name) ==> u == s && j == i
  {
  }

  // ---------- The stream of many runs ----------

  ghost predicate DistinctRuns(runs: seq<RunSpec>) {
    forall i, j :: 0 <= i < j < |runs| ==> runs[i].runId != runs[j].runId
  }

  lemma RunProjection(stream: seq<Event>, traces: seq<seq<Event>>, runs: seq<RunSpec>, i: nat)
    requires StreamOf(stream, traces, runs) && DistinctRuns(runs) && i < |runs|
    ensures Filter(stream, OfRun(runs[i].runId)) == traces[i]
  {
    hide IsRunTrace, Ordered, Recordable;
    var tags :| Merges(stream, tags, traces);
    forall q, x | 0 <= q < |traces| && x in traces[q]
      ensures OfRun(runs[i].runId)(x) <==> q == i
    {
      RunTraceIsOrdered({}, traces[q], runs[q].pipeline, runs[q].world, runs[q].runId);
      assert OfRunAndPipeline(x, runs[q].runId, runs[q].pipeline.name);
    }
    FilterMerge(stream, tags, traces, i, OfRun(runs[i].runId));
    FilterAll(traces[i], OfRun(runs[i].runId));
  }

  lemma NoRunProjection(stream: seq<Event>, traces: seq<seq<Event>>, runs: seq<RunSpec>, run: string)
    requires StreamOf(stream, traces, runs) && forall i :: 0 <= i < |runs| ==> runs[i].runId != run
    ensures Filter(stream, OfRun(run)) == []
  {
    hide IsRunTrace, Ordered, Recordable;
    var tags :| Merges(stream, tags, traces);
    forall q, x | 0 <= q < |traces| && x in traces[q]
      ensures !OfRun(run)(x)
    {
      RunTraceIsOrdered({}, traces[q], runs[q].pipeline, runs[q].world, runs[q].runId);
      assert OfRunAndPipeline(x, runs[q].runId, runs[q].pipeline.name);
    }
    FilterMergeNone(stream, tags, traces, OfRun(run));
  }

  lemma UnknownRunHasNoCell(db: Db, k: Key)
    requires FindRun(db, k.run).None?
    ensures CellOf(db, k) == NO_CELL
  {
  }

  /** End to end. Any number of runs with distinct ids publish on one healthy bus, their jobs
      and the runs themselves interleaved in any way; the recorder is fed the stream in order,
      over a database that does not know these runs. Then the rows of every run agree with its
      result, and all other rows are as they were. */
  lemma StreamRecorded(db: Db, stream: seq<Event>, traces: seq<seq<Event>>, runs: seq<RunSpec>)
    requires Integrity(db) && StreamOf(stream, traces, runs) && DistinctRuns(runs)
    requires forall i :: 0 <= i < |runs| ==> UniqueJobNames(runs[i].pipeline) && FindRun(db, runs[i].runId).None?
    ensures forall i: int, k: Key :: 0 <= i < |runs| && k.run == runs[i].runId ==>
      Agrees(CellOf(RecordAll(db, stream), k), k, runs[i].pipeline, runs[i].world)
    ensures forall k: Key :: (forall i :: 0 <= i < |runs| ==> runs[i].runId != k.run) ==>
      CellOf(RecordAll(db, stream), k) == CellOf(db, k)
  {
    hide IsRunTrace, UniqueJobNames, Agrees, RecordCellAll, CellOf, Integrity, Interleaving;
    forall k
      ensures CellOf(RecordAll(db, stream), k) == RecordCellAll(CellOf(db, k), Filter(stream, OfRun(k.run)), k)
    {
      RecordAllRefinesCell(db, stream, k);
      CellIgnoresTheRest(CellOf(db, k), stream, k, OfRun(k.run));
    }
    forall i: int, k: Key | 0 <= i < |runs| && k.run == runs[i].runId
      ensures Agrees(CellOf(RecordAll(db, stream), k), k, runs[i].pipeline, runs[i].world)
    {
      RunProjection(stream, traces, runs, i);
      UnknownRunHasNoCell(db, k);
      RunRecorded(traces[i], runs[i].pipeline, runs[i].world, k);
    }
    forall k: Key | forall i :: 0 <= i < |runs| ==> runs[i].runId != k.run
      ensures CellOf(RecordAll(db, stream), k) == CellOf(db, k)
    {
      NoRunProjection(stream, traces, runs, k.run);
      NothingRecorded(CellOf(db, k), k);
    }
  }

  lemma NothingRecorded(c: Cell, k: Key)
    ensures RecordCellAll(c, [], k) == c
  {
  }

  /** And redelivering any suffixes of the stream, any number of times, changes no row. */
  lemma StreamReplayed(db: Db, stream: seq<Event>, traces: seq<seq<Event>>, runs: seq<RunSpec>, cuts: seq<nat>)
    requires Integrity(db) && StreamOf(stream, traces, runs)
    requires forall i :: 0 <= i < |cuts| ==> cuts[i] <= |stream|
    ensures RecordAll(RecordAll(db, stream), Suffixes(stream, cuts)) == RecordAll(db, stream)
  {
    hide StreamOf, Ordered, Integrity, Recordable;
    StreamIsOrdered({}, stream, traces, runs);
    RepeatedReplay({}, db, stream, cuts);
  }

  // ---------- The rows in plain words ----------

  /** Whole milliseconds of a duration in nanoseconds, cut toward zero. */
  predicate Truncates(ms: int, d: int) {
    if d >= 0 then 1_000_000 * ms <= d < 1_000_000 * (ms + 1) else 1_000_000 * (ms - 1) < d <= 1_000_000 * ms
  }

  predicate SaysStatus(text: string, faulty: bool, fails: bool, succeeds: bool) {
    && (text == "errored" <==> faulty)
    && (text == "failed" <==> !faulty && fails)
    && (text == "passed" <==> succeeds)
    && (text == "pending" <==> !faulty && !fails && !succeeds)
  }

  ghost predicate RunRowSays(row: RunRow, p: Pipeline, w: RunWorld, runId: string) {
    var r := PipelineResultOf(p, w, runId);
    && row.runId == runId && row.pipeline == p.name
    && row.startedAt == w.startedAt && row.finishedAt == Some(w.finishedAt)
    && SaysStatus(row.status, PipelineFaulty(r), PipelineFails(r), PipelineSucceeds(r))
  }

  ghost predicate JobRowSays(row: JobRow, stage: string, job: Job, w: JobWorld) {
    var r := RunJob(job, w).result;
    && row.name == job.name && row.stage == stage
    && row.startedAt == w.startedAt && row.finishedAt == Some(w.finishedAt)
    && SaysStatus(row.status, JobFaulty(r), JobFails(r), JobSucceeds(r))
  }

  ghost predicate StepRowSays(row: StepRow, r: StepResult) {
    && row.name == r.stepName
    && row.status == (if r.err.Some? then "errored" else if r.exitCode == 0 then "passed" else "failed")
    && row.exitCode == (if r.exitCode == -1 then None else Some(r.exitCode))
    && row.durationMs.Some? && Truncates(row.durationMs.value, r.duration)
  }

  /** The last result of its name. */
  predicate LastOfName(results: seq<StepResult>, m: nat) {
    m < |results| && forall n :: m < n < |results| ==> results[n].stepName != results[m].stepName
  }

  lemma MillisecondsTruncate(d: Int64)
    ensures Truncates(Milliseconds(d), d)
  {
  }

  lemma SlugSays(status: Status, faulty: bool, fails: bool, succeeds: bool)
    requires StatusFits(status, faulty, fails, succeeds)
    ensures SaysStatus(Slug(status), faulty, fails, succeeds)
  {
  }

  lemma {:induction false} LastNamedIsLast(results: seq<StepResult>, m: nat)
    requires LastOfName(results, m)
    ensures LastNamed(results, results[m].stepName) == Some(results[m])
  {
    if m < |results| - 1 {
      LastNamedIsLast(results[..|results| - 1], m);
    }
  }

  lemma {:induction false} NoneNamed(results: seq<StepResult>, name: string)
    requires forall r :: r in results ==> r.stepName != name
    ensures LastNamed(results, name) == None
  {
    if results != [] {
      NoneNamed(results[..|results| - 1], name);
    }
  }

  lemma RunRowInWords(db: Db, k: Key, p: Pipeline, w: RunWorld)
    requires Agrees(CellOf(db, k), k, p, w)
    ensures FindRun(db, k.run).Some? && RunRowSays(FindRun(db, k.run).value, p, w, k.run)
  {
    hide PipelineStatus, PipelineResultOf, PipelineFaulty, PipelineFails, PipelineSucceeds, Slug;
    var r := PipelineResultOf(p, w, k.run);
    PipelineStatusInWords(r);
    SlugSays(PipelineStatus(r), PipelineFaulty(r), PipelineFails(r), PipelineSucceeds(r));
  }

  lemma JobRowInWords(db: Db, k: Key, p: Pipeline, w: RunWorld, s: nat, j: nat)
    requires Agrees(CellOf(db, k), k, p, w) && s < Executed(p, w) && JobIn(p, s, j, k.job)
    ensures FindJob(db, k.run, k.job).Some?
    ensures JobRowSays(FindJob(db, k.run, k.job).value, p.stages[s].name, p.stages[s].jobs[j], w.stages(s).jobs(j))
  {
    hide JobStatus, RunJob, JobFaulty, JobFails, JobSucceeds, Slug, Executed;
    var r := RunJob(p.stages[s].jobs[j], w.stages(s).jobs(j)).result;
    JobStatusInWords(r);
    SlugSays(JobStatus(r), JobFaulty(r), JobFails(r), JobSucceeds(r));
    assert JobAgrees(CellOf(db, k), k, p.stages[s].jobs[j], w.stages(s).jobs(j), p.stages[s].name);
  }

  /** A step name has a row if and only if a result has it, and the row tells the last one. */
  ghost predicate StepRowsSay(db: Db, runId: string, job: string, name: string, results: seq<StepResult>) {
    var found := FindStep(db, runId, job, name);
    && ((forall r :: r in results ==> r.stepName != name) ==> found == None)
    && (forall m: nat :: LastOfName(results, m) && results[m].stepName == name ==>
          found.Some? && StepRowSays(found.value, results[m]))
  }

  ghost predicate JobRowsSay(db: Db, runId: string, stage: string, job: Job, w: JobWorld, name: string) {
    && FindJob(db, runId, job.name).Some? && JobRowSays(FindJob(db, runId, job.name).value, stage, job, w)
    && StepRowsSay(db, runId, job.name, name, RunJob(job, w).result.stepResults)
  }

  lemma StepRowIs(db: Db, k: Key, results: seq<StepResult>)
    requires CellOf(db, k).step == StepRowOfResults(results, k.step)
    ensures StepRowsSay(db, k.run, k.job, k.step, results)
  {
    hide LastNamed, Milliseconds, Truncates, FindJob;
    var found := FindStep(db, k.run, k.job, k.step);
    if forall r :: r in results ==> r.stepName != k.step {
      NoneNamed(results, k.step);
    }
    forall m: nat | LastOfName(results, m) && results[m].stepName == k.step
      ensures found.Some? && StepRowSays(found.value, results[m])
    {
      LastNamedIsLast(results, m);
      MillisecondsTruncate(results[m].duration);
    }
  }

  ghost predicate JobsSay(db: Db, run: RunSpec, s: nat, j: nat, name: string) {
    var p, w := run.pipeline, run.world;
    s < Executed(p, w) && j < |p.stages[s].jobs| ==>
      JobRowsSay(db, run.runId, p.stages[s].name, p.stages[s].jobs[j], w.stages(s).jobs(j), name)
  }

  /** No other job has a row. */
  ghost predicate OtherJobsSay(db: Db, run: RunSpec, name: string) {
    (forall s, j :: 0 <= s < Executed(run.pipeline, run.world) ==> !JobIn(run.pipeline, s, j, name)) ==>
      FindJob(db, run.runId, name) == None
  }

  ghost predicate RunSays(db: Db, run: RunSpec) {
    FindRun(db, run.runId).Some? && RunRowSays(FindRun(db, run.runId).value, run.pipeline, run.world, run.runId)
  }

  lemma AgreesInWords(db: Db, run: RunSpec, s: nat, j: nat, name: string)
    requires forall k: Key :: k.run == run.runId ==> Agrees(CellOf(db, k), k, run.pipeline, run.world)
    ensures RunSays(db, run) && OtherJobsSay(db, run, name) && JobsSay(db, run, s, j, name)
  {
    hide Agrees, CellOf, RunRowSays, JobRowSays, StepRowsSay, Executed, RunJob;
    var p, w := run.pipeline, run.world;
    var k := Key(run.runId, name, "");
    RunRowInWords(db, k, p, w);
    NoJobRow(db, k, p, w);
    if s < Executed(p, w) && j < |p.stages[s].jobs| {
      var k := Key(run.runId, p.stages[s].jobs[j].name, name);
      assert JobIn(p, s, j, k.job);
      JobRowInWords(db, k, p, w, s, j);
      StepCellIs(db, k, p, w, s, j);
      StepRowIs(db, k, RunJob(p.stages[s].jobs[j], w.stages(s).jobs(j)).result.stepResults);
    }
  }

  lemma StepCellIs(db: Db, k: Key, p: Pipeline, w: RunWorld, s: nat, j: nat)
    requires Agrees(CellOf(db, k), k, p, w) && s < Executed(p, w) && JobIn(p, s, j, k.job)
    ensures CellOf(db, k).step == StepRowOfResults(RunJob(p.stages[s].jobs[j], w.stages(s).jobs(j)).result.stepResults, k.step)
  {
    hide RunJob, Executed, CellOf, StepRowOfResults, ExpectedRun;
    assert JobAgrees(CellOf(db, k), k, p.stages[s].jobs[j], w.stages(s).jobs(j), p.stages[s].name);
  }

  lemma NoJobRow(db: Db, k: Key, p: Pipeline, w: RunWorld)
    requires Agrees(CellOf(db, k), k, p, w)
    ensures (forall s, j :: 0 <= s < Executed(p, w) ==> !JobIn(p, s, j, k.job)) ==> FindJob(db, k.run, k.job) == None
  {
  }

  /** StreamRecorded in the words of the tables: which rows there are, and their texts, times
      and numbers, from the results of the runs alone. */
  lemma RowsInWords(
      db: Db, stream: seq<Event>, traces: seq<seq<Event>>, runs: seq<RunSpec>, i: nat, s: nat, j: nat, name: string)
    requires Integrity(db) && StreamOf(stream, traces, runs) && DistinctRuns(runs) && i < |runs|
    requires forall i :: 0 <= i < |runs| ==> UniqueJobNames(runs[i].pipeline) && FindRun(db, runs[i].runId).None?
    ensures var end := RecordAll(db, stream);
      RunSays(end, runs[i]) && OtherJobsSay(end, runs[i], name) && JobsSay(end, runs[i], s, j, name)
  {
    hide Integrity, StreamOf, DistinctRuns, UniqueJobNames, Agrees, CellOf, RunSays, OtherJobsSay, JobsSay, RecordAll;
    StreamRecorded(db, stream, traces, runs);
    AgreesInWords(RecordAll(db, stream), runs[i], s, j, name);
  }
}
