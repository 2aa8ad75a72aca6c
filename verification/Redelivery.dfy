/**
 Redelivering one event of the stream, out of turn: exactly when it is the no-op the store
 promises, for one event and for all events of the stream at once.
 */
module Redelivery {
  import opened Basics
  import opened Domain
  import opened Events
  import opened Bus
  import opened Runner
  import opened Jobs
  import opened StepMachine
  import opened Interleavings
  import opened Orchestrator
  import Routines
  import opened Tables
  import opened Cells
  import opened Replay
  import opened Traces
  import opened Recording

  /** What a finished step event writes. */
  function FinishColumns(e: Event): StepInfo {
    StepInfo(e.Read(StatusKey), Number(e, ExitCodeKey), Number(e, DurationKey))
  }

  /** The event names run `i`, and in it job `j` of executed stage `s`. */
  ghost predicate Locates(e: Event, runs: seq<RunSpec>, i: nat, s: nat, j: nat) {
    && i < |runs| && e.runId == runs[i].runId
    && s < Executed(runs[i].pipeline, runs[i].world) && JobIn(runs[i].pipeline, s, j, e.job)
  }

  function ResultsOf(runs: seq<RunSpec>, i: nat, s: nat, j: nat): seq<StepResult>
    requires i < |runs| && s < |runs[i].pipeline.stages| && j < |runs[i].pipeline.stages[s].jobs|
  {
    RunJob(runs[i].pipeline.stages[s].jobs[j], runs[i].world.stages(s).jobs(j)).result.stepResults
  }

  // ---------- Where an event of the stream comes from ----------

  lemma InSomeRun(stream: seq<Event>, traces: seq<seq<Event>>, runs: seq<RunSpec>, e: Event) returns (i: nat)
    requires StreamOf(stream, traces, runs) && e in stream
    ensures i < |runs| && i < |traces| && e in traces[i] && e.runId == runs[i].runId
  {
    hide IsRunTrace, Ordered, Recordable;
    var tags :| Merges(stream, tags, traces);
    MergeMember(stream, tags, traces, e);
    i :| 0 <= i < |traces| && e in traces[i];
    RunTraceIsOrdered({}, traces[i], runs[i].pipeline, runs[i].world, runs[i].runId);
    assert OfRunAndPipeline(e, runs[i].runId, runs[i].pipeline.name);
  }

  /** A job event of a run's trace belongs to a job of an executed stage, and to its trace. */
  lemma InSomeJob(t: seq<Event>, p: Pipeline, w: RunWorld, runId: string, e: Event) returns (s: nat, j: nat)
    requires IsRunTrace(t, p, w, runId) && UniqueJobNames(p) && runId != "" && e in t
    requires e.kind != PipelineStarted && e.kind != PipelineFinished
    ensures s < Executed(p, w) && JobIn(p, s, j, e.job)
    ensures e in JobTrace(p.stages[s].jobs[j], w.stages(s).jobs(j), p.stages[s].name, p.name, runId)
  {
    hide IsRunTrace, UniqueJobNames, JobTrace, Executed, PipelineResultOf, PipelineStatus, Ordered, Recordable;
    var k := Key(runId, e.job, "");
    RunTraceIsOrdered({}, t, p, w, runId);
    assert OfRunAndPipeline(e, runId, p.name);
    FilterKeeps(t, Concerning(k), e);
    if u, i :| 0 <= u < Executed(p, w) && JobIn(p, u, i, e.job) {
      s, j := u, i;
      JobProjection(t, p, w, runId, s, j, k);
    } else {
      NoProjection(t, p, w, runId, k);
      assert false;
    }
  }

  lemma PipelineFinishIs(t: seq<Event>, p: Pipeline, w: RunWorld, runId: string, e: Event)
    requires IsRunTrace(t, p, w, runId) && e in t && e.kind == PipelineFinished
    ensures e == PipelineFinishedEvent(p, w, runId, PipelineStatus(PipelineResultOf(p, w, runId)))
  {
    hide AreStageBlocks, PipelineResultOf, PipelineStatus, Executed, Ordered, Recordable;
    var blocks :| TraceOf(t, blocks, p, w, runId);
    StageBlocksAreOrdered({RunEntity(runId)}, blocks, p, w, runId);
    assert e !in Flatten(blocks);
  }

  lemma JobFinishIs(job: Job, w: JobWorld, stage: string, pipeline: string, runId: string, e: Event)
    requires e in JobTrace(job, w, stage, pipeline, runId) && e.kind == JobFinished
    ensures e == JobFinishedEvent(job, w, JobStatus(RunJob(job, w).result), pipeline, runId)
  {
    hide RunUpTo, EventsUpTo, JobStatus, StampAll;
    var steps := StampAll(RunJob(job, w).events, pipeline, runId);
    if SetupStops(job, w).None? {
      Routines.StepEventKinds(job, w.steps, RunAll(job, w.steps).executed, pipeline, runId);
    } else {
      NoStamps(pipeline, runId);
    }
  }

  // ---------- Exactly when redelivery is harmless ----------

  /** The preconditions of StreamRecorded. */
  ghost predicate Recorded(db: Db, stream: seq<Event>, traces: seq<seq<Event>>, runs: seq<RunSpec>) {
    && Integrity(db) && StreamOf(stream, traces, runs) && DistinctRuns(runs)
    && forall i :: 0 <= i < |runs| ==> UniqueJobNames(runs[i].pipeline) && FindRun(db, runs[i].runId).None?
  }

  lemma OwnCell(db: Db, stream: seq<Event>, traces: seq<seq<Event>>, runs: seq<RunSpec>, e: Event, i: nat)
    requires Recorded(db, stream, traces, runs) && i < |runs| && e.runId == runs[i].runId
    ensures var k := Key(e.runId, e.job, e.step);
      Agrees(CellOf(RecordAll(db, stream), k), k, runs[i].pipeline, runs[i].world)
    ensures Integrity(RecordAll(db, stream))
  {
    hide StreamOf, DistinctRuns, UniqueJobNames, Agrees, CellOf, Integrity;
    StreamRecorded(db, stream, traces, runs);
    IntegrityAlways(db, stream);
  }

  lemma RedeliveryByCell(db: Db, e: Event)
    requires Integrity(db)
    ensures var k := Key(e.runId, e.job, e.step);
      Record(db, e) == db <==> RecordCell(CellOf(db, k), e, k) == CellOf(db, k)
  {
    hide Integrity, RecordCell, CellOf;
    var k := Key(e.runId, e.job, e.step);
    RecordRefinesCell(db, e, k);
    if RecordCell(CellOf(db, k), e, k) == CellOf(db, k) {
      SettledEvent(db, e);
    }
  }

  /** Every event but a step's finish can be redelivered at any time without effect. */
  lemma OthersAreHarmless(db: Db, stream: seq<Event>, traces: seq<seq<Event>>, runs: seq<RunSpec>, e: Event)
    requires Recorded(db, stream, traces, runs) && e in stream && e.kind != StepFinished
    ensures Record(RecordAll(db, stream), e) == RecordAll(db, stream)
  {
    hide StreamOf, DistinctRuns, Integrity, IsRunTrace, CellOf, JobTrace, Executed, ExpectedJob, StepRowOfResults,
      PipelineResultOf, PipelineStatus;
    var i := InSomeRun(stream, traces, runs, e);
    var p, w := runs[i].pipeline, runs[i].world;
    OneTrace(stream, traces, runs, i);
    OwnCell(db, stream, traces, runs, e, i);
    RedeliveryByCell(RecordAll(db, stream), e);
    if e.kind == PipelineFinished {
      PipelineFinishIs(traces[i], p, w, runs[i].runId, e);
    } else if e.kind != PipelineStarted {
      var s, j := InSomeJob(traces[i], p, w, runs[i].runId, e);
      if e.kind == JobFinished {
        JobFinishIs(p.stages[s].jobs[j], w.stages(s).jobs(j), p.stages[s].name, p.name, runs[i].runId, e);
        FinishedJobCell(p.stages[s].jobs[j], w.stages(s).jobs(j), p.stages[s].name, p.name, runs[i].runId);
      } else if e.kind == StepStarted {
        StepHasRow(p.stages[s].jobs[j], w.stages(s).jobs(j), p.stages[s].name, p.name, runs[i].runId, e);
      }
    }
  }

  lemma OneTrace(stream: seq<Event>, traces: seq<seq<Event>>, runs: seq<RunSpec>, i: nat)
    requires StreamOf(stream, traces, runs) && i < |runs|
    ensures |traces| == |runs| && IsRunTrace(traces[i], runs[i].pipeline, runs[i].world, runs[i].runId) && runs[i].runId != ""
  {
  }

  lemma FinishedJobCell(job: Job, w: JobWorld, stage: string, pipeline: string, runId: string)
    ensures var e := JobFinishedEvent(job, w, JobStatus(RunJob(job, w).result), pipeline, runId);
      var info := ExpectedJob(job, w, stage);
      info.status == e.Read(StatusKey) && info.finishedAt == Some(e.occurredAt)
  {
    hide JobStatus, RunJob;
  }

  /** A step that left an event has a result, hence a row. */
  lemma StepHasRow(job: Job, w: JobWorld, stage: string, pipeline: string, runId: string, e: Event)
    requires e in JobTrace(job, w, stage, pipeline, runId) && e.kind in {StepStarted, StepFinished}
    ensures StepRowOfResults(RunJob(job, w).result.stepResults, e.step).Some?
  {
    hide RunUpTo, EventsUpTo, JobStatus, StampAll, StepRowOfResults;
    if SetupStops(job, w).None? {
      ExecutedRounds(job, w.steps, |job.steps|);
      StepEventHasResult(job, w.steps, RunAll(job, w.steps).executed, pipeline, runId, e);
    } else {
      NoStamps(pipeline, runId);
      assert false;
    }
  }

  lemma {:induction false} StepEventHasResult(
      job: Job, steps: nat -> StepWorld, n: nat, pipeline: string, runId: string, e: Event)
    requires n <= |job.steps| && RunUpTo(job, steps, n).executed == n
    requires e in StampAll(EventsUpTo(job, steps, n), pipeline, runId)
    ensures StepRowOfResults(RunUpTo(job, steps, n).results, e.step).Some?
  {
    hide StepEvents, RunStep, StampAll, LastNamed, StepColumns;
    if n == 0 {
      NoStamps(pipeline, runId);
      assert false;
    } else {
      var block := StepBlock(job.name, job.steps[n - 1], steps(n - 1), pipeline, runId);
      StampConcat(EventsUpTo(job, steps, n - 1), StepEvents(job.name, job.steps[n - 1], steps(n - 1)), pipeline, runId);
      StepHasShape(job.steps[n - 1], steps(n - 1));
      LastNamedAppend(RunUpTo(job, steps, n - 1).results, RunStep(job.steps[n - 1], steps(n - 1)).results,
        job.steps[n - 1], e.step);
      if e !in block {
        StepEventHasResult(job, steps, n - 1, pipeline, runId, e);
      }
    }
  }

  /** A step's finish can be redelivered without effect if and only if it says what the step's
      last result says. */
  lemma StepFinishRedelivery(
      db: Db, stream: seq<Event>, traces: seq<seq<Event>>, runs: seq<RunSpec>, e: Event, i: nat, s: nat, j: nat)
    requires Recorded(db, stream, traces, runs) && e in stream && e.kind == StepFinished && Locates(e, runs, i, s, j)
    ensures Record(RecordAll(db, stream), e) == RecordAll(db, stream) <==>
      StepRowOfResults(ResultsOf(runs, i, s, j), e.step) == Some(FinishColumns(e))
  {
    hide StreamOf, DistinctRuns, Integrity, IsRunTrace, CellOf, JobTrace, Executed, ExpectedJob, StepRowOfResults,
      PipelineResultOf, PipelineStatus, NumberOk, Number, RunJob, StepColumns;
    var p, w := runs[i].pipeline, runs[i].world;
    OwnCell(db, stream, traces, runs, e, i);
    RedeliveryByCell(RecordAll(db, stream), e);
    assert Recordable(e) by { StreamIsOrdered({}, stream, traces, runs); }
    var t := InSomeRun(stream, traces, runs, e);
    assert t == i by { SameRunIndex(runs, t, i); }
    OneTrace(stream, traces, runs, i);
    var s', j' := InSomeJob(traces[i], p, w, runs[i].runId, e);
    OnlyOneJob(p, s, j, e.job);
    StepHasRow(p.stages[s].jobs[j], w.stages(s).jobs(j), p.stages[s].name, p.name, runs[i].runId, e);
  }

  lemma SameRunIndex(runs: seq<RunSpec>, a: nat, b: nat)
    requires DistinctRuns(runs) && a < |runs| && b < |runs| && runs[a].runId == runs[b].runId
    ensures a == b
  {
  }

  // ---------- Step results and the finished events of a job ----------

  /** The finished event of a step result. */
  ghost predicate Tells(e: Event, r: StepResult, job: string, runId: string) {
    e.kind == StepFinished && e.runId == runId && e.job == job && e.step == r.stepName && FinishColumns(e) == StepColumns(r)
  }

  /** A step's finished events tell its results one by one. */
  lemma BlockTells(job: string, step: Step, w: StepWorld, pipeline: string, runId: string)
    ensures var block := StampAll(StepEvents(job, step, w), pipeline, runId);
      var r := RunStep(step, w).results;
      && |block| == 1 + |r| && block[0].kind == StepStarted
      && forall i :: 0 < i < |block| ==> Tells(block[i], r[i - 1], job, runId)
  {
    hide RunStep, StepEvents, StampAll, NumberOk, Number;
    var block := StepBlock(job, step, w, pipeline, runId);
    StepHasShape(step, w);
    var r := RunStep(step, w).results;
    assert forall i :: 0 <= i < |r| ==> r[i].stepName == step.name;
  }

  lemma {:induction false} EveryResultIsTold(
      job: Job, steps: nat -> StepWorld, n: nat, pipeline: string, runId: string, m: nat) returns (e: Event)
    requires n <= |job.steps| && RunUpTo(job, steps, n).executed == n && m < |RunUpTo(job, steps, n).results|
    ensures e in StampAll(EventsUpTo(job, steps, n), pipeline, runId)
    ensures Tells(e, RunUpTo(job, steps, n).results[m], job.name, runId)
  {
    hide RunStep, StepEvents, StampAll, Tells;
    var before, now := RunUpTo(job, steps, n - 1), RunStep(job.steps[n - 1], steps(n - 1));
    StampConcat(EventsUpTo(job, steps, n - 1), StepEvents(job.name, job.steps[n - 1], steps(n - 1)), pipeline, runId);
    if m < |before.results| {
      e := EveryResultIsTold(job, steps, n - 1, pipeline, runId, m);
    } else {
      BlockTells(job.name, job.steps[n - 1], steps(n - 1), pipeline, runId);
      var block := StampAll(StepEvents(job.name, job.steps[n - 1], steps(n - 1)), pipeline, runId);
      e := block[m - |before.results| + 1];
      assert e in block;
    }
  }

  lemma {:induction false} EveryFinishTells(
      job: Job, steps: nat -> StepWorld, n: nat, pipeline: string, runId: string, e: Event) returns (m: nat)
    requires n <= |job.steps| && RunUpTo(job, steps, n).executed == n
    requires e in StampAll(EventsUpTo(job, steps, n), pipeline, runId) && e.kind == StepFinished
    ensures m < |RunUpTo(job, steps, n).results| && Tells(e, RunUpTo(job, steps, n).results[m], job.name, runId)
  {
    hide RunStep, StepEvents, StampAll, Tells;
    if n == 0 {
      NoStamps(pipeline, runId);
      assert false;
    } else {
      var before := RunUpTo(job, steps, n - 1);
      StampConcat(EventsUpTo(job, steps, n - 1), StepEvents(job.name, job.steps[n - 1], steps(n - 1)), pipeline, runId);
      var block := StampAll(StepEvents(job.name, job.steps[n - 1], steps(n - 1)), pipeline, runId);
      BlockTells(job.name, job.steps[n - 1], steps(n - 1), pipeline, runId);
      if e in block {
        var i :| 0 <= i < |block| && block[i] == e;
        m := |before.results| + (i - 1);
      } else {
        m := EveryFinishTells(job, steps, n - 1, pipeline, runId, e);
      }
    }
  }

  lemma ResultIsTold(job: Job, w: JobWorld, stage: string, pipeline: string, runId: string, m: nat) returns (e: Event)
    requires m < |RunJob(job, w).result.stepResults|
    ensures e in JobTrace(job, w, stage, pipeline, runId)
    ensures Tells(e, RunJob(job, w).result.stepResults[m], job.name, runId)
  {
    hide RunUpTo, EventsUpTo, StampAll, JobStatus, Tells;
    ExecutedRounds(job, w.steps, |job.steps|);
    e := EveryResultIsTold(job, w.steps, RunAll(job, w.steps).executed, pipeline, runId, m);
  }

  lemma FinishTells(job: Job, w: JobWorld, stage: string, pipeline: string, runId: string, e: Event) returns (m: nat)
    requires e in JobTrace(job, w, stage, pipeline, runId) && e.kind == StepFinished
    ensures m < |RunJob(job, w).result.stepResults| && Tells(e, RunJob(job, w).result.stepResults[m], job.name, runId)
  {
    hide RunUpTo, EventsUpTo, StampAll, JobStatus, Tells;
    if SetupStops(job, w).None? {
      ExecutedRounds(job, w.steps, |job.steps|);
      m := EveryFinishTells(job, w.steps, RunAll(job, w.steps).executed, pipeline, runId, e);
    } else {
      NoStamps(pipeline, runId);
      assert false;
    }
  }

  // ---------- Exactly when every event can be redelivered ----------

  /** All results of one step name have the same columns. */
  ghost predicate Consistent(results: seq<StepResult>) {
    forall a, b :: 0 <= a < |results| && 0 <= b < |results| && results[a].stepName == results[b].stepName ==>
      StepColumns(results[a]) == StepColumns(results[b])
  }

  /** So they have in every executed job of every run. */
  ghost predicate AllConsistent(runs: seq<RunSpec>) {
    forall i: nat, s: nat, j: nat ::
      i < |runs| && s < Executed(runs[i].pipeline, runs[i].world) && j < |runs[i].pipeline.stages[s].jobs| ==>
        Consistent(ResultsOf(runs, i, s, j))
  }

  lemma {:induction false} LastNamedIsOne(results: seq<StepResult>, name: string, m: nat) returns (n: nat)
    requires m < |results| && results[m].stepName == name
    ensures n < |results| && results[n].stepName == name && StepRowOfResults(results, name) == Some(StepColumns(results[n]))
  {
    n := |results| - 1;
    if results[n].stepName != name {
      n := LastNamedIsOne(results[..n], name, m);
    }
  }

  /** Where a step's finished event on the stream comes from, and which result it tells. */
  lemma LocateFinish(stream: seq<Event>, traces: seq<seq<Event>>, runs: seq<RunSpec>, e: Event)
    returns (i: nat, s: nat, j: nat, m: nat)
    requires StreamOf(stream, traces, runs) && e in stream && e.kind == StepFinished
    requires forall i :: 0 <= i < |runs| ==> UniqueJobNames(runs[i].pipeline)
    ensures Locates(e, runs, i, s, j) && m < |ResultsOf(runs, i, s, j)|
    ensures Tells(e, ResultsOf(runs, i, s, j)[m], e.job, e.runId)
  {
    hide StreamOf, IsRunTrace, UniqueJobNames, JobTrace, Executed, RunJob, Tells;
    i := InSomeRun(stream, traces, runs, e);
    OneTrace(stream, traces, runs, i);
    var p, w := runs[i].pipeline, runs[i].world;
    s, j := InSomeJob(traces[i], p, w, runs[i].runId, e);
    m := FinishTells(p.stages[s].jobs[j], w.stages(s).jobs(j), p.stages[s].name, p.name, runs[i].runId, e);
  }

  lemma ConsistentIsHarmless(db: Db, stream: seq<Event>, traces: seq<seq<Event>>, runs: seq<RunSpec>, e: Event)
    requires Recorded(db, stream, traces, runs) && AllConsistent(runs) && e in stream
    ensures Record(RecordAll(db, stream), e) == RecordAll(db, stream)
  {
    hide StreamOf, DistinctRuns, UniqueJobNames, Integrity, Executed, ResultsOf, StepRowOfResults, StepColumns, Record, RecordAll;
    if e.kind == StepFinished {
      var i, s, j, m := LocateFinish(stream, traces, runs, e);
      var results := ResultsOf(runs, i, s, j);
      StepFinishRedelivery(db, stream, traces, runs, e, i, s, j);
      var n := LastNamedIsOne(results, e.step, m);
      assert Consistent(results);
    } else {
      OthersAreHarmless(db, stream, traces, runs, e);
    }
  }

  lemma HarmlessIsConsistent(
      db: Db, stream: seq<Event>, traces: seq<seq<Event>>, runs: seq<RunSpec>, i: nat, s: nat, j: nat, m: nat)
    requires Recorded(db, stream, traces, runs)
    requires forall e :: e in stream ==> Record(RecordAll(db, stream), e) == RecordAll(db, stream)
    requires i < |runs| && s < Executed(runs[i].pipeline, runs[i].world) && j < |runs[i].pipeline.stages[s].jobs|
    requires m < |ResultsOf(runs, i, s, j)|
    ensures var r := ResultsOf(runs, i, s, j); StepRowOfResults(r, r[m].stepName) == Some(StepColumns(r[m]))
  {
    hide Recorded, Executed, RunJob, StepRowOfResults, StepColumns, JobTrace, Record, RecordAll;
    var p, w := runs[i].pipeline, runs[i].world;
    var e := ResultIsTold(p.stages[s].jobs[j], w.stages(s).jobs(j), p.stages[s].name, p.name, runs[i].runId, m);
    EventReachesStream(db, stream, traces, runs, i, s, j, e);
    StepFinishRedelivery(db, stream, traces, runs, e, i, s, j);
  }

  /** Every event of the stream can be redelivered without effect if and only if in every
      executed job all results of one step name have the same columns. */
  lemma HarmlessExactly(db: Db, stream: seq<Event>, traces: seq<seq<Event>>, runs: seq<RunSpec>)
    requires Recorded(db, stream, traces, runs)
    ensures (forall e :: e in stream ==> Record(RecordAll(db, stream), e) == RecordAll(db, stream)) <==> AllConsistent(runs)
  {
    hide Recorded, Executed, ResultsOf, StepRowOfResults, StepColumns, Record, RecordAll;
    if AllConsistent(runs) {
      forall e | e in stream
        ensures Record(RecordAll(db, stream), e) == RecordAll(db, stream)
      {
        ConsistentIsHarmless(db, stream, traces, runs, e);
      }
    } else if forall e :: e in stream ==> Record(RecordAll(db, stream), e) == RecordAll(db, stream) {
      forall i: nat, s: nat, j: nat
        | i < |runs| && s < Executed(runs[i].pipeline, runs[i].world) && j < |runs[i].pipeline.stages[s].jobs|
        ensures Consistent(ResultsOf(runs, i, s, j))
      {
        forall m | 0 <= m < |ResultsOf(runs, i, s, j)|
          ensures var r := ResultsOf(runs, i, s, j); StepRowOfResults(r, r[m].stepName) == Some(StepColumns(r[m]))
        {
          HarmlessIsConsistent(db, stream, traces, runs, i, s, j, m);
        }
      }
      assert false;
    }
  }

  lemma PartInBlocks(blocks: seq<seq<Event>>, p: Pipeline, w: RunWorld, runId: string, s: nat, j: nat, e: Event)
    requires AreStageBlocks(blocks, p, w, runId) && s < |blocks| && j < |p.stages[s].jobs|
    requires e in JobTrace(p.stages[s].jobs[j], w.stages(s).jobs(j), p.stages[s].name, p.name, runId)
    ensures e in Flatten(blocks)
  {
    hide JobTrace;
    var parts := StageParts(p.stages[s], w.stages(s), p.name, runId);
    var tags :| Merges(blocks[s], tags, parts);
    MergeMember(blocks[s], tags, parts, e);
    assert e in parts[j];
    FlattenMember(blocks, e);
  }

  lemma EventReachesStream(
      db: Db, stream: seq<Event>, traces: seq<seq<Event>>, runs: seq<RunSpec>, i: nat, s: nat, j: nat, e: Event)
    requires Recorded(db, stream, traces, runs) && i < |runs| && s < Executed(runs[i].pipeline, runs[i].world)
    requires j < |runs[i].pipeline.stages[s].jobs|
    requires var p, w := runs[i].pipeline, runs[i].world;
      e in JobTrace(p.stages[s].jobs[j], w.stages(s).jobs(j), p.stages[s].name, p.name, runs[i].runId)
    ensures e in stream
  {
    hide JobTrace, Executed, PipelineResultOf, PipelineStatus, AreStageBlocks, Integrity, UniqueJobNames, DistinctRuns;
    var p, w := runs[i].pipeline, runs[i].world;
    OneTrace(stream, traces, runs, i);
    var blocks :| TraceOf(traces[i], blocks, p, w, runs[i].runId);
    PartInBlocks(blocks, p, w, runs[i].runId, s, j, e);
    assert e in traces[i];
    var tags :| Merges(stream, tags, traces);
    MergeMember(stream, tags, traces, e);
  }

  // ---------- Finished events of one row ----------

  /** Finished events that write the same row write the same columns into it. */
  ghost predicate FinishesAgree(log: seq<Event>) {
    forall e, f :: e in log && f in log && WriteSameRow(e, f) ==> WriteSameColumns(e, f)
  }

  lemma StepFinishesAgree(stream: seq<Event>, traces: seq<seq<Event>>, runs: seq<RunSpec>, e: Event, f: Event)
    requires StreamOf(stream, traces, runs) && DistinctRuns(runs) && AllConsistent(runs)
    requires forall i :: 0 <= i < |runs| ==> UniqueJobNames(runs[i].pipeline)
    requires e in stream && f in stream && e.kind == StepFinished && WriteSameRow(e, f)
    ensures WriteSameColumns(e, f)
  {
    hide StreamOf, UniqueJobNames, Executed, ResultsOf, StepColumns;
    var i, s, j, m := LocateFinish(stream, traces, runs, e);
    var i', s', j', m' := LocateFinish(stream, traces, runs, f);
    SameRunIndex(runs, i, i');
    OnlyOneJob(runs[i].pipeline, s, j, e.job);
    assert JobIn(runs[i].pipeline, s', j', e.job);
    assert Consistent(ResultsOf(runs, i, s, j));
  }

  lemma OtherFinishesAgree(stream: seq<Event>, traces: seq<seq<Event>>, runs: seq<RunSpec>, e: Event, f: Event)
    requires StreamOf(stream, traces, runs) && DistinctRuns(runs)
    requires forall i :: 0 <= i < |runs| ==> UniqueJobNames(runs[i].pipeline)
    requires e in stream && f in stream && e.kind != StepFinished && WriteSameRow(e, f)
    ensures WriteSameColumns(e, f)
  {
    hide StreamOf, UniqueJobNames, Executed, IsRunTrace, JobTrace, PipelineStatus, PipelineResultOf;
    var i := InSomeRun(stream, traces, runs, e);
    var i' := InSomeRun(stream, traces, runs, f);
    SameRunIndex(runs, i, i');
    OneTrace(stream, traces, runs, i);
    var p, w, runId := runs[i].pipeline, runs[i].world, runs[i].runId;
    if e.kind == PipelineFinished {
      PipelineFinishIs(traces[i], p, w, runId, e);
      PipelineFinishIs(traces[i], p, w, runId, f);
    } else {
      var s, j := InSomeJob(traces[i], p, w, runId, e);
      var s', j' := InSomeJob(traces[i], p, w, runId, f);
      OnlyOneJob(p, s, j, e.job);
      JobFinishIs(p.stages[s].jobs[j], w.stages(s).jobs(j), p.stages[s].name, p.name, runId, e);
      JobFinishIs(p.stages[s].jobs[j], w.stages(s).jobs(j), p.stages[s].name, p.name, runId, f);
    }
  }

  /** Runs whose jobs have consistent results publish no conflicting finished events. */
  lemma ConsistentRunsAgree(stream: seq<Event>, traces: seq<seq<Event>>, runs: seq<RunSpec>)
    requires StreamOf(stream, traces, runs) && DistinctRuns(runs) && AllConsistent(runs)
    requires forall i :: 0 <= i < |runs| ==> UniqueJobNames(runs[i].pipeline)
    ensures FinishesAgree(stream)
  {
    hide StreamOf, DistinctRuns, AllConsistent, UniqueJobNames, WriteSameColumns;
    forall e, f | e in stream && f in stream && WriteSameRow(e, f)
      ensures WriteSameColumns(e, f)
    {
      if e.kind == StepFinished {
        StepFinishesAgree(stream, traces, runs, e, f);
      } else {
        OtherFinishesAgree(stream, traces, runs, e, f);
      }
    }
  }

  // ---------- A kind of run with a stale finish ----------

  lemma {:induction false} LastStepFaults(job: Job, steps: nat -> StepWorld, k: nat)
    requires k <= |job.steps| && RunUpTo(job, steps, k).err.Some? && RunUpTo(job, steps, k).err.value.EnvReadAfter?
    ensures var r := RunUpTo(job, steps, k);
      && r.executed > 0 && r.executed <= k
      && var now := RunStep(job.steps[r.executed - 1], steps(r.executed - 1));
         && now.err == r.err && |now.results| == 2
         && r.results == RunUpTo(job, steps, r.executed - 1).results + now.results
         && RunUpTo(job, steps, r.executed - 1).executed == r.executed - 1
  {
    hide RunStep;
    if RunUpTo(job, steps, k - 1).err.Some? {
      LastStepFaults(job, steps, k - 1);
    } else {
      StepHasShape(job.steps[k - 1], steps(k - 1));
    }
  }

  /** "Redelivered events are no-ops" fails here, for one: whenever a job's env file cannot be
      read after its last executed step, the stream holds an event whose redelivery puts the
      step's earlier outcome back over the recorded fault. */
  lemma StaleFinishExists(
      db: Db, stream: seq<Event>, traces: seq<seq<Event>>, runs: seq<RunSpec>, i: nat, s: nat, j: nat)
    requires Recorded(db, stream, traces, runs) && i < |runs| && s < Executed(runs[i].pipeline, runs[i].world)
    requires j < |runs[i].pipeline.stages[s].jobs|
    requires var job, w := runs[i].pipeline.stages[s].jobs[j], runs[i].world.stages(s).jobs(j);
      SetupStops(job, w).None? && RunAll(job, w.steps).err.Some? && RunAll(job, w.steps).err.value.EnvReadAfter?
    ensures exists e :: e in stream && Record(RecordAll(db, stream), e) != RecordAll(db, stream)
  {
    hide Recorded, Executed, RunUpTo, RunStep;
    var job, w := runs[i].pipeline.stages[s].jobs[j], runs[i].world.stages(s).jobs(j);
    LastStepFaults(job, w.steps, |job.steps|);
    var results := ResultsOf(runs, i, s, j);
    var n := RunAll(job, w.steps).executed;
    StepHasShape(job.steps[n - 1], w.steps(n - 1));
    assert !Consistent(results) by {
      var last := |results| - 1;
      assert results[last - 1].stepName == results[last].stepName;
      assert StepColumns(results[last - 1]).status != StepColumns(results[last]).status;
    }
    HarmlessExactly(db, stream, traces, runs);
  }

  // ---------- One row per executed step ----------

  function Names(results: seq<StepResult>): set<string> {
    set i | 0 <= i < |results| :: results[i].stepName
  }

  lemma {:induction false} RowsAreNames(results: seq<StepResult>, name: string)
    ensures StepRowOfResults(results, name).Some? <==> name in Names(results)
  {
    if results != [] {
      var init, last := results[..|results| - 1], results[|results| - 1];
      RowsAreNames(init, name);
      assert results == init + [last];
      if name in Names(init) {
        var i :| 0 <= i < |init| && init[i].stepName == name;
        assert results[i].stepName == name;
      }
      if name in Names(results) && last.stepName != name {
        var i :| 0 <= i < |results| && results[i].stepName == name;
        assert init[i].stepName == name;
      }
    }
  }

  function StepNames(job: Job, n: nat): (names: seq<string>)
    requires n <= |job.steps|
    ensures |names| == n
  {
    seq(n, i requires 0 <= i < n => job.steps[i].name)
  }

  lemma {:induction false} DistinctCount(xs: seq<string>)
    ensures |set x | x in xs| <= |xs|
    ensures |set x | x in xs| == |xs| <==> Distinct(xs)
  {
    if xs != [] {
      var init, last := xs[..|xs| - 1], xs[|xs| - 1];
      assert xs == init + [last];
      DistinctCount(init);
      var a, b := set x | x in init, set x | x in xs;
      assert b == a + {last};
      if last in init {
        assert b == a;
        var i :| 0 <= i < |init| && init[i] == last;
        assert xs[i] == xs[|xs| - 1];
      } else {
        assert |b| == |a| + 1;
        assert Distinct(xs) <==> Distinct(init) by {
          assert forall i :: 0 <= i < |init| ==> xs[i] == init[i] && init[i] in init;
        }
      }
    }
  }

  /** The names with a step row are those of the executed steps; a job has one row per executed
      step exactly when those steps' names are distinct. */
  lemma OneRowPerStep(job: Job, steps: nat -> StepWorld)
    ensures var r := RunAll(job, steps);
      && r.executed <= |job.steps|
      && (forall name :: StepRowOfResults(r.results, name).Some? <==> name in StepNames(job, r.executed))
      && (|Names(r.results)| == r.executed <==> Distinct(StepNames(job, r.executed)))
  {
    hide RunUpTo, StepRowOfResults, StopShows;
    var r := RunAll(job, steps);
    ResultsNamePrefix(job, steps, |job.steps|);
    var names := StepNames(job, r.executed);
    forall name
      ensures StepRowOfResults(r.results, name).Some? <==> name in names
    {
      RowsAreNames(r.results, name);
      if i :| 0 <= i < |r.results| && r.results[i].stepName == name {
        assert names[if i < r.executed then i else r.executed - 1] == name;
      }
      if i :| 0 <= i < |names| && names[i] == name {
        assert r.results[i].stepName == name;
      }
    }
    forall name
      ensures name in Names(r.results) <==> name in names
    {
      RowsAreNames(r.results, name);
    }
    assert Names(r.results) == set x | x in names;
    DistinctCount(names);
  }
}
