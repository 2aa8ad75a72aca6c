/**
 What every run leaves on the stream: events in an order the recorder can always accept,
 stage blocks that never overlap, and for each job its own trace.
 */
module Traces {
  import opened Basics
  import opened Numerals
  import opened Domain
  import opened Events
  import opened Bus
  import opened Runner
  import opened Jobs
  import opened StepMachine
  import opened Interleavings
  import opened Orchestrator
  import opened Tables
  import opened Cells
  import opened Replay

  // ---------- Parents come first ----------

  /** Fit to be recorded once its rows exist. */
  predicate Recordable(e: Event) {
    && (e.kind.PipelineStarted? ==> e.runId != "")
    && (e.kind.StepFinished? ==> NumberOk(e, ExitCodeKey) && NumberOk(e, DurationKey))
  }

  ghost predicate AllRecordable(log: seq<Event>) {
    forall e :: e in log ==> Recordable(e)
  }

  /** An interleaving of ordered logs is ordered. */
  lemma {:induction false} MergeIsOrdered(known: set<Entity>, t: seq<Event>, tags: seq<nat>, parts: seq<seq<Event>>)
    requires Merges(t, tags, parts) && forall p :: 0 <= p < |parts| ==> Ordered(known, parts[p])
    ensures Ordered(known, t)
    ensures forall p :: 0 <= p < |parts| ==> Known(known, parts[p]) <= Known(known, t)
  {
    if t == [] {
      assert forall p :: 0 <= p < |parts| ==> Pick(t, tags, p) == [];
    } else {
      var p, shorter := MergeInit(t, tags, parts);
      var last := t[|t| - 1];
      MergeIsOrdered(known, t[..|t| - 1], tags[..|t| - 1], shorter);
      assert Known(known, shorter[p]) <= Known(known, t[..|t| - 1]);
      assert Known(known, parts[p]) == Known(known, shorter[p]) + Introduced(last);
      forall q | 0 <= q < |parts| && q != p
        ensures Known(known, parts[q]) <= Known(known, t)
      {
        assert shorter[q] == parts[q];
      }
    }
  }

  lemma MergeIsRecordable(t: seq<Event>, tags: seq<nat>, parts: seq<seq<Event>>)
    requires Merges(t, tags, parts) && forall p :: 0 <= p < |parts| ==> AllRecordable(parts[p])
    ensures AllRecordable(t)
  {
    forall e | e in t
      ensures Recordable(e)
    {
      MergeMember(t, tags, parts, e);
    }
  }

  /** The numbers a finished event carries are printed 64-bit integers. */
  lemma FinishNumbers(job: string, r: StepResult, at: Timestamp)
    ensures var e := StepFinishedEvent(job, r, at);
      && NumberOk(e, ExitCodeKey) && Number(e, ExitCodeKey) == (if r.exitCode == EXIT_NONE then None else Some(r.exitCode))
      && NumberOk(e, DurationKey) && Number(e, DurationKey) == Some(Milliseconds(r.duration))
      && e.Read(StatusKey) == Slug(r.Status())
  {
    hide FormatInt, ParseInt;
    FormatParse(r.exitCode);
    FormatParse(Milliseconds(r.duration));
  }

  lemma StampKeeps(e: Event, pipeline: string, runId: string)
    ensures var s := Stamp(e, pipeline, runId);
      && NumberOk(s, ExitCodeKey) == NumberOk(e, ExitCodeKey) && Number(s, ExitCodeKey) == Number(e, ExitCodeKey)
      && NumberOk(s, DurationKey) == NumberOk(e, DurationKey) && Number(s, DurationKey) == Number(e, DurationKey)
      && s.Read(StatusKey) == e.Read(StatusKey)
  {
  }

  /** A step's stamped events, one by one. */
  lemma StepBlock(job: string, step: Step, w: StepWorld, pipeline: string, runId: string) returns (block: seq<Event>)
    ensures block == StampAll(StepEvents(job, step, w), pipeline, runId)
    ensures |block| == 1 + |RunStep(step, w).results|
    ensures block[0].kind == StepStarted
    ensures forall i :: 0 < i < |block| ==> block[i].kind == StepFinished
    ensures forall i :: 0 <= i < |block| ==>
      block[i].runId == runId && block[i].pipeline == pipeline && block[i].job == job && block[i].step == step.name
    ensures forall i :: 0 < i < |block| ==>
      var r := RunStep(step, w).results[i - 1];
      && NumberOk(block[i], ExitCodeKey)
      && Number(block[i], ExitCodeKey) == (if r.exitCode == EXIT_NONE then None else Some(r.exitCode))
      && NumberOk(block[i], DurationKey) && Number(block[i], DurationKey) == Some(Milliseconds(r.duration))
      && block[i].Read(StatusKey) == Slug(r.Status())
  {
    hide StepFinishedEvent, ParseInt, RunStep;
    StepHasShape(step, w);
    var events := StepEvents(job, step, w);
    block := StampAll(events, pipeline, runId);
    forall i | 0 < i < |block|
      ensures var r := RunStep(step, w).results[i - 1];
        && block[i].kind == StepFinished && block[i].job == job && block[i].step == step.name
        && NumberOk(block[i], ExitCodeKey)
        && Number(block[i], ExitCodeKey) == (if r.exitCode == EXIT_NONE then None else Some(r.exitCode))
        && NumberOk(block[i], DurationKey) && Number(block[i], DurationKey) == Some(Milliseconds(r.duration))
        && block[i].Read(StatusKey) == Slug(r.Status())
    {
      var r := RunStep(step, w).results[i - 1];
      var at := if i == 1 then w.finishedAt else w.refinishedAt;
      assert events[i] == StepFinishedEvent(job, r, at);
      FinishNumbers(job, r, at);
      FinishIdentity(job, r, at);
      StampKeeps(events[i], pipeline, runId);
    }
  }

  lemma FinishIdentity(job: string, r: StepResult, at: Timestamp)
    ensures var e := StepFinishedEvent(job, r, at); e.kind == StepFinished && e.job == job && e.step == r.stepName
  {
    hide FormatInt;
  }

  /** An event of one job of one run. */
  predicate OfJob(e: Event, runId: string, pipeline: string, job: string) {
    && e.runId == runId && e.pipeline == pipeline && e.job == job
    && e.kind in {JobStarted, JobFinished, StepStarted, StepFinished}
  }

  ghost predicate AllOfJob(log: seq<Event>, runId: string, pipeline: string, job: string) {
    forall e :: e in log ==> OfJob(e, runId, pipeline, job)
  }

  lemma {:induction false} BlockIsOrdered(known: set<Entity>, block: seq<Event>, runId: string, job: string, step: string)
    requires block != [] && block[0].kind == StepStarted && JobEntity(runId, job) in known
    requires forall i :: 0 < i < |block| ==> block[i].kind == StepFinished
    requires forall i :: 0 <= i < |block| ==> block[i].runId == runId && block[i].job == job && block[i].step == step
    ensures Ordered(known, block) && StepEntity(runId, job, step) in Known(known, block)
  {
    if |block| == 1 {
      assert Known(known, block[..0]) == known && Ordered(known, block[..0]);
    } else {
      BlockIsOrdered(known, block[..|block| - 1], runId, job, step);
    }
  }

  lemma {:induction false} StepEventsAreOrdered(
      known: set<Entity>, job: Job, steps: nat -> StepWorld, k: nat, pipeline: string, runId: string)
    requires k <= |job.steps| && JobEntity(runId, job.name) in known
    ensures var log := StampAll(EventsUpTo(job, steps, k), pipeline, runId);
      Ordered(known, log) && AllRecordable(log) && AllOfJob(log, runId, pipeline, job.name)
  {
    hide StepEvents, RunStep, StampAll, Ordered, Recordable, OfJob, NumberOk, Number, Known;
    if k == 0 {
      assert StampAll(EventsUpTo(job, steps, 0), pipeline, runId) == [];
      EmptyIsOrdered(known);
    } else {
      var before := StampAll(EventsUpTo(job, steps, k - 1), pipeline, runId);
      StepEventsAreOrdered(known, job, steps, k - 1, pipeline, runId);
      var block := StepBlock(job.name, job.steps[k - 1], steps(k - 1), pipeline, runId);
      StampConcat(EventsUpTo(job, steps, k - 1), StepEvents(job.name, job.steps[k - 1], steps(k - 1)), pipeline, runId);
      KnownGrows(known, before);
      BlockIsOrdered(Known(known, before), block, runId, job.name, job.steps[k - 1].name);
      OrderedAppend(known, before, block);
      BlockIsRecordable(block);
      BlockIsOfJob(block, runId, pipeline, job.name);
    }
  }

  lemma BlockIsOfJob(block: seq<Event>, runId: string, pipeline: string, job: string)
    requires forall i :: 0 <= i < |block| ==>
      && block[i].runId == runId && block[i].pipeline == pipeline && block[i].job == job
      && block[i].kind in {StepStarted, StepFinished}
    ensures AllOfJob(block, runId, pipeline, job)
  {
  }

  lemma EmptyIsOrdered(known: set<Entity>)
    ensures Ordered(known, []) && Known(known, []) == known
  {
  }

  lemma OneIsOrdered(known: set<Entity>, e: Event)
    requires Grounded(known, e)
    ensures Ordered(known, [e]) && Known(known, [e]) == known + Introduced(e)
  {
    assert [e][..0] == [];
  }

  lemma BlockIsRecordable(block: seq<Event>)
    requires forall i :: 0 <= i < |block| ==> block[i].kind != PipelineStarted
    requires forall i :: 0 <= i < |block| && block[i].kind == StepFinished ==>
      NumberOk(block[i], ExitCodeKey) && NumberOk(block[i], DurationKey)
    ensures AllRecordable(block)
  {
    hide NumberOk;
  }

  /** A job's trace is ordered once its run has started. */
  lemma JobTraceIsOrdered(known: set<Entity>, job: Job, w: JobWorld, stage: string, pipeline: string, runId: string)
    requires RunEntity(runId) in known
    ensures var log := JobTrace(job, w, stage, pipeline, runId);
      Ordered(known, log) && AllRecordable(log) && AllOfJob(log, runId, pipeline, job.name)
  {
    hide RunUpTo, Ordered;
    var start := JobStartedEvent(job, w, stage, pipeline, runId);
    var finish := JobFinishedEvent(job, w, JobStatus(RunJob(job, w).result), pipeline, runId);
    var steps := StampAll(RunJob(job, w).events, pipeline, runId);
    var known1 := known + {JobEntity(runId, job.name)};
    OneIsOrdered(known, start);
    if SetupStops(job, w).None? {
      StepEventsAreOrdered(known1, job, w.steps, RunAll(job, w.steps).executed, pipeline, runId);
    } else {
      EmptyIsOrdered(known1);
    }
    OrderedAppend(known, [start], steps);
    KnownGrows(known1, steps);
    OneIsOrdered(Known(known1, steps), finish);
    OrderedAppend(known, [start] + steps, [finish]);
  }

  /** A stage's block, whatever its interleaving. */
  lemma StageBlockIsOrdered(known: set<Entity>, block: seq<Event>, stage: Stage, w: StageWorld, pipeline: string, runId: string)
    requires RunEntity(runId) in known && Interleaving(block, StageParts(stage, w, pipeline, runId))
    ensures Ordered(known, block) && AllRecordable(block)
    ensures forall e :: e in block ==> exists i :: 0 <= i < |stage.jobs| && OfJob(e, runId, pipeline, stage.jobs[i].name)
  {
    hide JobTrace, Ordered, Recordable, OfJob;
    var parts := StageParts(stage, w, pipeline, runId);
    var tags :| Merges(block, tags, parts);
    forall i | 0 <= i < |parts|
      ensures Ordered(known, parts[i]) && AllRecordable(parts[i])
      ensures AllOfJob(parts[i], runId, pipeline, stage.jobs[i].name)
    {
      JobTraceIsOrdered(known, stage.jobs[i], w.jobs(i), stage.name, pipeline, runId);
    }
    MergeIsOrdered(known, block, tags, parts);
    MergeIsRecordable(block, tags, parts);
    forall e | e in block
      ensures exists i :: 0 <= i < |stage.jobs| && OfJob(e, runId, pipeline, stage.jobs[i].name)
    {
      MergeMember(block, tags, parts, e);
      var i :| 0 <= i < |parts| && e in parts[i];
      assert OfJob(e, runId, pipeline, stage.jobs[i].name);
    }
  }

  lemma {:induction false} StageBlocksAreOrdered(
      known: set<Entity>, blocks: seq<seq<Event>>, p: Pipeline, w: RunWorld, runId: string)
    requires RunEntity(runId) in known && AreStageBlocks(blocks, p, w, runId)
    ensures Ordered(known, Flatten(blocks)) && AllRecordable(Flatten(blocks))
    ensures forall e :: e in Flatten(blocks) ==> OfJob(e, runId, p.name, e.job)
  {
    hide Ordered, Recordable, Interleaving, StageParts;
    if blocks == [] {
      EmptyIsOrdered(known);
    } else {
      var k := |blocks| - 1;
      var before := Flatten(blocks[..k]);
      StageBlocksAreOrdered(known, blocks[..k], p, w, runId);
      KnownGrows(known, before);
      StageBlockIsOrdered(Known(known, before), blocks[k], p.stages[k], w.stages(k), p.name, runId);
      OrderedAppend(known, before, blocks[k]);
      FlattenSnoc(blocks[..k], blocks[k]);
      assert blocks == blocks[..k] + [blocks[k]];
    }
  }

  predicate OfRunAndPipeline(e: Event, runId: string, pipeline: string) {
    e.runId == runId && e.pipeline == pipeline
  }

  /** Every trace a run can leave is ordered, recordable, and carries its run id and pipeline
      name on every event. */
  lemma RunTraceIsOrdered(known: set<Entity>, t: seq<Event>, p: Pipeline, w: RunWorld, runId: string)
    requires IsRunTrace(t, p, w, runId) && runId != ""
    ensures Ordered(known, t) && AllRecordable(t)
    ensures forall e :: e in t ==> OfRunAndPipeline(e, runId, p.name)
  {
    hide Ordered, AreStageBlocks, PipelineResultOf, PipelineStatus, Executed;
    var blocks :| TraceOf(t, blocks, p, w, runId);
    var start := PipelineStartedEvent(p, w, runId);
    var finish := PipelineFinishedEvent(p, w, runId, PipelineStatus(PipelineResultOf(p, w, runId)));
    OneIsOrdered(known, start);
    var known1 := known + {RunEntity(runId)};
    StageBlocksAreOrdered(known1, blocks, p, w, runId);
    OrderedAppend(known, [start], Flatten(blocks));
    KnownGrows(known1, Flatten(blocks));
    OneIsOrdered(Known(known1, Flatten(blocks)), finish);
    OrderedAppend(known, [start] + Flatten(blocks), [finish]);
  }

  // ---------- Any number of runs on one stream ----------

  datatype RunSpec = RunSpec(pipeline: Pipeline, world: RunWorld, runId: string)

  /** `stream` interleaves one trace of each run. */
  ghost predicate StreamOf(stream: seq<Event>, traces: seq<seq<Event>>, runs: seq<RunSpec>) {
    && |traces| == |runs|
    && (forall i :: 0 <= i < |runs| ==> IsRunTrace(traces[i], runs[i].pipeline, runs[i].world, runs[i].runId))
    && (forall i :: 0 <= i < |runs| ==> runs[i].runId != "")
    && Interleaving(stream, traces)
  }

  lemma StreamIsOrdered(known: set<Entity>, stream: seq<Event>, traces: seq<seq<Event>>, runs: seq<RunSpec>)
    requires StreamOf(stream, traces, runs)
    ensures Ordered(known, stream) && AllRecordable(stream)
  {
    hide IsRunTrace, Ordered, Recordable;
    var tags :| Merges(stream, tags, traces);
    forall i | 0 <= i < |traces|
      ensures Ordered(known, traces[i]) && AllRecordable(traces[i])
    {
      RunTraceIsOrdered(known, traces[i], runs[i].pipeline, runs[i].world, runs[i].runId);
    }
    MergeIsOrdered(known, stream, tags, traces);
    MergeIsRecordable(stream, tags, traces);
  }

  /** An ordered log of recordable events is accepted event by event. */
  lemma {:induction false} OrderedIsAccepted(known: set<Entity>, db: Db, log: seq<Event>, n: nat)
    requires Integrity(db) && Tracks(known, db) && Ordered(known, log) && AllRecordable(log) && n < |log|
    ensures ErrorOf(RecordAll(db, log[..n]), log[n]).None?
  {
    if n < |log| - 1 {
      var init := log[..|log| - 1];
      assert init[..n] == log[..n] && init[n] == log[n];
      OrderedIsAccepted(known, db, init, n);
    } else {
      var e := log[n];
      var k := Key(e.runId, e.job, e.step);
      CellTracksAlways(known, CellOf(db, k), log[..n], k);
      RecordAllRefinesCell(db, log[..n], k);
      IntegrityAlways(db, log[..n]);
      RecordRefinesCell(RecordAll(db, log[..n]), e, k);
      assert Recordable(e);
    }
  }

  /** Feeding the recorder the stream of any number of interleaved runs, in stream order, never
      fails: no unknown parent, no missing run id, no bad number. */
  lemma StreamIsAccepted(db: Db, stream: seq<Event>, traces: seq<seq<Event>>, runs: seq<RunSpec>)
    requires Integrity(db) && StreamOf(stream, traces, runs)
    ensures forall n :: 0 <= n < |stream| ==> ErrorOf(RecordAll(db, stream[..n]), stream[n]).None?
  {
    hide StreamOf, Ordered, Integrity, Recordable;
    StreamIsOrdered({}, stream, traces, runs);
    forall n | 0 <= n < |stream|
      ensures ErrorOf(RecordAll(db, stream[..n]), stream[n]).None?
    {
      OrderedIsAccepted({}, db, stream, n);
    }
  }

  // ---------- Trace shape ----------

  /** Job `i` of stage `s` is the pipeline's and has this name. */
  predicate JobIn(p: Pipeline, s: int, i: int, name: string) {
    0 <= s < |p.stages| && 0 <= i < |p.stages[s].jobs| && p.stages[s].jobs[i].name == name
  }

  /** No two jobs of the pipeline share a name. */
  ghost predicate UniqueJobNames(p: Pipeline) {
    forall s, i, t, j, name :: JobIn(p, s, i, name) && JobIn(p, t, j, name) ==> s == t && i == j
  }

  lemma {:induction false} BlocksInOrder(blocks: seq<seq<Event>>, a: nat, b: nat) returns (x: nat, y: nat)
    requires a <= b < |Flatten(blocks)|
    ensures x <= y < |blocks| && Flatten(blocks)[a] in blocks[x] && Flatten(blocks)[b] in blocks[y]
  {
    var n := |blocks[0]|;
    var rest := Flatten(blocks[1..]);
    if b < n {
      x, y := 0, 0;
    } else if a < n {
      var _, y' := BlocksInOrder(blocks[1..], b - n, b - n);
      assert Flatten(blocks)[b] == rest[b - n];
      x, y := 0, y' + 1;
    } else {
      var x', y' := BlocksInOrder(blocks[1..], a - n, b - n);
      assert Flatten(blocks)[a] == rest[a - n] && Flatten(blocks)[b] == rest[b - n];
      x, y := x' + 1, y' + 1;
    }
  }

  /** The run's own events frame the trace; in between, stages never overlap: of two events of
      jobs of declared stages the earlier one belongs to the same or an earlier stage, and no
      job of a stage that was not executed appears at all. */
  lemma TraceShape(t: seq<Event>, p: Pipeline, w: RunWorld, runId: string, a: nat, b: nat, s: int, i: int, u: int, j: int)
    requires IsRunTrace(t, p, w, runId) && UniqueJobNames(p)
    requires a <= b < |t|
    ensures t[a].kind == PipelineStarted <==> a == 0
    ensures t[a].kind == PipelineFinished <==> a == |t| - 1
    ensures 0 < a && b < |t| - 1 && JobIn(p, s, i, t[a].job) && JobIn(p, u, j, t[b].job) ==> s <= u < Executed(p, w)
  {
    hide AreStageBlocks, PipelineResultOf, PipelineStatus, Executed, Ordered, Recordable, OfJob, Interleaving, StageParts;
    var blocks :| TraceOf(t, blocks, p, w, runId);
    var f := Flatten(blocks);
    StageBlocksAreOrdered({RunEntity(runId)}, blocks, p, w, runId);
    assert forall n :: 0 < n < |t| - 1 ==> t[n] == f[n - 1] && f[n - 1] in f;
    forall n | 0 < n < |t| - 1
      ensures t[n].kind != PipelineStarted && t[n].kind != PipelineFinished
    {
      JobEventKind(t[n], runId, p.name, t[n].job);
    }
    if 0 < a && b < |t| - 1 && JobIn(p, s, i, t[a].job) && JobIn(p, u, j, t[b].job) {
      var x, y := BlocksInOrder(blocks, a - 1, b - 1);
      EventsStage(blocks, p, w, runId, x, t[a], s, i);
      EventsStage(blocks, p, w, runId, y, t[b], u, j);
    }
  }

  lemma JobEventKind(e: Event, runId: string, pipeline: string, job: string)
    requires OfJob(e, runId, pipeline, job)
    ensures e.kind != PipelineStarted && e.kind != PipelineFinished && e.job == job && e.runId == runId
  {
  }

  lemma EventsStage(blocks: seq<seq<Event>>, p: Pipeline, w: RunWorld, runId: string, x: nat, e: Event, s: int, i: int)
    requires AreStageBlocks(blocks, p, w, runId) && UniqueJobNames(p) && x < |blocks| && e in blocks[x]
    requires JobIn(p, s, i, e.job)
    ensures s == x
  {
    hide Ordered, Recordable, Interleaving, StageParts, OfJob;
    StageBlockIsOrdered({RunEntity(runId)}, blocks[x], p.stages[x], w.stages(x), p.name, runId);
    var m :| 0 <= m < |p.stages[x].jobs| && OfJob(e, runId, p.name, p.stages[x].jobs[m].name);
    assert JobIn(p, x, m, p.stages[x].jobs[m].name);
    JobEventKind(e, runId, p.name, p.stages[x].jobs[m].name);
  }

  // ---------- A job's projection is its own trace ----------

  /** The events the cell of `k` may look at: the run's own and those of the job. */
  predicate Concerns(e: Event, k: Key) {
    e.runId == k.run && (e.kind == PipelineStarted || e.kind == PipelineFinished || e.job == k.job)
  }

  function Concerning(k: Key): Event -> bool {
    (e: Event) => Concerns(e, k)
  }

  lemma OtherJobsConcernNot(e: Event, runId: string, pipeline: string, job: string, k: Key)
    requires OfJob(e, runId, pipeline, job)
    ensures Concerns(e, k) <==> runId == k.run && job == k.job
  {
  }

  lemma JobBlock(block: seq<Event>, stage: Stage, w: StageWorld, pipeline: string, runId: string, i: nat, k: Key)
    requires Interleaving(block, StageParts(stage, w, pipeline, runId))
    requires i < |stage.jobs| && stage.jobs[i].name == k.job && runId == k.run
    requires forall j :: 0 <= j < |stage.jobs| && j != i ==> stage.jobs[j].name != k.job
    ensures Filter(block, Concerning(k)) == JobTrace(stage.jobs[i], w.jobs(i), stage.name, pipeline, runId)
  {
    hide JobTrace, Ordered, Recordable, OfJob, Concerns;
    var parts := StageParts(stage, w, pipeline, runId);
    var tags :| Merges(block, tags, parts);
    forall q, x | 0 <= q < |parts| && x in parts[q]
      ensures Concerning(k)(x) <==> q == i
    {
      JobTraceIsOrdered({RunEntity(runId)}, stage.jobs[q], w.jobs(q), stage.name, pipeline, runId);
      OtherJobsConcernNot(x, runId, pipeline, stage.jobs[q].name, k);
    }
    FilterMerge(block, tags, parts, i, Concerning(k));
    FilterAll(parts[i], Concerning(k));
  }

  lemma BlockWithoutJob(block: seq<Event>, stage: Stage, w: StageWorld, pipeline: string, runId: string, k: Key)
    requires Interleaving(block, StageParts(stage, w, pipeline, runId))
    requires forall j :: 0 <= j < |stage.jobs| ==> stage.jobs[j].name != k.job
    ensures Filter(block, Concerning(k)) == []
  {
    hide Ordered, Recordable, OfJob, Concerns, Interleaving, StageParts;
    StageBlockIsOrdered({RunEntity(runId)}, block, stage, w, pipeline, runId);
    forall e | e in block
      ensures !Concerning(k)(e)
    {
      var j :| 0 <= j < |stage.jobs| && OfJob(e, runId, pipeline, stage.jobs[j].name);
      OtherJobsConcernNot(e, runId, pipeline, stage.jobs[j].name, k);
    }
    FilterNone(block, Concerning(k));
  }

  lemma {:induction false} BlocksWithoutJob(blocks: seq<seq<Event>>, p: Pipeline, w: RunWorld, runId: string, k: Key)
    requires AreStageBlocks(blocks, p, w, runId)
    requires forall s, i :: 0 <= s < |blocks| ==> !JobIn(p, s, i, k.job)
    ensures Filter(Flatten(blocks), Concerning(k)) == []
  {
    hide Interleaving, StageParts, Concerning;
    if blocks != [] {
      var n := |blocks| - 1;
      assert blocks == blocks[..n] + [blocks[n]];
      BlocksWithoutJob(blocks[..n], p, w, runId, k);
      forall j | 0 <= j < |p.stages[n].jobs|
        ensures p.stages[n].jobs[j].name != k.job
      {
        assert !JobIn(p, n, j, k.job);
      }
      BlockWithoutJob(blocks[n], p.stages[n], w.stages(n), p.name, runId, k);
      FlattenSnoc(blocks[..n], blocks[n]);
      FilterAppend(Flatten(blocks[..n]), blocks[n], Concerning(k));
    }
  }

  lemma {:induction false} BlocksWithJob(
      blocks: seq<seq<Event>>, p: Pipeline, w: RunWorld, runId: string, s: nat, i: nat, k: Key)
    requires AreStageBlocks(blocks, p, w, runId) && UniqueJobNames(p) && runId == k.run
    requires s < |blocks| && JobIn(p, s, i, k.job)
    ensures Filter(Flatten(blocks), Concerning(k)) ==
      JobTrace(p.stages[s].jobs[i], w.stages(s).jobs(i), p.stages[s].name, p.name, runId)
  {
    hide Interleaving, StageParts, JobTrace, Concerning;
    var n := |blocks| - 1;
    assert blocks == blocks[..n] + [blocks[n]];
    FlattenSnoc(blocks[..n], blocks[n]);
    FilterAppend(Flatten(blocks[..n]), blocks[n], Concerning(k));
    if s == n {
      BlocksWithoutJob(blocks[..n], p, w, runId, k);
      forall j | 0 <= j < |p.stages[n].jobs| && j != i
        ensures p.stages[n].jobs[j].name != k.job
      {
        assert JobIn(p, n, j, p.stages[n].jobs[j].name);
      }
      JobBlock(blocks[n], p.stages[n], w.stages(n), p.name, runId, i, k);
    } else {
      BlocksWithJob(blocks[..n], p, w, runId, s, i, k);
      forall j | 0 <= j < |p.stages[n].jobs|
        ensures p.stages[n].jobs[j].name != k.job
      {
        assert JobIn(p, n, j, p.stages[n].jobs[j].name);
      }
      BlockWithoutJob(blocks[n], p.stages[n], w.stages(n), p.name, runId, k);
    }
  }

  lemma RunFrame(t: seq<Event>, blocks: seq<seq<Event>>, p: Pipeline, w: RunWorld, runId: string, k: Key)
    requires TraceOf(t, blocks, p, w, runId) && runId == k.run
    ensures Filter(t, Concerning(k)) == [PipelineStartedEvent(p, w, runId)] + Filter(Flatten(blocks), Concerning(k))
      + [PipelineFinishedEvent(p, w, runId, PipelineStatus(PipelineResultOf(p, w, runId)))]
  {
    hide AreStageBlocks, PipelineResultOf, PipelineStatus, Executed;
    var a, b := [PipelineStartedEvent(p, w, runId)],
      [PipelineFinishedEvent(p, w, runId, PipelineStatus(PipelineResultOf(p, w, runId)))];
    FilterAppend(a + Flatten(blocks), b, Concerning(k));
    FilterAppend(a, Flatten(blocks), Concerning(k));
    FilterAll(a, Concerning(k));
    FilterAll(b, Concerning(k));
  }

  /** In any trace, the events of one executed job are exactly its own trace, in order, between
      the run's two. */
  lemma JobProjection(t: seq<Event>, p: Pipeline, w: RunWorld, runId: string, s: nat, i: nat, k: Key)
    requires IsRunTrace(t, p, w, runId) && UniqueJobNames(p) && runId == k.run
    requires s < Executed(p, w) && JobIn(p, s, i, k.job)
    ensures Filter(t, Concerning(k)) == [PipelineStartedEvent(p, w, runId)]
      + JobTrace(p.stages[s].jobs[i], w.stages(s).jobs(i), p.stages[s].name, p.name, runId)
      + [PipelineFinishedEvent(p, w, runId, PipelineStatus(PipelineResultOf(p, w, runId)))]
  {
    hide AreStageBlocks, PipelineResultOf, PipelineStatus, Executed, JobTrace;
    var blocks :| TraceOf(t, blocks, p, w, runId);
    BlocksWithJob(blocks, p, w, runId, s, i, k);
    RunFrame(t, blocks, p, w, runId, k);
  }

  ghost predicate OfStep(e: Event, kind: EventType, step: Step) {
    e.kind == kind && e.step == step.name
  }

  ghost predicate InPairs(job: Job, events: seq<Event>, n: nat, extra: bool)
    requires n <= |job.steps|
  {
    && |events| == 2 * n + (if extra then 1 else 0)
    && (forall i :: 0 <= i < n ==>
          OfStep(events[2 * i], StepStarted, job.steps[i]) && OfStep(events[2 * i + 1], StepFinished, job.steps[i]))
    && (extra ==> n > 0 && OfStep(events[2 * n], StepFinished, job.steps[n - 1]))
  }

  lemma {:induction false} StepsComeInPairs(job: Job, w: JobWorld, n: nat, pipeline: string, runId: string)
    requires n <= |job.steps| && RunUpTo(job, w.steps, n).executed == n
    ensures var r := RunUpTo(job, w.steps, n);
      InPairs(job, StampAll(EventsUpTo(job, w.steps, n), pipeline, runId), n, r.err.Some? && r.err.value.EnvReadAfter?)
  {
    hide RunStep, StepEvents, StampAll, NumberOk, Number;
    if n == 0 {
      NoStamps(pipeline, runId);
    } else {
      StepsComeInPairs(job, w, n - 1, pipeline, runId);
      var step, sw := job.steps[n - 1], w.steps(n - 1);
      var before := StampAll(EventsUpTo(job, w.steps, n - 1), pipeline, runId);
      var block := StepBlock(job.name, step, sw, pipeline, runId);
      StepHasShape(step, sw);
      StampConcat(EventsUpTo(job, w.steps, n - 1), StepEvents(job.name, step, sw), pipeline, runId);
      OnePairMore(job, before, block, n);
    }
  }

  lemma OnePairMore(job: Job, before: seq<Event>, block: seq<Event>, n: nat)
    requires 0 < n <= |job.steps| && InPairs(job, before, n - 1, false) && 2 <= |block| <= 3
    requires OfStep(block[0], StepStarted, job.steps[n - 1])
    requires forall i :: 0 < i < |block| ==> OfStep(block[i], StepFinished, job.steps[n - 1])
    ensures InPairs(job, before + block, n, |block| == 3)
  {
    var all := before + block;
    assert all[2 * (n - 1)] == block[0] && all[2 * (n - 1) + 1] == block[1];
  }

  /** A job's trace: job.started with its stage, then step.started and step.finished for each
      executed step in order, perhaps a second finish of the last one, then job.finished. */
  lemma JobTraceShape(job: Job, w: JobWorld, stage: string, pipeline: string, runId: string)
    ensures var t, r := JobTrace(job, w, stage, pipeline, runId), RunAll(job, w.steps);
      && |t| >= 2 && t[0].kind == JobStarted && t[0].Read(StageKey) == stage && t[|t| - 1].kind == JobFinished
      && (SetupStops(job, w).Some? ==> |t| == 2)
      && (SetupStops(job, w).None? ==>
            r.executed <= |job.steps| &&
            InPairs(job, t[1..|t| - 1], r.executed, r.err.Some? && r.err.value.EnvReadAfter?))
  {
    hide RunUpTo, EventsUpTo, StampAll, JobStatus, InPairs;
    var t := JobTrace(job, w, stage, pipeline, runId);
    assert t[1..|t| - 1] == StampAll(RunJob(job, w).events, pipeline, runId);
    if SetupStops(job, w).None? {
      ExecutedRounds(job, w.steps, |job.steps|);
      StepsComeInPairs(job, w, RunAll(job, w.steps).executed, pipeline, runId);
    }
  }

  /** A job that is in no executed stage leaves nothing. */
  lemma NoProjection(t: seq<Event>, p: Pipeline, w: RunWorld, runId: string, k: Key)
    requires IsRunTrace(t, p, w, runId) && runId == k.run
    requires forall s, i :: 0 <= s < Executed(p, w) ==> !JobIn(p, s, i, k.job)
    ensures Filter(t, Concerning(k)) == [PipelineStartedEvent(p, w, runId)]
      + [PipelineFinishedEvent(p, w, runId, PipelineStatus(PipelineResultOf(p, w, runId)))]
  {
    hide AreStageBlocks, PipelineResultOf, PipelineStatus, Executed;
    var blocks :| TraceOf(t, blocks, p, w, runId);
    BlocksWithoutJob(blocks, p, w, runId, k);
    RunFrame(t, blocks, p, w, runId, k);
  }
}
