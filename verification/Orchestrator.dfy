/**
 A pipeline run: stages one after the other, the jobs of a stage all at once. The goroutine
 of a job is the sequence of its publications followed by the write of its result slot; a
 scheduler that may pick any unfinished goroutine at every step interleaves them.
 */
module Orchestrator {
  import opened Basics
  import opened Numerals
  import opened Domain
  import opened Events
  import opened Bus
  import opened Runner
  import opened Jobs
  import R = Routines
  import opened Interleavings

  datatype StageWorld = StageWorld(jobs: nat -> JobWorld, duration: Int64)

  datatype RunWorld = RunWorld(
    stages: nat -> StageWorld, startedAt: Timestamp, finishedAt: Timestamp, duration: Int64)

  // ---------- What a run comes to ----------

  function StageResultOf(stage: Stage, w: StageWorld): (r: StageResult)
    ensures |r.jobResults| == |stage.jobs|
  {
    StageResult(stage.name, seq(|stage.jobs|, i requires 0 <= i < |stage.jobs| => RunJob(stage.jobs[i], w.jobs(i)).result),
      w.duration)
  }

  /** A failed or errored stage ends the run; a pending one does not. */
  predicate Stops(r: StageResult) {
    StageStatus(r) == Failed || StageStatus(r) == Errored
  }

  /** How many stages run, given that stages `k` and later are still to come. */
  function ExecutedFrom(p: Pipeline, w: RunWorld, k: nat): (n: nat)
    requires k <= |p.stages|
    ensures k <= n <= |p.stages|
    decreases |p.stages| - k
  {
    if k == |p.stages| then k
    else if Stops(StageResultOf(p.stages[k], w.stages(k))) then k + 1
    else ExecutedFrom(p, w, k + 1)
  }

  function Executed(p: Pipeline, w: RunWorld): (n: nat)
    ensures n <= |p.stages|
  {
    ExecutedFrom(p, w, 0)
  }

  function ResultsUpTo(p: Pipeline, w: RunWorld, n: nat): (results: seq<StageResult>)
    requires n <= |p.stages|
    ensures |results| == n
  {
    seq(n, k requires 0 <= k < n => StageResultOf(p.stages[k], w.stages(k)))
  }

  function PipelineResultOf(p: Pipeline, w: RunWorld, runId: string): PipelineResult {
    PipelineResult(runId, w.duration, p.name, ResultsUpTo(p, w, Executed(p, w)))
  }

  // ---------- What a run publishes ----------

  function PipelineStartedEvent(p: Pipeline, w: RunWorld, runId: string): Event {
    Event(PipelineStarted, w.startedAt, runId, p.name, "", "", map[])
  }

  function PipelineFinishedEvent(p: Pipeline, w: RunWorld, runId: string, status: Status): Event {
    Event(PipelineFinished, w.finishedAt, runId, p.name, "", "", map[StatusKey := Slug(status)])
  }

  function StageParts(stage: Stage, w: StageWorld, pipeline: string, runId: string): (parts: seq<seq<Event>>)
    ensures |parts| == |stage.jobs|
  {
    seq(|stage.jobs|, i requires 0 <= i < |stage.jobs| => JobTrace(stage.jobs[i], w.jobs(i), stage.name, pipeline, runId))
  }

  /** `blocks[k]` is one interleaving of the jobs of stage `k`. */
  ghost predicate AreStageBlocks(blocks: seq<seq<Event>>, p: Pipeline, w: RunWorld, runId: string) {
    |blocks| <= |p.stages| &&
    forall k :: 0 <= k < |blocks| ==> Interleaving(blocks[k], StageParts(p.stages[k], w.stages(k), p.name, runId))
  }

  /** What an uncancelled run may leave on a healthy bus: its started event, one block per
      executed stage, its finished event. */
  ghost predicate TraceOf(t: seq<Event>, blocks: seq<seq<Event>>, p: Pipeline, w: RunWorld, runId: string) {
    && AreStageBlocks(blocks, p, w, runId) && |blocks| == Executed(p, w)
    && t == [PipelineStartedEvent(p, w, runId)] + Flatten(blocks)
         + [PipelineFinishedEvent(p, w, runId, PipelineStatus(PipelineResultOf(p, w, runId)))]
  }

  ghost predicate IsRunTrace(t: seq<Event>, p: Pipeline, w: RunWorld, runId: string) {
    exists blocks :: TraceOf(t, blocks, p, w, runId)
  }

  // ---------- What a cancelled run still publishes ----------

  /** Every job of the stage has its finished event among these, with its final status. */
  ghost predicate JobsFinish(sent: seq<Event>, stage: Stage, w: StageWorld, pipeline: string, runId: string) {
    forall i :: 0 <= i < |stage.jobs| ==>
      JobFinishedEvent(stage.jobs[i], w.jobs(i), JobStatus(StageResultOf(stage, w).jobResults[i]), pipeline, runId) in sent
  }

  ghost predicate StagesFinish(sent: seq<Event>, p: Pipeline, w: RunWorld, runId: string, n: nat)
    requires n <= |p.stages|
  {
    forall k :: 0 <= k < n ==> JobsFinish(sent, p.stages[k], w.stages(k), p.name, runId)
  }

  lemma JobTraceEnds(job: Job, w: JobWorld, stage: string, pipeline: string, runId: string)
    ensures var t := JobTrace(job, w, stage, pipeline, runId);
      t != [] && t[|t| - 1] == JobFinishedEvent(job, w, JobStatus(RunJob(job, w).result), pipeline, runId)
  {
  }

  /** A producer that has published all of its part has its last event among these. */
  ghost predicate EndsSent(sent: seq<Event>, parts: seq<seq<Event>>, pcs: seq<nat>) {
    |pcs| == |parts| &&
    forall i :: 0 <= i < |parts| ==> parts[i] != [] && (pcs[i] >= |parts[i]| ==> parts[i][|parts[i]| - 1] in sent)
  }

  lemma NoEndsYet(stage: Stage, w: StageWorld, pipeline: string, runId: string)
    ensures EndsSent([], StageParts(stage, w, pipeline, runId), seq(|stage.jobs|, _ => 0))
  {
    hide JobTrace;
    forall i | 0 <= i < |stage.jobs|
      ensures StageParts(stage, w, pipeline, runId)[i] != []
    {
      JobTraceEnds(stage.jobs[i], w.jobs(i), stage.name, pipeline, runId);
    }
  }

  lemma EndSent(sent: seq<Event>, more: seq<Event>, parts: seq<seq<Event>>, pcs: seq<nat>, i: nat)
    requires EndsSent(sent, parts, pcs) && i < |pcs| && sent <= more
    requires pcs[i] == |parts[i]| - 1 ==> more == sent + [parts[i][pcs[i]]]
    ensures EndsSent(more, parts, pcs[i := pcs[i] + 1])
  {
  }

  lemma AllEndsSent(sent: seq<Event>, pcs: seq<nat>, stage: Stage, w: StageWorld, pipeline: string, runId: string)
    requires var parts := StageParts(stage, w, pipeline, runId);
      EndsSent(sent, parts, pcs) && forall i :: 0 <= i < |parts| ==> pcs[i] >= |parts[i]|
    ensures JobsFinish(sent, stage, w, pipeline, runId)
  {
    hide JobTrace, RunJob, JobFinishedEvent, JobStatus;
    forall i | 0 <= i < |stage.jobs|
      ensures JobFinishedEvent(stage.jobs[i], w.jobs(i), JobStatus(StageResultOf(stage, w).jobResults[i]), pipeline, runId) in sent
    {
      JobTraceEnds(stage.jobs[i], w.jobs(i), stage.name, pipeline, runId);
      assert StageParts(stage, w, pipeline, runId)[i] == JobTrace(stage.jobs[i], w.jobs(i), stage.name, pipeline, runId);
    }
  }

  lemma AddFinishedStage(a: seq<Event>, b: seq<Event>, p: Pipeline, w: RunWorld, runId: string, n: nat)
    requires n < |p.stages| && StagesFinish(a, p, w, runId, n)
    requires JobsFinish(b, p.stages[n], w.stages(n), p.name, runId)
    ensures StagesFinish(a + b, p, w, runId, n + 1)
  {
    hide JobFinishedEvent, StageResultOf, JobStatus;
  }

  lemma AddFinishedRun(
      first: seq<Event>, middle: seq<Event>, last: seq<Event>, p: Pipeline, w: RunWorld, runId: string, n: nat)
    requires n <= |p.stages| && StagesFinish(middle, p, w, runId, n)
    ensures StagesFinish(first + middle + last, p, w, runId, n)
  {
    hide JobFinishedEvent, StageResultOf, JobStatus;
  }

  // ---------- Fail-fast ----------

  /** A job of the stage could not be set up, or one of its steps hit a fault or exited non-zero. */
  ghost predicate Broken(r: StageResult) {
    exists j :: j in r.jobResults &&
      (j.setupErr.Some? || exists s :: s in j.stepResults && (s.err.Some? || s.exitCode != 0))
  }

  /** Exactly the broken stages end a run: not those that passed, nor those without results. */
  lemma BrokenStops(r: StageResult)
    ensures Stops(r) <==> Broken(r)
  {
    hide StageStatus;
    StageStatusInWords(r);
    assert Broken(r) <==> StageFaulty(r) || StageFails(r) by {
      BrokenJobs(r);
    }
  }

  lemma BrokenJobs(r: StageResult)
    ensures Broken(r) <==> StageFaulty(r) || StageFails(r)
  {
    if j :| j in r.jobResults && (j.setupErr.Some? || exists s :: s in j.stepResults && (s.err.Some? || s.exitCode != 0)) {
      assert JobFaulty(j) || JobFails(j);
    }
    if j :| j in r.jobResults && (JobFaulty(j) || JobFails(j)) {
      assert j.setupErr.Some? || exists s :: s in j.stepResults && (s.err.Some? || s.exitCode != 0);
    }
  }

  /** These are the results of a run of this pipeline: one for each of its first stages, in
      order; only the last may be broken, and it is whenever a stage is left out. So a stage
      that is not broken is followed by the next one. */
  ghost predicate FailsFast(p: Pipeline, results: seq<StageResult>) {
    && |results| <= |p.stages|
    && (forall k :: 0 <= k < |results| ==> results[k].stageName == p.stages[k].name)
    && (forall k :: 0 <= k < |results| - 1 ==> !Broken(results[k]))
    && (|results| < |p.stages| ==> results != [] && Broken(results[|results| - 1]))
  }

  /** The results of any run are such, and no other number of stages would be. */
  lemma RunsFailFast(p: Pipeline, w: RunWorld, runId: string, n: nat)
    requires n <= |p.stages|
    ensures FailsFast(p, ResultsUpTo(p, w, n)) <==> n == |PipelineResultOf(p, w, runId).stageResults|
    ensures FailsFast(p, PipelineResultOf(p, w, runId).stageResults)
  {
    hide Stops, Broken;
    assert forall k :: 0 <= k < |p.stages| ==> StageResultOf(p.stages[k], w.stages(k)).stageName == p.stages[k].name;
    hide StageResultOf;
    forall m: nat | m <= |p.stages|
      ensures FailsFast(p, ResultsUpTo(p, w, m)) <==> FailFast(p, w, m)
    {
      var results := ResultsUpTo(p, w, m);
      forall k | 0 <= k < m
        ensures Stops(results[k]) <==> Broken(results[k])
      {
        BrokenStops(results[k]);
      }
    }
    ExecutedIsFailFast(p, w, n);
    ExecutedIsFailFast(p, w, Executed(p, w));
  }

  /** What a run returns, field by field: its own id, name and measured times, and in every slot
      what the runner returned for that job. */
  lemma ResultInWords(p: Pipeline, w: RunWorld, runId: string, k: nat, i: nat)
    ensures var r := PipelineResultOf(p, w, runId);
      && r.runId == runId && r.pipelineName == p.name && r.duration == w.duration
      && (k < |r.stageResults| ==>
            && |r.stageResults| <= |p.stages|
            && r.stageResults[k].stageName == p.stages[k].name && r.stageResults[k].duration == w.stages(k).duration
            && |r.stageResults[k].jobResults| == |p.stages[k].jobs|
            && (i < |p.stages[k].jobs| ==>
                  && r.stageResults[k].jobResults[i] == RunJob(p.stages[k].jobs[i], w.stages(k).jobs(i)).result
                  && r.stageResults[k].jobResults[i].jobName == p.stages[k].jobs[i].name))
  {
    hide Executed, RunJob;
    var r := PipelineResultOf(p, w, runId);
    assert r.stageResults == ResultsUpTo(p, w, Executed(p, w));
    if k < |r.stageResults| {
      assert r.stageResults[k] == StageResultOf(p.stages[k], w.stages(k));
      if i < |p.stages[k].jobs| {
        NameOfResult(p.stages[k].jobs[i], w.stages(k).jobs(i));
      }
    }
  }

  lemma NameOfResult(job: Job, w: JobWorld)
    ensures RunJob(job, w).result.jobName == job.name
  {
  }

  lemma RunFailsFast(p: Pipeline, w: RunWorld, runId: string)
    ensures FailsFast(p, PipelineResultOf(p, w, runId).stageResults)
  {
    hide FailsFast;
    RunsFailFast(p, w, runId, 0);
  }

  predicate FailFast(p: Pipeline, w: RunWorld, n: nat)
    requires n <= |p.stages|
  {
    && (forall k :: 0 <= k < n - 1 ==> !Stops(ResultsUpTo(p, w, n)[k]))
    && (n < |p.stages| ==> n > 0 && Stops(ResultsUpTo(p, w, n)[n - 1]))
  }

  lemma {:induction false} ExecutedFromStops(p: Pipeline, w: RunWorld, k: nat, n: nat)
    requires k <= n <= |p.stages|
    ensures n == ExecutedFrom(p, w, k) <==>
      && (forall i :: k <= i < n - 1 ==> !Stops(StageResultOf(p.stages[i], w.stages(i))))
      && (n < |p.stages| ==> n > k && Stops(StageResultOf(p.stages[n - 1], w.stages(n - 1))))
    decreases |p.stages| - k
  {
    hide Stops, StageResultOf;
    if k < |p.stages| {
      if n == k {
      } else {
        ExecutedFromStops(p, w, k + 1, n);
      }
    }
  }

  lemma ExecutedIsFailFast(p: Pipeline, w: RunWorld, n: nat)
    requires n <= |p.stages|
    ensures n == Executed(p, w) <==> FailFast(p, w, n)
  {
    hide Stops, StageResultOf;
    ExecutedFromStops(p, w, 0, n);
    assert forall k :: 0 <= k < n ==> ResultsUpTo(p, w, n)[k] == StageResultOf(p.stages[k], w.stages(k));
  }

  // ---------- The orchestrator ----------

  /** The work a stage's goroutines still have: one step per publication left, one per slot. */
  function WorkLeft(parts: seq<seq<Event>>, pcs: seq<nat>): nat
    requires |pcs| == |parts| && forall i :: 0 <= i < |pcs| ==> pcs[i] <= |parts[i]| + 1
  {
    if parts == [] then 0 else |parts[0]| + 1 - pcs[0] + WorkLeft(parts[1..], pcs[1..])
  }

  lemma {:induction false} WorkShrinks(parts: seq<seq<Event>>, pcs: seq<nat>, i: nat)
    requires |pcs| == |parts| && forall j :: 0 <= j < |pcs| ==> pcs[j] <= |parts[j]| + 1
    requires i < |pcs| && pcs[i] <= |parts[i]|
    ensures WorkLeft(parts, pcs[i := pcs[i] + 1]) < WorkLeft(parts, pcs)
  {
    if i == 0 {
      assert pcs[0 := pcs[0] + 1][1..] == pcs[1..];
    } else {
      assert pcs[i := pcs[i] + 1][1..] == pcs[1..][i - 1 := pcs[1..][i - 1] + 1];
      WorkShrinks(parts[1..], pcs[1..], i - 1);
    }
  }

  /** Producer `i` has contributed the first `pcs[i]` elements of its part, or all of it. */
  ghost predicate Contributed(block: seq<Event>, tags: seq<nat>, parts: seq<seq<Event>>, pcs: seq<nat>) {
    && |tags| == |block| && |pcs| == |parts|
    && (forall i :: 0 <= i < |tags| ==> tags[i] < |parts|)
    && forall i :: 0 <= i < |parts| ==>
         pcs[i] <= |parts[i]| + 1 &&
         Pick(block, tags, i) == parts[i][..if pcs[i] <= |parts[i]| then pcs[i] else |parts[i]|]
  }

  lemma Contribute(block: seq<Event>, tags: seq<nat>, parts: seq<seq<Event>>, pcs: seq<nat>, i: nat)
    requires Contributed(block, tags, parts, pcs) && i < |parts| && pcs[i] < |parts[i]|
    ensures Contributed(block + [parts[i][pcs[i]]], tags + [i], parts, pcs[i := pcs[i] + 1])
  {
    forall j | 0 <= j < |parts|
      ensures Pick(block + [parts[i][pcs[i]]], tags + [i], j) ==
        if j == i then Pick(block, tags, j) + [parts[i][pcs[i]]] else Pick(block, tags, j)
    {
      PickSnoc(block, tags, parts[i][pcs[i]], i, j);
    }
  }

  lemma NoneContributed(parts: seq<seq<Event>>)
    ensures Contributed([], [], parts, seq(|parts|, _ => 0))
  {
  }

  /** Writing the result slot publishes nothing. */
  lemma SlotWritten(block: seq<Event>, tags: seq<nat>, parts: seq<seq<Event>>, pcs: seq<nat>, i: nat)
    requires Contributed(block, tags, parts, pcs) && i < |parts| && pcs[i] == |parts[i]|
    ensures Contributed(block, tags, parts, pcs[i := pcs[i] + 1])
  {
  }

  ghost predicate Bounded(parts: seq<seq<Event>>, pcs: seq<nat>) {
    |pcs| == |parts| && forall i :: 0 <= i < |pcs| ==> pcs[i] <= |parts[i]| + 1
  }

  lemma AllContributed(block: seq<Event>, tags: seq<nat>, parts: seq<seq<Event>>, pcs: seq<nat>)
    requires Contributed(block, tags, parts, pcs) && forall i :: 0 <= i < |parts| ==> pcs[i] > |parts[i]|
    ensures Interleaving(block, parts)
  {
    assert forall i :: 0 <= i < |parts| ==> parts[i][..|parts[i]|] == parts[i];
    assert Merges(block, tags, parts);
  }

  function AssignmentOf(stage: Stage, w: StageWorld, pipeline: string, runId: string, i: nat): R.Assignment
    requires i < |stage.jobs|
  {
    R.Assignment(stage.jobs[i], w.jobs(i), stage.name, pipeline, runId)
  }

  /** The goroutine after `pc` steps: one for each event of its trace, and one for its slot. */
  ghost predicate RoutineIs(a: R.Assignment, r: R.Routine, pc: nat) {
    if pc <= |a.Trace()| then r == R.At(a, pc) else r == R.Done
  }

  ghost predicate RoutinesAre(
      stage: Stage, w: StageWorld, pipeline: string, runId: string, routines: seq<R.Routine>, pcs: seq<nat>)
  {
    && |routines| == |pcs| == |stage.jobs|
    && forall i :: 0 <= i < |pcs| ==> RoutineIs(AssignmentOf(stage, w, pipeline, runId, i), routines[i], pcs[i])
  }

  lemma Spawn(stage: Stage, w: StageWorld, pipeline: string, runId: string)
    ensures RoutinesAre(stage, w, pipeline, runId, seq(|stage.jobs|, _ => R.Spawned), seq(|stage.jobs|, _ => 0))
  {
  }

  lemma PartIsTrace(stage: Stage, w: StageWorld, pipeline: string, runId: string, i: nat)
    requires i < |stage.jobs|
    ensures StageParts(stage, w, pipeline, runId)[i] == AssignmentOf(stage, w, pipeline, runId, i).Trace()
  {
  }

  /** What a goroutine that is not done does next. */
  lemma GoesOn(a: R.Assignment, r: R.Routine, pc: nat)
    requires RoutineIs(a, r, pc) && r != R.Done
    ensures pc <= |a.Trace()|
    ensures var (event, next) := R.Go(a, r);
      && RoutineIs(a, next, pc + 1)
      && (event.Some? <==> pc < |a.Trace()|)
      && (event.Some? ==> event.value == a.Trace()[pc] && (event.value.kind == JobFinished <==> pc == |a.Trace()| - 1))
      && (event.None? ==> r.Writing? && r.result == RunJob(a.job, a.w).result)
  {
    hide R.Go, RunJob, JobTrace;
    R.RoutineRunsJob(a);
    R.FinishedComesLast(a);
    if pc == |a.Trace()| {
      R.WritesAndEnds(a, r);
    }
  }

  /** One goroutine takes a step. */
  lemma OneGoesOn(
      stage: Stage, w: StageWorld, pipeline: string, runId: string, routines: seq<R.Routine>, pcs: seq<nat>, i: nat)
    requires RoutinesAre(stage, w, pipeline, runId, routines, pcs) && i < |pcs| && routines[i] != R.Done
    ensures var part := StageParts(stage, w, pipeline, runId)[i];
      var (event, next) := R.Go(AssignmentOf(stage, w, pipeline, runId, i), routines[i]);
      && RoutinesAre(stage, w, pipeline, runId, routines[i := next], pcs[i := pcs[i] + 1])
      && pcs[i] <= |part| && (event.Some? <==> pcs[i] < |part|)
      && (event.Some? ==> event.value == part[pcs[i]] && (event.value.kind == JobFinished <==> pcs[i] == |part| - 1))
      && (event.None? ==> routines[i].Writing? && routines[i].result == RunJob(stage.jobs[i], w.jobs(i)).result)
  {
    hide R.Go, RunJob, JobTrace, RoutineIs;
    GoesOn(AssignmentOf(stage, w, pipeline, runId, i), routines[i], pcs[i]);
    PartIsTrace(stage, w, pipeline, runId, i);
  }

  /** A goroutine is done only after it wrote its slot. */
  lemma AllDone(stage: Stage, w: StageWorld, pipeline: string, runId: string, routines: seq<R.Routine>, pcs: seq<nat>)
    requires RoutinesAre(stage, w, pipeline, runId, routines, pcs)
    requires forall i :: 0 <= i < |routines| ==> routines[i] == R.Done
    ensures forall i :: 0 <= i < |pcs| ==> pcs[i] > |StageParts(stage, w, pipeline, runId)[i]|
  {
    hide R.Go, R.At, RunJob, JobTrace;
    forall i | 0 <= i < |pcs|
      ensures pcs[i] > |StageParts(stage, w, pipeline, runId)[i]|
    {
      PartIsTrace(stage, w, pipeline, runId, i);
      R.NotDoneBefore(AssignmentOf(stage, w, pipeline, runId, i), pcs[i]);
    }
  }

  class Orchestrator {
    const sink: Stream

    constructor (sink: Stream)
      ensures this.sink == sink
    {
      this.sink := sink;
    }

    /** Runs a stage's jobs: any unfinished goroutine may take the next step, by which it
        publishes an event or writes its slot. The result is the same for all schedules and for
        every bus; a healthy bus shows some interleaving of the jobs' traces, and one on which
        the run was cancelled still every job's finished event. */
    method RunStage(stage: Stage, w: StageWorld, pipeline: string, runId: string)
      returns (result: StageResult, ghost sent: seq<Event>)
      modifies sink`events
      ensures result == StageResultOf(stage, w)
      ensures sink.events == old(sink.events) + sent
      ensures sink.mode == Healthy ==> Interleaving(sent, StageParts(stage, w, pipeline, runId))
      ensures sink.mode == Cancelled ==> JobsFinish(sent, stage, w, pipeline, runId)
    {
      hide JobTrace, RunJob, StageParts, Contributed, Interleaving, EndsSent, JobsFinish, WorkLeft, JobStatus, R.Go,
        RoutinesAre;
      var n := |stage.jobs|;
      var jobResults := new JobResult[n](_ => JobResult("", [], None));
      var routines: seq<R.Routine> := seq(n, _ => R.Spawned);
      ghost var parts, pcs: seq<nat> := StageParts(stage, w, pipeline, runId), seq(n, _ => 0);
      sent := [];
      ghost var tags: seq<nat> := [];
      NoneContributed(parts);
      NoEndsYet(stage, w, pipeline, runId);
      Spawn(stage, w, pipeline, runId);
      while exists i :: 0 <= i < n && routines[i] != R.Done
        invariant |routines| == n && Bounded(parts, pcs) && sink.events == old(sink.events) + sent
        invariant RoutinesAre(stage, w, pipeline, runId, routines, pcs)
        invariant forall i :: 0 <= i < n && pcs[i] > |parts[i]| ==> jobResults[i] == RunJob(stage.jobs[i], w.jobs(i)).result
        invariant sink.mode == Healthy ==> Contributed(sent, tags, parts, pcs)
        invariant sink.mode == Cancelled ==> EndsSent(sent, parts, pcs)
        decreases WorkLeft(parts, pcs)
      {
        var i :| 0 <= i < n && routines[i] != R.Done;
        var (event, next) := R.Go(AssignmentOf(stage, w, pipeline, runId, i), routines[i]);
        OneGoesOn(stage, w, pipeline, runId, routines, pcs, i);
        WorkShrinks(parts, pcs, i);
        ghost var before := sent;
        if event.Some? {
          ghost var events := sink.events;
          var _ := sink.Publish(event.value, event.value.kind == JobFinished);
          if sink.events != events {
            if sink.mode == Healthy {
              Contribute(sent, tags, parts, pcs, i);
            }
            sent, tags := sent + [event.value], tags + [i];
          }
        } else {
          if sink.mode == Healthy {
            SlotWritten(sent, tags, parts, pcs, i);
          }
          jobResults[i] := routines[i].result;
        }
        if sink.mode == Cancelled {
          EndSent(before, sent, parts, pcs, i);
        }
        routines, pcs := routines[i := next], pcs[i := pcs[i] + 1];
      }
      AllDone(stage, w, pipeline, runId, routines, pcs);
      if sink.mode == Healthy {
        AllContributed(sent, tags, parts, pcs);
      }
      if sink.mode == Cancelled {
        AllEndsSent(sent, pcs, stage, w, pipeline, runId);
      }
      result := StageResult(stage.name, jobResults[..], w.duration);
    }

    /** Runs a pipeline. Neither the schedules nor the bus can change the result, and it fails
        fast; a healthy bus is left a trace that ends with the result's own status, and one on
        which the run was cancelled still gets every finished event of a job and of the run. */
    method Run(p: Pipeline, w: RunWorld, runId: string) returns (result: PipelineResult, ghost sent: seq<Event>)
      modifies sink`events
      ensures result == PipelineResultOf(p, w, runId)
      ensures FailsFast(p, result.stageResults)
      ensures sink.events == old(sink.events) + sent
      ensures sink.mode == Healthy ==> IsRunTrace(sent, p, w, runId)
      ensures sink.mode == Cancelled ==>
        && sent != [] && sent[|sent| - 1] == PipelineFinishedEvent(p, w, runId, PipelineStatus(result))
        && StagesFinish(sent, p, w, runId, |result.stageResults|)
    {
      hide StageResultOf, Worst, PipelineLeaves, StagesFinish, IsRunTrace, PipelineStartedEvent, PipelineFinishedEvent,
        PipelineStatus, StagesSent, FailsFast, ExecutedFrom;
      ghost var start := sink.events;
      var _ := sink.Publish(PipelineStartedEvent(p, w, runId), false);
      ghost var first := sink.events[|start|..];
      var stageResults;
      ghost var middle, blocks;
      stageResults, middle, blocks := RunStages(p, w, runId);
      result := PipelineResult(runId, w.duration, p.name, stageResults);
      RunFailsFast(p, w, runId);
      var status := ComputePipelineStatus(result);
      ghost var before := sink.events;
      var _ := sink.Publish(PipelineFinishedEvent(p, w, runId, status), true);
      ghost var last := sink.events[|before|..];
      sent := first + middle + last;
      if sink.mode == Cancelled {
        AddFinishedRun(first, middle, last, p, w, runId, Executed(p, w));
      }
      if sink.mode == Healthy {
        TraceFrom(p, w, runId, blocks, middle);
        assert sent == [PipelineStartedEvent(p, w, runId)] + middle + [PipelineFinishedEvent(p, w, runId, status)];
      }
    }

    /** The stages, one after the other, until one ends the run. */
    method RunStages(p: Pipeline, w: RunWorld, runId: string)
      returns (stageResults: seq<StageResult>, ghost sent: seq<Event>, ghost blocks: seq<seq<Event>>)
      modifies sink`events
      ensures stageResults == ResultsUpTo(p, w, Executed(p, w))
      ensures sink.events == old(sink.events) + sent
      ensures sink.mode == Healthy ==> StagesSent(blocks, sent, p, w, runId, Executed(p, w))
      ensures sink.mode == Cancelled ==> StagesFinish(sent, p, w, runId, Executed(p, w))
    {
      hide StageResultOf, StageParts, Worst, StageLeaves, Interleaving, StagesFinish, JobsFinish, StageStatus, StagesSent;
      stageResults, sent, blocks := [], [], [];
      ghost var n := 0;
      NothingRun(p, w, runId);
      for k := 0 to |p.stages|
        invariant n == k && stageResults == ResultsUpTo(p, w, n)
        invariant Executed(p, w) == ExecutedFrom(p, w, k)
        invariant sink.events == old(sink.events) + sent
        invariant sink.mode == Healthy ==> StagesSent(blocks, sent, p, w, runId, n)
        invariant sink.mode == Cancelled ==> StagesFinish(sent, p, w, runId, n)
      {
        var stageResult;
        ghost var block;
        stageResult, block := RunStage(p.stages[k], w.stages(k), p.name, runId);
        if sink.mode == Healthy {
          blocks := AddStageBlock(blocks, sent, block, p, w, runId, k);
        }
        if sink.mode == Cancelled {
          AddFinishedStage(sent, block, p, w, runId, k);
        }
        sent := sent + block;
        stageResults := stageResults + [stageResult];
        n := k + 1;
        assert stageResults == ResultsUpTo(p, w, n);
        var worst := ComputeStageStatus(stageResult);
        if worst == Failed || worst == Errored {
          break;
        }
      }
    }

    /** The stages that ran have published these blocks. */
    ghost predicate StagesSent(blocks: seq<seq<Event>>, sent: seq<Event>, p: Pipeline, w: RunWorld, runId: string, n: nat) {
      AreStageBlocks(blocks, p, w, runId) && |blocks| == n && sent == Flatten(blocks)
    }

    lemma NothingRun(p: Pipeline, w: RunWorld, runId: string)
      ensures StagesSent([], [], p, w, runId, 0) && StagesFinish([], p, w, runId, 0)
    {
    }

    lemma AddStageBlock(
        blocks: seq<seq<Event>>, sent: seq<Event>, block: seq<Event>, p: Pipeline, w: RunWorld, runId: string, n: nat)
      returns (more: seq<seq<Event>>)
      requires StagesSent(blocks, sent, p, w, runId, n) && n < |p.stages|
      requires Interleaving(block, StageParts(p.stages[n], w.stages(n), p.name, runId))
      ensures StagesSent(more, sent + block, p, w, runId, n + 1)
    {
      hide Interleaving, StageParts;
      FlattenSnoc(blocks, block);
      more := blocks + [block];
    }

    lemma TraceFrom(p: Pipeline, w: RunWorld, runId: string, blocks: seq<seq<Event>>, middle: seq<Event>)
      requires StagesSent(blocks, middle, p, w, runId, Executed(p, w))
      ensures var last := PipelineFinishedEvent(p, w, runId, PipelineStatus(PipelineResultOf(p, w, runId)));
        IsRunTrace([PipelineStartedEvent(p, w, runId)] + middle + [last], p, w, runId)
    {
      hide AreStageBlocks, PipelineResultOf, Executed, Flatten, PipelineStatus, PipelineStartedEvent, PipelineFinishedEvent;
      var last := PipelineFinishedEvent(p, w, runId, PipelineStatus(PipelineResultOf(p, w, runId)));
      assert TraceOf([PipelineStartedEvent(p, w, runId)] + middle + [last], blocks, p, w, runId);
    }
  }
}
