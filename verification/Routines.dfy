/**
 The goroutine of one job, step by step: each step publishes one event or, at the end, writes
 the job's result slot. Results build up as the steps run.
 */
module Routines {
  import opened Basics
  import opened Domain
  import opened Events
  import opened Bus
  import opened Runner
  import opened StepMachine
  import opened Jobs

  /** A job, the world it meets, and what its events are stamped with. */
  datatype Assignment = Assignment(job: Job, w: JobWorld, stage: string, pipeline: string, runId: string)
  {
    function Trace(): seq<Event> {
      JobTrace(job, w, stage, pipeline, runId)
    }
  }

  datatype Routine =
    | Spawned
    | BeforeStep(k: nat, results: seq<StepResult>)    // about to start step k
    | DuringStep(k: nat, results: seq<StepResult>)    // its command runs
    | AfterFault(k: nat, results: seq<StepResult>)    // the env file could not be read after it
    | Ending(result: JobResult)
    | Writing(result: JobResult)
    | Done

  /** On to step `k`, unless a fault stopped the job or there is none. */
  function Onward(job: Job, k: nat, results: seq<StepResult>, err: Option<RunError>): Routine {
    if err.None? && k < |job.steps| then BeforeStep(k, results) else Ending(JobResult(job.name, results, None))
  }

  /** The event published by the next step, and the goroutine after it. */
  function Go(a: Assignment, r: Routine): (Option<Event>, Routine) {
    match r
    case Spawned =>
      var fault := SetupStops(a.job, a.w);
      (Some(JobStartedEvent(a.job, a.w, a.stage, a.pipeline, a.runId)),
       if fault.Some? then Ending(JobResult(a.job.name, [], fault)) else Onward(a.job, 0, [], None))
    case BeforeStep(k, results) =>
      if k >= |a.job.steps| then (None, Done)
      else
        (Some(Stamp(StepStartedEvent(a.job.name, a.job.steps[k].name, a.w.steps(k).startedAt), a.pipeline, a.runId)),
         DuringStep(k, results))
    case DuringStep(k, results) =>
      if k >= |a.job.steps| then (None, Done)
      else
        var now := RunStep(a.job.steps[k], a.w.steps(k));
        (Some(Stamp(StepFinishedEvent(a.job.name, now.results[0], a.w.steps(k).finishedAt), a.pipeline, a.runId)),
         if |now.results| == 2 then AfterFault(k, results + [now.results[0]])
         else Onward(a.job, k + 1, results + [now.results[0]], now.err))
    case AfterFault(k, results) =>
      if k >= |a.job.steps| || |RunStep(a.job.steps[k], a.w.steps(k)).results| < 2 then (None, Done)
      else
        var fault := RunStep(a.job.steps[k], a.w.steps(k)).results[1];
        (Some(Stamp(StepFinishedEvent(a.job.name, fault, a.w.steps(k).refinishedAt), a.pipeline, a.runId)),
         Ending(JobResult(a.job.name, results + [fault], None)))
    case Ending(result) =>
      (Some(JobFinishedEvent(a.job, a.w, JobStatus(result), a.pipeline, a.runId)), Writing(result))
    case Writing(_) => (None, Done)
    case Done => (None, Done)
  }

  /** The goroutine after `n` steps. */
  function At(a: Assignment, n: nat): Routine {
    if n == 0 then Spawned else Go(a, At(a, n - 1)).1
  }

  /** So far it has published this. */
  ghost predicate Publishes(a: Assignment, sent: seq<Event>) {
    forall n :: 0 <= n < |sent| ==> Go(a, At(a, n)).0 == Some(sent[n])
  }

  lemma PublishesMore(a: Assignment, sent: seq<Event>)
    requires Publishes(a, sent) && Go(a, At(a, |sent|)).0.Some?
    ensures Publishes(a, sent + [Go(a, At(a, |sent|)).0.value])
    ensures At(a, |sent| + 1) == Go(a, At(a, |sent|)).1
  {
    hide Go;
    var n, more := |sent|, sent + [Go(a, At(a, |sent|)).0.value];
    assert forall i :: 0 <= i < n ==> more[i] == sent[i];
  }

  /** One step of the job. */
  lemma StepIsRun(a: Assignment, k: nat, sent: seq<Event>, results: seq<StepResult>)
    requires k < |a.job.steps| && Publishes(a, sent) && At(a, |sent|) == BeforeStep(k, results)
    ensures var now := RunStep(a.job.steps[k], a.w.steps(k));
      var all := sent + StampAll(StepEvents(a.job.name, a.job.steps[k], a.w.steps(k)), a.pipeline, a.runId);
      Publishes(a, all) && At(a, |all|) == Onward(a.job, k + 1, results + now.results, now.err)
  {
    hide Publishes, RunStep, StepEvents, StampAll, Stamp, StepFinishedEvent, StepStartedEvent, At;
    var step, w := a.job.steps[k], a.w.steps(k);
    var now := RunStep(step, w);
    StepHasShape(step, w);
    StampStepEvents(a.job.name, step, w, a.pipeline, a.runId);
    PublishesMore(a, sent);
    var started := sent + [Go(a, At(a, |sent|)).0.value];
    PublishesMore(a, started);
    var finished := started + [Go(a, At(a, |started|)).0.value];
    if |now.results| == 2 {
      PublishesMore(a, finished);
      assert now.results == [now.results[0]] + [now.results[1]];
      assert results + now.results == results + [now.results[0]] + [now.results[1]];
      assert finished + [Go(a, At(a, |finished|)).0.value]
        == sent + StampAll(StepEvents(a.job.name, step, w), a.pipeline, a.runId);
    } else {
      assert now.results == [now.results[0]];
      assert finished == sent + StampAll(StepEvents(a.job.name, step, w), a.pipeline, a.runId);
    }
  }

  function FirstSent(a: Assignment, k: nat): seq<Event>
    requires k <= |a.job.steps|
  {
    [JobStartedEvent(a.job, a.w, a.stage, a.pipeline, a.runId)] + StampAll(EventsUpTo(a.job, a.w.steps, k), a.pipeline, a.runId)
  }

  lemma StartIsRun(a: Assignment)
    requires SetupStops(a.job, a.w).None?
    ensures Publishes(a, FirstSent(a, 0)) && At(a, |FirstSent(a, 0)|) == Onward(a.job, 0, [], None)
  {
    hide Publishes, RunUpTo, StampAll, SetupStops, JobStartedEvent;
    NothingPublished(a);
    PublishesMore(a, []);
    NoStamps(a.pipeline, a.runId);
    assert FirstSent(a, 0) == [] + [JobStartedEvent(a.job, a.w, a.stage, a.pipeline, a.runId)];
  }

  lemma {:induction false} StepsAreRun(a: Assignment, k: nat)
    requires SetupStops(a.job, a.w).None? && k <= |a.job.steps| && RunUpTo(a.job, a.w.steps, k).executed == k
    ensures var run := RunUpTo(a.job, a.w.steps, k);
      Publishes(a, FirstSent(a, k)) && At(a, |FirstSent(a, k)|) == Onward(a.job, k, run.results, run.err)
  {
    hide Publishes, RunStep, StepEvents, StampAll, SetupStops, JobStartedEvent, Go, At;
    if k == 0 {
      StartIsRun(a);
    } else {
      StepsAreRun(a, k - 1);
      StampConcat(EventsUpTo(a.job, a.w.steps, k - 1), StepEvents(a.job.name, a.job.steps[k - 1], a.w.steps(k - 1)),
        a.pipeline, a.runId);
      StepIsRun(a, k - 1, FirstSent(a, k - 1), RunUpTo(a.job, a.w.steps, k - 1).results);
      assert FirstSent(a, k) == FirstSent(a, k - 1)
        + StampAll(StepEvents(a.job.name, a.job.steps[k - 1], a.w.steps(k - 1)), a.pipeline, a.runId);
    }
  }

  lemma NothingPublished(a: Assignment)
    ensures Publishes(a, []) && At(a, 0) == Spawned
  {
  }

  /** The goroutine publishes the job's trace, then writes the runner's own result. */
  lemma RoutineRunsJob(a: Assignment)
    ensures Publishes(a, a.Trace()) && At(a, |a.Trace()|) == Writing(RunJob(a.job, a.w).result)
  {
    hide Publishes, StampAll, RunUpTo, EventsUpTo, JobStatus, JobStartedEvent, JobFinishedEvent, RunStep, Stamp, At;
    var start := [JobStartedEvent(a.job, a.w, a.stage, a.pipeline, a.runId)];
    if SetupStops(a.job, a.w).Some? {
      NothingPublished(a);
      PublishesMore(a, []);
      assert [] + start == start;
      NoStamps(a.pipeline, a.runId);
      PublishesMore(a, start);
      assert a.Trace() == start + [Go(a, At(a, |start|)).0.value];
    } else {
      var run := RunAll(a.job, a.w.steps);
      ExecutedRounds(a.job, a.w.steps, |a.job.steps|);
      StepsAreRun(a, run.executed);
      var sent := FirstSent(a, run.executed);
      PublishesMore(a, sent);
      assert a.Trace() == sent + [Go(a, At(a, |sent|)).0.value];
    }
  }

  lemma WritesAndEnds(a: Assignment, r: Routine)
    requires r.Writing?
    ensures Go(a, r) == (None, Done)
  {
  }

  lemma NotDoneBefore(a: Assignment, n: nat)
    ensures n <= |a.Trace()| ==> At(a, n) != Done
  {
    hide JobTrace, At;
    RoutineRunsJob(a);
    if n < |a.Trace()| {
      assert Go(a, At(a, n)).0 == Some(a.Trace()[n]);
    }
  }

  /** A job finishes once, at the end of its trace. */
  lemma FinishedComesLast(a: Assignment)
    ensures forall n :: 0 <= n < |a.Trace()| ==> (a.Trace()[n].kind == JobFinished <==> n == |a.Trace()| - 1)
  {
    hide RunJob, StampAll, JobStatus, SetupStops;
    var start := JobStartedEvent(a.job, a.w, a.stage, a.pipeline, a.runId);
    var steps := StampAll(RunJob(a.job, a.w).events, a.pipeline, a.runId);
    var finish := JobFinishedEvent(a.job, a.w, JobStatus(RunJob(a.job, a.w).result), a.pipeline, a.runId);
    NoFinishAmong(a);
    assert a.Trace() == [start] + steps + [finish];
    LastIsOnly(start, steps, finish);
  }

  lemma LastIsOnly(start: Event, steps: seq<Event>, finish: Event)
    requires start.kind != JobFinished && finish.kind == JobFinished
    requires forall e :: e in steps ==> e.kind != JobFinished
    ensures var t := [start] + steps + [finish];
      forall n :: 0 <= n < |t| ==> (t[n].kind == JobFinished <==> n == |t| - 1)
  {
    var t := [start] + steps + [finish];
    assert forall n :: 0 < n < |t| - 1 ==> t[n] == steps[n - 1] && steps[n - 1] in steps;
  }

  lemma NoFinishAmong(a: Assignment)
    ensures forall e :: e in StampAll(RunJob(a.job, a.w).events, a.pipeline, a.runId) ==> e.kind != JobFinished
  {
    hide EventsUpTo, RunUpTo, StampAll;
    if SetupStops(a.job, a.w).None? {
      StepEventKinds(a.job, a.w.steps, RunAll(a.job, a.w.steps).executed, a.pipeline, a.runId);
    } else {
      NoStamps(a.pipeline, a.runId);
    }
  }

  lemma {:induction false} StepEventKinds(job: Job, steps: nat -> StepWorld, k: nat, pipeline: string, runId: string)
    requires k <= |job.steps|
    ensures forall e :: e in StampAll(EventsUpTo(job, steps, k), pipeline, runId) ==>
      e.kind == StepStarted || e.kind == StepFinished
  {
    hide StepEvents, RunStep, StampAll;
    if k == 0 {
      NoStamps(pipeline, runId);
    } else {
      StepEventKinds(job, steps, k - 1, pipeline, runId);
      StampConcat(EventsUpTo(job, steps, k - 1), StepEvents(job.name, job.steps[k - 1], steps(k - 1)), pipeline, runId);
      StampStepEvents(job.name, job.steps[k - 1], steps(k - 1), pipeline, runId);
    }
  }
}
