/**
 One job in one container: setup, then the step machine. What Docker answers, how long
 things take and what the clock shows are inputs, drawn from a JobWorld: every answer the
 code could get is some world.
 */
module Runner {
  import opened Basics
  import opened Numerals
  import opened Domain
  import opened Events
  import opened EnvFile
  import opened Bus

  // ---------- The world a job meets ----------

  /** What running one command in the container yields. A failed exec has no exit code and no
      output; `deadline` says whether its error is a context deadline. */
  datatype ExecOutcome = Exited(code: ExitCode, stdout: string, stderr: string) | ExecFailed(deadline: bool)

  datatype StepWorld = StepWorld(
    before: ExecOutcome,          // reading the env file before the step
    exec: ExecOutcome,            // the step's own command
    cancelled: bool,              // whether the run's context is done once that command has failed
    after: ExecOutcome,           // reading the env file after the step
    beforeTime: Int64, execTime: Int64, afterTime: Int64,
    startedAt: Timestamp, finishedAt: Timestamp, refinishedAt: Timestamp)

  datatype JobWorld = JobWorld(
    pulled: bool, created: bool, containerStarted: bool,
    setup: nat -> ExecOutcome,
    envInit: ExecOutcome,
    steps: nat -> StepWorld,
    startedAt: Timestamp, finishedAt: Timestamp)

  datatype RunError =
    | EnvReadBefore(step: string)
    | RunCancelled
    | StepTimedOut(step: string)
    | ExecError
    | EnvReadAfter(step: string)
    | SetupError(fault: Fault)

  predicate EnvReadable(o: ExecOutcome) {
    o.Exited? && o.code == EXIT_SUCCESS
  }

  /** The env file's variables; None when it could not be read. */
  method ReadExportedEnv(o: ExecOutcome) returns (env: Option<Env>)
    ensures env == if EnvReadable(o) then Some(Parse(o.stdout)) else None
  {
    if o.ExecFailed? {
      return None;
    }
    if o.code != EXIT_SUCCESS {
      return None;
    }
    var parsed := ParseEnvFile(o.stdout);
    return Some(parsed);
  }

  // ---------- One step ----------

  datatype StepRun = StepRun(results: seq<StepResult>, err: Option<RunError>)

  function EnvFaultResult(step: Step, elapsed: Int64): StepResult {
    StepResult(step.name, "", "", EXIT_NONE, elapsed, Some(EnvReadFault))
  }

  function RunStep(step: Step, w: StepWorld): (r: StepRun)
    ensures 1 <= |r.results| <= 2
  {
    if !EnvReadable(w.before) then
      StepRun([EnvFaultResult(step, w.beforeTime)], Some(EnvReadBefore(step.name)))
    else
      match w.exec
      case ExecFailed(deadline) =>
        var res := StepResult(step.name, "", "", EXIT_NONE, w.execTime, None);
        if w.cancelled then
          StepRun([res.(err := Some(CancelledFault))], Some(RunCancelled))
        else if step.timeout > 0 && deadline then
          StepRun([res.(exitCode := EXIT_FAILURE)], Some(StepTimedOut(step.name)))
        else
          StepRun([res.(err := Some(ExecFault))], Some(ExecError))
      case Exited(code, stdout, stderr) =>
        var res := StepResult(step.name, stdout, stderr, code, w.execTime, None);
        if !EnvReadable(w.after) then
          StepRun([res, EnvFaultResult(step, w.afterTime)], Some(EnvReadAfter(step.name)))
        else
          StepRun([res], None)
  }

  /** Reading the env file failed, or exited non-zero. */
  predicate Unreadable(o: ExecOutcome) {
    o.ExecFailed? || o.code != 0
  }

  /** What one step comes to, from Docker's answers alone. A process that exits gives its own
      code and texts; one that does not is a cancellation, a timeout or a fault of the exec; an
      env file that cannot be read is a result of its own. */
  ghost predicate FollowsDocker(step: Step, w: StepWorld, results: seq<StepResult>, err: Option<RunError>) {
    if Unreadable(w.before) then
      && results == [StepResult(step.name, "", "", -1, w.beforeTime, Some(EnvReadFault))]
      && err == Some(EnvReadBefore(step.name))
    else
      match w.exec
      case Exited(code, stdout, stderr) =>
        && results != [] && results[0] == StepResult(step.name, stdout, stderr, code, w.execTime, None)
        && (if Unreadable(w.after) then
              && results[1..] == [StepResult(step.name, "", "", -1, w.afterTime, Some(EnvReadFault))]
              && err == Some(EnvReadAfter(step.name))
            else results[1..] == [] && err == None)
      case ExecFailed(deadline) =>
        && |results| == 1 && results[0].stepName == step.name && results[0].duration == w.execTime
        && results[0].stdout == results[0].stderr == ""
        && (w.cancelled ==>
              results[0].err == Some(CancelledFault) && results[0].exitCode == -1 && err == Some(RunCancelled))
        && (!w.cancelled && step.timeout > 0 && deadline ==>
              results[0].err == None && results[0].exitCode == 1 && err == Some(StepTimedOut(step.name)))
        && (!w.cancelled && (step.timeout <= 0 || !deadline) ==>
              results[0].err == Some(ExecFault) && results[0].exitCode == -1 && err == Some(ExecError))
  }

  lemma StepFollowsDocker(step: Step, w: StepWorld)
    ensures FollowsDocker(step, w, RunStep(step, w).results, RunStep(step, w).err)
  {
  }

  function Milliseconds(d: Int64): (ms: Int64) {
    TruncDiv(d, 1_000_000)
  }

  function StepStartedEvent(job: string, step: string, at: Timestamp): Event {
    Event(StepStarted, at, "", "", job, step, map[])
  }

  /** Status, duration and, if the process produced one, exit code: nothing of its output. */
  function StepFinishedEvent(job: string, result: StepResult, at: Timestamp): Event {
    var payload := map[StatusKey := Slug(result.Status()), DurationKey := FormatInt(Milliseconds(result.duration))];
    var full := if result.exitCode != EXIT_NONE then payload[ExitCodeKey := FormatInt(result.exitCode)] else payload;
    Event(StepFinished, at, "", "", job, result.stepName, full)
  }

  /** One started event, then one finished event per result. */
  function StepEvents(job: string, step: Step, w: StepWorld): (events: seq<Event>) {
    var results := RunStep(step, w).results;
    [StepStartedEvent(job, step.name, w.startedAt), StepFinishedEvent(job, results[0], w.finishedAt)]
      + if |results| == 2 then [StepFinishedEvent(job, results[1], w.refinishedAt)] else []
  }

  // ---------- All steps ----------

  /** What the first `executed` steps came to. */
  datatype StepsRun = StepsRun(executed: nat, results: seq<StepResult>, err: Option<RunError>)

  /** The step machine after at most `k` rounds: a step's own failure does not stop it, a
      fault does. */
  function RunUpTo(job: Job, steps: nat -> StepWorld, k: nat): (r: StepsRun)
    requires k <= |job.steps|
    ensures r.executed <= k && (r.err.None? ==> r.executed == k)
  {
    if k == 0 then StepsRun(0, [], None)
    else
      var done := RunUpTo(job, steps, k - 1);
      if done.err.Some? then done
      else
        var now := RunStep(job.steps[k - 1], steps(k - 1));
        StepsRun(k, done.results + now.results, now.err)
  }

  function RunAll(job: Job, steps: nat -> StepWorld): StepsRun {
    RunUpTo(job, steps, |job.steps|)
  }

  lemma {:induction false} StaysStopped(job: Job, steps: nat -> StepWorld, k: nat, n: nat)
    requires k <= n <= |job.steps| && RunUpTo(job, steps, k).err.Some?
    ensures RunUpTo(job, steps, n) == RunUpTo(job, steps, k)
  {
    if k < n {
      StaysStopped(job, steps, k, n - 1);
    }
  }

  lemma ExecutedRounds(job: Job, steps: nat -> StepWorld, k: nat)
    requires k <= |job.steps|
    ensures var n := RunUpTo(job, steps, k).executed; n <= k && RunUpTo(job, steps, n) == RunUpTo(job, steps, k)
  {
    hide RunStep;
    if k > 0 && RunUpTo(job, steps, k - 1).err.Some? {
      ExecutedRounds(job, steps, k - 1);
    }
  }

  /** The events of the first `k` steps. */
  function EventsUpTo(job: Job, steps: nat -> StepWorld, k: nat): seq<Event>
    requires k <= |job.steps|
  {
    if k == 0 then []
    else EventsUpTo(job, steps, k - 1) + StepEvents(job.name, job.steps[k - 1], steps(k - 1))
  }

  function EventsOfAll(job: Job, steps: nat -> StepWorld): seq<Event> {
    EventsUpTo(job, steps, RunAll(job, steps).executed)
  }

  ghost predicate AreStepBlocks(job: Job, steps: nat -> StepWorld, blocks: seq<seq<Event>>, pipeline: string, runId: string) {
    |blocks| <= |job.steps| &&
    forall i :: 0 <= i < |blocks| ==> blocks[i] == StampAll(StepEvents(job.name, job.steps[i], steps(i)), pipeline, runId)
  }

  lemma {:induction false} StepBlocksAreEvents(
      job: Job, steps: nat -> StepWorld, blocks: seq<seq<Event>>, pipeline: string, runId: string)
    requires AreStepBlocks(job, steps, blocks, pipeline, runId)
    ensures Flatten(blocks) == StampAll(EventsUpTo(job, steps, |blocks|), pipeline, runId)
  {
    if blocks != [] {
      var k := |blocks| - 1;
      StepBlocksAreEvents(job, steps, blocks[..k], pipeline, runId);
      FlattenSnoc(blocks[..k], blocks[k]);
      assert blocks == blocks[..k] + [blocks[k]];
      StampConcat(EventsUpTo(job, steps, k), StepEvents(job.name, job.steps[k], steps(k)), pipeline, runId);
    }
  }

  lemma StampStepEvents(job: string, step: Step, w: StepWorld, pipeline: string, runId: string)
    ensures var results := RunStep(step, w).results;
      StampAll(StepEvents(job, step, w), pipeline, runId) ==
        [Stamp(StepStartedEvent(job, step.name, w.startedAt), pipeline, runId)]
        + [Stamp(StepFinishedEvent(job, results[0], w.finishedAt), pipeline, runId)]
        + if |results| == 2 then [Stamp(StepFinishedEvent(job, results[1], w.refinishedAt), pipeline, runId)] else []
  {
  }

  predicate SetupCommandFails(o: ExecOutcome) {
    o.ExecFailed? || o.code != EXIT_SUCCESS
  }

  /** The fault that keeps a job from reaching its steps, if any. Only the env file's own
      initialisation is allowed a non-zero exit. */
  function SetupStops(job: Job, w: JobWorld): Option<Fault> {
    if !w.pulled then Some(ImageFault)
    else if !w.created then Some(ContainerFault)
    else if !w.containerStarted then Some(StartFault)
    else if exists i: nat :: i < |job.setup| && SetupCommandFails(w.setup(i)) then Some(SetupFault)
    else if w.envInit.ExecFailed? then Some(SetupFault)
    else None
  }

  /** The image is there, the container runs, every setup command exits zero, and the env file
      could be initialised. */
  ghost predicate IsSetUp(job: Job, w: JobWorld) {
    && w.pulled && w.created && w.containerStarted
    && (forall i: nat :: i < |job.setup| ==> w.setup(i).Exited? && w.setup(i).code == 0)
    && w.envInit.Exited?
  }

  /** A job that could not be set up carries the fault of the first thing that failed. */
  lemma SetupInWords(job: Job, w: JobWorld)
    ensures SetupStops(job, w) ==
      if IsSetUp(job, w) then None
      else if !w.pulled then Some(ImageFault)
      else if !w.created then Some(ContainerFault)
      else if !w.containerStarted then Some(StartFault)
      else Some(SetupFault)
  {
    if forall i: nat :: i < |job.setup| ==> !SetupCommandFails(w.setup(i)) {
      assert forall i: nat :: i < |job.setup| ==> w.setup(i).Exited? && w.setup(i).code == 0;
    }
  }

  datatype JobRun = JobRun(result: JobResult, events: seq<Event>, err: Option<RunError>)

  function RunJob(job: Job, w: JobWorld): JobRun {
    var fault := SetupStops(job, w);
    if fault.Some? then JobRun(JobResult(job.name, [], fault), [], Some(SetupError(fault.value)))
    else
      var r := RunAll(job, w.steps);
      JobRun(JobResult(job.name, r.results, None), EventsOfAll(job, w.steps), r.err)
  }

  // ---------- The runner itself ----------

  class DockerRunner {

    constructor ()
    {
    }

    /** Runs a job. On a healthy bus the job's step events appear in order, stamped; neither a
        missing nor a failing bus shows in the outcome. */
    method Run(job: Job, w: JobWorld, events: StampedSink) returns (result: JobResult, err: Option<RunError>)
      modifies events.sink`events
      ensures result == RunJob(job, w).result && err == RunJob(job, w).err
      ensures result.setupErr.None? <==> IsSetUp(job, w)
      ensures events.sink.mode == Healthy ==>
        events.sink.events == old(events.sink.events) + StampAll(RunJob(job, w).events, events.pipeline, events.runId)
    {
      SetupInWords(job, w);
      result := JobResult(job.name, [], None);
      if !w.pulled {
        result := result.(setupErr := Some(ImageFault));
        return result, Some(SetupError(ImageFault));
      }
      if !w.created {
        result := result.(setupErr := Some(ContainerFault));
        return result, Some(SetupError(ContainerFault));
      }
      if !w.containerStarted {
        result := result.(setupErr := Some(StartFault));
        return result, Some(SetupError(StartFault));
      }
      var setupOk := RunSetup(job, w);
      if !setupOk {
        result := result.(setupErr := Some(SetupFault));
        return result, Some(SetupError(SetupFault));
      }
      var stepResults, stepErr := RunSteps(job, w.steps, events);
      result := result.(stepResults := stepResults);
      return result, stepErr;
    }

    method RunSetup(job: Job, w: JobWorld) returns (ok: bool)
      ensures ok <==> (forall i: nat :: i < |job.setup| ==> !SetupCommandFails(w.setup(i))) && w.envInit.Exited?
    {
      for i := 0 to |job.setup|
        invariant forall j: nat :: j < i ==> !SetupCommandFails(w.setup(j))
      {
        if w.setup(i).ExecFailed? {
          return false;
        }
        if w.setup(i).code != EXIT_SUCCESS {
          return false;
        }
      }
      return w.envInit.Exited?;
    }

    /** The step machine: one step after the other until the first fault. */
    method RunSteps(job: Job, steps: nat -> StepWorld, events: StampedSink)
      returns (stepResults: seq<StepResult>, err: Option<RunError>)
      modifies events.sink`events
      ensures stepResults == RunAll(job, steps).results && err == RunAll(job, steps).err
      ensures events.sink.mode == Healthy ==>
        events.sink.events == old(events.sink.events) + StampAll(EventsOfAll(job, steps), events.pipeline, events.runId)
    {
      hide RunStep, StepEvents, EventsUpTo, StampAll, Stamp;
      stepResults, err := [], None;
      ghost var blocks: seq<seq<Event>> := [];
      for k := 0 to |job.steps|
        invariant stepResults == RunUpTo(job, steps, k).results && err == RunUpTo(job, steps, k).err == None
        invariant |blocks| == k && AreStepBlocks(job, steps, blocks, events.pipeline, events.runId)
        invariant events.sink.mode == Healthy ==> events.sink.events == old(events.sink.events) + Flatten(blocks)
      {
        var results;
        ghost var block;
        results, err, block := RunOneStep(job.name, job.steps[k], steps(k), events);
        stepResults := stepResults + results;
        FlattenSnoc(blocks, block);
        blocks := blocks + [block];
        if err.Some? {
          StaysStopped(job, steps, k + 1, |job.steps|);
          break;
        }
      }
      StepBlocksAreEvents(job, steps, blocks, events.pipeline, events.runId);
    }

    /** One round of the step loop. */
    method RunOneStep(job: string, step: Step, w: StepWorld, events: StampedSink)
      returns (results: seq<StepResult>, err: Option<RunError>, ghost sent: seq<Event>)
      modifies events.sink`events
      ensures results == RunStep(step, w).results && err == RunStep(step, w).err
      ensures FollowsDocker(step, w, results, err)
      ensures sent == StampAll(StepEvents(job, step, w), events.pipeline, events.runId)
      ensures events.sink.mode == Healthy ==> events.sink.events == old(events.sink.events) + sent
    {
      StepFollowsDocker(step, w);
      hide StampAll, Stamp, StepEvents, StepFinishedEvent, StepStartedEvent, Parse, FollowsDocker;
      sent := StampAll(StepEvents(job, step, w), events.pipeline, events.runId);
      StampStepEvents(job, step, w, events.pipeline, events.runId);
      var _ := events.Publish(StepStartedEvent(job, step.name, w.startedAt));
      var exported := ReadExportedEnv(w.before);
      if exported.None? {
        results := [EnvFaultResult(step, w.beforeTime)];
        var _ := events.Publish(StepFinishedEvent(job, results[0], w.finishedAt));
        return results, Some(EnvReadBefore(step.name)), sent;
      }

      var stepRes := StepResult(step.name, "", "", EXIT_NONE, w.execTime, None);
      match w.exec {
        case ExecFailed(deadline) =>
          if w.cancelled {
            stepRes := stepRes.(err := Some(CancelledFault));
            err := Some(RunCancelled);
          } else if step.timeout > 0 && deadline {
            stepRes := stepRes.(exitCode := EXIT_FAILURE);
            err := Some(StepTimedOut(step.name));
          } else {
            stepRes := stepRes.(err := Some(ExecFault));
            err := Some(ExecError);
          }
          var _ := events.Publish(StepFinishedEvent(job, stepRes, w.finishedAt));
          return [stepRes], err, sent;
        case Exited(code, stdout, stderr) =>
          stepRes := stepRes.(exitCode := code, stdout := stdout, stderr := stderr);
      }
      results := [stepRes];
      var _ := events.Publish(StepFinishedEvent(job, stepRes, w.finishedAt));

      var after := ReadExportedEnv(w.after);
      if after.None? {
        results := results + [EnvFaultResult(step, w.afterTime)];
        var _ := events.Publish(StepFinishedEvent(job, results[1], w.refinishedAt));
        return results, Some(EnvReadAfter(step.name)), sent;
      }
      var _ := NewlyExportedKeys(exported.value, after.value);
      err := None;
    }
  }
}
