/** What every run of the step machine comes to, whatever Docker answers. */
module StepMachine {
  import opened Basics
  import opened Domain
  import opened Events
  import opened Numerals
  import opened Runner

  // ---------- Results ----------

  /** The results name the executed steps in order; only the last can be named twice, by a
      failed env read after it, and only the last result can carry a fault. */
  ghost predicate NamesPrefix(job: Job, r: StepsRun) {
    && r.executed <= |job.steps|
    && |r.results| == r.executed + (if r.err.Some? && r.err.value.EnvReadAfter? then 1 else 0)
    && (r.err.Some? ==> r.executed > 0)
    && (forall i :: 0 <= i < r.executed ==> r.results[i].stepName == job.steps[i].name)
    && (|r.results| > r.executed > 0 ==> r.results[r.executed].stepName == job.steps[r.executed - 1].name)
    && (forall i :: 0 <= i < |r.results| - 1 ==> r.results[i].err.None?)
  }

  /** The last result shows why the machine stopped. */
  predicate StopShows(r: StepsRun) {
    match r.err
    case None => r.results != [] ==> r.results[|r.results| - 1].err.None?
    case Some(StepTimedOut(_)) =>
      r.results != [] && r.results[|r.results| - 1].err.None? && r.results[|r.results| - 1].exitCode == EXIT_FAILURE
    case Some(_) => r.results != [] && r.results[|r.results| - 1].err.Some?
  }

  /** The same of a single step. */
  predicate StepShape(step: Step, r: StepRun) {
    && |r.results| == (if r.err.Some? && r.err.value.EnvReadAfter? then 2 else 1)
    && r.results[0].stepName == step.name
    && r.results[|r.results| - 1].stepName == step.name
    && (|r.results| == 2 ==> r.results[0].err.None?)
    && var last := r.results[|r.results| - 1];
       match r.err
       case None => last.err.None?
       case Some(StepTimedOut(_)) => last.err.None? && last.exitCode == EXIT_FAILURE
       case Some(_) => last.err.Some?
  }

  lemma StepHasShape(step: Step, w: StepWorld)
    ensures StepShape(step, RunStep(step, w))
  {
  }

  lemma {:induction false} ResultsNamePrefix(job: Job, steps: nat -> StepWorld, k: nat)
    requires k <= |job.steps|
    ensures NamesPrefix(job, RunUpTo(job, steps, k)) && StopShows(RunUpTo(job, steps, k))
  {
    hide RunStep;
    if k > 0 {
      ResultsNamePrefix(job, steps, k - 1);
      StepHasShape(job.steps[k - 1], steps(k - 1));
    }
  }

  /** Every executed step's first result, and the error the machine ends with, follow Docker's
      answers for that step; all but the last executed step ended without error, and only the
      last can have a second result. */
  ghost predicate StepsFollowDocker(job: Job, steps: nat -> StepWorld, r: StepsRun) {
    && r.executed <= |job.steps| && r.executed <= |r.results|
    && (forall i: nat :: i < r.executed - 1 ==> FollowsDocker(job.steps[i], steps(i), [r.results[i]], None))
    && (r.executed > 0 ==>
          FollowsDocker(job.steps[r.executed - 1], steps(r.executed - 1), r.results[r.executed - 1..], r.err))
    && (r.executed == 0 ==> r.results == [] && r.err == None)
  }

  lemma {:induction false} ResultsFollowDocker(job: Job, steps: nat -> StepWorld, k: nat)
    requires k <= |job.steps|
    ensures StepsFollowDocker(job, steps, RunUpTo(job, steps, k))
    ensures RunUpTo(job, steps, k).executed < k ==> RunUpTo(job, steps, k).err.Some?
  {
    hide RunStep, FollowsDocker, StepsFollowDocker, StopShows;
    if k == 0 {
      NothingFollows(job, steps);
    } else {
      ResultsFollowDocker(job, steps, k - 1);
      var before, r := RunUpTo(job, steps, k - 1), RunUpTo(job, steps, k);
      if before.err.None? {
        ResultsNamePrefix(job, steps, k - 1);
        StepFollowsDocker(job.steps[k - 1], steps(k - 1));
        OneMoreFollows(job, steps, before, RunStep(job.steps[k - 1], steps(k - 1)), r);
      }
    }
  }

  lemma NothingFollows(job: Job, steps: nat -> StepWorld)
    ensures StepsFollowDocker(job, steps, StepsRun(0, [], None))
  {
  }

  lemma OneMoreFollows(job: Job, steps: nat -> StepWorld, before: StepsRun, now: StepRun, r: StepsRun)
    requires StepsFollowDocker(job, steps, before) && before.err.None? && |before.results| == before.executed < |job.steps|
    requires FollowsDocker(job.steps[before.executed], steps(before.executed), now.results, now.err) && now.results != []
    requires r == StepsRun(before.executed + 1, before.results + now.results, now.err)
    ensures StepsFollowDocker(job, steps, r)
  {
    hide FollowsDocker;
    var n := before.executed;
    assert r.results[n..] == now.results;
    forall i: nat | i < n
      ensures FollowsDocker(job.steps[i], steps(i), [r.results[i]], None)
    {
      assert r.results[i] == before.results[i];
      if i == n - 1 {
        assert before.results[i..] == [before.results[i]];
      }
    }
  }

  predicate ExitsZero(w: StepWorld) {
    && w.before.Exited? && w.before.code == 0
    && w.exec.Exited? && w.exec.code == 0
    && w.after.Exited? && w.after.code == 0
  }

  predicate AllExitedZero(results: seq<StepResult>) {
    forall i :: 0 <= i < |results| ==> results[i].exitCode == EXIT_SUCCESS
  }

  /** The status of a job whose steps ran, from the error the machine ended with. */
  function StatusByError(results: seq<StepResult>, err: Option<RunError>): Status {
    match err
    case None => if results == [] then Pending else if AllExitedZero(results) then Passed else Failed
    case Some(StepTimedOut(_)) => Failed
    case Some(_) => Errored
  }

  lemma StatusOfResults(r: StepsRun)
    requires StopShows(r) && forall i :: 0 <= i < |r.results| - 1 ==> r.results[i].err.None?
    ensures JobStatus(JobResult("", r.results, None)) == StatusByError(r.results, r.err)
  {
    var leaves := StepStatuses(r.results);
    if r.results != [] {
      assert leaves[|r.results| - 1] in leaves;
      if !AllExitedZero(r.results) {
        var i :| 0 <= i < |r.results| && r.results[i].exitCode != EXIT_SUCCESS;
        assert leaves[i] in leaves;
      }
    }
  }

  /** The error a job ends with determines its status up to its steps' own exit codes: no error
      means every step ran to an exit code, a timed-out step fails the job, any other error
      makes it Errored. */
  lemma JobStatusFollowsError(job: Job, w: JobWorld)
    ensures var r := RunJob(job, w);
      && JobStatus(r.result) == StatusByError(r.result.stepResults, r.err)
      && (r.err.None? ==> |r.result.stepResults| == |job.steps|)
  {
    hide RunUpTo, EventsUpTo;
    ResultsNamePrefix(job, w.steps, |job.steps|);
    if SetupStops(job, w).None? {
      StatusOfResults(RunAll(job, w.steps));
    }
  }

  /** A job passes if and only if it could be set up, has steps, and Docker reports exit code
      zero for every one of them and for every reading of the env file. */
  lemma PassedExactly(job: Job, w: JobWorld)
    ensures JobStatus(RunJob(job, w).result) == Passed <==>
      IsSetUp(job, w) && job.steps != [] && forall i: nat :: i < |job.steps| ==> ExitsZero(w.steps(i))
  {
    hide RunUpTo, EventsUpTo, IsSetUp;
    SetupInWords(job, w);
    JobStatusInWords(RunJob(job, w).result);
    if IsSetUp(job, w) {
      ResultsFollowDocker(job, w.steps, |job.steps|);
      ResultsNamePrefix(job, w.steps, |job.steps|);
      var r := RunAll(job, w.steps);
      if AllPassed(r.results) {
        PassedExitZero(job, w.steps, r);
      } else if job.steps != [] && forall i: nat :: i < |job.steps| ==> ExitsZero(w.steps(i)) {
        ExitZeroPassed(job, w.steps, r);
      }
    }
  }

  ghost predicate AllPassed(results: seq<StepResult>) {
    results != [] && forall s :: s in results ==> s.err.None? && s.exitCode == 0
  }

  lemma PassedExitZero(job: Job, steps: nat -> StepWorld, r: StepsRun)
    requires StepsFollowDocker(job, steps, r) && NamesPrefix(job, r)
    requires (r.executed < |job.steps| ==> r.err.Some?) && AllPassed(r.results)
    ensures job.steps != [] && forall i: nat :: i < |job.steps| ==> ExitsZero(steps(i))
  {
    var n := r.executed - 1;
    assert r.results[n] in r.results && r.results[|r.results| - 1] in r.results;
    assert r.results[n..][0] == r.results[n];
    forall i: nat | i < r.executed
      ensures ExitsZero(steps(i))
    {
      assert r.results[i] in r.results;
    }
  }

  lemma ExitZeroPassed(job: Job, steps: nat -> StepWorld, r: StepsRun)
    requires StepsFollowDocker(job, steps, r) && NamesPrefix(job, r)
    requires (r.executed < |job.steps| ==> r.err.Some?)
    requires job.steps != [] && forall i: nat :: i < |job.steps| ==> ExitsZero(steps(i))
    ensures AllPassed(r.results)
  {
    var n := r.executed - 1;
    assert ExitsZero(steps(n));
    assert r.results[n..][0] == r.results[n];
    forall i | 0 <= i < |r.results|
      ensures r.results[i].err.None? && r.results[i].exitCode == 0
    {
      if i < n {
        assert ExitsZero(steps(i));
      }
    }
  }

  // ---------- Events ----------

  predicate IsStart(e: Event) { e.kind.StepStarted? }
  predicate IsFinish(e: Event) { e.kind.StepFinished? }

  function Starts(): Event -> bool { (e: Event) => IsStart(e) }
  function Finishes(): Event -> bool { (e: Event) => IsFinish(e) }

  /** Two sequences of events that agree in everything but the clock. */
  predicate SameButTime(a: seq<Event>, b: seq<Event>) {
    |a| == |b| && forall i :: 0 <= i < |a| ==> a[i] == b[i].(occurredAt := a[i].occurredAt)
  }

  function StartsOf(job: Job, n: nat): (events: seq<Event>)
    requires n <= |job.steps|
    ensures |events| == n
  {
    seq(n, i requires 0 <= i < n => StepStartedEvent(job.name, job.steps[i].name, 0))
  }

  function FinishesOf(job: string, results: seq<StepResult>): (events: seq<Event>)
    ensures |events| == |results|
  {
    seq(|results|, i requires 0 <= i < |results| => StepFinishedEvent(job, results[i], 0))
  }

  lemma FilterStepEvents(job: string, step: Step, w: StepWorld)
    ensures SameButTime(Filter(StepEvents(job, step, w), Finishes()), FinishesOf(job, RunStep(step, w).results))
    ensures SameButTime(Filter(StepEvents(job, step, w), Starts()), [StepStartedEvent(job, step.name, 0)])
  {
    hide FormatInt, RunStep, Filter, Slug, Milliseconds;
    var results := RunStep(step, w).results;
    var a, b := [StepStartedEvent(job, step.name, w.startedAt)], [StepFinishedEvent(job, results[0], w.finishedAt)];
    var c := if |results| == 2 then [StepFinishedEvent(job, results[1], w.refinishedAt)] else [];
    assert StepEvents(job, step, w) == a + (b + c);
    FilterAppend(a, b + c, Starts());
    FilterAppend(a, b + c, Finishes());
    FilterAll(a, Starts());
    FilterNone(a, Finishes());
    FilterAll(b + c, Finishes());
    FilterNone(b + c, Starts());
  }

  lemma SameButTimeConcat(a: seq<Event>, b: seq<Event>, c: seq<Event>, d: seq<Event>)
    requires SameButTime(a, c) && SameButTime(b, d)
    ensures SameButTime(a + b, c + d)
  {
  }

  lemma FinishesConcat(job: string, a: seq<StepResult>, b: seq<StepResult>)
    ensures FinishesOf(job, a + b) == FinishesOf(job, a) + FinishesOf(job, b)
  {
    hide StepFinishedEvent;
  }

  /** The finished events match the results one to one, and there is one started event per
      executed step, in order. */
  lemma {:induction false} EventsMatchResults(job: Job, steps: nat -> StepWorld, k: nat)
    requires k <= |job.steps|
    ensures var r := RunUpTo(job, steps, k);
      && SameButTime(Filter(EventsUpTo(job, steps, r.executed), Finishes()), FinishesOf(job.name, r.results))
      && SameButTime(Filter(EventsUpTo(job, steps, r.executed), Starts()), StartsOf(job, r.executed))
  {
    hide RunStep, StepEvents, StepFinishedEvent, StepStartedEvent, FinishesOf, SameButTime, Starts, Finishes;
    if k == 0 {
      NothingToMatch(job);
    } else {
      EventsMatchResults(job, steps, k - 1);
      var done := RunUpTo(job, steps, k - 1);
      if done.err.None? {
        var step, w := job.steps[k - 1], steps(k - 1);
        var before, now := EventsUpTo(job, steps, k - 1), StepEvents(job.name, step, w);
        FilterStepEvents(job.name, step, w);
        FilterAppend(before, now, Finishes());
        FilterAppend(before, now, Starts());
        FinishesConcat(job.name, done.results, RunStep(step, w).results);
        assert StartsOf(job, k) == StartsOf(job, k - 1) + [StepStartedEvent(job.name, step.name, 0)];
        SameButTimeConcat(Filter(before, Finishes()), Filter(now, Finishes()),
          FinishesOf(job.name, done.results), FinishesOf(job.name, RunStep(step, w).results));
        SameButTimeConcat(Filter(before, Starts()), Filter(now, Starts()),
          StartsOf(job, k - 1), [StepStartedEvent(job.name, step.name, 0)]);
      }
    }
  }

  lemma NothingToMatch(job: Job)
    ensures SameButTime([], FinishesOf(job.name, [])) && SameButTime([], StartsOf(job, 0))
  {
  }

  // ---------- What stays off the bus ----------

  predicate SameButOutput(a: ExecOutcome, b: ExecOutcome) {
    match a
    case Exited(code, _, _) => b.Exited? && b.code == code
    case ExecFailed(_) => a == b
  }

  predicate SameStepButOutput(a: StepWorld, b: StepWorld) {
    && a == b.(before := a.before, exec := a.exec, after := a.after)
    && SameButOutput(a.before, b.before) && SameButOutput(a.exec, b.exec) && SameButOutput(a.after, b.after)
  }

  lemma {:induction false} OutputStaysOffTheBus(job: Job, a: nat -> StepWorld, b: nat -> StepWorld, k: nat)
    requires k <= |job.steps| && forall i: nat :: i < k ==> SameStepButOutput(a(i), b(i))
    ensures EventsUpTo(job, a, k) == EventsUpTo(job, b, k)
    ensures RunUpTo(job, a, k).executed == RunUpTo(job, b, k).executed && RunUpTo(job, a, k).err == RunUpTo(job, b, k).err
  {
    hide RunStep, StepEvents;
    if k > 0 {
      OutputStaysOffTheBus(job, a, b, k - 1);
      StepOutputStaysOffTheBus(job.name, job.steps[k - 1], a(k - 1), b(k - 1));
    }
  }

  lemma StepOutputStaysOffTheBus(job: string, step: Step, a: StepWorld, b: StepWorld)
    requires SameStepButOutput(a, b)
    ensures StepEvents(job, step, a) == StepEvents(job, step, b)
    ensures RunStep(step, a).err == RunStep(step, b).err
  {
    hide FormatInt;
  }
}
