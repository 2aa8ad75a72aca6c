/** The results store: the recorder's imperative code over the three tables. */
module Store {
  import opened Basics
  import opened Events
  import opened Numerals
  import opened Tables
  import opened Cells
  import D = Domain

  class Store {
    var runs: seq<RunRow>
    var jobs: seq<JobRow>
    var steps: seq<StepRow>

    function Contents(): Db
      reads this
    {
      Db(runs, jobs, steps)
    }

    ghost predicate Valid()
      reads this
    {
      Integrity(Contents())
    }

    /** A freshly migrated database. */
    constructor ()
      ensures Valid() && Contents() == EMPTY
    {
      runs, jobs, steps := [], [], [];
    }

    /** Applies one event: every cell makes its own transition, nothing is ever removed, and
        the event is rejected, changing nothing, exactly when its own cell rejects it. */
    method Record(event: Event) returns (err: Option<RecordError>)
      requires Valid()
      modifies this
      ensures Valid()
      ensures Contents() == Tables.Record(old(Contents()), event)
      ensures err == ErrorOf(old(Contents()), event)
      ensures Keeps(old(Contents()), Contents())
      ensures forall k :: CellOf(Contents(), k) == RecordCell(CellOf(old(Contents()), k), event, k)
      ensures err.None? <==> Accepts(CellOf(old(Contents()), Key(event.runId, event.job, event.step)), event)
    {
      ghost var before := Contents();
      match event.kind {
        case PipelineStarted => err := RecordPipelineStarted(event);
        case PipelineFinished => err := RecordPipelineFinished(event);
        case JobStarted => err := RecordJobStarted(event);
        case JobFinished => err := RecordJobFinished(event);
        case StepStarted => err := RecordStepStarted(event);
        case StepFinished => err := RecordStepFinished(event);
        case OtherType(_) => err := None;
      }
      RecordKeepsIntegrity(before, event);
      RecordKeepsRows(before, event);
      forall k
        ensures CellOf(Contents(), k) == RecordCell(CellOf(before, k), event, k)
        ensures err.None? <==> Accepts(CellOf(before, Key(event.runId, event.job, event.step)), event)
      {
        RecordRefinesCell(before, event, k);
      }
      assert CellOf(Contents(), Key("", "", "")) == CellOf(Contents(), Key("", "", ""));
    }

    /** Appends a pending row for a run that has none; refuses an event without a run id. */
    method RecordPipelineStarted(event: Event) returns (err: Option<RecordError>)
      requires Valid() && event.kind.PipelineStarted?
      modifies this
      ensures err.Some? <==> event.runId == ""
      ensures err.Some? ==> Contents() == old(Contents())
      ensures err.None? ==> RunStarted(old(Contents()), Contents(), event)
      ensures Contents() == Tables.Record(old(Contents()), event) && err == ErrorOf(old(Contents()), event)
    {
      RecordChangesOneRow(Contents(), event);
      if event.runId == "" {
        return Some(MissingRunId);
      }
      if Select(runs, ByRunId(event.runId)).None? {
        runs := runs + [RunRow(NextId(runs, RunRowId()), event.runId, event.pipeline, D.Slug(D.Pending), event.occurredAt, None)];
      }
      err := None;
    }

    /** Gives the run's one row its status and end. Without such a row nothing changes, and that
        is no error. */
    method RecordPipelineFinished(event: Event) returns (err: Option<RecordError>)
      requires Valid() && event.kind.PipelineFinished?
      modifies this
      ensures err.None? && RunFinished(old(Contents()), Contents(), event)
      ensures Contents() == Tables.Record(old(Contents()), event) && err == ErrorOf(old(Contents()), event)
    {
      RecordChangesOneRow(Contents(), event);
      runs := Update(runs, ByRunId(event.runId), FinishRun(event.Read(StatusKey), event.occurredAt));
      err := None;
    }

    /** Appends a pending row under the run's row for a job that has none; refuses an event of an
        unknown run. */
    method RecordJobStarted(event: Event) returns (err: Option<RecordError>)
      requires Valid() && event.kind.JobStarted?
      modifies this
      ensures err.Some? <==> FindRun(old(Contents()), event.runId).None?
      ensures err.Some? ==> Contents() == old(Contents())
      ensures err.None? ==> JobStartedIn(old(Contents()), Contents(), event, FindRun(old(Contents()), event.runId).value)
      ensures Contents() == Tables.Record(old(Contents()), event) && err == ErrorOf(old(Contents()), event)
    {
      RecordChangesOneRow(Contents(), event);
      var runRow;
      runRow, err := FindRunRow(event.runId);
      if err.Some? {
        return;
      }
      if Select(jobs, ByRunAndName(runRow, event.job)).None? {
        jobs := jobs + [JobRow(NextId(jobs, JobRowId()), runRow, event.job, event.Read(StageKey), D.Slug(D.Pending),
          event.occurredAt, None)];
      }
    }

    /** Gives the job's one row its status and end; needs the run's row, not the job's. */
    method RecordJobFinished(event: Event) returns (err: Option<RecordError>)
      requires Valid() && event.kind.JobFinished?
      modifies this
      ensures err.Some? <==> FindRun(old(Contents()), event.runId).None?
      ensures err.Some? ==> Contents() == old(Contents())
      ensures err.None? ==> JobFinishedIn(old(Contents()), Contents(), event)
      ensures Contents() == Tables.Record(old(Contents()), event) && err == ErrorOf(old(Contents()), event)
    {
      RecordChangesOneRow(Contents(), event);
      var runRow;
      runRow, err := FindRunRow(event.runId);
      if err.Some? {
        return;
      }
      jobs := Update(jobs, ByRunAndName(runRow, event.job), FinishJob(event.Read(StatusKey), event.occurredAt));
    }

    /** Appends a pending row under the job's row for a step that has none; refuses an event of an
        unknown run or job. */
    method RecordStepStarted(event: Event) returns (err: Option<RecordError>)
      requires Valid() && event.kind.StepStarted?
      modifies this
      ensures err.Some? <==> FindJob(old(Contents()), event.runId, event.job).None?
      ensures err.Some? ==> Contents() == old(Contents())
      ensures err.None? ==>
        StepStartedIn(old(Contents()), Contents(), event, FindJob(old(Contents()), event.runId, event.job).value)
      ensures Contents() == Tables.Record(old(Contents()), event) && err == ErrorOf(old(Contents()), event)
    {
      RecordChangesOneRow(Contents(), event);
      var jobRow;
      jobRow, err := FindJobRow(event.runId, event.job);
      if err.Some? {
        return;
      }
      if Select(steps, ByJobAndName(jobRow, event.step)).None? {
        steps := steps + [StepRow(NextId(steps, StepRowId()), jobRow, event.step, D.Slug(D.Pending), None, None)];
      }
    }

    /** Gives the step's one row its status, exit code and milliseconds; needs the job's row and
        readable numbers, not the step's row. */
    method RecordStepFinished(event: Event) returns (err: Option<RecordError>)
      requires Valid() && event.kind.StepFinished?
      modifies this
      ensures err.Some? <==>
        || FindJob(old(Contents()), event.runId, event.job).None?
        || !NumberOk(event, ExitCodeKey) || !NumberOk(event, DurationKey)
      ensures err.Some? ==> Contents() == old(Contents())
      ensures err.None? ==> StepFinishedIn(old(Contents()), Contents(), event)
      ensures Contents() == Tables.Record(old(Contents()), event) && err == ErrorOf(old(Contents()), event)
    {
      RecordChangesOneRow(Contents(), event);
      var jobRow;
      jobRow, err := FindJobRow(event.runId, event.job);
      if err.Some? {
        return;
      }
      var exitCode, duration: Option<Int64> := None, None;
      if ExitCodeKey in event.payload {
        exitCode := ParseInt(event.payload[ExitCodeKey]);
        if exitCode.None? {
          return Some(BadExitCode(event.payload[ExitCodeKey]));
        }
      }
      if DurationKey in event.payload {
        duration := ParseInt(event.payload[DurationKey]);
        if duration.None? {
          return Some(BadDuration(event.payload[DurationKey]));
        }
      }
      steps := Update(steps, ByJobAndName(jobRow, event.step), FinishStep(event.Read(StatusKey), exitCode, duration));
    }

    method FindRunRow(runId: string) returns (id: int, err: Option<RecordError>)
      ensures err == RunError(Contents(), runId)
      ensures err.None? ==> id == FindRun(Contents(), runId).value.id
    {
      match Select(runs, ByRunId(runId)) {
        case None => id, err := 0, Some(UnknownRun(runId));
        case Some(row) => id, err := row.id, None;
      }
    }

    method FindJobRow(runId: string, job: string) returns (id: int, err: Option<RecordError>)
      ensures err == JobError(Contents(), runId, job)
      ensures err.None? ==> FindJob(Contents(), runId, job).Some? && id == FindJob(Contents(), runId, job).value.id
    {
      var runRow;
      runRow, err := FindRunRow(runId);
      if err.Some? {
        return 0, err;
      }
      match Select(jobs, ByRunAndName(runRow, job)) {
        case None => id, err := 0, Some(UnknownJob(runId, job));
        case Some(row) => id, err := row.id, None;
      }
    }
  }
}
