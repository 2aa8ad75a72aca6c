/**
 What recording means without row ids. A cell is what the database says about one run,
 one job of it and one step of that job, looked up by name. RecordCell changes a cell by
 looking at nothing but that cell and the event.
 */
module Cells {
  import opened Basics
  import opened Events
  import opened Numerals
  import opened Tables
  import D = Domain

  datatype RunInfo = RunInfo(pipeline: string, status: string, startedAt: Timestamp, finishedAt: Option<Timestamp>)

  datatype JobInfo = JobInfo(stage: string, status: string, startedAt: Timestamp, finishedAt: Option<Timestamp>)

  datatype StepInfo = StepInfo(status: string, exitCode: Option<Int64>, durationMs: Option<Int64>)

  datatype Key = Key(run: string, job: string, step: string)

  datatype Cell = Cell(run: Option<RunInfo>, job: Option<JobInfo>, step: Option<StepInfo>)

  const NO_CELL: Cell := Cell(None, None, None)

  // ---------- The automaton of one cell ----------

  predicate ForRun(e: Event, k: Key) { e.runId == k.run }
  predicate ForJob(e: Event, k: Key) { e.runId == k.run && e.job == k.job }
  predicate ForStep(e: Event, k: Key) { e.runId == k.run && e.job == k.job && e.step == k.step }

  /** Whether an event with this cell's run and job names is accepted. */
  predicate Accepts(c: Cell, e: Event) {
    match e.kind
    case PipelineStarted => e.runId != ""
    case PipelineFinished => true
    case JobStarted => c.run.Some?
    case JobFinished => c.run.Some?
    case StepStarted => c.run.Some? && c.job.Some?
    case StepFinished => c.run.Some? && c.job.Some? && NumberOk(e, ExitCodeKey) && NumberOk(e, DurationKey)
    case OtherType(_) => true
  }

  function RecordCell(c: Cell, e: Event, k: Key): Cell {
    match e.kind
    case PipelineStarted =>
      if ForRun(e, k) && e.runId != "" && c.run.None? then
        c.(run := Some(RunInfo(e.pipeline, D.Slug(D.Pending), e.occurredAt, None)))
      else c
    case PipelineFinished =>
      if ForRun(e, k) && c.run.Some? then
        c.(run := Some(c.run.value.(status := e.Read(StatusKey), finishedAt := Some(e.occurredAt))))
      else c
    case JobStarted =>
      if ForJob(e, k) && c.run.Some? && c.job.None? then
        c.(job := Some(JobInfo(e.Read(StageKey), D.Slug(D.Pending), e.occurredAt, None)))
      else c
    case JobFinished =>
      if ForJob(e, k) && c.run.Some? && c.job.Some? then
        c.(job := Some(c.job.value.(status := e.Read(StatusKey), finishedAt := Some(e.occurredAt))))
      else c
    case StepStarted =>
      if ForStep(e, k) && c.job.Some? && c.step.None? then
        c.(step := Some(StepInfo(D.Slug(D.Pending), None, None)))
      else c
    case StepFinished =>
      if ForStep(e, k) && c.step.Some? && NumberOk(e, ExitCodeKey) && NumberOk(e, DurationKey) then
        c.(step := Some(StepInfo(e.Read(StatusKey), Number(e, ExitCodeKey), Number(e, DurationKey))))
      else c
    case OtherType(_) => c
  }

  function RecordCellAll(c: Cell, log: seq<Event>, k: Key): Cell {
    if log == [] then c else RecordCell(RecordCellAll(c, log[..|log| - 1], k), log[|log| - 1], k)
  }

  // ---------- The cell the tables hold ----------

  function RunInfoOf(row: RunRow): RunInfo { RunInfo(row.pipeline, row.status, row.startedAt, row.finishedAt) }
  function JobInfoOf(row: JobRow): JobInfo { JobInfo(row.stage, row.status, row.startedAt, row.finishedAt) }
  function StepInfoOf(row: StepRow): StepInfo { StepInfo(row.status, row.exitCode, row.durationMs) }

  function CellOf(db: Db, k: Key): Cell {
    Cell(
      match FindRun(db, k.run) case None => None case Some(row) => Some(RunInfoOf(row)),
      match FindJob(db, k.run, k.job) case None => None case Some(row) => Some(JobInfoOf(row)),
      match FindStep(db, k.run, k.job, k.step) case None => None case Some(row) => Some(StepInfoOf(row)))
  }

  // ---------- The tables refine the cells ----------

  lemma RunIdsIdentify(db: Db, a: RunRow, b: RunRow)
    requires RunsOk(db) && a in db.runs && b in db.runs
    ensures a.id == b.id ==> a == b
    ensures a.runId == b.runId ==> a == b
  {
  }

  lemma JobIdsIdentify(db: Db, a: JobRow, b: JobRow)
    requires JobsOk(db) && a in db.jobs && b in db.jobs
    ensures a.id == b.id ==> a == b
    ensures a.run == b.run && a.name == b.name ==> a == b
  {
    if a != b {
      var i :| 0 <= i < |db.jobs| && db.jobs[i] == a;
      var j :| 0 <= j < |db.jobs| && db.jobs[j] == b;
      assert i < j || j < i;
    }
  }

  /** No job row can point at a run id that no run has. */
  lemma FreshRunHasNoJobs(db: Db, id: int, name: string)
    requires JobsOk(db) && forall row :: row in db.runs ==> row.id < id
    ensures Select(db.jobs, ByRunAndName(id, name)).None?
  {
    forall row | row in db.jobs
      ensures row.run < id
    {
      var i :| 0 <= i < |db.jobs| && db.jobs[i] == row;
      assert RunIdExists(db, db.jobs[i].run);
    }
  }

  lemma FreshJobHasNoSteps(db: Db, id: int, name: string)
    requires StepsOk(db) && forall row :: row in db.jobs ==> row.id < id
    ensures Select(db.steps, ByJobAndName(id, name)).None?
  {
    forall row | row in db.steps
      ensures row.job < id
    {
      var i :| 0 <= i < |db.steps| && db.steps[i] == row;
      assert JobIdExists(db, db.steps[i].job);
    }
  }

  lemma InsertRunRefines(db: Db, e: Event, k: Key)
    requires Integrity(db) && e.kind.PipelineStarted? && e.runId != ""
    ensures CellOf(Record(db, e), k) == RecordCell(CellOf(db, k), e, k)
  {
    if FindRun(db, e.runId).None? {
      var id := NextId(db.runs, RunRowId());
      var row := RunRow(id, e.runId, e.pipeline, D.Slug(D.Pending), e.occurredAt, None);
      SelectAppend(db.runs, row, ByRunId(k.run));
      forall r | r in db.runs
        ensures r.id < id
      {
        assert RunRowId()(r) == r.id;
      }
      FreshRunHasNoJobs(db, id, k.job);
    }
  }

  lemma FinishRunRefines(db: Db, e: Event, k: Key)
    requires e.kind.PipelineFinished?
    ensures CellOf(Record(db, e), k) == RecordCell(CellOf(db, k), e, k)
  {
    SelectUpdate(db.runs, ByRunId(e.runId), FinishRun(e.Read(StatusKey), e.occurredAt), ByRunId(k.run));
  }

  lemma InsertJobRefines(db: Db, e: Event, k: Key)
    requires Integrity(db) && e.kind.JobStarted? && FindRun(db, e.runId).Some?
    ensures CellOf(Record(db, e), k) == RecordCell(CellOf(db, k), e, k)
  {
    var run := FindRun(db, e.runId).value;
    if FindRun(db, k.run).Some? {
      RunIdsIdentify(db, run, FindRun(db, k.run).value);
      if Select(db.jobs, ByRunAndName(run.id, e.job)).None? {
        var id := NextId(db.jobs, JobRowId());
        var row := JobRow(id, run.id, e.job, e.Read(StageKey), D.Slug(D.Pending), e.occurredAt, None);
        SelectAppend(db.jobs, row, ByRunAndName(FindRun(db, k.run).value.id, k.job));
        forall r | r in db.jobs
          ensures r.id < id
        {
          assert JobRowId()(r) == r.id;
        }
        FreshJobHasNoSteps(db, id, k.step);
      }
    }
  }

  lemma FinishJobRefines(db: Db, e: Event, k: Key)
    requires Integrity(db) && e.kind.JobFinished? && FindRun(db, e.runId).Some?
    ensures CellOf(Record(db, e), k) == RecordCell(CellOf(db, k), e, k)
  {
    var run := FindRun(db, e.runId).value;
    if FindRun(db, k.run).Some? {
      RunIdsIdentify(db, run, FindRun(db, k.run).value);
      SelectUpdate(db.jobs, ByRunAndName(run.id, e.job), FinishJob(e.Read(StatusKey), e.occurredAt),
        ByRunAndName(FindRun(db, k.run).value.id, k.job));
    }
  }

  /** Two jobs found by name are the same row exactly when the names agree. */
  lemma JobsFoundByName(db: Db, runA: string, jobA: string, runB: string, jobB: string)
    requires Integrity(db) && FindJob(db, runA, jobA).Some? && FindJob(db, runB, jobB).Some?
    ensures FindJob(db, runA, jobA).value.id == FindJob(db, runB, jobB).value.id <==> runA == runB && jobA == jobB
  {
    var a, b := FindJob(db, runA, jobA).value, FindJob(db, runB, jobB).value;
    JobIdsIdentify(db, a, b);
    RunIdsIdentify(db, FindRun(db, runA).value, FindRun(db, runB).value);
  }

  lemma InsertStepRefines(db: Db, e: Event, k: Key)
    requires Integrity(db) && e.kind.StepStarted? && FindJob(db, e.runId, e.job).Some?
    ensures CellOf(Record(db, e), k) == RecordCell(CellOf(db, k), e, k)
  {
    var job := FindJob(db, e.runId, e.job).value;
    if FindJob(db, k.run, k.job).Some? {
      JobsFoundByName(db, e.runId, e.job, k.run, k.job);
      if Select(db.steps, ByJobAndName(job.id, e.step)).None? {
        var row := StepRow(NextId(db.steps, StepRowId()), job.id, e.step, D.Slug(D.Pending), None, None);
        SelectAppend(db.steps, row, ByJobAndName(FindJob(db, k.run, k.job).value.id, k.step));
      }
    }
  }

  lemma FinishStepRefines(db: Db, e: Event, k: Key)
    requires Integrity(db) && e.kind.StepFinished? && FindJob(db, e.runId, e.job).Some?
    requires NumberOk(e, ExitCodeKey) && NumberOk(e, DurationKey)
    ensures CellOf(Record(db, e), k) == RecordCell(CellOf(db, k), e, k)
  {
    var job := FindJob(db, e.runId, e.job).value;
    if FindJob(db, k.run, k.job).Some? {
      JobsFoundByName(db, e.runId, e.job, k.run, k.job);
      SelectUpdate(db.steps, ByJobAndName(job.id, e.step),
        FinishStep(e.Read(StatusKey), Number(e, ExitCodeKey), Number(e, DurationKey)),
        ByJobAndName(FindJob(db, k.run, k.job).value.id, k.step));
    }
  }

  /** Recording an event on the tables is, for every triple of names at once, the cell's own
      transition; and the event is rejected exactly when its own cell rejects it. */
  lemma RecordRefinesCell(db: Db, e: Event, k: Key)
    requires Integrity(db)
    ensures CellOf(Record(db, e), k) == RecordCell(CellOf(db, k), e, k)
    ensures ErrorOf(db, e).None? <==> Accepts(CellOf(db, Key(e.runId, e.job, e.step)), e)
  {
    if ErrorOf(db, e).None? {
      match e.kind
      case PipelineStarted => InsertRunRefines(db, e, k);
      case PipelineFinished => FinishRunRefines(db, e, k);
      case JobStarted => InsertJobRefines(db, e, k);
      case JobFinished => FinishJobRefines(db, e, k);
      case StepStarted => InsertStepRefines(db, e, k);
      case StepFinished => FinishStepRefines(db, e, k);
      case OtherType(_) =>
    }
  }

  lemma {:induction false} RecordAllRefinesCell(db: Db, log: seq<Event>, k: Key)
    requires Integrity(db)
    ensures CellOf(RecordAll(db, log), k) == RecordCellAll(CellOf(db, k), log, k)
  {
    if log != [] {
      var init := log[..|log| - 1];
      RecordAllRefinesCell(db, init, k);
      IntegrityAlways(db, init);
      RecordRefinesCell(RecordAll(db, init), log[|log| - 1], k);
    }
  }

  predicate StepRowOf(db: Db, run: RunRow, job: JobRow, row: StepRow) {
    job.run == run.id && row.job == job.id && FindStep(db, run.runId, job.name, row.name) == Some(row)
  }

  /** Conversely, the tables hold nothing but cells: every row is what some cell shows,
      and no two rows of a table show the same cell. */
  lemma RowsAreCells(db: Db)
    requires Integrity(db)
    ensures forall row :: row in db.runs ==> FindRun(db, row.runId) == Some(row)
    ensures forall row :: row in db.jobs ==>
      exists run :: run in db.runs && run.id == row.run && FindJob(db, run.runId, row.name) == Some(row)
    ensures forall row :: row in db.steps ==>
      (exists run, job :: run in db.runs && job in db.jobs && StepRowOf(db, run, job, row))
  {
    forall row | row in db.runs
      ensures FindRun(db, row.runId) == Some(row)
    {
      assert ByRunId(row.runId)(row);
      RunIdsIdentify(db, FindRun(db, row.runId).value, row);
    }
    forall row | row in db.jobs
      ensures exists run :: run in db.runs && run.id == row.run && FindJob(db, run.runId, row.name) == Some(row)
    {
      var run := JobRowFound(db, row);
    }
    forall row | row in db.steps
      ensures exists run, job :: run in db.runs && job in db.jobs && StepRowOf(db, run, job, row)
    {
      var run, job := StepRowFound(db, row);
    }
  }

  lemma StepRowFound(db: Db, row: StepRow) returns (run: RunRow, job: JobRow)
    requires Integrity(db) && row in db.steps
    ensures run in db.runs && job in db.jobs && StepRowOf(db, run, job, row)
  {
    var i :| 0 <= i < |db.steps| && db.steps[i] == row;
    assert JobIdExists(db, db.steps[i].job);
    var m :| 0 <= m < |db.jobs| && db.jobs[m].id == row.job;
    job := db.jobs[m];
    run := JobRowFound(db, job);
    assert ByJobAndName(row.job, row.name)(row);
    var found := Select(db.steps, ByJobAndName(row.job, row.name)).value;
    var j :| 0 <= j < |db.steps| && db.steps[j] == found;
    assert i == j;
  }

  lemma JobRowFound(db: Db, row: JobRow) returns (run: RunRow)
    requires Integrity(db) && row in db.jobs
    ensures run in db.runs && run.id == row.run && FindJob(db, run.runId, row.name) == Some(row)
  {
    var i :| 0 <= i < |db.jobs| && db.jobs[i] == row;
    assert RunIdExists(db, row.run);
    var m :| 0 <= m < |db.runs| && db.runs[m].id == row.run;
    run := db.runs[m];
    assert ByRunId(run.runId)(run);
    RunIdsIdentify(db, FindRun(db, run.runId).value, run);
    assert ByRunAndName(run.id, row.name)(row);
    var found := Select(db.jobs, ByRunAndName(run.id, row.name));
    assert found.Some?;
    JobIdsIdentify(db, found.value, row);
  }
}
