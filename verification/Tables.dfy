/**
 The results database: three tables with surrogate row ids, and what recording one
 event does to them. SELECT, UPDATE .. WHERE and INSERT .. ON CONFLICT DO NOTHING are
 functions on row sequences; the Store class runs them on its fields.
 */
module Tables {
  import opened Basics
  import opened Numerals
  import opened Events
  import D = Domain

  // ---------- A table is a sequence of rows ----------

  function Select<T>(rows: seq<T>, where: T -> bool): (found: Option<T>)
    ensures found.Some? ==> found.value in rows && where(found.value)
    ensures found.None? ==> forall row :: row in rows ==> !where(row)
  {
    if rows == [] then None
    else if where(rows[0]) then Some(rows[0])
    else Select(rows[1..], where)
  }

  function Update<T>(rows: seq<T>, where: T -> bool, set_: T -> T): (updated: seq<T>)
    ensures |updated| == |rows|
    ensures forall i :: 0 <= i < |rows| ==> updated[i] == if where(rows[i]) then set_(rows[i]) else rows[i]
  {
    seq(|rows|, i requires 0 <= i < |rows| => if where(rows[i]) then set_(rows[i]) else rows[i])
  }

  /** INTEGER PRIMARY KEY: one more than the largest id present. */
  function NextId<T>(rows: seq<T>, id: T -> int): (next: int)
    ensures next > 0
    ensures forall row :: row in rows ==> id(row) < next
  {
    if rows == [] then 1
    else
      var next := NextId(rows[1..], id);
      if id(rows[0]) < next then next else id(rows[0]) + 1
  }

  lemma {:induction false} SelectAppend<T>(rows: seq<T>, row: T, where: T -> bool)
    ensures Select(rows + [row], where) ==
      if Select(rows, where).Some? then Select(rows, where) else if where(row) then Some(row) else None
  {
    if rows == [] {
      assert (rows + [row])[0] == row && (rows + [row])[1..] == [];
    } else {
      assert (rows + [row])[0] == rows[0] && (rows + [row])[1..] == rows[1..] + [row];
      SelectAppend(rows[1..], row, where);
    }
  }

  /** An update that does not touch the columns of `key` commutes with looking up by `key`. */
  lemma {:induction false} SelectUpdate<T>(rows: seq<T>, where: T -> bool, set_: T -> T, key: T -> bool)
    requires forall row :: row in rows ==> key(set_(row)) == key(row)
    ensures Select(Update(rows, where, set_), key) ==
      match Select(rows, key)
      case None => None
      case Some(row) => Some(if where(row) then set_(row) else row)
  {
    if rows != [] {
      assert Update(rows, where, set_)[1..] == Update(rows[1..], where, set_);
      SelectUpdate(rows[1..], where, set_, key);
    }
  }

  // ---------- The three tables ----------

  datatype RunRow = RunRow(
    id: int, runId: string, pipeline: string, status: string, startedAt: Timestamp, finishedAt: Option<Timestamp>)

  datatype JobRow = JobRow(
    id: int, run: int, name: string, stage: string, status: string, startedAt: Timestamp,
    finishedAt: Option<Timestamp>)

  datatype StepRow = StepRow(
    id: int, job: int, name: string, status: string, exitCode: Option<Int64>, durationMs: Option<Int64>)

  datatype Db = Db(runs: seq<RunRow>, jobs: seq<JobRow>, steps: seq<StepRow>)

  const EMPTY: Db := Db([], [], [])

  datatype RecordError =
    | MissingRunId
    | UnknownRun(runId: string)
    | UnknownJob(runId: string, job: string)
    | BadExitCode(text: string)
    | BadDuration(text: string)

  function RunRowId(): RunRow -> int { (row: RunRow) => row.id }
  function JobRowId(): JobRow -> int { (row: JobRow) => row.id }
  function StepRowId(): StepRow -> int { (row: StepRow) => row.id }

  function ByRunId(runId: string): RunRow -> bool { (row: RunRow) => row.runId == runId }
  function ByRunAndName(run: int, name: string): JobRow -> bool { (row: JobRow) => row.run == run && row.name == name }
  function ByJobAndName(job: int, name: string): StepRow -> bool { (row: StepRow) => row.job == job && row.name == name }

  function FinishRun(status: string, at: Timestamp): RunRow -> RunRow {
    (row: RunRow) => row.(status := status, finishedAt := Some(at))
  }

  function FinishJob(status: string, at: Timestamp): JobRow -> JobRow {
    (row: JobRow) => row.(status := status, finishedAt := Some(at))
  }

  function FinishStep(status: string, exitCode: Option<Int64>, durationMs: Option<Int64>): StepRow -> StepRow {
    (row: StepRow) => row.(status := status, exitCode := exitCode, durationMs := durationMs)
  }

  // ---------- Recording one event ----------

  function FindRun(db: Db, runId: string): Option<RunRow> {
    Select(db.runs, ByRunId(runId))
  }

  function FindJob(db: Db, runId: string, job: string): Option<JobRow> {
    match FindRun(db, runId)
    case None => None
    case Some(run) => Select(db.jobs, ByRunAndName(run.id, job))
  }

  function FindStep(db: Db, runId: string, job: string, step: string): Option<StepRow> {
    match FindJob(db, runId, job)
    case None => None
    case Some(row) => Select(db.steps, ByJobAndName(row.id, step))
  }

  /** An absent number is NULL; a present one must parse. */
  predicate NumberOk(event: Event, key: PayloadKey) {
    key in event.payload ==> ParseInt(event.payload[key]).Some?
  }

  function Number(event: Event, key: PayloadKey): Option<Int64> {
    if key in event.payload then ParseInt(event.payload[key]) else None
  }

  function RunError(db: Db, runId: string): Option<RecordError> {
    if FindRun(db, runId).None? then Some(UnknownRun(runId)) else None
  }

  function JobError(db: Db, runId: string, job: string): Option<RecordError> {
    if FindRun(db, runId).None? then Some(UnknownRun(runId))
    else if FindJob(db, runId, job).None? then Some(UnknownJob(runId, job))
    else None
  }

  /** The error recording `event` returns, if any. */
  function ErrorOf(db: Db, event: Event): Option<RecordError> {
    match event.kind
    case PipelineStarted => if event.runId == "" then Some(MissingRunId) else None
    case PipelineFinished => None
    case JobStarted => RunError(db, event.runId)
    case JobFinished => RunError(db, event.runId)
    case StepStarted => JobError(db, event.runId, event.job)
    case StepFinished =>
      if JobError(db, event.runId, event.job).Some? then JobError(db, event.runId, event.job)
      else if !NumberOk(event, ExitCodeKey) then Some(BadExitCode(event.Read(ExitCodeKey)))
      else if !NumberOk(event, DurationKey) then Some(BadDuration(event.Read(DurationKey)))
      else None
    case OtherType(_) => None
  }

  function InsertRun(db: Db, event: Event): Db {
    if FindRun(db, event.runId).Some? then db
    else
      db.(runs := db.runs + [RunRow(NextId(db.runs, RunRowId()), event.runId, event.pipeline,
        D.Slug(D.Pending), event.occurredAt, None)])
  }

  function InsertJob(db: Db, run: int, event: Event): Db {
    if Select(db.jobs, ByRunAndName(run, event.job)).Some? then db
    else
      db.(jobs := db.jobs + [JobRow(NextId(db.jobs, JobRowId()), run, event.job, event.Read(StageKey),
        D.Slug(D.Pending), event.occurredAt, None)])
  }

  function InsertStep(db: Db, job: int, event: Event): Db {
    if Select(db.steps, ByJobAndName(job, event.step)).Some? then db
    else
      db.(steps := db.steps + [StepRow(NextId(db.steps, StepRowId()), job, event.step,
        D.Slug(D.Pending), None, None)])
  }

  /** The tables after recording `event`; an event that is rejected changes nothing. */
  function Record(db: Db, event: Event): Db {
    if ErrorOf(db, event).Some? then db
    else
      match event.kind
      case PipelineStarted => InsertRun(db, event)
      case PipelineFinished =>
        db.(runs := Update(db.runs, ByRunId(event.runId), FinishRun(event.Read(StatusKey), event.occurredAt)))
      case JobStarted => InsertJob(db, FindRun(db, event.runId).value.id, event)
      case JobFinished =>
        db.(jobs := Update(db.jobs, ByRunAndName(FindRun(db, event.runId).value.id, event.job),
          FinishJob(event.Read(StatusKey), event.occurredAt)))
      case StepStarted => InsertStep(db, FindJob(db, event.runId, event.job).value.id, event)
      case StepFinished =>
        db.(steps := Update(db.steps, ByJobAndName(FindJob(db, event.runId, event.job).value.id, event.step),
          FinishStep(event.Read(StatusKey), Number(event, ExitCodeKey), Number(event, DurationKey))))
      case OtherType(_) => db
  }

  function RecordAll(db: Db, log: seq<Event>): Db {
    if log == [] then db else Record(RecordAll(db, log[..|log| - 1]), log[|log| - 1])
  }

  lemma {:induction false} RecordAllAppend(db: Db, a: seq<Event>, b: seq<Event>)
    ensures RecordAll(db, a + b) == RecordAll(RecordAll(db, a), b)
  {
    if b == [] {
      assert a + b == a;
    } else {
      var ab := a + b;
      assert ab[..|ab| - 1] == a + b[..|b| - 1] && ab[|ab| - 1] == b[|b| - 1];
      RecordAllAppend(db, a, b[..|b| - 1]);
    }
  }

  // ---------- Integrity of the tables ----------

  ghost predicate RunsOk(db: Db) {
    && (forall i, j :: 0 <= i < j < |db.runs| ==> db.runs[i].id != db.runs[j].id)
    && (forall i, j :: 0 <= i < j < |db.runs| ==> db.runs[i].runId != db.runs[j].runId)
  }

  ghost predicate RunIdExists(db: Db, id: int) {
    exists k :: 0 <= k < |db.runs| && db.runs[k].id == id
  }

  ghost predicate JobIdExists(db: Db, id: int) {
    exists k :: 0 <= k < |db.jobs| && db.jobs[k].id == id
  }

  ghost predicate JobsOk(db: Db) {
    && (forall i, j :: 0 <= i < j < |db.jobs| ==> db.jobs[i].id != db.jobs[j].id)
    && (forall i, j :: 0 <= i < j < |db.jobs| ==> !(db.jobs[i].run == db.jobs[j].run && db.jobs[i].name == db.jobs[j].name))
    && (forall i :: 0 <= i < |db.jobs| ==> RunIdExists(db, db.jobs[i].run))
  }

  ghost predicate StepsOk(db: Db) {
    && (forall i, j :: 0 <= i < j < |db.steps| ==> db.steps[i].id != db.steps[j].id)
    && (forall i, j :: 0 <= i < j < |db.steps| ==>
          !(db.steps[i].job == db.steps[j].job && db.steps[i].name == db.steps[j].name))
    && (forall i :: 0 <= i < |db.steps| ==> JobIdExists(db, db.steps[i].job))
  }

  /** Row ids and keys are unique; every foreign key has its row. */
  ghost predicate Integrity(db: Db) {
    RunsOk(db) && JobsOk(db) && StepsOk(db)
  }

  /** Rows are never removed, and the columns that identify a row never change. */
  ghost predicate Keeps(db: Db, db': Db) {
    && |db.runs| <= |db'.runs| && |db.jobs| <= |db'.jobs| && |db.steps| <= |db'.steps|
    && (forall i :: 0 <= i < |db.runs| ==> SameRun(db.runs[i], db'.runs[i]))
    && (forall i :: 0 <= i < |db.jobs| ==> SameJob(db.jobs[i], db'.jobs[i]))
    && (forall i :: 0 <= i < |db.steps| ==> SameStep(db.steps[i], db'.steps[i]))
  }

  predicate SameRun(a: RunRow, b: RunRow) {
    b == a.(status := b.status, finishedAt := b.finishedAt)
  }

  predicate SameJob(a: JobRow, b: JobRow) {
    b == a.(status := b.status, finishedAt := b.finishedAt)
  }

  predicate SameStep(a: StepRow, b: StepRow) {
    b == a.(status := b.status, exitCode := b.exitCode, durationMs := b.durationMs)
  }

  lemma RecordKeepsRows(db: Db, event: Event)
    ensures Keeps(db, Record(db, event))
  {
  }

  /** Over any event sequence whatever, from any tables whatever. */
  lemma {:induction false} RowsKeptAlways(db: Db, log: seq<Event>)
    ensures Keeps(db, RecordAll(db, log))
  {
    if log != [] {
      RowsKeptAlways(db, log[..|log| - 1]);
      RecordKeepsRows(RecordAll(db, log[..|log| - 1]), log[|log| - 1]);
    }
  }

  /** A started event, redelivered or not, leaves every existing row exactly as it is:
      a finished row never goes back to pending. */
  lemma StartedOverwritesNothing(db: Db, event: Event)
    requires event.kind in {PipelineStarted, JobStarted, StepStarted}
    ensures db.runs <= Record(db, event).runs
    ensures db.jobs <= Record(db, event).jobs
    ensures db.steps <= Record(db, event).steps
  {
  }

  lemma InsertRunOk(db: Db, event: Event)
    requires RunsOk(db)
    ensures RunsOk(InsertRun(db, event))
  {
    forall i | 0 <= i < |db.runs|
      ensures db.runs[i].id < NextId(db.runs, RunRowId())
      ensures FindRun(db, event.runId).None? ==> db.runs[i].runId != event.runId
    {
      assert db.runs[i] in db.runs;
      assert RunRowId()(db.runs[i]) == db.runs[i].id;
      assert ByRunId(event.runId)(db.runs[i]) == (db.runs[i].runId == event.runId);
    }
  }

  lemma InsertJobOk(db: Db, run: RunRow, event: Event)
    requires Integrity(db) && run in db.runs
    ensures JobsOk(InsertJob(db, run.id, event))
  {
    var db' := InsertJob(db, run.id, event);
    forall i | 0 <= i < |db.jobs|
      ensures db.jobs[i].id < NextId(db.jobs, JobRowId())
      ensures |db'.jobs| > |db.jobs| ==> !(db.jobs[i].run == run.id && db.jobs[i].name == event.job)
    {
      assert db.jobs[i] in db.jobs;
      assert JobRowId()(db.jobs[i]) == db.jobs[i].id;
      assert ByRunAndName(run.id, event.job)(db.jobs[i]) == (db.jobs[i].run == run.id && db.jobs[i].name == event.job);
    }
    forall i | 0 <= i < |db'.jobs|
      ensures RunIdExists(db', db'.jobs[i].run)
    {
      if i < |db.jobs| {
        assert RunIdExists(db, db.jobs[i].run);
      } else {
        var k :| 0 <= k < |db.runs| && db.runs[k] == run;
      }
    }
  }

  lemma InsertStepOk(db: Db, job: JobRow, event: Event)
    requires Integrity(db) && job in db.jobs
    ensures StepsOk(InsertStep(db, job.id, event))
  {
    var db' := InsertStep(db, job.id, event);
    forall i | 0 <= i < |db.steps|
      ensures db.steps[i].id < NextId(db.steps, StepRowId())
      ensures |db'.steps| > |db.steps| ==> !(db.steps[i].job == job.id && db.steps[i].name == event.step)
    {
      assert db.steps[i] in db.steps;
      assert StepRowId()(db.steps[i]) == db.steps[i].id;
      assert ByJobAndName(job.id, event.step)(db.steps[i]) == (db.steps[i].job == job.id && db.steps[i].name == event.step);
    }
    forall i | 0 <= i < |db'.steps|
      ensures JobIdExists(db', db'.steps[i].job)
    {
      if i < |db.steps| {
        assert JobIdExists(db, db.steps[i].job);
      } else {
        var k :| 0 <= k < |db.jobs| && db.jobs[k] == job;
      }
    }
  }

  /** Changing other columns, or adding rows to the parent table, breaks no key. */
  lemma KeptTablesOk(db: Db, db': Db)
    requires Integrity(db) && Keeps(db, db')
    ensures |db'.runs| == |db.runs| ==> RunsOk(db')
    ensures |db'.jobs| == |db.jobs| ==> JobsOk(db')
    ensures |db'.steps| == |db.steps| ==> StepsOk(db')
  {
    forall id | RunIdExists(db, id)
      ensures RunIdExists(db', id)
    {
      var k :| 0 <= k < |db.runs| && db.runs[k].id == id;
      assert SameRun(db.runs[k], db'.runs[k]);
    }
    forall id | JobIdExists(db, id)
      ensures JobIdExists(db', id)
    {
      var k :| 0 <= k < |db.jobs| && db.jobs[k].id == id;
      assert SameJob(db.jobs[k], db'.jobs[k]);
    }
  }

  lemma RecordKeepsIntegrity(db: Db, event: Event)
    requires Integrity(db)
    ensures Integrity(Record(db, event))
  {
    RecordKeepsRows(db, event);
    KeptTablesOk(db, Record(db, event));
    if ErrorOf(db, event).None? {
      match event.kind
      case PipelineStarted => InsertRunOk(db, event);
      case JobStarted => InsertJobOk(db, FindRun(db, event.runId).value, event);
      case StepStarted => InsertStepOk(db, FindJob(db, event.runId, event.job).value, event);
      case _ =>
    }
  }

  lemma {:induction false} IntegrityAlways(db: Db, log: seq<Event>)
    requires Integrity(db)
    ensures Integrity(RecordAll(db, log))
  {
    if log != [] {
      var before := RecordAll(db, log[..|log| - 1]);
      IntegrityAlways(db, log[..|log| - 1]);
      RecordKeepsIntegrity(before, log[|log| - 1]);
    }
  }

  // ---------- What one event does to the rows ----------

  predicate FreshRunId(db: Db, id: int) { forall row :: row in db.runs ==> row.id != id }
  predicate FreshJobId(db: Db, id: int) { forall row :: row in db.jobs ==> row.id != id }
  predicate FreshStepId(db: Db, id: int) { forall row :: row in db.steps ==> row.id != id }

  /** A run's row is appended, pending, unless the run has one already. */
  ghost predicate RunStarted(db: Db, db': Db, e: Event) {
    match FindRun(db, e.runId)
    case Some(_) => db' == db
    case None => exists id ::
      && FreshRunId(db, id)
      && db' == db.(runs := db.runs + [RunRow(id, e.runId, e.pipeline, "pending", e.occurredAt, None)])
  }

  /** The one row of the run gets its status and end; no row, no change. */
  ghost predicate RunFinished(db: Db, db': Db, e: Event) {
    match FindRun(db, e.runId)
    case None => db' == db
    case Some(row) => exists i ::
      && 0 <= i < |db.runs| && db.runs[i] == row
      && db' == db.(runs := db.runs[i := row.(status := e.Read(StatusKey), finishedAt := Some(e.occurredAt))])
  }

  ghost predicate JobStartedIn(db: Db, db': Db, e: Event, run: RunRow) {
    match FindJob(db, e.runId, e.job)
    case Some(_) => db' == db
    case None => exists id ::
      && FreshJobId(db, id)
      && db' == db.(jobs := db.jobs + [JobRow(id, run.id, e.job, e.Read(StageKey), "pending", e.occurredAt, None)])
  }

  ghost predicate JobFinishedIn(db: Db, db': Db, e: Event) {
    match FindJob(db, e.runId, e.job)
    case None => db' == db
    case Some(row) => exists i ::
      && 0 <= i < |db.jobs| && db.jobs[i] == row
      && db' == db.(jobs := db.jobs[i := row.(status := e.Read(StatusKey), finishedAt := Some(e.occurredAt))])
  }

  ghost predicate StepStartedIn(db: Db, db': Db, e: Event, job: JobRow) {
    match FindStep(db, e.runId, e.job, e.step)
    case Some(_) => db' == db
    case None => exists id ::
      && FreshStepId(db, id)
      && db' == db.(steps := db.steps + [StepRow(id, job.id, e.step, "pending", None, None)])
  }

  ghost predicate StepFinishedIn(db: Db, db': Db, e: Event) {
    match FindStep(db, e.runId, e.job, e.step)
    case None => db' == db
    case Some(row) => exists i ::
      && 0 <= i < |db.steps| && db.steps[i] == row
      && db' == db.(steps := db.steps[i := row.(status := e.Read(StatusKey),
        exitCode := Number(e, ExitCodeKey), durationMs := Number(e, DurationKey))])
  }

  /** An update whose condition picks out one row changes that row only. */
  lemma UpdateOne<T>(rows: seq<T>, where: T -> bool, set_: T -> T) returns (i: nat)
    requires Select(rows, where).Some?
    requires forall j, k :: 0 <= j < k < |rows| ==> !(where(rows[j]) && where(rows[k]))
    ensures i < |rows| && rows[i] == Select(rows, where).value
    ensures Update(rows, where, set_) == rows[i := set_(rows[i])]
  {
    i :| 0 <= i < |rows| && rows[i] == Select(rows, where).value;
  }

  lemma UpdateNone<T>(rows: seq<T>, where: T -> bool, set_: T -> T)
    requires Select(rows, where).None?
    ensures Update(rows, where, set_) == rows
  {
    assert forall i :: 0 <= i < |rows| ==> rows[i] in rows;
  }

  /** Seen by names: a start appends at most the one row that is missing, a finish changes at
      most the one row that is there, and a refused event nothing. */
  lemma RecordChangesOneRow(db: Db, e: Event)
    requires Integrity(db)
    ensures var db' := Record(db, e);
      if ErrorOf(db, e).Some? then db' == db
      else
        match e.kind
        case PipelineStarted => RunStarted(db, db', e)
        case PipelineFinished => RunFinished(db, db', e)
        case JobStarted => FindRun(db, e.runId).Some? && JobStartedIn(db, db', e, FindRun(db, e.runId).value)
        case JobFinished => FindRun(db, e.runId).Some? && JobFinishedIn(db, db', e)
        case StepStarted =>
          FindJob(db, e.runId, e.job).Some? && StepStartedIn(db, db', e, FindJob(db, e.runId, e.job).value)
        case StepFinished => FindJob(db, e.runId, e.job).Some? && StepFinishedIn(db, db', e)
        case OtherType(_) => db' == db
  {
    if ErrorOf(db, e).None? {
      match e.kind
      case PipelineStarted => InsertsRun(db, e);
      case PipelineFinished => FinishesRun(db, e);
      case JobStarted => InsertsJob(db, e);
      case JobFinished => FinishesJob(db, e);
      case StepStarted => InsertsStep(db, e);
      case StepFinished => FinishesStep(db, e);
      case OtherType(_) =>
    }
  }

  lemma InsertsRun(db: Db, e: Event)
    requires e.kind.PipelineStarted? && ErrorOf(db, e).None?
    ensures RunStarted(db, Record(db, e), e)
  {
    var id := NextId(db.runs, RunRowId());
    assert forall row :: row in db.runs ==> RunRowId()(row) == row.id;
    assert FreshRunId(db, id);
  }

  lemma FinishesRun(db: Db, e: Event)
    requires Integrity(db) && e.kind.PipelineFinished?
    ensures RunFinished(db, Record(db, e), e)
  {
    var where, set_ := ByRunId(e.runId), FinishRun(e.Read(StatusKey), e.occurredAt);
    if FindRun(db, e.runId).Some? {
      var i := UpdateOne(db.runs, where, set_);
    } else {
      UpdateNone(db.runs, where, set_);
    }
  }

  lemma InsertsJob(db: Db, e: Event)
    requires e.kind.JobStarted? && ErrorOf(db, e).None?
    ensures FindRun(db, e.runId).Some? && JobStartedIn(db, Record(db, e), e, FindRun(db, e.runId).value)
  {
    var id := NextId(db.jobs, JobRowId());
    assert forall row :: row in db.jobs ==> JobRowId()(row) == row.id;
    assert FreshJobId(db, id);
  }

  lemma FinishesJob(db: Db, e: Event)
    requires Integrity(db) && e.kind.JobFinished? && ErrorOf(db, e).None?
    ensures FindRun(db, e.runId).Some? && JobFinishedIn(db, Record(db, e), e)
  {
    var where := ByRunAndName(FindRun(db, e.runId).value.id, e.job);
    var set_ := FinishJob(e.Read(StatusKey), e.occurredAt);
    if FindJob(db, e.runId, e.job).Some? {
      var i := UpdateOne(db.jobs, where, set_);
    } else {
      UpdateNone(db.jobs, where, set_);
    }
  }

  lemma InsertsStep(db: Db, e: Event)
    requires e.kind.StepStarted? && ErrorOf(db, e).None?
    ensures FindJob(db, e.runId, e.job).Some? && StepStartedIn(db, Record(db, e), e, FindJob(db, e.runId, e.job).value)
  {
    var id := NextId(db.steps, StepRowId());
    assert forall row :: row in db.steps ==> StepRowId()(row) == row.id;
    assert FreshStepId(db, id);
  }

  lemma FinishesStep(db: Db, e: Event)
    requires Integrity(db) && e.kind.StepFinished? && ErrorOf(db, e).None?
    ensures FindJob(db, e.runId, e.job).Some? && StepFinishedIn(db, Record(db, e), e)
  {
    var where := ByJobAndName(FindJob(db, e.runId, e.job).value.id, e.step);
    var set_ := FinishStep(e.Read(StatusKey), Number(e, ExitCodeKey), Number(e, DurationKey));
    if FindStep(db, e.runId, e.job, e.step).Some? {
      var i := UpdateOne(db.steps, where, set_);
    } else {
      UpdateNone(db.steps, where, set_);
    }
  }
}
