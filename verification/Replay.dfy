/**
 At-least-once delivery against the results database: runs cannot disturb each other,
 and re-recording what was already recorded changes nothing, when and only when no
 later event has written the same row differently.
 */
module Replay {
  import opened Basics
  import opened Events
  import opened Tables
  import opened Cells

  // ---------- Isolation ----------

  /** The only events a cell ever looks at. */
  predicate Relevant(e: Event, k: Key) {
    match e.kind
    case PipelineStarted => ForRun(e, k)
    case PipelineFinished => ForRun(e, k)
    case JobStarted => ForJob(e, k)
    case JobFinished => ForJob(e, k)
    case StepStarted => ForStep(e, k)
    case StepFinished => ForStep(e, k)
    case OtherType(_) => false
  }

  lemma {:induction false} CellIgnoresTheRest(c: Cell, log: seq<Event>, k: Key, keep: Event -> bool)
    requires forall e :: e in log && Relevant(e, k) ==> keep(e)
    ensures RecordCellAll(c, Filter(log, keep), k) == RecordCellAll(c, log, k)
  {
    hide Filter, RecordCell;
    if log == [] {
      FilterAll(log, keep);
    } else {
      var init, last := log[..|log| - 1], log[|log| - 1];
      assert log == init + [last];
      CellIgnoresTheRest(c, init, k, keep);
      FilterAppend(init, [last], keep);
      if keep(last) {
        FilterAll([last], keep);
        var kept := Filter(log, keep);
        assert kept == Filter(init, keep) + [last];
        assert kept[..|kept| - 1] == Filter(init, keep) && kept[|kept| - 1] == last;
      } else {
        FilterNone([last], keep);
        assert Filter(log, keep) == Filter(init, keep);
        RecordIrrelevant(RecordCellAll(c, init, k), last, k);
      }
    }
  }

  lemma RecordIrrelevant(c: Cell, e: Event, k: Key)
    requires !Relevant(e, k)
    ensures RecordCell(c, e, k) == c
  {
  }

  function OfRun(run: string): Event -> bool { (e: Event) => e.runId == run }

  /** Whatever else is recorded in between, a run's rows are what its own events make them,
      and whether a further event of that run is accepted depends on its own events only. */
  lemma RunIsolation(db: Db, log: seq<Event>, k: Key, next: Event)
    requires Integrity(db)
    ensures CellOf(RecordAll(db, log), k) == CellOf(RecordAll(db, Filter(log, OfRun(k.run))), k)
    ensures next.runId == k.run ==>
      (ErrorOf(RecordAll(db, log), next).None? <==> ErrorOf(RecordAll(db, Filter(log, OfRun(k.run))), next).None?)
  {
    var own := Filter(log, OfRun(k.run));
    CellIgnoresTheRest(CellOf(db, k), log, k, OfRun(k.run));
    RecordAllRefinesCell(db, log, k);
    RecordAllRefinesCell(db, own, k);
    var n := Key(next.runId, next.job, next.step);
    if next.runId == k.run {
      CellIgnoresTheRest(CellOf(db, n), log, n, OfRun(k.run));
      RecordAllRefinesCell(db, log, n);
      RecordAllRefinesCell(db, own, n);
      IntegrityAlways(db, log);
      IntegrityAlways(db, own);
      RecordRefinesCell(RecordAll(db, log), next, n);
      RecordRefinesCell(RecordAll(db, own), next, n);
    }
  }

  // ---------- Tables with the same cells are the same tables ----------

  lemma RunRowPlace(a: Db, b: Db, i: nat)
    requires Integrity(a) && Integrity(b) && Keeps(a, b)
    requires forall k :: CellOf(a, k) == CellOf(b, k)
    requires i < |b.runs|
    ensures i < |a.runs| && a.runs[i] == b.runs[i]
  {
    RowsAreCells(b);
    var k := Key(b.runs[i].runId, "", "");
    assert b.runs[i] in b.runs;
    assert CellOf(b, k).run == Some(RunInfoOf(b.runs[i]));
    var row := FindRun(a, k.run).value;
    var m :| 0 <= m < |a.runs| && a.runs[m] == row;
    assert SameRun(a.runs[m], b.runs[m]);
    assert m == i;
  }

  lemma SameCellsSameRuns(a: Db, b: Db)
    requires Integrity(a) && Integrity(b) && Keeps(a, b)
    requires forall k :: CellOf(a, k) == CellOf(b, k)
    ensures a.runs == b.runs
  {
    if |b.runs| > 0 {
      RunRowPlace(a, b, |b.runs| - 1);
    }
    forall i | 0 <= i < |b.runs|
      ensures a.runs[i] == b.runs[i]
    {
      RunRowPlace(a, b, i);
    }
  }

  lemma JobRowPlace(a: Db, b: Db, i: nat)
    requires Integrity(a) && Integrity(b) && Keeps(a, b) && a.runs == b.runs
    requires forall k :: CellOf(a, k) == CellOf(b, k)
    requires i < |b.jobs|
    ensures i < |a.jobs| && a.jobs[i] == b.jobs[i]
  {
    var run := JobRowFound(b, b.jobs[i]);
    var k := Key(run.runId, b.jobs[i].name, "");
    assert CellOf(b, k).job == Some(JobInfoOf(b.jobs[i]));
    var row := FindJob(a, k.run, k.job).value;
    var m :| 0 <= m < |a.jobs| && a.jobs[m] == row;
    assert SameJob(a.jobs[m], b.jobs[m]);
    assert b.jobs[m].run == b.jobs[i].run && b.jobs[m].name == b.jobs[i].name;
    JobIdsIdentify(b, b.jobs[m], b.jobs[i]);
    assert m == i;
  }

  lemma SameCellsSameJobs(a: Db, b: Db)
    requires Integrity(a) && Integrity(b) && Keeps(a, b) && a.runs == b.runs
    requires forall k :: CellOf(a, k) == CellOf(b, k)
    ensures a.jobs == b.jobs
  {
    if |b.jobs| > 0 {
      JobRowPlace(a, b, |b.jobs| - 1);
    }
    forall i | 0 <= i < |b.jobs|
      ensures a.jobs[i] == b.jobs[i]
    {
      JobRowPlace(a, b, i);
    }
  }

  lemma StepIdsIdentify(db: Db, a: StepRow, b: StepRow)
    requires StepsOk(db) && a in db.steps && b in db.steps
    ensures a.job == b.job && a.name == b.name ==> a == b
  {
    if a != b {
      var i :| 0 <= i < |db.steps| && db.steps[i] == a;
      var j :| 0 <= j < |db.steps| && db.steps[j] == b;
      assert i < j || j < i;
    }
  }

  lemma FoundStepPlace(a: Db, b: Db, k: Key, i: nat)
    requires StepsOk(b) && Keeps(a, b) && i < |b.steps|
    requires FindStep(a, k.run, k.job, k.step).Some? && FindJob(a, k.run, k.job).Some?
    requires FindJob(a, k.run, k.job).value.id == b.steps[i].job && k.step == b.steps[i].name
    requires StepInfoOf(FindStep(a, k.run, k.job, k.step).value) == StepInfoOf(b.steps[i])
    ensures i < |a.steps| && a.steps[i] == b.steps[i]
  {
    var found := FindStep(a, k.run, k.job, k.step).value;
    assert found.job == b.steps[i].job && found.name == b.steps[i].name;
    var m :| 0 <= m < |a.steps| && a.steps[m] == found;
    assert SameStep(a.steps[m], b.steps[m]);
    StepIdsIdentify(b, b.steps[m], b.steps[i]);
    assert m == i;
  }

  lemma StepRowPlace(a: Db, b: Db, i: nat)
    requires Integrity(a) && Integrity(b) && Keeps(a, b) && a.runs == b.runs && a.jobs == b.jobs
    requires forall k :: CellOf(a, k) == CellOf(b, k)
    requires i < |b.steps|
    ensures i < |a.steps| && a.steps[i] == b.steps[i]
  {
    var k := KeyOfStep(b, b.steps[i]);
    assert CellOf(a, k) == CellOf(b, k);
    FoundStepPlace(a, b, k, i);
  }

  lemma KeyOfStep(db: Db, row: StepRow) returns (k: Key)
    requires Integrity(db) && row in db.steps
    ensures FindStep(db, k.run, k.job, k.step) == Some(row) && k.step == row.name
    ensures FindJob(db, k.run, k.job).Some? && FindJob(db, k.run, k.job).value.id == row.job
  {
    var run, job := StepRowFound(db, row);
    k := Key(run.runId, job.name, row.name);
    assert ByJobAndName(FindJob(db, k.run, k.job).value.id, k.step)(row);
  }

  /** Tables of which one extends the other are equal once every cell agrees. */
  lemma SameCellsSameTables(a: Db, b: Db)
    requires Integrity(a) && Integrity(b) && Keeps(a, b)
    requires forall k :: CellOf(a, k) == CellOf(b, k)
    ensures a == b
  {
    SameCellsSameRuns(a, b);
    SameCellsSameJobs(a, b);
    if |b.steps| > 0 {
      StepRowPlace(a, b, |b.steps| - 1);
    }
    forall i | 0 <= i < |b.steps|
      ensures a.steps[i] == b.steps[i]
    {
      StepRowPlace(a, b, i);
    }
  }

  // ---------- One event twice ----------

  /** Immediate redelivery is a no-op from any tables whatever. */
  lemma RecordTwice(db: Db, e: Event)
    ensures Record(Record(db, e), e) == Record(db, e)
  {
    var once := Record(db, e);
    if ErrorOf(db, e).None? {
      match e.kind
      case PipelineStarted =>
        if FindRun(db, e.runId).None? {
          SelectAppend(db.runs, once.runs[|db.runs|], ByRunId(e.runId));
        }
      case PipelineFinished =>
        assert Record(once, e).runs == once.runs;
      case JobStarted =>
        var run := FindRun(db, e.runId).value;
        if Select(db.jobs, ByRunAndName(run.id, e.job)).None? {
          SelectAppend(db.jobs, once.jobs[|db.jobs|], ByRunAndName(run.id, e.job));
        }
      case JobFinished =>
        assert Record(once, e).jobs == once.jobs;
      case StepStarted =>
        var job := FindJob(db, e.runId, e.job).value;
        if Select(db.steps, ByJobAndName(job.id, e.step)).None? {
          SelectAppend(db.steps, once.steps[|db.steps|], ByJobAndName(job.id, e.step));
        }
      case StepFinished =>
        assert Record(once, e).steps == once.steps;
      case OtherType(_) =>
    }
  }

  // ---------- Order: started before anything else ----------

  datatype Entity = RunEntity(run: string) | JobEntity(run: string, job: string) | StepEntity(run: string, job: string, step: string)

  /** The entity whose row `e` introduces. */
  function Introduced(e: Event): set<Entity> {
    match e.kind
    case PipelineStarted => if e.runId == "" then {} else {RunEntity(e.runId)}
    case JobStarted => {JobEntity(e.runId, e.job)}
    case StepStarted => {StepEntity(e.runId, e.job, e.step)}
    case _ => {}
  }

  /** What must already have been introduced for `e` to find the rows it refers to. */
  predicate Grounded(known: set<Entity>, e: Event) {
    match e.kind
    case PipelineFinished => RunEntity(e.runId) in known
    case JobStarted => RunEntity(e.runId) in known
    case JobFinished => JobEntity(e.runId, e.job) in known
    case StepStarted => JobEntity(e.runId, e.job) in known
    case StepFinished => StepEntity(e.runId, e.job, e.step) in known
    case _ => true
  }

  function Known(known: set<Entity>, log: seq<Event>): set<Entity> {
    if log == [] then known else Known(known, log[..|log| - 1]) + Introduced(log[|log| - 1])
  }

  /** Every event comes after the started events of its entity and of that entity's parent. */
  predicate Ordered(known: set<Entity>, log: seq<Event>) {
    log != [] ==>
      Ordered(known, log[..|log| - 1]) && Grounded(Known(known, log[..|log| - 1]), log[|log| - 1])
  }

  lemma {:induction false} OrderedAppend(known: set<Entity>, a: seq<Event>, b: seq<Event>)
    ensures Known(known, a + b) == Known(Known(known, a), b)
    ensures Ordered(known, a + b) <==> Ordered(known, a) && Ordered(Known(known, a), b)
  {
    if b == [] {
      assert a + b == a;
    } else {
      var ab := a + b;
      assert ab[..|ab| - 1] == a + b[..|b| - 1] && ab[|ab| - 1] == b[|b| - 1];
      OrderedAppend(known, a, b[..|b| - 1]);
    }
  }

  /** A cell has rows for all entities of its key that are known, parents included. */
  predicate CellTracks(known: set<Entity>, c: Cell, k: Key) {
    && (RunEntity(k.run) in known ==> c.run.Some?)
    && (JobEntity(k.run, k.job) in known ==> c.run.Some? && c.job.Some?)
    && (StepEntity(k.run, k.job, k.step) in known ==> c.run.Some? && c.job.Some? && c.step.Some?)
  }

  ghost predicate Tracks(known: set<Entity>, db: Db) {
    forall k :: CellTracks(known, CellOf(db, k), k)
  }

  lemma {:induction false} CellTracksAlways(known: set<Entity>, c: Cell, log: seq<Event>, k: Key)
    requires CellTracks(known, c, k) && Ordered(known, log)
    ensures CellTracks(Known(known, log), RecordCellAll(c, log, k), k)
  {
    if log != [] {
      CellTracksAlways(known, c, log[..|log| - 1], k);
    }
  }

  // ---------- A row is a register: created once, then overwritten ----------

  datatype Reg<I, M> = Reg(identity: I, columns: M)

  datatype Op<I, M> = Skip | Create(identity: I, columns: M) | Write(columns: M)

  function Exec<I, M>(reg: Option<Reg<I, M>>, op: Op<I, M>): Option<Reg<I, M>> {
    match op
    case Skip => reg
    case Create(i, m) => if reg.None? then Some(Reg(i, m)) else reg
    case Write(m) => if reg.Some? then Some(Reg(reg.value.identity, m)) else reg
  }

  function ExecAll<I, M>(reg: Option<Reg<I, M>>, ops: seq<Op<I, M>>): Option<Reg<I, M>> {
    if ops == [] then reg else Exec(ExecAll(reg, ops[..|ops| - 1]), ops[|ops| - 1])
  }

  /** No write ever misses. */
  predicate Hits<I, M>(reg: Option<Reg<I, M>>, ops: seq<Op<I, M>>) {
    ops != [] ==>
      && Hits(reg, ops[..|ops| - 1])
      && (ops[|ops| - 1].Write? ==> ExecAll(reg, ops[..|ops| - 1]).Some?)
  }

  function LastWrite<I, M>(ops: seq<Op<I, M>>): Option<M> {
    if ops == [] then None
    else
      match ops[|ops| - 1]
      case Write(m) => Some(m)
      case _ => LastWrite(ops[..|ops| - 1])
  }

  lemma {:induction false} ExistingRegister<I, M>(reg: Reg<I, M>, ops: seq<Op<I, M>>)
    ensures ExecAll(Some(reg), ops) ==
      Some(Reg(reg.identity, if LastWrite(ops).Some? then LastWrite(ops).value else reg.columns))
  {
    if ops != [] {
      ExistingRegister(reg, ops[..|ops| - 1]);
    }
  }

  lemma {:induction false} RegisterHoldsLastWrite<I, M>(reg: Option<Reg<I, M>>, ops: seq<Op<I, M>>)
    requires Hits(reg, ops)
    ensures LastWrite(ops).Some? ==> ExecAll(reg, ops).Some? && ExecAll(reg, ops).value.columns == LastWrite(ops).value
    ensures ExecAll(reg, ops).None? ==> reg.None? && forall op :: op in ops ==> op.Skip?
  {
    if ops != [] {
      assert ops == ops[..|ops| - 1] + [ops[|ops| - 1]];
      RegisterHoldsLastWrite(reg, ops[..|ops| - 1]);
    }
  }

  lemma {:induction false} SkipsDoNothing<I, M>(reg: Option<Reg<I, M>>, ops: seq<Op<I, M>>)
    requires forall op :: op in ops ==> op.Skip?
    ensures ExecAll(reg, ops) == reg
  {
    if ops != [] {
      SkipsDoNothing(reg, ops[..|ops| - 1]);
    }
  }

  lemma RegisterReplay<I, M>(reg: Option<Reg<I, M>>, ops: seq<Op<I, M>>)
    requires Hits(reg, ops)
    ensures ExecAll(ExecAll(reg, ops), ops) == ExecAll(reg, ops)
  {
    RegisterHoldsLastWrite(reg, ops);
    match ExecAll(reg, ops)
    case None => SkipsDoNothing(None, ops);
    case Some(r) => ExistingRegister(r, ops);
  }

  // ---------- The registers of a cell ----------

  type RunOpT = Op<(string, Timestamp), (string, Option<Timestamp>)>
  type JobOpT = Op<(string, Timestamp), (string, Option<Timestamp>)>
  type StepOpT = Op<(), StepInfo>

  function RunOp(e: Event, k: Key): RunOpT {
    match e.kind
    case PipelineStarted =>
      if ForRun(e, k) && e.runId != "" then Create((e.pipeline, e.occurredAt), ("pending", None)) else Skip
    case PipelineFinished => if ForRun(e, k) then Write((e.Read(StatusKey), Some(e.occurredAt))) else Skip
    case _ => Skip
  }

  function JobOp(e: Event, k: Key): JobOpT {
    match e.kind
    case JobStarted => if ForJob(e, k) then Create((e.Read(StageKey), e.occurredAt), ("pending", None)) else Skip
    case JobFinished => if ForJob(e, k) then Write((e.Read(StatusKey), Some(e.occurredAt))) else Skip
    case _ => Skip
  }

  function StepOp(e: Event, k: Key): StepOpT {
    match e.kind
    case StepStarted => if ForStep(e, k) then Create((), StepInfo("pending", None, None)) else Skip
    case StepFinished =>
      if ForStep(e, k) && NumberOk(e, ExitCodeKey) && NumberOk(e, DurationKey) then
        Write(StepInfo(e.Read(StatusKey), Number(e, ExitCodeKey), Number(e, DurationKey)))
      else Skip
    case _ => Skip
  }

  function RunOps(log: seq<Event>, k: Key): (ops: seq<RunOpT>)
    ensures |ops| == |log|
  {
    seq(|log|, i requires 0 <= i < |log| => RunOp(log[i], k))
  }

  function JobOps(log: seq<Event>, k: Key): (ops: seq<JobOpT>)
    ensures |ops| == |log|
  {
    seq(|log|, i requires 0 <= i < |log| => JobOp(log[i], k))
  }

  function StepOps(log: seq<Event>, k: Key): (ops: seq<StepOpT>)
    ensures |ops| == |log|
  {
    seq(|log|, i requires 0 <= i < |log| => StepOp(log[i], k))
  }

  function RunReg(c: Cell): Option<Reg<(string, Timestamp), (string, Option<Timestamp>)>> {
    match c.run
    case None => None
    case Some(r) => Some(Reg((r.pipeline, r.startedAt), (r.status, r.finishedAt)))
  }

  function JobReg(c: Cell): Option<Reg<(string, Timestamp), (string, Option<Timestamp>)>> {
    match c.job
    case None => None
    case Some(j) => Some(Reg((j.stage, j.startedAt), (j.status, j.finishedAt)))
  }

  function StepReg(c: Cell): Option<Reg<(), StepInfo>> {
    match c.step
    case None => None
    case Some(s) => Some(Reg((), s))
  }

  lemma CellStepsItsRegisters(known: set<Entity>, c: Cell, e: Event, k: Key)
    requires CellTracks(known, c, k) && Grounded(known, e)
    ensures RunReg(RecordCell(c, e, k)) == Exec(RunReg(c), RunOp(e, k))
    ensures JobReg(RecordCell(c, e, k)) == Exec(JobReg(c), JobOp(e, k))
    ensures StepReg(RecordCell(c, e, k)) == Exec(StepReg(c), StepOp(e, k))
    ensures RunOp(e, k).Write? ==> RunReg(c).Some?
    ensures JobOp(e, k).Write? ==> JobReg(c).Some?
    ensures StepOp(e, k).Write? ==> StepReg(c).Some?
  {
  }

  /** On an ordered log the three rows of a cell are three independent registers. */
  lemma {:induction false} CellIsThreeRegisters(known: set<Entity>, c: Cell, log: seq<Event>, k: Key)
    requires CellTracks(known, c, k) && Ordered(known, log)
    ensures RunReg(RecordCellAll(c, log, k)) == ExecAll(RunReg(c), RunOps(log, k)) && Hits(RunReg(c), RunOps(log, k))
    ensures JobReg(RecordCellAll(c, log, k)) == ExecAll(JobReg(c), JobOps(log, k)) && Hits(JobReg(c), JobOps(log, k))
    ensures StepReg(RecordCellAll(c, log, k)) == ExecAll(StepReg(c), StepOps(log, k)) && Hits(StepReg(c), StepOps(log, k))
  {
    if log != [] {
      var init, last := log[..|log| - 1], log[|log| - 1];
      CellIsThreeRegisters(known, c, init, k);
      CellTracksAlways(known, c, init, k);
      CellStepsItsRegisters(Known(known, init), RecordCellAll(c, init, k), last, k);
      assert RunOps(log, k)[..|log| - 1] == RunOps(init, k);
      assert JobOps(log, k)[..|log| - 1] == JobOps(init, k);
      assert StepOps(log, k)[..|log| - 1] == StepOps(init, k);
    }
  }

  lemma {:induction false} OrderedMonotone(small: set<Entity>, large: set<Entity>, log: seq<Event>)
    requires small <= large && Ordered(small, log)
    ensures Ordered(large, log) && Known(small, log) <= Known(large, log)
  {
    if log != [] {
      OrderedMonotone(small, large, log[..|log| - 1]);
    }
  }

  lemma {:induction false} KnownGrows(known: set<Entity>, log: seq<Event>)
    ensures known <= Known(known, log)
  {
    if log != [] {
      KnownGrows(known, log[..|log| - 1]);
    }
  }

  lemma SameRegistersSameCell(a: Cell, b: Cell)
    requires RunReg(a) == RunReg(b) && JobReg(a) == JobReg(b) && StepReg(a) == StepReg(b)
    ensures a == b
  {
  }

  lemma CellReplay(known: set<Entity>, c: Cell, log: seq<Event>, k: Key)
    requires CellTracks(known, c, k) && Ordered(known, log)
    ensures RecordCellAll(RecordCellAll(c, log, k), log, k) == RecordCellAll(c, log, k)
  {
    var once := RecordCellAll(c, log, k);
    CellIsThreeRegisters(known, c, log, k);
    CellTracksAlways(known, c, log, k);
    KnownGrows(known, log);
    OrderedMonotone(known, Known(known, log), log);
    CellIsThreeRegisters(Known(known, log), once, log, k);
    RegisterReplay(RunReg(c), RunOps(log, k));
    RegisterReplay(JobReg(c), JobOps(log, k));
    RegisterReplay(StepReg(c), StepOps(log, k));
    SameRegistersSameCell(RecordCellAll(once, log, k), once);
  }

  // ---------- Replay ----------

  /** Re-recording any suffix of an ordered log leaves the tables as they are, row for row. */
  lemma SuffixReplay(known: set<Entity>, db: Db, log: seq<Event>, cut: nat)
    requires Integrity(db) && Tracks(known, db) && Ordered(known, log) && cut <= |log|
    ensures RecordAll(RecordAll(db, log), log[cut..]) == RecordAll(db, log)
  {
    var head, tail := log[..cut], log[cut..];
    assert log == head + tail;
    OrderedAppend(known, head, tail);
    RecordAllAppend(db, head, tail);
    var mid := RecordAll(db, head);
    var end := RecordAll(mid, tail);
    IntegrityAlways(db, head);
    IntegrityAlways(mid, tail);
    IntegrityAlways(end, tail);
    RowsKeptAlways(end, tail);
    forall k
      ensures CellOf(RecordAll(end, tail), k) == CellOf(end, k)
    {
      CellTracksAlways(known, CellOf(db, k), head, k);
      RecordAllRefinesCell(db, head, k);
      RecordAllRefinesCell(mid, tail, k);
      RecordAllRefinesCell(end, tail, k);
      CellReplay(Known(known, head), CellOf(mid, k), tail, k);
    }
    SameCellsSameTables(end, RecordAll(end, tail));
  }

  /** The suffixes of `log` that start at each of `cuts`, one after the other. */
  function Suffixes(log: seq<Event>, cuts: seq<nat>): seq<Event>
    requires forall i :: 0 <= i < |cuts| ==> cuts[i] <= |log|
  {
    if cuts == [] then [] else log[cuts[0]..] + Suffixes(log, cuts[1..])
  }

  /** Any suffixes, any number of times. */
  lemma {:induction false} RepeatedReplay(known: set<Entity>, db: Db, log: seq<Event>, cuts: seq<nat>)
    requires Integrity(db) && Tracks(known, db) && Ordered(known, log)
    requires forall i :: 0 <= i < |cuts| ==> cuts[i] <= |log|
    ensures RecordAll(RecordAll(db, log), Suffixes(log, cuts)) == RecordAll(db, log)
  {
    if cuts != [] {
      SuffixReplay(known, db, log, cuts[0]);
      RecordAllAppend(RecordAll(db, log), log[cuts[0]..], Suffixes(log, cuts[1..]));
      RepeatedReplay(known, db, log, cuts[1..]);
    }
  }

  // ---------- Redelivery of one earlier event ----------

  predicate Finishing(e: Event) {
    match e.kind
    case PipelineFinished => true
    case JobFinished => true
    case StepFinished => NumberOk(e, ExitCodeKey) && NumberOk(e, DurationKey)
    case _ => false
  }

  /** Both are finished events, fit to be recorded, of one and the same entity. */
  predicate WriteSameRow(e: Event, f: Event) {
    && Finishing(e) && Finishing(f) && e.kind == f.kind && e.runId == f.runId
    && (e.kind != PipelineFinished ==> e.job == f.job)
    && (e.kind == StepFinished ==> e.step == f.step)
  }

  predicate WriteSameColumns(e: Event, f: Event) {
    && e.Read(StatusKey) == f.Read(StatusKey)
    && if e.kind == StepFinished
       then Number(e, ExitCodeKey) == Number(f, ExitCodeKey) && Number(e, DurationKey) == Number(f, DurationKey)
       else e.occurredAt == f.occurredAt
  }

  /** The last event of the log that writes the row of `log[i]` writes something else. */
  ghost predicate Overwritten(log: seq<Event>, i: nat)
    requires i < |log|
  {
    exists j :: i <= j < |log| && LastWriter(log, i, j) && !WriteSameColumns(log[i], log[j])
  }

  predicate LastWriter(log: seq<Event>, i: nat, j: nat)
    requires i < |log| && j < |log|
  {
    WriteSameRow(log[i], log[j]) && forall m :: j < m < |log| ==> !WriteSameRow(log[i], log[m])
  }

  lemma {:induction false} LastWriteIsLast<I, M>(ops: seq<Op<I, M>>, j: nat)
    requires j < |ops| && ops[j].Write? && forall m :: j < m < |ops| ==> !ops[m].Write?
    ensures LastWrite(ops) == Some(ops[j].columns)
  {
    if j < |ops| - 1 {
      LastWriteIsLast(ops[..|ops| - 1], j);
    }
  }

  lemma {:induction false} LastWriterExists(log: seq<Event>, i: nat, from: nat) returns (j: nat)
    requires i < |log| && i <= from < |log| && WriteSameRow(log[i], log[from])
    ensures from <= j < |log| && LastWriter(log, i, j)
    decreases |log| - from
  {
    if m :| from < m < |log| && WriteSameRow(log[i], log[m]) {
      j := LastWriterExists(log, i, m);
    } else {
      j := from;
    }
  }

  lemma LastRunWrite(known: set<Entity>, c: Cell, log: seq<Event>, j: nat, k: Key)
    requires CellTracks(known, c, k) && Ordered(known, log) && j < |log| && RunOp(log[j], k).Write?
    requires forall m :: j < m < |log| ==> !RunOp(log[m], k).Write?
    ensures var r := RecordCellAll(c, log, k).run;
      r.Some? && r.value.status == log[j].Read(StatusKey) && r.value.finishedAt == Some(log[j].occurredAt)
  {
    CellIsThreeRegisters(known, c, log, k);
    LastWriteIsLast(RunOps(log, k), j);
    RegisterHoldsLastWrite(RunReg(c), RunOps(log, k));
  }

  lemma LastJobWrite(known: set<Entity>, c: Cell, log: seq<Event>, j: nat, k: Key)
    requires CellTracks(known, c, k) && Ordered(known, log) && j < |log| && JobOp(log[j], k).Write?
    requires forall m :: j < m < |log| ==> !JobOp(log[m], k).Write?
    ensures var r := RecordCellAll(c, log, k).job;
      r.Some? && r.value.status == log[j].Read(StatusKey) && r.value.finishedAt == Some(log[j].occurredAt)
  {
    CellIsThreeRegisters(known, c, log, k);
    LastWriteIsLast(JobOps(log, k), j);
    RegisterHoldsLastWrite(JobReg(c), JobOps(log, k));
  }

  lemma LastStepWrite(known: set<Entity>, c: Cell, log: seq<Event>, j: nat, k: Key)
    requires CellTracks(known, c, k) && Ordered(known, log) && j < |log| && StepOp(log[j], k).Write?
    requires forall m :: j < m < |log| ==> !StepOp(log[m], k).Write?
    ensures RecordCellAll(c, log, k).step == Some(StepOp(log[j], k).columns)
  {
    CellIsThreeRegisters(known, c, log, k);
    LastWriteIsLast(StepOps(log, k), j);
    RegisterHoldsLastWrite(StepReg(c), StepOps(log, k));
  }

  /** A cell with a job has its run, a cell with a step its job. */
  predicate Nested(c: Cell) {
    (c.step.Some? ==> c.job.Some?) && (c.job.Some? ==> c.run.Some?)
  }

  /** The row of a finished event holds what its last writer wrote. */
  lemma RowHoldsLastWriter(known: set<Entity>, db: Db, log: seq<Event>, i: nat, j: nat)
    requires Integrity(db) && Tracks(known, db) && Ordered(known, log)
    requires i < |log| && j < |log| && LastWriter(log, i, j)
    ensures var c := CellOf(RecordAll(db, log), Key(log[i].runId, log[i].job, log[i].step));
      && Nested(c)
      && match log[i].kind
         case PipelineFinished =>
           c.run.Some? && c.run.value.status == log[j].Read(StatusKey) && c.run.value.finishedAt == Some(log[j].occurredAt)
         case JobFinished =>
           c.job.Some? && c.job.value.status == log[j].Read(StatusKey) && c.job.value.finishedAt == Some(log[j].occurredAt)
         case StepFinished =>
           c.step == Some(StepInfo(log[j].Read(StatusKey), Number(log[j], ExitCodeKey), Number(log[j], DurationKey)))
         case _ => true
  {
    var k := Key(log[i].runId, log[i].job, log[i].step);
    RecordAllRefinesCell(db, log, k);
    match log[i].kind
    case PipelineFinished => LastRunWrite(known, CellOf(db, k), log, j, k);
    case JobFinished => LastJobWrite(known, CellOf(db, k), log, j, k);
    case StepFinished => LastStepWrite(known, CellOf(db, k), log, j, k);
    case _ =>
  }

  /** An accepted started event finds its row already there. */
  lemma {:induction false} StartedIsKnown(known: set<Entity>, log: seq<Event>, i: nat)
    requires i < |log|
    ensures Introduced(log[i]) <= Known(known, log)
  {
    if i < |log| - 1 {
      StartedIsKnown(known, log[..|log| - 1], i);
    }
  }

  /** Cells of keys that share names share rows. */
  lemma CellsShareRows(db: Db, a: Key, b: Key)
    ensures a.run == b.run ==> CellOf(db, a).run == CellOf(db, b).run
    ensures a.run == b.run && a.job == b.job ==> CellOf(db, a).job == CellOf(db, b).job
    ensures a == b ==> CellOf(db, a) == CellOf(db, b)
  {
  }

  /** If an event changes nothing in its own cell, it changes nothing in any. */
  lemma OwnCellDecides(own: Cell, c: Cell, e: Event, k: Key)
    requires RecordCell(own, e, Key(e.runId, e.job, e.step)) == own
    requires e.runId == k.run ==> own.run == c.run
    requires ForJob(e, k) ==> own.job == c.job
    requires ForStep(e, k) ==> own.step == c.step
    ensures RecordCell(c, e, k) == c
  {
  }

  lemma SettledEvent(db: Db, e: Event)
    requires Integrity(db)
    requires var k := Key(e.runId, e.job, e.step); RecordCell(CellOf(db, k), e, k) == CellOf(db, k)
    ensures Record(db, e) == db
  {
    RecordKeepsRows(db, e);
    RecordKeepsIntegrity(db, e);
    var own := Key(e.runId, e.job, e.step);
    forall k
      ensures CellOf(Record(db, e), k) == CellOf(db, k)
    {
      RecordRefinesCell(db, e, k);
      CellsShareRows(db, own, k);
      OwnCellDecides(CellOf(db, own), CellOf(db, k), e, k);
    }
    SameCellsSameTables(db, Record(db, e));
  }

  lemma RedeliveredFinish(known: set<Entity>, db: Db, log: seq<Event>, i: nat)
    requires Integrity(db) && Tracks(known, db) && Ordered(known, log) && i < |log| && Finishing(log[i])
    ensures var k := Key(log[i].runId, log[i].job, log[i].step);
      var c := CellOf(RecordAll(db, log), k);
      RecordCell(c, log[i], k) == c <==> !Overwritten(log, i)
  {
    var j := LastWriterExists(log, i, i);
    RowHoldsLastWriter(known, db, log, i, j);
    if n :| i <= n < |log| && LastWriter(log, i, n) && !WriteSameColumns(log[i], log[n]) {
      assert n == j;
    }
  }

  lemma RedeliveredOther(known: set<Entity>, db: Db, log: seq<Event>, i: nat)
    requires Integrity(db) && Tracks(known, db) && Ordered(known, log) && i < |log| && !Finishing(log[i])
    ensures var k := Key(log[i].runId, log[i].job, log[i].step);
      var c := CellOf(RecordAll(db, log), k);
      RecordCell(c, log[i], k) == c
  {
    var k := Key(log[i].runId, log[i].job, log[i].step);
    StartedIsKnown(known, log, i);
    CellTracksAlways(known, CellOf(db, k), log, k);
    RecordAllRefinesCell(db, log, k);
  }

  /** Redelivering one event of an ordered log is a no-op if and only if it has not since been
      overwritten with something else. */
  lemma RedeliveryExactly(known: set<Entity>, db: Db, log: seq<Event>, i: nat)
    requires Integrity(db) && Tracks(known, db) && Ordered(known, log) && i < |log|
    ensures Record(RecordAll(db, log), log[i]) == RecordAll(db, log) <==> !Overwritten(log, i)
  {
    var e, end := log[i], RecordAll(db, log);
    var k := Key(e.runId, e.job, e.step);
    IntegrityAlways(db, log);
    RecordRefinesCell(end, e, k);
    if Finishing(e) {
      RedeliveredFinish(known, db, log, i);
    } else {
      RedeliveredOther(known, db, log, i);
    }
    if RecordCell(CellOf(end, k), e, k) == CellOf(end, k) {
      SettledEvent(end, e);
    }
  }

  // ---------- A finish whose row is not there ----------

  predicate IsFinish(e: Event) { e.kind in {PipelineFinished, JobFinished, StepFinished} }

  /** The run, job or step the event is about has a row. */
  predicate HasRow(db: Db, e: Event) {
    match e.kind
    case PipelineStarted => FindRun(db, e.runId).Some?
    case PipelineFinished => FindRun(db, e.runId).Some?
    case JobStarted => FindJob(db, e.runId, e.job).Some?
    case JobFinished => FindJob(db, e.runId, e.job).Some?
    case StepStarted => FindStep(db, e.runId, e.job, e.step).Some?
    case StepFinished => FindStep(db, e.runId, e.job, e.step).Some?
    case OtherType(_) => false
  }

  /** That row says what the finished event says. */
  predicate HoldsColumns(db: Db, e: Event)
    requires IsFinish(e)
  {
    HasRow(db, e) &&
    match e.kind
    case PipelineFinished =>
      var row := FindRun(db, e.runId).value;
      row.status == e.Read(StatusKey) && row.finishedAt == Some(e.occurredAt)
    case JobFinished =>
      var row := FindJob(db, e.runId, e.job).value;
      row.status == e.Read(StatusKey) && row.finishedAt == Some(e.occurredAt)
    case StepFinished =>
      StepInfoOf(FindStep(db, e.runId, e.job, e.step).value)
        == StepInfo(e.Read(StatusKey), Number(e, ExitCodeKey), Number(e, DurationKey))
  }

  predicate CellHasRow(c: Cell, e: Event)
    requires IsFinish(e)
  {
    match e.kind
    case PipelineFinished => c.run.Some?
    case JobFinished => c.job.Some?
    case StepFinished => c.step.Some?
  }

  lemma RowIsInCell(db: Db, e: Event)
    requires IsFinish(e)
    ensures HasRow(db, e) <==> CellHasRow(CellOf(db, Key(e.runId, e.job, e.step)), e)
  {
  }

  predicate CellHoldsColumns(c: Cell, e: Event)
    requires IsFinish(e)
  {
    match e.kind
    case PipelineFinished =>
      c.run.Some? && c.run.value.status == e.Read(StatusKey) && c.run.value.finishedAt == Some(e.occurredAt)
    case JobFinished =>
      c.job.Some? && c.job.value.status == e.Read(StatusKey) && c.job.value.finishedAt == Some(e.occurredAt)
    case StepFinished =>
      c.step == Some(StepInfo(e.Read(StatusKey), Number(e, ExitCodeKey), Number(e, DurationKey)))
  }

  lemma ColumnsAreInCell(db: Db, e: Event)
    requires IsFinish(e)
    ensures HoldsColumns(db, e) <==> CellHoldsColumns(CellOf(db, Key(e.runId, e.job, e.step)), e)
  {
  }

  lemma FinishNeedsItsCell(c: Cell, e: Event)
    requires IsFinish(e) && Nested(c) && Accepts(c, e)
    ensures var d := RecordCell(c, e, Key(e.runId, e.job, e.step));
      && (CellHoldsColumns(d, e) <==> CellHasRow(c, e))
      && (!CellHasRow(c, e) ==> d == c)
  {
  }

  /** An accepted finish is recorded if and only if its row is there; otherwise it changes
      nothing at all, and nobody is told. */
  lemma FinishNeedsItsRow(db: Db, e: Event)
    requires Integrity(db) && IsFinish(e) && ErrorOf(db, e).None?
    ensures HoldsColumns(Record(db, e), e) <==> HasRow(db, e)
    ensures !HasRow(db, e) ==> Record(db, e) == db
  {
    hide Integrity, CellOf, HasRow, HoldsColumns, Record, ErrorOf, RecordCell, Accepts, CellHasRow, CellHoldsColumns, Nested;
    var k := Key(e.runId, e.job, e.step);
    RecordRefinesCell(db, e, k);
    CellIsNested(db, k);
    RowIsInCell(db, e);
    ColumnsAreInCell(Record(db, e), e);
    FinishNeedsItsCell(CellOf(db, k), e);
    if !HasRow(db, e) {
      SettledEvent(db, e);
    }
  }

  /** The started event of what `e` is about. */
  predicate Starts(start: Event, e: Event) {
    match start.kind
    case PipelineStarted => e.kind == PipelineFinished && start.runId == e.runId
    case JobStarted => e.kind == JobFinished && start.runId == e.runId && start.job == e.job
    case StepStarted => e.kind == StepFinished && start.runId == e.runId && start.job == e.job && start.step == e.step
    case _ => false
  }

  ghost predicate StartAccepted(db: Db, log: seq<Event>, e: Event, n: nat)
    requires n < |log|
  {
    Starts(log[n], e) && ErrorOf(RecordAll(db, log[..n]), log[n]).None?
  }

  lemma StartMakesCell(own: Cell, c: Cell, start: Event, e: Event)
    requires IsFinish(e) && Nested(c)
    requires start.runId == e.runId ==> own.run == c.run
    requires start.runId == e.runId && start.job == e.job ==> own.job == c.job
    ensures CellHasRow(RecordCell(c, start, Key(e.runId, e.job, e.step)), e) <==>
      CellHasRow(c, e) || (Starts(start, e) && Accepts(own, start))
  {
  }

  lemma CellIsNested(db: Db, k: Key)
    ensures Nested(CellOf(db, k))
  {
  }

  lemma StartMakesRow(db: Db, start: Event, e: Event)
    requires Integrity(db) && IsFinish(e)
    ensures HasRow(Record(db, start), e) <==> HasRow(db, e) || (Starts(start, e) && ErrorOf(db, start).None?)
  {
    hide Integrity, CellOf, HasRow, Record, ErrorOf, RecordCell, Accepts, CellHasRow, Starts, Nested;
    var k, own := Key(e.runId, e.job, e.step), Key(start.runId, start.job, start.step);
    RecordRefinesCell(db, start, k);
    RecordRefinesCell(db, start, own);
    RowIsInCell(db, e);
    RowIsInCell(Record(db, start), e);
    CellsShareRows(db, own, k);
    CellIsNested(db, k);
    StartMakesCell(CellOf(db, own), CellOf(db, k), start, e);
  }

  /** Rows come from accepted started events and from nowhere else, whatever the log. */
  lemma {:induction false} RowsComeFromStarts(db: Db, log: seq<Event>, e: Event)
    requires Integrity(db) && IsFinish(e)
    ensures HasRow(RecordAll(db, log), e) <==> HasRow(db, e) || exists n :: 0 <= n < |log| && StartAccepted(db, log, e, n)
  {
    hide HasRow, Starts, Integrity;
    if log != [] {
      var k := |log| - 1;
      var init := log[..k];
      RowsComeFromStarts(db, init, e);
      IntegrityAlways(db, init);
      StartMakesRow(RecordAll(db, init), log[k], e);
      assert forall n :: 0 <= n < k ==> init[..n] == log[..n] && init[n] == log[n];
      assert StartAccepted(db, log, e, k) <==> Starts(log[k], e) && ErrorOf(RecordAll(db, init), log[k]).None?;
      assert forall n :: 0 <= n < k ==> (StartAccepted(db, init, e, n) <==> StartAccepted(db, log, e, n));
    }
  }

  /** In any log, ordered or not, an accepted finish is lost if and only if its row was not in
      the database and no started event accepted before it had introduced it. */
  lemma FinishIsLostExactly(db: Db, log: seq<Event>, i: nat)
    requires Integrity(db) && i < |log| && IsFinish(log[i]) && ErrorOf(RecordAll(db, log[..i]), log[i]).None?
    ensures !HoldsColumns(RecordAll(db, log[..i + 1]), log[i]) <==>
      !HasRow(db, log[i]) && forall n :: 0 <= n < i ==> !StartAccepted(db, log, log[i], n)
  {
    hide HasRow, HoldsColumns, Integrity, Starts;
    var before := log[..i];
    assert log[..i + 1] == before + [log[i]] && log[..i + 1][..i] == before;
    IntegrityAlways(db, before);
    FinishNeedsItsRow(RecordAll(db, before), log[i]);
    RowsComeFromStarts(db, before, log[i]);
    assert forall n :: 0 <= n < i ==> before[..n] == log[..n] && before[n] == log[n];
    assert forall n :: 0 <= n < i ==> (StartAccepted(db, before, log[i], n) <==> StartAccepted(db, log, log[i], n));
  }

  /** Order matters: a run that finishes before it starts is accepted, recorded nowhere, and
      stays pending; replaying the log then finishes it after all. */
  lemma FinishBeforeStartIsLost(db: Db, finish: Event, start: Event)
    requires Integrity(db) && FindRun(db, start.runId).None?
    requires start.kind.PipelineStarted? && finish.kind.PipelineFinished? && finish.runId == start.runId != ""
    ensures ErrorOf(db, finish).None? && Record(db, finish) == db
    ensures ErrorOf(Record(db, finish), start).None?
    ensures var once := RecordAll(db, [finish, start]);
      && FindRun(once, start.runId).Some? && FindRun(once, start.runId).value.finishedAt == None
      && FindRun(once, start.runId).value.status == "pending"
    ensures RecordAll(RecordAll(db, [finish, start]), [finish, start]) != RecordAll(db, [finish, start])
  {
    var log, k := [finish, start], Key(start.runId, "", "");
    assert log[..1] == [finish] && [finish][..0] == [];
    var c := CellOf(db, k);
    SettledEvent(db, finish);
    assert RecordCellAll(c, [], k) == c;
    assert RecordCellAll(c, [finish], k) == RecordCell(c, finish, k);
    RecordAllRefinesCell(db, log, k);
    var once := RecordAll(db, log);
    IntegrityAlways(db, log);
    RecordAllRefinesCell(once, log, k);
    assert RecordCellAll(CellOf(once, k), [], k) == CellOf(once, k);
    assert RecordCellAll(CellOf(once, k), [finish], k) == RecordCell(CellOf(once, k), finish, k);
    assert CellOf(RecordAll(once, log), k).run.value.finishedAt == Some(finish.occurredAt);
  }
}
