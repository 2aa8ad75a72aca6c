/**
 How often the handler of a lone consumer sees an entry: at most MaxAttempts times, whatever
 fails.
 */
module Attempts {
  import opened RedisGroup
  import opened Delivery

  /** Only consumer 0 acts. */
  ghost predicate Alone(acts: seq<Action>) {
    forall a :: a in acts ==> (a.Act? || a.Crash?) ==> a.consumer == 0
  }

  function TaskId(task: Task): nat {
    match task
    case CheckPending(msg) => msg.id
    case CallHandler(id, _) => id
    case FetchDead(id) => id
    case WriteDead(id, _) => id
    case Acknowledge(id) => id
  }

  predicate InRest(k: Cont, id: nat) {
    exists i :: 0 <= i < |k.rest| && k.rest[i].id == id
  }

  /** From here the consumer may still call the handler with this entry. */
  predicate MayCall(local: Local, id: nat) {
    local.Busy? &&
      (((local.task.CheckPending? || local.task.CallHandler?) && TaskId(local.task) == id) || InRest(local.cont, id))
  }

  /** It will do so without looking at the delivery count again. */
  predicate Committed(local: Local, id: nat) {
    local.Busy? && ((local.task.CallHandler? && TaskId(local.task) == id) || (local.cont.InBatch? && InRest(local.cont, id)))
  }

  /** A consumer works through its entries in id order. */
  predicate Orderly(local: Local) {
    local.Busy? ==> Ascending([Message(TaskId(local.task), Missing)] + local.cont.rest)
  }

  ghost predicate Bounded(o: Options, s: System) {
    var local, pending, calls := s.At(0), s.group.pending, multiset(s.log);
    && Orderly(local)
    && (forall id :: calls[id] <= o.maxAttempts)
    && (forall id :: id in pending ==> calls[id] + (if MayCall(local, id) then 1 else 0) <= pending[id].count)
    && (forall id :: MayCall(local, id) ==> id in pending)
    && (forall id :: Committed(local, id) ==> pending[id].count <= o.maxAttempts)
  }

  lemma IdleIsOrderly(local: Local)
    requires !local.Busy?
    ensures Orderly(local)
  {
  }

  lemma AfterTask(task: Task, k: Cont)
    requires Orderly(Busy(task, k))
    ensures Orderly(Resume(k)) && !InRest(k, TaskId(task))
    ensures forall id :: MayCall(Resume(k), id) ==> InRest(k, id)
    ensures forall id :: Committed(Resume(k), id) ==> InRest(k, id) && k.InBatch?
  {
    var ms := [Message(TaskId(task), Missing)] + k.rest;
    assert forall i :: 0 <= i < |k.rest| ==> ms[i + 1] == k.rest[i] && ms[0].id < ms[i + 1].id;
    RestIsOrderly(k);
  }

  lemma RestIsOrderly(k: Cont)
    requires Ascending(k.rest)
    ensures Orderly(Resume(k))
    ensures forall id :: MayCall(Resume(k), id) ==> InRest(k, id)
    ensures forall id :: Committed(Resume(k), id) ==> InRest(k, id) && k.InBatch?
  {
    if k.rest != [] {
      assert forall i :: 0 <= i < |k.rest| - 1 ==> k.rest[1..][i] == k.rest[i + 1];
    }
  }

  lemma SameEntryIsOrderly(a: Task, b: Task, k: Cont)
    requires Orderly(Busy(a, k)) && TaskId(a) == TaskId(b)
    ensures Orderly(Busy(b, k))
  {
  }

  lemma TaskStaysOrderly(o: Options, s: System, task: Task, k: Cont, outcome: Outcome)
    requires Orderly(Busy(task, k))
    ensures Orderly(Perform(o, s, 0, task, k, outcome).At(0))
  {
    hide Resume, Orderly;
    AfterTask(task, k);
    var local := Perform(o, s, 0, task, k, outcome).At(0);
    if local != Resume(k) {
      SameEntryIsOrderly(task, local.task, k);
    }
  }

  lemma CallIsBounded(o: Options, s: System, task: Task, k: Cont, outcome: Outcome)
    requires Bounded(o, s) && s.At(0) == Busy(task, k) && task.CallHandler?
    ensures Bounded(o, Perform(o, s, 0, task, k, outcome))
  {
    hide Resume, Orderly, InRest;
    AfterTask(task, k);
    TaskStaysOrderly(o, s, task, k, outcome);
  }

  lemma CheckIsBounded(o: Options, s: System, task: Task, k: Cont, outcome: Outcome)
    requires Bounded(o, s) && s.At(0) == Busy(task, k) && task.CheckPending?
    ensures Bounded(o, Perform(o, s, 0, task, k, outcome))
  {
    hide Resume, Orderly, InRest;
    AfterTask(task, k);
    TaskStaysOrderly(o, s, task, k, outcome);
  }

  lemma PerformIsBounded(o: Options, s: System, task: Task, k: Cont, outcome: Outcome)
    requires Bounded(o, s) && s.At(0) == Busy(task, k)
    ensures Bounded(o, Perform(o, s, 0, task, k, outcome))
  {
    if task.CallHandler? {
      CallIsBounded(o, s, task, k, outcome);
    } else if task.CheckPending? {
      CheckIsBounded(o, s, task, k, outcome);
    } else {
      hide Resume, Orderly, InRest;
      AfterTask(task, k);
      TaskStaysOrderly(o, s, task, k, outcome);
    }
  }

  lemma ClaimIsBounded(o: Options, s: System, start: nat, bound: nat, outcome: Outcome)
    requires Bounded(o, s) && s.At(0) == Claiming(start)
    ensures Bounded(o, Advance(o, s, 0, outcome, bound))
  {
    hide Listing, Resume, Orderly;
    if outcome != Refused && CanClaim(o, s.group, start, bound) {
      var (g, page, next) := Claim(o, s.group, start, bound);
      ListingIsExact(Claimable(o, s.group, start, bound), bound);
      RestIsOrderly(InPage(page, next));
      assert forall i :: 0 <= i < |page| ==> page[i] in page;
    }
    IdleIsOrderly(Reading);
  }

  /** What a read does to the pending list. */
  lemma ReadAdds(g: Group, bound: nat)
    requires Sound(g) && CanRead(g, bound)
    ensures var (h, batch) := Read(g, bound);
      && Ascending(batch)
      && (forall i :: 0 <= i < |batch| ==> batch[i].id > g.cursor && batch[i].id in h.pending)
      && (forall id :: id in h.pending ==> if id > g.cursor then h.pending[id].count == 1 else id in g.pending)
      && (forall id :: id in g.pending ==> id <= g.cursor && id in h.pending && h.pending[id] == g.pending[id])
  {
    hide Listing;
    var (h, batch) := Read(g, bound);
    ListingIsExact(Unread(g, bound), bound + 1);
    assert forall i :: 0 <= i < |batch| ==> batch[i] in batch;
  }

  lemma ReadIsBounded(o: Options, s: System, bound: nat, outcome: Outcome)
    requires Invariant(o, s) && Bounded(o, s) && s.At(0) == Reading && o.maxAttempts >= 1
    ensures Bounded(o, Advance(o, s, 0, outcome, bound))
  {
    hide Read, CanRead, Resume, Orderly, NothingLost, DeadOk, LocalsOk;
    if outcome != Refused && CanRead(s.group, bound) {
      var (g, batch) := Read(s.group, bound);
      ReadAdds(s.group, bound);
      RestIsOrderly(InBatch(batch));
      forall id: nat | id > s.group.cursor
        ensures multiset(s.log)[id] == 0
      {
        assert id !in s.log;
      }
    }
    IdleIsOrderly(Claiming(0));
  }

  lemma EnvironmentIsBounded(o: Options, s: System, a: Action)
    requires Bounded(o, s) && (a.Produce? || a.Trim? || a.Tick? || a == Crash(0))
    ensures Bounded(o, Next(o, s, a))
  {
  }

  lemma {:induction false} AloneKeepsBounded(o: Options, s: System, acts: seq<Action>)
    requires Invariant(o, s) && Bounded(o, s) && Alone(acts) && o.maxAttempts >= 1
    ensures Invariant(o, After(o, s, acts)) && Bounded(o, After(o, s, acts))
  {
    hide Advance, Bounded, Invariant;
    if acts != [] {
      var before, last := After(o, s, acts[..|acts| - 1]), acts[|acts| - 1];
      AloneKeepsBounded(o, s, acts[..|acts| - 1]);
      NextKeeps(o, before, last);
      assert last in acts;
      match last {
        case Act(_, outcome, bound) => AdvanceIsBounded(o, before, outcome, bound);
        case _ => EnvironmentIsBounded(o, before, last);
      }
    }
  }

  /** With one consumer the handler is called at most MaxAttempts times for any entry, over any
      run with any crashes and failures; and whenever it is about to be called, the entry is
      pending with a delivery count of at most MaxAttempts. */
  lemma AttemptBound(o: Options, s: System, acts: seq<Action>, id: nat)
    requires Initial(s) && Alone(acts) && o.maxAttempts >= 1
    ensures var t := After(o, s, acts);
      && multiset(t.log)[id] <= o.maxAttempts
      && (t.At(0).Busy? && t.At(0).task.CallHandler? && t.At(0).task.id == id ==>
            id in t.group.pending && t.group.pending[id].count <= o.maxAttempts)
  {
    hide After, Invariant;
    InitialIsOk(o, s);
    InitialIsBounded(o, s);
    AloneKeepsBounded(o, s, acts);
    var t := After(o, s, acts);
    if t.At(0).Busy? && t.At(0).task.CallHandler? && t.At(0).task.id == id {
      assert Committed(t.At(0), id) && MayCall(t.At(0), id);
    }
  }

  lemma AdvanceIsBounded(o: Options, s: System, outcome: Outcome, bound: nat)
    requires Invariant(o, s) && Bounded(o, s) && o.maxAttempts >= 1
    ensures Bounded(o, Advance(o, s, 0, outcome, bound))
  {
    hide Bounded, Invariant, Perform, CanClaim, CanRead;
    match s.At(0) {
      case Claiming(start) => ClaimIsBounded(o, s, start, bound, outcome);
      case Reading => ReadIsBounded(o, s, bound, outcome);
      case Busy(task, k) => PerformIsBounded(o, s, task, k, outcome);
    }
  }

  lemma InitialIsBounded(o: Options, s: System)
    requires Initial(s) && o.maxAttempts >= 1
    ensures Bounded(o, s)
  {
  }
}
