/**
 From the runs to the database, through the bus: a consumer whose handler is the recorder and
 that meets no fault hands it the stream in order, never sees an error, and leaves the rows
 of what ran.
 */
module EndToEnd {
  import opened Events
  import opened RedisGroup
  import opened Delivery
  import opened Tables
  import opened Cells
  import opened Traces
  import opened Recording

  // ---------- The stream as the group sees it ----------

  function Published(g: Group): seq<Message> {
    Listing(g.issued, g.last + 1)
  }

  predicate AllWellformed(ms: seq<Message>) {
    forall i :: 0 <= i < |ms| ==> ms[i].envelope.Wellformed?
  }

  function EventsOf(ms: seq<Message>): seq<Event>
    requires AllWellformed(ms)
  {
    seq(|ms|, i requires 0 <= i < |ms| => ms[i].envelope.event)
  }

  lemma {:induction false} ListingSplit(m: map<nat, Envelope>, rest: map<nat, Envelope>, lo: nat, hi: nat)
    requires lo <= hi && forall id: nat :: id < hi ==> (id in rest <==> id in m && id >= lo)
    requires forall id: nat :: id < hi && id in rest ==> rest[id] == m[id]
    ensures Listing(m, hi) == Listing(m, lo) + Listing(rest, hi)
  {
    if hi > lo {
      ListingSplit(m, rest, lo, hi - 1);
    } else {
      ListingOfNone(rest, hi);
    }
  }

  lemma {:induction false} ListingAgrees(m: map<nat, Envelope>, n: map<nat, Envelope>, hi: nat)
    requires forall id: nat :: id < hi ==> (id in m <==> id in n) && (id in m ==> m[id] == n[id])
    ensures Listing(m, hi) == Listing(n, hi)
  {
    if hi > 0 {
      ListingAgrees(m, n, hi - 1);
    }
  }

  // ---------- A faultless run ----------

  /** The events of the handler calls so far. */
  function Handled(issued: map<nat, Envelope>, log: seq<nat>): seq<Event> {
    if log == [] then []
    else
      var id := log[|log| - 1];
      Handled(issued, log[..|log| - 1]) + (if id in issued && issued[id].Wellformed? then [issued[id].event] else [])
  }

  /** Consumer 0 is alone, no Redis command fails and nothing is trimmed. Its handler is the
      recorder: it returns nil exactly if recording the event on top of the earlier ones
      succeeds. */
  predicate Served(s: System, a: Action, db: Db) {
    match a
    case Act(c, outcome, _) =>
      && c == 0
      && outcome.Ok? ==
        if s.At(0).Busy? && s.At(0).task.CallHandler? then
          ErrorOf(RecordAll(db, Handled(s.group.issued, s.log)), s.At(0).task.event).None?
        else true
    case Produce(_, _) => true
    case Tick(_) => true
    case _ => false
  }

  ghost predicate AllServed(o: Options, s: System, acts: seq<Action>, db: Db) {
    if acts == [] then true
    else
      AllServed(o, s, acts[..|acts| - 1], db) && Served(After(o, s, acts[..|acts| - 1]), acts[|acts| - 1], db)
  }

  /** The entries the group has read, in stream order. */
  function Seen(g: Group): seq<Message> {
    Listing(g.issued, g.cursor + 1)
  }

  /** The handler has been given the first entries of the stream, in order, each once; the rest
      of what was read is the consumer's batch; nothing else is pending. */
  ghost predicate InOrder(s: System) {
    var seen, n, local := Seen(s.group), |s.log|, s.At(0);
    && Sound(s.group) && s.group.entries == s.group.issued
    && n <= |seen| && (forall i :: 0 <= i < n ==> s.log[i] == seen[i].id)
    && (forall id :: id in s.group.pending ==>
          (local.Busy? && local.task == Acknowledge(id)) || exists i :: n <= i < |seen| && seen[i].id == id)
    && match local
       case Claiming(start) => start == 0 && n == |seen|
       case Reading => n == |seen|
       case Busy(CallHandler(id, event), InBatch(rest)) =>
         && n < |seen| && seen[n].id == id && seen[n].envelope.Wellformed? && seen[n].envelope.event == event
         && rest == seen[n + 1..]
       case Busy(Acknowledge(_), InBatch(rest)) => rest == seen[n..]
       case _ => false
  }

  lemma ClaimOfNothing(o: Options, g: Group, bound: nat)
    requires g.pending == map[] && CanClaim(o, g, 0, bound)
    ensures Claim(o, g, 0, bound) == (g, [], 0)
  {
    hide Listing;
    var taken := Claimable(o, g, 0, bound);
    assert taken == map[];
    ListingOfNone(taken, bound);
    assert g.deliveries + multiset(taken.Keys) == g.deliveries;
    var (h, page, next) := Claim(o, g, 0, bound);
    assert h.pending == map[] && page == [];
    assert h == g;
  }

  lemma ClaimInOrder(o: Options, s: System, bound: nat)
    requires InOrder(s) && s.At(0).Claiming?
    ensures InOrder(Advance(o, s, 0, Ok, bound))
  {
    hide Listing, Claim, CanClaim, Sound, Seen;
    if CanClaim(o, s.group, 0, bound) {
      assert s.group.pending == map[];
      ClaimOfNothing(o, s.group, bound);
    }
  }

  lemma SeenGrows(g: Group, bound: nat)
    requires Sound(g) && g.entries == g.issued && CanRead(g, bound)
    ensures Seen(Read(g, bound).0) == Seen(g) + Read(g, bound).1
  {
    hide Listing;
    ListingSplit(g.issued, Unread(g, bound), g.cursor + 1, bound + 1);
  }

  /** What a read adds when nothing is pending. */
  lemma ReadOfBatch(g: Group, bound: nat)
    requires CanRead(g, bound) && g.pending == map[]
    ensures var (h, batch) := Read(g, bound);
      && h.entries == g.entries && h.issued == g.issued
      && forall id :: id in h.pending ==> exists j :: 0 <= j < |batch| && batch[j].id == id
  {
    hide Listing;
    var (h, batch) := Read(g, bound);
    ListingIsExact(Unread(g, bound), bound + 1);
    forall id | id in h.pending
      ensures exists j :: 0 <= j < |batch| && batch[j].id == id
    {
      assert Message(id, Unread(g, bound)[id]) in batch;
    }
  }

  lemma ReadInOrder(o: Options, s: System, bound: nat)
    requires InOrder(s) && s.At(0) == Reading
    requires AllWellformed(Seen(Advance(o, s, 0, Ok, bound).group))
    ensures InOrder(Advance(o, s, 0, Ok, bound))
  {
    hide Listing, Read, CanRead, Sound, Seen;
    if CanRead(s.group, bound) {
      assert s.group.pending == map[];
      ReadOfBatch(s.group, bound);
      ReadIsSound(s.group, bound);
      SeenGrows(s.group, bound);
      var (g, batch) := Read(s.group, bound);
      var seen, n := Seen(g), |s.log|;
      assert seen[n..] == batch && (batch != [] ==> seen[n] == batch[0] && seen[n + 1..] == batch[1..]);
      assert forall j :: 0 <= j < |batch| ==> seen[n + j] == batch[j];
    }
  }

  lemma PerformInOrder(o: Options, s: System)
    requires InOrder(s) && s.At(0).Busy? && AllWellformed(Seen(s.group))
    ensures InOrder(Perform(o, s, 0, s.At(0).task, s.At(0).cont, Ok))
  {
    hide Listing;
  }

  lemma SeenStays(g: Group, h: Group)
    requires Sound(g) && h.cursor == g.cursor
    requires forall id: nat :: id <= g.last ==> (id in h.issued <==> id in g.issued) && (id in g.issued ==> h.issued[id] == g.issued[id])
    ensures Seen(h) == Seen(g)
  {
    hide Listing;
    ListingAgrees(g.issued, h.issued, g.cursor + 1);
  }

  lemma EnvironmentInOrder(o: Options, s: System, a: Action)
    requires InOrder(s) && (a.Produce? || a.Tick?)
    ensures InOrder(Next(o, s, a))
  {
    hide Seen;
    var t := Next(o, s, a);
    assert Seen(t.group) == Seen(s.group) by {
      SeenStays(s.group, t.group);
    }
  }

  // ---------- Every run of this kind ----------

  lemma SeenIsPublished(g: Group)
    requires Sound(g)
    ensures Seen(g) <= Published(g)
  {
    hide Listing;
    var rest := map id | id in g.issued && id > g.cursor :: g.issued[id];
    ListingSplit(g.issued, rest, g.cursor + 1, g.last + 1);
  }

  lemma PublishedGrows(o: Options, s: System, a: Action)
    requires Sound(s.group)
    ensures Published(s.group) <= Published(Next(o, s, a).group)
  {
    hide Listing, Perform, Claim, Read, CanClaim, CanRead;
    var g, h := s.group, Next(o, s, a).group;
    IssuedGrows(o, s, a);
    ListingAgrees(g.issued, h.issued, g.last + 1);
    var rest := map id | id in h.issued && id > g.last :: h.issued[id];
    ListingSplit(h.issued, rest, g.last + 1, h.last + 1);
  }

  lemma IssuedGrows(o: Options, s: System, a: Action)
    ensures var g, h := s.group, Next(o, s, a).group;
      && g.last <= h.last
      && forall id: nat :: id <= g.last ==> (id in h.issued <==> id in g.issued) && (id in g.issued ==> h.issued[id] == g.issued[id])
  {
    hide Listing, Resume;
  }

  lemma {:induction false} HandledOf(issued: map<nat, Envelope>, log: seq<nat>, ms: seq<Message>)
    requires |log| <= |ms| && AllWellformed(ms)
    requires forall i :: 0 <= i < |log| ==> log[i] == ms[i].id && ms[i].id in issued && issued[ms[i].id] == ms[i].envelope
    ensures Handled(issued, log) == EventsOf(ms)[..|log|]
  {
    if log != [] {
      HandledOf(issued, log[..|log| - 1], ms);
    }
  }

  lemma HandledIsPrefix(s: System)
    requires InOrder(s) && AllWellformed(Seen(s.group))
    ensures Handled(s.group.issued, s.log) == EventsOf(Seen(s.group))[..|s.log|]
  {
    hide Listing;
    ListingIsExact(s.group.issued, s.group.cursor + 1);
    assert forall i :: 0 <= i < |s.log| ==> Seen(s.group)[i] in Seen(s.group);
    HandledOf(s.group.issued, s.log, Seen(s.group));
  }

  /** Fed to the recorder in order, no event of the stream is refused. */
  ghost predicate Acceptable(db: Db, stream: seq<Event>) {
    forall n :: 0 <= n < |stream| ==> ErrorOf(RecordAll(db, stream[..n]), stream[n]).None?
  }

  /** The group holds the beginning of this stream. */
  ghost predicate Carries(g: Group, stream: seq<Event>) {
    AllWellformed(Published(g)) && EventsOf(Published(g)) <= stream
  }

  lemma CarriesLess(g: Group, h: Group, stream: seq<Event>)
    requires Carries(h, stream) && Published(g) <= Published(h)
    ensures Carries(g, stream)
  {
    hide Published;
    assert forall i :: 0 <= i < |Published(g)| ==> Published(g)[i] == Published(h)[i];
  }

  /** The recorder never refuses the event it is handed. */
  lemma HandlerSucceeds(s: System, db: Db, stream: seq<Event>)
    requires InOrder(s) && Carries(s.group, stream) && Acceptable(db, stream)
    requires s.At(0).Busy? && s.At(0).task.CallHandler?
    ensures ErrorOf(RecordAll(db, Handled(s.group.issued, s.log)), s.At(0).task.event).None?
  {
    hide Listing, Published, RecordAll, ErrorOf;
    var n, seen := |s.log|, Seen(s.group);
    SeenIsPublished(s.group);
    assert forall i :: 0 <= i < |seen| ==> seen[i] == Published(s.group)[i];
    HandledIsPrefix(s);
    assert EventsOf(seen)[..n] == stream[..n] && EventsOf(seen)[n] == stream[n];
  }

  lemma {:induction false} ServedInOrder(o: Options, s: System, acts: seq<Action>, db: Db, stream: seq<Event>)
    requires Initial(s) && s.group.entries == s.group.issued && AllServed(o, s, acts, db)
    requires Acceptable(db, stream) && Carries(After(o, s, acts).group, stream)
    ensures var t := After(o, s, acts);
      && InOrder(t)
      && (t.At(0).Busy? && t.At(0).task.CallHandler? ==>
            ErrorOf(RecordAll(db, Handled(t.group.issued, t.log)), t.At(0).task.event).None?)
  {
    hide InOrder, Initial, Acceptable, Carries, Advance, Perform, ErrorOf, RecordAll, Handled, Sound;
    if acts == [] {
      BeginsInOrder(s);
    } else {
      var before, last := After(o, s, acts[..|acts| - 1]), acts[|acts| - 1];
      var t := Next(o, before, last);
      Reachable(o, s, acts[..|acts| - 1]);
      PublishedGrows(o, before, last);
      CarriesLess(before.group, t.group, stream);
      ServedInOrder(o, s, acts[..|acts| - 1], db, stream);
      if last.Act? {
        if before.At(0).Busy? && before.At(0).task.CallHandler? {
          HandlerSucceeds(before, db, stream);
        }
        NextKeeps(o, before, last);
        ActInOrder(o, before, last.bound, stream);
      } else {
        EnvironmentInOrder(o, before, last);
      }
    }
    var t := After(o, s, acts);
    if t.At(0).Busy? && t.At(0).task.CallHandler? {
      HandlerSucceeds(t, db, stream);
    }
  }

  lemma ActInOrder(o: Options, s: System, bound: nat, stream: seq<Event>)
    requires InOrder(s) && Carries(s.group, stream) && Sound(s.group)
    requires var t := Advance(o, s, 0, Ok, bound); Sound(t.group) && Carries(t.group, stream)
    ensures InOrder(Advance(o, s, 0, Ok, bound))
  {
    hide Listing, Sound, Seen, Published, EventsOf, Perform, Claim, Read, CanClaim, CanRead, InOrder;
    var t := Advance(o, s, 0, Ok, bound);
    SeenIsPublished(s.group);
    SeenIsPublished(t.group);
    PrefixIsWellformed(Seen(s.group), Published(s.group));
    PrefixIsWellformed(Seen(t.group), Published(t.group));
    match s.At(0) {
      case Claiming(_) => ClaimInOrder(o, s, bound);
      case Reading => ReadInOrder(o, s, bound);
      case Busy(_, _) => PerformInOrder(o, s);
    }
  }

  lemma PrefixIsWellformed(ms: seq<Message>, all: seq<Message>)
    requires ms <= all && AllWellformed(all)
    ensures AllWellformed(ms)
  {
    assert forall i :: 0 <= i < |ms| ==> ms[i] == all[i];
  }

  lemma BeginsInOrder(s: System)
    requires Initial(s) && s.group.entries == s.group.issued
    ensures InOrder(s)
  {
    hide Listing;
    ListingOfNone(s.group.issued, 1);
  }

  /** At any moment the database is what recording the entries read so far in stream order would
      leave, up to the batch in hand; and when the consumer has caught up with the runs whose
      events make up the stream, every row agrees with what ran. */
  lemma RunsAreRecorded(
      o: Options, s: System, acts: seq<Action>, db: Db, stream: seq<Event>, traces: seq<seq<Event>>, runs: seq<RunSpec>)
    requires Initial(s) && s.group.entries == s.group.issued && AllServed(o, s, acts, db)
    requires Integrity(db) && StreamOf(stream, traces, runs) && DistinctRuns(runs)
    requires forall i :: 0 <= i < |runs| ==> UniqueJobNames(runs[i].pipeline) && FindRun(db, runs[i].runId).None?
    requires Carries(After(o, s, acts).group, stream)
    ensures var t := After(o, s, acts);
      var handled := Handled(t.group.issued, t.log);
      && handled <= stream
      && (!t.At(0).Busy? && t.group.cursor == t.group.last && |Published(t.group)| == |stream| ==>
            && handled == stream
            && forall i: int, k: Key :: 0 <= i < |runs| && k.run == runs[i].runId ==>
                 Agrees(CellOf(RecordAll(db, handled), k), k, runs[i].pipeline, runs[i].world))
  {
    hide Initial, AllServed, Integrity, StreamOf, DistinctRuns, UniqueJobNames, After, Agrees, CellOf, RecordAll,
      ErrorOf, Listing, Handled, Sound;
    StreamIsAccepted(db, stream, traces, runs);
    StreamRecorded(db, stream, traces, runs);
    ServedInOrder(o, s, acts, db, stream);
    var t := After(o, s, acts);
    SeenIsPublished(t.group);
    PrefixIsWellformed(Seen(t.group), Published(t.group));
    HandledIsPrefix(t);
    assert forall i :: 0 <= i < |Seen(t.group)| ==> Seen(t.group)[i] == Published(t.group)[i];
    var handled := Handled(t.group.issued, t.log);
    assert handled == EventsOf(Published(t.group))[..|t.log|];
    if !t.At(0).Busy? && t.group.cursor == t.group.last && |Published(t.group)| == |stream| {
      assert handled == stream;
    }
  }
}
