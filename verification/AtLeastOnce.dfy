/**
 At-least-once delivery to the recorder. Every command of a lone consumer may fail, before or
 after it took effect, except that no read is lost: LostFinish shows what a lost read or a
 crash does. Entries are then handled several times, and it does not show in the tables.
 */
module AtLeastOnce {
  import opened Events
  import opened RedisGroup
  import opened Delivery
  import opened Recovery
  import opened Tables
  import opened Cells
  import opened Replay
  import opened Traces
  import opened Recording
  import opened Redelivery
  import opened EndToEnd

  // ---------- First calls and repeated ones ----------

  /** The entries of the log, each where it first occurs. */
  function Firsts(log: seq<nat>): (firsts: seq<nat>)
    ensures forall id :: id in firsts <==> id in log
  {
    if log == [] then []
    else
      var firsts, id := Firsts(log[..|log| - 1]), log[|log| - 1];
      if id in firsts then firsts else firsts + [id]
  }

  lemma FirstsSnoc(log: seq<nat>, id: nat)
    ensures Firsts(log + [id]) == if id in log then Firsts(log) else Firsts(log) + [id]
  {
    assert (log + [id])[..|log|] == log;
  }

  lemma HandledSnoc(issued: map<nat, Envelope>, log: seq<nat>, id: nat)
    requires id in issued && issued[id].Wellformed?
    ensures Handled(issued, log + [id]) == Handled(issued, log) + [issued[id].event]
  {
    assert (log + [id])[..|log|] == log;
  }

  /** The log's first calls are those of the first messages, in order. */
  ghost predicate FirstsFollow(issued: map<nat, Envelope>, log: seq<nat>, ms: seq<Message>) {
    && AllWellformed(ms) && |Firsts(log)| <= |ms|
    && (forall i :: 0 <= i < |ms| ==> ms[i].id in issued && issued[ms[i].id] == ms[i].envelope)
    && (forall i :: 0 <= i < |Firsts(log)| ==> Firsts(log)[i] == ms[i].id)
  }

  // ---------- A log with repeats, recorded ----------

  /** Recorded in log order, the events known are those of the first calls. */
  ghost predicate KnowsFirsts(stream: seq<Event>, events: seq<Event>, n: nat)
    requires n <= |stream|
  {
    Ordered({}, events) && AllRecordable(events) && Known({}, events) == Known({}, stream[..n])
  }

  /** One grounded event more. */
  lemma OneMore(events: seq<Event>, e: Event)
    requires Ordered({}, events) && AllRecordable(events) && Grounded(Known({}, events), e) && Recordable(e)
    ensures Ordered({}, events + [e]) && AllRecordable(events + [e])
    ensures Known({}, events + [e]) == Known({}, events) + Introduced(e)
  {
    hide Ordered, Known, Grounded, Introduced, Recordable;
    OneIsOrdered(Known({}, events), e);
    OrderedAppend({}, events, [e]);
  }

  lemma KnowsOneMore(stream: seq<Event>, events: seq<Event>, n: nat)
    requires Ordered({}, stream) && AllRecordable(stream) && n < |stream| && KnowsFirsts(stream, events, n)
    ensures KnowsFirsts(stream, events + [stream[n]], n + 1)
  {
    hide Ordered, Known, Grounded, Introduced, Recordable;
    OrderedPrefix(stream, n);
    OneMore(events, stream[n]);
    OneMore(stream[..n], stream[n]);
    assert stream[..n + 1] == stream[..n] + [stream[n]];
  }

  /** Repeating an event that was recorded before is grounded and makes nothing known. */
  lemma KnowsNoMore(stream: seq<Event>, events: seq<Event>, n: nat, m: nat)
    requires Ordered({}, stream) && AllRecordable(stream) && m < n <= |stream| && KnowsFirsts(stream, events, n)
    ensures KnowsFirsts(stream, events + [stream[m]], n)
  {
    hide Ordered, Known, Recordable, Introduced;
    var e := stream[m];
    OrderedPrefix(stream, m);
    assert stream[..n] == stream[..m] + stream[m..n];
    OrderedAppend({}, stream[..m], stream[m..n]);
    KnownGrows(Known({}, stream[..m]), stream[m..n]);
    assert stream[..n][m] == e;
    StartedIsKnown({}, stream[..n], m);
    OneMore(events, e);
  }

  /** In an ordered stream each event is grounded in those before it. */
  lemma {:induction false} OrderedPrefix(stream: seq<Event>, n: nat)
    requires Ordered({}, stream) && n < |stream|
    ensures Ordered({}, stream[..n]) && Grounded(Known({}, stream[..n]), stream[n])
  {
    if n < |stream| - 1 {
      var init := stream[..|stream| - 1];
      OrderedPrefix(init, n);
      assert init[..n] == stream[..n];
    }
  }

  lemma SubsetAgrees(all: seq<Event>, some: seq<Event>)
    requires FinishesAgree(all) && forall e :: e in some ==> e in all
    ensures FinishesAgree(some)
  {
  }

  lemma RepeatChangesNothing(db: Db, events: seq<Event>, m: nat)
    requires Integrity(db) && Ordered({}, events) && FinishesAgree(events) && m < |events|
    ensures Record(RecordAll(db, events), events[m]) == RecordAll(db, events)
  {
    hide Integrity, Ordered, WriteSameRow, WriteSameColumns, RecordAll, Record;
    RedeliveryExactly({}, db, events, m);
    assert forall j :: 0 <= j < |events| ==> events[j] in events;
  }

  /** The events of a log whose first calls follow the stream: ordered whatever is repeated, and
      recording them leaves what the first calls alone would leave, if the finished events of
      one row agree. */
  lemma {:induction false} RepeatsDoNotShow(
      db: Db, issued: map<nat, Envelope>, log: seq<nat>, ms: seq<Message>, stream: seq<Event>)
    requires Integrity(db) && Ordered({}, stream) && AllRecordable(stream)
    requires FirstsFollow(issued, log, ms) && EventsOf(ms) <= stream
    ensures var n := |Firsts(log)|;
      && KnowsFirsts(stream, Handled(issued, log), n)
      && (FinishesAgree(stream) ==> RecordAll(db, Handled(issued, log)) == RecordAll(db, stream[..n]))
  {
    hide Integrity, Ordered, AllRecordable, Known, FinishesAgree, Record;
    if log == [] {
      NothingIsKnown(stream);
    } else {
      var init, id := log[..|log| - 1], log[|log| - 1];
      assert log == init + [id];
      FirstsSnoc(init, id);
      RepeatsDoNotShow(db, issued, init, ms, stream);
      var k := |Firsts(init)|;
      var m := if id in init then IndexOf(Firsts(init), id) else k;
      assert ms[m].id == id;
      HandledSnoc(issued, init, id);
      var before := Handled(issued, init);
      var e := issued[id].event;
      assert stream[m] == EventsOf(ms)[m] == e;
      assert (before + [e])[..|before|] == before;
      if id in init {
        KnowsNoMore(stream, before, k, m);
        if FinishesAgree(stream) {
          assert stream[..k][m] == e;
          SubsetAgrees(stream, stream[..k]);
          PrefixIsOrdered(stream, k);
          RepeatChangesNothing(db, stream[..k], m);
        }
      } else {
        KnowsOneMore(stream, before, k);
        assert stream[..k + 1][..k] == stream[..k];
      }
    }
  }

  lemma PrefixIsOrdered(stream: seq<Event>, n: nat)
    requires Ordered({}, stream) && n <= |stream|
    ensures Ordered({}, stream[..n])
  {
    if n < |stream| {
      OrderedPrefix(stream, n);
    } else {
      assert stream[..n] == stream;
    }
  }

  lemma NothingIsKnown(stream: seq<Event>)
    ensures KnowsFirsts(stream, [], 0)
  {
    assert stream[..0] == [];
  }

  function IndexOf(xs: seq<nat>, x: nat): (i: nat)
    requires x in xs
    ensures i < |xs| && xs[i] == x
  {
    if xs[0] == x then 0 else IndexOf(xs[1..], x) + 1
  }

  /** So the recorder accepts the next call, first or repeated. */
  lemma NextIsAccepted(db: Db, issued: map<nat, Envelope>, log: seq<nat>, id: nat, ms: seq<Message>, stream: seq<Event>)
    requires Integrity(db) && Ordered({}, stream) && AllRecordable(stream)
    requires FirstsFollow(issued, log + [id], ms) && EventsOf(ms) <= stream && id in issued && issued[id].Wellformed?
    ensures ErrorOf(RecordAll(db, Handled(issued, log)), issued[id].event).None?
  {
    hide Integrity, Ordered, AllRecordable, Known, FinishesAgree, Record, RecordAll, ErrorOf, FirstsFollow;
    RepeatsDoNotShow(db, issued, log + [id], ms, stream);
    HandledSnoc(issued, log, id);
    var events := Handled(issued, log + [id]);
    var n := |Handled(issued, log)|;
    assert events[..n] == Handled(issued, log) && events[n] == issued[id].event;
    OrderedIsAccepted({}, db, events, n);
  }

  // ---------- The consumer under faults ----------

  /** Consumer 0 is alone and its handler is the recorder. Claims, look-ups, dead-letter writes
      and acknowledgements may be refused or lost, reads may be refused; no read is lost, the
      consumer does not crash and nothing is trimmed. */
  predicate Tolerable(s: System, a: Action, db: Db) {
    match a
    case Act(c, outcome, _) =>
      && c == 0
      && (s.At(0) == Reading ==> outcome != Lost)
      && (s.At(0).Busy? && s.At(0).task.CallHandler? ==>
            (outcome.Ok? <==> ErrorOf(RecordAll(db, Handled(s.group.issued, s.log)), s.At(0).task.event).None?))
    case Produce(_, _) => true
    case Tick(_) => true
    case _ => false
  }

  ghost predicate AllTolerable(o: Options, s: System, acts: seq<Action>, db: Db) {
    if acts == [] then true
    else
      AllTolerable(o, s, acts[..|acts| - 1], db) && Tolerable(After(o, s, acts[..|acts| - 1]), acts[|acts| - 1], db)
  }

  /** The entries called at least once are the first ones read, in stream order, and the rest of
      what was read is the batch in hand. */
  ghost predicate InStep(s: System) {
    var seen, firsts, local := Seen(s.group), Firsts(s.log), s.At(0);
    var n := |firsts|;
    && Sound(s.group) && s.group.entries == s.group.issued
    && n <= |seen| && (forall i :: 0 <= i < n ==> firsts[i] == seen[i].id)
    && if local.Busy? && local.cont.InBatch? then
         match local.task
         case CallHandler(id, event) =>
           && n < |seen| && seen[n].id == id && seen[n].envelope.Wellformed? && seen[n].envelope.event == event
           && local.cont.rest == seen[n + 1..]
         case Acknowledge(_) => local.cont.rest == seen[n..]
         case _ => false
       else n == |seen|
  }

  lemma SeenIsExact(g: Group)
    requires Sound(g)
    ensures Ascending(Seen(g))
    ensures forall i :: 0 <= i < |Seen(g)| ==>
      Seen(g)[i].id <= g.cursor && Seen(g)[i].id in g.issued && g.issued[Seen(g)[i].id] == Seen(g)[i].envelope
    ensures forall id :: id in g.issued && id <= g.cursor ==> exists i :: 0 <= i < |Seen(g)| && Seen(g)[i].id == id
  {
    hide Listing;
    ListingIsExact(g.issued, g.cursor + 1);
    assert forall i :: 0 <= i < |Seen(g)| ==> Seen(g)[i] in Seen(g);
    forall id | id in g.issued && id <= g.cursor
      ensures exists i :: 0 <= i < |Seen(g)| && Seen(g)[i].id == id
    {
      assert Message(id, g.issued[id]) in Seen(g);
    }
  }

  /** A repeated call is of an entry called before; a first one of the next in the stream. */
  lemma CallInStep(o: Options, s: System)
    requires InStep(s) && s.At(0).Busy? && s.At(0).task.CallHandler? && TaskOk(o, s, s.At(0).task)
    ensures var id, firsts, seen := s.At(0).task.id, Firsts(s.log), Seen(s.group);
      && id in s.group.issued && s.group.issued[id].Wellformed? && s.group.issued[id].event == s.At(0).task.event
      && (id in s.log <==> s.At(0).cont.InPage?)
      && var more := Firsts(s.log + [id]);
         |more| <= |seen| && forall i :: 0 <= i < |more| ==> more[i] == seen[i].id
  {
    hide Listing, Seen;
    var id, n, seen := s.At(0).task.id, |Firsts(s.log)|, Seen(s.group);
    SeenIsExact(s.group);
    FirstsSnoc(s.log, id);
    if s.At(0).cont.InBatch? {
      assert forall i :: 0 <= i < n ==> seen[i].id < seen[n].id;
    } else {
      var i :| 0 <= i < |seen| && seen[i].id == id;
      assert Firsts(s.log)[i] == id;
    }
  }

  lemma PerformInStep(o: Options, s: System, outcome: Outcome)
    requires InStep(s) && s.At(0).Busy? && TaskOk(o, s, s.At(0).task) && AllWellformed(Seen(s.group))
    requires s.At(0).task.CallHandler? ==> outcome == Ok
    ensures InStep(Perform(o, s, 0, s.At(0).task, s.At(0).cont, outcome))
  {
    hide Listing, Firsts, Seen, Sound;
    var task, k := s.At(0).task, s.At(0).cont;
    if task.CallHandler? {
      CallInStep(o, s);
      FirstsSnoc(s.log, task.id);
    } else {
      PerformKeepsSeen(o, s, outcome);
    }
  }

  lemma PerformKeepsSeen(o: Options, s: System, outcome: Outcome)
    requires s.At(0).Busy? && Sound(s.group)
    ensures var t := Perform(o, s, 0, s.At(0).task, s.At(0).cont, outcome);
      Sound(t.group) && Seen(t.group) == Seen(s.group) && t.group.entries == s.group.entries && t.group.issued == s.group.issued
  {
    hide Listing, Sound, Seen, Resume, HandleTask, Acked, Buried;
    match s.At(0).task {
      case Acknowledge(id) => AckKeepsSeen(s.group, id);
      case WriteDead(id, raw) => BuryKeepsSeen(s.group, id, raw);
      case _ =>
    }
  }

  lemma AckKeepsSeen(g: Group, id: nat)
    requires Sound(g)
    ensures var h := Acked(g, id); Sound(h) && Seen(h) == Seen(g) && h.entries == g.entries && h.issued == g.issued
  {
    hide Listing;
  }

  lemma BuryKeepsSeen(g: Group, id: nat, raw: string)
    requires Sound(g)
    ensures var h := Buried(g, id, raw); Sound(h) && Seen(h) == Seen(g) && h.entries == g.entries && h.issued == g.issued
  {
    hide Listing;
  }

  lemma ClaimInStep(o: Options, s: System, outcome: Outcome, bound: nat)
    requires InStep(s) && s.At(0).Claiming?
    ensures InStep(Advance(o, s, 0, outcome, bound))
  {
    hide Listing, Firsts, CanClaim, Sound;
    if outcome != Refused && CanClaim(o, s.group, s.At(0).start, bound) {
      ClaimIsSound(o, s.group, s.At(0).start, bound);
    }
  }

  lemma ReadInStep(o: Options, s: System, outcome: Outcome, bound: nat)
    requires InStep(s) && s.At(0) == Reading && outcome != Lost
    requires AllWellformed(Seen(Advance(o, s, 0, outcome, bound).group))
    ensures InStep(Advance(o, s, 0, outcome, bound))
  {
    hide Listing, Firsts, Read, CanRead, Sound, Seen;
    if outcome == Ok && CanRead(s.group, bound) {
      ReadIsSound(s.group, bound);
      SeenGrows(s.group, bound);
      ReadLeavesEntries(s.group, bound);
      var (g, batch) := Read(s.group, bound);
      var seen, n := Seen(g), |Firsts(s.log)|;
      assert seen[n..] == batch && (batch != [] ==> seen[n] == batch[0] && seen[n + 1..] == batch[1..]);
    }
  }

  lemma ReadLeavesEntries(g: Group, bound: nat)
    requires CanRead(g, bound)
    ensures var h := Read(g, bound).0; h.entries == g.entries && h.issued == g.issued
  {
  }

  lemma EnvironmentInStep(o: Options, s: System, a: Action)
    requires InStep(s) && (a.Produce? || a.Tick?)
    ensures InStep(Next(o, s, a))
  {
    hide Seen, Firsts;
    var t := Next(o, s, a);
    assert Seen(t.group) == Seen(s.group) by {
      SeenStays(s.group, t.group);
    }
  }

  // ---------- Every run of this kind ----------

  ghost predicate Stream(db: Db, stream: seq<Event>) {
    Integrity(db) && Ordered({}, stream) && AllRecordable(stream)
  }

  lemma SeenFollows(s: System, stream: seq<Event>)
    requires Sound(s.group) && Carries(s.group, stream)
    ensures AllWellformed(Seen(s.group)) && EventsOf(Seen(s.group)) <= stream
    ensures forall i :: 0 <= i < |Seen(s.group)| ==>
      Seen(s.group)[i].id in s.group.issued && s.group.issued[Seen(s.group)[i].id] == Seen(s.group)[i].envelope
  {
    hide Listing, Published;
    SeenIsPublished(s.group);
    SeenIsExact(s.group);
    PrefixIsWellformed(Seen(s.group), Published(s.group));
    assert forall i :: 0 <= i < |Seen(s.group)| ==> Seen(s.group)[i] == Published(s.group)[i];
  }

  /** No call is refused, first or repeated. */
  lemma NoCallIsRefused(o: Options, s: System, db: Db, stream: seq<Event>)
    requires s.At(0).Busy? && s.At(0).task.CallHandler? && TaskOk(o, s, s.At(0).task)
    requires InStep(s) && Carries(s.group, stream) && Stream(db, stream)
    ensures ErrorOf(RecordAll(db, Handled(s.group.issued, s.log)), s.At(0).task.event).None?
  {
    hide Listing, Seen, Carries, Integrity, Ordered, AllRecordable, Handled, RecordAll, ErrorOf, Firsts;
    CallInStep(o, s);
    SeenFollows(s, stream);
    NextIsAccepted(db, s.group.issued, s.log, s.At(0).task.id, Seen(s.group), stream);
  }

  lemma ActInStep(o: Options, s: System, db: Db, outcome: Outcome, bound: nat, stream: seq<Event>)
    requires InStep(s) && Invariant(o, s) && Carries(s.group, stream) && Stream(db, stream)
    requires Tolerable(s, Act(0, outcome, bound), db)
    requires var t := Advance(o, s, 0, outcome, bound); Sound(t.group) && Carries(t.group, stream)
    ensures InStep(Advance(o, s, 0, outcome, bound))
  {
    hide Listing, Seen, Carries, Stream, InStep, NothingLost, DeadOk, LogOk, ErrorOf, RecordAll, Handled, Perform,
      CanRead, CanClaim;
    SeenFollows(s, stream);
    SeenFollows(Advance(o, s, 0, outcome, bound), stream);
    match s.At(0) {
      case Claiming(_) => ClaimInStep(o, s, outcome, bound);
      case Reading => ReadInStep(o, s, outcome, bound);
      case Busy(task, _) =>
        assert LocalOk(o, s, s.At(0));
        if task.CallHandler? {
          NoCallIsRefused(o, s, db, stream);
        }
        PerformInStep(o, s, outcome);
    }
  }

  /** In every such run the first calls follow the stream, and the recorder refuses none of the
      calls it gets. */
  lemma {:induction false} FaultsAreTolerated(o: Options, s: System, acts: seq<Action>, db: Db, stream: seq<Event>)
    requires Initial(s) && s.group.entries == s.group.issued && AllTolerable(o, s, acts, db)
    requires Stream(db, stream) && Carries(After(o, s, acts).group, stream)
    ensures var t := After(o, s, acts);
      && InStep(t)
      && (t.At(0).Busy? && t.At(0).task.CallHandler? ==>
            ErrorOf(RecordAll(db, Handled(t.group.issued, t.log)), t.At(0).task.event).None?)
  {
    hide InStep, Initial, Stream, Carries, Advance, ErrorOf, RecordAll, Handled, Sound, NothingLost, DeadOk, LogOk;
    Reachable(o, s, acts);
    var t := After(o, s, acts);
    if acts == [] {
      BeginsInStep(s);
    } else {
      var before, last := After(o, s, acts[..|acts| - 1]), acts[|acts| - 1];
      Reachable(o, s, acts[..|acts| - 1]);
      PublishedGrows(o, before, last);
      CarriesLess(before.group, t.group, stream);
      FaultsAreTolerated(o, s, acts[..|acts| - 1], db, stream);
      if last.Act? {
        ActInStep(o, before, db, last.outcome, last.bound, stream);
      } else {
        EnvironmentInStep(o, before, last);
      }
    }
    if t.At(0).Busy? && t.At(0).task.CallHandler? {
      assert LocalOk(o, t, t.At(0));
      NoCallIsRefused(o, t, db, stream);
    }
  }

  lemma BeginsInStep(s: System)
    requires Initial(s) && s.group.entries == s.group.issued
    ensures InStep(s)
  {
    hide Listing;
    ListingOfNone(s.group.issued, 1);
  }

  /** At-least-once delivery does not show. At any time the entries called at least once are the
      first ones of the stream, in order. If results of one step name are consistent, the tables
      are what recording those entries once would leave; and when the consumer has caught up
      with the stream, every row agrees with what ran. */
  lemma RunsAreRecordedDespiteFaults(
      o: Options, s: System, acts: seq<Action>, db: Db, stream: seq<Event>, traces: seq<seq<Event>>, runs: seq<RunSpec>)
    requires Initial(s) && s.group.entries == s.group.issued && AllTolerable(o, s, acts, db)
    requires Recorded(db, stream, traces, runs) && Carries(After(o, s, acts).group, stream)
    ensures var t := After(o, s, acts);
      var n, tables := |Firsts(t.log)|, RecordAll(db, Handled(t.group.issued, t.log));
      && n <= |Published(t.group)| && (forall i :: 0 <= i < n ==> Firsts(t.log)[i] == Published(t.group)[i].id)
      && n <= |stream| && (AllConsistent(runs) ==> tables == RecordAll(db, stream[..n]))
      && (CaughtUp(t) && |Published(t.group)| == |stream| ==> n == |stream|)
      && (n == |stream| && AllConsistent(runs) ==>
            forall i: int, k: Key :: 0 <= i < |runs| && k.run == runs[i].runId ==>
              Agrees(CellOf(tables, k), k, runs[i].pipeline, runs[i].world))
  {
    hide Initial, AllTolerable, Integrity, StreamOf, DistinctRuns, UniqueJobNames, After, Agrees, CellOf, RecordAll,
      ErrorOf, Listing, Handled, Sound, Firsts, AllConsistent, Ordered, AllRecordable;
    StreamIsOrdered({}, stream, traces, runs);
    FaultsAreTolerated(o, s, acts, db, stream);
    var t := After(o, s, acts);
    SeenIsPublished(t.group);
    SeenFollows(t, stream);
    RepeatsDoNotShow(db, t.group.issued, t.log, Seen(t.group), stream);
    assert forall i :: 0 <= i < |Seen(t.group)| ==> Seen(t.group)[i] == Published(t.group)[i];
    if AllConsistent(runs) {
      ConsistentRunsAgree(stream, traces, runs);
    }
    StreamRecorded(db, stream, traces, runs);
    if CaughtUp(t) {
      SeenIsAll(t.group);
    }
    assert stream[..|stream|] == stream;
  }

  /** Everything in the stream was read, and no batch is in hand. */
  predicate CaughtUp(s: System) {
    NothingUnread(s.group) && !(s.At(0).Busy? && s.At(0).cont.InBatch?)
  }

  lemma SeenIsAll(g: Group)
    requires Sound(g) && g.entries == g.issued && NothingUnread(g)
    ensures Seen(g) == Published(g)
  {
    hide Listing;
    ListingSplit(g.issued, map[], g.cursor + 1, g.last + 1);
    ListingOfNone(map[], g.last + 1);
  }

  // ---------- The consumer's loop ----------

  function ActsOf(rounds: seq<Round>): seq<Action> {
    if rounds == [] then []
    else ActsOf(rounds[..|rounds| - 1]) + rounds[|rounds| - 1].pass + rounds[|rounds| - 1].interlude
  }

  lemma {:induction false} AfterActsOf(o: Options, s: System, rounds: seq<Round>)
    ensures After(o, s, ActsOf(rounds)) == AfterRounds(o, s, rounds)
  {
    hide Next;
    if rounds != [] {
      var init, round := rounds[..|rounds| - 1], rounds[|rounds| - 1];
      AfterActsOf(o, s, init);
      AfterAppend(o, s, ActsOf(init), round.pass);
      AfterAppend(o, s, ActsOf(init) + round.pass, round.interlude);
    }
  }

  /** The loop's rounds, once they have caught up as Consumer.Run does: every row of every run
      agrees with what ran. */
  lemma LoopLeavesWhatRan(
      o: Options, s: System, rounds: seq<Round>, db: Db, stream: seq<Event>, traces: seq<seq<Event>>, runs: seq<RunSpec>)
    requires Initial(s) && s.group.entries == s.group.issued && AllTolerable(o, s, ActsOf(rounds), db)
    requires Recorded(db, stream, traces, runs) && AllConsistent(runs)
    requires var t := AfterRounds(o, s, rounds);
      && Carries(t.group, stream) && |Published(t.group)| == |stream|
      && t.At(0) == Claiming(0) && NothingUnread(t.group)
    ensures var t := AfterRounds(o, s, rounds);
      forall i: int, k: Key :: 0 <= i < |runs| && k.run == runs[i].runId ==>
        Agrees(CellOf(RecordAll(db, Handled(t.group.issued, t.log)), k), k, runs[i].pipeline, runs[i].world)
  {
    hide Initial, AllTolerable, Recorded, AllConsistent, After, AfterRounds, Agrees, CellOf, RecordAll, Handled, Carries,
      Published, Firsts;
    AfterActsOf(o, s, rounds);
    RunsAreRecordedDespiteFaults(o, s, ActsOf(rounds), db, stream, traces, runs);
  }
}
