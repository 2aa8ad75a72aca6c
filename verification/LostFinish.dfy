/**
 How a finished event is lost though no entry is: the reply to a read is lost, or the consumer
 crashes after a read, and the entries are handled out of order.
 */
module LostFinish {
  import opened Basics
  import opened Events
  import opened RedisGroup
  import opened Delivery
  import opened Attempts
  import opened Tables
  import opened Replay
  import Witnesses

  function TwoEntries(first: Event, second: Event): map<nat, Envelope> {
    map[1 := Wellformed("", first), 2 := Wellformed("", second)]
  }

  function NewGroup(first: Event, second: Event): System {
    System(Group(TwoEntries(first, second), 2, 0, map[], [], TwoEntries(first, second), multiset{}), map[], {}, [])
  }

  /** Four or five steps, one by one. */
  lemma AfterSteps(o: Options, s: System, acts: seq<Action>)
    requires 4 <= |acts| <= 5
    ensures var t := Next(o, Next(o, Next(o, Next(o, s, acts[0]), acts[1]), acts[2]), acts[3]);
      After(o, s, acts) == if |acts| == 4 then t else Next(o, t, acts[4])
  {
    hide Next;
    AfterSnoc(o, s, [], acts[0]);
    assert acts[..1] == [] + [acts[0]];
    AfterSnoc(o, s, acts[..1], acts[1]);
    assert acts[..2] == acts[..1] + [acts[1]];
    AfterSnoc(o, s, acts[..2], acts[2]);
    assert acts[..3] == acts[..2] + [acts[2]];
    AfterSnoc(o, s, acts[..3], acts[3]);
    assert acts[..4] == acts[..3] + [acts[3]];
    if |acts| == 5 {
      AfterSnoc(o, s, acts[..4], acts[4]);
      assert acts == acts[..4] + [acts[4]];
    } else {
      assert acts == acts[..4];
    }
  }

  lemma ListingOfSecond(m: map<nat, Envelope>)
    requires m.Keys == {2}
    ensures Listing(m, 3) == [Message(2, m[2])]
  {
    assert Listing(m, 0) == [] && Listing(m, 1) == [] && Listing(m, 2) == [];
  }

  lemma ReadsFirst(g: Group, first: Event, second: Event)
    requires g.entries == TwoEntries(first, second) && g.cursor == 0 && g.pending == map[]
    ensures CanRead(g, 1)
    ensures var (h, batch) := Read(g, 1);
      h == g.(cursor := 1, pending := map[1 := Pel(1, 0)], deliveries := h.deliveries) && batch == [Message(1, g.entries[1])]
  {
    var found := Unread(g, 1);
    assert found == map[1 := g.entries[1]];
    Witnesses.ListingOfOne(found);
  }

  lemma ClaimsNotYet(o: Options, g: Group)
    requires g.cursor == 1 && g.pending == map[1 := Pel(1, 0)] && 1 in g.entries && o.minIdle >= 1
    ensures CanClaim(o, g, 0, 2) && Claim(o, g, 0, 2) == (g, [], 0)
  {
    var taken := Claimable(o, g, 0, 2);
    assert taken == map[];
    assert Listing(taken, 0) == [] && Listing(taken, 1) == [] && Listing(taken, 2) == [];
    assert g.deliveries + multiset(taken.Keys) == g.deliveries;
    var (h, page, next) := Claim(o, g, 0, 2);
    assert h.pending == g.pending;
    assert h == g;
  }

  lemma ReadsSecond(g: Group, first: Event, second: Event)
    requires g.entries == TwoEntries(first, second) && g.cursor == 1 && g.pending == map[1 := Pel(1, 0)]
    ensures CanRead(g, 2)
    ensures var (h, batch) := Read(g, 2);
      && h == g.(cursor := 2, pending := map[1 := Pel(1, 0), 2 := Pel(1, 0)], deliveries := h.deliveries)
      && batch == [Message(2, g.entries[2])]
  {
    var found := Unread(g, 2);
    assert found == map[2 := g.entries[2]];
    ListingOfSecond(found);
  }

  lemma ClaimsFirst(o: Options, g: Group, first: Event, second: Event)
    requires g.entries == TwoEntries(first, second) && g.cursor == 2
    requires g.pending.Keys == {1} && g.pending[1].count == 1 && g.pending[1].idle >= o.minIdle
    ensures CanClaim(o, g, 0, 2)
    ensures var (h, page, next) := Claim(o, g, 0, 2);
      && h == g.(pending := map[1 := Pel(2, 0)], deliveries := h.deliveries)
      && page == [Message(1, g.entries[1])] && next == 0
  {
    var taken := Claimable(o, g, 0, 2);
    assert taken == map[1 := g.entries[1]];
    Witnesses.ListingOfOne(taken);
    assert Claim(o, g, 0, 2).0.pending == map[1 := Pel(2, 0)];
  }

  /** The first entry is read, and the consumer does not learn of it. */
  lemma LosesFirst(o: Options, first: Event, second: Event, crash: bool) returns (acts: seq<Action>)
    ensures Alone(acts)
    ensures var s, t := NewGroup(first, second), After(o, NewGroup(first, second), acts);
      && t.At(0) == Claiming(0) && t.locals.Keys == {0} && t.log == [] && t.handled == {}
      && t.group == s.group.(cursor := 1, pending := map[1 := Pel(1, 0)], deliveries := t.group.deliveries)
  {
    hide Claim, Read, CanClaim, CanRead;
    var s := NewGroup(first, second);
    var claim := Act(0, Ok, 1);
    Witnesses.ClaimsNothing(o, s, 0);
    ReadsFirst(s.group, first, second);
    AfterSnoc(o, s, [], claim);
    assert [] + [claim] == [claim];
    if crash {
      AfterSnoc(o, s, [claim], claim);
      AfterSnoc(o, s, [claim] + [claim], Crash(0));
      acts := [claim] + [claim] + [Crash(0)];
    } else {
      AfterSnoc(o, s, [claim], Act(0, Lost, 1));
      acts := [claim] + [Act(0, Lost, 1)];
    }
  }

  /** The handler succeeds and so does the acknowledgement. */
  lemma HandledAndAcked(o: Options, s: System, id: nat, event: Event, k: Cont, bound: nat)
    requires s.At(0) == Busy(CallHandler(id, event), k)
    ensures var act := Act(0, Ok, bound);
      Next(o, Next(o, s, act), act)
        == s.(log := s.log + [id], handled := s.handled + {id}, group := Acked(s.group, id)).To(0, Resume(k))
  {
    hide Resume;
    assert s.locals[0 := Busy(Acknowledge(id), k)][0 := Resume(k)] == s.locals[0 := Resume(k)];
  }

  /** The second entry is read and handled while the first is pending but not yet idle. */
  lemma HandlesSecond(o: Options, s: System, first: Event, second: Event) returns (acts: seq<Action>)
    requires s.group.entries == TwoEntries(first, second) && s.group.cursor == 1 && s.group.pending == map[1 := Pel(1, 0)]
    requires s.At(0) == Claiming(0) && o.minIdle >= 1
    ensures Alone(acts)
    ensures var t := After(o, s, acts);
      && t.At(0) == Claiming(0) && t.locals.Keys == s.locals.Keys + {0}
      && t.log == s.log + [2] && t.handled == s.handled + {2}
      && t.group == s.group.(cursor := 2, pending := map[1 := Pel(1, 0)], deliveries := t.group.deliveries)
  {
    hide Claim, Read, CanClaim, CanRead;
    var act := Act(0, Ok, 2);
    ClaimsNotYet(o, s.group);
    ReadsSecond(s.group, first, second);
    var s1 := Next(o, s, act);
    assert s1 == s.To(0, Reading);
    var s2 := Next(o, s1, act);
    assert s2.At(0) == Busy(CallHandler(2, second), InBatch([])) by {
      assert [Message(2, s.group.entries[2])][1..] == [];
    }
    HandledAndAcked(o, s2, 2, second, InBatch([]), 2);
    assert map[1 := Pel(1, 0), 2 := Pel(1, 0)] - {2} == map[1 := Pel(1, 0)];
    AfterSteps(o, s, [act, act, act, act]);
    acts := [act, act, act, act];
  }

  /** The first entry is recovered and handled, too late. */
  lemma RecoversFirst(o: Options, s: System, first: Event, second: Event) returns (acts: seq<Action>)
    requires s.group.entries == TwoEntries(first, second) && s.group.cursor == 2 && s.group.pending == map[1 := Pel(1, 0)]
    requires s.At(0) == Claiming(0) && o.maxAttempts >= 2
    ensures Alone(acts)
    ensures var t := After(o, s, acts);
      && t.At(0) == Reading && t.locals.Keys == s.locals.Keys + {0}
      && t.log == s.log + [1] && t.handled == s.handled + {1}
      && t.group == s.group.(pending := map[], deliveries := t.group.deliveries)
  {
    hide Claim, CanClaim;
    var tick, act := Tick(o.minIdle), Act(0, Ok, 2);
    var s1 := Next(o, s, tick);
    ClaimsFirst(o, s1.group, first, second);
    var s2 := Next(o, s1, act);
    assert s2.At(0) == Busy(CheckPending(Message(1, s.group.entries[1])), InPage([], 0)) by {
      assert [Message(1, s.group.entries[1])][1..] == [];
    }
    var s3 := Next(o, s2, act);
    HandledAndAcked(o, s3, 1, first, InPage([], 0), 2);
    assert map[1 := Pel(2, 0)] - {1} == map[];
    acts := [tick, act, act, act, act];
    AfterSteps(o, s, acts);
  }

  // ---------- Nothing makes up for it ----------

  /** No entry is pending or unread and no consumer holds one. */
  ghost predicate AllQuiet(s: System) {
    && s.group.pending == map[] && (forall id :: id in s.group.entries ==> id <= s.group.cursor)
    && forall c :: c in s.locals ==> !s.locals[c].Busy?
  }

  lemma QuietStep(o: Options, s: System, a: Action)
    requires AllQuiet(s) && !a.Produce?
    ensures AllQuiet(Next(o, s, a)) && Next(o, s, a).log == s.log
  {
    hide Listing;
    if a.Act? && s.At(a.consumer).Claiming? {
      var start := s.At(a.consumer).start;
      if CanClaim(o, s.group, start, a.bound) {
        var taken := Claimable(o, s.group, start, a.bound);
        ListingOfNone(taken, a.bound);
      }
    }
  }

  /** Without new entries no handler is called again. */
  lemma {:induction false} StaysQuiet(o: Options, s: System, acts: seq<Action>)
    requires AllQuiet(s) && forall a :: a in acts ==> !a.Produce?
    ensures AllQuiet(After(o, s, acts)) && After(o, s, acts).log == s.log
  {
    hide AllQuiet, Next;
    if acts != [] {
      StaysQuiet(o, s, acts[..|acts| - 1]);
      QuietStep(o, After(o, s, acts[..|acts| - 1]), acts[|acts| - 1]);
    }
  }

  ghost predicate NoNewEntries(acts: seq<Action>) {
    forall a :: a in acts ==> !a.Produce?
  }

  lemma NewGroupIsInitial(first: Event, second: Event)
    ensures Initial(NewGroup(first, second))
  {
  }

  /** A run's started and finished events are entries 1 and 2. A lone consumer whose handler is
      the recorder loses the reply to its first read, or crashes on it. Both entries end up
      handled, nothing was trimmed or dead-lettered, no recording failed; and the run's row is
      pending, without an end, for good. */
  lemma LostReadLosesFinish(o: Options, db: Db, start: Event, finish: Event, crash: bool) returns (acts: seq<Action>)
    requires o.minIdle >= 1 && o.maxAttempts >= 2 && Integrity(db) && FindRun(db, start.runId).None?
    requires start.kind.PipelineStarted? && finish.kind.PipelineFinished? && finish.runId == start.runId != ""
    ensures Initial(NewGroup(start, finish)) && Alone(acts)
    ensures var t := After(o, NewGroup(start, finish), acts);
      && t.log == [2, 1] && t.handled == {1, 2} && t.group.pending == map[] && t.group.dead == []
      && t.group.entries == TwoEntries(start, finish)
      && forall more :: NoNewEntries(more) ==> After(o, t, more).log == t.log
    ensures ErrorOf(db, finish).None? && ErrorOf(Record(db, finish), start).None?
    ensures var row := FindRun(RecordAll(db, [finish, start]), start.runId);
      row.Some? && row.value.status == "pending" && row.value.finishedAt == None
  {
    hide Next, Integrity, Record, After, Initial;
    var s := NewGroup(start, finish);
    NewGroupIsInitial(start, finish);
    var a := LosesFirst(o, start, finish, crash);
    var b := HandlesSecond(o, After(o, s, a), start, finish);
    AfterAppend(o, s, a, b);
    var d := RecoversFirst(o, After(o, s, a + b), start, finish);
    AfterAppend(o, s, a + b, d);
    acts := a + b + d;
    var t := After(o, s, acts);
    assert AllQuiet(t) by {
      assert t.locals.Keys == {0} && t.locals[0] == t.At(0) == Reading;
    }
    forall more | NoNewEntries(more)
      ensures After(o, t, more).log == t.log
    {
      StaysQuiet(o, t, more);
    }
    FinishBeforeStartIsLost(db, finish, start);
  }
}
