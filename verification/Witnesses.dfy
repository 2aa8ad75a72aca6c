/**
 Concrete runs, reachable from a new group, for what the code does not promise: two consumers
 that exceed MaxAttempts.
 */
module Witnesses {
  import opened Events
  import opened RedisGroup
  import opened Delivery

  // ---------- Steps over a stream of one entry ----------

  function OneEntry(event: Event): map<nat, Envelope> {
    map[1 := Wellformed("", event)]
  }

  function Only(event: Event): Message {
    Message(1, Wellformed("", event))
  }

  lemma ListingOfOne(m: map<nat, Envelope>)
    requires m.Keys == {1}
    ensures Listing(m, 2) == [Message(1, m[1])]
  {
    assert Listing(m, 0) == [] && Listing(m, 1) == [];
  }

  lemma ClaimsNothing(o: Options, s: System, c: nat)
    requires s.group.cursor == 0 && s.group.pending == map[] && s.At(c) == Claiming(0)
    ensures Advance(o, s, c, Ok, 1) == s.To(c, Reading)
  {
    var taken := Claimable(o, s.group, 0, 1);
    assert taken == map[];
    assert Listing(taken, 0) == [];
    assert Listing(taken, 1) == [];
    assert s.group.deliveries + multiset(taken.Keys) == s.group.deliveries;
    var (g, page, next) := Claim(o, s.group, 0, 1);
    assert g.pending == map[];
    assert g == s.group;
  }

  lemma ReadsIt(o: Options, s: System, c: nat, event: Event)
    requires s.group.entries == OneEntry(event) && s.group.cursor == 0 && s.group.pending == map[]
    requires s.At(c) == Reading
    ensures var t := Advance(o, s, c, Ok, 1);
      && t.group.entries == s.group.entries && t.group.cursor == 1 && t.group.pending == map[1 := Pel(1, 0)]
      && t.locals == s.locals[c := Busy(CallHandler(1, event), InBatch([]))] && t.log == s.log
  {
    var found := Unread(s.group, 1);
    assert found == OneEntry(event);
    ListingOfOne(found);
    assert [Only(event)][1..] == [];
  }

  lemma ClaimsIt(o: Options, s: System, c: nat, event: Event)
    requires s.group.entries == OneEntry(event) && s.group.cursor == 1 && s.At(c) == Claiming(0)
    requires s.group.pending.Keys == {1} && s.group.pending[1].idle >= o.minIdle
    ensures var t := Advance(o, s, c, Ok, 2);
      && t.group.entries == s.group.entries && t.group.cursor == 1
      && t.group.pending == map[1 := Pel(s.group.pending[1].count + 1, 0)] && t.log == s.log
      && t.locals == s.locals[c := Busy(CheckPending(Only(event)), InPage([], 0))]
  {
    var taken := Claimable(o, s.group, 0, 2);
    assert taken == OneEntry(event);
    ListingOfOne(taken);
    assert [Only(event)][1..] == [];
  }

  // ---------- A handler that keeps failing ----------

  /** Consumer `c` is about to call the handler with the entry for the `k`-th time. */
  ghost predicate Attempting(s: System, c: nat, event: Event, k: nat) {
    var local := s.At(c);
    && s.group.entries == OneEntry(event) && s.group.cursor == 1
    && s.group.pending.Keys == {1} && s.group.pending[1].count == k
    && local.Busy? && local.task == CallHandler(1, event) && local.cont.rest == []
    && (local.cont.InPage? ==> local.cont.next == 0)
    && (forall d: nat :: d != c ==> s.At(d) == Claiming(0))
    && multiset(s.log)[1] == k - 1
  }

  lemma FirstAttempt(o: Options, s: System, c: nat, event: Event) returns (acts: seq<Action>)
    requires s.group.entries == OneEntry(event) && s.group.cursor == 0 && s.group.pending == map[]
    requires s.locals == map[] && s.log == []
    ensures Attempting(After(o, s, acts), c, event, 1)
  {
    hide Advance;
    var act := Act(c, Ok, 1);
    ClaimsNothing(o, s, c);
    ReadsIt(o, s.To(c, Reading), c, event);
    AfterSnoc(o, s, [], act);
    assert [] + [act] == [act];
    AfterSnoc(o, s, [act], act);
    acts := [act] + [act];
  }

  lemma Fails(o: Options, s: System, c: nat, event: Event, k: nat) returns (acts: seq<Action>)
    requires Attempting(s, c, event, k)
    ensures var t := After(o, s, acts);
      && t.group == s.group && t.log == s.log + [1] && t.At(c) == Claiming(0)
      && forall d: nat :: d != c ==> t.At(d) == Claiming(0)
  {
    var act := Act(c, Refused, 0);
    AfterSnoc(o, s, [], act);
    assert [] + [act] == [act];
    var t := Next(o, s, act);
    assert t == s.(log := s.log + [1]).To(c, Resume(s.At(c).cont));
    if s.At(c).cont.InBatch? {
      acts := [act];
    } else {
      AfterSnoc(o, s, [act], act);
      assert Next(o, t, act) == t.To(c, Claiming(0));
      acts := [act] + [act];
    }
    assert forall d: nat :: d != c ==> After(o, s, acts).At(d) == s.At(d);
  }

  /** Time passes and the entry is claimed again. */
  lemma IsClaimed(o: Options, s: System, c: nat, event: Event) returns (acts: seq<Action>)
    requires s.group.entries == OneEntry(event) && s.group.cursor == 1 && s.At(c) == Claiming(0)
    requires s.group.pending.Keys == {1}
    ensures var t := After(o, s, acts);
      && t.group.entries == s.group.entries && t.group.cursor == 1
      && t.group.pending == map[1 := Pel(s.group.pending[1].count + 1, 0)] && t.log == s.log
      && t.locals == s.locals[c := Busy(CheckPending(Only(event)), InPage([], 0))]
  {
    hide Advance;
    var tick, claim := Tick(o.minIdle), Act(c, Ok, 2);
    AfterSnoc(o, s, [], tick);
    assert [] + [tick] == [tick];
    AfterSnoc(o, s, [tick], claim);
    ClaimsIt(o, After(o, s, [tick]), c, event);
    acts := [tick] + [claim];
  }

  lemma Retries(o: Options, s: System, c: nat, event: Event, k: nat) returns (acts: seq<Action>)
    requires Attempting(s, c, event, k) && k < o.maxAttempts
    ensures Attempting(After(o, s, acts), c, event, k + 1)
  {
    hide Advance, Next;
    var a := Fails(o, s, c, event, k);
    var t := After(o, s, a);
    var b := IsClaimed(o, t, c, event);
    AfterAppend(o, s, a, b);
    var check := Act(c, Ok, 0);
    AfterSnoc(o, s, a + b, check);
    IsGranted(o, After(o, s, a + b), c, event);
    acts := a + b + [check];
    var u := After(o, s, acts);
    assert u.log == s.log + [1];
    assert u.group.pending.Keys == {1};
    assert u.group.pending[1].count == k + 1;
    assert u.At(c).Busy?;
    assert forall d: nat :: d != c ==> u.At(d) == t.At(d);
  }

  lemma IsGranted(o: Options, s: System, c: nat, event: Event)
    requires s.At(c) == Busy(CheckPending(Only(event)), InPage([], 0))
    requires 1 in s.group.pending ==> s.group.pending[1].count <= o.maxAttempts
    ensures Next(o, s, Act(c, Ok, 0)) == s.To(c, Busy(CallHandler(1, event), InPage([], 0)))
  {
  }

  /** Any number of attempts up to MaxAttempts is reached. */
  lemma {:induction false} Attempts(o: Options, s: System, c: nat, event: Event, k: nat) returns (acts: seq<Action>)
    requires s.group.entries == OneEntry(event) && s.group.cursor == 0 && s.group.pending == map[]
    requires s.locals == map[] && s.log == [] && 1 <= k <= o.maxAttempts
    ensures Attempting(After(o, s, acts), c, event, k)
  {
    hide Attempting;
    if k == 1 {
      acts := FirstAttempt(o, s, c, event);
    } else {
      var a := Attempts(o, s, c, event, k - 1);
      var b := Retries(o, After(o, s, a), c, event, k - 1);
      AfterAppend(o, s, a, b);
      acts := a + b;
    }
  }

  /** All attempts fail, and so does the look-up of the entry to dead-letter. */
  lemma Exhausts(o: Options, s: System, c: nat, event: Event) returns (acts: seq<Action>)
    requires s == NewGroup(event) && o.maxAttempts >= 1
    ensures var t := After(o, s, acts);
      && t.group.entries == OneEntry(event) && t.group.cursor == 1 && t.group.pending.Keys == {1}
      && t.group.pending[1].count == o.maxAttempts + 1 && t.group.pending[1].idle >= o.minIdle
      && t.At(c) == Claiming(0)
  {
    hide Advance, Next;
    var a := Attempts(o, s, c, event, o.maxAttempts);
    var b := Fails(o, After(o, s, a), c, event, o.maxAttempts);
    AfterAppend(o, s, a, b);
    var d := IsClaimed(o, After(o, s, a + b), c, event);
    AfterAppend(o, s, a + b, d);
    var look, read, tick := Act(c, Ok, 0), Act(c, Refused, 0), Tick(o.minIdle);
    acts := a + b + d;
    var t := After(o, s, acts);
    GivesUp(o, t, c, event);
    AfterSnoc(o, s, acts, look);
    AfterSnoc(o, s, acts + [look], read);
    AfterSnoc(o, s, acts + [look] + [read], read);
    AfterSnoc(o, s, acts + [look] + [read] + [read], tick);
    acts := acts + [look] + [read] + [read] + [tick];
  }

  lemma GivesUp(o: Options, s: System, c: nat, event: Event)
    requires s.At(c) == Busy(CheckPending(Only(event)), InPage([], 0)) && s.group.pending.Keys == {1}
    requires s.group.pending[1].count > o.maxAttempts
    ensures var look, fail, tick := Act(c, Ok, 0), Act(c, Refused, 0), Tick(o.minIdle);
      var t := Next(o, Next(o, Next(o, Next(o, s, look), fail), fail), tick);
      && t.group.entries == s.group.entries && t.group.cursor == s.group.cursor && t.group.pending.Keys == {1}
      && t.group.pending[1].count == s.group.pending[1].count && t.group.pending[1].idle >= o.minIdle
      && t.At(c) == Claiming(0)
  {
    assert Next(o, s, Act(c, Ok, 0)) == s.To(c, Busy(FetchDead(1), InPage([], 0)));
  }

  function NewGroup(event: Event): System {
    System(Group(OneEntry(event), 1, 0, map[], [], OneEntry(event), multiset{}), map[], {}, [])
  }

  // ---------- Two consumers ----------

  /** Consumer 1 succeeds and acknowledges while consumer 0 holds the claimed entry. */
  lemma BothCallTheHandler(o: Options, s: System, event: Event)
    requires s.At(1).Busy? && s.At(1).task == CallHandler(1, event)
    requires s.At(0) == Busy(CheckPending(Only(event)), InPage([], 0))
    ensures var slow, fast := Act(1, Ok, 0), Act(0, Ok, 0);
      Next(o, Next(o, Next(o, Next(o, s, slow), slow), fast), fast).log == s.log + [1, 1]
  {
    var acked := Next(o, Next(o, s, Act(1, Ok, 0)), Act(1, Ok, 0));
    assert acked.log == s.log + [1] && 1 !in acked.group.pending;
    assert acked.At(0) == s.At(0);
    IsGranted(o, acked, 0, event);
    assert s.log + [1] + [1] == s.log + [1, 1];
  }

  /** For every MaxAttempts and every minimum idle time two consumers can exceed the bound.
      Consumer 1 fails all its attempts but the last, which takes its time; consumer 0 claims
      the entry; consumer 1 succeeds and acknowledges it; consumer 0 finds it no longer pending
      and calls its handler all the same. */
  lemma TwoConsumersExceedTheBound(o: Options, event: Event) returns (s: System, acts: seq<Action>)
    requires o.maxAttempts >= 1
    ensures Initial(s) && multiset(After(o, s, acts).log)[1] == o.maxAttempts + 1
  {
    hide Next, Advance;
    s := NewGroup(event);
    var a := Attempts(o, s, 1, event, o.maxAttempts);
    var t := After(o, s, a);
    var b := IsClaimed(o, t, 0, event);
    AfterAppend(o, s, a, b);
    acts := a + b;
    var u := After(o, s, acts);
    BothCallTheHandler(o, u, event);
    var slow, fast := Act(1, Ok, 0), Act(0, Ok, 0);
    AfterSnoc(o, s, acts, slow);
    AfterSnoc(o, s, acts + [slow], slow);
    AfterSnoc(o, s, acts + [slow] + [slow], fast);
    AfterSnoc(o, s, acts + [slow] + [slow] + [fast], fast);
    acts := acts + [slow] + [slow] + [fast] + [fast];
  }
}
