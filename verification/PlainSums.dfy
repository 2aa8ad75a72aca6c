/**
 The sum of MaxAttempts + 1 - count over the pending list: exactly when a recovery pass is sure
 to lower it, whatever the handler does.
 */
module PlainSums {
  import opened Events
  import opened RedisGroup
  import opened Delivery
  import opened Recovery
  import Witnesses

  function PlainSum(o: Options, pending: map<nat, Pel>, hi: nat): int {
    if hi == 0 then 0
    else PlainSum(o, pending, hi - 1) + (if hi - 1 in pending then o.maxAttempts + 1 - pending[hi - 1].count else 0)
  }

  /** How many entries have a count of at most MaxAttempts. */
  function Alive(o: Options, pending: map<nat, Pel>, hi: nat): nat {
    if hi == 0 then 0
    else Alive(o, pending, hi - 1) + (if hi - 1 in pending && pending[hi - 1].count <= o.maxAttempts then 1 else 0)
  }

  /** By how much the counts of the exhausted ones exceed MaxAttempts + 1. */
  function Excess(o: Options, pending: map<nat, Pel>, hi: nat): int {
    if hi == 0 then 0
    else
      Excess(o, pending, hi - 1)
      + (if hi - 1 in pending && pending[hi - 1].count > o.maxAttempts then pending[hi - 1].count - o.maxAttempts - 1 else 0)
  }

  /** Every entry with attempts left after the claim is still pending. */
  ghost predicate NoneHandled(o: Options, g: Group, h: Group) {
    forall id: nat :: id in g.pending && g.pending[id].count < o.maxAttempts ==> id in h.pending
  }

  lemma {:induction false} SumChange(o: Options, g: Group, h: Group, hi: nat)
    requires Recovered(o, g, h) && AllEligible(o, g)
    ensures PlainSum(o, h.pending, hi) <= PlainSum(o, g.pending, hi) - Alive(o, g.pending, hi) + Excess(o, g.pending, hi)
    ensures NoneHandled(o, g, h) ==>
      PlainSum(o, h.pending, hi) == PlainSum(o, g.pending, hi) - Alive(o, g.pending, hi) + Excess(o, g.pending, hi)
  {
    if hi > 0 {
      SumChange(o, g, h, hi - 1);
      assert hi - 1 in g.pending ==> Eligible(o, g, hi - 1);
    }
  }

  // ---------- The pass in which every handler call fails ----------

  /** All pending entries are in the stream, well-formed and due. */
  ghost predicate Recoverable(o: Options, g: Group) {
    && AllEligible(o, g)
    && forall id :: id in g.pending ==> id in g.entries && g.entries[id].Wellformed?
  }

  predicate Claimed(s: System, ms: seq<Message>) {
    forall msg :: msg in ms ==> msg.id in s.group.pending && msg.envelope.Wellformed?
  }

  predicate LastTry(o: Options, s: System, id: nat) {
    id in s.group.pending && s.group.pending[id].count >= o.maxAttempts
  }

  predicate TaskFits(o: Options, s: System, task: Task) {
    match task
    case CheckPending(msg) => msg.id in s.group.pending && msg.envelope.Wellformed?
    case CallHandler(_, _) => true
    case FetchDead(id) => LastTry(o, s, id)
    case WriteDead(id, _) => LastTry(o, s, id)
    case Acknowledge(id) => LastTry(o, s, id)
  }

  /** Where such a pass from `s` has got to. */
  ghost predicate FailingSoFar(o: Options, s: System, t: System) {
    var local := t.At(0);
    && Recoverable(o, s.group) && ScanInvariant(o, s, t)
    && t.group.entries == s.group.entries && NoneHandled(o, s.group, t.group)
    && (local.Claiming? ==> local.start <= t.group.cursor)
    && (local.Busy? ==>
          && local.cont.InPage? && local.cont.next <= t.group.cursor
          && Claimed(s, local.cont.rest) && TaskFits(o, s, local.task))
  }

  function Rank(task: Task): nat {
    match task
    case CheckPending(_) => 5
    case FetchDead(_) => 4
    case WriteDead(_, _) => 3
    case CallHandler(_, _) => 2
    case Acknowledge(_) => 1
  }

  /** An upper bound of the steps left in the pass. */
  function StepsLeft(local: Local, cursor: nat): int {
    match local
    case Claiming(start) => 10 * (cursor + 1 - start)
    case Reading => 0
    case Busy(task, k) =>
      Rank(task) + 6 * |k.rest| + if k.InPage? && k.next != 0 then 10 * (cursor + 1 - k.next) else 0
  }

  /** Claims of one id at a time, and a handler that fails. */
  function FailingStep(local: Local): Action {
    match local
    case Claiming(start) => Act(0, Ok, start + 1)
    case Reading => Tick(0)
    case Busy(task, _) => if task.CallHandler? then Act(0, Refused, 0) else Act(0, Ok, 0)
  }

  /** A claim that examines one id when nothing was trimmed. */
  lemma ClaimsAtMostOne(o: Options, g: Group, start: nat)
    requires forall id :: id in g.pending ==> id in g.entries && g.entries[id].Wellformed?
    ensures CanClaim(o, g, start, start + 1)
    ensures var (h, page, next) := Claim(o, g, start, start + 1);
      && h.pending.Keys == g.pending.Keys && h.entries == g.entries && h.cursor == g.cursor
      && |page| <= 1 && (forall msg :: msg in page ==> msg.id in g.pending && msg.envelope.Wellformed?)
      && (next != 0 ==> start < next <= g.cursor)
  {
    hide Listing;
    var taken := Claimable(o, g, start, start + 1);
    ListingFits(taken, start, start + 1);
    ListingIsExact(taken, start + 1);
  }

  lemma ClaimFails(o: Options, s: System, t: System)
    requires FailingSoFar(o, s, t) && t.At(0).Claiming?
    ensures var u := Next(o, t, FailingStep(t.At(0)));
      FailingSoFar(o, s, u) && StepsLeft(u.At(0), u.group.cursor) < StepsLeft(t.At(0), t.group.cursor)
  {
    hide Listing, Resume, ScanInvariant, Claim, CanClaim;
    var start := t.At(0).start;
    PendingShrinks(o, s, t);
    ClaimsAtMostOne(o, t.group, start);
    ClaimScans(o, s, t, start, start + 1);
    var (g, page, next) := Claim(o, t.group, start, start + 1);
    ResumeFits(o, s, page, next, g.cursor);
  }

  lemma PendingShrinks(o: Options, s: System, t: System)
    requires ScanInvariant(o, s, t)
    ensures t.group.pending.Keys <= s.group.pending.Keys
  {
  }

  lemma ResumeFits(o: Options, s: System, rest: seq<Message>, next: nat, cursor: nat)
    requires Claimed(s, rest) && next <= cursor
    ensures var local := Resume(InPage(rest, next));
      && (local.Claiming? ==> local.start <= cursor)
      && (local.Busy? ==>
            && local.cont.InPage? && local.cont.next == next && Claimed(s, local.cont.rest) && TaskFits(o, s, local.task))
      && 0 <= StepsLeft(local, cursor) <= 6 * |rest| + (if next != 0 then 10 * (cursor + 1 - next) else 0)
  {
    if rest != [] {
      assert rest[0] in rest;
    }
  }

  lemma PerformFails(o: Options, s: System, t: System)
    requires FailingSoFar(o, s, t) && t.At(0).Busy?
    ensures var u := Next(o, t, FailingStep(t.At(0)));
      FailingSoFar(o, s, u) && StepsLeft(u.At(0), u.group.cursor) < StepsLeft(t.At(0), t.group.cursor)
  {
    hide Resume, ScanInvariant;
    var task, k := t.At(0).task, t.At(0).cont;
    PerformScans(o, s, t, task, k, FailingStep(t.At(0)).outcome);
    ResumeFits(o, s, k.rest, k.next, t.group.cursor);
    if task.CheckPending? {
      CountIsUp(o, s, t);
    }
  }

  /** A claimed entry's count is one more than when the pass began. */
  lemma CountIsUp(o: Options, s: System, t: System)
    requires FailingSoFar(o, s, t) && t.At(0).Busy? && t.At(0).task.CheckPending?
    ensures var id := t.At(0).task.msg.id;
      id in t.group.pending ==> id in s.group.pending && t.group.pending[id].count == s.group.pending[id].count + 1
  {
    var id := t.At(0).task.msg.id;
    assert Open(t.At(0), id);
    assert Eligible(o, s.group, id);
    assert EntryScanned(o, s, t, id);
  }

  lemma FailingPass(o: Options, s: System, t: System) returns (acts: seq<Action>)
    requires FailingSoFar(o, s, t) && (InScan(t.At(0)) || t.At(0) == Reading) && StepsLeft(t.At(0), t.group.cursor) >= 0
    ensures Scanning(o, t, acts) && After(o, t, acts).At(0) == Reading
    ensures NoneHandled(o, s.group, After(o, t, acts).group)
    decreases StepsLeft(t.At(0), t.group.cursor)
  {
    hide FailingSoFar, Next, ScanInvariant, NoneHandled, StepsLeft;
    if t.At(0) == Reading {
      acts := [];
      NoneYet(o, s, t);
    } else {
      var a := FailingStep(t.At(0));
      var u := Next(o, t, a);
      if t.At(0).Claiming? {
        ClaimFails(o, s, t);
      } else {
        PerformFails(o, s, t);
      }
      StaysInScan(o, s, u);
      var more := FailingPass(o, s, u);
      assert [a][..0] == [];
      assert After(o, t, [a]) == u && Scanning(o, t, [a]);
      AfterAppend(o, t, [a], more);
      ScanningAppend(o, t, [a], more);
      acts := [a] + more;
    }
  }

  lemma NoneYet(o: Options, s: System, t: System)
    requires FailingSoFar(o, s, t)
    ensures NoneHandled(o, s.group, t.group)
  {
  }

  lemma StaysInScan(o: Options, s: System, t: System)
    requires FailingSoFar(o, s, t)
    ensures InScan(t.At(0)) || t.At(0) == Reading
    ensures StepsLeft(t.At(0), t.group.cursor) >= 0
  {
  }

  /** Over a list of well-formed entries that are due, every pass lowers the sum if and only if
      more entries have a count of at most MaxAttempts than the exhausted ones are in excess. */
  lemma PlainSumExactly(o: Options, s: System)
    requires Sound(s.group) && s.At(0) == Claiming(0) && Recoverable(o, s.group)
    ensures var hi := s.group.cursor + 1;
      (forall acts :: IsPass(o, s, acts) ==> PlainSum(o, After(o, s, acts).group.pending, hi) < PlainSum(o, s.group.pending, hi))
      <==> Alive(o, s.group.pending, hi) > Excess(o, s.group.pending, hi)
  {
    hide After, Scanning, Recovered;
    var hi := s.group.cursor + 1;
    forall acts | IsPass(o, s, acts)
      ensures Recovered(o, s.group, After(o, s, acts).group)
    {
      PassCoversEverything(o, s, acts);
    }
    forall acts | IsPass(o, s, acts)
      ensures PlainSum(o, After(o, s, acts).group.pending, hi)
        <= PlainSum(o, s.group.pending, hi) - Alive(o, s.group.pending, hi) + Excess(o, s.group.pending, hi)
    {
      SumChange(o, s.group, After(o, s, acts).group, hi);
    }
    ScanStarts(o, s);
    var acts := FailingPass(o, s, s);
    assert IsPass(o, s, acts);
    SumChange(o, s.group, After(o, s, acts).group, hi);
  }

  /** It need not: an entry whose dead-lettering failed is all there is, and the pass that buries
      it leaves the sum where it was. */
  lemma PlainSumStalls(o: Options, event: Event) returns (s: System, acts: seq<Action>, pass: seq<Action>)
    requires o.maxAttempts >= 1
    ensures Initial(s)
    ensures var t := After(o, s, acts);
      && IsPass(o, t, pass) && AllEligible(o, t.group) && t.group.pending.Keys == {1}
      && t.group.pending[1].count == o.maxAttempts + 1
      && PlainSum(o, After(o, t, pass).group.pending, 2) == PlainSum(o, t.group.pending, 2)
  {
    hide Next, After;
    s := Witnesses.NewGroup(event);
    acts := Witnesses.Exhausts(o, s, 0, event);
    var t := After(o, s, acts);
    Reachable(o, s, acts);
    InvariantIsSound(o, t);
    ScanStarts(o, t);
    pass := FailingPass(o, t, t);
    PassCoversEverything(o, t, pass);
    SumChange(o, t.group, After(o, t, pass).group, 2);
    SumOfOne(o, t.group.pending);
  }

  lemma SumOfOne(o: Options, pending: map<nat, Pel>)
    requires pending.Keys == {1} && pending[1].count == o.maxAttempts + 1
    ensures Alive(o, pending, 2) == 0 && Excess(o, pending, 2) == 0
  {
    assert Alive(o, pending, 1) == Alive(o, pending, 0) == 0;
    assert Excess(o, pending, 1) == Excess(o, pending, 0) == 0;
  }
}
