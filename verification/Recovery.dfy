/**
 Recovery of stuck entries by a lone consumer whose Redis commands succeed: one pass claims
 every eligible entry exactly once, and enough passes empty the pending list, whatever the
 handler answers.
 */
module Recovery {
  import opened RedisGroup
  import opened Delivery
  import opened Attempts

  // ---------- A recovery pass ----------

  predicate InScan(local: Local) {
    local.Claiming? || (local.Busy? && local.cont.InPage?)
  }

  /** Consumer 0 acts and its Redis commands succeed; its handler may fail; producers, trimming
      and time go on. */
  predicate Reliable(s: System, a: Action) {
    match a
    case Act(c, outcome, _) => c == 0 && (outcome == Ok || (s.At(0).Busy? && s.At(0).task.CallHandler?))
    case Crash(_) => false
    case _ => true
  }

  /** Steps of a recovery pass. */
  ghost predicate Scanning(o: Options, s: System, acts: seq<Action>) {
    if acts == [] then true
    else
      var before := After(o, s, acts[..|acts| - 1]);
      Scanning(o, s, acts[..|acts| - 1]) && InScan(before.At(0)) && Reliable(before, acts[|acts| - 1])
  }

  lemma {:induction false} ScanningAppend(o: Options, s: System, a: seq<Action>, b: seq<Action>)
    requires Scanning(o, s, a) && Scanning(o, After(o, s, a), b)
    ensures Scanning(o, s, a + b)
  {
    hide Next;
    if b == [] {
      assert a + b == a;
    } else {
      ScanningAppend(o, s, a, b[..|b| - 1]);
      AfterAppend(o, s, a, b[..|b| - 1]);
      assert (a + b)[..|a + b| - 1] == a + b[..|b| - 1];
    }
  }

  /** A whole pass: it ends where the consumer goes on to read new entries. */
  ghost predicate IsPass(o: Options, s: System, acts: seq<Action>) {
    s.At(0) == Claiming(0) && Scanning(o, s, acts) && After(o, s, acts).At(0) == Reading
  }

  // ---------- What has become of each entry ----------

  predicate Eligible(o: Options, g: Group, id: nat) {
    id in g.pending && g.pending[id].idle >= o.minIdle
  }

  /** The scan has yet to examine this id. */
  predicate Ahead(local: Local, id: nat) {
    match local
    case Claiming(start) => id >= start
    case Busy(_, k) => k.InPage? && k.next != 0 && id >= k.next
    case Reading => false
  }

  /** The scan has claimed this entry and is not through with it. */
  predicate Open(local: Local, id: nat) {
    local.Busy? && (TaskId(local.task) == id || InRest(local.cont, id))
  }

  /** Claimed exactly once since `g`; if it is still pending, its attempts are not exhausted,
      unless the scan is still at it. */
  predicate ClaimedOnce(o: Options, g: Group, h: Group, id: nat, open: bool)
    requires id in g.pending
  {
    && h.deliveries[id] == g.deliveries[id] + 1
    && (id in h.pending ==> h.pending[id].count == g.pending[id].count + 1 && (open || h.pending[id].count <= o.maxAttempts))
  }

  /** Dropped, because it had been trimmed from the stream. */
  predicate Dropped(g: Group, h: Group, id: nat) {
    h.deliveries[id] == g.deliveries[id] && id !in h.pending && id !in h.entries
  }

  predicate EntryScanned(o: Options, s: System, t: System, id: nat)
    requires id in s.group.pending
  {
    if Ahead(t.At(0), id) then
      && Eligible(o, t.group, id)
      && t.group.deliveries[id] == s.group.deliveries[id]
      && t.group.pending[id].count == s.group.pending[id].count
    else
      ClaimedOnce(o, s.group, t.group, id, Open(t.At(0), id)) || Dropped(s.group, t.group, id)
  }

  ghost predicate ScanInvariant(o: Options, s: System, t: System) {
    var local, g := t.At(0), t.group;
    && Orderly(local)
    && (forall id: nat :: Open(local, id) ==> !Ahead(local, id))
    && (local.Busy? && local.task.CallHandler? && local.task.id in g.pending ==>
          g.pending[local.task.id].count <= o.maxAttempts)
    && g.cursor == s.group.cursor <= g.last
    && g.pending.Keys <= s.group.pending.Keys
    && (forall id: nat :: id in g.pending ==> 0 < id <= g.cursor)
    && (forall id: nat :: Eligible(o, s.group, id) ==> id <= g.cursor && EntryScanned(o, s, t, id))
  }

  lemma ResumeScan(task: Task, k: Cont)
    requires Orderly(Busy(task, k))
    ensures forall id: nat :: Open(Resume(k), id) <==> InRest(k, id)
    ensures k.InPage? ==> forall id: nat :: Ahead(Resume(k), id) <==> Ahead(Busy(task, k), id)
    ensures k.InPage? ==> !(Resume(k).Busy? && Resume(k).task.CallHandler?)
  {
    ResumeOpen(k);
  }

  lemma ResumeOpen(k: Cont)
    ensures forall id: nat :: Open(Resume(k), id) <==> InRest(k, id)
  {
    if k.rest != [] {
      assert forall i :: 0 <= i < |k.rest| - 1 ==> k.rest[1..][i] == k.rest[i + 1];
      forall id: nat
        ensures Open(Resume(k), id) <==> InRest(k, id)
      {
        if InRest(k, id) && k.rest[0].id != id {
          var i :| 0 <= i < |k.rest| && k.rest[i].id == id;
          assert k.rest[1..][i - 1].id == id;
        }
      }
    }
  }

  /** One entry under one claim. */
  lemma ClaimOne(o: Options, g: Group, start: nat, bound: nat, id: nat)
    requires CanClaim(o, g, start, bound) && id in g.pending && id <= g.cursor
    ensures var (h, page, next) := Claim(o, g, start, bound);
      var taken := start <= id < bound && id in g.entries && g.pending[id].idle >= o.minIdle;
      && h.entries == g.entries
      && h.deliveries[id] == g.deliveries[id] + (if taken then 1 else 0)
      && (taken <==> exists msg :: msg in page && msg.id == id)
      && (id !in h.pending <==> start <= id < bound && id !in g.entries)
      && (id in h.pending ==> h.pending[id] == if taken then Pel(g.pending[id].count + 1, 0) else g.pending[id])
      && (id in h.pending && id >= bound ==> next != 0 && id >= next)
      && (next != 0 ==> next >= bound)
  {
    hide Listing;
    ListingIsExact(Claimable(o, g, start, bound), bound);
    var taken := Claimable(o, g, start, bound);
    if id in taken {
      assert Message(id, taken[id]) in Listing(taken, bound);
    }
  }

  lemma ClaimScansEntry(o: Options, s: System, t: System, start: nat, bound: nat, id: nat)
    requires id in s.group.pending && id <= t.group.cursor && EntryScanned(o, s, t, id)
    requires t.At(0) == Claiming(start) && CanClaim(o, t.group, start, bound)
    ensures EntryScanned(o, s, Advance(o, t, 0, Ok, bound), id)
  {
    hide Listing, Resume, CanClaim, Claim;
    var (g, page, next) := Claim(o, t.group, start, bound);
    PageIsAscending(o, t.group, start, bound);
    PageResumes(page, next);
    if id in t.group.pending {
      ClaimOne(o, t.group, start, bound, id);
    } else {
      ClaimOther(o, t.group, start, bound, id);
    }
  }

  lemma ClaimOther(o: Options, g: Group, start: nat, bound: nat, id: nat)
    requires CanClaim(o, g, start, bound) && id !in g.pending
    ensures var (h, page, next) := Claim(o, g, start, bound);
      h.entries == g.entries && h.deliveries[id] == g.deliveries[id] && id !in h.pending
  {
  }

  lemma PageIsAscending(o: Options, g: Group, start: nat, bound: nat)
    requires CanClaim(o, g, start, bound)
    ensures Ascending(Claim(o, g, start, bound).1)
    ensures forall msg :: msg in Claim(o, g, start, bound).1 ==> msg.id < bound
    ensures var next := Claim(o, g, start, bound).2;
      next != 0 ==> start < bound <= next <= g.cursor
  {
    hide Listing;
    ListingIsExact(Claimable(o, g, start, bound), bound);
  }

  lemma ClaimScans(o: Options, s: System, t: System, start: nat, bound: nat)
    requires ScanInvariant(o, s, t) && t.At(0) == Claiming(start) && CanClaim(o, t.group, start, bound)
    ensures ScanInvariant(o, s, Advance(o, t, 0, Ok, bound))
  {
    hide Listing, Resume, Orderly, EntryScanned;
    var (g, page, next) := Claim(o, t.group, start, bound);
    PageIsAscending(o, t.group, start, bound);
    PageResumes(page, next);
    forall id: nat | Eligible(o, s.group, id)
      ensures EntryScanned(o, s, Advance(o, t, 0, Ok, bound), id)
    {
      ClaimScansEntry(o, s, t, start, bound, id);
    }
  }

  lemma PageResumes(page: seq<Message>, next: nat)
    requires Ascending(page)
    ensures Orderly(Resume(InPage(page, next)))
    ensures forall id: nat :: Open(Resume(InPage(page, next)), id) <==> exists msg :: msg in page && msg.id == id
    ensures forall id: nat :: Ahead(Resume(InPage(page, next)), id) <==> next != 0 && id >= next
    ensures !(Resume(InPage(page, next)).Busy? && Resume(InPage(page, next)).task.CallHandler?)
  {
    var k := InPage(page, next);
    ResumeOpen(k);
    RestIsOrderly(k);
    forall id: nat
      ensures InRest(k, id) <==> exists msg :: msg in page && msg.id == id
    {
      if msg :| msg in page && msg.id == id {
        var i :| 0 <= i < |page| && page[i] == msg;
      }
    }
  }

  lemma PerformScans(o: Options, s: System, t: System, task: Task, k: Cont, outcome: Outcome)
    requires ScanInvariant(o, s, t) && t.At(0) == Busy(task, k) && k.InPage?
    requires outcome == Ok || task.CallHandler?
    ensures ScanInvariant(o, s, Perform(o, t, 0, task, k, outcome))
  {
    hide Resume, Orderly, InRest;
    AfterTask(task, k);
    ResumeScan(task, k);
    TaskStaysOrderly(o, t, task, k, outcome);
    var u := Perform(o, t, 0, task, k, outcome);
    assert forall id: nat :: Open(u.At(0), id) ==> Open(Busy(task, k), id);
    assert u.At(0).Busy? && u.At(0).task.CallHandler? && u.At(0).task.id in u.group.pending ==>
      u.group.pending[u.At(0).task.id].count <= o.maxAttempts;
    forall id: nat | Eligible(o, s.group, id)
      ensures id <= u.group.cursor && EntryScanned(o, s, u, id)
    {
      assert EntryScanned(o, s, t, id);
    }
  }

  lemma EnvironmentScans(o: Options, s: System, t: System, a: Action)
    requires ScanInvariant(o, s, t) && (a.Produce? || a.Trim? || a.Tick?)
    ensures ScanInvariant(o, s, Next(o, t, a))
  {
    hide Orderly, InRest;
  }

  lemma {:induction false} ScanKeeps(o: Options, s: System, acts: seq<Action>)
    requires Sound(s.group) && s.At(0) == Claiming(0) && Scanning(o, s, acts)
    ensures ScanInvariant(o, s, After(o, s, acts))
  {
    hide ScanInvariant, Perform;
    if acts == [] {
      ScanStarts(o, s);
    } else {
      var before, last := After(o, s, acts[..|acts| - 1]), acts[|acts| - 1];
      ScanKeeps(o, s, acts[..|acts| - 1]);
      match last {
        case Act(_, outcome, bound) =>
          match before.At(0) {
            case Claiming(start) => ClaimStep(o, s, before, start, bound);
            case Busy(task, k) => PerformScans(o, s, before, task, k, outcome);
            case Reading =>
          }
        case Crash(_) =>
        case _ => EnvironmentScans(o, s, before, last);
      }
    }
  }

  lemma ClaimStep(o: Options, s: System, t: System, start: nat, bound: nat)
    requires ScanInvariant(o, s, t) && t.At(0) == Claiming(start)
    ensures ScanInvariant(o, s, Advance(o, t, 0, Ok, bound))
  {
    hide ScanInvariant, Claim;
    if CanClaim(o, t.group, start, bound) {
      ClaimScans(o, s, t, start, bound);
    }
  }

  lemma ScanStarts(o: Options, s: System)
    requires Sound(s.group) && s.At(0) == Claiming(0)
    ensures ScanInvariant(o, s, s)
  {
    IdleIsOrderly(s.At(0));
  }

  /** What a pass from `g` to `h` does. */
  ghost predicate Recovered(o: Options, g: Group, h: Group) {
    && h.cursor == g.cursor && h.pending.Keys <= g.pending.Keys
    && forall id: nat :: Eligible(o, g, id) ==> ClaimedOnce(o, g, h, id, false) || Dropped(g, h, id)
  }

  /** However the server cuts the pending list into pages, and although entries leave it while
      it is being scanned, a pass claims every entry that was eligible when it began exactly
      once, unless it was trimmed from the stream; and those that are still pending afterwards
      have attempts left. */
  lemma PassCoversEverything(o: Options, s: System, acts: seq<Action>)
    requires Sound(s.group) && IsPass(o, s, acts)
    ensures Recovered(o, s.group, After(o, s, acts).group)
  {
    ScanKeeps(o, s, acts);
    var t := After(o, s, acts);
    forall id: nat | Eligible(o, s.group, id)
      ensures ClaimedOnce(o, s.group, t.group, id, false) || Dropped(s.group, t.group, id)
    {
      assert EntryScanned(o, s, t, id);
    }
  }

  // ---------- The measure ----------

  /** MaxAttempts + 1 - count, and 1 for an entry whose count is over MaxAttempts already
      because its dead-lettering failed. */
  function Weight(o: Options, p: Pel): (w: nat)
    ensures w > 0
  {
    if p.count <= o.maxAttempts then o.maxAttempts + 1 - p.count else 1
  }

  function Measure(o: Options, pending: map<nat, Pel>, hi: nat): nat {
    if hi == 0 then 0
    else Measure(o, pending, hi - 1) + (if hi - 1 in pending then Weight(o, pending[hi - 1]) else 0)
  }

  predicate AllEligible(o: Options, g: Group) {
    forall id :: id in g.pending ==> g.pending[id].idle >= o.minIdle
  }

  lemma {:induction false} MeasureShrinks(o: Options, g: Group, h: Group, hi: nat)
    requires Recovered(o, g, h) && AllEligible(o, g)
    ensures Measure(o, h.pending, hi) <= Measure(o, g.pending, hi)
    ensures (exists id :: id in g.pending && id < hi) ==> Measure(o, h.pending, hi) < Measure(o, g.pending, hi)
  {
    if hi > 0 {
      MeasureShrinks(o, g, h, hi - 1);
      assert hi - 1 in g.pending ==> Eligible(o, g, hi - 1);
    }
  }

  /** Every pass over a non-empty pending list makes progress, whatever the handler does. */
  lemma PassDecreases(o: Options, s: System, acts: seq<Action>)
    requires Sound(s.group) && IsPass(o, s, acts) && AllEligible(o, s.group) && s.group.pending != map[]
    ensures var t := After(o, s, acts);
      Measure(o, t.group.pending, t.group.cursor + 1) < Measure(o, s.group.pending, s.group.cursor + 1)
  {
    hide After, IsPass, Measure;
    PassCoversEverything(o, s, acts);
    var id :| id in s.group.pending;
    MeasureShrinks(o, s.group, After(o, s, acts).group, s.group.cursor + 1);
  }

  // ---------- Draining the pending list ----------

  /** The consumer reads and handles new entries until its next pass; anything may fail. */
  ghost predicate Interlude(o: Options, s: System, acts: seq<Action>) {
    if acts == [] then true
    else
      var before := After(o, s, acts[..|acts| - 1]);
      Interlude(o, s, acts[..|acts| - 1]) && !InScan(before.At(0)) && Alone(acts[|acts| - 1..]) && !acts[|acts| - 1].Crash?
  }

  /** Entries leave the pending list, with their counts as they were; none returns. */
  ghost predicate OnlyLeave(g: Group, h: Group) {
    && g.cursor <= h.cursor
    && forall id: nat :: id <= g.cursor && id in h.pending ==> id in g.pending && h.pending[id].count == g.pending[id].count
  }

  lemma StepOnlyLeaves(o: Options, s: System, a: Action)
    requires !InScan(s.At(0)) && (a.Act? ==> a.consumer == 0) && !a.Crash?
    ensures OnlyLeave(s.group, Next(o, s, a).group)
  {
    hide Listing, Resume, HandleTask;
  }

  lemma {:induction false} InterludeKeeps(o: Options, s: System, acts: seq<Action>)
    requires Interlude(o, s, acts)
    ensures OnlyLeave(s.group, After(o, s, acts).group)
  {
    hide Next;
    if acts != [] {
      InterludeKeeps(o, s, acts[..|acts| - 1]);
      assert acts[|acts| - 1] in acts[|acts| - 1..];
      StepOnlyLeaves(o, After(o, s, acts[..|acts| - 1]), acts[|acts| - 1]);
    }
  }

  datatype Round = Round(pass: seq<Action>, interlude: seq<Action>)

  function AfterRounds(o: Options, s: System, rounds: seq<Round>): System {
    if rounds == [] then s
    else
      var round := rounds[|rounds| - 1];
      After(o, After(o, AfterRounds(o, s, rounds[..|rounds| - 1]), round.pass), round.interlude)
  }

  /** Rounds of the consumer's loop. */
  ghost predicate AreRounds(o: Options, s: System, rounds: seq<Round>) {
    if rounds == [] then true
    else
      var t, round := AfterRounds(o, s, rounds[..|rounds| - 1]), rounds[|rounds| - 1];
      && AreRounds(o, s, rounds[..|rounds| - 1])
      && IsPass(o, t, round.pass) && Interlude(o, After(o, t, round.pass), round.interlude)
  }

  /** When a pass starts, every pending entry has been idle for long enough. */
  ghost predicate Patient(o: Options, s: System, rounds: seq<Round>) {
    forall n :: 0 <= n < |rounds| ==> AllEligible(o, AfterRounds(o, s, rounds[..n]).group)
  }

  lemma {:induction false} AfterKeeps(o: Options, s: System, acts: seq<Action>)
    requires Invariant(o, s)
    ensures Invariant(o, After(o, s, acts)) && Grows(s, After(o, s, acts))
  {
    hide Next, Invariant;
    if acts != [] {
      AfterKeeps(o, s, acts[..|acts| - 1]);
      NextKeeps(o, After(o, s, acts[..|acts| - 1]), acts[|acts| - 1]);
    }
  }

  /** An entry that is still pending was claimed in every round and has attempts left. */
  lemma {:induction false} RoundsCount(o: Options, s: System, rounds: seq<Round>, id: nat)
    requires Invariant(o, s) && AreRounds(o, s, rounds) && Patient(o, s, rounds) && id in s.group.pending
    ensures var t := AfterRounds(o, s, rounds);
      && Invariant(o, t) && t.group.cursor >= s.group.cursor
      && (id in t.group.pending ==>
            && t.group.pending[id].count == s.group.pending[id].count + |rounds|
            && (rounds != [] ==> t.group.pending[id].count <= o.maxAttempts))
  {
    hide After, IsPass, Interlude, Invariant;
    if rounds != [] {
      var init, round := rounds[..|rounds| - 1], rounds[|rounds| - 1];
      assert forall n :: 0 <= n < |init| ==> init[..n] == rounds[..n];
      RoundsCount(o, s, init, id);
      var t := AfterRounds(o, s, init);
      var u := After(o, t, round.pass);
      InvariantIsSound(o, s);
      InvariantIsSound(o, t);
      AfterKeeps(o, t, round.pass);
      AfterKeeps(o, u, round.interlude);
      PassCoversEverything(o, t, round.pass);
      InterludeKeeps(o, u, round.interlude);
      PendingIsCounted(s.group, id);
      assert id in t.group.pending ==> Eligible(o, t.group, id);
    }
  }

  lemma InvariantIsSound(o: Options, s: System)
    requires Invariant(o, s)
    ensures Sound(s.group)
  {
  }

  /** With a lone consumer, MaxAttempts of at least 1, and entries idle for long enough at each
      pass, every entry pending now is gone after at most MaxAttempts rounds, whatever the
      handler does; and then it was handled, dead-lettered or trimmed. */
  lemma Drained(o: Options, s: System, rounds: seq<Round>, id: nat)
    requires Invariant(o, s) && AreRounds(o, s, rounds) && Patient(o, s, rounds) && |rounds| >= o.maxAttempts >= 1
    requires id in s.group.pending
    ensures var t := AfterRounds(o, s, rounds);
      && id !in t.group.pending
      && (id in t.handled || id !in t.group.entries ||
            match s.group.issued[id]
            case Missing => DeadEntry(id, "") in t.group.dead
            case Malformed(text) => DeadEntry(id, text) in t.group.dead
            case Wellformed(text, _) => DeadEntry(id, text) in t.group.dead)
  {
    hide AfterRounds, AreRounds, LocalsOk, DeadOk, LogOk;
    RoundsCount(o, s, rounds, id);
    PendingIsCounted(s.group, id);
    RoundsGrow(o, s, rounds);
  }

  lemma {:induction false} RoundsGrow(o: Options, s: System, rounds: seq<Round>)
    requires Invariant(o, s)
    ensures Invariant(o, AfterRounds(o, s, rounds)) && Grows(s, AfterRounds(o, s, rounds))
  {
    hide After, Invariant;
    if rounds != [] {
      var t := AfterRounds(o, s, rounds[..|rounds| - 1]);
      RoundsGrow(o, s, rounds[..|rounds| - 1]);
      AfterKeeps(o, t, rounds[|rounds| - 1].pass);
      AfterKeeps(o, After(o, t, rounds[|rounds| - 1].pass), rounds[|rounds| - 1].interlude);
    }
  }
}
