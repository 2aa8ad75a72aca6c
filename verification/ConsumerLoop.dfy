/**
 The consumer's own loop, a lone consumer of its group. Every command it issues is one step of
 the delivery machine, so all that holds of the machine's runs holds of the loop.
 */
module ConsumerLoop {
  import opened Basics
  import opened Events
  import opened RedisGroup
  import opened Delivery
  import opened Attempts
  import opened Recovery

  /** Producers, trimming, time. */
  type Ambient = a: Action | a.Produce? || a.Trim? || a.Tick? witness Tick(0)

  /** The world's part in one call: what happened since the last one, whether the command fails
      and how much of the stream or the pending list the server looks at. A prompt server does
      not let a read time out while there is something to read. */
  datatype Answer = Answer(meanwhile: seq<Ambient>, outcome: Outcome, bound: nat, handled: bool, prompt: bool)

  // ---------- Runs in pieces ----------

  lemma {:induction false} InterludeAppend(o: Options, s: System, a: seq<Action>, b: seq<Action>)
    requires Interlude(o, s, a) && Interlude(o, After(o, s, a), b)
    ensures Interlude(o, s, a + b)
  {
    hide Next;
    if b == [] {
      assert a + b == a;
    } else {
      InterludeAppend(o, s, a, b[..|b| - 1]);
      AfterAppend(o, s, a, b[..|b| - 1]);
      assert (a + b)[..|a + b| - 1] == a + b[..|b| - 1];
      assert (a + b)[|a + b| - 1..] == b[|b| - 1..];
    }
  }

  /** Same handler calls, dead letters, pending entries and counts. */
  ghost predicate Alike(s: System, t: System) {
    && t.log == s.log && t.handled == s.handled && t.group.dead == s.group.dead
    && t.group.pending.Keys == s.group.pending.Keys
    && (forall id :: id in s.group.pending ==> t.group.pending[id].count == s.group.pending[id].count)
  }

  /** Entries are never rewritten. */
  ghost predicate SameEntries(g: Group, h: Group) {
    && g.last <= h.last
    && (forall id: nat :: id <= g.last && id in h.entries ==> id in g.entries && h.entries[id] == g.entries[id])
  }

  ghost predicate NoneBeyond(g: Group) {
    g.cursor <= g.last && forall id :: id in g.entries ==> id <= g.last
  }

  /** While the world acts the consumer stays where it is, and so does all it did. */
  lemma {:induction false} Meanwhile(o: Options, s: System, acts: seq<Ambient>)
    ensures var t := After(o, s, acts);
      t.locals == s.locals && t.group.cursor == s.group.cursor && Alike(s, t) && SameEntries(s.group, t.group)
    ensures NoneBeyond(s.group) ==> NoneBeyond(After(o, s, acts).group)
    ensures InScan(s.At(0)) ==> Scanning(o, s, acts)
    ensures !InScan(s.At(0)) ==> Interlude(o, s, acts)
  {
    if acts != [] {
      Meanwhile(o, s, acts[..|acts| - 1]);
      assert acts[|acts| - 1..] == [acts[|acts| - 1]];
    }
  }

  lemma SingleStep(o: Options, s: System, a: Action)
    requires (a.Act? ==> a.consumer == 0) && !a.Crash?
    ensures After(o, s, [a]) == Next(o, s, a)
    ensures InScan(s.At(0)) && Reliable(s, a) ==> Scanning(o, s, [a])
    ensures !InScan(s.At(0)) ==> Interlude(o, s, [a])
  {
    hide Next;
    assert [a][..0] == [] && [a][0..] == [a];
  }

  ghost predicate NoProduce(acts: seq<Action>) {
    forall a :: a in acts ==> !a.Produce?
  }

  /** No entry was added. */
  ghost predicate Shrinks(g: Group, h: Group) {
    h.last == g.last && h.entries.Keys <= g.entries.Keys && h.cursor >= g.cursor
  }

  lemma {:induction false} NoProduceShrinks(o: Options, s: System, acts: seq<Action>)
    requires NoProduce(acts)
    ensures Shrinks(s.group, After(o, s, acts).group)
  {
    hide Next;
    if acts != [] {
      NoProduceShrinks(o, s, acts[..|acts| - 1]);
      StepShrinks(o, After(o, s, acts[..|acts| - 1]), acts[|acts| - 1]);
    }
  }

  lemma StepShrinks(o: Options, s: System, a: Action)
    requires !a.Produce?
    ensures Shrinks(s.group, Next(o, s, a).group)
  {
    hide Listing, Resume, HandleTask;
  }

  lemma ShrinksKeepsRead(g: Group, h: Group)
    requires Shrinks(g, h)
    ensures NothingUnread(g) ==> NothingUnread(h)
    ensures NoneBeyond(g) && h.cursor <= h.last ==> NoneBeyond(h)
  {
  }

  /** `acts` lead from `s` to `t`, and are the steps of a pass if `s` is in one and no command
      fails, or of the interlude between two passes. */
  ghost predicate Trace(o: Options, quiet: bool, still: bool, s: System, acts: seq<Action>, t: System) {
    && t == After(o, s, acts) && Alone(acts) && (still ==> NoProduce(acts)) && t.group.cursor >= s.group.cursor
    && (InScan(s.At(0)) ==> t.group.cursor == s.group.cursor && (quiet ==> Scanning(o, s, acts)))
    && (!InScan(s.At(0)) ==> Interlude(o, s, acts))
  }

  lemma TraceAppend(o: Options, quiet: bool, still: bool, s: System, a: seq<Action>, t: System, b: seq<Action>, u: System)
    requires Trace(o, quiet, still, s, a, t) && Trace(o, quiet, still, t, b, u) && InScan(s.At(0)) == InScan(t.At(0))
    ensures Trace(o, quiet, still, s, a + b, u)
  {
    hide After, Scanning, Interlude;
    AfterAppend(o, s, a, b);
    if InScan(s.At(0)) {
      if quiet {
        ScanningAppend(o, s, a, b);
      }
    } else {
      InterludeAppend(o, s, a, b);
    }
  }

  // ---------- What handling one entry comes to ----------

  /** The entry may have been acknowledged, surely if no command failed; no other one was. */
  ghost predicate Released(quiet: bool, g: Group, h: Group, id: nat) {
    h.pending.Keys == g.pending.Keys - {id} || (!quiet && h.pending.Keys == g.pending.Keys)
  }

  /** The handler was called once. Only if it succeeded was the entry acknowledged. */
  ghost predicate HandledOnce(quiet: bool, s: System, t: System, id: nat) {
    && t.log == s.log + [id] && t.group.dead == s.group.dead
    && ((t.handled == s.handled + {id} && Released(quiet, s.group, t.group, id))
        || (t.handled == s.handled && t.group.pending.Keys == s.group.pending.Keys))
  }

  /** The entry was copied to the dead-letter stream; only if that succeeded was it acknowledged. */
  ghost predicate DeadLettered(quiet: bool, s: System, t: System, id: nat, raw: string) {
    && t.log == s.log && t.handled == s.handled
    && ((t.group.dead == s.group.dead + [DeadEntry(id, raw)] && Released(quiet, s.group, t.group, id))
        || (!quiet && t.group.dead == s.group.dead && t.group.pending.Keys == s.group.pending.Keys))
  }

  /** Or it was acknowledged without a copy, having been trimmed, or left alone. */
  ghost predicate DeadLetteredOrTrimmed(quiet: bool, s: System, t: System, id: nat) {
    || (id in s.group.entries &&
          match s.group.entries[id]
          case Missing => DeadLettered(quiet, s, t, id, "")
          case Malformed(text) => DeadLettered(quiet, s, t, id, text)
          case Wellformed(text, _) => DeadLettered(quiet, s, t, id, text))
    || (t.log == s.log && t.handled == s.handled && t.group.dead == s.group.dead
        && id !in t.group.entries && Released(quiet, s.group, t.group, id))
    || (!quiet && Alike(s, t))
  }

  /** What `msg` calls for. */
  ghost predicate Processed(quiet: bool, s: System, t: System, msg: Message) {
    match msg.envelope
    case Missing => DeadLettered(quiet, s, t, msg.id, "")
    case Malformed(text) => DeadLettered(quiet, s, t, msg.id, text)
    case Wellformed(_, _) => HandledOnce(quiet, s, t, msg.id)
  }

  predicate Exhausted(o: Options, g: Group, id: nat) {
    id in g.pending && g.pending[id].count > o.maxAttempts
  }

  lemma AdvanceClaim(o: Options, s: System, start: nat, outcome: Outcome, bound: nat)
    requires s.At(0) == Claiming(start) && CanClaim(o, s.group, start, bound)
    ensures var t := Advance(o, s, 0, outcome, bound);
      var (_, page, next) := Claim(o, s.group, start, bound);
      && t.group.cursor == s.group.cursor
      && t.At(0) == (if outcome == Ok then Resume(InPage(page, next)) else Reading)
      && (next != 0 ==> start < next <= s.group.cursor)
  {
    hide Listing, CanClaim, Resume;
    PageIsAscending(o, s.group, start, bound);
  }

  lemma PageFits(o: Options, g: Group, start: nat, bound: nat)
    requires CanClaim(o, g, start, bound)
    ensures |Claim(o, g, start, bound).1| <= 64
  {
  }

  lemma BatchFits(g: Group, bound: nat)
    requires CanRead(g, bound)
    ensures |Read(g, bound).1| <= 10
  {
  }

  lemma AdvanceRead(o: Options, s: System, outcome: Outcome, bound: nat)
    requires s.At(0) == Reading
    ensures Advance(o, s, 0, outcome, bound).At(0) ==
      if outcome == Ok && CanRead(s.group, bound) then Resume(InBatch(Read(s.group, bound).1)) else Claiming(0)
    ensures outcome == Ok && CanRead(s.group, bound) ==> Advance(o, s, 0, outcome, bound).group.cursor > s.group.cursor
    ensures !CanRead(s.group, bound) ==> Advance(o, s, 0, outcome, bound).group == s.group
  {
    hide Listing, Resume, Unread;
  }

  lemma SoundIsNoneBeyond(g: Group)
    requires Sound(g)
    ensures NoneBeyond(g)
  {
  }

  lemma ReadToTheEnd(g: Group)
    requires NoneBeyond(g) && g.cursor >= g.last
    ensures NothingUnread(g)
  {
  }

  lemma {:induction false} CursorStaysInside(o: Options, s: System, acts: seq<Action>)
    requires NoneBeyond(s.group)
    ensures NoneBeyond(After(o, s, acts).group)
  {
    hide Next;
    if acts != [] {
      CursorStaysInside(o, s, acts[..|acts| - 1]);
      StepStaysInside(o, After(o, s, acts[..|acts| - 1]), acts[|acts| - 1]);
    }
  }

  lemma StepStaysInside(o: Options, s: System, a: Action)
    requires NoneBeyond(s.group)
    ensures NoneBeyond(Next(o, s, a).group)
  {
    hide Listing, Resume, HandleTask;
  }

  class Consumer {
    const o: Options
    const world: nat -> Answer
    var sys: System
    var calls: nat

    constructor (o: Options, world: nat -> Answer, sys: System)
      ensures this.o == o && this.world == world && this.sys == sys && calls == 0
    {
      this.o, this.world, this.sys, calls := o, world, sys, 0;
    }

    /** Redis commands do not fail. The handler still may. */
    ghost predicate Quiet() {
      forall n :: world(n).outcome == Ok
    }

    /** Nothing is published. */
    ghost predicate Still() {
      forall n :: NoProduce(world(n).meanwhile)
    }

    ghost predicate Prompt() {
      forall n :: world(n).prompt
    }

    /** The next command, or handler call. Gives the state it met and how it went. */
    method Issue() returns (met: System, outcome: Outcome, bound: nat, ghost acts: seq<Action>)
      modifies this
      ensures met.locals == old(sys).locals && met.group.cursor == old(sys).group.cursor
      ensures Alike(old(sys), met) && SameEntries(old(sys).group, met.group)
      ensures sys == Advance(o, met, 0, outcome, bound) && sys == After(o, old(sys), acts) && Alone(acts)
      ensures met.At(0).Claiming? ==> CanClaim(o, met.group, met.At(0).start, bound)
      ensures Quiet() ==> outcome == Ok || (met.At(0).Busy? && met.At(0).task.CallHandler?)
      ensures Quiet() && InScan(old(sys).At(0)) ==> Scanning(o, old(sys), acts)
      ensures !InScan(old(sys).At(0)) ==> Interlude(o, old(sys), acts)
      ensures Still() ==> NoProduce(acts)
      ensures Prompt() && met.At(0) == Reading && NoneBeyond(old(sys).group) ==> CanRead(met.group, bound) || NothingUnread(met.group)
    {
      hide Advance, After, Scanning, Interlude;
      var answer := world(calls);
      calls := calls + 1;
      met := After(o, sys, answer.meanwhile);
      Meanwhile(o, sys, answer.meanwhile);
      outcome, bound := answer.outcome, answer.bound;
      match met.At(0) {
        case Claiming(start) =>
          if !CanClaim(o, met.group, start, bound) {
            bound := start + 1;
            ListingFits(Claimable(o, met.group, start, bound), start, bound);
          }
        case Reading =>
          if answer.prompt && !CanRead(met.group, bound) {
            var id := FirstUnread(met.group, met.group.cursor + 1, met.group.last + 1);
            if id != met.group.cursor {
              FirstUnreadIsReadable(met.group, id);
              bound := id;
            }
          }
        case Busy(CallHandler(_, _), _) =>
          outcome := if answer.handled then Ok else Refused;
        case _ =>
      }
      var act := Act(0, outcome, bound);
      SingleStep(o, met, act);
      AfterAppend(o, sys, answer.meanwhile, [act]);
      if InScan(met.At(0)) {
        if Reliable(met, act) {
          ScanningAppend(o, sys, answer.meanwhile, [act]);
        }
      } else {
        InterludeAppend(o, sys, answer.meanwhile, [act]);
      }
      acts := answer.meanwhile + [act];
      sys := Advance(o, met, 0, outcome, bound);
    }

    // ---------- Redis commands and the handler ----------

    method XAutoClaim(start: nat) returns (page: seq<Message>, next: nat, ok: bool, ghost acts: seq<Action>)
      requires sys.At(0) == Claiming(start)
      modifies this
      ensures Trace(o, Quiet(), Still(), old(sys), acts, sys)
      ensures sys.At(0) == if ok then Resume(InPage(page, next)) else Reading
      ensures ok && next != 0 ==> start < next <= sys.group.cursor
      ensures |page| <= 64
      ensures Quiet() ==> ok
    {
      page, next := [], 0;
      hide Claim, Advance, After, Scanning, Interlude, Resume, CanClaim;
      var met, outcome, bound, did := Issue();
      acts := did;
      ok := outcome == Ok;
      if ok {
        var (_, claimed, cursor) := Claim(o, met.group, start, bound);
        page, next := claimed, cursor;
        PageFits(o, met.group, start, bound);
      }
      AdvanceClaim(o, met, start, outcome, bound);
    }

    method XPending(msg: Message, ghost k: Cont) returns (count: Option<nat>, ok: bool, ghost acts: seq<Action>)
      requires sys.At(0) == Busy(CheckPending(msg), k)
      modifies this
      ensures Trace(o, Quiet(), Still(), old(sys), acts, sys)
      ensures sys.At(0) ==
        if !ok then Resume(k)
        else if count.Some? && count.value > o.maxAttempts then Busy(FetchDead(msg.id), k)
        else Busy(HandleTask(msg), k)
      ensures ok ==> count == if msg.id in sys.group.pending then Some(sys.group.pending[msg.id].count) else None
      ensures Alike(old(sys), sys) && SameEntries(old(sys).group, sys.group) && (Quiet() ==> ok)
    {
      var met, outcome, _, did := Issue();
      acts := did;
      ok := outcome == Ok;
      count := if msg.id in met.group.pending then Some(met.group.pending[msg.id].count) else None;
    }

    method XRange(id: nat, ghost k: Cont) returns (entry: Option<Envelope>, ok: bool, ghost acts: seq<Action>)
      requires sys.At(0) == Busy(FetchDead(id), k)
      modifies this
      ensures Trace(o, Quiet(), Still(), old(sys), acts, sys)
      ensures sys.At(0) ==
        if !ok then Resume(k)
        else if entry.Some? then Busy(WriteDead(id, entry.value.Raw()), k)
        else Busy(Acknowledge(id), k)
      ensures ok ==> entry == if id in sys.group.entries then Some(sys.group.entries[id]) else None
      ensures Alike(old(sys), sys) && SameEntries(old(sys).group, sys.group) && (Quiet() ==> ok)
    {
      var met, outcome, _, did := Issue();
      acts := did;
      ok := outcome == Ok;
      entry := if id in met.group.entries then Some(met.group.entries[id]) else None;
    }

    method XAddDead(id: nat, raw: string, ghost k: Cont) returns (ok: bool, ghost acts: seq<Action>)
      requires sys.At(0) == Busy(WriteDead(id, raw), k)
      modifies this
      ensures Trace(o, Quiet(), Still(), old(sys), acts, sys)
      ensures sys.At(0) == if ok then Busy(Acknowledge(id), k) else Resume(k)
      ensures sys.log == old(sys).log && sys.handled == old(sys).handled
      ensures sys.group.pending.Keys == old(sys).group.pending.Keys && SameEntries(old(sys).group, sys.group)
      ensures sys.group.dead == old(sys).group.dead + [DeadEntry(id, raw)] || (!ok && sys.group.dead == old(sys).group.dead)
      ensures Quiet() ==> ok
    {
      var met, outcome, _, did := Issue();
      acts := did;
      ok := outcome == Ok;
    }

    method XAck(id: nat, ghost k: Cont) returns (ok: bool, ghost acts: seq<Action>)
      requires sys.At(0) == Busy(Acknowledge(id), k)
      modifies this
      ensures Trace(o, Quiet(), Still(), old(sys), acts, sys)
      ensures sys.At(0) == Resume(k)
      ensures sys.log == old(sys).log && sys.handled == old(sys).handled && sys.group.dead == old(sys).group.dead
      ensures SameEntries(old(sys).group, sys.group)
      ensures Released(ok, old(sys).group, sys.group, id) && (Quiet() ==> ok)
    {
      var met, outcome, _, did := Issue();
      acts := did;
      ok := outcome == Ok;
    }

    method CallHandler(id: nat, event: Event, ghost k: Cont) returns (ok: bool, ghost acts: seq<Action>)
      requires sys.At(0) == Busy(Task.CallHandler(id, event), k)
      modifies this
      ensures Trace(o, Quiet(), Still(), old(sys), acts, sys)
      ensures sys.At(0) == if ok then Busy(Acknowledge(id), k) else Resume(k)
      ensures sys.log == old(sys).log + [id] && sys.handled == old(sys).handled + (if ok then {id} else {})
      ensures sys.group.dead == old(sys).group.dead && sys.group.pending.Keys == old(sys).group.pending.Keys
    {
      var met, outcome, _, did := Issue();
      acts := did;
      ok := outcome == Ok;
    }

    method XReadGroup() returns (batch: seq<Message>, ok: bool, ghost acts: seq<Action>)
      requires sys.At(0) == Reading
      modifies this
      ensures sys == After(o, old(sys), acts) && Interlude(o, old(sys), acts) && Alone(acts)
      ensures Still() ==> NoProduce(acts)
      ensures Quiet() && Prompt() && NoneBeyond(old(sys).group) ==>
        NothingUnread(sys.group) || sys.group.cursor > old(sys).group.cursor
      ensures sys.At(0) == if ok then Resume(InBatch(batch)) else Claiming(0)
      ensures |batch| <= 10
    {
      batch := [];
      hide Read, CanRead, Advance, After, Interlude, Resume;
      var met, outcome, bound, did := Issue();
      acts := did;
      ok := outcome == Ok && CanRead(met.group, bound);
      if ok {
        batch := Read(met.group, bound).1;
        BatchFits(met.group, bound);
      }
      AdvanceRead(o, met, outcome, bound);
    }

    // ---------- The consumer ----------

    /** Copies one raw envelope to the dead-letter stream and acknowledges the entry. */
    method DeadLetterEntry(id: nat, raw: string, ghost k: Cont) returns (ghost acts: seq<Action>)
      requires sys.At(0) == Busy(WriteDead(id, raw), k)
      modifies this
      ensures Trace(o, Quiet(), Still(), old(sys), acts, sys)
      ensures sys.At(0) == Resume(k)
      ensures DeadLettered(Quiet(), old(sys), sys, id, raw)
    {
      ghost var begin := sys;
      var ok, did := XAddDead(id, raw, k);
      acts := did;
      if !ok {
        return;
      }
      ghost var mid := sys;
      ok, did := XAck(id, k);
      TraceAppend(o, Quiet(), Still(), begin, acts, mid, did, sys);
      acts := acts + did;
    }

    /** Copies an exhausted entry to the dead-letter stream, unless it was trimmed, and
        acknowledges it. */
    method DeadLetter(id: nat, ghost k: Cont) returns (ghost acts: seq<Action>)
      requires sys.At(0) == Busy(FetchDead(id), k)
      modifies this
      ensures Trace(o, Quiet(), Still(), old(sys), acts, sys)
      ensures sys.At(0) == Resume(k)
      ensures id <= old(sys).group.last ==> DeadLetteredOrTrimmed(Quiet(), old(sys), sys, id)
    {
      ghost var begin := sys;
      var entry, ok, did := XRange(id, k);
      acts := did;
      if !ok {
        return;
      }
      ghost var mid := sys;
      if entry.Some? {
        ok, did := XAddDead(id, entry.value.Raw(), k);
        TraceAppend(o, Quiet(), Still(), begin, acts, mid, did, sys);
        acts := acts + did;
        if !ok {
          return;
        }
        mid := sys;
      }
      ok, did := XAck(id, k);
      TraceAppend(o, Quiet(), Still(), begin, acts, mid, did, sys);
      acts := acts + did;
    }

    /** Handles one entry and acknowledges it if that succeeds. */
    method Handle(msg: Message, ghost k: Cont) returns (ghost acts: seq<Action>)
      requires sys.At(0) == Busy(HandleTask(msg), k)
      modifies this
      ensures Trace(o, Quiet(), Still(), old(sys), acts, sys)
      ensures sys.At(0) == Resume(k)
      ensures Processed(Quiet(), old(sys), sys, msg)
    {
      match msg.envelope {
        case Missing =>
          acts := DeadLetterEntry(msg.id, "", k);
        case Malformed(text) =>
          acts := DeadLetterEntry(msg.id, text, k);
        case Wellformed(_, event) =>
          ghost var begin := sys;
          var ok, did := CallHandler(msg.id, event, k);
          acts := did;
          if !ok {
            return;
          }
          ghost var mid := sys;
          ok, did := XAck(msg.id, k);
          TraceAppend(o, Quiet(), Still(), begin, acts, mid, did, sys);
          acts := acts + did;
      }
    }

    /** Handles one claimed entry, or dead-letters it when its attempts are exhausted. */
    method RecoverOne(msg: Message, ghost k: Cont) returns (ghost acts: seq<Action>)
      requires sys.At(0) == Busy(CheckPending(msg), k)
      modifies this
      ensures Trace(o, Quiet(), Still(), old(sys), acts, sys)
      ensures sys.At(0) == Resume(k)
      ensures msg.id <= old(sys).group.last ==>
        || (!Quiet() && Alike(old(sys), sys))
        || (if Exhausted(o, old(sys).group, msg.id) then DeadLetteredOrTrimmed(Quiet(), old(sys), sys, msg.id)
            else Processed(Quiet(), old(sys), sys, msg))
    {
      ghost var begin := sys;
      var count, ok, did := XPending(msg, k);
      acts := did;
      if !ok {
        return;
      }
      ghost var mid := sys;
      if count.Some? && count.value > o.maxAttempts {
        did := DeadLetter(msg.id, k);
      } else {
        did := Handle(msg, k);
      }
      TraceAppend(o, Quiet(), Still(), begin, acts, mid, did, sys);
      acts := acts + did;
    }

    /** One recovery pass. It ends, because the cursor only grows; and if no command fails it
        claims every eligible entry exactly once. */
    method RecoverStuck() returns (ghost acts: seq<Action>)
      requires sys.At(0) == Claiming(0)
      modifies this
      ensures sys == After(o, old(sys), acts) && Alone(acts) && sys.At(0) == Reading
      ensures sys.group.cursor == old(sys).group.cursor && (Still() ==> NoProduce(acts))
      ensures Quiet() ==> IsPass(o, old(sys), acts)
      ensures Quiet() && Sound(old(sys).group) ==> Recovered(o, old(sys).group, sys.group)
    {
      ghost var begin := sys;
      acts := [];
      var start := 0;
      while true
        invariant sys.At(0) == Claiming(start) && (start == 0 || start <= sys.group.cursor)
        invariant sys.group.cursor == begin.group.cursor
        invariant Trace(o, Quiet(), Still(), begin, acts, sys)
        decreases begin.group.cursor - start
      {
        ghost var mid := sys;
        var page, next, ok, did := XAutoClaim(start);
        TraceAppend(o, Quiet(), Still(), begin, acts, mid, did, sys);
        acts := acts + did;
        if !ok {
          break;
        }
        for i := 0 to |page|
          invariant sys.At(0) == Resume(InPage(page[i..], next))
          invariant sys.group.cursor == begin.group.cursor
          invariant Trace(o, Quiet(), Still(), begin, acts, sys)
        {
          mid := sys;
          did := RecoverOne(page[i], InPage(page[i + 1..], next));
          TraceAppend(o, Quiet(), Still(), begin, acts, mid, did, sys);
          acts := acts + did;
        }
        if next == 0 {
          break;
        }
        start := next;
      }
      if Quiet() && Sound(begin.group) {
        PassCoversEverything(o, begin, acts);
      }
    }

    /** The loop, until its context is cancelled after some number of rounds. If no command fails
        these are rounds of the kind that drain the pending list. */
    method Run(n: nat) returns (ghost rounds: seq<Round>)
      requires sys.At(0) == Claiming(0)
      modifies this
      ensures sys == AfterRounds(o, old(sys), rounds) && |rounds| == n && sys.At(0) == Claiming(0)
      ensures Quiet() ==> AreRounds(o, old(sys), rounds)
      ensures Invariant(o, old(sys)) && Bounded(o, old(sys)) && o.maxAttempts >= 1 ==> Invariant(o, sys) && Bounded(o, sys)
      ensures CatchesUp() && Sound(old(sys).group) && n >= old(sys).group.last - old(sys).group.cursor ==> NothingUnread(sys.group)
    {
      hide IsPass, Interlude, After, Invariant, Bounded, Alone, Quiet, Still, Prompt, NoProduce, NothingUnread, NoneBeyond, Sound;
      if Sound(sys.group) {
        SoundIsNoneBeyond(sys.group);
      }
      ghost var begin := sys;
      rounds := [];
      for r := 0 to n
        invariant sys == AfterRounds(o, begin, rounds) && |rounds| == r && sys.At(0) == Claiming(0)
        invariant Quiet() ==> AreRounds(o, begin, rounds)
        invariant Invariant(o, begin) && Bounded(o, begin) && o.maxAttempts >= 1 ==> Invariant(o, sys) && Bounded(o, sys)
        invariant CatchesUp() && Sound(begin.group) ==>
          && NoneBeyond(sys.group) && sys.group.last == begin.group.last
          && (NothingUnread(sys.group) || sys.group.cursor >= begin.group.cursor + r)
      {
        ghost var start := sys;
        ghost var pass := RecoverStuck();
        ghost var mid := sys;
        ghost var interlude := ReadAndHandle();
        if Invariant(o, start) && Bounded(o, start) && o.maxAttempts >= 1 {
          AloneKeepsBounded(o, start, pass);
          AloneKeepsBounded(o, mid, interlude);
        }
        if CatchesUp() && Sound(begin.group) {
          RoundCatchesUp(start, pass, mid, interlude);
        }
        ghost var more := rounds + [Round(pass, interlude)];
        assert more[..|more| - 1] == rounds;
        rounds := more;
      }
      if NoneBeyond(sys.group) && sys.group.cursor >= sys.group.last {
        ReadToTheEnd(sys.group);
      }
    }

    /** No command fails, nothing new is published, and the server offers what there is. */
    ghost predicate CatchesUp() {
      Quiet() && Still() && Prompt()
    }

    lemma RoundCatchesUp(start: System, pass: seq<Action>, mid: System, interlude: seq<Action>)
      requires NoneBeyond(start.group) && NoProduce(pass) && NoProduce(interlude)
      requires mid == After(o, start, pass) && mid.group.cursor == start.group.cursor
      ensures NoneBeyond(mid.group) && mid.group.last == start.group.last
      ensures NothingUnread(start.group) ==> NothingUnread(After(o, mid, interlude).group)
      ensures After(o, mid, interlude).group.last == start.group.last
      ensures NoneBeyond(After(o, mid, interlude).group)
    {
      hide After;
      NoProduceShrinks(o, start, pass);
      NoProduceShrinks(o, mid, interlude);
      CursorStaysInside(o, mid, interlude);
    }

    /** The second half of a round. */
    method ReadAndHandle() returns (ghost acts: seq<Action>)
      requires sys.At(0) == Reading
      modifies this
      ensures sys == After(o, old(sys), acts) && Alone(acts) && sys.At(0) == Claiming(0)
      ensures Interlude(o, old(sys), acts) && (Still() ==> NoProduce(acts))
      ensures Quiet() && Prompt() && Still() && NoneBeyond(old(sys).group) ==>
        NothingUnread(sys.group) || sys.group.cursor > old(sys).group.cursor
    {
      hide NothingUnread;
      ghost var begin := sys;
      var batch, ok, did := XReadGroup();
      acts := did;
      if !ok {
        return;
      }
      for i := 0 to |batch|
        invariant sys.At(0) == Resume(InBatch(batch[i..]))
        invariant sys == After(o, begin, acts) && Interlude(o, begin, acts) && Alone(acts)
        invariant Still() ==> NoProduce(acts)
        invariant Quiet() && Prompt() && Still() && NoneBeyond(begin.group) ==>
          NothingUnread(sys.group) || sys.group.cursor > begin.group.cursor
      {
        ghost var mid := sys;
        did := Handle(batch[i], InBatch(batch[i + 1..]));
        AfterAppend(o, begin, acts, did);
        InterludeAppend(o, begin, acts, did);
        if Still() {
          NoProduceShrinks(o, mid, did);
          ShrinksKeepsRead(mid.group, sys.group);
        }
        acts := acts + did;
      }
    }
  }
}
