/**
 Any number of consumers of one group, as a state machine. One step is one Redis command, or
 one handler call, of one consumer; every command may fail, before or after it took effect.
 */
module Delivery {
  import opened Events
  import opened RedisGroup

  // ---------- Where a consumer is ----------

  /** The next command to issue for one entry. */
  datatype Task =
    | CheckPending(msg: Message)
    | CallHandler(id: nat, event: Event)
    | FetchDead(id: nat)
    | WriteDead(id: nat, raw: string)
    | Acknowledge(id: nat)

  /** What to do after that entry: the rest of a claimed page, or of a batch that was read. */
  datatype Cont = InPage(rest: seq<Message>, next: nat) | InBatch(rest: seq<Message>)

  datatype Local = Claiming(start: nat) | Reading | Busy(task: Task, cont: Cont)

  function HandleTask(msg: Message): Task {
    match msg.envelope
    case Missing => WriteDead(msg.id, "")
    case Malformed(text) => WriteDead(msg.id, text)
    case Wellformed(_, event) => CallHandler(msg.id, event)
  }

  function Resume(k: Cont): Local {
    match k
    case InPage(rest, next) =>
      if rest != [] then Busy(CheckPending(rest[0]), InPage(rest[1..], next))
      else if next != 0 then Claiming(next)
      else Reading
    case InBatch(rest) =>
      if rest != [] then Busy(HandleTask(rest[0]), InBatch(rest[1..])) else Claiming(0)
  }

  // ---------- Steps ----------

  /** Refused: the command failed and did nothing. Lost: it took effect but the consumer saw an
      error. For a handler call, anything but Ok is a returned error. */
  datatype Outcome = Ok | Refused | Lost

  datatype Action =
    | Produce(id: nat, envelope: Envelope)
    | Trim(ids: set<nat>)
    | Tick(elapsed: nat)
    | Crash(consumer: nat)
    | Act(consumer: nat, outcome: Outcome, bound: nat)

  /** `handled` and `log` are history: the entries whose handler returned nil at least once, and
      the entries of all handler calls in order. */
  datatype System = System(group: Group, locals: map<nat, Local>, handled: set<nat>, log: seq<nat>)
  {
    /** A consumer that has not acted yet is about to start its loop. */
    function At(c: nat): Local {
      if c in locals then locals[c] else Claiming(0)
    }

    function To(c: nat, local: Local): System {
      this.(locals := locals[c := local])
    }
  }

  function Perform(o: Options, s: System, c: nat, task: Task, k: Cont, outcome: Outcome): System {
    match task
    case CheckPending(msg) =>
      if outcome != Ok then s.To(c, Resume(k))
      else if msg.id in s.group.pending && s.group.pending[msg.id].count > o.maxAttempts then
        s.To(c, Busy(FetchDead(msg.id), k))
      else s.To(c, Busy(HandleTask(msg), k))
    case CallHandler(id, _) =>
      if outcome != Ok then s.(log := s.log + [id]).To(c, Resume(k))
      else s.(log := s.log + [id], handled := s.handled + {id}).To(c, Busy(Acknowledge(id), k))
    case FetchDead(id) =>
      if outcome != Ok then s.To(c, Resume(k))
      else if id in s.group.entries then s.To(c, Busy(WriteDead(id, s.group.entries[id].Raw()), k))
      else s.To(c, Busy(Acknowledge(id), k))
    case WriteDead(id, raw) =>
      if outcome == Refused then s.To(c, Resume(k))
      else if outcome == Lost then s.(group := Buried(s.group, id, raw)).To(c, Resume(k))
      else s.(group := Buried(s.group, id, raw)).To(c, Busy(Acknowledge(id), k))
    case Acknowledge(id) =>
      if outcome == Refused then s.To(c, Resume(k)) else s.(group := Acked(s.group, id)).To(c, Resume(k))
  }

  /** A failed claim ends the recovery pass; a read that fails or times out starts the next round.
      A claim waits while the server has no page to offer at `bound`. */
  function Advance(o: Options, s: System, c: nat, outcome: Outcome, bound: nat): System {
    match s.At(c)
    case Claiming(start) =>
      if outcome == Refused then s.To(c, Reading)
      else if !CanClaim(o, s.group, start, bound) then s
      else
        var (g, page, next) := Claim(o, s.group, start, bound);
        s.(group := g).To(c, if outcome == Lost then Reading else Resume(InPage(page, next)))
    case Reading =>
      if outcome == Refused || !CanRead(s.group, bound) then s.To(c, Claiming(0))
      else
        var (g, batch) := Read(s.group, bound);
        s.(group := g).To(c, if outcome == Lost then Claiming(0) else Resume(InBatch(batch)))
    case Busy(task, k) => Perform(o, s, c, task, k, outcome)
  }

  function Next(o: Options, s: System, a: Action): System {
    match a
    case Produce(id, e) => s.(group := Produced(s.group, id, e))
    case Trim(ids) => s.(group := Trimmed(s.group, ids))
    case Tick(d) => s.(group := Ticked(s.group, d))
    case Crash(c) => s.To(c, Claiming(0))
    case Act(c, outcome, bound) => Advance(o, s, c, outcome, bound)
  }

  function After(o: Options, s: System, acts: seq<Action>): System {
    if acts == [] then s else Next(o, After(o, s, acts[..|acts| - 1]), acts[|acts| - 1])
  }

  lemma {:induction false} AfterAppend(o: Options, s: System, a: seq<Action>, b: seq<Action>)
    ensures After(o, s, a + b) == After(o, After(o, s, a), b)
  {
    hide Next;
    if b == [] {
      assert a + b == a;
    } else {
      AfterAppend(o, s, a, b[..|b| - 1]);
      assert (a + b)[..|a + b| - 1] == a + b[..|b| - 1];
    }
  }

  lemma AfterSnoc(o: Options, s: System, acts: seq<Action>, a: Action)
    ensures After(o, s, acts + [a]) == Next(o, After(o, s, acts), a)
  {
    hide Next;
    assert (acts + [a])[..|acts|] == acts;
  }

  /** A group created at the beginning of a stream that may already hold entries. */
  ghost predicate Initial(s: System) {
    && Sound(s.group) && s.group.cursor == 0
    && s.group.dead == []
    && s.locals == map[] && s.handled == {} && s.log == []
  }

  // ---------- The invariant ----------

  /** The entry's own envelope is on the dead-letter stream under the entry's id. */
  predicate OnDeadStream(g: Group, id: nat) {
    id in g.issued && DeadEntry(id, g.issued[id].Raw()) in g.dead
  }

  /** Nothing is lost if this entry is acknowledged. */
  predicate Settled(s: System, id: nat) {
    id in s.handled || OnDeadStream(s.group, id) || id !in s.group.entries
  }

  /** Only an entry without a well-formed envelope, or delivered more than MaxAttempts times,
      may be dead-lettered. */
  predicate MayBury(o: Options, g: Group, id: nat) {
    id in g.issued && (g.issued[id].Wellformed? ==> g.deliveries[id] > o.maxAttempts)
  }

  predicate Genuine(g: Group, id: nat, e: Envelope) {
    id in g.issued && id <= g.cursor && g.issued[id] == e
  }

  predicate TaskOk(o: Options, s: System, task: Task) {
    match task
    case CheckPending(msg) => Genuine(s.group, msg.id, msg.envelope)
    case CallHandler(id, event) =>
      id in s.group.issued && id <= s.group.cursor && s.group.issued[id].Wellformed? && s.group.issued[id].event == event
    case FetchDead(id) => id in s.group.issued && MayBury(o, s.group, id)
    case WriteDead(id, raw) => MayBury(o, s.group, id) && s.group.issued[id].Raw() == raw
    case Acknowledge(id) => id in s.group.issued && Settled(s, id)
  }

  predicate LocalOk(o: Options, s: System, local: Local) {
    local.Busy? ==>
      && TaskOk(o, s, local.task)
      && forall msg :: msg in local.cont.rest ==> Genuine(s.group, msg.id, msg.envelope)
  }

  ghost predicate LocalsOk(o: Options, s: System) {
    forall c :: c in s.locals ==> LocalOk(o, s, s.locals[c])
  }

  /** Every entry the group has read is still pending, or was handled, or is on the dead-letter
      stream, or was trimmed from the stream. */
  ghost predicate NothingLost(s: System) {
    forall id :: id in s.group.issued && id <= s.group.cursor ==> id in s.group.pending || Settled(s, id)
  }

  /** What is on the dead-letter stream belongs there, under its source id. */
  ghost predicate DeadOk(o: Options, g: Group) {
    forall d :: d in g.dead ==> MayBury(o, g, d.sourceId) && d.raw == g.issued[d.sourceId].Raw()
  }

  /** Handlers see only well-formed entries that the group has read. */
  ghost predicate LogOk(s: System) {
    && (forall id :: id in s.handled ==> id in s.log)
    && (forall id :: id in s.log ==> id in s.group.issued && id <= s.group.cursor && s.group.issued[id].Wellformed?)
  }

  ghost predicate Invariant(o: Options, s: System) {
    Sound(s.group) && NothingLost(s) && DeadOk(o, s.group) && LogOk(s) && LocalsOk(o, s)
  }

  // ---------- It holds in every reachable state ----------

  /** What no step takes back. */
  ghost predicate Grows(s: System, t: System) {
    && s.group.cursor <= t.group.cursor && s.group.last <= t.group.last
    && (forall id :: id in s.group.issued ==> id in t.group.issued && t.group.issued[id] == s.group.issued[id])
    && (forall id :: s.group.deliveries[id] <= t.group.deliveries[id])
    && (forall d :: d in s.group.dead ==> d in t.group.dead)
    && s.handled <= t.handled && s.log <= t.log
    && (forall id :: id <= s.group.last && id in t.group.entries ==> id in s.group.entries)
  }

  lemma LocalStaysOk(o: Options, s: System, t: System, local: Local)
    requires Grows(s, t) && Sound(s.group) && LocalOk(o, s, local)
    ensures LocalOk(o, t, local)
  {
  }

  lemma HandleTaskOk(o: Options, s: System, msg: Message)
    requires Genuine(s.group, msg.id, msg.envelope)
    ensures TaskOk(o, s, HandleTask(msg))
  {
  }

  lemma ResumeOk(o: Options, s: System, k: Cont)
    requires forall msg :: msg in k.rest ==> Genuine(s.group, msg.id, msg.envelope)
    ensures LocalOk(o, s, Resume(k))
  {
    if k.rest != [] {
      assert k.rest[0] in k.rest;
      HandleTaskOk(o, s, k.rest[0]);
    }
  }

  /** The part of the invariant that is not about the acting consumer. */
  ghost predicate SharedOk(o: Options, s: System) {
    Sound(s.group) && NothingLost(s) && DeadOk(o, s.group) && LogOk(s)
  }

  lemma SharedIgnoresLocals(o: Options, s: System, t: System)
    requires t == s.(locals := t.locals) && SharedOk(o, s)
    ensures SharedOk(o, t)
  {
  }

  lemma BuryKeeps(o: Options, s: System, id: nat, raw: string)
    requires SharedOk(o, s) && TaskOk(o, s, WriteDead(id, raw))
    ensures var t := s.(group := Buried(s.group, id, raw));
      Grows(s, t) && SharedOk(o, t) && Settled(t, id)
  {
    var t := s.(group := Buried(s.group, id, raw));
    assert DeadEntry(id, raw) in t.group.dead;
    assert forall i :: OnDeadStream(s.group, i) ==> OnDeadStream(t.group, i);
  }

  lemma AckKeeps(o: Options, s: System, id: nat)
    requires SharedOk(o, s) && Settled(s, id)
    ensures var t := s.(group := Acked(s.group, id));
      Grows(s, t) && SharedOk(o, t)
  {
  }

  lemma CallKeeps(o: Options, s: System, id: nat, event: Event, ok: bool)
    requires SharedOk(o, s) && TaskOk(o, s, CallHandler(id, event))
    ensures var t := s.(log := s.log + [id], handled := if ok then s.handled + {id} else s.handled);
      Grows(s, t) && SharedOk(o, t)
  {
  }

  lemma PerformKeeps(o: Options, s: System, c: nat, task: Task, k: Cont, outcome: Outcome)
    requires Invariant(o, s) && LocalOk(o, s, Busy(task, k))
    ensures var t := Perform(o, s, c, task, k, outcome);
      && Grows(s, t) && SharedOk(o, t) && LocalOk(o, t, t.At(c)) && t.locals == s.locals[c := t.At(c)]
  {
    hide Resume, HandleTask, LocalsOk, NothingLost, DeadOk, LogOk, Sound, Acked, Buried;
    ResumeOk(o, s, k);
    var t := Perform(o, s, c, task, k, outcome);
    match task {
      case CheckPending(msg) =>
        HandleTaskOk(o, s, msg);
        PendingIsCounted(s.group, msg.id);
        SharedIgnoresLocals(o, s, t);
      case CallHandler(id, event) =>
        CallKeeps(o, s, id, event, outcome == Ok);
        SharedIgnoresLocals(o, s.(log := t.log, handled := t.handled), t);
        LocalStaysOk(o, s, t, Resume(k));
      case FetchDead(id) =>
        EntryIsIssued(s.group, id);
        SharedIgnoresLocals(o, s, t);
      case WriteDead(id, raw) =>
        BuryKeeps(o, s, id, raw);
        SharedIgnoresLocals(o, if outcome == Refused then s else s.(group := Buried(s.group, id, raw)), t);
        LocalStaysOk(o, s, t, Resume(k));
      case Acknowledge(id) =>
        AckKeeps(o, s, id);
        SharedIgnoresLocals(o, if outcome == Refused then s else s.(group := Acked(s.group, id)), t);
        LocalStaysOk(o, s, t, Resume(k));
    }
  }

  lemma ReadKeeps(o: Options, s: System, bound: nat)
    requires SharedOk(o, s) && CanRead(s.group, bound)
    ensures var t := s.(group := Read(s.group, bound).0);
      Grows(s, t) && SharedOk(o, t)
    ensures forall msg :: msg in Read(s.group, bound).1 ==> Genuine(Read(s.group, bound).0, msg.id, msg.envelope)
  {
    hide Listing, Sound, NothingLost;
    ReadIsSound(s.group, bound);
    ReadLosesNothing(s, bound);
    ListingIsExact(Unread(s.group, bound), bound + 1);
    assert forall id :: id in Unread(s.group, bound) ==> id in s.group.issued && s.group.issued[id] == s.group.entries[id] by {
      forall id ensures id in s.group.entries ==> id in s.group.issued && s.group.entries[id] == s.group.issued[id] {
        EntryIsIssued(s.group, id);
      }
    }
  }

  lemma ReadLosesNothing(s: System, bound: nat)
    requires Sound(s.group) && NothingLost(s) && CanRead(s.group, bound)
    ensures NothingLost(s.(group := Read(s.group, bound).0))
  {
    hide Listing;
  }

  lemma ClaimKeeps(o: Options, s: System, start: nat, bound: nat)
    requires SharedOk(o, s) && CanClaim(o, s.group, start, bound)
    ensures var t := s.(group := Claim(o, s.group, start, bound).0);
      Grows(s, t) && SharedOk(o, t)
    ensures forall msg :: msg in Claim(o, s.group, start, bound).1 ==>
      Genuine(Claim(o, s.group, start, bound).0, msg.id, msg.envelope)
  {
    hide Listing;
    ClaimIsSound(o, s.group, start, bound);
    ListingIsExact(Claimable(o, s.group, start, bound), bound);
  }

  lemma AdvanceKeeps(o: Options, s: System, c: nat, outcome: Outcome, bound: nat)
    requires Invariant(o, s)
    ensures var t := Advance(o, s, c, outcome, bound);
      && Grows(s, t) && SharedOk(o, t) && LocalOk(o, t, t.At(c)) && (t == s || t.locals == s.locals[c := t.At(c)])
  {
    hide Resume, Perform, Claim, Read, CanClaim, CanRead, SharedOk, Sound, NothingLost, DeadOk, LogOk;
    var t := Advance(o, s, c, outcome, bound);
    InvariantIsShared(o, s);
    match s.At(c) {
      case Claiming(start) =>
        if outcome != Refused && CanClaim(o, s.group, start, bound) {
          ClaimKeeps(o, s, start, bound);
          var (g, page, next) := Claim(o, s.group, start, bound);
          ResumeOk(o, t, InPage(page, next));
          SharedIgnoresLocals(o, s.(group := g), t);
        } else {
          SharedIgnoresLocals(o, s, t);
        }
      case Reading =>
        if outcome != Refused && CanRead(s.group, bound) {
          ReadKeeps(o, s, bound);
          var (g, batch) := Read(s.group, bound);
          ResumeOk(o, t, InBatch(batch));
          SharedIgnoresLocals(o, s.(group := g), t);
        } else {
          SharedIgnoresLocals(o, s, t);
        }
      case Busy(task, k) =>
        PerformKeeps(o, s, c, task, k, outcome);
    }
  }

  lemma InvariantIsShared(o: Options, s: System)
    ensures Invariant(o, s) <==> SharedOk(o, s) && LocalsOk(o, s)
  {
  }

  /** Producers, trimming and time. */
  lemma EnvironmentKeeps(o: Options, s: System, a: Action)
    requires SharedOk(o, s) && (a.Produce? || a.Trim? || a.Tick?)
    ensures var t := Next(o, s, a);
      Grows(s, t) && SharedOk(o, t) && t.locals == s.locals
  {
  }

  lemma NextKeeps(o: Options, s: System, a: Action)
    requires Invariant(o, s)
    ensures Invariant(o, Next(o, s, a)) && Grows(s, Next(o, s, a))
  {
    hide Advance, Sound, NothingLost, DeadOk, LogOk, LocalOk, Produced, Trimmed, Ticked;
    var t := Next(o, s, a);
    InvariantIsShared(o, s);
    InvariantIsShared(o, t);
    match a {
      case Act(c, outcome, bound) => AdvanceKeeps(o, s, c, outcome, bound);
      case Crash(c) =>
        SharedIgnoresLocals(o, s, t);
        IdleIsOk(o, t);
      case _ => EnvironmentKeeps(o, s, a);
    }
    forall c | c in t.locals
      ensures LocalOk(o, t, t.locals[c])
    {
      if c in s.locals && t.locals[c] == s.locals[c] {
        LocalStaysOk(o, s, t, s.locals[c]);
      }
    }
  }

  lemma IdleIsOk(o: Options, s: System)
    ensures LocalOk(o, s, Claiming(0))
  {
  }

  /** The delivery guarantee. In every state that any number of consumers can reach, under any
      crashes, failed commands, failing handlers, trimming and time: an entry the group's cursor
      has passed is pending, handled, on the dead-letter stream or trimmed; the dead-letter
      stream holds only hopeless or exhausted entries, with their own envelopes; and handlers
      are called only with the events of entries that were delivered. */
  lemma {:induction false} Reachable(o: Options, s: System, acts: seq<Action>)
    requires Initial(s)
    ensures Invariant(o, After(o, s, acts))
  {
    hide Next, Invariant;
    if acts == [] {
      InitialIsOk(o, s);
    } else {
      Reachable(o, s, acts[..|acts| - 1]);
      NextKeeps(o, After(o, s, acts[..|acts| - 1]), acts[|acts| - 1]);
    }
  }

  lemma InitialIsOk(o: Options, s: System)
    requires Initial(s)
    ensures Invariant(o, s)
  {
  }

  /** No loss, for one entry: it is pending, handled or trimmed, or its own text is on the
      dead-letter stream under its own id. */
  lemma NoLoss(o: Options, s: System, acts: seq<Action>, id: nat)
    requires Initial(s)
    ensures var t := After(o, s, acts);
      id in t.group.issued && id <= t.group.cursor ==>
        || id in t.group.pending
        || id in t.handled
        || id !in t.group.entries
        || match t.group.issued[id]
           case Missing => DeadEntry(id, "") in t.group.dead
           case Malformed(text) => DeadEntry(id, text) in t.group.dead
           case Wellformed(text, _) => DeadEntry(id, text) in t.group.dead
  {
    hide After;
    Reachable(o, s, acts);
  }

  /** A well-formed event is dead-lettered only after more than MaxAttempts deliveries, and what
      is on the dead-letter stream is the text of the entry it names. */
  lemma DeadLettersBelong(o: Options, s: System, acts: seq<Action>, d: DeadEntry)
    requires Initial(s)
    ensures var g := After(o, s, acts).group;
      d in g.dead ==>
        && d.sourceId in g.issued
        && match g.issued[d.sourceId]
           case Missing => d.raw == ""
           case Malformed(text) => d.raw == text
           case Wellformed(text, _) => d.raw == text && g.deliveries[d.sourceId] > o.maxAttempts
  {
    hide After;
    Reachable(o, s, acts);
  }

  /** A refused command leaves the group alone, one whose reply is lost does to it what a
      successful one does, and a handler call does nothing to it. */
  lemma OutcomesInWords(o: Options, s: System, c: nat, bound: nat)
    ensures Advance(o, s, c, Refused, bound).group == s.group
    ensures !(s.At(c).Busy? && s.At(c).task.CallHandler?) ==>
      Advance(o, s, c, Lost, bound).group == Advance(o, s, c, Ok, bound).group
    ensures s.At(c).Busy? && s.At(c).task.CallHandler? ==>
      Advance(o, s, c, Lost, bound).group == Advance(o, s, c, Ok, bound).group == s.group
  {
    hide Read, Claim, CanRead, CanClaim, Resume, HandleTask;
  }

  lemma AckedStaysAcked(o: Options, s: System, a: Action, id: nat)
    requires id <= s.group.cursor && id !in s.group.pending
    ensures id <= Next(o, s, a).group.cursor && id !in Next(o, s, a).group.pending
  {
    hide Listing, Resume, HandleTask;
  }

  /** Once an entry has left the pending list, no consumer is given it again. */
  lemma {:induction false} AckedForGood(o: Options, s: System, acts: seq<Action>, id: nat)
    requires id <= s.group.cursor && id !in s.group.pending
    ensures var g := After(o, s, acts).group;
      id <= g.cursor && id !in g.pending && g.deliveries[id] == s.group.deliveries[id]
  {
    hide Next;
    if acts != [] {
      AckedForGood(o, s, acts[..|acts| - 1], id);
      AckedStaysAcked(o, After(o, s, acts[..|acts| - 1]), acts[|acts| - 1], id);
      NotDelivered(o, After(o, s, acts[..|acts| - 1]), acts[|acts| - 1], id);
    }
  }

  lemma NotDelivered(o: Options, s: System, a: Action, id: nat)
    requires id <= s.group.cursor && id !in s.group.pending
    ensures Next(o, s, a).group.deliveries[id] == s.group.deliveries[id]
  {
    hide Listing, Resume, HandleTask;
  }
}
