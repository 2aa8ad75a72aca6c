/**
 How often any number of consumers call the handler with one entry. Every delivery is a token
 to call it once; a call spends the token. Tokens are counted over all consumers.
 */
module Tokens {
  import opened RedisGroup
  import opened Delivery
  import opened Attempts

  function CountOf(ms: seq<Message>, id: nat): nat {
    if ms == [] then 0 else (if ms[0].id == id then 1 else 0) + CountOf(ms[1..], id)
  }

  lemma {:induction false} CountAscending(ms: seq<Message>, id: nat)
    requires Ascending(ms)
    ensures CountOf(ms, id) == if exists msg :: msg in ms && msg.id == id then 1 else 0
  {
    if ms != [] {
      CountAscending(ms[1..], id);
      assert forall msg :: msg in ms <==> msg == ms[0] || msg in ms[1..];
      assert forall i :: 0 < i < |ms| ==> ms[0].id < ms[i].id;
    }
  }

  // ---------- The tokens of one consumer ----------

  /** How often this consumer may still call the handler with the entry before it is delivered
      again. */
  function Live(local: Local, id: nat): nat {
    if !local.Busy? then 0
    else
      (if (local.task.CheckPending? || local.task.CallHandler?) && TaskId(local.task) == id then 1 else 0)
      + CountOf(local.cont.rest, id)
  }

  /** How often it will do so without looking at the pending list first. */
  function Due(local: Local, id: nat): nat {
    if !local.Busy? then 0
    else
      (if local.task.CallHandler? && TaskId(local.task) == id then 1 else 0)
      + (if local.cont.InBatch? then CountOf(local.cont.rest, id) else 0)
  }

  function LiveOf(id: nat): Local -> nat { (local: Local) => Live(local, id) }
  function DueOf(id: nat): Local -> nat { (local: Local) => Due(local, id) }

  // ---------- The tokens of all consumers ----------

  function LocalAt(locals: map<nat, Local>, c: nat): Local {
    if c in locals then locals[c] else Claiming(0)
  }

  /** Summed over the first `n` consumers. */
  function Sum(locals: map<nat, Local>, f: Local -> nat, n: nat): nat {
    if n == 0 then 0 else Sum(locals, f, n - 1) + f(LocalAt(locals, n - 1))
  }

  lemma {:induction false} SumTo(locals: map<nat, Local>, f: Local -> nat, n: nat, c: nat, local: Local)
    ensures Sum(locals[c := local], f, n) ==
      if c < n then Sum(locals, f, n) - f(LocalAt(locals, c)) + f(local) else Sum(locals, f, n)
  {
    if n > 0 {
      SumTo(locals, f, n - 1, c, local);
    }
  }

  lemma {:induction false} SumGrows(locals: map<nat, Local>, f: Local -> nat, n: nat, m: nat)
    requires n <= m
    ensures Sum(locals, f, n) <= Sum(locals, f, m)
  {
    if n < m {
      SumGrows(locals, f, n, m - 1);
    }
  }

  lemma {:induction false} DueAtMostLive(locals: map<nat, Local>, id: nat, n: nat)
    ensures Sum(locals, DueOf(id), n) <= Sum(locals, LiveOf(id), n)
    ensures forall c: nat :: c < n ==>
      Sum(locals, DueOf(id), n) + Live(LocalAt(locals, c), id) <= Sum(locals, LiveOf(id), n) + Due(LocalAt(locals, c), id)
  {
    if n > 0 {
      DueAtMostLive(locals, id, n - 1);
      assert LiveOf(id)(LocalAt(locals, n - 1)) == Live(LocalAt(locals, n - 1), id);
      assert DueOf(id)(LocalAt(locals, n - 1)) == Due(LocalAt(locals, n - 1), id);
    }
  }

  // ---------- Spending and issuing tokens ----------

  /** A consumer looks a claimed entry up and finds it off the pending list. */
  predicate LateCheck(s: System, a: Action, id: nat) {
    && a.Act? && a.outcome == Ok && s.At(a.consumer).Busy?
    && s.At(a.consumer).task.CheckPending? && s.At(a.consumer).task.msg.id == id
    && id !in s.group.pending
  }

  function LateChecks(o: Options, s: System, acts: seq<Action>, id: nat): nat {
    if acts == [] then 0
    else
      LateChecks(o, s, acts[..|acts| - 1], id)
      + if LateCheck(After(o, s, acts[..|acts| - 1]), acts[|acts| - 1], id) then 1 else 0
  }

  lemma ResumeTokens(k: Cont, id: nat)
    ensures Live(Resume(k), id) <= CountOf(k.rest, id)
    ensures Due(Resume(k), id) <= if k.InBatch? then CountOf(k.rest, id) else 0
  {
  }

  /** The entry is looked up and found pending with attempts left. */
  predicate GrantsCall(o: Options, s: System, task: Task, outcome: Outcome, id: nat) {
    && outcome == Ok && task.CheckPending? && task.msg.id == id
    && id in s.group.pending && s.group.pending[id].count <= o.maxAttempts
  }

  /** Calls and tokens together do not grow, except that a look-up may make a token due. */
  ghost predicate Spends(o: Options, s: System, t: System, c: nat, task: Task, outcome: Outcome, id: nat) {
    var granted := GrantsCall(o, s, task, outcome, id) || LateCheck(s, Act(c, outcome, 0), id);
    && t.locals == s.locals[c := t.At(c)] && t.group.deliveries == s.group.deliveries
    && multiset(t.log)[id] + Live(t.At(c), id) <= multiset(s.log)[id] + Live(s.At(c), id)
    && multiset(t.log)[id] + Due(t.At(c), id) <= multiset(s.log)[id] + Due(s.At(c), id) + (if granted then 1 else 0)
    && (granted ==> Due(s.At(c), id) < Live(s.At(c), id))
  }

  lemma CallSpends(o: Options, s: System, c: nat, task: Task, k: Cont, outcome: Outcome, id: nat)
    requires s.At(c) == Busy(task, k) && task.CallHandler?
    ensures Spends(o, s, Perform(o, s, c, task, k, outcome), c, task, outcome, id)
  {
    hide Resume, CountOf;
    ResumeTokens(k, id);
  }

  lemma CheckSpends(o: Options, s: System, c: nat, task: Task, k: Cont, outcome: Outcome, id: nat)
    requires s.At(c) == Busy(task, k) && task.CheckPending?
    ensures Spends(o, s, Perform(o, s, c, task, k, outcome), c, task, outcome, id)
  {
    hide Resume, CountOf;
    ResumeTokens(k, id);
  }

  lemma PerformSpends(o: Options, s: System, c: nat, task: Task, k: Cont, outcome: Outcome, id: nat)
    requires s.At(c) == Busy(task, k)
    ensures Spends(o, s, Perform(o, s, c, task, k, outcome), c, task, outcome, id)
  {
    if task.CallHandler? {
      CallSpends(o, s, c, task, k, outcome, id);
    } else if task.CheckPending? {
      CheckSpends(o, s, c, task, k, outcome, id);
    } else {
      hide Resume, CountOf;
      ResumeTokens(k, id);
    }
  }

  lemma ClaimTokens(o: Options, s: System, c: nat, outcome: Outcome, bound: nat, id: nat)
    requires s.At(c).Claiming?
    ensures var t := Advance(o, s, c, outcome, bound);
      && (t == s || t.locals == s.locals[c := t.At(c)]) && t.log == s.log
      && Live(t.At(c), id) + s.group.deliveries[id] <= t.group.deliveries[id]
      && Due(t.At(c), id) == 0
  {
    hide Listing, Resume;
    var start := s.At(c).start;
    if outcome != Refused && CanClaim(o, s.group, start, bound) {
      var (g, page, next) := Claim(o, s.group, start, bound);
      ListingIsExact(Claimable(o, s.group, start, bound), bound);
      CountAscending(page, id);
      ResumeTokens(InPage(page, next), id);
    }
  }

  lemma ReadTokens(o: Options, s: System, c: nat, outcome: Outcome, bound: nat, id: nat)
    requires s.At(c) == Reading
    ensures var t := Advance(o, s, c, outcome, bound);
      && t.locals == s.locals[c := t.At(c)] && t.log == s.log
      && Live(t.At(c), id) + s.group.deliveries[id] <= t.group.deliveries[id]
      && Due(t.At(c), id) <= 1
      && (Due(t.At(c), id) > 0 ==> id > s.group.cursor)
  {
    hide Listing, Resume;
    if outcome != Refused && CanRead(s.group, bound) {
      var (g, batch) := Read(s.group, bound);
      ListingIsExact(Unread(s.group, bound), bound + 1);
      CountAscending(batch, id);
      ResumeTokens(InBatch(batch), id);
    }
  }

  // ---------- The bound ----------

  /** Calls and live tokens are at most the deliveries; calls and due tokens at most MaxAttempts
      and the late checks. */
  ghost predicate TokensOk(o: Options, s: System, id: nat, n: nat, late: nat) {
    && multiset(s.log)[id] + Sum(s.locals, LiveOf(id), n) <= s.group.deliveries[id]
    && multiset(s.log)[id] + Sum(s.locals, DueOf(id), n) <= o.maxAttempts + late
  }

  lemma PerformKeepsTokens(o: Options, s: System, c: nat, outcome: Outcome, id: nat, n: nat, late: nat)
    requires Sound(s.group) && s.At(c).Busy? && c < n && TokensOk(o, s, id, n, late)
    ensures TokensOk(o, Perform(o, s, c, s.At(c).task, s.At(c).cont, outcome), id, n,
      late + if LateCheck(s, Act(c, outcome, 0), id) then 1 else 0)
  {
    hide Perform, Live, Due, Sound;
    var task, k := s.At(c).task, s.At(c).cont;
    var t := Perform(o, s, c, task, k, outcome);
    PerformSpends(o, s, c, task, k, outcome, id);
    SumTo(s.locals, LiveOf(id), n, c, t.At(c));
    SumTo(s.locals, DueOf(id), n, c, t.At(c));
    DueAtMostLive(s.locals, id, n);
    PendingIsCounted(s.group, id);
  }

  lemma ClaimKeepsTokens(o: Options, s: System, c: nat, outcome: Outcome, bound: nat, id: nat, n: nat, late: nat)
    requires s.At(c).Claiming? && c < n && TokensOk(o, s, id, n, late)
    ensures TokensOk(o, Advance(o, s, c, outcome, bound), id, n, late)
  {
    hide Advance;
    var t := Advance(o, s, c, outcome, bound);
    ClaimTokens(o, s, c, outcome, bound, id);
    SumTo(s.locals, LiveOf(id), n, c, t.At(c));
    SumTo(s.locals, DueOf(id), n, c, t.At(c));
  }

  lemma ReadKeepsTokens(o: Options, s: System, c: nat, outcome: Outcome, bound: nat, id: nat, n: nat, late: nat)
    requires Sound(s.group) && s.At(c) == Reading && c < n && TokensOk(o, s, id, n, late) && o.maxAttempts >= 1
    ensures TokensOk(o, Advance(o, s, c, outcome, bound), id, n, late)
  {
    hide Advance, Live, Due;
    var t := Advance(o, s, c, outcome, bound);
    ReadTokens(o, s, c, outcome, bound, id);
    assert Live(s.At(c), id) == 0 && Due(s.At(c), id) == 0 by { NoTokens(s.At(c), id); }
    SumTo(s.locals, LiveOf(id), n, c, t.At(c));
    SumTo(s.locals, DueOf(id), n, c, t.At(c));
    DueAtMostLive(s.locals, id, n);
    assert id > s.group.cursor ==> s.group.deliveries[id] == 0;
  }

  lemma NoTokens(local: Local, id: nat)
    requires !local.Busy?
    ensures Live(local, id) == 0 && Due(local, id) == 0
  {
  }

  lemma NextKeepsTokens(o: Options, s: System, a: Action, id: nat, n: nat, late: nat)
    requires Sound(s.group) && o.maxAttempts >= 1 && TokensOk(o, s, id, n, late)
    requires (a.Act? || a.Crash?) ==> a.consumer < n
    ensures TokensOk(o, Next(o, s, a), id, n, late + if LateCheck(s, a, id) then 1 else 0)
  {
    hide Perform, Sound, Read, CanRead, Claim, CanClaim;
    match a {
      case Act(c, outcome, bound) =>
        match s.At(c) {
          case Claiming(_) => ClaimKeepsTokens(o, s, c, outcome, bound, id, n, late);
          case Reading => ReadKeepsTokens(o, s, c, outcome, bound, id, n, late);
          case Busy(_, _) => PerformKeepsTokens(o, s, c, outcome, id, n, late);
        }
      case Crash(c) =>
        SumTo(s.locals, LiveOf(id), n, c, Claiming(0));
        SumTo(s.locals, DueOf(id), n, c, Claiming(0));
      case _ =>
    }
  }

  lemma {:induction false} TokensBounded(o: Options, s: System, acts: seq<Action>, id: nat, n: nat)
    requires Initial(s) && o.maxAttempts >= 1
    ensures TokensOk(o, After(o, s, acts), id, n, LateChecks(o, s, acts, id))
  {
    hide Initial, Next, TokensOk, Sound, LateCheck;
    if acts == [] {
      InitialTokens(o, s, id, n);
    } else {
      var init, last := acts[..|acts| - 1], acts[|acts| - 1];
      var before := After(o, s, init);
      var m := if (last.Act? || last.Crash?) && last.consumer >= n then last.consumer + 1 else n;
      TokensBounded(o, s, init, id, m);
      Reachable(o, s, init);
      assert Sound(before.group) by { hide NothingLost, DeadOk, LogOk, LocalsOk; }
      NextKeepsTokens(o, before, last, id, m, LateChecks(o, s, init, id));
      FewerTokens(o, After(o, s, acts), id, n, m, LateChecks(o, s, acts, id));
    }
  }

  lemma FewerTokens(o: Options, s: System, id: nat, n: nat, m: nat, late: nat)
    requires n <= m && TokensOk(o, s, id, m, late)
    ensures TokensOk(o, s, id, n, late)
  {
    SumGrows(s.locals, LiveOf(id), n, m);
    SumGrows(s.locals, DueOf(id), n, m);
  }

  lemma {:induction false} InitialTokens(o: Options, s: System, id: nat, n: nat)
    requires Initial(s) && o.maxAttempts >= 1
    ensures TokensOk(o, s, id, n, 0)
  {
    if n > 0 {
      InitialTokens(o, s, id, n - 1);
    }
  }

  /** Any number of consumers call the handler with one entry at most MaxAttempts times, and
      once more for every time one of them looks the entry up and finds it off the pending
      list. Whatever fails, no entry is handled more often than it was delivered. */
  lemma CallsBounded(o: Options, s: System, acts: seq<Action>, id: nat)
    requires Initial(s) && o.maxAttempts >= 1
    ensures var t := After(o, s, acts);
      && multiset(t.log)[id] <= o.maxAttempts + LateChecks(o, s, acts, id)
      && multiset(t.log)[id] <= t.group.deliveries[id]
  {
    hide After, Initial, LateChecks;
    TokensBounded(o, s, acts, id, 0);
  }

  /** A lone consumer never finds an entry off the pending list. */
  lemma {:induction false} LoneConsumerIsNeverLate(o: Options, s: System, acts: seq<Action>, id: nat)
    requires Initial(s) && Alone(acts) && o.maxAttempts >= 1
    ensures LateChecks(o, s, acts, id) == 0
  {
    hide After, Initial, Invariant;
    if acts != [] {
      var init, last := acts[..|acts| - 1], acts[|acts| - 1];
      LoneConsumerIsNeverLate(o, s, init, id);
      InitialIsOk(o, s);
      InitialIsBounded(o, s);
      AloneKeepsBounded(o, s, init);
      assert last in acts;
      var before := After(o, s, init);
      assert LateCheck(before, last, id) ==> MayCall(before.At(0), id);
    }
  }
}
