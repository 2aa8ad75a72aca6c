/**
 The consumer group as Redis keeps it: the stream and its trimming, the group's cursor, the
 pending list with delivery counts and idle times, and the dead-letter stream. Each operation
 is one atomic Redis command.
 */
module RedisGroup {
  import opened Events

  /** What an entry carries; handling branches on nothing else. */
  datatype Envelope =
    | Missing
    | Malformed(text: string)
    | Wellformed(text: string, event: Event)
  {
    /** The text that goes on the dead-letter stream. */
    function Raw(): string {
      if Missing? then "" else text
    }
  }

  /** A stream entry as a consumer holds it. Ids are positive; 0 stands for the id 0-0. */
  datatype Message = Message(id: nat, envelope: Envelope)

  datatype Pel = Pel(count: nat, idle: nat)

  datatype DeadEntry = DeadEntry(sourceId: nat, raw: string)

  datatype Options = Options(maxAttempts: int, minIdle: nat)

  const READ_COUNT: nat := 10
  const CLAIM_COUNT: nat := 64

  /** `issued` and `deliveries` are history: every entry ever added, and how often each was
      delivered, by a read or by a claim. */
  datatype Group = Group(
    entries: map<nat, Envelope>, last: nat, cursor: nat, pending: map<nat, Pel>, dead: seq<DeadEntry>,
    issued: map<nat, Envelope>, deliveries: multiset<nat>)

  // ---------- Listing entries in stream order ----------

  /** The entries with ids below `hi`, in id order. */
  function Listing(m: map<nat, Envelope>, hi: nat): seq<Message> {
    if hi == 0 then []
    else Listing(m, hi - 1) + (if hi - 1 in m then [Message(hi - 1, m[hi - 1])] else [])
  }

  predicate Ascending(ms: seq<Message>) {
    forall i, j :: 0 <= i < j < |ms| ==> ms[i].id < ms[j].id
  }

  lemma {:induction false} ListingIsExact(m: map<nat, Envelope>, hi: nat)
    ensures Ascending(Listing(m, hi))
    ensures forall msg :: msg in Listing(m, hi) <==> msg.id < hi && msg.id in m && m[msg.id] == msg.envelope
  {
    if hi > 0 {
      ListingIsExact(m, hi - 1);
      var init := Listing(m, hi - 1);
      assert forall i :: 0 <= i < |init| ==> init[i] in init;
    }
  }

  lemma {:induction false} ListingOfNone(m: map<nat, Envelope>, hi: nat)
    requires forall id: nat :: id < hi ==> id !in m
    ensures Listing(m, hi) == []
  {
    if hi > 0 {
      ListingOfNone(m, hi - 1);
    }
  }

  /** A page of one id always fits. */
  lemma {:induction false} ListingFits(m: map<nat, Envelope>, lo: nat, hi: nat)
    requires lo <= hi && forall id :: id in m ==> id >= lo
    ensures |Listing(m, lo)| == 0 && |Listing(m, hi)| <= hi - lo
  {
    if hi > 0 {
      ListingFits(m, if lo == hi then lo - 1 else lo, hi - 1);
    }
  }

  // ---------- The producers' side ----------

  /** XADD. Stream ids only grow. */
  function Produced(g: Group, id: nat, e: Envelope): Group {
    if id > g.last then g.(entries := g.entries[id := e], issued := g.issued[id := e], last := id) else g
  }

  /** MAXLEN trimming: any entries may leave the stream, read or unread, pending or not. */
  function Trimmed(g: Group, ids: set<nat>): Group {
    g.(entries := g.entries - ids)
  }

  /** Time passes. */
  function Ticked(g: Group, d: nat): Group {
    g.(pending := map id | id in g.pending :: g.pending[id].(idle := g.pending[id].idle + d))
  }

  /** Publishing adds its entry, trimming removes entries and nothing else, time makes entries
      idle and nothing else. */
  lemma EnvironmentInWords(g: Group, id: nat, e: Envelope, ids: set<nat>, d: nat)
    ensures id > g.last ==> Produced(g, id, e) == g.(entries := g.entries[id := e], issued := g.issued[id := e], last := id)
    ensures Trimmed(g, ids).entries.Keys == g.entries.Keys - ids
    ensures forall x :: x in g.entries && x !in ids ==> Trimmed(g, ids).entries[x] == g.entries[x]
    ensures Trimmed(g, ids) == g.(entries := Trimmed(g, ids).entries)
    ensures Ticked(g, d) == g.(pending := Ticked(g, d).pending) && Ticked(g, d).pending.Keys == g.pending.Keys
    ensures forall x :: x in g.pending ==> Ticked(g, d).pending[x] == Pel(g.pending[x].count, g.pending[x].idle + d)
  {
  }

  // ---------- XREADGROUP ----------

  function Unread(g: Group, upTo: nat): map<nat, Envelope> {
    map id | id in g.entries && g.cursor < id <= upTo :: g.entries[id]
  }

  /** A read may return the unread entries up to any unread one, at most READ_COUNT of them. */
  predicate CanRead(g: Group, upTo: nat) {
    g.cursor < upTo && upTo in g.entries && |Listing(Unread(g, upTo), upTo + 1)| <= READ_COUNT
  }

  function Read(g: Group, upTo: nat): (Group, seq<Message>)
    requires CanRead(g, upTo)
  {
    var found := Unread(g, upTo);
    (g.(cursor := upTo,
        pending := g.pending + map id | id in found :: Pel(1, 0),
        deliveries := g.deliveries + multiset(found.Keys)),
     Listing(found, upTo + 1))
  }

  predicate NothingUnread(g: Group) {
    forall id :: id in g.entries ==> id <= g.cursor
  }

  /** The first unread entry below `hi`; the cursor itself if there is none. */
  function FirstUnread(g: Group, from: nat, hi: nat): (id: nat)
    requires g.cursor < from && forall x: nat :: g.cursor < x < from ==> x !in g.entries
    ensures id == g.cursor ==> forall x: nat :: g.cursor < x < hi ==> x !in g.entries
    ensures id != g.cursor ==> id > g.cursor && id in g.entries && forall x: nat :: g.cursor < x < id ==> x !in g.entries
    decreases hi - from
  {
    if from >= hi then g.cursor else if from in g.entries then from else FirstUnread(g, from + 1, hi)
  }

  /** That entry alone can be read. */
  lemma FirstUnreadIsReadable(g: Group, id: nat)
    requires id > g.cursor && id in g.entries && forall x: nat :: g.cursor < x < id ==> x !in g.entries
    ensures CanRead(g, id)
  {
    ListingFits(Unread(g, id), id, id + 1);
  }

  // ---------- XAUTOCLAIM ----------

  /** The pending entries a claim from `start` that examines ids below `bound` takes over. */
  function Claimable(o: Options, g: Group, start: nat, bound: nat): map<nat, Envelope> {
    map id | id in g.pending && id in g.entries && start <= id < bound && g.pending[id].idle >= o.minIdle :: g.entries[id]
  }

  /** A claim examines the pending list from `start` up to some bound of the server's choosing,
      so a page holds at most CLAIM_COUNT entries and may be empty. */
  predicate CanClaim(o: Options, g: Group, start: nat, bound: nat) {
    start < bound && |Listing(Claimable(o, g, start, bound), bound)| <= CLAIM_COUNT
  }

  /** The smallest pending id that is at least `from`; 0, that is 0-0, if there is none. */
  function NextPending(pending: map<nat, Pel>, from: nat, hi: nat): (next: nat)
    requires from > 0
    ensures next == 0 ==> forall id :: from <= id < hi ==> id !in pending
    ensures next != 0 ==> from <= next < hi && next in pending && forall id :: from <= id < next ==> id !in pending
    decreases hi - from
  {
    if from >= hi then 0
    else if from in pending then from
    else NextPending(pending, from + 1, hi)
  }

  /** Claimed entries have their count bumped and their idle time reset; examined entries that
      were trimmed from the stream are dropped from the pending list. The cursor returned is the
      first pending entry not examined. */
  function Claim(o: Options, g: Group, start: nat, bound: nat): (Group, seq<Message>, nat)
    requires CanClaim(o, g, start, bound)
  {
    var taken := Claimable(o, g, start, bound);
    var pending := map id | id in g.pending && !(start <= id < bound && id !in g.entries) ::
      if id in taken then Pel(g.pending[id].count + 1, 0) else g.pending[id];
    (g.(pending := pending, deliveries := g.deliveries + multiset(taken.Keys)),
     Listing(taken, bound),
     NextPending(pending, bound, g.cursor + 1))
  }

  // ---------- XACK and XADD to the dead-letter stream ----------

  function Acked(g: Group, id: nat): Group {
    g.(pending := g.pending - {id})
  }

  function Buried(g: Group, id: nat, raw: string): Group {
    g.(dead := g.dead + [DeadEntry(id, raw)])
  }

  // ---------- What every command keeps ----------

  /** Entries are issued entries; only entries that were read are pending; a pending entry's
      count is the number of its deliveries. */
  ghost predicate Sound(g: Group) {
    && g.cursor <= g.last
    && (forall id :: id in g.entries ==> id in g.issued && g.entries[id] == g.issued[id])
    && (forall id :: id in g.issued ==> 0 < id <= g.last)
    && (forall id :: id in g.pending ==>
          id in g.issued && id <= g.cursor && 0 < g.pending[id].count == g.deliveries[id])
    && (forall id :: id in g.deliveries ==> id <= g.cursor)
  }

  lemma EntryIsIssued(g: Group, id: nat)
    requires Sound(g)
    ensures id in g.entries ==> id in g.issued && g.entries[id] == g.issued[id]
  {
  }

  lemma PendingIsCounted(g: Group, id: nat)
    requires Sound(g)
    ensures id in g.pending ==> id in g.issued && id <= g.cursor && 0 < g.pending[id].count == g.deliveries[id]
  {
  }

  lemma ReadIsSound(g: Group, upTo: nat)
    requires Sound(g) && CanRead(g, upTo)
    ensures Sound(Read(g, upTo).0)
  {
    hide Listing;
    assert upTo in g.issued;
  }

  lemma ClaimIsSound(o: Options, g: Group, start: nat, bound: nat)
    requires Sound(g) && CanClaim(o, g, start, bound)
    ensures Sound(Claim(o, g, start, bound).0)
  {
    hide Listing;
  }
}
