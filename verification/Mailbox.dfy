/**
 The event mailbox of main/fsm.c as an abstract queue.

 An entry keeps the mask of receivers that are still owed the event; an entry with
 an empty mask is a hole that still occupies its slot.  `Trace` adds the history the
 firmware does not keep: the fate of every receiver of every event ever published.
 The ring that implements this queue is in MailboxRing.dfy.
 */
module Mailbox {
  import opened Values

  const CAPACITY: nat := 31          // a 32-slot ring keeps one slot free
  const TTL_MS: nat := 1100
  const CLOCK_SPAN: nat := 0x1_0000_0000
  const MAX_RECIPIENTS: nat := 10

  /** Agent identifiers are bit positions of a 32-bit mask; a mask is the set of its bits. */
  type Agent = a: nat | a < 32
  type Mask = set<Agent>

  const AGN_NONE: Agent := 0
  const AGN_FSM: Agent := 1

  datatype Event = Event(to: seq<Agent>, payload: int)

  // ---------------------------------------------------------------- recipients

  /** The agents listed from position `i` on, up to the first AGN_NONE and among the first ten. */
  function ListedFrom(to: seq<Agent>, i: nat): Mask
    requires i <= |to|
    decreases |to| - i
  {
    if i == |to| || i >= MAX_RECIPIENTS || to[i] == AGN_NONE then {} else {to[i]} + ListedFrom(to, i + 1)
  }

  /** Agent `r` stands at position k, among the first ten and before any AGN_NONE. */
  ghost predicate ListedAt(to: seq<Agent>, i: nat, r: Agent, k: int) {
    i <= k < |to| && k < 10 && to[k] == r && forall j :: i <= j <= k ==> to[j] != AGN_NONE
  }

  lemma ListedNext(to: seq<Agent>, i: nat, next: nat, r: Agent)
    requires next == i + 1 <= |to| && i < MAX_RECIPIENTS && to[i] != AGN_NONE
    ensures (exists k :: ListedAt(to, i, r, k)) <==> r == to[i] || exists k :: ListedAt(to, next, r, k)
  {
    if k :| ListedAt(to, i, r, k) {
      assert k > i ==> ListedAt(to, next, r, k);
    }
    if k :| ListedAt(to, next, r, k) {
      assert ListedAt(to, i, r, k);
    }
    if r == to[i] {
      assert ListedAt(to, i, r, i);
    }
  }

  lemma {:induction false} ListedAgents(to: seq<Agent>, i: nat)
    requires i <= |to|
    ensures forall r :: r in ListedFrom(to, i) <==> exists k :: ListedAt(to, i, r, k)
    decreases |to| - i
  {
    if i < |to| && i < MAX_RECIPIENTS && to[i] != AGN_NONE {
      ListedAgents(to, i + 1);
      hide ListedAt;
      forall r ensures r in ListedFrom(to, i) <==> exists k :: ListedAt(to, i, r, k) {
        ListedNext(to, i, i + 1, r);
      }
    } else {
      assert ListedFrom(to, i) == {};
    }
  }

  /** The receivers an event is owed to when it is published. */
  function MaskOf(e: Event): (mask: Mask)
    ensures mask != {}
    ensures AGN_NONE !in mask
  {
    ListedAgents(e.to, 0);
    if ListedFrom(e.to, 0) == {} then {AGN_FSM} else ListedFrom(e.to, 0)
  }

  ghost predicate Listed(to: seq<Agent>, r: Agent) {
    exists k :: ListedAt(to, 0, r, k)
  }

  /** Whom an event is for: the agents listed or, when none is, the state machine. */
  ghost predicate Addressed(to: seq<Agent>, r: Agent) {
    Listed(to, r) || (r == 1 && forall q :: !Listed(to, q))
  }

  lemma MaskIsAddressed(e: Event, r: Agent)
    ensures r in MaskOf(e) <==> Addressed(e.to, r)
  {
    hide ListedAt;
    ListedAgents(e.to, 0);
    if ListedFrom(e.to, 0) != {} {
      var q :| q in ListedFrom(e.to, 0);
      assert Listed(e.to, q);
    } else {
      assert forall q :: Listed(e.to, q) ==> q in ListedFrom(e.to, 0);
    }
  }

  // ---------------------------------------------------------------- the queue

  /** `at` is the true time of publication; the firmware only sees it modulo 2^32. */
  datatype Entry = Entry(id: nat, ev: Event, owed: Mask, at: nat)

  function Stamp(time: nat): nat {
    time % 0x1_0000_0000
  }

  /** The age the firmware computes, by subtracting two 32-bit readings. */
  function Age(now: nat, at: nat): nat {
    (Stamp(now) - Stamp(at)) % 0x1_0000_0000
  }

  /** The computed age is the true age exactly while that is between 0 and 2^32 - 1 milliseconds. */
  lemma AgeIsTrueAge(now: nat, at: nat)
    ensures Age(now, at) == (now - at) % 0x1_0000_0000
    ensures Age(now, at) == now - at <==> 0 <= now - at < CLOCK_SPAN
  {
    var a, b := now / 0x1_0000_0000, at / 0x1_0000_0000;
    assert Stamp(now) - Stamp(at) == (now - at) - 0x1_0000_0000 * (a - b);
  }

  function ExpireEntry(e: Entry, now: nat): Entry {
    if e.owed != {} && Age(now, e.at) > TTL_MS then e.(owed := {}) else e
  }

  function Expire(q: seq<Entry>, now: nat): (r: seq<Entry>)
    ensures |r| == |q|
    ensures forall i :: 0 <= i < |q| ==> r[i] == ExpireEntry(q[i], now)
  {
    seq(|q|, i requires 0 <= i < |q| => ExpireEntry(q[i], now))
  }

  /** Number of holes at the front. */
  function HoleCount(q: seq<Entry>, i: nat := 0): (n: nat)
    requires i <= |q|
    requires forall j :: 0 <= j < i ==> q[j].owed == {}
    ensures i <= n <= |q|
    ensures forall j :: 0 <= j < n ==> q[j].owed == {}
    ensures n < |q| ==> q[n].owed != {}
    decreases |q| - i
  {
    if i == |q| || q[i].owed != {} then i else HoleCount(q, i + 1)
  }

  function DropHoles(q: seq<Entry>): seq<Entry> {
    q[HoleCount(q)..]
  }

  function Sweep(q: seq<Entry>, now: nat): seq<Entry> {
    DropHoles(Expire(q, now))
  }

  /** Index of the oldest entry owed to `r`, or |q|. */
  function FirstFor(q: seq<Entry>, r: Agent, i: nat := 0): (k: nat)
    requires i <= |q|
    requires forall j :: 0 <= j < i ==> r !in q[j].owed
    ensures i <= k <= |q|
    ensures k < |q| ==> r in q[k].owed
    ensures forall j :: 0 <= j < k ==> r !in q[j].owed
    decreases |q| - i
  {
    if i == |q| || r in q[i].owed then i else FirstFor(q, r, i + 1)
  }

  function Clear(q: seq<Entry>, k: nat, r: Agent): seq<Entry>
    requires k < |q|
  {
    q[k := q[k].(owed := q[k].owed - {r})]
  }

  lemma HoleCountIs(q: seq<Entry>, n: nat)
    requires n <= |q|
    requires forall i :: 0 <= i < n ==> q[i].owed == {}
    requires n < |q| ==> q[n].owed != {}
    ensures HoleCount(q) == n && DropHoles(q) == q[n..]
  {
  }

  lemma FirstForIs(q: seq<Entry>, r: Agent, k: nat)
    requires k <= |q|
    requires forall i :: 0 <= i < k ==> r !in q[i].owed
    requires k < |q| ==> r in q[k].owed
    ensures FirstFor(q, r) == k
  {
  }

  // ---------------------------------------------------------------- history

  /** For one published event: who it was addressed to, who got it, for whom it expired. */
  datatype Fate = Fate(ev: Event, at: nat, sent: Mask, delivered: Mask, expired: Mask)

  datatype Delivery = Delivery(to: Agent, id: nat, ev: Event, when: nat)

  datatype Trace = Trace(queue: seq<Entry>, fates: seq<Fate>, log: seq<Delivery>,
                         clock: nat, lastSweep: nat)

  datatype Op = Publish(ev: Event, now: nat) | Receive(r: Agent, now: nat)

  /** Nothing published yet. */
  predicate Start(t: Trace) {
    t.queue == [] && t.fates == [] && t.log == [] && t.lastSweep == t.clock
  }

  /** The receivers event `id` is still owed to. */
  function Pending(q: seq<Entry>, id: nat): Mask {
    set e, r | e in q && e.id == id && r in e.owed :: r
  }

  function RecordExpiry(fates: seq<Fate>, before: seq<Entry>, after: seq<Entry>): (r: seq<Fate>)
    ensures |r| == |fates|
    ensures forall id :: 0 <= id < |fates| ==>
      r[id] == fates[id].(expired := fates[id].expired + (Pending(before, id) - Pending(after, id)))
  {
    seq(|fates|, id requires 0 <= id < |fates| =>
      fates[id].(expired := fates[id].expired + (Pending(before, id) - Pending(after, id))))
  }

  /** The ring is full: only then is a publish refused. */
  predicate Refuses(t: Trace) {
    |t.queue| >= CAPACITY
  }

  /** What a receive by `r` hands over, if anything. */
  function Handed(q: seq<Entry>, r: Agent, now: nat): Option<Entry> {
    var s := Sweep(q, now);
    var k := FirstFor(s, r);
    if k == |s| then None else Some(s[k])
  }

  /** A sweep at `now`, with the receivers it gives up on recorded as expired. */
  function Swept(t: Trace, now: nat): Trace {
    var s := Sweep(t.queue, now);
    t.(queue := s, fates := RecordExpiry(t.fates, t.queue, s), clock := now, lastSweep := now)
  }

  function Deliver(t: Trace, k: nat, r: Agent, now: nat): Trace
    requires k < |t.queue|
  {
    var e := t.queue[k];
    t.(queue := DropHoles(Clear(t.queue, k, r)),
       fates := if e.id < |t.fates|
                then t.fates[e.id := t.fates[e.id].(delivered := t.fates[e.id].delivered + {r})]
                else t.fates,
       log := t.log + [Delivery(r, e.id, e.ev, now)])
  }

  /** One critical section of the mailbox mutex. */
  function Step(t: Trace, op: Op): Trace {
    match op
    case Publish(ev, now) =>
      if Refuses(t) then t.(clock := now)
      else
        t.(queue := t.queue + [Entry(|t.fates|, ev, MaskOf(ev), now)],
           fates := t.fates + [Fate(ev, now, MaskOf(ev), {}, {})],
           clock := now)
    case Receive(r, now) =>
      var s := Swept(t, now);
      var k := FirstFor(s.queue, r);
      if k == |s.queue| then s else Deliver(s, k, r, now)
  }

  function Run(t: Trace, ops: seq<Op>): Trace
    decreases |ops|
  {
    if ops == [] then t else Run(Step(t, ops[0]), ops[1..])
  }

  // ---------------------------------------------------------------- safety

  ghost predicate QueueOk(q: seq<Entry>, fates: seq<Fate>) {
    && (forall i, j :: 0 <= i < j < |q| ==> q[i].id < q[j].id)
    && (forall i :: 0 <= i < |q| ==> q[i].id < |fates|)
    && (forall i :: 0 <= i < |q| ==> q[i].ev == fates[q[i].id].ev && q[i].at == fates[q[i].id].at)
  }

  /** Every receiver of event `id` is in exactly one of: delivered, pending, expired. */
  ghost predicate Settled(f: Fate, pending: Mask) {
    && f.sent == MaskOf(f.ev)
    && f.delivered + pending + f.expired == f.sent
    && f.delivered !! pending !! f.expired
  }

  ghost predicate Accounted(t: Trace) {
    forall id :: 0 <= id < |t.fates| ==> Settled(t.fates[id], Pending(t.queue, id))
  }

  /** The delivery log agrees with the fates. */
  ghost predicate LogMatchesFates(t: Trace) {
    forall d :: 0 <= d < |t.log| ==>
      && t.log[d].id < |t.fates|
      && t.log[d].ev == t.fates[t.log[d].id].ev
      && t.log[d].to in t.fates[t.log[d].id].delivered
  }

  /** No delivery is repeated, and each receiver gets its events in publication order. */
  ghost predicate LogInOrder(t: Trace) {
    forall c, d :: 0 <= c < d < |t.log| && t.log[c].to == t.log[d].to ==> t.log[c].id < t.log[d].id
  }

  /** What a receiver already got is older than what is still pending for it. */
  ghost predicate LogAheadOfQueue(t: Trace) {
    forall d, i :: 0 <= d < |t.log| && 0 <= i < |t.queue| && t.log[d].to in t.queue[i].owed
      ==> t.log[d].id < t.queue[i].id
  }

  ghost predicate LogOk(t: Trace) {
    LogMatchesFates(t) && LogInOrder(t) && LogAheadOfQueue(t)
  }

  ghost predicate Inv(t: Trace) {
    && |t.queue| <= CAPACITY
    && (t.queue != [] ==> t.queue[0].owed != {})
    && QueueOk(t.queue, t.fates)
    && Accounted(t)
    && LogOk(t)
  }

  // Pending under the queue operations.

  lemma PendingMeans(q: seq<Entry>, id: nat, r: Agent)
    ensures r in Pending(q, id) <==> exists i :: 0 <= i < |q| && q[i].id == id && r in q[i].owed
  {
    if r in Pending(q, id) {
      var e :| e in q && e.id == id && r in e.owed;
    }
  }

  lemma PendingDropHoles(q: seq<Entry>, id: nat)
    ensures Pending(DropHoles(q), id) == Pending(q, id)
  {
    var n := HoleCount(q);
    forall r: Agent ensures r in Pending(q[n..], id) <==> r in Pending(q, id) {
      PendingMeans(q, id, r);
      PendingMeans(q[n..], id, r);
      if i :| 0 <= i < |q| && q[i].id == id && r in q[i].owed {
        assert q[n..][i - n] == q[i];
      }
    }
  }

  lemma PendingExpire(q: seq<Entry>, now: nat, id: nat)
    ensures Pending(Expire(q, now), id) <= Pending(q, id)
  {
    var x := Expire(q, now);
    forall r: Agent | r in Pending(x, id) ensures r in Pending(q, id) {
      PendingMeans(q, id, r);
      PendingMeans(x, id, r);
      var i :| 0 <= i < |x| && x[i].id == id && r in x[i].owed;
      assert q[i].id == id;
    }
  }

  lemma PendingClear(q: seq<Entry>, k: nat, r: Agent, id: nat)
    requires k < |q|
    requires forall i, j :: 0 <= i < j < |q| ==> q[i].id < q[j].id
    ensures Pending(Clear(q, k, r), id) == if id == q[k].id then Pending(q, id) - {r} else Pending(q, id)
    ensures r in q[k].owed ==> r in Pending(q, q[k].id)
  {
    var c := Clear(q, k, r);
    forall s: Agent ensures s in Pending(c, id) <==> s in Pending(q, id) && !(id == q[k].id && s == r) {
      PendingMeans(q, id, s);
      PendingMeans(c, id, s);
      if i :| 0 <= i < |q| && q[i].id == id && s in q[i].owed {
        assert i != k ==> c[i] == q[i];
        assert c[i].id == id;
      }
      if i :| 0 <= i < |c| && c[i].id == id && s in c[i].owed {
        assert q[i].id == id && s in q[i].owed;
      }
    }
  }

  lemma PendingAppend(q: seq<Entry>, e: Entry, id: nat)
    ensures Pending(q + [e], id) == if id == e.id then Pending(q, id) + e.owed else Pending(q, id)
  {
  }

  // One lemma per kind of step.

  lemma PublishAccounted(t: Trace, ev: Event, now: nat)
    requires |t.queue| < CAPACITY
    requires QueueOk(t.queue, t.fates) && Accounted(t)
    ensures Accounted(Step(t, Publish(ev, now)))
  {
    var t' := Step(t, Publish(ev, now));
    forall id | 0 <= id < |t'.fates| ensures Settled(t'.fates[id], Pending(t'.queue, id)) {
      PendingAppend(t.queue, Entry(|t.fates|, ev, MaskOf(ev), now), id);
      if id < |t.fates| {
        assert Settled(t.fates[id], Pending(t.queue, id));
      }
    }
  }

  lemma PublishQueue(t: Trace, ev: Event, now: nat)
    requires |t.queue| < CAPACITY && QueueOk(t.queue, t.fates)
    ensures QueueOk(Step(t, Publish(ev, now)).queue, Step(t, Publish(ev, now)).fates)
  {
  }

  lemma PublishLog(t: Trace, ev: Event, now: nat)
    requires |t.queue| < CAPACITY && LogOk(t)
    ensures LogOk(Step(t, Publish(ev, now)))
  {
  }

  lemma PublishKeeps(t: Trace, ev: Event, now: nat)
    requires Inv(t)
    ensures Inv(Step(t, Publish(ev, now)))
  {
    if |t.queue| < CAPACITY {
      hide QueueOk, Accounted, LogOk;
      PublishQueue(t, ev, now);
      PublishAccounted(t, ev, now);
      PublishLog(t, ev, now);
    }
  }

  lemma SuffixOk(q: seq<Entry>, drop: nat, fates: seq<Fate>)
    requires drop <= |q| && QueueOk(q, fates)
    ensures QueueOk(q[drop..], fates)
  {
  }

  lemma SweepQueue(t: Trace, now: nat)
    requires QueueOk(t.queue, t.fates)
    ensures QueueOk(Swept(t, now).queue, Swept(t, now).fates)
  {
    var x := Expire(t.queue, now);
    var t' := Swept(t, now);
    assert QueueOk(x, t'.fates);
    SuffixOk(x, |x| - |t'.queue|, t'.fates);
  }

  lemma SweepAccounted(t: Trace, now: nat)
    requires QueueOk(t.queue, t.fates) && Accounted(t)
    ensures Accounted(Swept(t, now))
  {
    var t' := Swept(t, now);
    forall id | 0 <= id < |t'.fates| ensures Settled(t'.fates[id], Pending(t'.queue, id)) {
      assert Settled(t.fates[id], Pending(t.queue, id));
      PendingExpire(t.queue, now, id);
      PendingDropHoles(Expire(t.queue, now), id);
    }
  }

  lemma SweepLog(t: Trace, now: nat)
    requires LogOk(t)
    ensures LogOk(Swept(t, now))
  {
    var t' := Swept(t, now);
    var drop := |t.queue| - |t'.queue|;
    forall d, i | 0 <= d < |t'.log| && 0 <= i < |t'.queue| && t'.log[d].to in t'.queue[i].owed
      ensures t'.log[d].id < t'.queue[i].id
    {
      assert t'.queue[i] == ExpireEntry(t.queue[i + drop], now);
      assert t.log[d].to in t.queue[i + drop].owed;
    }
  }

  lemma SweepKeeps(t: Trace, now: nat)
    requires Inv(t)
    ensures Inv(Swept(t, now))
  {
    SweepQueue(t, now);
    SweepAccounted(t, now);
    SweepLog(t, now);
  }

  lemma DeliverQueue(t: Trace, k: nat, r: Agent, now: nat)
    requires k < |t.queue| && QueueOk(t.queue, t.fates)
    ensures QueueOk(Deliver(t, k, r, now).queue, Deliver(t, k, r, now).fates)
  {
    var cleared := Clear(t.queue, k, r);
    var t' := Deliver(t, k, r, now);
    assert QueueOk(cleared, t'.fates);
    SuffixOk(cleared, |cleared| - |t'.queue|, t'.fates);
  }

  lemma DeliverAccounted(t: Trace, k: nat, r: Agent, now: nat)
    requires k < |t.queue| && r in t.queue[k].owed
    requires QueueOk(t.queue, t.fates) && Accounted(t)
    ensures Accounted(Deliver(t, k, r, now))
  {
    var t' := Deliver(t, k, r, now);
    forall id | 0 <= id < |t'.fates| ensures Settled(t'.fates[id], Pending(t'.queue, id)) {
      assert Settled(t.fates[id], Pending(t.queue, id));
      PendingClear(t.queue, k, r, id);
      PendingDropHoles(Clear(t.queue, k, r), id);
    }
  }

  lemma DeliverAhead(t: Trace, r: Agent, now: nat)
    requires QueueOk(t.queue, t.fates) && LogAheadOfQueue(t)
    requires FirstFor(t.queue, r) < |t.queue|
    ensures LogAheadOfQueue(Deliver(t, FirstFor(t.queue, r), r, now))
  {
    var k := FirstFor(t.queue, r);
    var cleared := Clear(t.queue, k, r);
    var drop := HoleCount(cleared);
    var t' := Deliver(t, k, r, now);
    forall d, i | 0 <= d < |t'.log| && 0 <= i < |t'.queue| && t'.log[d].to in t'.queue[i].owed
      ensures t'.log[d].id < t'.queue[i].id
    {
      assert t'.queue[i] == cleared[i + drop];
      assert t'.log[d].to in t.queue[i + drop].owed;
      assert d == |t.log| ==> k < i + drop;
    }
  }

  lemma DeliverLog(t: Trace, r: Agent, now: nat)
    requires QueueOk(t.queue, t.fates) && LogOk(t)
    requires FirstFor(t.queue, r) < |t.queue|
    ensures LogOk(Deliver(t, FirstFor(t.queue, r), r, now))
  {
    DeliverAhead(t, r, now);
  }

  lemma DeliverKeeps(t: Trace, r: Agent, now: nat)
    requires Inv(t)
    requires FirstFor(t.queue, r) < |t.queue|
    ensures Inv(Deliver(t, FirstFor(t.queue, r), r, now))
  {
    DeliverQueue(t, FirstFor(t.queue, r), r, now);
    DeliverAccounted(t, FirstFor(t.queue, r), r, now);
    DeliverLog(t, r, now);
  }

  lemma StepKeeps(t: Trace, op: Op)
    requires Inv(t)
    ensures Inv(Step(t, op))
  {
    match op
    case Publish(ev, now) =>
      PublishKeeps(t, ev, now);
    case Receive(r, now) =>
      SweepKeeps(t, now);
      var s := Swept(t, now);
      if FirstFor(s.queue, r) < |s.queue| {
        DeliverKeeps(s, r, now);
      }
  }

  /** Every interleaving of publishes and receives, at any times at all, keeps the invariant. */
  lemma {:induction false} RunKeeps(t: Trace, ops: seq<Op>)
    requires Inv(t)
    ensures Inv(Run(t, ops))
    decreases |ops|
  {
    if ops != [] {
      StepKeeps(t, ops[0]);
      RunKeeps(Step(t, ops[0]), ops[1..]);
    }
  }

  // The log is complete, and expiry is not premature.

  ghost predicate Logged(log: seq<Delivery>, id: nat, r: Agent) {
    exists d :: 0 <= d < |log| && log[d].id == id && log[d].to == r
  }

  /** Every receiver recorded as having an event really was handed it. */
  ghost predicate DeliveriesLogged(t: Trace) {
    forall id, r :: 0 <= id < |t.fates| && r in t.fates[id].delivered ==> Logged(t.log, id, r)
  }

  lemma DeliverLogs(t: Trace, k: nat, r: Agent, now: nat)
    requires k < |t.queue| && DeliveriesLogged(t)
    ensures DeliveriesLogged(Deliver(t, k, r, now))
  {
    var t' := Deliver(t, k, r, now);
    forall id, s | 0 <= id < |t'.fates| && s in t'.fates[id].delivered ensures Logged(t'.log, id, s) {
      if s in t.fates[id].delivered {
        var d :| 0 <= d < |t.log| && t.log[d].id == id && t.log[d].to == s;
        assert t'.log[d] == t.log[d];
      } else {
        assert t'.log[|t.log|] == Delivery(r, id, t.queue[k].ev, now);
      }
    }
  }

  lemma StepLogs(t: Trace, op: Op)
    requires DeliveriesLogged(t)
    ensures DeliveriesLogged(Step(t, op))
  {
    if op.Receive? {
      var s := Swept(t, op.now);
      assert DeliveriesLogged(s);
      if FirstFor(s.queue, op.r) < |s.queue| {
        DeliverLogs(s, FirstFor(s.queue, op.r), op.r, op.now);
      }
    }
  }

  /** Delivered means handed over exactly once, in every run. */
  lemma {:induction false} DeliveredMeansHandedOver(t: Trace, ops: seq<Op>)
    requires DeliveriesLogged(t)
    ensures DeliveriesLogged(Run(t, ops))
    decreases |ops|
  {
    if ops != [] {
      StepLogs(t, ops[0]);
      DeliveredMeansHandedOver(Step(t, ops[0]), ops[1..]);
    }
  }

  /** A sweep gives a receiver up only if the event's age, as the firmware computes it, is over 1100 ms. */
  lemma ExpiresOnlyStale(t: Trace, now: nat, id: nat, r: Agent)
    requires QueueOk(t.queue, t.fates) && id < |t.fates|
    requires r in Swept(t, now).fates[id].expired && r !in t.fates[id].expired
    ensures Age(now, t.fates[id].at) > 1100
  {
    var x := Expire(t.queue, now);
    PendingDropHoles(x, id);
    PendingMeans(t.queue, id, r);
    PendingMeans(x, id, r);
    var i :| 0 <= i < |t.queue| && t.queue[i].id == id && r in t.queue[i].owed;
    assert x[i] == ExpireEntry(t.queue[i], now);
  }

  lemma StartIsSound(t: Trace)
    requires Start(t)
    ensures Inv(t)
  {
  }

  function Ones(delivered: bool, pending: bool, expired: bool): nat {
    (if delivered then 1 else 0) + (if pending then 1 else 0) + (if expired then 1 else 0)
  }

  lemma ExactlyOneFate(f: Fate, pending: Mask, r: Agent)
    requires Settled(f, pending)
    ensures Ones(r in f.delivered, r in pending, r in f.expired) ==
            if r in f.sent then 1 else 0
  {
  }

  /** In every run from the empty mailbox: a receiver an event is addressed to has it delivered,
      pending or expired, exactly one of the three, and an agent it is not addressed to none;
      the log holds no delivery twice and follows publication order for each receiver; and the
      head slot still owes its event to somebody. */
  lemma EveryDeliveryAccountedFor(start: Trace, ops: seq<Op>, id: nat, r: Agent)
    requires Start(start)
    requires id < |Run(start, ops).fates|
    ensures var t := Run(start, ops);
      Ones(r in t.fates[id].delivered, r in Pending(t.queue, id), r in t.fates[id].expired) ==
      if Addressed(t.fates[id].ev.to, r) then 1 else 0
    ensures var t := Run(start, ops);
      r in t.fates[id].delivered <==> Logged(t.log, id, r)
    ensures var t := Run(start, ops);
      LogInOrder(t)
    ensures var t := Run(start, ops); t.queue != [] ==> t.queue[0].owed != {}
  {
    StartIsSound(start);
    DeliveredMeansHandedOver(start, ops);
    RunKeeps(start, ops);
    var t := Run(start, ops);
    assert Settled(t.fates[id], Pending(t.queue, id));
    ExactlyOneFate(t.fates[id], Pending(t.queue, id), r);
    MaskIsAddressed(t.fates[id].ev, r);
  }

  /** What an accepted publish puts into the queue: the event, at the end, owed to exactly those it is for. */
  lemma PublishedFor(t: Trace, ev: Event, now: nat, r: Agent)
    requires !Refuses(t)
    ensures var q := Step(t, Publish(ev, now)).queue;
      && |q| == |t.queue| + 1 && q[..|t.queue|] == t.queue
      && q[|t.queue|].ev == ev && q[|t.queue|].at == now
      && (r in q[|t.queue|].owed <==> Addressed(ev.to, r))
  {
    MaskIsAddressed(ev, r);
  }

  // ---------------------------------------------------------------- expiry

  ghost predicate Sorted(q: seq<Entry>) {
    forall i, j :: 0 <= i < j < |q| ==> q[i].at <= q[j].at
  }

  /** How many entries at the front are older than the time to live. */
  function StaleCount(q: seq<Entry>, now: nat, i: nat := 0): (n: nat)
    requires i <= |q|
    requires forall j :: 0 <= j < i ==> q[j].at + TTL_MS < now
    ensures i <= n <= |q|
    ensures forall j :: 0 <= j < n ==> q[j].at + TTL_MS < now
    ensures n < |q| ==> now <= q[n].at + TTL_MS
    decreases |q| - i
  {
    if i == |q| || now <= q[i].at + TTL_MS then i else StaleCount(q, now, i + 1)
  }

  lemma DropHolesAfterClearing(q: seq<Entry>, n: nat, x: seq<Entry>)
    requires n <= |q| == |x| && n <= HoleCount(x)
    requires forall i :: n <= i < |q| ==> x[i] == q[i]
    ensures DropHoles(x) == DropHoles(q[n..])
  {
    hide HoleCount;
    var live := q[n..];
    var h := HoleCount(x);
    assert live == x[n..];
    forall i | 0 <= i < h - n ensures live[i].owed == {} {
      assert live[i] == x[n + i];
    }
    assert h < |x| ==> live[h - n] == x[h];
    HoleCountIs(live, h - n);
    assert live[h - n..] == x[h..];
  }

  lemma ExpireClearsPrefix(q: seq<Entry>, now: nat)
    requires Sorted(q)
    requires forall i :: 0 <= i < |q| ==> q[i].at <= now < q[i].at + CLOCK_SPAN
    ensures var n := StaleCount(q, now);
      forall i :: 0 <= i < |q| ==> Expire(q, now)[i] == if i < n then q[i].(owed := {}) else q[i]
    ensures StaleCount(q, now) <= HoleCount(Expire(q, now))
  {
    var n := StaleCount(q, now);
    forall i | 0 <= i < |q| ensures Expire(q, now)[i] == if i < n then q[i].(owed := {}) else q[i] {
      AgeIsTrueAge(now, q[i].at);
      assert n <= i ==> q[n].at <= q[i].at;
    }
  }

  /** One sweep removes exactly the stale prefix, consumed holes included, and then the holes that
      have become the head; nothing behind them changes. */
  lemma SweepDropsStalePrefix(q: seq<Entry>, now: nat)
    requires Sorted(q)
    requires forall i :: 0 <= i < |q| ==> q[i].at <= now < q[i].at + CLOCK_SPAN
    ensures Sweep(q, now) == DropHoles(q[StaleCount(q, now)..])
  {
    ExpireClearsPrefix(q, now);
    DropHolesAfterClearing(q, StaleCount(q, now), Expire(q, now));
  }

  /** The clock never runs backwards, and nothing queued has reached an age of 2^32 ms when a receive
      looks at it. */
  ghost predicate Timely(t: Trace, op: Op) {
    && t.clock <= op.now
    && (op.Receive? ==> forall i :: 0 <= i < |t.queue| ==> op.now < t.queue[i].at + CLOCK_SPAN)
  }

  ghost predicate TimelyRun(t: Trace, ops: seq<Op>)
    decreases |ops|
  {
    ops == [] || (Timely(t, ops[0]) && TimelyRun(Step(t, ops[0]), ops[1..]))
  }

  /** Everything queued was published no earlier than 1100 ms before the last sweep. */
  ghost predicate QueuedIsFresh(t: Trace) {
    forall i :: 0 <= i < |t.queue| ==> t.lastSweep <= t.queue[i].at + 1100 && t.queue[i].at <= t.clock
  }

  /** Everything delivered was at most 1100 ms old at that moment. */
  ghost predicate DeliveredWasFresh(t: Trace) {
    forall d :: 0 <= d < |t.log| ==>
      t.log[d].id < |t.fates| && t.fates[t.log[d].id].at <= t.log[d].when <= t.fates[t.log[d].id].at + 1100
  }

  ghost predicate Fresh(t: Trace) {
    && Sorted(t.queue)
    && t.lastSweep <= t.clock
    && QueuedIsFresh(t)
    && DeliveredWasFresh(t)
  }

  lemma HolesFrom(q: seq<Entry>, n: nat)
    requires n <= |q|
    ensures forall i :: n <= i < n + HoleCount(q[n..]) ==> q[i].owed == {}
  {
    hide HoleCount;
    var live := q[n..];
    forall i | n <= i < n + HoleCount(live) ensures q[i].owed == {} {
      assert live[i - n] == q[i];
    }
  }

  lemma HolesAreCut(q: seq<Entry>, n: nat)
    requires n <= |q|
    ensures n + HoleCount(q[n..]) <= |q| && DropHoles(q[n..]) == q[n + HoleCount(q[n..])..]
  {
  }

  lemma YoungBehind(q: seq<Entry>, now: nat)
    requires Sorted(q)
    ensures forall i :: StaleCount(q, now) <= i < |q| ==> now <= q[i].at + TTL_MS
  {
    hide StaleCount;
    var n := StaleCount(q, now);
    forall i | n <= i < |q| ensures now <= q[i].at + TTL_MS {
      assert q[n].at <= q[i].at;
    }
  }

  /** What a sweep leaves is a suffix of the queue, none of it stale. */
  lemma SweepLeavesFreshSuffix(q: seq<Entry>, now: nat) returns (drop: nat)
    requires Sorted(q)
    requires forall i :: 0 <= i < |q| ==> q[i].at <= now < q[i].at + CLOCK_SPAN
    ensures drop <= |q| && Sweep(q, now) == q[drop..]
    ensures forall i :: drop <= i < |q| ==> now <= q[i].at + TTL_MS
    ensures forall i :: 0 <= i < drop ==> q[i].owed == {} || q[i].at + TTL_MS < now
  {
    hide Sweep, StaleCount, HoleCount, Sorted, DropHoles;
    SweepDropsStalePrefix(q, now);
    var n := StaleCount(q, now);
    drop := n + HoleCount(q[n..]);
    HolesAreCut(q, n);
    YoungBehind(q, now);
    HolesFrom(q, n);
  }

  /** Entry i is owed to `r` and not yet too old. */
  ghost predicate Deliverable(q: seq<Entry>, i: int, r: Agent, now: nat) {
    0 <= i < |q| && r in q[i].owed && now <= q[i].at + 1100
  }

  ghost predicate OldestDeliverable(q: seq<Entry>, i: int, r: Agent, now: nat) {
    Deliverable(q, i, r, now) && forall j :: 0 <= j < i ==> !Deliverable(q, j, r, now)
  }

  /** A receive hands over the oldest event still owed to the receiver and at most 1100 ms old,
      whatever holes and stale entries are in between, and nothing exactly when there is none. */
  lemma HandedIsOldestDeliverable(q: seq<Entry>, r: Agent, now: nat)
    requires Sorted(q)
    requires forall i :: 0 <= i < |q| ==> q[i].at <= now < q[i].at + CLOCK_SPAN
    ensures Handed(q, r, now).Some? ==>
      exists i :: OldestDeliverable(q, i, r, now) && Handed(q, r, now) == Some(q[i])
    ensures Handed(q, r, now) == None <==> forall i :: !Deliverable(q, i, r, now)
  {
    var drop := SweepLeavesFreshSuffix(q, now);
    var k := FirstFor(q[drop..], r);
    forall i | 0 <= i < drop + k ensures !Deliverable(q, i, r, now) {
      assert i >= drop ==> q[i] == q[drop..][i - drop];
    }
    if k < |q[drop..]| {
      assert q[drop + k] == q[drop..][k] && OldestDeliverable(q, drop + k, r, now);
    }
  }

  lemma FreshSuffix(t: Trace, drop: nat, now: nat, t': Trace)
    requires Fresh(t) && t.clock <= now
    requires drop <= |t.queue| && forall i :: drop <= i < |t.queue| ==> now <= t.queue[i].at + TTL_MS
    requires t'.queue == t.queue[drop..] && t'.log == t.log && t'.clock == t'.lastSweep == now
    requires |t'.fates| == |t.fates| && forall id :: 0 <= id < |t.fates| ==> t'.fates[id].at == t.fates[id].at
    ensures Fresh(t')
  {
  }

  lemma SweepStaysFresh(t: Trace, now: nat)
    requires QueueOk(t.queue, t.fates) && Fresh(t)
    requires t.clock <= now && forall i :: 0 <= i < |t.queue| ==> now < t.queue[i].at + CLOCK_SPAN
    ensures Fresh(Swept(t, now))
  {
    var drop := SweepLeavesFreshSuffix(t.queue, now);
    FreshSuffix(t, drop, now, Swept(t, now));
  }

  lemma DeliverStaysFresh(t: Trace, k: nat, r: Agent, now: nat)
    requires QueueOk(t.queue, t.fates) && Fresh(t) && t.clock == t.lastSweep == now
    requires k < |t.queue|
    ensures Fresh(Deliver(t, k, r, now))
  {
    var cleared := Clear(t.queue, k, r);
    var t' := Deliver(t, k, r, now);
    assert t'.queue == cleared[HoleCount(cleared)..];
  }

  lemma PublishStaysFresh(t: Trace, ev: Event, now: nat)
    requires Fresh(t) && t.clock <= now
    ensures Fresh(Step(t, Publish(ev, now)))
  {
  }

  lemma StepStaysFresh(t: Trace, op: Op)
    requires Inv(t) && Fresh(t) && Timely(t, op)
    ensures Fresh(Step(t, op))
  {
    hide Fresh, QueueOk, Accounted, LogOk, FirstFor, Sweep;
    if op.Publish? {
      PublishStaysFresh(t, op.ev, op.now);
    } else {
      SweepStaysFresh(t, op.now);
      SweepQueue(t, op.now);
      var s := Swept(t, op.now);
      if FirstFor(s.queue, op.r) < |s.queue| {
        DeliverStaysFresh(s, FirstFor(s.queue, op.r), op.r, op.now);
      }
    }
  }

  lemma {:induction false} RunStaysFresh(t: Trace, ops: seq<Op>)
    requires Inv(t) && Fresh(t) && TimelyRun(t, ops)
    ensures Fresh(Run(t, ops))
    decreases |ops|
  {
    if ops != [] {
      StepKeeps(t, ops[0]);
      StepStaysFresh(t, ops[0]);
      RunStaysFresh(Step(t, ops[0]), ops[1..]);
    }
  }

  lemma StartIsFresh(t: Trace)
    requires Start(t)
    ensures Inv(t) && Fresh(t)
  {
  }

  /** In every timely run from the empty mailbox no receiver is handed an event older than 1100 ms,
      and when a publish is refused all 31 usable slots were filled no earlier than 1100 ms before
      the last sweep: stale events and consumed holes never cause a refusal on their own. */
  lemma NothingStaleIsDelivered(start: Trace, ops: seq<Op>)
    requires Start(start) && TimelyRun(start, ops)
    ensures DeliveredWasFresh(Run(start, ops))
    ensures Refuses(Run(start, ops)) ==> |Run(start, ops).queue| == 31
    ensures QueuedIsFresh(Run(start, ops))
  {
    StartIsFresh(start);
    RunKeeps(start, ops);
    RunStaysFresh(start, ops);
  }

  // ---------------------------------------------------------------- handed in time

  /** How many entries are owed to `r`, up to and including event `id`. */
  function Ahead(q: seq<Entry>, r: Agent, id: nat): nat {
    if q == [] then 0
    else
      var e := q[|q| - 1];
      Ahead(q[..|q| - 1], r, id) + if e.id <= id && r in e.owed then 1 else 0
  }

  lemma AheadSnoc(q: seq<Entry>, e: Entry, r: Agent, id: nat)
    ensures Ahead(q + [e], r, id) == Ahead(q, r, id) + if e.id <= id && r in e.owed then 1 else 0
  {
    assert (q + [e])[..|q|] == q;
  }

  lemma {:induction false} AheadOfPending(q: seq<Entry>, r: Agent, id: nat, i: nat)
    requires i < |q| && q[i].id == id && r in q[i].owed
    ensures Ahead(q, r, id) >= 1
  {
    if i < |q| - 1 {
      AheadOfPending(q[..|q| - 1], r, id, i);
    }
  }

  lemma {:induction false} AheadExpire(q: seq<Entry>, now: nat, r: Agent, id: nat)
    ensures Ahead(Expire(q, now), r, id) <= Ahead(q, r, id)
  {
    if q != [] {
      var front := q[..|q| - 1];
      AheadExpire(front, now, r, id);
      assert Expire(q, now) == Expire(front, now) + [ExpireEntry(q[|q| - 1], now)];
      AheadSnoc(Expire(front, now), ExpireEntry(q[|q| - 1], now), r, id);
    }
  }

  lemma {:induction false} AheadDrop(q: seq<Entry>, n: nat, r: Agent, id: nat)
    requires n <= |q| && forall i :: 0 <= i < n ==> q[i].owed == {}
    ensures Ahead(q[n..], r, id) == Ahead(q, r, id)
    decreases |q|
  {
    if n == |q| {
      if n > 0 {
        AheadDrop(q[..n - 1], n - 1, r, id);
        assert q[..n - 1][n - 1..] == q[n..];
      }
    } else {
      var front := q[..|q| - 1];
      AheadDrop(front, n, r, id);
      assert q[n..] == front[n..] + [q[|q| - 1]];
      AheadSnoc(front[n..], q[|q| - 1], r, id);
    }
  }

  /** Clearing a bit takes one entry off the count exactly when it is counted. */
  lemma {:induction false} AheadClear(q: seq<Entry>, k: nat, s: Agent, r: Agent, id: nat)
    requires k < |q|
    ensures Ahead(Clear(q, k, s), r, id) ==
      Ahead(q, r, id) - if s == r && q[k].id <= id && r in q[k].owed then 1 else 0
  {
    var front, last := q[..|q| - 1], q[|q| - 1];
    if k == |q| - 1 {
      var cleared := last.(owed := last.owed - {s});
      assert Clear(q, k, s) == front + [cleared];
      AheadSnoc(front, cleared, r, id);
    } else {
      AheadClear(front, k, s, r, id);
      assert Clear(q, k, s) == Clear(front, k, s) + [last];
      AheadSnoc(Clear(front, k, s), last, r, id);
    }
  }

  /** How many of the operations are receives by `r`. */
  function Receives(ops: seq<Op>, r: Agent): nat {
    if ops == [] then 0 else (if ops[0].Receive? && ops[0].r == r then 1 else 0) + Receives(ops[1..], r)
  }

  ghost predicate WaitsAt(q: seq<Entry>, i: int, id: nat, r: Agent, at: nat) {
    0 <= i < |q| && q[i].id == id && q[i].at == at && r in q[i].owed
  }

  /** Event `id`, published at `at`, still waits for `r` with at most `ahead` entries to go. */
  ghost predicate WaitsFor(t: Trace, id: nat, r: Agent, at: nat, ahead: nat) {
    id < |t.fates| && Ahead(t.queue, r, id) <= ahead && exists i :: WaitsAt(t.queue, i, id, r, at)
  }

  lemma DropKeepsWaiting(q: seq<Entry>, i: int, id: nat, r: Agent, at: nat)
    requires WaitsAt(q, i, id, r, at)
    ensures i >= HoleCount(q) && WaitsAt(DropHoles(q), i - HoleCount(q), id, r, at)
    ensures Ahead(DropHoles(q), r, id) == Ahead(q, r, id)
  {
    AheadDrop(q, HoleCount(q), r, id);
  }

  lemma ClearKeepsWaiting(q: seq<Entry>, k: nat, s: Agent, i: int, id: nat, r: Agent, at: nat)
    requires k < |q| && WaitsAt(q, i, id, r, at) && !(s == r && i == k)
    ensures WaitsAt(Clear(q, k, s), i, id, r, at)
  {
  }

  ghost predicate Got(t: Trace, id: nat, r: Agent) {
    id < |t.fates| && r in t.fates[id].delivered
  }

  /** What is at most 1100 ms old survives a sweep. */
  lemma SweepKeepsWaiting(t: Trace, now: nat, id: nat, r: Agent, at: nat, ahead: nat)
    requires WaitsFor(t, id, r, at, ahead) && at <= now <= at + TTL_MS
    ensures WaitsFor(Swept(t, now), id, r, at, ahead)
  {
    var x := Expire(t.queue, now);
    AheadExpire(t.queue, now, r, id);
    var i :| WaitsAt(t.queue, i, id, r, at);
    AgeIsTrueAge(now, at);
    assert x[i] == ExpireEntry(t.queue[i], now) == t.queue[i];
    DropKeepsWaiting(x, i, id, r, at);
  }

  /** A delivery to `r` takes the event itself or one ahead of it; one to another agent changes nothing. */
  lemma DeliverWaiting(t: Trace, s: Agent, now: nat, id: nat, r: Agent, at: nat, ahead: nat)
    requires QueueOk(t.queue, t.fates) && WaitsFor(t, id, r, at, ahead) && FirstFor(t.queue, s) < |t.queue|
    ensures var n := Deliver(t, FirstFor(t.queue, s), s, now);
      || Got(n, id, r)
      || (if s == r then ahead > 0 && WaitsFor(n, id, r, at, ahead - 1) else WaitsFor(n, id, r, at, ahead))
  {
    hide FirstFor, HoleCount, DropHoles, Clear, Ahead;
    var k := FirstFor(t.queue, s);
    var i :| WaitsAt(t.queue, i, id, r, at);
    if s != r || i != k {
      var c := Clear(t.queue, k, s);
      AheadOfPending(t.queue, r, id, i);
      AheadClear(t.queue, k, s, r, id);
      ClearKeepsWaiting(t.queue, k, s, i, id, r, at);
      DropKeepsWaiting(c, i, id, r, at);
      assert s == r ==> k < i;
    }
  }

  lemma PublishWaiting(t: Trace, ev: Event, now: nat, id: nat, r: Agent, at: nat, ahead: nat)
    requires WaitsFor(t, id, r, at, ahead)
    ensures WaitsFor(Step(t, Publish(ev, now)), id, r, at, ahead)
  {
    var n := Step(t, Publish(ev, now));
    if !Refuses(t) {
      AheadSnoc(t.queue, Entry(|t.fates|, ev, MaskOf(ev), now), r, id);
      var i :| WaitsAt(t.queue, i, id, r, at);
      assert WaitsAt(n.queue, i, id, r, at);
    }
  }

  lemma SoundQueue(t: Trace)
    requires Inv(t)
    ensures QueueOk(t.queue, t.fates)
  {
  }

  lemma NotFirstForNobody(t: Trace, id: nat, r: Agent, at: nat, ahead: nat, s: Agent)
    requires WaitsFor(t, id, r, at, ahead) && FirstFor(t.queue, s) == |t.queue|
    ensures s != r
  {
  }

  lemma StepWaiting(t: Trace, op: Op, id: nat, r: Agent, at: nat, ahead: nat)
    requires Inv(t) && WaitsFor(t, id, r, at, ahead) && at <= op.now <= at + TTL_MS
    ensures var n := Step(t, op);
      || Got(n, id, r)
      || (if op.Receive? && op.r == r then ahead > 0 && WaitsFor(n, id, r, at, ahead - 1)
          else WaitsFor(n, id, r, at, ahead))
  {
    hide WaitsFor, Got, Inv, Refuses;
    match op
    case Publish(ev, now) => PublishWaiting(t, ev, now, id, r, at, ahead);
    case Receive(s, now) => {
      SweepKeepsWaiting(t, now, id, r, at, ahead);
      SoundQueue(t);
      SweepQueue(t, now);
      var swept := Swept(t, now);
      if FirstFor(swept.queue, s) < |swept.queue| {
        DeliverWaiting(swept, s, now, id, r, at, ahead);
      } else {
        NotFirstForNobody(swept, id, r, at, ahead, s);
      }
    }
  }

  lemma StepKeepsGot(t: Trace, op: Op, id: nat, r: Agent)
    requires Got(t, id, r)
    ensures Got(Step(t, op), id, r)
  {
    hide Sweep, FirstFor, Pending, Clear, DropHoles, MaskOf;
  }

  lemma {:induction false} RunKeepsGot(t: Trace, ops: seq<Op>, id: nat, r: Agent)
    requires Got(t, id, r)
    ensures Got(Run(t, ops), id, r)
    decreases |ops|
  {
    hide Got, Step;
    if ops != [] {
      StepKeepsGot(t, ops[0], id, r);
      RunKeepsGot(Step(t, ops[0]), ops[1..], id, r);
    }
  }

  lemma NothingAheadWaits(t: Trace, id: nat, r: Agent, at: nat, ahead: nat)
    requires WaitsFor(t, id, r, at, ahead)
    ensures ahead > 0
  {
    var i :| WaitsAt(t.queue, i, id, r, at);
    AheadOfPending(t.queue, r, id, i);
  }

  lemma {:induction false} ReceivesReach(t: Trace, ops: seq<Op>, id: nat, r: Agent, at: nat, ahead: nat)
    requires Inv(t) && WaitsFor(t, id, r, at, ahead)
    requires forall i :: 0 <= i < |ops| ==> at <= ops[i].now <= at + TTL_MS
    requires Receives(ops, r) >= ahead
    ensures Got(Run(t, ops), id, r)
    decreases |ops|
  {
    hide Inv, Step, Got;
    if ops == [] {
      NothingAheadWaits(t, id, r, at, ahead);
    } else {
      var n := Step(t, ops[0]);
      StepWaiting(t, ops[0], id, r, at, ahead);
      StepKeeps(t, ops[0]);
      if Got(n, id, r) {
        RunKeepsGot(n, ops[1..], id, r);
      } else if ops[0].Receive? && ops[0].r == r {
        ReceivesReach(n, ops[1..], id, r, at, ahead - 1);
      } else {
        ReceivesReach(n, ops[1..], id, r, at, ahead);
      }
    }
  }

  /** How many entries are owed to `r`. */
  function OwedTo(q: seq<Entry>, r: Agent): nat {
    if q == [] then 0 else OwedTo(q[..|q| - 1], r) + if r in q[|q| - 1].owed then 1 else 0
  }

  lemma {:induction false} AheadIsOwed(q: seq<Entry>, r: Agent, id: nat)
    requires forall i :: 0 <= i < |q| ==> q[i].id <= id
    ensures Ahead(q, r, id) == OwedTo(q, r)
  {
    if q != [] {
      AheadIsOwed(q[..|q| - 1], r, id);
    }
  }

  lemma PublishedWaits(t: Trace, ev: Event, now: nat, r: Agent)
    requires Inv(t) && !Refuses(t) && r in MaskOf(ev)
    ensures WaitsFor(Step(t, Publish(ev, now)), |t.fates|, r, now, OwedTo(t.queue, r) + 1)
  {
    hide Accounted, LogOk, MaskOf;
    var id := |t.fates|;
    var e := Entry(id, ev, MaskOf(ev), now);
    AheadIsOwed(t.queue, r, id);
    AheadSnoc(t.queue, e, r, id);
    assert WaitsAt(Step(t, Publish(ev, now)).queue, |t.queue|, id, r, now);
  }

  /** An accepted event reaches everyone it is for who receives, within 1100 ms of publication, at least
      once for each entry owed to them then, this one included; whatever the others do in between. */
  lemma HandedInTime(t: Trace, ev: Event, now: nat, r: Agent, ops: seq<Op>)
    requires Inv(t) && |t.queue| < 31 && Addressed(ev.to, r)
    requires forall i :: 0 <= i < |ops| ==> now <= ops[i].now <= now + 1100
    requires Receives(ops, r) >= OwedTo(t.queue, r) + 1
    ensures Got(Run(Step(t, Publish(ev, now)), ops), |t.fates|, r)
  {
    hide Inv, Step, Got, Addressed, WaitsFor, MaskOf;
    MaskIsAddressed(ev, r);
    PublishedWaits(t, ev, now, r);
    StepKeeps(t, Publish(ev, now));
    ReceivesReach(Step(t, Publish(ev, now)), ops, |t.fates|, r, now, OwedTo(t.queue, r) + 1);
  }

  // ---------------------------------------------------------------- refusals

  /** Equal but for the clock, which every step sets and none looks at. */
  predicate SameMail(t: Trace, u: Trace) {
    t == u.(clock := t.clock)
  }

  /** A refused publish leaves no trace: whatever happens afterwards, every queue, fate and delivery is as
      if it had never been attempted. */
  lemma RefusedPublishLeavesNoTrace(t: Trace, ev: Event, now: nat, ops: seq<Op>)
    requires Refuses(t)
    ensures SameMail(Run(t, [Publish(ev, now)] + ops), Run(t, ops))
  {
    var first := [Publish(ev, now)] + ops;
    assert first[1..] == ops;
    assert ops != [] ==> Step(Step(t, Publish(ev, now)), ops[0]) == Step(t, ops[0]);
  }

  // ---------------------------------------------------------------- the wrapping clock

  /** Entry i is owed to `r` and its 32-bit age is no more than 1100 ms. */
  ghost predicate LooksDeliverable(q: seq<Entry>, i: int, r: Agent, now: nat) {
    0 <= i < |q| && r in q[i].owed && Age(now, q[i].at) <= 1100
  }

  ghost predicate FirstThatLooks(q: seq<Entry>, i: int, r: Agent, now: nat) {
    LooksDeliverable(q, i, r, now) && forall j :: 0 <= j < i ==> !LooksDeliverable(q, j, r, now)
  }

  /** Whatever the clock does and in whatever order entries are queued, a receive hands over the first
      entry whose 32-bit age is at most 1100 ms, and nothing exactly when there is none. */
  lemma HandedIsFirstThatLooks(q: seq<Entry>, r: Agent, now: nat)
    ensures Handed(q, r, now) == None <==> forall i :: !LooksDeliverable(q, i, r, now)
    ensures Handed(q, r, now).Some? ==>
      exists i :: FirstThatLooks(q, i, r, now) && Handed(q, r, now) == Some(q[i])
  {
    var x, s := Expire(q, now), Sweep(q, now);
    var drop := HoleCount(x);
    var k := FirstFor(s, r);
    forall i | 0 <= i < drop + k ensures !LooksDeliverable(q, i, r, now) {
      assert x[i] == ExpireEntry(q[i], now);
      assert i >= drop ==> x[i] == s[i - drop];
    }
    if k < |s| {
      var i := drop + k;
      assert s[k] == x[i] == ExpireEntry(q[i], now);
      assert r in x[i].owed;
      assert FirstThatLooks(q, i, r, now);
    }
  }

  /** The age modulo 2^32 of what is handed over is never more than 1100 ms. */
  lemma HandedAgeIsBounded(q: seq<Entry>, r: Agent, now: nat)
    requires Handed(q, r, now).Some?
    ensures (now - Handed(q, r, now).value.at) % 0x1_0000_0000 <= 1100
  {
    HandedIsFirstThatLooks(q, r, now);
    AgeIsTrueAge(now, Handed(q, r, now).value.at);
  }

  function EmptyMailbox(): Trace {
    Trace([], [], [], 0, 0)
  }

  /** The clock never runs backwards, and a receive comes at most `gap` ms after the one before (or after
      the start). */
  ghost predicate Polled(t: Trace, op: Op, gap: nat) {
    t.clock <= op.now && (op.Receive? ==> op.now <= t.lastSweep + gap)
  }

  ghost predicate PolledRun(t: Trace, ops: seq<Op>, gap: nat)
    decreases |ops|
  {
    ops == [] || (Polled(t, ops[0], gap) && PolledRun(Step(t, ops[0]), ops[1..], gap))
  }

  lemma {:induction false} PolledIsTimely(t: Trace, ops: seq<Op>, gap: nat)
    requires gap + TTL_MS < CLOCK_SPAN
    requires Inv(t) && Fresh(t) && PolledRun(t, ops, gap)
    ensures TimelyRun(t, ops)
    decreases |ops|
  {
    if ops != [] {
      assert Timely(t, ops[0]);
      StepKeeps(t, ops[0]);
      StepStaysFresh(t, ops[0]);
      PolledIsTimely(Step(t, ops[0]), ops[1..], gap);
    }
  }

  /** A sweep leaves a queue of one young-looking entry as it is. */
  lemma SweepOne(e: Entry, now: nat)
    requires e.owed != {} && Age(now, e.at) <= TTL_MS
    ensures Sweep([e], now) == [e]
  {
    assert Expire([e], now) == [e];
    HoleCountIs([e], 0);
    assert [e][0..] == [e];
  }

  function LoneEntry(): Entry {
    Entry(0, Event([1], 0), {1}, 0)
  }

  /** Only the one event waiting, never handed over. */
  predicate Waits(t: Trace) {
    t.queue == [LoneEntry()] && t.log == [] && |t.fates| == 1 && t.fates[0].at == 0
  }

  /** Published for agent 1 at 0... */
  lemma StaleRunPublishes(t: Trace)
    requires t.queue == [] && t.log == [] && t.fates == []
    ensures Waits(Step(t, Publish(Event([1], 0), 0)))
  {
    var ev := Event([1], 0);
    assert ListedFrom(ev.to, 1) == {};
    assert MaskOf(ev) == {1};
  }

  /** ...left unread by a receive of agent 2 at 1100... */
  lemma StaleRunWaits(t: Trace)
    requires Waits(t)
    ensures var n := Step(t, Receive(2, TTL_MS)); Waits(n) && n.clock == n.lastSweep == TTL_MS
  {
    hide Sweep, FirstFor;
    SweepOne(LoneEntry(), TTL_MS);
    FirstForIs([LoneEntry()], 2, 1);
  }

  /** ...and handed to agent 1 at 2^32. */
  lemma StaleRunDelivers(t: Trace)
    requires Waits(t)
    ensures !DeliveredWasFresh(Step(t, Receive(1, CLOCK_SPAN)))
  {
    SweepOne(LoneEntry(), CLOCK_SPAN);
    FirstForIs([LoneEntry()], 1, 0);
    var after := Step(t, Receive(1, CLOCK_SPAN));
    assert after.log == [Delivery(1, 0, LoneEntry().ev, CLOCK_SPAN)] && after.fates[0].at == 0;
    assert after.log[0].when > after.fates[after.log[0].id].at + TTL_MS;
  }

  lemma AfterPublish(t: Trace, ev: Event, now: nat)
    ensures Step(t, Publish(ev, now)).clock == now && Step(t, Publish(ev, now)).lastSweep == t.lastSweep
  {
  }

  lemma PolledCons(t: Trace, op: Op, ops: seq<Op>, gap: nat)
    requires Polled(t, op, gap) && PolledRun(Step(t, op), ops, gap)
    ensures PolledRun(t, [op] + ops, gap) && Run(t, [op] + ops) == Run(Step(t, op), ops)
  {
    assert ([op] + ops)[1..] == ops;
  }

  lemma StaleRunIsPolled(gap: nat) returns (ops: seq<Op>)
    requires gap + TTL_MS >= CLOCK_SPAN
    ensures PolledRun(EmptyMailbox(), ops, gap)
    ensures !DeliveredWasFresh(Run(EmptyMailbox(), ops))
  {
    hide Step, DeliveredWasFresh, Waits;
    var t0 := EmptyMailbox();
    var a, b, c := Publish(Event([1], 0), 0), Receive(2, TTL_MS), Receive(1, CLOCK_SPAN);
    var t1 := Step(t0, a);
    var t2 := Step(t1, b);
    StaleRunPublishes(t0);
    StaleRunWaits(t1);
    StaleRunDelivers(t2);
    assert t1.clock == t1.lastSweep == 0 by {
      AfterPublish(t0, Event([1], 0), 0);
    }
    var last: seq<Op> := [];
    PolledCons(t2, c, last, gap);
    PolledCons(t1, b, [c] + last, gap);
    ops := [a] + ([b] + ([c] + last));
    PolledCons(t0, a, [b] + ([c] + last), gap);
    assert Run(t0, ops) == Run(Step(t2, c), last) == Step(t2, c);
  }

  /** Polling at most `gap` ms apart rules out stale deliveries in every run if and only if gap + 1100 is
      less than 2^32. */
  lemma PollingGapIff(gap: nat)
    ensures (forall start, ops :: Start(start) && PolledRun(start, ops, gap) ==> DeliveredWasFresh(Run(start, ops)))
      <==> gap + 1100 < 0x1_0000_0000
  {
    if gap + TTL_MS < CLOCK_SPAN {
      forall start, ops | Start(start) && PolledRun(start, ops, gap) ensures DeliveredWasFresh(Run(start, ops)) {
        StartIsFresh(start);
        PolledIsTimely(start, ops, gap);
        NothingStaleIsDelivered(start, ops);
      }
    } else {
      var ops := StaleRunIsPolled(gap);
      assert Start(EmptyMailbox());
    }
  }
}
