/**
 The ring buffer of main/fsm.c that implements the abstract mailbox: 32 slots changed in place,
 a head and a tail index, scanning loops.  Each method is one section under the mailbox mutex.
 */
module MailboxRing {
  import opened Values
  import opened Mailbox

  const SLOTS: nat := 32

  datatype Slot = Slot(ev: Event, toMask: Mask, stamp: nat)

  /** The slot `k` places after `head`. */
  function At(head: nat, k: nat): (i: nat)
    requires head < SLOTS && k <= SLOTS
    ensures i < SLOTS
  {
    if head + k < SLOTS then head + k else head + k - SLOTS
  }

  /** How many slots are in use. */
  function Used(head: nat, tail: nat): (n: nat)
    requires head < SLOTS && tail < SLOTS
    ensures n < SLOTS && At(head, n) == tail
  {
    if head <= tail then tail - head else tail + SLOTS - head
  }

  lemma NextSlot(head: nat, k: nat)
    requires head < SLOTS && k < SLOTS
    ensures (At(head, k) + 1) % SLOTS == At(head, k + 1)
    ensures k > 0 ==> At((head + 1) % SLOTS, k - 1) == At(head, k)
  {
  }

  /** The recipient loop of to_mask_from_event. */
  method ToMask(e: Event) returns (mask: Mask)
    ensures mask == MaskOf(e)
  {
    mask := {};
    var i := 0;
    while i < |e.to| && i < MAX_RECIPIENTS && e.to[i] != AGN_NONE
      invariant i <= |e.to|
      invariant mask + ListedFrom(e.to, i) == ListedFrom(e.to, 0)
    {
      mask := mask + {e.to[i]};
      i := i + 1;
    }
    if mask == {} {
      mask := {AGN_FSM};
    }
  }

  lemma OtherSlots(head: nat, k: nat)
    requires head < SLOTS && k < SLOTS
    ensures At(head, 0) == head
    ensures forall j :: 0 <= j < SLOTS && j != k ==> At(head, j) != At(head, k)
  {
  }

  class Ring {
    const slots: array<Slot>
    var head: nat
    var tail: nat
    ghost var trace: Trace

    /** The slots from `head` to `tail` are exactly the entries of `q`. */
    ghost predicate Represents(q: seq<Entry>)
      reads this`head, this`tail, slots
    {
      && slots.Length == SLOTS
      && head < SLOTS && tail < SLOTS
      && |q| == Used(head, tail)
      && forall k :: 0 <= k < |q| ==> slots[At(head, k)] == Slot(q[k].ev, q[k].owed, Stamp(q[k].at))
    }

    ghost predicate Valid()
      reads this, slots
    {
      Represents(trace.queue) && Inv(trace)
    }

    constructor ()
      ensures Valid() && fresh(slots)
      ensures Start(trace)
    {
      slots := new Slot[SLOTS](_ => Slot(Event([], 0), {}, 0));
      head, tail := 0, 0;
      trace := Trace([], [], [], 0, 0);
    }

    method Enqueue(ghost q: seq<Entry>, ghost e: Entry, ev: Event, stamp: nat) returns (ok: bool)
      requires Represents(q)
      requires e.ev == ev && e.owed == MaskOf(ev) && stamp == Stamp(e.at)
      modifies this`tail, slots
      ensures ok <==> |q| < CAPACITY
      ensures Represents(if ok then q + [e] else q)
    {
      NextSlot(head, |q|);
      var next := (tail + 1) % SLOTS;
      ok := next != head;
      if ok {
        var mask := ToMask(ev);
        slots[tail] := Slot(ev, mask, stamp);
        tail := next;
      }
    }

    method Publish(ev: Event, now: nat) returns (ok: bool)
      requires Valid()
      modifies this, slots
      ensures Valid()
      ensures trace == Step(old(trace), Op.Publish(ev, now))
      ensures ok <==> !Refuses(old(trace))
    {
      StepKeeps(trace, Op.Publish(ev, now));
      ok := Enqueue(trace.queue, Entry(|trace.fates|, ev, MaskOf(ev), now), ev, Stamp(now));
      trace := Step(trace, Op.Publish(ev, now));
    }

    ghost predicate Shows(i: nat, e: Entry)
      requires slots.Length == SLOTS && i < SLOTS
      reads slots
    {
      slots[i] == Slot(e.ev, e.owed, Stamp(e.at))
    }

    /** One slot freed at the head. */
    method SkipHead(ghost q: seq<Entry>)
      requires Represents(q) && q != []
      modifies this`head
      ensures Represents(q[1..])
    {
      forall j | 0 < j <= |q| ensures At((head + 1) % SLOTS, j - 1) == At(head, j) {
        NextSlot(head, j);
      }
      head := (head + 1) % SLOTS;
    }

    method AdvanceHead(ghost q: seq<Entry>)
      requires Represents(q)
      modifies this`head
      ensures Represents(DropHoles(q))
    {
      ghost var n := 0;
      while head != tail && slots[head].toMask == {}
        invariant n <= |q| && Represents(q[n..])
        invariant forall j :: 0 <= j < n ==> q[j].owed == {}
        decreases |q| - n
      {
        assert slots[At(head, 0)].toMask == q[n..][0].owed;
        SkipHead(q[n..]);
        assert q[n + 1..] == q[n..][1..];
        n := n + 1;
      }
      HoleCountIs(q, n);
    }

    /** Clears the mask of one slot if it is stale. */
    method ExpireSlot(i: nat, ghost e: Entry, ghost now: nat, stamp: nat)
      requires slots.Length == SLOTS && i < SLOTS && Shows(i, e) && stamp == Stamp(now)
      modifies slots
      ensures Shows(i, ExpireEntry(e, now))
      ensures forall j :: 0 <= j < SLOTS && j != i ==> slots[j] == old(slots[j])
    {
      var age := (stamp - slots[i].stamp) % 0x1_0000_0000;
      if slots[i].toMask != {} && age > TTL_MS {
        slots[i] := slots[i].(toMask := {});
      }
    }

    /** Clears every stale mask, then frees the holes at the head. */
    method DropExpired(ghost q: seq<Entry>, ghost now: nat, stamp: nat)
      requires Represents(q) && stamp == Stamp(now)
      modifies this`head, slots
      ensures Represents(Sweep(q, now))
    {
      hide ExpireEntry, Used, At, Stamp;
      OtherSlots(head, 0);
      var i := head;
      ghost var k := 0;
      while i != tail
        invariant slots.Length == SLOTS && head < SLOTS && tail < SLOTS
        invariant k <= |q| == Used(head, tail) && i == At(head, k)
        invariant forall j :: 0 <= j < k ==> Shows(At(head, j), ExpireEntry(q[j], now))
        invariant forall j :: k <= j < |q| ==> Shows(At(head, j), q[j])
        decreases |q| - k
      {
        NextSlot(head, k);
        OtherSlots(head, k);
        ExpireSlot(i, q[k], now, stamp);
        i := (i + 1) % SLOTS;
        k := k + 1;
      }
      OtherSlots(head, k);
      AdvanceHead(Expire(q, now));
    }

    /** Clears `r` in the slot `k` places after the head, and frees holes if that emptied the mask. */
    method Consume(ghost q: seq<Entry>, ghost k: nat, i: nat, r: Agent)
      requires Represents(q) && k < |q| && i == At(head, k)
      requires q[0].owed != {}
      modifies this`head, slots
      ensures Represents(DropHoles(Clear(q, k, r)))
    {
      ghost var c := Clear(q, k, r);
      slots[i] := slots[i].(toMask := slots[i].toMask - {r});
      assert Represents(c);
      if slots[i].toMask == {} {
        AdvanceHead(c);
      } else {
        HoleCountIs(c, 0);
        assert DropHoles(c) == c;
      }
    }

    /** Delivers the first slot carrying the receiver's bit. */
    method Take(ghost q: seq<Entry>, r: Agent) returns (event: Option<Event>)
      requires Represents(q) && (q == [] || q[0].owed != {})
      modifies this`head, slots
      ensures var k := FirstFor(q, r);
        if k == |q| then event == None && Represents(q)
        else event == Some(q[k].ev) && Represents(DropHoles(Clear(q, k, r)))
    {
      var i := head;
      ghost var k := 0;
      while i != tail
        invariant Represents(q) && k <= |q| && i == At(head, k)
        invariant forall j :: 0 <= j < k ==> r !in q[j].owed
        decreases |q| - k
      {
        if r in slots[i].toMask {
          FirstForIs(q, r, k);
          event := Some(slots[i].ev);
          Consume(q, k, i, r);
          return;
        }
        NextSlot(head, k);
        i := (i + 1) % SLOTS;
        k := k + 1;
      }
      FirstForIs(q, r, k);
      event := None;
    }

    method Receive(r: Agent, now: nat) returns (event: Option<Event>)
      requires Valid()
      modifies this, slots
      ensures Valid()
      ensures trace == Step(old(trace), Op.Receive(r, now))
      ensures event == match Handed(old(trace).queue, r, now) { case None => None case Some(e) => Some(e.ev) }
    {
      StepKeeps(trace, Op.Receive(r, now));
      DropExpired(trace.queue, now, Stamp(now));
      event := Take(Sweep(trace.queue, now), r);
      trace := Step(trace, Op.Receive(r, now));
    }
  }
}
