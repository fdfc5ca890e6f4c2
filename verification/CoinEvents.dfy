/**
 Crediting coins from the acceptor's buffered events (command 229): the acceptor exposes an 8-bit event
 counter and its five newest events, and the driver works out from two readings what is new
 (components/cctalk/cctalk_driver.c, components/cctalk/cctalk.c).
 */
module CoinEvents {
  import opened Values
  import opened CctalkFrame

  const WINDOW: nat := 5

  /** `channel` 0 with a non-zero `info` is an error; 0 and 0 is an empty entry. */
  datatype CoinEvent = CoinEvent(channel: Byte, info: Byte)

  const NOTHING := CoinEvent(0, 0)

  datatype Buffer = Buffer(counter: Byte, events: seq<CoinEvent>)

  // ---------------------------------------------------------------- the acceptor

  /** Everything that ever happened at the acceptor, oldest first; it reports the count modulo 256. */
  function Counter(log: seq<CoinEvent>): Byte {
    |log| % 256
  }

  /** The five newest events, newest first, padded with empty entries. */
  function Window(log: seq<CoinEvent>): (w: seq<CoinEvent>)
    ensures |w| == WINDOW
  {
    seq(WINDOW, i requires 0 <= i < WINDOW => if i < |log| then log[|log| - 1 - i] else NOTHING)
  }

  function Exposed(log: seq<CoinEvent>): Buffer {
    Buffer(Counter(log), Window(log))
  }

  // ---------------------------------------------------------------- the reading

  /** cctalk_read_buffered_credit: counter and five pairs out of the response data. */
  method ReadBuffer(response: Frame) returns (buffer: Option<Buffer>)
    ensures buffer.None? <==> |response.data| < 11
    ensures buffer.Some? ==> buffer.value.counter == response.data[0] && |buffer.value.events| == WINDOW
    ensures buffer.Some? ==> forall i :: 0 <= i < WINDOW ==>
      buffer.value.events[i] == CoinEvent(response.data[1 + 2 * i], response.data[2 + 2 * i])
  {
    if |response.data| < 11 {
      return None;
    }
    var events: seq<CoinEvent> := [];
    for i := 0 to WINDOW
      invariant |events| == i
      invariant forall k :: 0 <= k < i ==> events[k] == CoinEvent(response.data[1 + 2 * k], response.data[2 + 2 * k])
    {
      var base := 1 + 2 * i;
      events := events + [CoinEvent(response.data[base], response.data[base + 1])];
    }
    return Some(Buffer(response.data[0], events));
  }

  // ---------------------------------------------------------------- the driver

  function Delta(previous: Byte, current: Byte): Byte {
    (current as int - previous as int) % 256
  }

  /** How many of the newest events a reading processes. */
  function Taken(gap: nat): (k: nat)
    ensures k <= WINDOW && k <= gap
    ensures k == gap <==> gap <= WINDOW
  {
    if gap % 256 > WINDOW then WINDOW else gap % 256
  }

  /** Drops the empty entries. */
  function Real(events: seq<CoinEvent>): seq<CoinEvent> {
    if events == [] then []
    else if events[|events| - 1] == NOTHING then Real(events[..|events| - 1])
    else Real(events[..|events| - 1]) + [events[|events| - 1]]
  }

  class Poller {
    var valid: bool
    var last: Byte

    constructor ()
      ensures !valid
    {
      valid, last := false, 0;
    }

    /** What starting or stopping the acceptor does to the counter. */
    method Restart()
      modifies this
      ensures !valid
    {
      valid, last := false, 0;
    }

    /** cctalk_handle_buffered_credit: the first reading is only a baseline; later ones hand over the
        new entries, newest first. */
    method Handle(buffer: Buffer) returns (handled: seq<CoinEvent>)
      requires |buffer.events| == WINDOW
      modifies this
      ensures valid && last == buffer.counter
      ensures handled == if old(valid) then Real(buffer.events[..Taken(Delta(old(last), buffer.counter))]) else []
    {
      handled := [];
      if !valid {
        valid, last := true, buffer.counter;
        return;
      }
      var previous := last;
      if last == buffer.counter {
        return;
      }
      last := buffer.counter;
      var count: nat := Delta(previous, buffer.counter);
      if count > WINDOW {
        count := WINDOW;
      }
      var i := 0;
      while i < count
        invariant i <= count && handled == Real(buffer.events[..i])
      {
        var event := buffer.events[i];
        assert buffer.events[..i + 1][..i] == buffer.events[..i];
        if !(event.channel == 0 && event.info == 0) {
          handled := handled + [event];
        }
        i := i + 1;
      }
    }
  }

  // ---------------------------------------------------------------- one reading

  function Reverse(s: seq<CoinEvent>): (r: seq<CoinEvent>)
    ensures |r| == |s| && forall i :: 0 <= i < |s| ==> r[i] == s[|s| - 1 - i]
  {
    seq(|s|, i requires 0 <= i < |s| => s[|s| - 1 - i])
  }

  /** What a reading of `now` after a reading of its prefix of length `before` hands over. */
  function Batch(before: nat, now: seq<CoinEvent>): seq<CoinEvent>
    requires before <= |now|
  {
    Real(Window(now)[..Taken(Delta(before % 256, Counter(now)))])
  }

  lemma RealEmpty()
    ensures Real([]) == []
  {
  }

  lemma {:induction false} RealPrepend(e: CoinEvent, s: seq<CoinEvent>)
    ensures Real([e] + s) == Real([e]) + Real(s)
  {
    if s == [] {
      assert [e] + s == [e] && Real(s) == [];
      assert Real([e]) + [] == Real([e]);
    } else {
      assert ([e] + s)[..|s|] == [e] + s[..|s| - 1];
      RealPrepend(e, s[..|s| - 1]);
    }
  }

  lemma {:induction false} RealReverse(s: seq<CoinEvent>)
    ensures Reverse(Real(s)) == Real(Reverse(s))
  {
    if s == [] {
      assert Reverse(s) == [] && Real(s) == [];
    } else {
      var front, e := s[..|s| - 1], s[|s| - 1];
      RealReverse(front);
      assert Reverse(s) == [e] + Reverse(front);
      RealPrepend(e, Reverse(front));
      assert Reverse(Real(front) + [e]) == [e] + Reverse(Real(front));
    }
  }

  lemma {:induction false} RealConcat(s: seq<CoinEvent>, t: seq<CoinEvent>)
    ensures Real(s + t) == Real(s) + Real(t)
  {
    if t == [] {
      assert s + t == s && Real(t) == [];
    } else {
      assert (s + t)[..|s + t| - 1] == s + t[..|t| - 1];
      RealConcat(s, t[..|t| - 1]);
    }
  }

  /** What is kept: everything but the empty entries, which have channel 0 and data 0. */
  lemma RealOfOne(e: CoinEvent)
    ensures Real([e]) == if e == CoinEvent(0, 0) then [] else [e]
  {
    assert [e][..0] == [];
    RealEmpty();
  }

  lemma {:induction false} RealKeeps(s: seq<CoinEvent>, e: CoinEvent)
    ensures multiset(Real(s))[e] == if e == CoinEvent(0, 0) then 0 else multiset(s)[e]
  {
    if s != [] {
      RealKeeps(s[..|s| - 1], e);
      assert s == s[..|s| - 1] + [s[|s| - 1]];
    }
  }

  lemma {:induction false} RealOfCoins(s: seq<CoinEvent>)
    requires CoinEvent(0, 0) !in s
    ensures Real(s) == s
  {
    if s != [] {
      RealOfCoins(s[..|s| - 1]);
      assert s == s[..|s| - 1] + [s[|s| - 1]];
    }
  }

  lemma TakenOf(gap: nat)
    ensures gap <= WINDOW ==> Taken(gap) == gap
    ensures WINDOW < gap < 256 ==> Taken(gap) == WINDOW
  {
  }

  lemma DeltaOfLengths(before: nat, now: nat)
    requires before <= now
    ensures Delta(before % 256, now % 256) == (now - before) % 256
    ensures Taken(Delta(before % 256, now % 256)) == Taken(now - before)
  {
    var turns := now / 256 - before / 256;
    assert now - before == now % 256 - before % 256 + 256 * turns;
    WholeTurns(now % 256 - before % 256, turns);
  }

  /** A reading hands over, newest first, exactly the newest Taken(gap) events: all new ones when at most
      five are new, exactly the five newest when 6 to 255 are. */
  lemma BatchIsNewest(before: nat, now: seq<CoinEvent>)
    requires before <= |now|
    ensures Batch(before, now) == Real(Reverse(now[|now| - Taken(|now| - before)..]))
    ensures |now| - before <= WINDOW ==> Batch(before, now) == Real(Reverse(now[before..]))
    ensures WINDOW < |now| - before < 256 ==> Batch(before, now) == Real(Reverse(now[|now| - WINDOW..]))
  {
    hide Real, Taken;
    DeltaOfLengths(before, |now|);
    TakenOf(|now| - before);
    var k := Taken(|now| - before);
    assert Window(now)[..k] == Reverse(now[|now| - k..]);
  }

  lemma {:induction false} SameReversed(s: seq<CoinEvent>)
    ensures multiset(Reverse(s)) == multiset(s)
  {
    if s == [] {
      assert Reverse(s) == [];
    } else {
      var front, e := s[..|s| - 1], s[|s| - 1];
      SameReversed(front);
      assert Reverse(s) == [e] + Reverse(front);
      assert s == front + [e];
    }
  }

  // ---------------------------------------------------------------- whole runs

  /** The lengths of the log at successive readings, the first being the baseline. */
  ghost predicate Readings(log: seq<CoinEvent>, at: seq<nat>) {
    && (forall i, j :: 0 <= i < j < |at| ==> at[i] <= at[j])
    && (forall i :: 0 <= i < |at| ==> at[i] <= |log|)
  }

  /** Everything handed over by the readings. */
  function HandedOver(log: seq<CoinEvent>, at: seq<nat>): seq<CoinEvent>
    requires forall i :: 0 <= i < |at| ==> at[i] <= |log|
    requires forall i, j :: 0 <= i < j < |at| ==> at[i] <= at[j]
  {
    var n := |at|;
    if n < 2 then [] else HandedOver(log, at[..n - 1]) + Batch(at[n - 2], log[..at[n - 1]])
  }

  /** Everything that happened after the baseline, reading by reading, and newest first in between. */
  function NewestFirst(log: seq<CoinEvent>, at: seq<nat>): seq<CoinEvent>
    requires forall i :: 0 <= i < |at| ==> at[i] <= |log|
    requires forall i, j :: 0 <= i < j < |at| ==> at[i] <= at[j]
  {
    var n := |at|;
    if n < 2 then [] else NewestFirst(log, at[..n - 1]) + Real(Reverse(log[at[n - 2]..at[n - 1]]))
  }

  predicate Prompt(at: seq<nat>) {
    forall i :: 0 < i < |at| ==> at[i] - at[i - 1] <= WINDOW
  }

  /** Over a run of any length, counter wraps included: when no reading is more than five events behind
      the one before, the events after the baseline are handed over reading by reading, newest first... */
  lemma {:induction false} PromptReadingsMissNothing(log: seq<CoinEvent>, at: seq<nat>)
    requires Readings(log, at) && |at| > 0 && Prompt(at)
    ensures HandedOver(log, at) == NewestFirst(log, at)
    decreases |at|
  {
    hide Real, Batch, Reverse;
    var n := |at|;
    if n > 1 {
      PromptReadingsMissNothing(log, at[..n - 1]);
      var now := log[..at[n - 1]];
      BatchIsNewest(at[n - 2], now);
      assert now[at[n - 2]..] == log[at[n - 2]..at[n - 1]];
    }
  }

  /** ...which is each of them exactly once. */
  lemma {:induction false} NewestFirstIsAll(log: seq<CoinEvent>, at: seq<nat>)
    requires Readings(log, at) && |at| > 0
    ensures multiset(NewestFirst(log, at)) == multiset(Real(log[at[0]..at[|at| - 1]]))
    decreases |at|
  {
    hide Real, Reverse;
    var n := |at|;
    if n == 1 {
      assert log[at[0]..at[0]] == [];
      RealEmpty();
    } else {
      NewestFirstIsAll(log, at[..n - 1]);
      var part := log[at[n - 2]..at[n - 1]];
      RealReverse(part);
      SameReversed(Real(part));
      RealConcat(log[at[0]..at[n - 2]], part);
      assert log[at[0]..at[n - 2]] + part == log[at[0]..at[n - 1]];
    }
  }

  /** So every coin and every error of a run of prompt readings is handed over exactly as often as it
      happened after the baseline. */
  lemma PromptReadingsCount(log: seq<CoinEvent>, at: seq<nat>, e: CoinEvent)
    requires Readings(log, at) && |at| > 0 && Prompt(at) && e != CoinEvent(0, 0)
    ensures multiset(HandedOver(log, at))[e] == multiset(log[at[0]..at[|at| - 1]])[e]
  {
    hide Real, HandedOver, NewestFirst;
    PromptReadingsMissNothing(log, at);
    NewestFirstIsAll(log, at);
    RealKeeps(log[at[0]..at[|at| - 1]], e);
  }

  /** The k positions before `end`, newest first. */
  function Newest(end: nat, k: nat): (s: seq<nat>)
    requires k <= end
    ensures |s| == k && forall i :: 0 <= i < k ==> s[i] == end - 1 - i
  {
    seq(k, i requires 0 <= i < k => end - 1 - i)
  }

  /** Which log positions the readings hand over, in that order. */
  function Positions(at: seq<nat>): seq<nat>
    requires forall i, j :: 0 <= i < j < |at| ==> at[i] <= at[j]
  {
    var n := |at|;
    if n < 2 then []
    else
      var k := Taken(at[n - 1] - at[n - 2]);
      Positions(at[..n - 1]) + Newest(at[n - 1], k)
  }

  lemma PromptSplit(at: seq<nat>)
    requires |at| > 1
    ensures Prompt(at) <==> Prompt(at[..|at| - 1]) && at[|at| - 1] - at[|at| - 2] <= WINDOW
  {
    var front := at[..|at| - 1];
    if Prompt(at) {
      forall i | 0 < i < |front| ensures front[i] - front[i - 1] <= WINDOW {
        assert front[i] == at[i] && front[i - 1] == at[i - 1];
      }
    }
    if Prompt(front) && at[|at| - 1] - at[|at| - 2] <= WINDOW {
      forall i | 0 < i < |at| ensures at[i] - at[i - 1] <= WINDOW {
        assert i < |front| ==> front[i] - front[i - 1] <= WINDOW;
      }
    }
  }

  /** Late or not, no event is ever handed over twice; and none is missed exactly when every reading is
      at most five events behind. */
  lemma {:induction false} HandedOnceAndAllIff(at: seq<nat>)
    requires |at| > 0 && forall i, j :: 0 <= i < j < |at| ==> at[i] <= at[j]
    ensures forall i, j :: 0 <= i < j < |Positions(at)| ==> Positions(at)[i] != Positions(at)[j]
    ensures forall i :: 0 <= i < |Positions(at)| ==> at[0] <= Positions(at)[i] < at[|at| - 1]
    ensures |Positions(at)| <= at[|at| - 1] - at[0]
    ensures |Positions(at)| == at[|at| - 1] - at[0] <==> Prompt(at)
    decreases |at|
  {
    var n := |at|;
    if n > 1 {
      HandedOnceAndAllIff(at[..n - 1]);
      PromptSplit(at);
    }
  }

  function Pick(log: seq<CoinEvent>, positions: seq<nat>): seq<CoinEvent>
    requires forall i :: 0 <= i < |positions| ==> positions[i] < |log|
  {
    seq(|positions|, i requires 0 <= i < |positions| => log[positions[i]])
  }

  lemma PickConcat(log: seq<CoinEvent>, a: seq<nat>, b: seq<nat>)
    requires forall i :: 0 <= i < |a| ==> a[i] < |log|
    requires forall i :: 0 <= i < |b| ==> b[i] < |log|
    ensures forall i :: 0 <= i < |a + b| ==> (a + b)[i] < |log|
    ensures Pick(log, a + b) == Pick(log, a) + Pick(log, b)
  {
  }

  lemma PickNothing(log: seq<CoinEvent>)
    ensures Pick(log, []) == []
  {
  }

  lemma PickNewest(log: seq<CoinEvent>, end: nat, k: nat)
    requires k <= end <= |log|
    ensures Pick(log, Newest(end, k)) == Reverse(log[..end][end - k..])
  {
  }

  /** ...and those are the events handed over, for readings any distance apart. */
  lemma {:induction false} HandledIsPicked(log: seq<CoinEvent>, at: seq<nat>)
    requires Readings(log, at) && |at| > 0
    ensures forall i :: 0 <= i < |Positions(at)| ==> Positions(at)[i] < |log|
    ensures HandedOver(log, at) == Real(Pick(log, Positions(at)))
    decreases |at|
  {
    hide Real, Batch, Reverse, Taken, Pick, Newest;
    var n := |at|;
    if n == 1 {
      RealEmpty();
      PickNothing(log);
    } else {
      var front := at[..n - 1];
      HandledIsPicked(log, front);
      var end := at[n - 1];
      var k := Taken(end - at[n - 2]);
      BatchIsNewest(at[n - 2], log[..end]);
      PickNewest(log, end, k);
      PickConcat(log, Positions(front), Newest(end, k));
      RealConcat(Pick(log, Positions(front)), Pick(log, Newest(end, k)));
    }
  }

  lemma ReadingsOfPrefix(log: seq<CoinEvent>, at: seq<nat>, k: nat)
    requires Readings(log, at) && k <= |at|
    ensures Readings(log, at[..k])
  {
  }

  /** The driver object over a whole run: fed the readings in turn, it hands over what HandedOver says; so
      for prompt readings every coin and every error after the baseline, as often as it happened. */
  method PollRun(poller: Poller, log: seq<CoinEvent>, at: seq<nat>) returns (handled: seq<CoinEvent>)
    requires !poller.valid && |at| > 0 && Readings(log, at)
    modifies poller
    ensures handled == HandedOver(log, at)
    ensures Prompt(at) ==> forall e :: e != CoinEvent(0, 0) ==>
      multiset(handled)[e] == multiset(log[at[0]..at[|at| - 1]])[e]
    ensures poller.valid && poller.last == at[|at| - 1] % 256
  {
    hide Real, Taken;
    handled := poller.Handle(Exposed(log[..at[0]]));
    var i := 1;
    while i < |at|
      invariant 1 <= i <= |at| && poller.valid && poller.last == at[i - 1] % 256
      invariant Readings(log, at[..i]) && handled == HandedOver(log, at[..i])
    {
      var batch := poller.Handle(Exposed(log[..at[i]]));
      ReadingsOfPrefix(log, at, i + 1);
      assert at[..i + 1][..i] == at[..i];
      assert batch == Batch(at[i - 1], log[..at[i]]);
      handled := handled + batch;
      i := i + 1;
    }
    assert at[..i] == at;
    if Prompt(at) {
      forall e | e != CoinEvent(0, 0)
        ensures multiset(handled)[e] == multiset(log[at[0]..at[|at| - 1]])[e]
      {
        PromptReadingsCount(log, at, e);
      }
    }
  }
}
