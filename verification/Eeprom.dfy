/**
 Reading and writing the 24LC16 EEPROM (components/eeprom_24lc16/eeprom_24lc16.c): 2048 bytes in eight
 blocks of 256, each with its own bus address.  A page write that runs past its 16-byte page continues
 at the start of the same page (24LC16B data sheet, "Page Write"), so the driver has to split.
 */
module Eeprom {
  import opened Values

  const PAGE: nat := 16
  const BLOCK: nat := 256
  const BLOCKS: nat := 8
  const TOTAL: nat := 2048

  datatype Status = Ok | InvalidState | InvalidArg | BusError

  /** How a transfer goes.  A failed one may still have moved its first `stored` bytes. */
  datatype Transfer = Acked | Failed(stored: nat)

  /** The outcome of every transfer to come. */
  type Bus = nat -> Transfer

  /** How many of n bytes a transfer moves. */
  function Moved(outcome: Transfer, n: nat): (k: nat)
    ensures k <= n
  {
    if outcome.Failed? && outcome.stored < n then outcome.stored else n
  }

  // ---------------------------------------------------------------- addresses

  function BlockOf(address: nat): nat {
    address / 256 % 8
  }

  function MemAddrOf(address: nat): Byte {
    address % 256
  }

  /** The cell a block's device finds at an internal address. */
  function At(block: nat, memAddr: Byte): (a: nat)
    ensures block < BLOCKS ==> a < TOTAL
  {
    256 * block + memAddr
  }

  lemma AtBlock(address: nat)
    requires address < TOTAL
    ensures At(BlockOf(address), MemAddrOf(address)) == address && BlockOf(address) == address / 256 < BLOCKS
  {
  }

  // ---------------------------------------------------------------- the device

  /** Where byte i of a page write starting at `a` lands. */
  function Rolled(a: nat, i: nat): (j: nat)
    ensures j / 16 == a / 16
  {
    var offset := (a % 16 + i) % 16;
    a / 16 * 16 + offset
  }

  /** The memory after the device has taken in a page write of `data` at `a`. */
  function PageWritten(mem: seq<Byte>, a: nat, data: seq<Byte>): (m: seq<Byte>)
    requires |mem| == TOTAL && a < TOTAL
    ensures |m| == TOTAL
  {
    if data == [] then mem
    else
      var n := |data| - 1;
      PageWritten(mem, a, data[..n])[Rolled(a, n) := data[n]]
  }

  /** The memory with `data` at `a`. */
  function Splice(mem: seq<Byte>, a: nat, data: seq<Byte>): (m: seq<Byte>)
    requires a + |data| <= |mem|
    ensures |m| == |mem|
  {
    mem[..a] + data + mem[a + |data|..]
  }

  /** Inside its page a page write is a plain write. */
  lemma {:induction false} NoRollOver(mem: seq<Byte>, a: nat, data: seq<Byte>)
    requires |mem| == TOTAL && a < TOTAL && a % 16 + |data| <= 16
    ensures a + |data| <= TOTAL
    ensures PageWritten(mem, a, data) == Splice(mem, a, data)
  {
    if data == [] {
      assert Splice(mem, a, data) == mem;
    } else {
      var n := |data| - 1;
      NoRollOver(mem, a, data[..n]);
      assert Rolled(a, n) == a + n;
      assert Splice(mem, a, data) == Splice(mem, a, data[..n])[a + n := data[n]];
    }
  }

  /** A page write changes nothing outside its page... */
  lemma {:induction false} PageWriteStaysInPage(mem: seq<Byte>, a: nat, data: seq<Byte>, j: nat)
    requires |mem| == TOTAL && a < TOTAL && j < TOTAL && j / 16 != a / 16
    ensures PageWritten(mem, a, data)[j] == mem[j]
  {
    if data != [] {
      PageWriteStaysInPage(mem, a, data[..|data| - 1], j);
    }
  }

  /** ...so one that does not fit puts no byte where a plain write would put the last one. */
  lemma RollOverLosesTheTail(mem: seq<Byte>, a: nat, data: seq<Byte>)
    requires |mem| == TOTAL && a + |data| <= TOTAL && |data| > 0 && a % 16 + |data| > 16
    requires mem[a + |data| - 1] != data[|data| - 1]
    ensures PageWritten(mem, a, data) != Splice(mem, a, data)
  {
    PageWriteStaysInPage(mem, a, data, a + |data| - 1);
  }

  // ---------------------------------------------------------------- what a write amounts to

  /** How far one transfer starting at `a` goes when none may cross a multiple of `unit`. */
  function ChunkEnd(unit: nat, a: nat, end: nat): (e: nat)
    requires unit > 0 && a < end
    ensures a < e <= end && a % unit + (e - a) <= unit
    ensures e == end || a % unit + (e - a) == unit
  {
    var room := unit - a % unit;
    if end - a < room then end else a + room
  }

  /** Up to where bytes get, and the status, for a transfer of [a, end) whose first chunk is number t. */
  function Reach(unit: nat, handles: set<nat>, bus: Bus, a: nat, end: nat, t: nat): (r: (nat, Status))
    requires unit > 0 && a <= end
    ensures a <= r.0 <= end
    ensures r.1 == Ok ==> r.0 == end
    decreases end - a
  {
    if a == end then (end, Ok)
    else if a / 256 !in handles then (a, InvalidState)
    else
      var e := ChunkEnd(unit, a, end);
      match bus(t)
      case Acked => Reach(unit, handles, bus, e, end, t + 1)
      case Failed(_) => (a + Moved(bus(t), e - a), BusError)
  }

  lemma ReachEnd(unit: nat, handles: set<nat>, bus: Bus, end: nat, t: nat)
    requires unit > 0
    ensures Reach(unit, handles, bus, end, end, t) == (end, Ok)
  {
  }

  lemma ReachStep(unit: nat, handles: set<nat>, bus: Bus, a: nat, end: nat, t: nat)
    requires unit > 0 && a < end
    ensures var e := ChunkEnd(unit, a, end);
      Reach(unit, handles, bus, a, end, t) ==
        if a / 256 !in handles then (a, InvalidState)
        else if bus(t).Acked? then Reach(unit, handles, bus, e, end, t + 1)
        else (a + Moved(bus(t), e - a), BusError)
  {
  }

  lemma SpliceNothing(mem: seq<Byte>, a: nat, data: seq<Byte>)
    requires a <= |mem| && data == []
    ensures Splice(mem, a, data) == mem
  {
  }

  lemma SpliceTwice(mem: seq<Byte>, a: nat, first: seq<Byte>, second: seq<Byte>)
    requires a + |first| + |second| <= |mem|
    ensures Splice(Splice(mem, a, first), a + |first|, second) == Splice(mem, a, first + second)
  {
  }

  lemma SpliceOutside(mem: seq<Byte>, a: nat, data: seq<Byte>)
    requires a + |data| <= |mem|
    ensures forall i :: 0 <= i < |mem| && !(a <= i < a + |data|) ==> Splice(mem, a, data)[i] == mem[i]
  {
  }

  lemma ReadsBack(mem: seq<Byte>, a: nat, data: seq<Byte>, filler: seq<Byte>)
    requires a + |data| <= |mem| && |filler| == |data|
    ensures Splice(filler, 0, Splice(mem, a, data)[a..a + |data|]) == data
  {
  }

  lemma SpliceNext(mem: seq<Byte>, a: nat, data: seq<Byte>, b: Byte)
    requires a + |data| < |mem|
    ensures Splice(mem, a, data)[a + |data| := b] == Splice(mem, a, data + [b])
  {
  }

  lemma SpliceAdjacent(into: seq<Byte>, mem: seq<Byte>, a: nat, b: nat, k: nat)
    requires a <= b && b + k <= |mem| && b - a + k <= |into|
    ensures Splice(Splice(into, 0, mem[a..b]), b - a, mem[b..b + k]) == Splice(into, 0, mem[a..b + k])
  {
    SpliceTwice(into, 0, mem[a..b], mem[b..b + k]);
    assert mem[a..b] + mem[b..b + k] == mem[a..b + k];
  }

  /** One chunk more: after `done` bytes, storing the first k of the next chunk extends the prefix. */
  lemma StoredPrefix(before: seq<Byte>, a: nat, data: seq<Byte>, done: nat, count: nat, k: nat)
    requires |before| == TOTAL && a + |data| <= TOTAL && done + count <= |data| && k <= count && 0 < count
    requires (a + done) % 16 + count <= 16
    ensures PageWritten(Splice(before, a, data[..done]), a + done, data[done..done + count][..k])
            == Splice(before, a, data[..done + k])
  {
    hide PageWritten, Splice;
    var part := data[done..done + count][..k];
    NoRollOver(Splice(before, a, data[..done]), a + done, part);
    SpliceTwice(before, a, data[..done], part);
    assert data[..done] + part == data[..done + k];
  }

  /** The split of the source: no further than the page, nor than the block. */
  lemma ChunkIs(a: nat, end: nat)
    requires a < end
    ensures var inPage := 16 - a % 256 % 16; var inBlock: int := 256 - a % 256;
      inPage <= inBlock && ChunkEnd(PAGE, a, end) - a == if end - a < inPage then end - a else inPage
  {
  }

  /** How many chunks a transfer of [a, end) takes. */
  function Chunks(unit: nat, a: nat, end: nat): int
    requires unit == PAGE || unit == BLOCK
  {
    if a == end then 0
    else if unit == PAGE then (end - 1) / 16 - a / 16 + 1
    else (end - 1) / 256 - a / 256 + 1
  }

  predicate InHandle(handles: set<nat>, x: nat) {
    x / 256 in handles
  }

  lemma OneChunk(unit: nat, a: nat, end: nat)
    requires (unit == PAGE || unit == BLOCK) && a < end
    ensures Chunks(unit, a, end) == 1 + Chunks(unit, ChunkEnd(unit, a, end), end)
  {
  }

  lemma SameBlock(unit: nat, a: nat, end: nat, x: nat)
    requires (unit == PAGE || unit == BLOCK) && a < end && a <= x < ChunkEnd(unit, a, end)
    ensures x / 256 == a / 256
  {
  }

  /** A transfer succeeds exactly when every block it touches has a device handle and each of its chunks,
      one per page or block touched, is acknowledged; otherwise it stops at the first that is not. */
  lemma {:induction false} SucceedsIff(unit: nat, handles: set<nat>, bus: Bus, a: nat, end: nat, t: nat)
    requires unit == PAGE || unit == BLOCK
    requires a <= end
    ensures Reach(unit, handles, bus, a, end, t).1 == Ok <==>
      && (forall k :: t <= k < t + Chunks(unit, a, end) ==> bus(k).Acked?)
      && (forall x :: a <= x < end ==> InHandle(handles, x))
    decreases end - a
  {
    hide Reach;
    if a == end {
      ReachEnd(unit, handles, bus, end, t);
    } else {
      var e := ChunkEnd(unit, a, end);
      ReachStep(unit, handles, bus, a, end, t);
      SucceedsIff(unit, handles, bus, e, end, t + 1);
      OneChunk(unit, a, end);
      assert InHandle(handles, a) <==> a / 256 in handles;
      forall x | a <= x < e ensures InHandle(handles, x) <==> a / 256 in handles {
        SameBlock(unit, a, end, x);
      }
    }
  }

  /** A transfer that does not succeed stops at the first chunk that is not acknowledged, as far as the
      device took it, or before the first block without a handle; the status says which. */
  lemma {:induction false} StopsAt(unit: nat, handles: set<nat>, bus: Bus, a: nat, end: nat, t: nat)
    returns (j: nat, at: nat)
    requires (unit == PAGE || unit == BLOCK) && a <= end
    requires Reach(unit, handles, bus, a, end, t).1 != Ok
    ensures a <= at < end && forall k :: t <= k < t + j ==> bus(k).Acked?
    ensures forall x :: a <= x < at ==> InHandle(handles, x)
    ensures var (reached, status) := Reach(unit, handles, bus, a, end, t);
      if !InHandle(handles, at) then status == InvalidState && reached == at
      else
        && status == BusError && bus(t + j).Failed?
        && reached == at + Moved(bus(t + j), ChunkEnd(unit, at, end) - at)
    decreases end - a
  {
    hide Reach, ChunkEnd, Moved;
    if a == end {
      ReachEnd(unit, handles, bus, end, t);
      assert false;
    } else {
      ReachStep(unit, handles, bus, a, end, t);
      if a / 256 in handles && bus(t).Acked? {
        var e := ChunkEnd(unit, a, end);
        j, at := StopsAt(unit, handles, bus, e, end, t + 1);
        j := j + 1;
        forall x | a <= x < e ensures InHandle(handles, x) {
          SameBlock(unit, a, end, x);
        }
      } else {
        j, at := 0, a;
      }
    }
  }

  class Driver {
    var available: bool
    var handles: set<nat>              // blocks whose device handle was created
    const memory: array<Byte>

    ghost predicate Valid()
      reads this
    {
      memory.Length == TOTAL
    }

    constructor (memory: array<Byte>, handles: set<nat>)
      requires memory.Length == TOTAL
      ensures Valid() && this.memory == memory && this.handles == handles && available
    {
      this.memory, this.handles, available := memory, handles, true;
    }

    /** One page write on the bus: the device stores what it was sent, or part of it. */
    method Transmit(block: nat, memAddr: Byte, data: seq<Byte>, outcome: Transfer) returns (acked: bool)
      requires Valid() && block < BLOCKS
      modifies memory
      ensures acked <==> outcome.Acked?
      ensures memory[..] == PageWritten(old(memory[..]), At(block, memAddr), data[..Moved(outcome, |data|)])
    {
      ghost var before := memory[..];
      var a := At(block, memAddr);
      acked := outcome.Acked?;
      var count := Moved(outcome, |data|);
      var i := 0;
      while i < count
        invariant i <= count && memory[..] == PageWritten(before, a, data[..i])
      {
        ghost var was := memory[..];
        memory[Rolled(a, i)] := data[i];
        assert data[..i + 1][..i] == data[..i];
        assert memory[..] == was[Rolled(a, i) := data[i]];
        i := i + 1;
      }
    }

    /** eeprom_24lc16_write. */
    method Write(address: nat, data: seq<Byte>, bus: Bus) returns (status: Status)
      requires Valid()
      modifies memory
      ensures !available ==> status == InvalidState && memory[..] == old(memory[..])
      ensures available && address + |data| > TOTAL ==> status == InvalidArg && memory[..] == old(memory[..])
      ensures available && address + |data| <= TOTAL ==>
        var (reached, s) := Reach(PAGE, handles, bus, address, address + |data|, 0);
        status == s && memory[..] == Splice(old(memory[..]), address, data[..reached - address])
    {
      hide Splice, PageWritten, Reach, BlockOf, At;
      if !available {
        return InvalidState;
      }
      if address + |data| > TOTAL {
        return InvalidArg;
      }
      ghost var before := memory[..];
      ghost var end := address + |data|;
      SpliceNothing(before, address, data[..0]);
      if |data| == 0 {
        ReachEnd(PAGE, handles, bus, end, 0);
        return Ok;
      }
      var left: nat, current: nat, done: nat, t: nat := |data|, address, 0, 0;
      while left > 0
        invariant done + left == |data| && current == address + done
        invariant Reach(PAGE, handles, bus, address, end, 0) == Reach(PAGE, handles, bus, current, end, t)
        invariant memory[..] == Splice(before, address, data[..done])
        decreases left
      {
        ReachStep(PAGE, handles, bus, current, end, t);
        var block, memAddr := BlockOf(current), MemAddrOf(current);
        AtBlock(current);
        if block !in handles {
          return InvalidState;
        }
        var inPage: int := 16 - memAddr % 16;
        var inBlock: int := 256 - memAddr as int;
        var count := if left < inPage then left else inPage;
        if count > inBlock {
          count := inBlock;
        }
        ChunkIs(current, end);
        var acked := Transmit(block, memAddr, data[done..done + count], bus(t));
        ghost var k := Moved(bus(t), count);
        StoredPrefix(before, address, data, done, count, k);
        if !acked {
          return BusError;
        }
        left, current, done, t := left - count, current + count, done + count, t + 1;
      }
      ReachEnd(PAGE, handles, bus, end, t);
      assert data[..done] == data[..|data|];
      return Ok;
    }

    /** One sequential read on the bus into buffer[done..], which ends at the end of the block at the latest. */
    method Fetch(block: nat, memAddr: Byte, buffer: array<Byte>, done: nat, count: nat, outcome: Transfer)
      returns (acked: bool)
      requires Valid() && buffer != memory && block < BLOCKS
      requires memAddr + count <= 256 && done + count <= buffer.Length
      modifies buffer
      ensures acked <==> outcome.Acked?
      ensures var k := Moved(outcome, count);
        buffer[..] == Splice(old(buffer[..]), done, memory[At(block, memAddr)..At(block, memAddr) + k])
    {
      hide Splice;
      var a := At(block, memAddr);
      acked := outcome.Acked?;
      var k := Moved(outcome, count);
      ghost var before := buffer[..];
      SpliceNothing(before, done, memory[a..a]);
      var i := 0;
      while i < k
        invariant i <= k && buffer[..] == Splice(before, done, memory[a..a + i])
      {
        SpliceNext(before, done, memory[a..a + i], memory[a + i]);
        assert memory[a..a + i] + [memory[a + i]] == memory[a..a + i + 1];
        buffer[done + i] := memory[a + i];
        i := i + 1;
      }
    }

    /** eeprom_24lc16_read. */
    method Read(address: nat, buffer: array<Byte>, bus: Bus) returns (status: Status)
      requires Valid() && buffer != memory
      modifies buffer
      ensures !available ==> status == InvalidState && buffer[..] == old(buffer[..])
      ensures available && address + buffer.Length > TOTAL ==> status == InvalidArg && buffer[..] == old(buffer[..])
      ensures available && address + buffer.Length <= TOTAL ==>
        var (reached, s) := Reach(BLOCK, handles, bus, address, address + buffer.Length, 0);
        status == s && buffer[..] == Splice(old(buffer[..]), 0, memory[address..reached])
    {
      hide Splice, Reach, BlockOf, At;
      if !available {
        return InvalidState;
      }
      if address + buffer.Length > TOTAL {
        return InvalidArg;
      }
      ghost var before := buffer[..];
      ghost var end := address + buffer.Length;
      SpliceNothing(before, 0, memory[address..address]);
      if buffer.Length == 0 {
        ReachEnd(BLOCK, handles, bus, end, 0);
        return Ok;
      }
      var left: nat, current: nat, done: nat, t: nat := buffer.Length, address, 0, 0;
      while left > 0
        invariant done + left == buffer.Length && current == address + done
        invariant Reach(BLOCK, handles, bus, address, end, 0) == Reach(BLOCK, handles, bus, current, end, t)
        invariant buffer[..] == Splice(before, 0, memory[address..current])
        decreases left
      {
        ReachStep(BLOCK, handles, bus, current, end, t);
        var block, memAddr := BlockOf(current), MemAddrOf(current);
        AtBlock(current);
        if block !in handles {
          return InvalidState;
        }
        var canRead: int := 256 - memAddr as int;
        var count := if left < canRead then left else canRead;
        var acked := Fetch(block, memAddr, buffer, done, count, bus(t));
        ghost var k := Moved(bus(t), count);
        SpliceAdjacent(before, memory[..], address, current, k);
        assert memory[current..current + k] == memory[..][current..current + k];
        if !acked {
          return BusError;
        }
        left, current, done, t := left - count, current + count, done + count, t + 1;
      }
      ReachEnd(BLOCK, handles, bus, end, t);
      return Ok;
    }
  }

  /** Whatever was there and however the range crosses pages and blocks, a successful write followed by a
      successful read gives the data back, and the rest of the memory is as it was. */
  method WriteThenRead(d: Driver, address: nat, data: seq<Byte>, writing: Bus, buffer: array<Byte>, reading: Bus)
    returns (wrote: Status, got: Status)
    requires d.Valid() && buffer != d.memory && buffer.Length == |data|
    modifies d.memory, buffer
    ensures wrote == Ok && got == Ok ==> buffer[..] == data && address + |data| <= TOTAL
    ensures wrote == Ok ==> address + |data| <= TOTAL && d.memory[..] == Splice(old(d.memory[..]), address, data)
    ensures forall i :: 0 <= i < TOTAL && !(address <= i < address + |data|) ==> d.memory[i] == old(d.memory[i])
  {
    hide Splice, Reach;
    ghost var before, filler := d.memory[..], buffer[..];
    wrote := d.Write(address, data, writing);
    ghost var after := d.memory[..];
    got := d.Read(address, buffer, reading);
    if d.available && address + |data| <= TOTAL {
      var (reached, _) := Reach(PAGE, d.handles, writing, address, address + |data|, 0);
      SpliceOutside(before, address, data[..reached - address]);
      if wrote == Ok {
        assert data[..reached - address] == data;
        if got == Ok {
          ReadsBack(before, address, data, filler);
        }
      }
    }
  }
}
