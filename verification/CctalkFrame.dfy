/**
 ccTalk frames as components/cctalk/cctalk.c builds and reads them (ccTalk Serial Communication
 Protocol, Generic Specification, Part 1, "Standard message packets, simple checksum"):

   destination, number of data bytes, source, header, data, checksum

 The checksum routine takes its length as an 8-bit value, so for 252 to 255 data bytes it covers only
 the first zero to three bytes.  Sender and receiver agree on that, which is what is proved here
 together with what it costs.
 */
module CctalkFrame {
  import opened Values

  const MAX_FRAME: nat := 260

  datatype RawFrame = Frame(destination: Byte, source: Byte, header: Byte, data: seq<Byte>)
  type Frame = f: RawFrame | |f.data| <= 255 witness RawFrame.Frame(0, 0, 0, [])

  // ---------------------------------------------------------------- checksum

  /** Sum of s[lo..hi]. */
  function Sum(s: seq<Byte>, lo: nat, hi: nat): nat
    requires lo <= hi <= |s|
    decreases hi - lo
  {
    if lo == hi then 0 else Sum(s, lo, hi - 1) + s[hi - 1]
  }

  /** The 8-bit negation of `sum`. */
  function Complement(sum: nat): Byte {
    (256 - sum % 256) % 256
  }

  lemma ComplementCancels(sum: nat, rest: nat)
    ensures (sum + rest + Complement(sum)) % 256 == rest % 256
  {
  }

  lemma WholeTurns(x: int, turns: int)
    ensures (x + 256 * turns) % 256 == x % 256
  {
  }

  lemma ComplementOfLow16(sum: nat)
    ensures Complement(sum % 0x1_0000) == Complement(sum)
  {
    var low, turns := sum % 0x1_0000, 256 * (sum / 0x1_0000);
    assert sum == low + 256 * turns;
    WholeTurns(low, turns);
  }

  lemma ComplementIsInjective(a: nat, b: nat)
    requires a != b && -256 < a - b < 256
    ensures Complement(a) != Complement(b)
  {
    assert a - b == 256 * (a / 256 - b / 256) + (a % 256 - b % 256);
    assert a % 256 != b % 256;
  }

  /** The byte that makes s[..len] sum to zero modulo 256. */
  function Checksum(s: seq<Byte>, len: nat): Byte
    requires len <= |s|
  {
    Complement(Sum(s, 0, len))
  }

  lemma Low16(sum: nat, b: nat)
    ensures (sum % 0x1_0000 + b) % 0x1_0000 == (sum + b) % 0x1_0000
  {
  }

  /** cctalk_checksum, with its 16-bit accumulator. */
  method ComputeChecksum(packet: array<Byte>, len: Byte) returns (c: Byte)
    requires len <= packet.Length
    ensures c == Checksum(packet[..], len)
  {
    hide Complement;
    var sum: nat := 0;
    var i: nat := 0;
    while i < len
      invariant i <= len && sum == Sum(packet[..], 0, i) % 0x1_0000
    {
      Low16(Sum(packet[..], 0, i), packet[i]);
      sum := (sum + packet[i]) % 0x1_0000;
      i := i + 1;
    }
    c := Complement(sum);
    ComplementOfLow16(Sum(packet[..], 0, len));
  }

  lemma {:induction false} SumOfEqual(s: seq<Byte>, t: seq<Byte>, lo: nat, hi: nat)
    requires lo <= hi <= |s| && hi <= |t|
    requires forall i :: lo <= i < hi ==> s[i] == t[i]
    ensures Sum(s, lo, hi) == Sum(t, lo, hi)
    decreases hi - lo
  {
    if lo < hi {
      SumOfEqual(s, t, lo, hi - 1);
    }
  }

  lemma {:induction false} SumSplit(s: seq<Byte>, lo: nat, mid: nat, hi: nat)
    requires lo <= mid <= hi <= |s|
    ensures Sum(s, lo, hi) == Sum(s, lo, mid) + Sum(s, mid, hi)
    decreases hi - mid
  {
    if mid < hi {
      SumSplit(s, lo, mid, hi - 1);
    }
  }

  // ---------------------------------------------------------------- printing

  /** How many leading bytes the checksum of a frame of `n` bytes really covers. */
  function Covered(n: nat): (k: nat)
    requires 5 <= n <= MAX_FRAME
    ensures k < n
  {
    (n - 1) % 256
  }

  function Head(f: Frame): seq<Byte> {
    [f.destination, |f.data|, f.source, f.header] + f.data
  }

  function Print(f: Frame): (s: seq<Byte>)
    ensures |s| == |f.data| + 5
  {
    Head(f) + [Checksum(Head(f), Covered(|f.data| + 5))]
  }

  /** A run of bytes as long as its own length field says. */
  predicate Block(s: seq<Byte>) {
    |s| >= 5 && |s| == s[1] as int + 5
  }

  /** The receiver's acceptance test. */
  predicate Accepts(s: seq<Byte>)
    requires Block(s)
  {
    Checksum(s, Covered(|s|)) == s[|s| - 1]
  }

  function Read(s: seq<Byte>): Frame
    requires Block(s)
  {
    RawFrame.Frame(s[0], s[2], s[3], s[4..|s| - 1])
  }

  /** The order of the bytes on the wire, as the standard gives it. */
  lemma WireLayout(f: Frame)
    ensures var s := Print(f);
      && |s| == 5 + |f.data| && s[0] == f.destination && s[1] == |f.data| && s[2] == f.source && s[3] == f.header
      && s[4..4 + |f.data|] == f.data
  {
  }

  /** The simple poll of device 2 by master 1, header 254: 2, 0, 1, 254, 255. */
  lemma SimplePoll()
    ensures Print(RawFrame.Frame(2, 1, 254, [])) == [2, 0, 1, 254, 255]
  {
    var head := Head(RawFrame.Frame(2, 1, 254, []));
    assert head == [2, 0, 1, 254];
    assert Sum(head, 0, 1) == 2 && Sum(head, 0, 2) == 2 && Sum(head, 0, 3) == 3 && Sum(head, 0, 4) == 257;
  }

  lemma PrintIsAccepted(f: Frame)
    ensures Block(Print(f)) && Accepts(Print(f)) && Read(Print(f)) == f
  {
    var s := Print(f);
    SumOfEqual(s, Head(f), 0, Covered(|s|));
    assert s[4..|s| - 1] == f.data;
  }

  /** Printing and reading are inverse on accepted blocks: nothing but a frame's own printing is ever
      accepted as that frame. */
  lemma AcceptedIsPrinted(s: seq<Byte>)
    requires Block(s) && Accepts(s)
    ensures Print(Read(s)) == s
  {
    var f := Read(s);
    assert Head(f) == s[..|s| - 1];
    SumOfEqual(s, Head(f), 0, Covered(|s|));
    assert s == s[..|s| - 1] + [s[|s| - 1]];
  }

  lemma LastSummed(s: seq<Byte>, lo: nat)
    requires lo < |s|
    ensures Sum(s, lo, |s|) == Sum(s, lo, |s| - 1) + s[|s| - 1]
  {
  }

  /** The bytes of a printed frame sum to whatever the checksum does not cover... */
  lemma PrintedSum(f: Frame)
    ensures var s := Print(f); Sum(s, 0, |s|) % 256 == Sum(s, Covered(|s|), |s| - 1) % 256
  {
    hide Complement, Sum;
    var s := Print(f);
    var k := Covered(|s|);
    SumOfEqual(s, Head(f), 0, k);
    SumSplit(s, 0, k, |s| - 1);
    LastSummed(s, 0);
    ComplementCancels(Sum(s, 0, k), Sum(s, k, |s| - 1));
  }

  /** ...which is nothing for up to 251 data bytes: those frames sum to zero modulo 256. */
  lemma ShortPrintedSum(f: Frame)
    requires |f.data| <= 251
    ensures Sum(Print(f), 0, |Print(f)|) % 256 == 0
  {
    PrintedSum(f);
    assert Covered(|Print(f)|) == |Print(f)| - 1;
  }

  lemma {:induction false} SumChange(s: seq<Byte>, i: nat, v: Byte, hi: nat)
    requires i < |s| && hi <= |s|
    ensures Sum(s[i := v], 0, hi) == Sum(s, 0, hi) + if i < hi then v - s[i] else 0
  {
    if hi > 0 {
      SumChange(s, i, v, hi - 1);
    }
  }

  /** One damaged byte (other than the length) is noticed exactly when the checksum covers it or it is
      the checksum: always for up to 251 data bytes, almost never beyond. */
  lemma SingleByteDamage(s: seq<Byte>, i: nat, v: Byte)
    requires Block(s) && Accepts(s) && i < |s| && i != 1 && v != s[i]
    ensures Block(s[i := v])
    ensures Accepts(s[i := v]) <==> Covered(|s|) <= i < |s| - 1
    ensures |s| <= 256 ==> !Accepts(s[i := v])
  {
    hide Complement;
    var k := Covered(|s|);
    SumChange(s, i, v, k);
    if i < k {
      ComplementIsInjective(Sum(s[i := v], 0, k), Sum(s, 0, k));
    }
  }

  /** memcpy of the data bytes behind the four header bytes. */
  method CopyData(packet: array<Byte>, data: seq<Byte>)
    requires 4 + |data| <= packet.Length
    modifies packet
    ensures packet[4..4 + |data|] == data && packet[..4] == old(packet[..4])
  {
    var i := 0;
    while i < |data|
      invariant i <= |data| && packet[..4] == old(packet[..4]) && packet[4..4 + i] == data[..i]
    {
      packet[4 + i] := data[i];
      i := i + 1;
    }
  }

  /** The checksum byte behind the body. */
  method Seal(packet: array<Byte>, len: nat, ghost body: seq<Byte>)
    requires packet.Length == MAX_FRAME && 5 <= len <= MAX_FRAME && packet[..len - 1] == body
    modifies packet
    ensures packet[..len] == body + [Checksum(body, Covered(len))]
  {
    var c := ComputeChecksum(packet, (len - 1) % 256);
    SumOfEqual(packet[..], body, 0, Covered(len));
    packet[len - 1] := c;
    assert packet[..len] == packet[..len - 1] + [c];
  }

  /** cctalk_send_frame_unlocked: the packet buffer filled in place. */
  method BuildPacket(destination: Byte, source: Byte, header: Byte, data: seq<Byte>)
    returns (packet: array<Byte>, len: nat)
    requires |data| <= 255
    ensures packet.Length == MAX_FRAME && len == |data| + 5
    ensures packet[..len] == Print(RawFrame.Frame(destination, source, header, data))
  {
    packet := new Byte[MAX_FRAME](_ => 0);
    len := |data| + 5;
    packet[0], packet[1], packet[2], packet[3] := destination, |data|, source, header;
    ghost var head := [destination, |data|, source, header];
    assert packet[..4] == head;
    CopyData(packet, data);
    ghost var body := head + data;
    assert packet[..len - 1] == packet[..4] + packet[4..len - 1] == body;
    Seal(packet, len, body);
  }

  // ---------------------------------------------------------------- receiving

  /** From `pos`: skip whole blocks whose checksum is wrong, return the first accepted one and the
      position after it; nothing when the bytes run out first. */
  function Next(input: seq<Byte>, pos: nat): (r: (Option<Frame>, nat))
    requires pos <= |input|
    ensures pos <= r.1 <= |input|
    ensures r.0.Some? ==> pos < r.1
    ensures r.0.None? ==> r.1 == |input|
    decreases |input| - pos
  {
    if pos + 2 > |input| || pos + input[pos + 1] as int + 5 > |input| then (None, |input|)
    else
      var end := pos + input[pos + 1] as int + 5;
      var block := input[pos..end];
      if Accepts(block) then (Some(Read(block)), end) else Next(input, end)
  }

  /** The frame in a full receive buffer, if its checksum is right. */
  method Check(raw: array<Byte>, expected: nat) returns (frame: Option<Frame>)
    requires raw.Length == MAX_FRAME && expected <= MAX_FRAME && Block(raw[..expected])
    ensures frame == if Accepts(raw[..expected]) then Some(Read(raw[..expected])) else None
  {
    ghost var block := raw[..expected];
    var computed := ComputeChecksum(raw, (expected - 1) % 256);
    SumOfEqual(raw[..], block, 0, Covered(expected));
    assert block[4..expected - 1] == raw[4..4 + raw[1] as int];
    if computed != raw[expected - 1] {
      return None;
    }
    return Some(RawFrame.Frame(raw[0], raw[2], raw[3], raw[4..4 + raw[1] as int]));
  }

  lemma NextAtBlock(input: seq<Byte>, pos: nat, end: nat)
    requires pos + 2 <= end <= |input| && end == pos + input[pos + 1] as int + 5
    ensures Block(input[pos..end])
    ensures Next(input, pos) ==
      if Accepts(input[pos..end]) then (Some(Read(input[pos..end])), end) else Next(input, end)
  {
    hide Accepts, Read;
  }

  lemma NextAtEnd(input: seq<Byte>, pos: nat)
    requires pos <= |input| && (pos + 2 > |input| || pos + input[pos + 1] as int + 5 > |input|)
    ensures Next(input, pos) == (None, |input|)
  {
  }

  /** cctalk_receive_frame_unlocked: byte at a time into a 260-byte buffer, which never overflows.
      `input` is what arrives before the deadline. */
  method Receive(input: seq<Byte>, pos: nat) returns (frame: Option<Frame>, next: nat)
    requires pos <= |input|
    ensures (frame, next) == Next(input, pos)
  {
    hide Next, Accepts, Read;
    var raw := new Byte[MAX_FRAME](_ => 0);
    var idx: nat, expected: nat := 0, 0;
    next := pos;
    ghost var start := pos;
    while next < |input|
      invariant pos <= start <= next <= |input| && idx == next - start
      invariant Next(input, pos) == Next(input, start)
      invariant if idx < 2 then expected == 0 else idx < expected == input[start + 1] as int + 5
      invariant expected <= MAX_FRAME && idx < MAX_FRAME && raw[..idx] == input[start..next]
    {
      ghost var received := raw[..idx];
      raw[idx] := input[next];
      assert raw[..idx + 1] == received + [input[next]] == input[start..next + 1];
      idx := idx + 1;
      next := next + 1;
      if idx == 2 {
        expected := raw[1] as int + 5;
        assert raw[..idx][1] == input[start + 1];
      } else if expected > 0 && idx == expected {
        NextAtBlock(input, start, next);
        frame := Check(raw, expected);
        if frame.Some? {
          return;
        }
        idx, expected, start := 0, 0, next;
      }
    }
    NextAtEnd(input, start);
    return None, next;
  }

  // ---------------------------------------------------------------- streams

  function Flatten(blocks: seq<seq<Byte>>): seq<Byte> {
    if blocks == [] then [] else blocks[0] + Flatten(blocks[1..])
  }

  /** Everything a receiver called again and again returns. */
  function Frames(input: seq<Byte>, pos: nat): seq<Frame>
    requires pos <= |input|
    decreases |input| - pos
  {
    var (f, next) := Next(input, pos);
    match f case None => [] case Some(frame) => [frame] + Frames(input, next)
  }

  function Accepted(blocks: seq<seq<Byte>>): seq<Frame>
    requires forall i :: 0 <= i < |blocks| ==> Block(blocks[i])
  {
    if blocks == [] then []
    else (if Accepts(blocks[0]) then [Read(blocks[0])] else []) + Accepted(blocks[1..])
  }

  lemma BlockAt(input: seq<Byte>, pos: nat, block: seq<Byte>)
    requires Block(block) && pos + |block| <= |input| && input[pos..pos + |block|] == block
    ensures Next(input, pos) == if Accepts(block) then (Some(Read(block)), pos + |block|)
                                else Next(input, pos + |block|)
    ensures Frames(input, pos) ==
      (if Accepts(block) then [Read(block)] else []) + Frames(input, pos + |block|)
  {
    assert input[pos + 1] == input[pos..pos + |block|][1];
  }

  lemma FirstBlock(input: seq<Byte>, pos: nat, block: seq<Byte>, rest: seq<Byte>)
    requires pos <= |input| && input[pos..] == block + rest
    ensures pos + |block| <= |input|
    ensures input[pos..pos + |block|] == block && input[pos + |block|..] == rest
  {
    assert input[pos..pos + |block|] == input[pos..][..|block|];
    assert input[pos + |block|..] == input[pos..][|block|..];
  }

  lemma NoFrames(input: seq<Byte>, pos: nat)
    requires pos == |input|
    ensures Frames(input, pos) == []
  {
  }

  /** The receiver stays on block boundaries whatever the contents: a damaged block is dropped whole and
      the blocks after it are read as if it had not been there. */
  lemma {:induction false} StreamOfBlocks(input: seq<Byte>, pos: nat, blocks: seq<seq<Byte>>)
    requires forall i :: 0 <= i < |blocks| ==> Block(blocks[i])
    requires pos <= |input| && input[pos..] == Flatten(blocks)
    ensures Frames(input, pos) == Accepted(blocks)
    decreases |blocks|
  {
    hide Next, Accepts, Read, Frames;
    if blocks == [] {
      NoFrames(input, pos);
    } else {
      FirstBlock(input, pos, blocks[0], Flatten(blocks[1..]));
      BlockAt(input, pos, blocks[0]);
      StreamOfBlocks(input, pos + |blocks[0]|, blocks[1..]);
    }
  }

  function PrintAll(fs: seq<Frame>): (blocks: seq<seq<Byte>>)
    ensures |blocks| == |fs| && forall i :: 0 <= i < |fs| ==> blocks[i] == Print(fs[i])
  {
    seq(|fs|, i requires 0 <= i < |fs| => Print(fs[i]))
  }

  lemma {:induction false} AcceptedPrintings(fs: seq<Frame>)
    ensures forall i :: 0 <= i < |fs| ==> Block(Print(fs[i]))
    ensures Accepted(PrintAll(fs)) == fs
    decreases |fs|
  {
    forall i | 0 <= i < |fs| ensures Block(Print(fs[i])) {
      PrintIsAccepted(fs[i]);
    }
    if fs != [] {
      PrintIsAccepted(fs[0]);
      assert PrintAll(fs)[1..] == PrintAll(fs[1..]);
      AcceptedPrintings(fs[1..]);
    } else {
      assert PrintAll(fs) == [];
    }
  }

  /** Frames printed one after the other are received as the same frames, for every data length. */
  lemma PrintThenReceive(fs: seq<Frame>)
    ensures Frames(Flatten(PrintAll(fs)), 0) == fs
  {
    AcceptedPrintings(fs);
    var input := Flatten(PrintAll(fs));
    assert input[0..] == input;
    StreamOfBlocks(input, 0, PrintAll(fs));
  }

  /** Whatever is received was on the wire as its own printing, right before the position returned. */
  lemma {:induction false} ReceivedWasPrinted(input: seq<Byte>, pos: nat)
    requires pos <= |input| && Next(input, pos).0.Some?
    ensures var (f, next) := Next(input, pos);
      pos + |Print(f.value)| <= next && input[next - |Print(f.value)|..next] == Print(f.value)
    decreases |input| - pos
  {
    var end := pos + input[pos + 1] as int + 5;
    var block := input[pos..end];
    if Accepts(block) {
      AcceptedIsPrinted(block);
    } else {
      ReceivedWasPrinted(input, end);
    }
  }
}
