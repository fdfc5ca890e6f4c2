/**
 Command and response on the single ccTalk wire (cctalk_command in components/cctalk/cctalk.c): the
 master hears its own frame and the traffic of other devices, and must pick the answer.
 */
module CctalkCommand {
  import opened Values
  import opened CctalkFrame

  /** A frame the command loop stops at: from the addressed device to the master, and not its own echo. */
  predicate IsReply(f: Frame, device: Byte, master: Byte) {
    !(f.source == master && f.destination == device) && f.source == device && f.destination == master
  }

  function FirstReply(frames: seq<Frame>, device: Byte, master: Byte): Option<Frame> {
    if frames == [] then None
    else if IsReply(frames[0], device, master) then Some(frames[0])
    else FirstReply(frames[1..], device, master)
  }

  /** The receive loop of cctalk_command over the bytes that arrive before the deadline. */
  method AwaitReply(input: seq<Byte>, device: Byte, master: Byte) returns (response: Option<Frame>)
    ensures response == FirstReply(Frames(input, 0), device, master)
  {
    hide Next;
    var pos := 0;
    while true
      invariant pos <= |input|
      invariant FirstReply(Frames(input, 0), device, master) == FirstReply(Frames(input, pos), device, master)
      decreases |input| - pos
    {
      var frame, next := Receive(input, pos);
      if frame.None? {
        return None;
      }
      var rx := frame.value;
      assert Frames(input, pos) == [rx] + Frames(input, next);
      assert ([rx] + Frames(input, next))[1..] == Frames(input, next);
      pos := next;
      if rx.source == master && rx.destination == device {
        continue;
      }
      if rx.source != device || rx.destination != master {
        continue;
      }
      return Some(rx);
    }
  }

  /** What is sent, and what comes back when the wire then carries `input`. */
  method Command(device: Byte, master: Byte, header: Byte, data: seq<Byte>, input: seq<Byte>)
    returns (sent: seq<Byte>, response: Option<Frame>)
    requires |data| <= 255
    ensures sent == Print(RawFrame.Frame(device, master, header, data))
    ensures response == FirstReply(Frames(input, 0), device, master)
  {
    var packet, len := BuildPacket(device, master, header, data);
    sent := packet[..len];
    response := AwaitReply(input, device, master);
  }

  lemma {:induction false} FirstReplySkips(others: seq<Frame>, reply: Frame, rest: seq<Frame>,
                                           device: Byte, master: Byte)
    requires forall i :: 0 <= i < |others| ==> !IsReply(others[i], device, master)
    requires IsReply(reply, device, master)
    ensures FirstReply(others + [reply] + rest, device, master) == Some(reply)
  {
    if others == [] {
      assert others + [reply] + rest == [reply] + rest;
    } else {
      assert (others + [reply] + rest)[1..] == others[1..] + [reply] + rest;
      FirstReplySkips(others[1..], reply, rest, device, master);
    }
  }

  /** With distinct addresses, whatever the master's own frame is and whatever other traffic surrounds
      it, the command returns the first frame the device sends to the master. */
  lemma CommandFindsReply(own: Frame, before: seq<Frame>, between: seq<Frame>, reply: Frame, rest: seq<Frame>,
                          device: Byte, master: Byte)
    requires device != master
    requires own.destination == device && own.source == master
    requires reply.destination == master && reply.source == device
    requires forall f :: f in before + between ==> f.source != device || f.destination != master
    ensures FirstReply(Frames(Flatten(PrintAll(before + [own] + between + [reply] + rest)), 0), device, master)
            == Some(reply)
  {
    var others := before + [own] + between;
    forall i | 0 <= i < |others| ensures !IsReply(others[i], device, master) {
      assert others[i] != own ==> others[i] in before + between;
    }
    PrintThenReceive(others + [reply] + rest);
    FirstReplySkips(others, reply, rest, device, master);
  }

  /** A master that talks to its own address takes every answer for its echo: no input satisfies it. */
  lemma {:induction false} OwnAddressNeverAnswers(frames: seq<Frame>, address: Byte)
    ensures FirstReply(frames, address, address) == None
  {
    if frames != [] {
      OwnAddressNeverAnswers(frames[1..], address);
    }
  }

  /** Exactly when there is an answer at all. */
  lemma {:induction false} ReplyExists(frames: seq<Frame>, device: Byte, master: Byte)
    requires device != master
    ensures FirstReply(frames, device, master).Some? <==>
      exists i :: 0 <= i < |frames| && frames[i].source == device && frames[i].destination == master
  {
    if frames != [] {
      ReplyExists(frames[1..], device, master);
      if i :| 0 <= i < |frames| && frames[i].source == device && frames[i].destination == master {
        assert i > 0 ==> frames[1..][i - 1] == frames[i];
      }
      if i :| 0 <= i < |frames[1..]| && frames[1..][i].source == device && frames[1..][i].destination == master {
        assert frames[i + 1] == frames[1..][i];
      }
    }
  }
}
