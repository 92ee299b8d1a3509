/** The Ability Hand driver and the mock device, whose fields are updated in place (hand.py of
    psyonic_ability_hand, in polymetis/python/polymetis/robot_drivers/psyonic_gripper/ability-hand-api). */
module Hands {
  import opened Bits
  import opened HandFrames
  import opened HandProtocol
  import opened JointScaling
  import TouchSensors
  import opened Wrappers

  // ----- The mock device -----

  /** `s[i:j]` as Python slices: what of it exists. */
  function Slice(s: seq<byte>, i: nat, j: nat): (r: seq<byte>)
    requires i <= j
    ensures j <= |s| ==> r == s[i..j]
  {
    if |s| <= i then [] else if |s| < j then s[i..] else s[i..j]
  }

  function Zeros(): (r: seq<byte>)
    ensures |r| == 12
  {
    seq(12, _ => 0)
  }

  /** Two bytes of each in turn, for as long as there are any: position and current of each joint. */
  function Pairs(pos: seq<byte>, cur: seq<byte>): seq<byte>
    decreases |pos| + |cur|
  {
    if pos == [] && cur == [] then []
    else Slice(pos, 0, 2) + Slice(cur, 0, 2) + Pairs(From(pos, 2), From(cur, 2))
  }

  /** `s[i:]` */
  function From(s: seq<byte>, i: nat): (r: seq<byte>)
    ensures i <= |s| ==> r == s[i..]
    ensures |s| <= i ==> r == []
  {
    if |s| <= i then [] else s[i..]
  }

  const TOUCH_TRIPLETS: seq<byte> := [0, 16, 2, 0, 48, 4, 0, 80, 6]

  function TouchData(): (data: seq<byte>)
    ensures |data| == 45
  {
    seq(45, k requires 0 <= k < 45 => TOUCH_TRIPLETS[k % 9])
  }

  const STATUS: byte := 0x3F
  const POSITION: byte := 0x10
  const QUERY: byte := 0xA0
  const GRIP: byte := 0x1D

  /** The mock device's answer to a command it knows. */
  function MockReply(command: byte, pos: seq<byte>): (p: seq<byte>) {
    var data := [command] + Pairs(pos, Zeros()) + TouchData() + [STATUS];
    data + [Checksum(data, |data|)]
  }

  lemma TakeTwo(s: seq<byte>, i: nat)
    ensures Slice(From(s, i), 0, 2) == Slice(s, i, i + 2) && From(From(s, i), 2) == From(s, i + 2)
  {
  }

  /** The loop runs over twice as many bytes as there are: the further slices are empty. */
  method PairWithCurrent(pos: seq<byte>) returns (respData: seq<byte>)
    requires |pos| <= 12
    ensures respData == Pairs(pos, Zeros())
  {
    var cur := Zeros();
    respData := [];
    var i := 0;
    while i < 24
      invariant 0 <= i <= 24 && i % 2 == 0
      invariant respData + Pairs(From(pos, i), From(cur, i)) == Pairs(pos, cur)
    {
      TakePair(pos, cur, i, respData);
      respData := respData + (Slice(pos, i, i + 2) + Slice(cur, i, i + 2));
      i := i + 2;
    }
    AllTaken(pos, cur, i, respData);
  }

  lemma TakePair(pos: seq<byte>, cur: seq<byte>, i: nat, taken: seq<byte>)
    ensures taken + Pairs(From(pos, i), From(cur, i))
              == taken + (Slice(pos, i, i + 2) + Slice(cur, i, i + 2)) + Pairs(From(pos, i + 2), From(cur, i + 2))
  {
    TakeTwo(pos, i);
    TakeTwo(cur, i);
    PairsStep(From(pos, i), From(cur, i));
  }

  lemma AllTaken(pos: seq<byte>, cur: seq<byte>, i: nat, taken: seq<byte>)
    requires |pos| <= i && |cur| <= i
    ensures taken + Pairs(From(pos, i), From(cur, i)) == taken
  {
    assert Pairs(From(pos, i), From(cur, i)) == [];
  }

  lemma PairsStep(pos: seq<byte>, cur: seq<byte>)
    ensures Pairs(pos, cur) == Slice(pos, 0, 2) + Slice(cur, 0, 2) + Pairs(From(pos, 2), From(cur, 2))
  {
  }

  /** The line to the mock device. */
  class Comm {
    var reply: seq<byte>
    var posData: seq<byte>
    /** A read with nothing on the line answers None instead of an empty string. */
    const silent: bool

    ghost predicate Valid()
      reads this
    {
      |posData| <= 12
    }

    constructor (silent: bool)
      ensures Valid() && reply == [] && this.silent == silent && posData == Zeros()
    {
      reply := [];
      posData := Zeros();
      this.silent := silent;
    }

    /** Takes up to `n` bytes off the line. */
    method Read(n: nat) returns (r: Option<seq<byte>>)
      modifies this`reply
      ensures silent && old(reply) == [] ==> r.None? && reply == []
      ensures !(silent && old(reply) == []) ==>
                && r.Some? && old(reply) == r.value + reply
                && |r.value| == if n < |old(reply)| then n else |old(reply)|
    {
      if silent && reply == [] {
        return None;
      }
      r := Some(Slice(reply, 0, n));
      reply := reply[|r.value|..];
    }

    /** None is the exception raised when the two leading bytes are missing. */
    method Write(data: seq<byte>) returns (n: Option<nat>)
      requires Valid()
      modifies this`reply, this`posData
      ensures Valid()
      ensures n == if |data| < 2 then None else Some(|data|)
      ensures posData == if |data| >= 2 && data[1] == POSITION then Slice(data, 2, 14) else old(posData)
      ensures reply == old(reply) +
                if |data| >= 2 && data[1] in {POSITION, QUERY} then MockReply(data[1], posData) else []
    {
      if |data| < 2 {
        return None;
      }
      var command := data[1];
      if command == GRIP {
      } else if command == POSITION || command == QUERY {
        if command == POSITION {
          posData := Slice(data, 2, 14);
        }
        var respData := PairWithCurrent(posData);
        var resp := [command] + respData + TouchData() + [STATUS];
        var chk := ComputeChecksum(resp, None);
        reply := reply + (resp + [chk]);
      }
      return Some(|data|);
    }
  }

  lemma TakenApart(line: seq<byte>, a: seq<byte>, b: seq<byte>, rest: seq<byte>)
    requires line == a + (b + rest)
    ensures line[..|a| + |b|] == a + b && line[|a| + |b|..] == rest
  {
  }

  /** The packet of a command. */
  function Packet(version: nat, address: Option<byte>, command: byte, data: seq<byte>): (p: seq<byte>) {
    var buf := (if version == 2 && address.Some? then [address.value, command] else [command]) + data;
    buf + [Checksum(buf, |buf|)]
  }

  /** A packet addresses the hand if it speaks version 2 and has an address, then carries the command and its data, and
      its bytes sum to a multiple of 256. */
  lemma PacketSums(version: nat, address: Option<byte>, command: byte, data: seq<byte>)
    ensures var p := Packet(version, address, command, data);
            && Sum(p, |p|) % 256 == 0
            && if version == 2 && address.Some? then
                 |p| == |data| + 3 && p[0] == address.value && p[1] == command && p[2..|p| - 1] == data
               else |p| == |data| + 2 && p[0] == command && p[1..|p| - 1] == data
  {
    var buf := (if version == 2 && address.Some? then [address.value, command] else [command]) + data;
    var c := Checksum(buf, |buf|);
    ChecksumAppended(buf, c);
    ChecksumCompletes(buf + [c], |buf|, c);
  }

  /** A command with the reply it asks for in the low nibble. */
  function CommandByte(base: byte, replyType: nat): (c: byte)
    requires replyType <= 2 && base % 16 == 0
    ensures c == Or(base, replyType)
  {
    OrNibble(base / 16, replyType);
    base + replyType
  }

  /** The driver. */
  class Hand {
    const comm: Comm
    const slaveAddress: Option<byte>
    const protocolVersion: nat
    var position: seq<real>
    var current: seq<real>
    var velocity: seq<real>
    var touch: seq<seq<nat>>
    var motorStatus: seq<bool>

    ghost function View(): Telemetry
      reads this
    {
      Telemetry(position, current, velocity, touch, motorStatus)
    }

    constructor (comm: Comm, slaveAddress: Option<byte>, protocolVersion: nat)
      ensures this.comm == comm && this.slaveAddress == slaveAddress && this.protocolVersion == protocolVersion
      ensures var zeros := seq(NUM_JOINTS, _ => 0.0);
              View() == Telemetry(zeros, zeros, zeros, seq(5, _ => seq(6, _ => 0)), seq(NUM_JOINTS, _ => false))
    {
      this.comm := comm;
      this.slaveAddress := slaveAddress;
      this.protocolVersion := protocolVersion;
      position := seq(NUM_JOINTS, _ => 0.0);
      current := seq(NUM_JOINTS, _ => 0.0);
      velocity := seq(NUM_JOINTS, _ => 0.0);
      touch := seq(5, _ => seq(6, _ => 0));
      motorStatus := seq(NUM_JOINTS, _ => false);
    }

    /** Sends a command; the mock device answers into the same line. */
    method Command(command: byte, data: seq<byte>)
      requires comm.Valid()
      modifies comm
      ensures comm.Valid()
      ensures var p := Packet(protocolVersion, slaveAddress, command, data);
              && comm.posData == (if p[1] == POSITION then Slice(p, 2, 14) else old(comm.posData))
              && comm.reply == old(comm.reply) + if p[1] in {POSITION, QUERY} then MockReply(p[1], comm.posData) else []
    {
      var buf: seq<byte> := [command];
      if protocolVersion == 2 && slaveAddress.Some? {
        buf := [slaveAddress.value, command];
      }
      if data != [] {
        buf := buf + data;
      } else {
        assert buf == buf + data;
      }
      var c := ComputeChecksum(buf, None);
      buf := buf + [c];
      assert buf == Packet(protocolVersion, slaveAddress, command, data);
      var _ := comm.Write(buf);
    }

    method Publish(p: seq<byte>) returns (raised: Option<ProtocolError>)
      requires IsFrame(p) && Intact(p)
      modifies this
      ensures (View(), raised) == Decode(old(View()), p)
    {
      motorStatus := MotorHotStatus(p[|p| - 2]);
      var d := UnpackShorts(p[1..25]);
      position := DecodePosition(Every2nd(d, 0));
      var qv := Every2nd(d, 1);
      var variant := Variant(p[0]);
      if variant == 0 {
        current := DecodeCurrent(qv);
        touch := TouchSensors.Unpack(p[25..70]).value;
      } else if variant == 1 {
        velocity := DecodeVelocity(qv);
        touch := TouchSensors.Unpack(p[25..70]).value;
      } else if variant == 2 {
        current := DecodeCurrent(qv);
        velocity := DecodeVelocity(UnpackShorts(p[25..|p| - 2]));
      } else {
        return Some(UnsupportedVariant(variant));
      }
      return None;
    }

    /** One frame off the line. A silent line is only logged; every other failure raises. */
    method ReadV2() returns (raised: Option<ProtocolError>)
      modifies this, comm`reply
      ensures View() == Receive(old(View()), old(comm.reply)).0 && comm.reply == Receive(old(View()), old(comm.reply)).1
      ensures raised == if comm.silent && old(comm.reply) == [] then None else Receive(old(View()), old(comm.reply)).2
    {
      ghost var line := comm.reply;
      var first := comm.Read(1);
      if first.None? {
        return None;
      }
      if |first.value| != 1 {
        return Some(InvalidPacketType);
      }
      var p := first.value;
      assert p[0] == line[0];
      var variant := p[0] % 16;
      var length := if variant == 2 then 38 else 71;
      var ret := comm.Read(length);
      if ret.None? || |ret.value| != length {
        return Some(IncompletePacket);
      }
      TakenApart(line, p, ret.value, comm.reply);
      p := p + ret.value;
      AfterIsSuffix(line, 1 + length);
      assert p == line[..1 + length] && comm.reply == line[1 + length..];
      var calculated := ComputeChecksum(p, Some(|p| - 1));
      if p[|p| - 1] != calculated {
        return Some(ChecksumFailed);
      }
      raised := Publish(p);
    }

    method PositionCommand(replyType: nat, pos: seq<real>)
      requires replyType <= 2 && |pos| == NUM_JOINTS
      requires comm.Valid()
      modifies comm
      ensures comm.Valid()
      ensures var data := PackShorts(ScaleAll(pos, 150.0));
              var p := Packet(protocolVersion, slaveAddress, CommandByte(0x10, replyType), data);
              && comm.posData == (if p[1] == POSITION then Slice(p, 2, 14) else old(comm.posData))
              && comm.reply == old(comm.reply) + if p[1] in {POSITION, QUERY} then MockReply(p[1], comm.posData) else []
    {
      Command(CommandByte(0x10, replyType), PackShorts(ScaleAll(pos, 150.0)));
    }

    method VelocityCommand(replyType: nat, vel: seq<real>)
      requires comm.Valid()
      requires replyType <= 2 && |vel| == NUM_JOINTS
      modifies comm
      ensures comm.Valid()
      ensures var data := PackShorts(ScaleAll(vel, 3000.0));
              var p := Packet(protocolVersion, slaveAddress, CommandByte(0x20, replyType), data);
              && comm.posData == (if p[1] == POSITION then Slice(p, 2, 14) else old(comm.posData))
              && comm.reply == old(comm.reply) + if p[1] in {POSITION, QUERY} then MockReply(p[1], comm.posData) else []
      ensures protocolVersion == 2 && slaveAddress.Some? ==>
                comm.reply == old(comm.reply) && comm.posData == old(comm.posData)
    {
      Command(CommandByte(0x20, replyType), PackShorts(ScaleAll(vel, 3000.0)));
    }

    method QueryCommand(replyType: nat)
      requires replyType <= 2
      requires comm.Valid()
      modifies comm
      ensures comm.Valid()
      ensures var p := Packet(protocolVersion, slaveAddress, CommandByte(0xA0, replyType), []);
              && comm.posData == (if p[1] == POSITION then Slice(p, 2, 14) else old(comm.posData))
              && comm.reply == old(comm.reply) + if p[1] in {POSITION, QUERY} then MockReply(p[1], comm.posData) else []
    {
      Command(CommandByte(0xA0, replyType), []);
    }

    /** The receiving thread: reads frame after frame and goes on after a protocol error. */
    method Run(rounds: nat) returns (errors: nat)
      modifies this, comm`reply
      ensures (View(), comm.reply, errors) == Reads(old(View()), old(comm.reply), comm.silent, rounds)
    {
      ghost var t, line := View(), comm.reply;
      errors := 0;
      for i := 0 to rounds
        invariant (View(), comm.reply, errors) == Reads(t, line, comm.silent, i)
      {
        var raised := ReadV2();
        if raised.Some? {
          errors := errors + 1;
        }
      }
    }
  }
}
