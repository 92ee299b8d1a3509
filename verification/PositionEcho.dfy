/** Position commands through the driver, the mock device and back (hand.py:175-218, 508-526, 558-571, 642-725). */
module PositionEcho {
  import opened Bits
  import opened HandFrames
  import opened HandProtocol
  import opened Hands
  import opened JointScaling
  import TouchSensors
  import opened Wrappers

  function ZeroWords(): (w: seq<int>)
    ensures |w| == NUM_JOINTS
  {
    seq(NUM_JOINTS, _ => 0)
  }

  /** The touch values the mock device always reports. */
  function MockTouch(): (touch: seq<seq<nat>>)
    ensures TouchSensors.IsTouch(touch) && TouchSensors.Pack(touch) == TouchData()
  {
    TouchSensors.PackUnpack(TouchData());
    TouchSensors.Unpack(TouchData()).value
  }

  predicate Answered(command: byte) {
    command == POSITION || command == QUERY
  }

  lemma HighNibble(command: byte)
    requires Answered(command)
    ensures 16 * (command / 16) == command
  {
  }

  /** The reply the mock device sends, as the hand would mean it. */
  function MockMeaning(command: byte, w: seq<int>): Reply {
    Reply(0, command / 16, w, ZeroWords(), [], MockTouch(), STATUS)
  }

  lemma MockIsReply(command: byte, w: seq<int>)
    requires Words16(w) && Answered(command)
    ensures IsReply(MockMeaning(command, w)) && 16 * MockMeaning(command, w).high == command
  {
    HighNibble(command);
    ZeroWordsFit();
  }

  lemma ZeroWordsFit()
    ensures Words16(ZeroWords())
  {
  }

  lemma PairsAre(w: seq<int>)
    requires |w| == NUM_JOINTS
    ensures Pairs(PackShorts(w), Zeros()) == PackShorts(Interleave(w, ZeroWords()))
  {
    var i := Interleave(w, ZeroWords());
    var all, pos := PackShorts(i), PackShorts(w);
    forall j | 0 <= j < NUM_JOINTS
      ensures all[4 * j..4 * j + 4] == [pos[2 * j], pos[2 * j + 1], 0, 0]
    {
      InterleaveAt(w, ZeroWords(), j);
      FourBytes(w, i, j, all, pos);
      FourSlice(all, 4 * j);
    }
    PairsFrom(all, pos, 0);
  }

  /** `all` pairs the words of `pos` with zero words. */
  predicate Paired(all: seq<byte>, pos: seq<byte>) {
    && |pos| == 12 && |all| == 24
    && forall j :: 0 <= j < NUM_JOINTS ==>
         all[4 * j..4 * j + 4] == [pos[2 * j], pos[2 * j + 1], 0, 0]
  }

  lemma {:induction false} PairsFrom(all: seq<byte>, pos: seq<byte>, j: nat)
    requires Paired(all, pos) && j <= NUM_JOINTS
    ensures Pairs(From(pos, 2 * j), From(Zeros(), 2 * j)) == all[4 * j..]
    decreases NUM_JOINTS - j
  {
    if j == NUM_JOINTS {
    } else {
      PairsFrom(all, pos, j + 1);
      PairAt(pos, j);
      SplitFour(all, 4 * j);
    }
  }

  /** The first pair from joint `j` on. */
  lemma PairAt(pos: seq<byte>, j: nat)
    requires |pos| == 12 && j < NUM_JOINTS
    ensures Pairs(From(pos, 2 * j), From(Zeros(), 2 * j))
              == [pos[2 * j], pos[2 * j + 1], 0, 0] + Pairs(From(pos, 2 * (j + 1)), From(Zeros(), 2 * (j + 1)))
  {
    TakeTwo(pos, 2 * j);
    TakeTwo(Zeros(), 2 * j);
    TwoBytes(pos, 2 * j);
    TwoBytes(Zeros(), 2 * j);
    PairsStep(From(pos, 2 * j), From(Zeros(), 2 * j));
    assert [pos[2 * j], pos[2 * j + 1]] + [0, 0] == [pos[2 * j], pos[2 * j + 1], 0, 0];
  }

  lemma SplitFour(s: seq<byte>, k: nat)
    requires k + 4 <= |s|
    ensures s[k..] == s[k..k + 4] + s[k + 4..]
  {
  }

  lemma TwoBytes(s: seq<byte>, k: nat)
    requires k + 2 <= |s|
    ensures Slice(s, k, k + 2) == [s[k], s[k + 1]]
  {
  }

  lemma FourSlice(s: seq<byte>, k: nat)
    requires k + 4 <= |s|
    ensures s[k..k + 4] == [s[k], s[k + 1], s[k + 2], s[k + 3]]
  {
  }

  lemma FourBytes(w: seq<int>, i: seq<int>, j: nat, all: seq<byte>, pos: seq<byte>)
    requires j < |w| && 2 * j + 1 < |i| && i[2 * j] == w[j] && i[2 * j + 1] == 0
    requires all == PackShorts(i) && pos == PackShorts(w)
    ensures all[4 * j] == pos[2 * j] && all[4 * j + 1] == pos[2 * j + 1]
    ensures all[4 * j + 2] == 0 && all[4 * j + 3] == 0
  {
    WordBytes(w, j, 2 * j, w[j], pos);
    WordBytes(i, 2 * j, 4 * j, w[j], all);
    WordBytes(i, 2 * j + 1, 4 * j + 2, 0, all);
  }

  lemma WordBytes(v: seq<int>, j: nat, k: nat, x: int, data: seq<byte>)
    requires j < |v| && v[j] == x && data == PackShorts(v) && k == 2 * j
    ensures data[k] == LowByte(x) && data[k + 1] == HighByte(x)
    ensures LowByte(0) == HighByte(0) == 0
  {
    PackShortsAt(v, j);
  }

  /** The mock device's answer is the encoding of a reply that reports the commanded words and no current. */
  lemma MockReplyIs(command: byte, w: seq<int>)
    requires Words16(w) && Answered(command)
    ensures IsReply(MockMeaning(command, w)) && MockReply(command, PackShorts(w)) == Encode(MockMeaning(command, w))
  {
    var r := MockMeaning(command, w);
    MockIsReply(command, w);
    PairsAre(w);
    MockPayload(r, command, Pairs(PackShorts(w), Zeros()));
  }

  lemma MockPayload(r: Reply, command: byte, words: seq<byte>)
    requires IsReply(r) && r.variant == 0 && 16 * r.high == command && r.touch == MockTouch() && r.status == STATUS
    requires words == PackShorts(Interleave(r.pos, r.qv))
    ensures var data := [command] + words + TouchData() + [STATUS];
            Encode(r) == data + [Checksum(data, |data|)]
  {
    PayloadIs(r, command, words, TouchData());
    EncodeIs(r, Payload(r), Checksum(Payload(r), |Payload(r)|));
  }

  lemma WordsFit(pos: seq<real>)
    requires |pos| == NUM_JOINTS
    ensures Words16(ScaleAll(pos, 150.0))
  {
    forall j | 0 <= j < NUM_JOINTS ensures IsInt16(ScaleAll(pos, 150.0)[j]) {
      ScaleAccuracy(pos[j], 150.0);
    }
  }

  /** Reported positions lie within one step of what the limits admit of the command. */
  predicate Follows(position: seq<real>, pos: seq<real>)
    requires |pos| == NUM_JOINTS
  {
    |position| == NUM_JOINTS && forall j :: 0 <= j < NUM_JOINTS ==>
      -150.0 / 32767.0 < position[j] - Limited(pos[j], 150.0) < 150.0 / 32767.0
  }

  lemma DecodedFollows(pos: seq<real>)
    requires |pos| == NUM_JOINTS
    ensures Follows(DecodePosition(ScaleAll(pos, 150.0)), pos)
  {
    forall j | 0 <= j < NUM_JOINTS
      ensures -150.0 / 32767.0 < DecodePosition(ScaleAll(pos, 150.0))[j] - Limited(pos[j], 150.0) < 150.0 / 32767.0
    {
      ScaleAccuracy(pos[j], 150.0);
    }
  }

  /** Words read off the wire, decoded as positions (limit 150) or velocities (limit 3000) and commanded again are
      the same words, as long as none is the one no command produces. */
  lemma WordsSurvive(w: seq<int>, limit: real)
    requires limit > 0.0 && forall j :: 0 <= j < |w| ==> IsInt16(w[j]) && w[j] != -32768
    ensures ScaleAll(Scaled(w, limit, 32767.0), limit) == w
  {
    forall j | 0 <= j < |w| ensures Scale(Scaled(w, limit, 32767.0)[j], limit) == w[j] {
      assert Scaled(w, limit, 32767.0)[j] == Unscale(w[j], limit);
      Rescale(w[j], limit);
    }
    var again := ScaleAll(Scaled(w, limit, 32767.0), limit);
    assert forall j :: 0 <= j < |w| ==> again[j] == Scale(Scaled(w, limit, 32767.0)[j], limit);
  }

  lemma ResendSame(pos: seq<real>)
    requires |pos| == NUM_JOINTS
    ensures ScaleAll(DecodePosition(ScaleAll(pos, 150.0)), 150.0) == ScaleAll(pos, 150.0)
  {
    var w := ScaleAll(pos, 150.0);
    forall j | 0 <= j < NUM_JOINTS ensures -32767 <= w[j] <= 32767 {
      ScaleAccuracy(pos[j], 150.0);
    }
    WordsSurvive(w, 150.0);
  }

  lemma PacketCarries(address: byte, w: seq<int>)
    requires |w| == NUM_JOINTS
    ensures var p := Packet(2, Some(address), POSITION, PackShorts(w));
            p[1] == POSITION && Slice(p, 2, 14) == PackShorts(w)
  {
  }

  lemma QueryPacket(address: byte)
    ensures Packet(2, Some(address), QUERY, [])[1] == QUERY
  {
  }

  /** The driver reads the commanded words back from the mock device's answer. */
  lemma ReadMock(t: Telemetry, command: byte, w: seq<int>, line: seq<byte>)
    requires Words16(w) && Answered(command) && line == MockReply(command, PackShorts(w))
    ensures IsReply(MockMeaning(command, w))
    ensures line != [] && Receive(t, line) == (Reported(t, MockMeaning(command, w)), [], None)
  {
    var r := MockMeaning(command, w);
    MockReplyIs(command, w);
    ReceiveReply(t, r, line);
  }

  lemma ReceiveReply(t: Telemetry, r: Reply, line: seq<byte>)
    requires IsReply(r) && line == Encode(r)
    ensures line != [] && Receive(t, line) == (Reported(t, r), [], None)
  {
    DecodeEncode(t, r);
    assert line == Encode(r) + [];
    ReceiveFrame(t, Encode(r), []);
  }

  /** A position command sent to the mock device and read back. */
  method MoveAndRead(hand: Hand, pos: seq<real>) returns (raised: Option<ProtocolError>)
    requires hand.protocolVersion == 2 && hand.slaveAddress.Some? && |pos| == NUM_JOINTS
    requires hand.comm.Valid() && hand.comm.reply == []
    modifies hand, hand.comm
    ensures raised == None && hand.comm.Valid() && hand.comm.reply == []
    ensures hand.comm.posData == PackShorts(ScaleAll(pos, 150.0))
    ensures hand.position == DecodePosition(ScaleAll(pos, 150.0))
  {
    WordsFit(pos);
    Move(hand, pos);
    raised := ReadBack(hand, POSITION, ScaleAll(pos, 150.0));
  }

  method Move(hand: Hand, pos: seq<real>)
    requires hand.protocolVersion == 2 && hand.slaveAddress.Some? && |pos| == NUM_JOINTS
    requires hand.comm.Valid() && hand.comm.reply == []
    modifies hand.comm
    ensures hand.comm.Valid() && hand.comm.posData == PackShorts(ScaleAll(pos, 150.0))
    ensures hand.comm.reply == MockReply(POSITION, hand.comm.posData)
  {
    WordsFit(pos);
    PacketCarries(hand.slaveAddress.value, ScaleAll(pos, 150.0));
    hand.PositionCommand(0, pos);
  }

  /** Reads an answer of the mock device. */
  method ReadBack(hand: Hand, ghost command: byte, ghost w: seq<int>) returns (raised: Option<ProtocolError>)
    requires (command == POSITION || command == QUERY) && Words16(w)
    requires hand.comm.reply == MockReply(command, PackShorts(w))
    modifies hand, hand.comm`reply
    ensures raised == None && hand.comm.reply == [] && hand.position == DecodePosition(w)
  {
    ReadMock(hand.View(), command, w, hand.comm.reply);
    raised := hand.ReadV2();
  }

  /** A query answered by the mock device and read back. */
  method Poll(hand: Hand, ghost w: seq<int>) returns (raised: Option<ProtocolError>)
    requires hand.protocolVersion == 2 && hand.slaveAddress.Some? && hand.comm.Valid() && hand.comm.reply == []
    requires Words16(w) && hand.comm.posData == PackShorts(w)
    modifies hand, hand.comm
    ensures raised == None && hand.comm.Valid() && hand.comm.reply == [] && hand.comm.posData == PackShorts(w)
    ensures hand.position == DecodePosition(w)
  {
    QueryPacket(hand.slaveAddress.value);
    hand.QueryCommand(0);
    raised := ReadBack(hand, QUERY, w);
  }

  function PositionPacket(address: Option<byte>, pos: seq<real>): seq<byte> {
    Packet(2, address, POSITION, PackShorts(ScaleAll(pos, 150.0)))
  }

  /** A position command sent to the mock device and read back, then polled any number of times: every read
      succeeds, leaves the line empty and reports each joint within one step of the admissible command; the
      reported position, commanded in turn, is the same packet. */
  method MoveAndPoll(hand: Hand, pos: seq<real>, polls: nat) returns (raised: seq<Option<ProtocolError>>)
    requires hand.protocolVersion == 2 && hand.slaveAddress.Some? && |pos| == NUM_JOINTS
    requires hand.comm.Valid() && hand.comm.reply == []
    modifies hand, hand.comm
    ensures |raised| == 1 + polls && forall i :: 0 <= i < |raised| ==> raised[i] == None
    ensures hand.comm.Valid() && hand.comm.reply == [] && Follows(hand.position, pos)
    ensures |hand.position| == NUM_JOINTS
    ensures PositionPacket(hand.slaveAddress, hand.position) == PositionPacket(hand.slaveAddress, pos)
  {
    ghost var w := ScaleAll(pos, 150.0);
    WordsFit(pos);
    var r := MoveAndRead(hand, pos);
    raised := [r];
    while |raised| <= polls
      invariant |raised| <= 1 + polls && forall i :: 0 <= i < |raised| ==> raised[i] == None
      invariant hand.comm.Valid() && hand.comm.reply == [] && hand.comm.posData == PackShorts(w)
      invariant hand.position == DecodePosition(w)
    {
      r := Poll(hand, w);
      raised := raised + [r];
    }
    DecodedFollows(pos);
    ResendSame(pos);
  }
}
