/** Reply frames of the Ability Hand: what Hand.read_v2 makes of the bytes on the line (hand.py:642-725 of
    psyonic_ability_hand, in polymetis/python/polymetis/robot_drivers/psyonic_gripper/ability-hand-api). */
module HandFrames {
  import opened Bits
  import opened HandProtocol
  import TouchSensors
  import opened Wrappers

  const NUM_JOINTS: nat := 6

  // ----- Little-endian signed 16-bit words -----

  predicate IsInt16(v: int) {
    -32768 <= v < 32768
  }

  function LowByte(v: int): byte {
    v % 256
  }

  function HighByte(v: int): byte {
    v / 256 % 256
  }

  function Int16(lo: byte, hi: byte): (v: int)
    ensures IsInt16(v)
  {
    var u: int := 256 * hi + lo;
    if u >= 32768 then u - 65536 else u
  }

  lemma Int16RoundTrip(v: int)
    requires IsInt16(v)
    ensures Int16(LowByte(v), HighByte(v)) == v
  {
  }

  function PackShorts(v: seq<int>): (data: seq<byte>)
    ensures |data| == 2 * |v|
  {
    seq(2 * |v|, k requires 0 <= k < 2 * |v| => if k % 2 == 0 then LowByte(v[k / 2]) else HighByte(v[k / 2]))
  }

  lemma PackShortsAt(v: seq<int>, j: nat)
    requires j < |v|
    ensures PackShorts(v)[2 * j] == LowByte(v[j]) && PackShorts(v)[2 * j + 1] == HighByte(v[j])
  {
  }

  function UnpackShorts(data: seq<byte>): (v: seq<int>)
    ensures |v| == |data| / 2
  {
    seq(|data| / 2, k requires 0 <= k < |data| / 2 => Int16(data[2 * k], data[2 * k + 1]))
  }

  lemma ShortsRoundTrip(v: seq<int>)
    requires forall k :: 0 <= k < |v| ==> IsInt16(v[k])
    ensures UnpackShorts(PackShorts(v)) == v
  {
    var data := PackShorts(v);
    forall k | 0 <= k < |v| ensures UnpackShorts(data)[k] == v[k] {
      assert data[2 * k] == LowByte(v[k]) && data[2 * k + 1] == HighByte(v[k]);
      Int16RoundTrip(v[k]);
    }
  }

  /** Every other word, from `first`. */
  function Every2nd(d: seq<int>, first: nat): (r: seq<int>)
    requires |d| == 2 * NUM_JOINTS && first < 2
    ensures |r| == NUM_JOINTS
  {
    seq(NUM_JOINTS, j requires 0 <= j < NUM_JOINTS => d[2 * j + first])
  }

  function Interleave(a: seq<int>, b: seq<int>): (r: seq<int>)
    requires |a| == |b| == NUM_JOINTS
    ensures |r| == 2 * NUM_JOINTS
  {
    seq(2 * NUM_JOINTS, k requires 0 <= k < 2 * NUM_JOINTS => if k % 2 == 0 then a[k / 2] else b[k / 2])
  }

  lemma InterleaveAt(a: seq<int>, b: seq<int>, j: nat)
    requires |a| == |b| == NUM_JOINTS && j < NUM_JOINTS
    ensures Interleave(a, b)[2 * j] == a[j] && Interleave(a, b)[2 * j + 1] == b[j]
  {
  }

  lemma Deinterleave(a: seq<int>, b: seq<int>)
    requires |a| == |b| == NUM_JOINTS
    ensures Every2nd(Interleave(a, b), 0) == a && Every2nd(Interleave(a, b), 1) == b
  {
  }

  // ----- Decoding -----

  /** What the driver publishes about the hand. */
  datatype Telemetry = Telemetry(
    position: seq<real>, current: seq<real>, velocity: seq<real>, touch: seq<seq<nat>>, motorHot: seq<bool>)

  function Scaled(v: seq<int>, num: real, den: real): (r: seq<real>)
    requires den != 0.0
    ensures |r| == |v|
  {
    seq(|v|, j requires 0 <= j < |v| => v[j] as real * num / den)
  }

  function DecodePosition(v: seq<int>): seq<real> { Scaled(v, 150.0, 32767.0) }
  function DecodeCurrent(v: seq<int>): seq<real> { Scaled(v, 0.540, 7000.0) }
  function DecodeVelocity(v: seq<int>): seq<real> { Scaled(v, 3000.0, 32767.0) }

  /** Bits 0 to 5 of the status byte, one for each motor. */
  function MotorHotStatus(status: byte): (r: seq<bool>)
    ensures |r| == NUM_JOINTS
  {
    seq(NUM_JOINTS, k requires 0 <= k < NUM_JOINTS => Bit(status, k))
  }

  function Bit(x: nat, k: nat): bool {
    if k == 0 then x % 2 == 1 else Bit(x / 2, k - 1)
  }

  function Weight(b: bool, w: nat): nat {
    if b then w else 0
  }

  /** The flags are the low six bits of the status byte, least significant first. */
  lemma MotorHotIsLowBits(status: byte)
    ensures var r := MotorHotStatus(status);
            Weight(r[0], 1) + Weight(r[1], 2) + Weight(r[2], 4) + Weight(r[3], 8) + Weight(r[4], 16) + Weight(r[5], 32)
              == status % 64
  {
    var r := MotorHotStatus(status);
    assert forall k :: 0 <= k < NUM_JOINTS ==> r[k] == Bit(status, k);
    BitTwo(status, 0);
    BitTwo(status, 1);
    BitTwo(status, 2);
    BitTwo(status, 3);
    BitTwo(status / 4, 0);
    BitTwo(status / 4, 1);
    SixBits(status);
  }

  lemma BitTwo(x: nat, k: nat)
    ensures Bit(x, k + 2) == Bit(x / 4, k)
    ensures Bit(x, 0) == (x % 2 == 1) && Bit(x, 1) == (x / 2 % 2 == 1)
  {
    assert Bit(x, 1) == Bit(x / 2, 0);
    assert Bit(x, k + 2) == Bit(x / 2, k + 1) == Bit(x / 2 / 2, k);
    assert x / 2 / 2 == x / 4;
  }

  lemma SixBits(x: nat)
    ensures x % 2 + 2 * (x / 2 % 2) + 4 * (x / 4 % 2) + 8 * (x / 4 / 2 % 2)
              + 16 * (x / 4 / 4 % 2) + 32 * (x / 4 / 4 / 2 % 2) == x % 64
  {
    TwoBits(x);
    TwoBits(x / 4);
    TwoBits(x / 4 / 4);
    Mod64(x, x / 4 / 4 / 4, x % 4 + 4 * (x / 4 % 4) + 16 * (x / 4 / 4 % 4));
  }

  lemma Mod64(x: nat, c: nat, r: nat)
    requires x == 64 * c + r && r < 64
    ensures x % 64 == r
  {
  }

  lemma TwoBits(x: nat)
    ensures x % 4 == x % 2 + 2 * (x / 2 % 2)
  {
  }

  function Variant(format: byte): (v: nat)
    ensures v < 16
  {
    format % 16
  }

  /** Bytes that follow the format byte. */
  function BodyLength(format: byte): nat {
    if Variant(format) == 2 then 38 else 71
  }

  /** A frame as received; its last byte is the checksum. */
  predicate IsFrame(p: seq<byte>) {
    |p| > 0 && |p| == 1 + BodyLength(p[0])
  }

  predicate Intact(p: seq<byte>)
    requires IsFrame(p)
  {
    p[|p| - 1] == Checksum(p, |p| - 1)
  }

  /** Effect of a whole frame. A frame of an unsupported variant is rejected only after the motor status and the
      position have been overwritten. */
  function Decode(t: Telemetry, p: seq<byte>): (Telemetry, Option<ProtocolError>)
    requires IsFrame(p)
  {
    if !Intact(p) then (t, Some(ChecksumFailed))
    else
      var d := UnpackShorts(p[1..25]);
      var qv := Every2nd(d, 1);
      var u := t.(motorHot := MotorHotStatus(p[|p| - 2]), position := DecodePosition(Every2nd(d, 0)));
      match Variant(p[0])
      case 0 => (u.(current := DecodeCurrent(qv), touch := TouchSensors.Unpack(p[25..70]).value), None)
      case 1 => (u.(velocity := DecodeVelocity(qv), touch := TouchSensors.Unpack(p[25..70]).value), None)
      case 2 => (u.(current := DecodeCurrent(qv), velocity := DecodeVelocity(UnpackShorts(p[25..37]))), None)
      case v => (u, Some(UnsupportedVariant(v)))
  }

  /** The line once `n` bytes have been taken off it. */
  function After(line: seq<byte>, n: nat): seq<byte>
    requires n <= |line|
    decreases n
  {
    if n == 0 then line else After(line[1..], n - 1)
  }

  lemma {:induction false} AfterIsSuffix(line: seq<byte>, n: nat)
    requires n <= |line|
    ensures After(line, n) == line[n..]
    decreases n
  {
    if n == 0 {
    } else {
      AfterIsSuffix(line[1..], n - 1);
      assert line[1..][n - 1..] == line[n..];
    }
  }

  /** Effect of one read on the telemetry and on the bytes waiting on the line. */
  function Receive(t: Telemetry, line: seq<byte>): (Telemetry, seq<byte>, Option<ProtocolError>) {
    if line == [] then (t, line, Some(InvalidPacketType))
    else
      var n := 1 + BodyLength(line[0]);
      if |line| < n then (t, [], Some(IncompletePacket))
      else
        var (u, e) := Decode(t, line[..n]);
        (u, After(line, n), e)
  }

  // ----- Replies of the hand -----

  /** A reply as the hand means it: 16-bit words, 12-bit touch values, and the upper half of the format byte. */
  datatype Reply = Reply(
    variant: nat, high: nat, pos: seq<int>, qv: seq<int>, velocity: seq<int>, touch: seq<seq<nat>>, status: byte)

  predicate Words16(v: seq<int>) {
    |v| == NUM_JOINTS && forall j :: 0 <= j < NUM_JOINTS ==> IsInt16(v[j])
  }

  predicate IsReply(r: Reply) {
    && r.variant <= 2 && r.high < 16 && Words16(r.pos) && Words16(r.qv)
    && if r.variant == 2 then Words16(r.velocity) else TouchSensors.IsTouch(r.touch)
  }

  function Format(r: Reply): (f: byte)
    requires IsReply(r)
    ensures Variant(f) == r.variant
  {
    16 * r.high + r.variant
  }

  function Payload(r: Reply): (data: seq<byte>)
    requires IsReply(r)
    ensures |data| == (if r.variant == 2 then 38 else 71) && data[0] == Format(r)
  {
    [Format(r)] + PackShorts(Interleave(r.pos, r.qv))
    + (if r.variant == 2 then PackShorts(r.velocity) else TouchSensors.Pack(r.touch)) + [r.status]
  }

  /** The bytes of a reply. */
  function Encode(r: Reply): (p: seq<byte>)
    requires IsReply(r)
    ensures IsFrame(p)
  {
    var data := Payload(r);
    data + [Checksum(data, |data|)]
  }

  /** What a reply says about the hand. */
  function Reported(t: Telemetry, r: Reply): Telemetry
    requires IsReply(r)
  {
    var u := t.(motorHot := MotorHotStatus(r.status), position := DecodePosition(r.pos));
    if r.variant == 0 then u.(current := DecodeCurrent(r.qv), touch := r.touch)
    else if r.variant == 1 then u.(velocity := DecodeVelocity(r.qv), touch := r.touch)
    else u.(current := DecodeCurrent(r.qv), velocity := DecodeVelocity(r.velocity))
  }

  lemma EncodeIntact(r: Reply)
    requires IsReply(r)
    ensures Intact(Encode(r))
  {
    ChecksumAppended(Payload(r), Checksum(Payload(r), |Payload(r)|));
  }

  lemma ChecksumAppended(data: seq<byte>, c: byte)
    ensures Checksum(data + [c], |data|) == Checksum(data, |data|)
  {
    assert (data + [c])[..|data|] == data[..|data|];
    SumPrefix(data + [c], data, |data|);
  }

  lemma Slices(format: byte, words: seq<byte>, tail: seq<byte>, status: byte, sum: byte)
    requires |words| == 24
    ensures var p := [format] + words + tail + [status] + [sum];
            && p[0] == format && p[1..25] == words && p[25..25 + |tail|] == tail
            && |p| == 27 + |tail| && p[|p| - 2] == status && p[|p| - 1] == sum
  {
  }

  lemma EncodeSlices(r: Reply)
    requires IsReply(r)
    ensures var p := Encode(r);
            && Variant(p[0]) == r.variant && p[|p| - 2] == r.status
            && p[1..25] == PackShorts(Interleave(r.pos, r.qv))
            && if r.variant == 2 then p[25..37] == PackShorts(r.velocity) else p[25..70] == TouchSensors.Pack(r.touch)
  {
    var words := PackShorts(Interleave(r.pos, r.qv));
    var tail := if r.variant == 2 then PackShorts(r.velocity) else TouchSensors.Pack(r.touch);
    var sum := Checksum(Payload(r), |Payload(r)|);
    PayloadIs(r, Format(r), words, tail);
    EncodeIs(r, Payload(r), sum);
    Slices(Format(r), words, tail, r.status, sum);
  }

  /** A frame spells a reply when its parts do. */
  lemma DecodeParts(t: Telemetry, r: Reply, p: seq<byte>)
    requires IsReply(r) && IsFrame(p) && Intact(p) && Variant(p[0]) == r.variant && p[|p| - 2] == r.status
    requires Every2nd(UnpackShorts(p[1..25]), 0) == r.pos && Every2nd(UnpackShorts(p[1..25]), 1) == r.qv
    requires if r.variant == 2 then UnpackShorts(p[25..37]) == r.velocity
             else TouchSensors.Unpack(p[25..70]) == Success(r.touch)
    ensures Decode(t, p) == (Reported(t, r), None)
  {
  }

  /** Decoding a reply recovers exactly what it says, whatever was known before. */
  lemma DecodeEncode(t: Telemetry, r: Reply)
    requires IsReply(r)
    ensures Decode(t, Encode(r)) == (Reported(t, r), None)
  {
    EncodeIntact(r);
    EncodeSlices(r);
    WordsOfReply(r.pos, r.qv);
    if r.variant == 2 {
      ShortsRoundTrip(r.velocity);
    } else {
      TouchSensors.UnpackPack(r.touch);
    }
    DecodeParts(t, r, Encode(r));
  }

  lemma WordsOfReply(pos: seq<int>, qv: seq<int>)
    requires Words16(pos) && Words16(qv)
    ensures var d := UnpackShorts(PackShorts(Interleave(pos, qv))); Every2nd(d, 0) == pos && Every2nd(d, 1) == qv
  {
    Deinterleave(pos, qv);
    ShortsRoundTrip(Interleave(pos, qv));
  }

  lemma BytesOfInt16(lo: byte, hi: byte)
    ensures LowByte(Int16(lo, hi)) == lo && HighByte(Int16(lo, hi)) == hi
  {
  }

  lemma BytesRoundTrip(data: seq<byte>)
    requires |data| % 2 == 0
    ensures PackShorts(UnpackShorts(data)) == data
  {
    var v := UnpackShorts(data);
    forall k | 0 <= k < |data| ensures PackShorts(v)[k] == data[k] {
      var j := k / 2;
      assert k == 2 * j || k == 2 * j + 1;
      assert v[j] == Int16(data[2 * j], data[2 * j + 1]);
      BytesOfInt16(data[2 * j], data[2 * j + 1]);
    }
  }

  lemma UnpackedFit(data: seq<byte>)
    ensures forall k :: 0 <= k < |data| / 2 ==> IsInt16(UnpackShorts(data)[k])
  {
  }

  /** The reply an intact frame spells. */
  function AsReply(p: seq<byte>): Reply
    requires IsFrame(p) && Variant(p[0]) <= 2
  {
    var d := UnpackShorts(p[1..25]);
    var v := Variant(p[0]);
    Reply(v, p[0] / 16, Every2nd(d, 0), Every2nd(d, 1),
      if v == 2 then UnpackShorts(p[25..37]) else [],
      if v == 2 then [] else TouchSensors.Unpack(p[25..70]).value, p[|p| - 2])
  }

  /** Every intact frame of a supported variant is the encoding of a reply, so no byte of it goes unread. */
  lemma IntactFrameIsReply(p: seq<byte>)
    requires IsFrame(p) && Variant(p[0]) <= 2 && Intact(p)
    ensures IsReply(AsReply(p)) && Encode(AsReply(p)) == p
  {
    var r := AsReply(p);
    var n := |p| - 1;
    if r.variant == 2 {
      VelocityPayload(p);
    } else {
      TouchPayload(p);
    }
    ChecksumOfPrefix(p, n);
    WithLast(p);
    EncodeIs(r, p[..n], p[n]);
  }

  lemma ChecksumOfPrefix(p: seq<byte>, n: nat)
    requires n <= |p|
    ensures |p[..n]| == n && Checksum(p[..n], n) == Checksum(p, n)
  {
    assert p[..n][..n] == p[..n];
    SumPrefix(p[..n], p, n);
  }

  /** Encoding, from its parts. */
  lemma PayloadIs(r: Reply, format: byte, words: seq<byte>, tail: seq<byte>)
    requires IsReply(r) && Format(r) == format && PackShorts(Interleave(r.pos, r.qv)) == words
    requires tail == if r.variant == 2 then PackShorts(r.velocity) else TouchSensors.Pack(r.touch)
    ensures Payload(r) == [format] + words + tail + [r.status]
  {
  }

  lemma EncodeIs(r: Reply, data: seq<byte>, last: byte)
    requires IsReply(r) && Payload(r) == data && last == Checksum(data, |data|)
    ensures Encode(r) == data + [last]
  {
  }

  lemma Parts(p: seq<byte>, n: nat)
    requires 26 <= n <= |p|
    ensures p[..n] == [p[0]] + p[1..25] + p[25..n - 1] + [p[n - 1]]
  {
  }

  lemma WithLast(p: seq<byte>)
    requires p != []
    ensures p == p[..|p| - 1] + [p[|p| - 1]]
  {
  }

  lemma Reinterleave(d: seq<int>)
    requires |d| == 2 * NUM_JOINTS
    ensures Interleave(Every2nd(d, 0), Every2nd(d, 1)) == d
  {
  }

  /** The words of a frame fit sixteen bits and spell its bytes. */
  lemma WordsOfFrame(data: seq<byte>, d: seq<int>)
    requires |data| == 4 * NUM_JOINTS && d == UnpackShorts(data)
    ensures Words16(Every2nd(d, 0)) && Words16(Every2nd(d, 1))
    ensures PackShorts(Interleave(Every2nd(d, 0), Every2nd(d, 1))) == data
  {
    BytesRoundTrip(data);
    Reinterleave(d);
    UnpackedFit(data);
    EveryFit(d, 0);
    EveryFit(d, 1);
  }

  lemma EveryFit(d: seq<int>, first: nat)
    requires |d| == 2 * NUM_JOINTS && first < 2 && forall k :: 0 <= k < |d| ==> IsInt16(d[k])
    ensures Words16(Every2nd(d, first))
  {
  }

  lemma VelocityPayload(p: seq<byte>)
    requires IsFrame(p) && Variant(p[0]) == 2
    ensures IsReply(AsReply(p)) && Payload(AsReply(p)) == p[..|p| - 1]
  {
    WordsOfFrame(p[1..25], UnpackShorts(p[1..25]));
    BytesRoundTrip(p[25..37]);
    UnpackedFit(p[25..37]);
    Parts(p, 38);
    PayloadIs(AsReply(p), p[0], p[1..25], p[25..37]);
  }

  lemma TouchPayload(p: seq<byte>)
    requires IsFrame(p) && Variant(p[0]) < 2
    ensures IsReply(AsReply(p)) && Payload(AsReply(p)) == p[..|p| - 1]
  {
    WordsOfFrame(p[1..25], UnpackShorts(p[1..25]));
    TouchSensors.PackUnpack(p[25..70]);
    Parts(p, 71);
    PayloadIs(AsReply(p), p[0], p[1..25], p[25..70]);
  }

  lemma ReceiveFrame(t: Telemetry, p: seq<byte>, rest: seq<byte>)
    requires IsFrame(p)
    ensures Receive(t, p + rest) == (Decode(t, p).0, rest, Decode(t, p).1)
  {
    var line := p + rest;
    AfterIsSuffix(line, |p|);
    assert line[..|p|] == p && line[|p|..] == rest;
  }

  /** Changing one byte of an intact frame is detected: decoding fails and nothing published changes. The format
      byte is covered as long as the change does not alter the frame's length. */
  lemma CorruptionRejected(t: Telemetry, p: seq<byte>, i: nat, x: byte)
    requires IsFrame(p) && Intact(p) && i < |p| && x != p[i]
    requires i == 0 ==> BodyLength(x) == BodyLength(p[0])
    ensures IsFrame(p[i := x]) && Decode(t, p[i := x]) == (t, Some(ChecksumFailed))
  {
    var n := |p| - 1;
    if i < n {
      ChecksumDetects(p, i, x, n);
    } else {
      SumUpdate(p, i, x, n);
    }
  }

  /** A failing read publishes nothing, except exactly for an intact frame of a variant the driver does not know:
      its motor status and positions have been published by then. */
  lemma FailurePublishes(p: seq<byte>)
    requires IsFrame(p)
    ensures (forall t :: Decode(t, p).1.Some? ==> Decode(t, p).0 == t) <==> !(Intact(p) && Variant(p[0]) > 2)
  {
    if Intact(p) && Variant(p[0]) > 2 {
      var t := Telemetry([], [], [], [], []);
      assert Decode(t, p).1 == Some(UnsupportedVariant(Variant(p[0])));
      assert |Decode(t, p).0.position| == NUM_JOINTS;
    }
  }

  /** There are such frames: variant 3, zeros, and the checksum of that. */
  lemma UnknownVariantExists() returns (p: seq<byte>)
    ensures IsFrame(p) && Intact(p) && Variant(p[0]) == 3
  {
    var zeros: seq<byte> := seq(70, _ => 0);
    var data: seq<byte> := [3] + zeros;
    var c := Checksum(data, |data|);
    ChecksumAppended(data, c);
    p := data + [c];
  }

  /** A read succeeds exactly when a whole intact frame of a supported variant comes first on the line, and otherwise
      says what was wrong; it takes the frame off the line in any case, and whatever there is of an incomplete one. */
  lemma ReceiveSucceeds(t: Telemetry, line: seq<byte>)
    ensures var (u, rest, e) := Receive(t, line);
            var n := if line == [] then 0 else if line[0] % 16 == 2 then 39 else 72;
            && (e.None? <==> 0 < n <= |line| && IsFrame(line[..n]) && Intact(line[..n]) && line[0] % 16 <= 2)
            && rest == (if n <= |line| then line[n..] else [])
            && (|line| < n ==> u == t)
            && (e == Some(InvalidPacketType) <==> line == [])
            && (e == Some(IncompletePacket) <==> |line| < n)
            && (e == Some(ChecksumFailed) <==> 0 < n <= |line| && IsFrame(line[..n]) && !Intact(line[..n]))
  {
    if line != [] && 1 + BodyLength(line[0]) <= |line| {
      AfterIsSuffix(line, 1 + BodyLength(line[0]));
    }
  }

  // ----- Readings of a frame, byte by byte -----

  /** `w` is the signed word of two bytes, the low one first. */
  predicate IsWord(w: int, lo: byte, hi: byte) {
    -32768 <= w < 32768 && (w - lo - 256 * hi) % 65536 == 0
  }

  /** `x` is `full` for a word of `scale`, and proportional to the word. */
  ghost predicate Reading(x: real, lo: byte, hi: byte, full: real, scale: real) {
    exists w :: IsWord(w, lo, hi) && x * scale == w as real * full
  }

  lemma ScaledReading(v: seq<int>, j: nat, lo: byte, hi: byte, full: real, scale: real)
    requires j < |v| && v[j] == Int16(lo, hi) && scale != 0.0
    ensures Reading(Scaled(v, full, scale)[j], lo, hi, full, scale)
  {
    assert IsWord(v[j], lo, hi);
    assert v[j] as real * full / scale * scale == v[j] as real * full;
  }

  /** Where the readings of an intact frame come from: after the format byte, a position and a second word for each
      joint in turn, which is a current or, in variant 1, a velocity; then the touch values or, in variant 2, the
      velocities. Readings that the variant does not carry stay as they are. */
  lemma FrameReadings(t: Telemetry, p: seq<byte>, j: nat)
    requires IsFrame(p) && Intact(p) && Variant(p[0]) <= 2 && j < NUM_JOINTS
    ensures var (u, e) := Decode(t, p);
            e.None? && |u.position| == NUM_JOINTS
            && Reading(u.position[j], p[4 * j + 1], p[4 * j + 2], 150.0, 32767.0)
    ensures var u := Decode(t, p).0;
            if Variant(p[0]) == 1 then u.current == t.current
            else |u.current| == NUM_JOINTS && Reading(u.current[j], p[4 * j + 3], p[4 * j + 4], 0.540, 7000.0)
    ensures var u := Decode(t, p).0;
            match Variant(p[0])
            case 0 => u.velocity == t.velocity
            case 1 => |u.velocity| == NUM_JOINTS && Reading(u.velocity[j], p[4 * j + 3], p[4 * j + 4], 3000.0, 32767.0)
            case _ =>
              && |u.velocity| == NUM_JOINTS
              && Reading(u.velocity[j], p[2 * j + 25], p[2 * j + 26], 3000.0, 32767.0)
    ensures var u := Decode(t, p).0;
            if Variant(p[0]) == 2 then u.touch == t.touch
            else TouchSensors.Unpack(p[25..70]) == Success(u.touch)
    ensures Decode(t, p).0.motorHot == MotorHotStatus(p[|p| - 2])
  {
    var d := UnpackShorts(p[1..25]);
    var q, qv := Every2nd(d, 0), Every2nd(d, 1);
    WordAt(p, 1, 25, 2 * j);
    WordAt(p, 1, 25, 2 * j + 1);
    ScaledReading(q, j, p[4 * j + 1], p[4 * j + 2], 150.0, 32767.0);
    ScaledReading(qv, j, p[4 * j + 3], p[4 * j + 4], 0.540, 7000.0);
    ScaledReading(qv, j, p[4 * j + 3], p[4 * j + 4], 3000.0, 32767.0);
    if Variant(p[0]) == 2 {
      WordAt(p, 25, 37, j);
      ScaledReading(UnpackShorts(p[25..37]), j, p[2 * j + 25], p[2 * j + 26], 3000.0, 32767.0);
    } else {
      TouchSensors.UnpackAt(p[25..70], 0, 0);
    }
  }

  lemma WordAt(p: seq<byte>, lo: nat, hi: nat, k: nat)
    requires lo <= hi <= |p| && k < (hi - lo) / 2
    ensures UnpackShorts(p[lo..hi])[k] == Int16(p[lo + 2 * k], p[lo + 2 * k + 1])
  {
    var d := p[lo..hi];
    assert d[2 * k] == p[lo + 2 * k] && d[2 * k + 1] == p[lo + 2 * k + 1];
  }

  // ----- Streams of frames -----

  predicate AreFrames(ps: seq<seq<byte>>) {
    forall i :: 0 <= i < |ps| ==> IsFrame(ps[i])
  }

  /** The line holding the frames from the `n`-th on, one after the other. */
  function Line(ps: seq<seq<byte>>, n: nat, rest: seq<byte>): seq<byte>
    requires n <= |ps|
    decreases |ps| - n
  {
    if n == |ps| then rest else ps[n] + Line(ps, n + 1, rest)
  }

  /** Telemetry after `n` frames, and how many of them were rejected. */
  function Decoded(t: Telemetry, ps: seq<seq<byte>>, n: nat): (Telemetry, nat)
    requires AreFrames(ps) && n <= |ps|
  {
    if n == 0 then (t, 0)
    else
      var (u, errors) := Decoded(t, ps, n - 1);
      var (v, e) := Decode(u, ps[n - 1]);
      (v, errors + if e.Some? then 1 else 0)
  }

  /** Telemetry, line and number of failures after `n` reads; a silent line with nothing on it is no failure. */
  function Reads(t: Telemetry, line: seq<byte>, silent: bool, n: nat): (Telemetry, seq<byte>, nat) {
    if n == 0 then (t, line, 0)
    else
      var (u, rest, errors) := Reads(t, line, silent, n - 1);
      var (v, left, e) := Receive(u, rest);
      (v, left, errors + if e.Some? && !(silent && rest == []) then 1 else 0)
  }

  lemma NextFrame(u: Telemetry, ps: seq<seq<byte>>, rest: seq<byte>, n: nat)
    requires AreFrames(ps) && n < |ps|
    ensures Line(ps, n, rest) != []
    ensures Receive(u, Line(ps, n, rest)) == (Decode(u, ps[n]).0, Line(ps, n + 1, rest), Decode(u, ps[n]).1)
  {
    ReceiveFrame(u, ps[n], Line(ps, n + 1, rest));
  }

  /** A read takes the line from `lines[i]` to `lines[i + 1]` and decodes frame `i`. */
  ghost predicate Steps(lines: seq<seq<byte>>, ps: seq<seq<byte>>) {
    && AreFrames(ps) && |lines| == |ps| + 1
    && (forall i :: 0 <= i < |ps| ==> lines[i] != [])
    && forall i, u: Telemetry :: 0 <= i < |ps| ==>
         Receive(u, lines[i]) == (Decode(u, ps[i]).0, lines[i + 1], Decode(u, ps[i]).1)
  }

  lemma DecodedStep(t: Telemetry, ps: seq<seq<byte>>, n: nat, u: Telemetry, errors: nat)
    requires AreFrames(ps) && 0 < n <= |ps| && Decoded(t, ps, n - 1) == (u, errors)
    ensures Decoded(t, ps, n) == (
              Decode(u, ps[n - 1]).0, errors + if Decode(u, ps[n - 1]).1.Some? then 1 else 0)
  {
  }

  lemma ReadsStep(t: Telemetry, line: seq<byte>, silent: bool, n: nat, u: Telemetry, rest: seq<byte>, errors: nat)
    requires Reads(t, line, silent, n) == (u, rest, errors) && rest != []
    ensures Reads(t, line, silent, n + 1) == (
              Receive(u, rest).0, Receive(u, rest).1, errors + if Receive(u, rest).2.Some? then 1 else 0)
  {
  }

  lemma {:induction false} ReadsSteps(t: Telemetry, lines: seq<seq<byte>>, ps: seq<seq<byte>>, silent: bool, n: nat)
    requires Steps(lines, ps) && n <= |ps|
    ensures Reads(t, lines[0], silent, n) == (Decoded(t, ps, n).0, lines[n], Decoded(t, ps, n).1)
  {
    if n == 0 {
    } else {
      var i, u := n - 1, Decoded(t, ps, n - 1).0;
      ReadsSteps(t, lines, ps, silent, i);
      assert Receive(u, lines[i]) == (Decode(u, ps[i]).0, lines[i + 1], Decode(u, ps[i]).1);
      ReadsStep(t, lines[0], silent, i, u, lines[i], Decoded(t, ps, i).1);
      DecodedStep(t, ps, n, u, Decoded(t, ps, i).1);
    }
  }

  /** On any concatenation of frames each read consumes exactly one of them, whatever their content. */
  lemma StreamFrames(t: Telemetry, ps: seq<seq<byte>>, rest: seq<byte>, silent: bool, n: nat)
    requires AreFrames(ps) && n <= |ps|
    ensures Reads(t, Line(ps, 0, rest), silent, n) == (Decoded(t, ps, n).0, Line(ps, n, rest), Decoded(t, ps, n).1)
  {
    var lines := seq(|ps| + 1, i requires 0 <= i <= |ps| => Line(ps, i, rest));
    forall i, u: Telemetry | 0 <= i < |ps|
      ensures Receive(u, lines[i]) == (Decode(u, ps[i]).0, lines[i + 1], Decode(u, ps[i]).1)
    {
      NextFrame(u, ps, rest, i);
    }
    assert forall i :: 0 <= i < |ps| ==> lines[i] != [] by {
      forall i | 0 <= i < |ps| ensures lines[i] != [] {
        NextFrame(t, ps, rest, i);
      }
    }
    ReadsSteps(t, lines, ps, silent, n);
  }

  // ----- Streams of replies -----

  datatype Damage = Damage(at: nat, to: byte)

  /** A reply put on the line, perhaps with one byte of it changed on the way. */
  datatype Sent = Sent(reply: Reply, damage: Option<Damage>)

  predicate IsSent(s: Sent) {
    && IsReply(s.reply)
    && (s.damage.Some? ==>
          var p, d := Encode(s.reply), s.damage.value;
          d.at < |p| && d.to != p[d.at] && (d.at == 0 ==> BodyLength(d.to) == BodyLength(p[0])))
  }

  function Wire(s: Sent): (p: seq<byte>)
    requires IsSent(s)
    ensures IsFrame(p)
  {
    if s.damage.Some? then Encode(s.reply)[s.damage.value.at := s.damage.value.to] else Encode(s.reply)
  }

  predicate AreSent(ss: seq<Sent>) {
    forall i :: 0 <= i < |ss| ==> IsSent(ss[i])
  }

  function Wires(ss: seq<Sent>): (ps: seq<seq<byte>>)
    requires AreSent(ss)
    ensures AreFrames(ps) && |ps| == |ss|
    ensures forall i :: 0 <= i < |ss| ==> ps[i] == Wire(ss[i])
  {
    seq(|ss|, i requires 0 <= i < |ss| => Wire(ss[i]))
  }

  predicate AreReplies(ss: seq<Sent>) {
    forall i :: 0 <= i < |ss| ==> IsReply(ss[i].reply)
  }

  /** What a read of this reply leaves known, and how it fails. */
  function Heard(t: Telemetry, s: Sent): Telemetry
    requires IsReply(s.reply)
  {
    if s.damage.Some? then t else Reported(t, s.reply)
  }

  function Failure(s: Sent): Option<ProtocolError> {
    if s.damage.Some? then Some(ChecksumFailed) else None
  }

  /** What is known after `n` replies: what the undamaged ones said. */
  function Known(t: Telemetry, ss: seq<Sent>, n: nat): Telemetry
    requires AreReplies(ss) && n <= |ss|
  {
    if n == 0 then t else Heard(Known(t, ss, n - 1), ss[n - 1])
  }

  function Damaged(ss: seq<Sent>, n: nat): nat
    requires n <= |ss|
  {
    if n == 0 then 0 else Damaged(ss, n - 1) + if ss[n - 1].damage.Some? then 1 else 0
  }

  lemma DecodeWire(t: Telemetry, s: Sent)
    requires IsSent(s)
    ensures Decode(t, Wire(s)) == (Heard(t, s), Failure(s))
  {
    var p := Encode(s.reply);
    if s.damage.Some? {
      EncodeIntact(s.reply);
      CorruptionRejected(t, p, s.damage.value.at, s.damage.value.to);
    } else {
      DecodeEncode(t, s.reply);
    }
  }

  /** Frame `i` takes the telemetry from `ts[i]` to `ts[i + 1]` and the number of failures likewise. */
  ghost predicate Decodes(ts: seq<Telemetry>, counts: seq<nat>, ps: seq<seq<byte>>) {
    && AreFrames(ps) && |ts| == |counts| == |ps| + 1 && counts[0] == 0
    && forall i :: 0 <= i < |ps| ==>
         var (u, e) := Decode(ts[i], ps[i]);
         u == ts[i + 1] && counts[i + 1] == counts[i] + if e.Some? then 1 else 0
  }

  lemma {:induction false} DecodedAre(ts: seq<Telemetry>, counts: seq<nat>, ps: seq<seq<byte>>, n: nat)
    requires Decodes(ts, counts, ps) && n <= |ps|
    ensures Decoded(ts[0], ps, n) == (ts[n], counts[n])
  {
    if n == 0 {
    } else {
      DecodedAre(ts, counts, ps, n - 1);
      DecodedStep(ts[0], ps, n, ts[n - 1], counts[n - 1]);
    }
  }

  function Knowns(t: Telemetry, ss: seq<Sent>): (ts: seq<Telemetry>)
    requires AreReplies(ss)
    ensures |ts| == |ss| + 1 && forall i :: 0 <= i <= |ss| ==> ts[i] == Known(t, ss, i)
  {
    seq(|ss| + 1, i requires 0 <= i <= |ss| => Known(t, ss, i))
  }

  function Damages(ss: seq<Sent>): (counts: seq<nat>)
    ensures |counts| == |ss| + 1 && forall i :: 0 <= i <= |ss| ==> counts[i] == Damaged(ss, i)
  {
    seq(|ss| + 1, i requires 0 <= i <= |ss| => Damaged(ss, i))
  }

  lemma DamagedStep(ss: seq<Sent>, i: nat)
    requires i < |ss|
    ensures Damages(ss)[i + 1] == Damages(ss)[i] + if Failure(ss[i]).Some? then 1 else 0
  {
  }

  /** The frames decode to what was sent, whatever was known before. */
  ghost predicate Spell(ps: seq<seq<byte>>, ss: seq<Sent>) {
    && AreFrames(ps) && AreReplies(ss) && |ps| == |ss|
    && forall i, t: Telemetry :: 0 <= i < |ps| ==> Decode(t, ps[i]) == (Heard(t, ss[i]), Failure(ss[i]))
  }

  lemma WiresSpell(ss: seq<Sent>)
    requires AreSent(ss)
    ensures Spell(Wires(ss), ss)
  {
    forall i, t: Telemetry | 0 <= i < |ss|
      ensures Decode(t, Wires(ss)[i]) == (Heard(t, ss[i]), Failure(ss[i]))
    {
      DecodeWire(t, ss[i]);
    }
  }

  lemma KnownStep(t: Telemetry, ps: seq<seq<byte>>, ss: seq<Sent>, i: nat)
    requires Spell(ps, ss) && i < |ss|
    ensures Decode(Known(t, ss, i), ps[i]) == (Known(t, ss, i + 1), Failure(ss[i]))
  {
  }

  lemma SpellDecodes(t: Telemetry, ps: seq<seq<byte>>, ss: seq<Sent>)
    requires Spell(ps, ss)
    ensures Decodes(Knowns(t, ss), Damages(ss), ps)
  {
    var ts, counts := Knowns(t, ss), Damages(ss);
    forall i | 0 <= i < |ps|
      ensures var (u, e) := Decode(ts[i], ps[i]);
              u == ts[i + 1] && counts[i + 1] == counts[i] + if e.Some? then 1 else 0
    {
      KnownStep(t, ps, ss, i);
      DamagedStep(ss, i);
    }
  }

  /** On any concatenation of replies, any of them damaged in one byte, each read consumes exactly one reply: what
      the undamaged ones say is published in order, and each damaged one is one failure that loses nothing else. */
  lemma StreamRoundTrip(t: Telemetry, ss: seq<Sent>, rest: seq<byte>, silent: bool, n: nat)
    requires AreSent(ss) && n <= |ss|
    ensures AreReplies(ss)
    ensures Reads(t, Line(Wires(ss), 0, rest), silent, n) == (Known(t, ss, n), Line(Wires(ss), n, rest), Damaged(ss, n))
  {
    WiresSpell(ss);
    SpellDecodes(t, Wires(ss), ss);
    DecodedAre(Knowns(t, ss), Damages(ss), Wires(ss), n);
    StreamFrames(t, Wires(ss), rest, silent, n);
  }
}
