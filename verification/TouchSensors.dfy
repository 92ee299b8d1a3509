/** The Python decoder of packed touch values, most significant nibble first (TouchSensors.unpack in
    hand.py of psyonic_ability_hand, in polymetis/python/polymetis/robot_drivers/psyonic_gripper/ability-hand-api). */
module TouchSensors {
  import opened Bits
  import opened HandProtocol
  import NibbleUnpacking
  import opened Wrappers

  const NUM_TOUCH_SITES: nat := 6
  const NUM_TOUCH_FINGERS: nat := 5

  /** Three bytes hold two values. */
  function Triplets(): (n: nat)
    ensures 2 * n == NUM_TOUCH_FINGERS * NUM_TOUCH_SITES
  {
    NUM_TOUCH_FINGERS * NUM_TOUCH_SITES / 2
  }

  /** The two values of three bytes. */
  function DecodeTriplet(a: byte, m: byte, b: byte): (nat, nat) {
    (Or(ShiftLeft(a, 4), ShiftRight(m, 4)), Or(ShiftLeft(LowNibble(m), 8), b))
  }

  /** Both values fit twelve bits and, read in base 4096, spell the number the bytes spell in base 256. */
  lemma TripletConserves(a: byte, m: byte, b: byte)
    ensures var (x, y) := DecodeTriplet(a, m, b);
            x < 4096 && y < 4096 && 4096 * x + y == 65536 * a + 256 * m + b
    ensures DecodeTriplet(a, m, b) == (16 * a + m / 16, 256 * (m % 16) + b)
  {
    LeftShifts(a);
    RightShifts(m);
    OrNibble(a, m / 16);
    LeftShifts(m % 16);
    RightShifts(b);
    OrIsSum(m % 16, b, 8);
  }

  /** The values of the first `n` triplets. */
  function DecodeTriplets(data: seq<byte>, n: nat): (v: seq<nat>)
    requires 3 * n <= |data|
    ensures |v| == 2 * n
  {
    if n == 0 then []
    else
      var (x, y) := TripletAt(data, n - 1);
      DecodeTriplets(data, n - 1) + [x, y]
  }

  function TripletAt(data: seq<byte>, c: nat): (nat, nat)
    requires 3 * c + 3 <= |data|
  {
    DecodeTriplet(data[3 * c], data[3 * c + 1], data[3 * c + 2])
  }

  /** Sensor values per finger. */
  function Unpack(data: seq<byte>): Result<seq<seq<nat>>, ProtocolError> {
    if |data| != 45 then Failure(UnexpectedDataLength(|data|))
    else
      var v := DecodeTriplets(data, Triplets());
      Success(seq(NUM_TOUCH_FINGERS, f requires 0 <= f < NUM_TOUCH_FINGERS =>
        v[f * NUM_TOUCH_SITES..(f + 1) * NUM_TOUCH_SITES]))
  }

  // ----- The inverse -----

  function PackPair(x: word12, y: word12, part: nat): byte
    requires part < 3
  {
    if part == 0 then x / 16 else if part == 1 then 16 * (x % 16) + y / 256 else y % 256
  }

  function EncodeTriplets(v: seq<word12>, n: nat): (data: seq<byte>)
    requires 2 * n <= |v|
    ensures |data| == 3 * n
  {
    if n == 0 then []
    else
      var x, y := v[2 * n - 2], v[2 * n - 1];
      EncodeTriplets(v, n - 1) + [PackPair(x, y, 0), PackPair(x, y, 1), PackPair(x, y, 2)]
  }

  lemma {:induction false} EncodedAt(v: seq<word12>, n: nat, c: nat)
    requires 2 * n <= |v| && c < n
    ensures var data := EncodeTriplets(v, n);
            && data[3 * c] == PackPair(v[2 * c], v[2 * c + 1], 0)
            && data[3 * c + 1] == PackPair(v[2 * c], v[2 * c + 1], 1)
            && data[3 * c + 2] == PackPair(v[2 * c], v[2 * c + 1], 2)
  {
    if c == n - 1 {
    } else {
      EncodedAt(v, n - 1, c);
    }
  }

  lemma {:induction false} DecodedAt(data: seq<byte>, n: nat, c: nat)
    requires 3 * n <= |data| && c < n
    ensures var v := DecodeTriplets(data, n); (v[2 * c], v[2 * c + 1]) == TripletAt(data, c)
  {
    if c == n - 1 {
    } else {
      DecodedAt(data, n - 1, c);
    }
  }

  lemma SamePairs(a: seq<nat>, b: seq<nat>, n: nat)
    requires |a| == |b| == 2 * n
    requires forall c :: 0 <= c < n ==> a[2 * c] == b[2 * c] && a[2 * c + 1] == b[2 * c + 1]
    ensures a == b
  {
    forall k | 0 <= k < 2 * n ensures a[k] == b[k] {
      var c := k / 2;
      assert k == 2 * c || k == 2 * c + 1;
    }
  }

  lemma SameTriplets(a: seq<byte>, b: seq<byte>, n: nat)
    requires |a| == |b| == 3 * n
    requires forall c :: 0 <= c < n ==>
               a[3 * c] == b[3 * c] && a[3 * c + 1] == b[3 * c + 1] && a[3 * c + 2] == b[3 * c + 2]
    ensures a == b
  {
    forall k | 0 <= k < 3 * n ensures a[k] == b[k] {
      var c := k / 3;
      assert k == 3 * c || k == 3 * c + 1 || k == 3 * c + 2;
    }
  }

  lemma TripletThere(x: word12, y: word12)
    ensures DecodeTriplet(PackPair(x, y, 0), PackPair(x, y, 1), PackPair(x, y, 2)) == (x, y)
  {
    TripletConserves(x / 16, 16 * (x % 16) + y / 256, y % 256);
  }

  lemma TripletBack(a: byte, m: byte, b: byte)
    ensures var (x, y) := DecodeTriplet(a, m, b);
            x < 4096 && y < 4096 && PackPair(x, y, 0) == a && PackPair(x, y, 1) == m && PackPair(x, y, 2) == b
  {
    TripletConserves(a, m, b);
  }

  lemma DecodeEncode(v: seq<word12>, n: nat)
    requires |v| == 2 * n
    ensures DecodeTriplets(EncodeTriplets(v, n), n) == v
  {
    var data := EncodeTriplets(v, n);
    var w := DecodeTriplets(data, n);
    forall c | 0 <= c < n ensures w[2 * c] == v[2 * c] && w[2 * c + 1] == v[2 * c + 1] {
      DecodedAt(data, n, c);
      EncodedAt(v, n, c);
      TripletThere(v[2 * c], v[2 * c + 1]);
    }
    SamePairs(w, v, n);
  }

  lemma EncodeDecode(data: seq<byte>, v: seq<word12>, n: nat)
    requires |data| == 3 * n && v == DecodeTriplets(data, n)
    ensures EncodeTriplets(v, n) == data
  {
    var e := EncodeTriplets(v, n);
    forall c | 0 <= c < n
      ensures e[3 * c] == data[3 * c] && e[3 * c + 1] == data[3 * c + 1] && e[3 * c + 2] == data[3 * c + 2]
    {
      DecodedAt(data, n, c);
      TripletBack(data[3 * c], data[3 * c + 1], data[3 * c + 2]);
      EncodedAt(v, n, c);
    }
    SameTriplets(e, data, n);
  }

  /** Six values for each of five fingers. */
  predicate IsTouch(touch: seq<seq<nat>>) {
    && |touch| == NUM_TOUCH_FINGERS
    && forall f :: 0 <= f < NUM_TOUCH_FINGERS ==>
         |touch[f]| == NUM_TOUCH_SITES && forall i :: 0 <= i < NUM_TOUCH_SITES ==> touch[f][i] < 4096
  }

  function Flat(touch: seq<seq<nat>>): (v: seq<word12>)
    requires IsTouch(touch)
    ensures |v| == 30
  {
    seq(30, k requires 0 <= k < 30 => touch[k / 6][k % 6])
  }

  function Pack(touch: seq<seq<nat>>): (data: seq<byte>)
    requires IsTouch(touch)
    ensures |data| == 45
  {
    EncodeTriplets(Flat(touch), Triplets())
  }

  /** Every touch reading survives packing and unpacking. */
  lemma UnpackPack(touch: seq<seq<nat>>)
    requires IsTouch(touch)
    ensures Unpack(Pack(touch)) == Success(touch)
  {
    var v := Flat(touch);
    DecodeEncode(v, Triplets());
    var fingers := Unpack(Pack(touch)).value;
    assert Unpack(Pack(touch)).Success? && |fingers| == NUM_TOUCH_FINGERS;
    forall f | 0 <= f < NUM_TOUCH_FINGERS ensures fingers[f] == touch[f] {
      assert fingers[f] == v[6 * f..6 * f + 6];
      forall i | 0 <= i < NUM_TOUCH_SITES ensures v[6 * f + i] == touch[f][i] {
        assert (6 * f + i) / 6 == f && (6 * f + i) % 6 == i;
      }
    }
    assert fingers == touch;
  }

  lemma {:induction false} DecodedFit(data: seq<byte>, n: nat)
    requires 3 * n <= |data|
    ensures forall k :: 0 <= k < 2 * n ==> DecodeTriplets(data, n)[k] < 4096
  {
    if n == 0 {
    } else {
      DecodedFit(data, n - 1);
      TripletConserves(data[3 * n - 3], data[3 * n - 2], data[3 * n - 1]);
    }
  }

  /** Every 45-byte string is the packing of what it unpacks to, so no two strings read alike. */
  lemma PackUnpack(data: seq<byte>)
    requires |data| == 45
    ensures var r := Unpack(data); r.Success? && IsTouch(r.value) && Pack(r.value) == data
  {
    var v := DecodeTriplets(data, Triplets());
    var touch := Unpack(data).value;
    DecodedFit(data, Triplets());
    forall f | 0 <= f < NUM_TOUCH_FINGERS
      ensures |touch[f]| == NUM_TOUCH_SITES && forall i :: 0 <= i < NUM_TOUCH_SITES ==> touch[f][i] == v[6 * f + i]
    {
      assert touch[f] == v[6 * f..6 * f + 6];
    }
    assert Flat(touch) == v;
    EncodeDecode(data, v, Triplets());
  }

  /** Site `i` of finger `f` is value 6 f + i: of the three bytes that hold two values, the first value has the first
      byte and the upper nibble of the second, and the second value the rest. */
  lemma UnpackAt(data: seq<byte>, f: nat, i: nat)
    requires |data| == 45 && f < NUM_TOUCH_FINGERS && i < NUM_TOUCH_SITES
    ensures Unpack(data).Success? && |Unpack(data).value| == NUM_TOUCH_FINGERS
    ensures |Unpack(data).value[f]| == NUM_TOUCH_SITES
    ensures var c := 3 * f + i / 2;
            Unpack(data).value[f][i] == if i % 2 == 0 then 16 * (data[3 * c] as int) + data[3 * c + 1] / 16
                                        else 256 * (data[3 * c + 1] as int % 16) + data[3 * c + 2]
  {
    var c := 3 * f + i / 2;
    DecodedAt(data, Triplets(), c);
    TripletConserves(data[3 * c], data[3 * c + 1], data[3 * c + 2]);
    assert Unpack(data).value[f][i] == DecodeTriplets(data, Triplets())[6 * f + i];
    assert 6 * f + i == 2 * c + i % 2;
  }

  /** The C decoder takes nibbles in the opposite order: on three bytes the two decoders agree only when all six
      nibbles are equal. */
  lemma DecodersAgreeOn(data: seq<byte>)
    requires |data| == 3
    ensures DecodeTriplets(data, 1) == NibbleUnpacking.Words(data, 2) <==>
              forall k :: 0 <= k < 6 ==> NibbleUnpacking.ByteNibble(data, k) == NibbleUnpacking.ByteNibble(data, 0)
  {
    OneTriplet(data);
    TwoWords(data);
    NibblesAgree(data[0], data[1], data[2]);
    SixNibbles(data);
  }

  lemma OneTriplet(data: seq<byte>)
    requires |data| == 3
    ensures DecodeTriplets(data, 1)[0] == 16 * (data[0] as int) + data[1] / 16
    ensures DecodeTriplets(data, 1)[1] == 256 * (data[1] as int % 16) + data[2]
  {
    DecodedAt(data, 1, 0);
    TripletConserves(data[0], data[1], data[2]);
  }

  lemma TwoWords(data: seq<byte>)
    requires |data| == 3
    ensures var a: int, m: int, b: int := data[0], data[1], data[2];
            && NibbleUnpacking.Words(data, 2)[0] == a % 16 + 16 * (a / 16) + 256 * (m % 16)
            && NibbleUnpacking.Words(data, 2)[1] == m / 16 + 16 * (b % 16) + 256 * (b / 16)
  {
    var c := NibbleUnpacking.Words(data, 2);
    assert c[0] == NibbleUnpacking.Word(data, 0) && c[1] == NibbleUnpacking.Word(data, 1);
  }

  lemma SixNibbles(data: seq<byte>)
    requires |data| == 3
    ensures (forall k :: 0 <= k < 6 ==> NibbleUnpacking.ByteNibble(data, k) == NibbleUnpacking.ByteNibble(data, 0)) <==>
              data[0] / 16 == data[0] % 16 == data[1] % 16 == data[1] / 16 == data[2] % 16 == data[2] / 16
  {
    assert NibbleUnpacking.ByteNibble(data, 0) == data[0] % 16 && NibbleUnpacking.ByteNibble(data, 1) == data[0] / 16;
    assert NibbleUnpacking.ByteNibble(data, 2) == data[1] % 16 && NibbleUnpacking.ByteNibble(data, 3) == data[1] / 16;
    assert NibbleUnpacking.ByteNibble(data, 4) == data[2] % 16 && NibbleUnpacking.ByteNibble(data, 5) == data[2] / 16;
  }

  lemma NibblesAgree(a: nat, m: nat, b: nat)
    requires a < 256 && m < 256 && b < 256
    ensures 16 * a + m / 16 == a % 16 + 16 * (a / 16) + 256 * (m % 16)
            && 256 * (m % 16) + b == m / 16 + 16 * (b % 16) + 256 * (b / 16)
            <==> a / 16 == a % 16 == m % 16 == m / 16 == b % 16 == b / 16
  {
    SameDigits(a / 16, a % 16, m / 16, m % 16, a / 16, a % 16);
    SameDigits(m % 16, b / 16, b % 16, b / 16, b % 16, m / 16);
  }

  lemma SameDigits(x: int, y: int, z: int, u: int, v: int, w: int)
    requires 0 <= x < 16 && 0 <= y < 16 && 0 <= z < 16 && 0 <= u < 16 && 0 <= v < 16 && 0 <= w < 16
    ensures 256 * x + 16 * y + z == 256 * u + 16 * v + w <==> x == u && y == v && z == w
  {
  }
}
