/** Errors and checksums of the Ability Hand protocol, in Python and in C (hand.py and i2c-master-test.c under
    polymetis/python/polymetis/robot_drivers/psyonic_gripper/ability-hand-api). */
module HandProtocol {
  import opened Bits
  import opened Wrappers

  datatype ProtocolError =
    | InvalidPacketType
    | IncompletePacket
    | ChecksumFailed
    | UnexpectedDataLength(n: nat)
    | UnsupportedVariant(variant: nat)

  /** Sum of the first `n` bytes. */
  function Sum(data: seq<byte>, n: nat): nat
    requires n <= |data|
  {
    if n == 0 then 0 else Sum(data, n - 1) + data[n - 1]
  }

  /** The byte that makes the first `n` bytes sum to zero modulo 256. */
  function Checksum(data: seq<byte>, n: nat): byte
    requires n <= |data|
  {
    (0 - Sum(data, n)) % 256
  }

  /** The Python function; a length of zero counts as absent. */
  method ComputeChecksum(data: seq<byte>, dlen: Option<nat>) returns (c: byte)
    requires dlen.Some? ==> dlen.value <= |data|
    ensures c == Checksum(data, if dlen == None || dlen == Some(0) then |data| else dlen.value)
  {
    var cksum: int := 0;
    var n := if dlen == None || dlen == Some(0) then |data| else dlen.value;
    for i := 0 to n
      invariant cksum == Sum(data, i)
    {
      cksum := cksum + data[i];
    }
    c := (-cksum) % 256;
  }

  /** Conversion to int8_t. */
  function ToInt8(x: int): (r: int)
    ensures -128 <= r < 128 && (x - r) % 256 == 0
  {
    (x + 128) % 256 - 128
  }

  /** The C function accumulates in a signed byte and negates on return, which gives the same byte. */
  method GetChecksum(arr: array<byte>, size: nat) returns (c: byte)
    requires size <= arr.Length
    ensures c == Checksum(arr[..], size)
  {
    var checksum := 0;
    var i := 0;
    while i < size
      invariant 0 <= i <= size && -128 <= checksum < 128
      invariant (Sum(arr[..], i) - checksum) % 256 == 0
    {
      Congruent(Sum(arr[..], i), checksum, arr[i], ToInt8(arr[i]));
      checksum := ToInt8(checksum + ToInt8(arr[i]));
      i := i + 1;
    }
    SameNegation(Sum(arr[..], size), checksum);
    c := (-checksum) % 256;
  }

  lemma Congruent(a: int, b: int, x: int, y: int)
    requires (a - b) % 256 == 0 && (x - y) % 256 == 0
    ensures ((a + x) - ToInt8(b + y)) % 256 == 0
  {
    var k, m, n := (a - b) / 256, (x - y) / 256, ((b + y) - ToInt8(b + y)) / 256;
    assert (a + x) - ToInt8(b + y) == 256 * (k + m + n);
  }

  lemma SameNegation(a: int, b: int)
    requires (a - b) % 256 == 0
    ensures (-a) % 256 == (-b) % 256
  {
    var k := (a - b) / 256;
    assert -a == -b + 256 * -k;
  }

  /** The checksum is the only byte that completes the sum to a multiple of 256. */
  lemma ChecksumCompletes(data: seq<byte>, n: nat, c: byte)
    requires n <= |data|
    ensures (Sum(data, n) + c) % 256 == 0 <==> c == Checksum(data, n)
  {
    Completes(Sum(data, n), c);
  }

  lemma Completes(s: nat, c: nat)
    requires c < 256
    ensures (s + c) % 256 == 0 <==> c == (0 - s) % 256
  {
    var q, d := s / 256, s % 256;
    Remainder(s + c, q, d + c);
    Remainder(0 - s, 0 - q, 0 - d);
  }

  lemma Remainder(x: int, q: int, d: int)
    requires x == 256 * q + d
    ensures x % 256 == d % 256
  {
  }

  lemma {:induction false} SumUpdate(data: seq<byte>, i: nat, x: byte, n: nat)
    requires i < |data| && n <= |data|
    ensures Sum(data[i := x], n) == Sum(data, n) + if i < n then x - data[i] else 0
  {
    if n == 0 {
    } else {
      SumUpdate(data, i, x, n - 1);
    }
  }

  /** Replacing one covered byte changes the checksum exactly when it changes the byte. */
  lemma ChecksumDetects(data: seq<byte>, i: nat, x: byte, n: nat)
    requires i < n <= |data|
    ensures Checksum(data[i := x], n) == Checksum(data, n) <==> x == data[i]
  {
    SumUpdate(data, i, x, n);
    var c := Checksum(data, n);
    ChecksumCompletes(data, n, c);
    ChecksumCompletes(data[i := x], n, c);
    Shifted(Sum(data, n) + c, x - data[i]);
  }

  lemma Shifted(s: int, d: int)
    requires s % 256 == 0 && -256 < d < 256
    ensures (s + d) % 256 == 0 <==> d == 0
  {
    var q := s / 256;
    if (s + d) % 256 == 0 {
      var p := (s + d) / 256;
      assert d == 256 * (p - q);
    }
  }

  lemma {:induction false} SumPrefix(a: seq<byte>, b: seq<byte>, n: nat)
    requires n <= |a| && n <= |b| && a[..n] == b[..n]
    ensures Sum(a, n) == Sum(b, n)
  {
    if n == 0 {
    } else {
      assert a[n - 1] == a[..n][n - 1] == b[n - 1];
      assert a[..n - 1] == a[..n][..n - 1] == b[..n - 1];
      SumPrefix(a, b, n - 1);
    }
  }
}
