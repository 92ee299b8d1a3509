/** The C decoder of packed 12-bit touch values, least significant nibble first (unpack_8bit_into_12bit in
    polymetis/python/polymetis/robot_drivers/psyonic_gripper/ability-hand-api/demo/i2c-master-test.c). */
module NibbleUnpacking {
  import opened Bits

  /** Nibble `k` of a byte string: the low half of a byte comes first. */
  function ByteNibble(bytes: seq<byte>, k: nat): (r: nat)
    requires k < 2 * |bytes|
    ensures r < 16
  {
    if k % 2 == 0 then bytes[k / 2] % 16 else bytes[k / 2] / 16
  }

  /** Nibble `k` of a string of 12-bit values. */
  function WordNibble(words: seq<word12>, k: nat): (r: nat)
    requires k < 3 * |words|
    ensures r < 16
  {
    if k % 3 == 0 then words[k / 3] % 16
    else if k % 3 == 1 then words[k / 3] / 16 % 16
    else words[k / 3] / 256
  }

  /** The value holding nibbles 3i, 3i+1 and 3i+2. */
  function Word(bytes: seq<byte>, i: nat): word12
    requires 3 * i + 3 <= 2 * |bytes|
  {
    ByteNibble(bytes, 3 * i) + 16 * ByteNibble(bytes, 3 * i + 1) + 256 * ByteNibble(bytes, 3 * i + 2)
  }

  function Words(bytes: seq<byte>, n: nat): (words: seq<word12>)
    requires 3 * n <= 2 * |bytes|
    ensures |words| == n
  {
    seq(n, i requires 0 <= i < n => Word(bytes, i))
  }

  /** The contribution to value `i` of its nibbles numbered `from` or more. */
  function Loaded(bytes: seq<byte>, i: nat, from: nat): nat
    requires 3 * i + 3 <= 2 * |bytes|
  {
    if from <= 3 * i then Word(bytes, i)
    else if from == 3 * i + 1 then 16 * (ByteNibble(bytes, 3 * i + 1) + 16 * ByteNibble(bytes, 3 * i + 2))
    else if from == 3 * i + 2 then 256 * ByteNibble(bytes, 3 * i + 2)
    else 0
  }

  /** Oring in a lower nibble extends the value it belongs to. */
  lemma LoadNibble(n0: nat, n1: nat, n2: nat)
    requires n0 < 16 && n1 < 16 && n2 < 16
    ensures Or(0, ShiftLeft(n2, 8)) == 256 * n2
    ensures Or(256 * n2, ShiftLeft(n1, 4)) == 16 * (n1 + 16 * n2)
    ensures Or(16 * (n1 + 16 * n2), ShiftLeft(n0, 0)) == n0 + 16 * n1 + 256 * n2
  {
    OrZero(ShiftLeft(n2, 8));
    LeftShifts(n2);
    OrNibble(n2, n1);
    OrShift(16 * n2, n1, 4);
    LeftShifts(16 * n2);
    LeftShifts(16 * n2 + n1);
    OrNibble(n1 + 16 * n2, n0);
    LeftShifts(n0);
  }

  lemma LoadStep(bytes: seq<byte>, i: nat, k: nat)
    requires 3 * i + 3 <= 2 * |bytes| && 3 * i <= k < 3 * i + 3
    ensures Or(Loaded(bytes, i, k + 1), ShiftLeft(ByteNibble(bytes, k), 4 * (k - 3 * i))) == Loaded(bytes, i, k)
  {
    LoadNibble(ByteNibble(bytes, 3 * i), ByteNibble(bytes, 3 * i + 1), ByteNibble(bytes, 3 * i + 2));
  }

  /** How bit `bidx` is addressed, when it is the lowest bit of nibble `k`. */
  lemma Address(bidx: nat, k: nat)
    requires bidx == 4 * k
    ensures bidx / 12 == k / 3 && bidx / 8 == k / 2 && bidx % 8 == 4 * (k % 2) && bidx % 12 == 4 * (k - 3 * (k / 3))
  {
  }

  lemma NibbleAt(bytes: seq<byte>, k: nat)
    requires k < 2 * |bytes|
    ensures LowNibble(ShiftRight(bytes[k / 2], 4 * (k % 2))) == ByteNibble(bytes, k)
  {
    RightShifts(bytes[k / 2]);
  }

  /** Unpacks `valsize` values from the bytes of `arr` starting at `start`. */
  method Unpack(arr: array<byte>, start: nat, vals: array<nat>, valsize: nat)
    requires start <= arr.Length && 3 * valsize <= 2 * (arr.Length - start) && valsize <= vals.Length
    modifies vals
    ensures vals[..valsize] == Words(arr[start..], valsize)
    ensures forall i :: valsize <= i < vals.Length ==> vals[i] == old(vals[i])
  {
    ghost var bytes := arr[start..];
    var i := 0;
    while i < valsize
      invariant 0 <= i <= valsize
      invariant forall j :: 0 <= j < i ==> vals[j] == 0
      invariant forall j :: valsize <= j < vals.Length ==> vals[j] == old(vals[j])
    {
      vals[i] := 0;
      i := i + 1;
    }
    var bidx := valsize * 12 - 4;
    ghost var k := 3 * valsize;
    while bidx >= 0
      invariant 0 <= k <= 3 * valsize && bidx == 4 * k - 4
      invariant forall j :: 0 <= j < valsize ==> vals[j] == Loaded(bytes, j, k)
      invariant forall j :: valsize <= j < vals.Length ==> vals[j] == old(vals[j])
    {
      k := k - 1;
      Address(bidx, k);
      var validx, arridx, shift := bidx / 12, bidx / 8, bidx % 8;
      assert 3 * validx <= k < 3 * validx + 3 <= 3 * valsize;
      assert arr[start + arridx] == bytes[k / 2];
      NibbleAt(bytes, k);
      LoadStep(bytes, validx, k);
      vals[validx] := Or(vals[validx], ShiftLeft(LowNibble(ShiftRight(arr[start + arridx], shift)), bidx % 12));
      forall j | 0 <= j < valsize && j != validx ensures Loaded(bytes, j, k) == Loaded(bytes, j, k + 1) {
        Loading(bytes, j, k);
      }
      bidx := bidx - 4;
    }
  }

  /** A nibble contributes to one value only. */
  lemma Loading(bytes: seq<byte>, j: nat, k: nat)
    requires 3 * j + 3 <= 2 * |bytes| && !(3 * j <= k < 3 * j + 3)
    ensures Loaded(bytes, j, k) == Loaded(bytes, j, k + 1)
  {
  }

  function PackedByte(words: seq<word12>, b: nat): byte
    requires 2 * b + 1 < 3 * |words|
  {
    WordNibble(words, 2 * b) + 16 * WordNibble(words, 2 * b + 1)
  }

  /** The bytes whose nibbles are those of the values: the inverse of Words on an even number of values. */
  function Pack(words: seq<word12>): (bytes: seq<byte>)
    requires |words| % 2 == 0
    ensures |bytes| == |words| / 2 * 3
  {
    seq(|words| / 2 * 3, b requires 0 <= b < |words| / 2 * 3 => PackedByte(words, b))
  }

  lemma WordsKeepNibbles(bytes: seq<byte>, n: nat, k: nat)
    requires 3 * n <= 2 * |bytes| && k < 3 * n
    ensures WordNibble(Words(bytes, n), k) == ByteNibble(bytes, k)
  {
    var i := k / 3;
    assert Words(bytes, n)[i] == Word(bytes, i);
    WordSplit(ByteNibble(bytes, 3 * i), ByteNibble(bytes, 3 * i + 1), ByteNibble(bytes, 3 * i + 2));
  }

  lemma WordSplit(n0: nat, n1: nat, n2: nat)
    requires n0 < 16 && n1 < 16 && n2 < 16
    ensures var w := n0 + 16 * n1 + 256 * n2; w % 16 == n0 && w / 16 % 16 == n1 && w / 256 == n2
  {
  }

  lemma PackKeepsNibbles(words: seq<word12>, k: nat)
    requires |words| % 2 == 0 && k < 3 * |words|
    ensures ByteNibble(Pack(words), k) == WordNibble(words, k)
  {
    assert Pack(words)[k / 2] == PackedByte(words, k / 2);
  }

  /** A value, a byte, is put together from its nibbles. */
  lemma WordFromNibbles(words: seq<word12>, i: nat)
    requires i < |words|
    ensures words[i] ==
              WordNibble(words, 3 * i) + 16 * WordNibble(words, 3 * i + 1) + 256 * WordNibble(words, 3 * i + 2)
  {
    assert (3 * i) / 3 == i && (3 * i + 1) / 3 == i && (3 * i + 2) / 3 == i;
  }

  lemma ByteFromNibbles(bytes: seq<byte>, b: nat)
    requires b < |bytes|
    ensures bytes[b] == ByteNibble(bytes, 2 * b) + 16 * ByteNibble(bytes, 2 * b + 1)
  {
  }

  /** Unpacking is a bijection between byte strings and value strings of matching even length. */
  lemma UnpackPack(words: seq<word12>)
    requires |words| % 2 == 0
    ensures Words(Pack(words), |words|) == words
  {
    forall i | 0 <= i < |words| ensures Words(Pack(words), |words|)[i] == words[i] {
      PackKeepsNibbles(words, 3 * i);
      PackKeepsNibbles(words, 3 * i + 1);
      PackKeepsNibbles(words, 3 * i + 2);
      WordFromNibbles(words, i);
    }
  }

  lemma PackUnpack(bytes: seq<byte>, n: nat)
    requires n % 2 == 0 && 3 * n == 2 * |bytes|
    ensures Pack(Words(bytes, n)) == bytes
  {
    var words := Words(bytes, n);
    forall b | 0 <= b < |bytes| ensures Pack(words)[b] == bytes[b] {
      assert Pack(words)[b] == PackedByte(words, b);
      WordsKeepNibbles(bytes, n, 2 * b);
      WordsKeepNibbles(bytes, n, 2 * b + 1);
      ByteFromNibbles(bytes, b);
    }
  }

  function Radix(base: nat, n: nat): nat {
    if n == 0 then 1 else base * Radix(base, n - 1)
  }

  function Little(a: nat, b: nat, c: nat): nat {
    a + 256 * b + 65536 * c
  }

  /** Two values take up three bytes. */
  lemma WordsFrom(bytes: seq<byte>, n: nat)
    requires n >= 2 && 3 * n <= 2 * |bytes|
    ensures Words(bytes, n) == [Word(bytes, 0), Word(bytes, 1)] + Words(bytes[3..], n - 2)
    ensures Word(bytes, 0) + 4096 * Word(bytes, 1) == Little(bytes[0], bytes[1], bytes[2])
  {
    var rest := Words(bytes[3..], n - 2);
    forall i | 2 <= i < n ensures Words(bytes, n)[i] == rest[i - 2] {
      forall k | 6 <= k < 2 * |bytes| ensures ByteNibble(bytes, k) == ByteNibble(bytes[3..], k - 6) {
      }
    }
  }

  /** The bytes touched when reading `n` values. */
  function Bytes(n: nat): (b: nat)
    ensures 2 * b == 3 * n + n % 2
  {
    if n < 2 then 2 * n else 3 + Bytes(n - 2)
  }

  /** The values in base 4096 are the bytes in base 256: no bit is lost, invented or moved. When the number of
      values is odd, the high half of the last byte is left over. */
  lemma {:induction false} Conserves(bytes: seq<byte>, n: nat)
    requires |bytes| == Bytes(n)
    ensures Value(bytes, 256) == Value(Words(bytes, n), 4096)
                                 + Radix(4096, n) * if n % 2 == 0 then 0 else bytes[|bytes| - 1] / 16
    decreases n
  {
    if n == 0 {
    } else if n == 1 {
      OneWord(bytes);
    } else {
      var rest := Words(bytes[3..], n - 2);
      var left := if n % 2 == 0 then 0 else bytes[|bytes| - 1] / 16;
      Conserves(bytes[3..], n - 2);
      WordsFrom(bytes, n);
      ThreeBytes(bytes);
      TwoWords(Words(bytes, n), rest);
      assert Value(bytes[3..], 256) == Value(rest, 4096) + Radix(4096, n - 2) * left;
      assert Radix(4096, n) == 4096 * Radix(4096, n - 1) == 16777216 * Radix(4096, n - 2);
      Distribute(Radix(4096, n - 2), left);
    }
  }

  lemma OneWord(bytes: seq<byte>)
    requires |bytes| == 2
    ensures Value(bytes, 256) == Value(Words(bytes, 1), 4096) + Radix(4096, 1) * (bytes[1] / 16)
  {
    var words := Words(bytes, 1);
    assert bytes[1..][1..] == [] && words[1..] == [];
    assert Value(bytes[1..], 256) == bytes[1];
    assert Radix(4096, 1) == 4096 * Radix(4096, 0) == 4096;
  }

  lemma ThreeBytes(bytes: seq<byte>)
    requires |bytes| >= 3
    ensures Value(bytes, 256) == Little(bytes[0], bytes[1], bytes[2]) + 16777216 * Value(bytes[3..], 256)
  {
    assert bytes[1..][1..] == bytes[2..] && bytes[2..][1..] == bytes[3..];
    assert Value(bytes[2..], 256) == bytes[2] + 256 * Value(bytes[3..], 256);
    assert Value(bytes[1..], 256) == bytes[1] + 256 * Value(bytes[2..], 256);
  }

  lemma TwoWords(words: seq<word12>, rest: seq<word12>)
    requires |words| >= 2 && words[2..] == rest
    ensures Value(words, 4096) == words[0] + 4096 * words[1] + 16777216 * Value(rest, 4096)
  {
    assert words[1..][1..] == words[2..];
    assert Value(words[1..], 4096) == words[1] + 4096 * Value(words[2..], 4096);
  }

  lemma Distribute(p: nat, x: nat)
    ensures 16777216 * (p * x) == (16777216 * p) * x
  {
  }
}
