/** Unsigned integers of fixed width, and the bitwise operators on them. */
module Bits {

  type byte = x: int | 0 <= x < 256
  type word12 = x: int | 0 <= x < 4096

  /** Bitwise or. */
  function Or(x: nat, y: nat): nat
    decreases x + y
  {
    if x == 0 && y == 0 then 0
    else (if x % 2 == 1 || y % 2 == 1 then 1 else 0) + 2 * Or(x / 2, y / 2)
  }

  function ShiftLeft(x: nat, n: nat): nat {
    if n == 0 then x else 2 * ShiftLeft(x, n - 1)
  }

  function ShiftRight(x: nat, n: nat): nat {
    if n == 0 then x else ShiftRight(x / 2, n - 1)
  }

  /** `x & 0xF` */
  function LowNibble(x: nat): (r: nat)
    ensures r < 16
  {
    x % 16
  }

  lemma {:induction false} OrZero(x: nat)
    ensures Or(x, 0) == Or(0, x) == x
  {
    if x == 0 {
    } else {
      OrZero(x / 2);
    }
  }

  /** Or of two numbers without a common bit is their sum. */
  lemma {:induction false} OrIsSum(high: nat, low: nat, n: nat)
    requires ShiftRight(low, n) == 0
    ensures Or(ShiftLeft(high, n), low) == ShiftLeft(high, n) + low
    decreases n
  {
    if n == 0 {
      OrZero(high);
    } else {
      OrIsSum(high, low / 2, n - 1);
    }
  }

  /** Or commutes with a common shift. */
  lemma {:induction false} OrShift(x: nat, y: nat, n: nat)
    ensures Or(ShiftLeft(x, n), ShiftLeft(y, n)) == ShiftLeft(Or(x, y), n)
  {
    if n == 0 {
    } else {
      OrShift(x, y, n - 1);
    }
  }

  /** The shifts that occur, as products and quotients. */
  lemma LeftShifts(x: nat)
    ensures ShiftLeft(x, 0) == x && ShiftLeft(x, 4) == 16 * x && ShiftLeft(x, 8) == 256 * x
  {
    assert ShiftLeft(x, 2) == 2 * ShiftLeft(x, 1) == 4 * ShiftLeft(x, 0);
    assert ShiftLeft(x, 4) == 2 * ShiftLeft(x, 3) == 4 * ShiftLeft(x, 2);
    assert ShiftLeft(x, 6) == 2 * ShiftLeft(x, 5) == 4 * ShiftLeft(x, 4);
    assert ShiftLeft(x, 8) == 2 * ShiftLeft(x, 7) == 4 * ShiftLeft(x, 6);
  }

  lemma RightTwo(x: nat, n: nat)
    ensures ShiftRight(x, n + 2) == ShiftRight(x / 4, n)
  {
    assert ShiftRight(x, n + 2) == ShiftRight(x / 2, n + 1) == ShiftRight(x / 2 / 2, n);
    assert x / 2 / 2 == x / 4;
  }

  lemma RightShifts(x: nat)
    ensures ShiftRight(x, 0) == x && ShiftRight(x, 4) == x / 16 && ShiftRight(x, 8) == x / 256
  {
    RightTwo(x, 2);
    RightTwo(x / 4, 0);
    RightTwo(x, 6);
    RightTwo(x / 4, 4);
    RightTwo(x / 16, 2);
    RightTwo(x / 64, 0);
    assert x / 4 / 4 == x / 16 && x / 16 / 4 == x / 64 && x / 64 / 4 == x / 256;
  }

  /** A nibble below a shifted value. */
  lemma OrNibble(high: nat, low: nat)
    requires low < 16
    ensures Or(16 * high, low) == 16 * high + low
  {
    LeftShifts(high);
    RightShifts(low);
    OrIsSum(high, low, 4);
  }

  /** The number with digits `d` in the given base, least significant first. */
  function Value(d: seq<nat>, base: nat): nat {
    if d == [] then 0 else d[0] + base * Value(d[1..], base)
  }
}
