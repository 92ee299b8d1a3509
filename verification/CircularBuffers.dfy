/** The fixed-capacity log of robot states (polymetis/include/polymetis/utils.h). */
module CircularBuffers {
  import opened Wrappers

  /** Index `i` of a log of `size` entries is still held by a buffer of capacity `cap`. */
  predicate Retained(i: int, size: nat, cap: nat) {
    0 <= i < size && size - i <= cap
  }

  /** Two indices less than one lap apart never share a slot. */
  lemma SlotsDistinct(i: nat, n: nat, cap: nat)
    requires 0 < cap && i < n && n - i < cap
    ensures i % cap != n % cap
  {
    LapBound(i / cap, n / cap, i % cap, n % cap, cap);
  }

  lemma LapBound(a: int, b: int, r: int, t: int, cap: nat)
    requires 0 < cap && 0 < (cap * b + t) - (cap * a + r) < cap
    ensures r != t
  {
    if b <= a {
      Monotone(cap, b, a);
    } else {
      Monotone(cap, a + 1, b);
      assert cap * (a + 1) == cap * a + cap;
    }
  }

  lemma Monotone(c: nat, x: int, y: int)
    requires x <= y
    ensures c * x <= c * y
  {
    assert c * (y - x) >= 0;
  }

  class CircularBuffer<T(0)> {
    const elems: array<T>
    var index: nat
    /** Everything appended since construction or the last Clear. */
    ghost var history: seq<T>

    ghost predicate Valid()
      reads this, elems
    {
      && elems.Length > 0
      && index == |history|
      && forall i :: Retained(i, index, elems.Length) ==> elems[i % elems.Length] == history[i]
    }

    constructor (capacity: nat)
      requires capacity > 0
      ensures Valid() && fresh(elems)
      ensures elems.Length == capacity && history == []
    {
      elems := new T[capacity];
      index := 0;
      history := [];
    }

    method Clear()
      requires Valid()
      modifies this
      ensures Valid() && history == []
    {
      index := 0;
      history := [];
    }

    method Append(x: T)
      requires Valid()
      modifies this, elems
      ensures Valid() && history == old(history) + [x]
    {
      ghost var cap := elems.Length;
      forall i | Retained(i, index + 1, cap) && i < index
        ensures i % cap != index % cap
      {
        SlotsDistinct(i, index, cap);
      }
      elems[index % elems.Length] := x;
      index := index + 1;
      history := history + [x];
    }

    /** A negative `i` is compared as a huge unsigned number, hence also absent. */
    method Get(i: int) returns (r: Option<T>)
      requires Valid()
      ensures r == if Retained(i, |history|, elems.Length) then Some(history[i]) else None
    {
      if i < 0 || i >= index || index - i > elems.Length {
        return None;
      }
      return Some(elems[i % elems.Length]);
    }

    method Size() returns (n: nat)
      requires Valid()
      ensures n == |history|
    {
      n := index;
    }
  }
}
