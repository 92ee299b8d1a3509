/** The limit checks, safety reflex and final clamp of the Franka client
    (polymetis/src/clients/franka_panda_client/franka_panda_client.cpp). */
module SafetyLimits {
  import opened Arithmetic
  import opened Wrappers

  const NUM_DOFS: nat := 7

  // ----- Reflex torque of one dimension -----

  /** Feedback torque for a measured `v` between hard limits `lo` and `hi`. */
  function Reflex(v: real, lo: real, hi: real, margin: real, k: real): real {
    if v - hi > -margin then -(k * (margin + (v - hi)))
    else if lo - v > -margin then k * (margin + (lo - v))
    else 0.0
  }

  predicate Outside(v: real, lo: real, hi: real) {
    v - hi > 0.0 || lo - v > 0.0
  }

  /** The larger the measured value, the smaller the torque, wherever the margin bands lie. */
  lemma ReflexMonotone(a: real, b: real, lo: real, hi: real, margin: real, k: real)
    requires k >= 0.0 && a <= b
    ensures Reflex(a, lo, hi, margin, k) >= Reflex(b, lo, hi, margin, k)
  {
    Product(k, b - a);
    if b - hi > -margin {
      Product(k, margin + (b - hi));
    }
    if lo - a > -margin {
      Product(k, margin + (lo - a));
    }
  }

  /** How far into a margin band `v` is; the reflex is proportional to it. */
  function Deflection(v: real, lo: real, hi: real, margin: real): real {
    if v - hi > -margin then -(margin + (v - hi))
    else if lo - v > -margin then margin + (lo - v)
    else 0.0
  }

  lemma ReflexIs(v: real, lo: real, hi: real, margin: real, k: real) returns (d: real)
    ensures d == Deflection(v, lo, hi, margin) && Reflex(v, lo, hi, margin, k) == k * d
  {
    d := Deflection(v, lo, hi, margin);
    Negated(k, margin + (v - hi));
    Negated(k, 0.0);
  }

  lemma Negated(k: real, x: real)
    ensures k * -x == -(k * x)
  {
  }

  lemma ScaledDifference(k: real, d: real, e: real, s: real)
    requires k >= 0.0
    ensures d - e <= s ==> k * d - k * e <= k * s
    ensures k > 0.0 && d - e > s ==> k * d - k * e > k * s
  {
    assert k * d - k * e - k * s == k * (d - e - s);
    if d - e <= s {
      Product(k, s - (d - e));
      Negated(k, s - (d - e));
      assert d - e - s == -(s - (d - e));
    } else if k > 0.0 {
      assert k * (d - e - s) > 0.0;
    }
  }

  lemma ReflexSlope(a: real, b: real, lo: real, hi: real, margin: real, k: real)
    requires k >= 0.0 && a <= b && lo + margin <= hi - margin
    ensures Reflex(a, lo, hi, margin, k) - Reflex(b, lo, hi, margin, k) <= k * (b - a)
  {
    var d := ReflexIs(a, lo, hi, margin, k);
    var e := ReflexIs(b, lo, hi, margin, k);
    ScaledDifference(k, d, e, b - a);
  }

  ghost predicate Lipschitz(lo: real, hi: real, margin: real, k: real) {
    forall a, b :: a <= b ==> Reflex(a, lo, hi, margin, k) - Reflex(b, lo, hi, margin, k) <= k * (b - a)
  }

  /** The torque changes at most k times as fast as the measurement exactly when the margin bands do not
      overlap (or the stiffness is zero). */
  lemma ReflexLipschitz(lo: real, hi: real, margin: real, k: real)
    requires k >= 0.0
    ensures Lipschitz(lo, hi, margin, k) <==> k == 0.0 || lo + margin <= hi - margin
  {
    if lo + margin <= hi - margin {
      forall a, b | a <= b
        ensures Reflex(a, lo, hi, margin, k) - Reflex(b, lo, hi, margin, k) <= k * (b - a)
      {
        ReflexSlope(a, b, lo, hi, margin, k);
      }
    } else if k == 0.0 {
      forall a, b | a <= b
        ensures Reflex(a, lo, hi, margin, k) - Reflex(b, lo, hi, margin, k) <= k * (b - a)
      {
        ZeroStiffness(a, lo, hi, margin, k);
        ZeroStiffness(b, lo, hi, margin, k);
      }
    } else {
      var a, b := hi - margin, hi - margin + 1.0;
      Overlap(lo, hi, margin, k);
      assert Reflex(a, lo, hi, margin, k) - Reflex(b, lo, hi, margin, k) > k * (b - a);
    }
  }

  lemma ZeroStiffness(v: real, lo: real, hi: real, margin: real, k: real)
    requires k == 0.0
    ensures Reflex(v, lo, hi, margin, k) == 0.0
  {
  }

  lemma Overlap(lo: real, hi: real, margin: real, k: real)
    requires k > 0.0 && lo + margin > hi - margin
    ensures var a, b := hi - margin, hi - margin + 1.0;
            Reflex(a, lo, hi, margin, k) - Reflex(b, lo, hi, margin, k) > k * (b - a)
  {
    var a, b := hi - margin, hi - margin + 1.0;
    var d := ReflexIs(a, lo, hi, margin, k);
    var e := ReflexIs(b, lo, hi, margin, k);
    ScaledDifference(k, d, e, b - a);
  }

  // ----- Clamp -----

  function Clamp(x: real, limit: real): real {
    var y := if x > limit then limit else x;
    if y < -limit then -limit else y
  }

  /** Within a non-negative limit the clamp is the nearest admissible torque. */
  lemma ClampIsNearest(x: real, limit: real, y: real)
    requires limit >= 0.0 && -limit <= y <= limit
    ensures -limit <= Clamp(x, limit) <= limit
    ensures if Clamp(x, limit) >= x then Clamp(x, limit) - x <= (if y >= x then y - x else x - y)
            else x - Clamp(x, limit) <= (if y >= x then y - x else x - y)
  {
  }

  // ----- Limit exceptions as a step on the set of active constraints -----

  /** The monitored items, in evaluation order. */
  const ITEMS: nat := 4

  predicate IsActive(active: map<nat, bool>, item: nat) {
    item in active && active[item]
  }

  /** Evaluation of items i.. with violations `v`: the constraint map it leaves, and the item that threw.
      A thrown exception skips the items after it. */
  function Evaluate(active: map<nat, bool>, v: seq<bool>, i: nat, readonly: bool): (map<nat, bool>, Option<nat>)
    requires i <= |v|
    decreases |v| - i
  {
    if i == |v| then (active, None)
    else if v[i] && !IsActive(active, i) && !readonly then (active[i := true], Some(i))
    else Evaluate(active[i := v[i]], v, i + 1, readonly)
  }

  /** The constraint map after the first `n` cycles of the history `h`. */
  function ActiveAfter(h: seq<seq<bool>>, n: nat): map<nat, bool>
    requires n <= |h|
  {
    if n == 0 then map[] else Evaluate(ActiveAfter(h, n - 1), h[n - 1], 0, false).0
  }

  // An account of the same history that does not mention the map.

  /** Item `j` is violated in cycle `n` and was not violated the last time it was evaluated before. */
  ghost predicate Rising(h: seq<seq<bool>>, n: nat, j: nat)
    requires n < |h| && forall i :: 0 <= i < |h| ==> |h[i]| == ITEMS
    requires j < ITEMS
    decreases n, 2, j
  {
    h[n][j] && !LastViolated(h, n, j)
  }

  /** No earlier item throws in cycle `n`, so item `j` is evaluated. */
  ghost predicate Evaluated(h: seq<seq<bool>>, n: nat, j: nat)
    requires n < |h| && forall i :: 0 <= i < |h| ==> |h[i]| == ITEMS
    requires j < ITEMS
    decreases n, 3, j
  {
    forall i :: 0 <= i < j ==> !Rising(h, n, i)
  }

  /** What the last evaluation of item `j` before cycle `n` found; false if there was none. */
  ghost predicate LastViolated(h: seq<seq<bool>>, n: nat, j: nat)
    requires n <= |h| && forall i :: 0 <= i < |h| ==> |h[i]| == ITEMS
    requires j < ITEMS
    decreases n, 1, j
  {
    n > 0 && if Evaluated(h, n - 1, j) then h[n - 1][j] else LastViolated(h, n - 1, j)
  }

  lemma {:induction false} EvaluateFrom(h: seq<seq<bool>>, n: nat, active: map<nat, bool>, i: nat)
    requires n < |h| && forall k :: 0 <= k < |h| ==> |h[k]| == ITEMS
    requires i <= ITEMS && (i < ITEMS ==> Evaluated(h, n, i))
    requires i == ITEMS ==> forall j :: 0 <= j < ITEMS ==> !Rising(h, n, j)
    requires forall j :: 0 <= j < i ==> IsActive(active, j) == h[n][j]
    requires forall j :: i <= j < ITEMS ==> IsActive(active, j) == LastViolated(h, n, j)
    ensures var (after, thrown) := Evaluate(active, h[n], i, false);
            && (forall j :: 0 <= j < ITEMS ==> IsActive(after, j) == LastViolated(h, n + 1, j))
            && (thrown.Some? <==> exists j :: 0 <= j < ITEMS && Rising(h, n, j))
            && (thrown.Some? ==> thrown.value < ITEMS && Rising(h, n, thrown.value) && Evaluated(h, n, thrown.value))
    decreases ITEMS - i
  {
    if i == ITEMS {
      forall j | 0 <= j < ITEMS ensures IsActive(active, j) == LastViolated(h, n + 1, j) {
        assert Evaluated(h, n, j);
      }
    } else if h[n][i] && !IsActive(active, i) {
      assert Rising(h, n, i);
      var after := active[i := true];
      forall j | 0 <= j < ITEMS ensures IsActive(after, j) == LastViolated(h, n + 1, j) {
        assert j > i ==> !Evaluated(h, n, j);
      }
    } else {
      EvaluateFrom(h, n, active[i := h[n][i]], i + 1);
    }
  }

  lemma {:induction false} ActiveIsLastViolated(h: seq<seq<bool>>, n: nat)
    requires n <= |h| && forall i :: 0 <= i < |h| ==> |h[i]| == ITEMS
    ensures forall j :: 0 <= j < ITEMS ==> IsActive(ActiveAfter(h, n), j) == LastViolated(h, n, j)
  {
    if n == 0 {
    } else {
      ActiveIsLastViolated(h, n - 1);
      EvaluateFrom(h, n - 1, ActiveAfter(h, n - 1), 0);
    }
  }

  /** In every run outside readonly and mock mode, a cycle throws exactly when some item is violated
      that was not violated the last time it was evaluated; the items after the one that throws are not
      evaluated in that cycle. */
  lemma ThrowsOnRisingEdges(h: seq<seq<bool>>, n: nat)
    requires n < |h| && forall i :: 0 <= i < |h| ==> |h[i]| == ITEMS
    ensures var (_, thrown) := Evaluate(ActiveAfter(h, n), h[n], 0, false);
            && (thrown.Some? <==> exists j :: 0 <= j < ITEMS && Rising(h, n, j))
            && (thrown.Some? ==> thrown.value < ITEMS && Rising(h, n, thrown.value) && Evaluated(h, n, thrown.value))
  {
    ActiveIsLastViolated(h, n);
    EvaluateFrom(h, n, ActiveAfter(h, n), 0);
  }

  /** An item that stays violated throws at most once: after it has thrown it cannot throw again before
      it has been evaluated as not violated. */
  lemma {:induction false} PersistentViolationThrowsOnce(h: seq<seq<bool>>, m: nat, n: nat, j: nat)
    requires m < n < |h| && j < ITEMS && forall i :: 0 <= i < |h| ==> |h[i]| == ITEMS
    requires Rising(h, m, j) && Evaluated(h, m, j)
    requires forall k :: m <= k < n && Evaluated(h, k, j) ==> h[k][j]
    ensures LastViolated(h, n, j) && !Rising(h, n, j)
    decreases n
  {
    if n == m + 1 {
    } else {
      PersistentViolationThrowsOnce(h, m, n - 1, j);
    }
  }
}
