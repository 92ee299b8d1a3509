/** Conversion between joint values in degrees (or degrees per second) and the signed 16-bit words on the wire
    (the nested scale functions of position_command and velocity_command, and the decoders of read_v2, in hand.py). */
module JointScaling {

  /** Limits to [-limit, limit]. */
  function Limited(p: real, limit: real): real {
    if p < -limit then -limit else if p > limit then limit else p
  }

  /** Conversion to int drops the fraction, towards zero. */
  function Truncate(x: real): int {
    if x >= 0.0 then x.Floor else -(-x).Floor
  }

  function Scale(p: real, limit: real): int
    requires limit > 0.0
  {
    Truncate(Limited(p, limit) * 32767.0 / limit)
  }

  function Unscale(w: int, limit: real): real {
    w as real * limit / 32767.0
  }

  function ScaleAll(p: seq<real>, limit: real): (w: seq<int>)
    requires limit > 0.0
    ensures |w| == |p|
  {
    seq(|p|, j requires 0 <= j < |p| => Scale(p[j], limit))
  }

  lemma TruncateBound(x: real)
    ensures x >= 0.0 ==> x - 1.0 < Truncate(x) as real <= x
    ensures x <= 0.0 ==> x <= Truncate(x) as real < x + 1.0
  {
  }

  lemma TimesPositive(a: real, b: real, c: real)
    requires a <= b && c > 0.0
    ensures a * c <= b * c
    ensures a < b ==> a * c < b * c
  {
  }

  /** A scaled value fits a signed word, and reads back within one step of the value the limit admits, never
      beyond it. */
  lemma ScaleAccuracy(p: real, limit: real)
    requires limit > 0.0
    ensures -32767 <= Scale(p, limit) <= 32767
    ensures var c, back := Limited(p, limit), Unscale(Scale(p, limit), limit);
            if c >= 0.0 then c - limit / 32767.0 < back <= c else c <= back < c + limit / 32767.0
  {
    var c := Limited(p, limit);
    var u := limit / 32767.0;
    var x := c * 32767.0 / limit;
    assert x * u == c by { Cancel(c, limit); }
    TruncateBound(x);
    var w := Scale(p, limit) as real;
    TimesPositive(-limit, c, 32767.0 / limit);
    TimesPositive(c, limit, 32767.0 / limit);
    assert -32767.0 <= x <= 32767.0;
    if c >= 0.0 {
      assert x >= 0.0;
      TimesPositive(x - 1.0, w, u);
      TimesPositive(w, x, u);
    } else {
      assert x <= 0.0;
      TimesPositive(w, x + 1.0, u);
      TimesPositive(x, w, u);
    }
  }

  lemma Cancel(c: real, limit: real)
    requires limit > 0.0
    ensures (c * 32767.0 / limit) * (limit / 32767.0) == c
  {
  }

  lemma WithinLimit(w: real, limit: real)
    requires limit > 0.0 && -32767.0 <= w <= 32767.0
    ensures -limit <= (w * limit) / 32767.0 <= limit
  {
    TimesPositive(-32767.0, w, limit);
    TimesPositive(w, 32767.0, limit);
    assert w * limit <= 32767.0 * limit;
  }

  lemma Recover(w: real, limit: real)
    requires limit > 0.0
    ensures (w * limit / 32767.0) * 32767.0 / limit == w
  {
    var x := w * limit;
    assert (x / 32767.0) * 32767.0 == x;
    assert x / limit == w;
  }

  lemma UnscaleWithin(w: int, limit: real)
    requires limit > 0.0 && -32767 <= w <= 32767
    ensures -limit <= Unscale(w, limit) <= limit
    ensures Unscale(w, limit) * 32767.0 / limit == w as real
  {
    WithinLimit(w as real, limit);
    Recover(w as real, limit);
  }

  /** A word read off the wire and sent back is unchanged, unless it is the one word no command produces. */
  lemma Rescale(w: int, limit: real)
    requires limit > 0.0 && -32768 <= w < 32768
    ensures Scale(Unscale(w, limit), limit) == w <==> w != -32768
  {
    if w == -32768 {
      ScaleAccuracy(Unscale(w, limit), limit);
    } else {
      UnscaleWithin(w, limit);
      assert Limited(Unscale(w, limit), limit) == Unscale(w, limit);
      assert Truncate(w as real) == w;
    }
  }
}
