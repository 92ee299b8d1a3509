/** Minimum-jerk planning (polymetis/python/torchcontrol/planning/min_jerk.py) and the adaptive duration of
    move_to_joint_positions (polymetis/python/polymetis/robot_interface.py), over the reals. */
module MinJerk {
  import opened Arithmetic
  import opened Wrappers

  type Joints = seq<real>

  datatype Waypoint = Waypoint(time: real, position: Joints, velocity: Joints, acceleration: Joints)

  function Abs(x: real): real {
    if x >= 0.0 then x else -x
  }

  // ----- Profiles on [0, 1] -----

  function Power(t: real, n: nat): real {
    if n == 0 then 1.0 else t * Power(t, n - 1)
  }

  function Pos(t: real): real {
    10.0 * Power(t, 3) - 15.0 * Power(t, 4) + 6.0 * Power(t, 5)
  }

  function Vel(t: real): real {
    30.0 * Power(t, 2) - 60.0 * Power(t, 3) + 30.0 * Power(t, 4)
  }

  function Acc(t: real): real {
    60.0 * t - 180.0 * Power(t, 2) + 120.0 * Power(t, 3)
  }

  lemma Powers(t: real)
    ensures Power(t, 2) == t * t
    ensures Power(t, 3) == t * t * t
    ensures Power(t, 4) == t * t * t * t
    ensures Power(t, 5) == t * t * t * t * t
  {
    assert Power(t, 1) == t;
    assert Power(t, 2) == t * Power(t, 1);
    assert Power(t, 3) == t * Power(t, 2);
    assert Power(t, 4) == t * Power(t, 3);
    assert Power(t, 5) == t * Power(t, 4);
  }

  lemma PosForm(t: real)
    ensures Pos(t) == 10.0 * (t * t * t) - 15.0 * (t * t * t * t) + 6.0 * (t * t * t * t * t)
  {
    Powers(t);
  }

  lemma VelForm(t: real)
    ensures Vel(t) == 30.0 * (t * t) - 60.0 * (t * t * t) + 30.0 * (t * t * t * t)
  {
    Powers(t);
  }

  lemma AccForm(t: real)
    ensures Acc(t) == 60.0 * t - 180.0 * (t * t) + 120.0 * (t * t * t)
  {
    Powers(t);
  }

  /** `v` is the mean velocity of the profile over an interval with midpoint 1/2 + c and half width h,
      where p = c * c and q = h * h: a sum of squares. */
  predicate IsMeanVel(p: real, q: real, v: real) {
    v == 30.0 * ((1.0 / 4.0 - p - q / 3.0) * (1.0 / 4.0 - p - q / 3.0) + 4.0 / 3.0 * (p * q) + 4.0 / 45.0 * (q * q))
  }

  lemma MeanVelIsMean(a: real, b: real, pa: real, pb: real, p: real, q: real, v: real)
    requires pa == 10.0 * (a * a * a) - 15.0 * (a * a * a * a) + 6.0 * (a * a * a * a * a)
    requires pb == 10.0 * (b * b * b) - 15.0 * (b * b * b * b) + 6.0 * (b * b * b * b * b)
    requires p == ((a + b) / 2.0 - 0.5) * ((a + b) / 2.0 - 0.5) && q == ((b - a) / 2.0) * ((b - a) / 2.0)
    requires IsMeanVel(p, q, v)
    ensures pb - pa == (b - a) * v
  {
  }

  lemma MeanVelAtPoint(t: real, v: real, p: real)
    requires v == 30.0 * (t * t) - 60.0 * (t * t * t) + 30.0 * (t * t * t * t) && p == (t - 0.5) * (t - 0.5)
    ensures IsMeanVel(p, 0.0, v)
  {
  }

  lemma Square(x: real)
    ensures x * x >= 0.0
  {
  }

  /** The mean velocity over any part of [0, 1] is between 0 and 15/8, the velocity at the middle. */
  lemma MeanVelBounds(p: real, q: real, v: real)
    requires p >= 0.0 && q >= 0.0 && p + q <= 1.0 / 4.0 && IsMeanVel(p, q, v)
    ensures 0.0 <= v <= 15.0 / 8.0
  {
    Square(1.0 / 4.0 - p - q / 3.0);
    Square(q);
    Product(p, q);
    Product(p, 0.5 - p - 2.0 * q);
    Product(q, 1.0 / 6.0 - q / 5.0);
    assert 15.0 / 8.0 - v == 30.0 * (p * (0.5 - p - 2.0 * q) + q * (1.0 / 6.0 - q / 5.0));
  }

  lemma HalfWidth(a: real, b: real) returns (p: real, q: real)
    requires 0.0 <= a <= 1.0 && 0.0 <= b <= 1.0
    ensures p == ((a + b) / 2.0 - 0.5) * ((a + b) / 2.0 - 0.5) && q == ((b - a) / 2.0) * ((b - a) / 2.0)
    ensures p >= 0.0 && q >= 0.0 && p + q <= 1.0 / 4.0
  {
    var c, h := (a + b) / 2.0 - 0.5, (b - a) / 2.0;
    p, q := c * c, h * h;
    Square(c);
    Square(h);
    Product(a, 1.0 - a);
    Product(b, 1.0 - b);
    assert 1.0 / 4.0 - c * c - h * h == (a * (1.0 - a) + b * (1.0 - b)) / 2.0;
  }

  lemma MeanVelOf(p: real, q: real) returns (v: real)
    ensures IsMeanVel(p, q, v)
  {
    v := 30.0 * ((1.0 / 4.0 - p - q / 3.0) * (1.0 / 4.0 - p - q / 3.0) + 4.0 / 3.0 * (p * q) + 4.0 / 45.0 * (q * q));
  }

  lemma MeanVelocity(a: real, b: real) returns (v: real)
    requires 0.0 <= a <= 1.0 && 0.0 <= b <= 1.0
    ensures 0.0 <= v <= 15.0 / 8.0 && Pos(b) - Pos(a) == (b - a) * v
  {
    var p, q := HalfWidth(a, b);
    v := MeanVelOf(p, q);
    MeanVelBounds(p, q, v);
    PosForm(a);
    PosForm(b);
    MeanVelIsMean(a, b, Pos(a), Pos(b), p, q, v);
  }

  /** Over [0, 1] the profile never moves back and never faster than 15/8. */
  lemma ProfileStep(a: real, b: real)
    requires 0.0 <= a <= b <= 1.0
    ensures 0.0 <= Pos(b) - Pos(a) <= 15.0 / 8.0 * (b - a)
  {
    var v := MeanVelocity(a, b);
    StepBound(Pos(b) - Pos(a), b - a, v);
  }

  lemma StepBound(step: real, d: real, v: real)
    requires d >= 0.0 && 0.0 <= v <= 15.0 / 8.0 && step == d * v
    ensures 0.0 <= step <= 15.0 / 8.0 * d
  {
    Product(d, v);
    Product(d, 15.0 / 8.0 - v);
  }

  lemma ProfileVel(t: real)
    requires 0.0 <= t <= 1.0
    ensures 0.0 <= Vel(t) <= 15.0 / 8.0
  {
    var p, _ := HalfWidth(t, t);
    VelForm(t);
    MeanVelAtPoint(t, Vel(t), p);
    MeanVelBounds(p, 0.0, Vel(t));
  }

  /** The profiles are one motion: Taylor expansion of the position has the velocity as its first and
      half the acceleration as its second coefficient. */
  lemma Taylor(t: real, d: real)
    ensures Pos(t + d) == Pos(t) + d * Vel(t) + (d * d) * (Acc(t) / 2.0)
              + (d * d * d) * (10.0 - 60.0 * t + 60.0 * (t * t) + d * (30.0 * t - 15.0) + 6.0 * (d * d))
  {
    PosForm(t);
    PosForm(t + d);
    VelForm(t);
    AccForm(t);
    TaylorForm(t, d, t + d, Pos(t + d), Pos(t), Vel(t), Acc(t));
  }

  lemma TaylorForm(t: real, d: real, u: real, p: real, p0: real, v0: real, a0: real)
    requires u == t + d && p == 10.0 * (u * u * u) - 15.0 * (u * u * u * u) + 6.0 * (u * u * u * u * u)
    requires p0 == 10.0 * (t * t * t) - 15.0 * (t * t * t * t) + 6.0 * (t * t * t * t * t)
    requires v0 == 30.0 * (t * t) - 60.0 * (t * t * t) + 30.0 * (t * t * t * t)
    requires a0 == 60.0 * t - 180.0 * (t * t) + 120.0 * (t * t * t)
    ensures p == p0 + d * v0 + (d * d) * (a0 / 2.0)
              + (d * d * d) * (10.0 - 60.0 * t + 60.0 * (t * t) + d * (30.0 * t - 15.0) + 6.0 * (d * d))
  {
  }

  // ----- Joint-space plan -----

  /** Number of steps: the product truncated toward zero. */
  function NumSteps(timeToGo: real, hz: real): int {
    var x := timeToGo * hz;
    if x >= 0.0 then x.Floor else -(-x).Floor
  }

  /** The i-th of n evenly spaced times from 0 to 1. */
  function TimeAt(i: nat, n: nat): (t: real)
    requires 1 < n && i < n
  {
    i as real / (n - 1) as real
  }

  lemma TimesOrdered(i: nat, n: nat)
    requires 1 < n && i < n
    ensures 0.0 <= TimeAt(i, n) <= 1.0
    ensures TimeAt(0, n) == 0.0 && TimeAt(n - 1, n) == 1.0
    ensures i + 1 < n ==> TimeAt(i + 1, n) - TimeAt(i, n) == 1.0 / (n - 1) as real
  {
  }

  /** The waypoint at fraction `p` of the way, with rates `v` and `a`. */
  function At(start: Joints, goal: Joints, time: real, p: real, v: real, a: real): (w: Waypoint)
    requires |start| == |goal|
    ensures |w.position| == |w.velocity| == |w.acceleration| == |start|
  {
    Waypoint(
      time,
      seq(|start|, j requires 0 <= j < |start| => start[j] + (goal[j] - start[j]) * p),
      seq(|start|, j requires 0 <= j < |start| => (goal[j] - start[j]) * v),
      seq(|start|, j requires 0 <= j < |start| => (goal[j] - start[j]) * a))
  }

  /** The i-th waypoint, which is at fraction `t` of the duration. */
  function PlanAt(start: Joints, goal: Joints, timeToGo: real, hz: real, i: nat, t: real): (w: Waypoint)
    requires |start| == |goal| && timeToGo != 0.0 && hz != 0.0
    ensures |w.position| == |w.velocity| == |w.acceleration| == |start|
  {
    Squared(timeToGo);
    At(start, goal, i as real * (1.0 / hz), Pos(t), Vel(t) / timeToGo, Acc(t) / Power(timeToGo, 2))
  }

  lemma Squared(x: real)
    requires x != 0.0
    ensures Power(x, 2) != 0.0
  {
    assert Power(x, 1) == x * Power(x, 0) == x;
    assert Power(x, 2) == x * Power(x, 1) == x * x;
    if x > 0.0 {
      Positive(x, x);
    } else {
      Positive(-x, -x);
    }
  }

  /** None stands for the planner's assertion (fewer than two steps), for the division by a zero
      frequency and for joint vectors of different lengths. */
  function JointPlan(start: Joints, goal: Joints, timeToGo: real, hz: real): Option<seq<Waypoint>> {
    var n := NumSteps(timeToGo, hz);
    if n <= 1 || |start| != |goal| then None
    else
      NonZeroFactors(timeToGo, hz);
      Some(seq(n, i requires 0 <= i < n => PlanAt(start, goal, timeToGo, hz, i, TimeAt(i, n))))
  }

  lemma NonZeroFactors(timeToGo: real, hz: real)
    requires NumSteps(timeToGo, hz) > 1
    ensures timeToGo != 0.0 && hz != 0.0
  {
  }

  lemma PlanIs(start: Joints, goal: Joints, timeToGo: real, hz: real, i: nat)
    requires JointPlan(start, goal, timeToGo, hz).Some? && i < NumSteps(timeToGo, hz)
    ensures timeToGo != 0.0 && hz != 0.0 && |JointPlan(start, goal, timeToGo, hz).value| == NumSteps(timeToGo, hz)
    ensures JointPlan(start, goal, timeToGo, hz).value[i]
              == PlanAt(start, goal, timeToGo, hz, i, TimeAt(i, NumSteps(timeToGo, hz)))
  {
    NonZeroFactors(timeToGo, hz);
  }

  // ----- Properties of the plan -----

  ghost predicate AtRestAt(w: Waypoint, q: Joints) {
    && w.position == q && |w.velocity| == |w.acceleration| == |q|
    && forall j :: 0 <= j < |q| ==> w.velocity[j] == 0.0 && w.acceleration[j] == 0.0
  }

  /** The plan exists iff there is time for two steps and the joint vectors agree; it has a waypoint for each whole step
      that there is time for. */
  lemma PlanLength(start: Joints, goal: Joints, timeToGo: real, hz: real)
    ensures JointPlan(start, goal, timeToGo, hz).Some? <==> timeToGo * hz >= 2.0 && |start| == |goal|
    ensures var plan := JointPlan(start, goal, timeToGo, hz);
            plan.Some? ==> |plan.value| as real <= timeToGo * hz < |plan.value| as real + 1.0
  {
    Truncated(timeToGo, hz);
  }

  lemma Truncated(timeToGo: real, hz: real)
    ensures NumSteps(timeToGo, hz) > 1 <==> timeToGo * hz >= 2.0
    ensures timeToGo * hz >= 0.0 ==>
              NumSteps(timeToGo, hz) as real <= timeToGo * hz < NumSteps(timeToGo, hz) as real + 1.0
  {
  }

  /** Waypoints are one period of the frequency apart. */
  lemma PlanTimes(start: Joints, goal: Joints, timeToGo: real, hz: real, i: nat)
    requires JointPlan(start, goal, timeToGo, hz).Some? && i < |JointPlan(start, goal, timeToGo, hz).value|
    ensures JointPlan(start, goal, timeToGo, hz).value[i].time * hz == i as real
  {
    PlanIs(start, goal, timeToGo, hz, i);
    assert i as real * (1.0 / hz) * hz == i as real;
  }

  /** The plan exists iff there is time for two steps and the joint vectors agree; it starts and ends at
      rest, at the start and at the goal. */
  lemma PlanEndpoints(start: Joints, goal: Joints, timeToGo: real, hz: real)
    ensures JointPlan(start, goal, timeToGo, hz).Some? <==> timeToGo * hz >= 2.0 && |start| == |goal|
    ensures var plan := JointPlan(start, goal, timeToGo, hz);
            plan.Some? ==>
              && AtRestAt(plan.value[0], start) && AtRestAt(plan.value[|plan.value| - 1], goal)
  {
    Truncated(timeToGo, hz);
    var n := NumSteps(timeToGo, hz);
    if n > 1 && |start| == |goal| {
      PlanIs(start, goal, timeToGo, hz, 0);
      PlanIs(start, goal, timeToGo, hz, n - 1);
      TimesOrdered(0, n);
      EndWaypoint(start, goal, timeToGo, hz, 0, 0.0);
      EndWaypoint(start, goal, timeToGo, hz, n - 1, 1.0);
    }
  }

  lemma EndWaypoint(start: Joints, goal: Joints, timeToGo: real, hz: real, i: nat, t: real)
    requires |start| == |goal| && (t == 0.0 || t == 1.0) && timeToGo != 0.0 && hz != 0.0
    ensures AtRestAt(PlanAt(start, goal, timeToGo, hz, i, t), if t == 0.0 then start else goal)
  {
    var p, u, b := RestRates(t, timeToGo);
    PlanAtRates(start, goal, timeToGo, hz, i, t, p, u, b);
    EndAt(start, goal, i as real * (1.0 / hz), p, u, b);
  }

  lemma RestRates(t: real, timeToGo: real) returns (p: real, u: real, b: real)
    requires (t == 0.0 || t == 1.0) && timeToGo != 0.0
    ensures Power(timeToGo, 2) != 0.0
    ensures p == Pos(t) && u == Vel(t) / timeToGo && b == Acc(t) / Power(timeToGo, 2)
    ensures p == t && u == 0.0 && b == 0.0
  {
    Squared(timeToGo);
    p := RestPos(t);
    u := RestVel(t, timeToGo);
    b := RestAcc(t, Power(timeToGo, 2));
  }

  lemma RestPos(t: real) returns (p: real)
    requires t == 0.0 || t == 1.0
    ensures p == Pos(t) && p == t
  {
    PosForm(t);
    p := t;
  }

  lemma RestVel(t: real, x: real) returns (u: real)
    requires (t == 0.0 || t == 1.0) && x != 0.0
    ensures u == Vel(t) / x && u == 0.0
  {
    VelForm(t);
    u := ZeroQuotient(Vel(t), x);
  }

  lemma RestAcc(t: real, x: real) returns (b: real)
    requires (t == 0.0 || t == 1.0) && x != 0.0
    ensures b == Acc(t) / x && b == 0.0
  {
    AccForm(t);
    b := ZeroQuotient(Acc(t), x);
  }

  lemma PlanAtRates(start: Joints, goal: Joints, timeToGo: real, hz: real, i: nat, t: real, p: real, u: real, b: real)
    requires |start| == |goal| && timeToGo != 0.0 && hz != 0.0 && Power(timeToGo, 2) != 0.0
    requires p == Pos(t) && u == Vel(t) / timeToGo && b == Acc(t) / Power(timeToGo, 2)
    ensures PlanAt(start, goal, timeToGo, hz, i, t) == At(start, goal, i as real * (1.0 / hz), p, u, b)
  {
  }

  lemma EndAt(start: Joints, goal: Joints, time: real, p: real, v: real, a: real)
    requires |start| == |goal| && (p == 0.0 || p == 1.0) && v == 0.0 && a == 0.0
    ensures AtRestAt(At(start, goal, time, p, v, a), if p == 0.0 then start else goal)
  {
  }

  lemma ZeroQuotient(z: real, x: real) returns (r: real)
    requires z == 0.0 && x != 0.0
    ensures r == z / x && r == 0.0
  {
    r := 0.0;
  }

  /** From one waypoint to the next every joint moves toward the goal, by at most 15/8 of the average
      step, and never leaves the segment from start to goal. */
  lemma PlanSteps(start: Joints, goal: Joints, timeToGo: real, hz: real, i: nat, j: nat)
    requires JointPlan(start, goal, timeToGo, hz).Some? && j < |start|
    requires i + 1 < |JointPlan(start, goal, timeToGo, hz).value|
    ensures var w := JointPlan(start, goal, timeToGo, hz).value;
            && |w[i].position| == |w[i + 1].position| == |start|
            && MovesWithin(start[j], goal[j], w[i].position[j], w[i + 1].position[j],
                           15.0 / 8.0 * (1.0 / (|w| - 1) as real))
  {
    var n := NumSteps(timeToGo, hz);
    var a, p := PositionOf(start, goal, timeToGo, hz, i, j);
    var b, q := PositionOf(start, goal, timeToGo, hz, i + 1, j);
    Fractions(n, i, p, q);
    SegmentStep(start[j], goal[j], p, q, 15.0 / 8.0 * (1.0 / (n - 1) as real), a, b);
  }

  lemma AtValues(start: Joints, goal: Joints, time: real, p: real, v: real, a: real, j: nat)
    requires |start| == |goal| && j < |start|
    ensures At(start, goal, time, p, v, a).position[j] == start[j] + (goal[j] - start[j]) * p
    ensures At(start, goal, time, p, v, a).velocity[j] == (goal[j] - start[j]) * v
    ensures At(start, goal, time, p, v, a).acceleration[j] == (goal[j] - start[j]) * a
  {
  }

  lemma PlanPosition(start: Joints, goal: Joints, timeToGo: real, hz: real, i: nat, t: real, j: nat, p: real)
    returns (x: real)
    requires |start| == |goal| && timeToGo != 0.0 && hz != 0.0 && j < |start|
    requires p == Pos(t)
    ensures x == PlanAt(start, goal, timeToGo, hz, i, t).position[j] && x == start[j] + (goal[j] - start[j]) * p
  {
    x := start[j] + (goal[j] - start[j]) * p;
    Squared(timeToGo);
    AtValues(start, goal, i as real * (1.0 / hz), p, Vel(t) / timeToGo, Acc(t) / Power(timeToGo, 2), j);
  }

  lemma PlanVelocity(start: Joints, goal: Joints, timeToGo: real, hz: real, i: nat, t: real, j: nat, v: real)
    returns (x: real)
    requires |start| == |goal| && timeToGo != 0.0 && hz != 0.0 && j < |start|
    requires v == Vel(t) / timeToGo
    ensures x == PlanAt(start, goal, timeToGo, hz, i, t).velocity[j] && x == (goal[j] - start[j]) * v
  {
    x := (goal[j] - start[j]) * v;
    Squared(timeToGo);
    AtValues(start, goal, i as real * (1.0 / hz), Pos(t), v, Acc(t) / Power(timeToGo, 2), j);
  }

  lemma PlanAcceleration(start: Joints, goal: Joints, timeToGo: real, hz: real, i: nat, t: real, j: nat, a: real)
    returns (x: real)
    requires |start| == |goal| && timeToGo != 0.0 && hz != 0.0 && j < |start|
    requires Power(timeToGo, 2) != 0.0 && a == Acc(t) / Power(timeToGo, 2)
    ensures x == PlanAt(start, goal, timeToGo, hz, i, t).acceleration[j] && x == (goal[j] - start[j]) * a
  {
    x := (goal[j] - start[j]) * a;
    AtValues(start, goal, i as real * (1.0 / hz), Pos(t), Vel(t) / timeToGo, a, j);
  }

  /** What the velocity and the acceleration of a waypoint leave unsaid about another one, as a fraction of the way;
      `s` is the part of the duration between them. */
  function Remainder(t: real, s: real): real {
    s * s * s * (10.0 - 60.0 * t + 60.0 * (t * t) + s * (30.0 * t - 15.0) + 6.0 * (s * s))
  }

  /** Positions, velocities and accelerations of a plan are one motion in time: from any waypoint every other position
      follows by the expansion in the time `h` between them, exactly up to a cubic remainder. Times are measured on
      the duration `timeToGo`, which the last waypoint reaches. */
  lemma PlanIsMotion(start: Joints, goal: Joints, timeToGo: real, hz: real, i: nat, k: nat, j: nat)
    requires JointPlan(start, goal, timeToGo, hz).Some? && j < |start|
    requires i < |JointPlan(start, goal, timeToGo, hz).value| && k < |JointPlan(start, goal, timeToGo, hz).value|
    ensures var w := JointPlan(start, goal, timeToGo, hz).value;
            |w[i].position| == |w[k].position| == |w[i].velocity| == |w[i].acceleration| == |start|
    ensures var w := JointPlan(start, goal, timeToGo, hz).value;
            var n := |w|;
            n > 1 && IsMotion(
              w[k].position[j], w[i].position[j], w[i].velocity[j], w[i].acceleration[j], goal[j] - start[j], timeToGo,
              i as real / (n - 1) as real, k as real / (n - 1) as real - i as real / (n - 1) as real)
  {
    var n := NumSteps(timeToGo, hz);
    PlanIs(start, goal, timeToGo, hz, i);
    PlanIs(start, goal, timeToGo, hz, k);
    var t, u := TimeAt(i, n), TimeAt(k, n);
    var v, a := Rates(t, timeToGo);
    var xi := PlanPosition(start, goal, timeToGo, hz, i, t, j, Pos(t));
    var xk := PlanPosition(start, goal, timeToGo, hz, k, u, j, Pos(u));
    var xv := PlanVelocity(start, goal, timeToGo, hz, i, t, j, v);
    var xa := PlanAcceleration(start, goal, timeToGo, hz, i, t, j, a);
    TaylorBetween(t, u);
    MotionOf(start[j], goal[j] - start[j], timeToGo, t, u - t, v, a, Pos(t), Pos(u), Vel(t), Acc(t), xi, xk, xv, xa);
  }

  predicate IsMotion(xk: real, xi: real, v: real, a: real, d: real, timeToGo: real, t: real, s: real) {
    var h := timeToGo * s;
    xk == xi + h * v + h * h * (a / 2.0) + d * Remainder(t, s)
  }

  lemma Rates(t: real, timeToGo: real) returns (v: real, a: real)
    requires timeToGo != 0.0
    ensures Power(timeToGo, 2) != 0.0 && v == Vel(t) / timeToGo && a == Acc(t) / Power(timeToGo, 2)
    ensures timeToGo * v == Vel(t) && timeToGo * timeToGo * a == Acc(t)
  {
    Squared(timeToGo);
    Powers(timeToGo);
    v := Quotient(Vel(t), timeToGo);
    a := Quotient(Acc(t), Power(timeToGo, 2));
  }

  lemma Quotient(x: real, y: real) returns (q: real)
    requires y != 0.0
    ensures q == x / y && y * q == x
  {
    q := x / y;
  }

  lemma MotionOf(
    x: real, d: real, timeToGo: real, t: real, s: real, v: real, a: real, p0: real, p: real, v0: real, a0: real,
    xi: real, xk: real, xv: real, xa: real)
    requires timeToGo * v == v0 && timeToGo * timeToGo * a == a0 && Expands(p0, p, v0, a0, t, s)
    requires xi == x + d * p0 && xk == x + d * p && xv == d * v && xa == d * a
    ensures IsMotion(xk, xi, xv, xa, d, timeToGo, t, s)
  {
    var r := RemainderOf(p0, p, v0, a0, t, s);
    Expanded(x, d, timeToGo, s, v, a, p0, p, v0, a0, r);
    Renamed(xk, xi, xv, xa, d, timeToGo * s, x, v, a, p0, p, r);
    MotionIs(xk, xi, xv, xa, d, timeToGo, t, s, r);
  }

  predicate Expands(p0: real, p: real, v0: real, a0: real, t: real, s: real) {
    p == p0 + s * v0 + s * s * (a0 / 2.0) + Remainder(t, s)
  }

  lemma RemainderOf(p0: real, p: real, v0: real, a0: real, t: real, s: real) returns (r: real)
    requires Expands(p0, p, v0, a0, t, s)
    ensures r == Remainder(t, s) && p == p0 + s * v0 + s * s * (a0 / 2.0) + r
  {
    r := Remainder(t, s);
  }

  lemma MotionIs(xk: real, xi: real, v: real, a: real, d: real, timeToGo: real, t: real, s: real, r: real)
    requires r == Remainder(t, s)
    requires var h := timeToGo * s; xk == xi + h * v + h * h * (a / 2.0) + d * r
    ensures IsMotion(xk, xi, v, a, d, timeToGo, t, s)
  {
  }

  lemma TaylorBetween(t: real, u: real)
    ensures Expands(Pos(t), Pos(u), Vel(t), Acc(t), t, u - t)
  {
    PosForm(t);
    PosForm(u);
    VelForm(t);
    AccForm(t);
    TaylorForm(t, u - t, u, Pos(u), Pos(t), Vel(t), Acc(t));
    ExpandsForm(Pos(t), Pos(u), Vel(t), Acc(t), t, u - t);
  }

  lemma ExpandsForm(p0: real, p: real, v0: real, a0: real, t: real, d: real)
    requires p == p0 + d * v0 + (d * d) * (a0 / 2.0)
               + (d * d * d) * (10.0 - 60.0 * t + 60.0 * (t * t) + d * (30.0 * t - 15.0) + 6.0 * (d * d))
    ensures Expands(p0, p, v0, a0, t, d)
  {
  }

  lemma Renamed(
    xk: real, xi: real, xv: real, xa: real, d: real, h: real, x: real, v: real, a: real, p0: real, p: real, r: real)
    requires xi == x + d * p0 && xk == x + d * p && xv == d * v && xa == d * a
    requires x + d * p == x + d * p0 + h * (d * v) + h * h * (d * a / 2.0) + d * r
    ensures xk == xi + h * xv + h * h * (xa / 2.0) + d * r
  {
  }

  lemma Expanded(
    x: real, d: real, timeToGo: real, s: real, v: real, a: real, p0: real, p: real, v0: real, a0: real, r: real)
    requires timeToGo * v == v0 && timeToGo * timeToGo * a == a0
    requires p == p0 + s * v0 + s * s * (a0 / 2.0) + r
    ensures var h := timeToGo * s;
            x + d * p == x + d * p0 + h * (d * v) + h * h * (d * a / 2.0) + d * r
  {
    FirstOrder(d, timeToGo, s, v, v0);
    SecondOrder(d, timeToGo, s, a, a0);
    Spread(d, p0, s * v0, s * s * (a0 / 2.0), r);
  }

  lemma Spread(d: real, a: real, b: real, c: real, e: real)
    ensures d * (a + b + c + e) == d * a + d * b + d * c + d * e
  {
  }

  lemma FirstOrder(d: real, timeToGo: real, s: real, v: real, v0: real)
    requires timeToGo * v == v0
    ensures d * (s * v0) == timeToGo * s * (d * v)
  {
  }

  lemma SecondOrder(d: real, timeToGo: real, s: real, a: real, a0: real)
    requires timeToGo * timeToGo * a == a0
    ensures var h := timeToGo * s; d * (s * s * (a0 / 2.0)) == h * h * (d * a / 2.0)
  {
    calc {
      timeToGo * s * (timeToGo * s) * (d * a / 2.0);
      d * (s * s * (timeToGo * timeToGo * a / 2.0));
    }
  }

  /** The step from `a` to `b` stays in the segment from `x` to `y`, does not turn back, and covers at
      most the fraction `k` of it. */
  predicate MovesWithin(x: real, y: real, a: real, b: real, k: real) {
    && Abs(b - a) <= k * Abs(y - x)
    && (x <= y ==> x <= a <= b <= y)
    && (y <= x ==> y <= b <= a <= x)
  }

  /** Position `x` of joint `j` at a waypoint, at fraction `p` of the way. */
  lemma PositionOf(start: Joints, goal: Joints, timeToGo: real, hz: real, i: nat, j: nat) returns (x: real, p: real)
    requires JointPlan(start, goal, timeToGo, hz).Some? && |start| == |goal| && j < |start|
    requires i < |JointPlan(start, goal, timeToGo, hz).value|
    ensures |JointPlan(start, goal, timeToGo, hz).value| == NumSteps(timeToGo, hz) > 1
    ensures var w := JointPlan(start, goal, timeToGo, hz).value[i]; |w.position| == |start| && x == w.position[j]
    ensures p == Pos(TimeAt(i, NumSteps(timeToGo, hz))) && x == start[j] + (goal[j] - start[j]) * p
  {
    PlanIs(start, goal, timeToGo, hz, i);
    p := Pos(TimeAt(i, NumSteps(timeToGo, hz)));
    x := PlanPosition(start, goal, timeToGo, hz, i, TimeAt(i, NumSteps(timeToGo, hz)), j, p);
  }

  lemma Fractions(n: nat, i: nat, p: real, q: real)
    requires 1 < n && i + 1 < n
    requires p == Pos(TimeAt(i, n)) && q == Pos(TimeAt(i + 1, n))
    ensures 0.0 <= p <= q <= 1.0 && q - p <= 15.0 / 8.0 * (1.0 / (n - 1) as real)
  {
    TimesOrdered(i, n);
    TimesOrdered(i + 1, n);
    ProfileOrder(TimeAt(i, n), TimeAt(i + 1, n));
  }

  lemma ProfileOrder(s: real, t: real)
    requires 0.0 <= s <= t <= 1.0
    ensures 0.0 <= Pos(s) <= Pos(t) <= 1.0 && Pos(t) - Pos(s) <= 15.0 / 8.0 * (t - s)
  {
    ProfileStep(0.0, s);
    ProfileStep(s, t);
    ProfileStep(t, 1.0);
    PosForm(0.0);
    PosForm(1.0);
  }

  lemma SegmentStep(x: real, y: real, p: real, q: real, k: real, a: real, b: real)
    requires 0.0 <= p <= q <= 1.0 && q - p <= k && a == x + (y - x) * p && b == x + (y - x) * q
    ensures MovesWithin(x, y, a, b, k)
  {
    var d := Abs(y - x);
    Product(d, p);
    Product(d, q - p);
    Product(d, 1.0 - q);
    Product(d, k - (q - p));
  }

  // ----- Adaptive duration -----

  /** Largest of the per-joint durations at an eighth of the velocity limit, but at least the default. */
  function AdaptiveTime(displacement: Joints, limits: Joints, default: real): real
    requires |displacement| == |limits| && forall j :: 0 <= j < |limits| ==> limits[j] > 0.0
  {
    if displacement == [] then default
    else
      var rest := AdaptiveTime(displacement[1..], limits[1..], default);
      var own := Abs(displacement[0]) / limits[0] * 8.0;
      if own > rest then own else rest
  }

  /** The adaptive duration is the least one that is no shorter than the default and lets no joint exceed
      an eighth of its limit on average. */
  lemma {:induction false} AdaptiveTimeIsLeast(displacement: Joints, limits: Joints, default: real, t: real)
    requires |displacement| == |limits| && forall j :: 0 <= j < |limits| ==> limits[j] > 0.0
    ensures t >= AdaptiveTime(displacement, limits, default) <==>
              t >= default && AverageWithin(displacement, limits, t)
  {
    if displacement == [] {
    } else {
      AdaptiveTimeIsLeast(displacement[1..], limits[1..], default, t);
      AdaptiveStep(displacement, limits, default, t);
      AverageStep(displacement, limits, t);
    }
  }

  lemma AdaptiveStep(displacement: Joints, limits: Joints, default: real, t: real)
    requires |displacement| == |limits| && displacement != [] && forall j :: 0 <= j < |limits| ==> limits[j] > 0.0
    ensures t >= AdaptiveTime(displacement, limits, default) <==>
              && Abs(displacement[0]) <= t * (limits[0] / 8.0)
              && t >= AdaptiveTime(displacement[1..], limits[1..], default)
  {
    DivideOut(Abs(displacement[0]), limits[0], t);
  }

  ghost predicate AverageWithin(displacement: Joints, limits: Joints, t: real)
    requires |displacement| == |limits|
  {
    forall j :: 0 <= j < |limits| ==> Abs(displacement[j]) <= t * (limits[j] / 8.0)
  }

  lemma AverageStep(displacement: Joints, limits: Joints, t: real)
    requires |displacement| == |limits| && displacement != []
    ensures AverageWithin(displacement, limits, t) <==>
              Abs(displacement[0]) <= t * (limits[0] / 8.0) && AverageWithin(displacement[1..], limits[1..], t)
  {
    forall j | 1 <= j < |limits|
      ensures limits[j] == limits[1..][j - 1] && displacement[j] == displacement[1..][j - 1]
    {
    }
  }

  lemma DivideOut(d: real, l: real, t: real)
    requires l > 0.0
    ensures t >= d / l * 8.0 <==> d <= t * (l / 8.0)
  {
    var q := d / l;
    assert q * l == d;
    if t >= q * 8.0 {
      Product(t - q * 8.0, l);
    } else {
      Product(q * 8.0 - t, l);
      Positive(q * 8.0 - t, l);
    }
  }

  lemma Positive(x: real, y: real)
    requires x > 0.0 && y > 0.0
    ensures x * y > 0.0
  {
  }

  /** With at least the adaptive duration, no waypoint velocity exceeds 15/64 of its joint's limit. */
  lemma VelocityWithinLimit(
    start: Joints, goal: Joints, limits: Joints, default: real, timeToGo: real, hz: real, i: nat, j: nat)
    requires |start| == |goal| == |limits| && forall k :: 0 <= k < |limits| ==> limits[k] > 0.0
    requires timeToGo >= AdaptiveTime(Displacement(start, goal), limits, default)
    requires JointPlan(start, goal, timeToGo, hz).Some? && j < |start|
    requires i < |JointPlan(start, goal, timeToGo, hz).value|
    ensures var w := JointPlan(start, goal, timeToGo, hz).value[i];
            |w.velocity| == |start| && Abs(w.velocity[j]) <= 15.0 / 64.0 * limits[j]
  {
    EnoughTime(start, goal, limits, default, timeToGo, j);
    VelocityBound(start, goal, timeToGo, hz, i, j, limits[j]);
  }

  lemma VelocityBound(start: Joints, goal: Joints, timeToGo: real, hz: real, i: nat, j: nat, limit: real)
    requires JointPlan(start, goal, timeToGo, hz).Some? && |start| == |goal| && j < |start| && limit > 0.0
    requires i < |JointPlan(start, goal, timeToGo, hz).value|
    requires Abs(goal[j] - start[j]) <= timeToGo * (limit / 8.0)
    ensures var w := JointPlan(start, goal, timeToGo, hz).value[i];
            |w.velocity| == |start| && Abs(w.velocity[j]) <= 15.0 / 64.0 * limit
  {
    var v, x := VelocityOf(start, goal, timeToGo, hz, i, j);
    ScaledVelocity(goal[j] - start[j], v, timeToGo, limit, x);
  }

  lemma EnoughTime(start: Joints, goal: Joints, limits: Joints, default: real, t: real, j: nat)
    requires |start| == |goal| == |limits| && forall k :: 0 <= k < |limits| ==> limits[k] > 0.0
    requires t >= AdaptiveTime(Displacement(start, goal), limits, default) && j < |start|
    ensures Abs(goal[j] - start[j]) <= t * (limits[j] / 8.0)
  {
    AdaptiveTimeIsLeast(Displacement(start, goal), limits, default, t);
    assert Abs(Displacement(start, goal)[j]) <= t * (limits[j] / 8.0);
  }

  lemma VelocityOf(start: Joints, goal: Joints, timeToGo: real, hz: real, i: nat, j: nat) returns (v: real, x: real)
    requires JointPlan(start, goal, timeToGo, hz).Some? && |start| == |goal| && j < |start|
    requires i < |JointPlan(start, goal, timeToGo, hz).value|
    ensures var w := JointPlan(start, goal, timeToGo, hz).value[i]; |w.velocity| == |start| && x == w.velocity[j]
    ensures timeToGo != 0.0 && x == (goal[j] - start[j]) * v && 0.0 <= v * timeToGo <= 15.0 / 8.0
  {
    var n := NumSteps(timeToGo, hz);
    PlanIs(start, goal, timeToGo, hz, i);
    v := PlanRate(n, i, timeToGo);
    x := PlanVelocity(start, goal, timeToGo, hz, i, TimeAt(i, n), j, v);
  }

  lemma PlanRate(n: nat, i: nat, timeToGo: real) returns (v: real)
    requires 1 < n && i < n && timeToGo != 0.0
    ensures v == Vel(TimeAt(i, n)) / timeToGo && 0.0 <= v * timeToGo <= 15.0 / 8.0
  {
    TimesOrdered(i, n);
    ProfileVel(TimeAt(i, n));
    v := Rate(Vel(TimeAt(i, n)), timeToGo);
  }

  lemma Rate(v: real, t: real) returns (u: real)
    requires t != 0.0 && 0.0 <= v <= 15.0 / 8.0
    ensures u == v / t && 0.0 <= u * t <= 15.0 / 8.0
  {
    u := v / t;
  }

  function Displacement(start: Joints, goal: Joints): (r: Joints)
    requires |start| == |goal|
    ensures |r| == |start| && forall j :: 0 <= j < |r| ==> r[j] == goal[j] - start[j]
  {
    seq(|start|, j requires 0 <= j < |start| => goal[j] - start[j])
  }

  lemma ScaledVelocity(d: real, u: real, t: real, l: real, x: real)
    requires t != 0.0 && l > 0.0 && 0.0 <= u * t <= 15.0 / 8.0 && Abs(d) <= t * (l / 8.0)
    requires x == d * u
    ensures Abs(x) <= 15.0 / 64.0 * l
  {
    if t < 0.0 {
      Positive(-t, l / 8.0);
      assert false;
    }
    if u < 0.0 {
      Positive(-u, t);
      assert false;
    }
    Product(u, t * (l / 8.0) - d);
    Product(u, t * (l / 8.0) + d);
    Product(15.0 / 8.0 - u * t, l / 8.0);
  }
}
