/** What the safety controller does to the torques that the Franka client applies: laws about the result of its
    control callback (polymetis/src/clients/franka_panda_client/franka_panda_client.cpp). */
module AppliedTorques {
  import opened Arithmetic
  import opened FrankaClients
  import opened SafetyLimits
  import opened Wrappers

  /** The client controls the robot with an active safety controller. */
  predicate Guarded(c: Config) {
    c.reflexActive && !c.mock
  }

  /** The end effector is outside all margin bands. */
  predicate HandFree(c: Config, m: Measurement)
    requires WellFormed(c) && Complete(m)
  {
    forall r :: 0 <= r < 3 ==> Inside(m.eePos[r], c.cartesianLower[r], c.cartesianUpper[r], c.marginCartesian)
  }

  /** The final clamp leaves the torque alone. */
  predicate Unclamped(c: Config, tau: real, i: nat)
    requires WellFormed(c) && i < NUM_DOFS
  {
    -c.jointTorques[i] < tau < c.jointTorques[i]
  }

  /** `push` is how a limit pushes back: against the direction of the violation, as a spring that begins at the
      margin; nothing outside the margins. The upper band comes first where the two overlap. */
  predicate PushesBack(push: real, v: real, lo: real, hi: real, margin: real, k: real) {
    && (v > hi - margin ==> push == -(k * (v - (hi - margin))))
    && (v <= hi - margin && v < lo + margin ==> push == k * (lo + margin - v))
    && (Inside(v, lo, hi, margin) ==> push == 0.0)
  }

  /** There is exactly one such push. */
  lemma PushIs(push: real, v: real, lo: real, hi: real, margin: real, k: real)
    ensures PushesBack(push, v, lo, hi, margin, k) <==> push == SoftTorque(true, v, lo, hi, margin, k)
  {
    assert margin + (v - hi) == v - (hi - margin) && margin + (lo - v) == lo + margin - v;
  }

  /** With the end effector outside its margins, the callback changes the torque of a joint by exactly what the limits
      of its position and of its velocity push back. */
  lemma JointPushedBack(c: Config, commanded: seq<real>, m: Measurement, i: nat, p: real, w: real)
    requires WellFormed(c) && Complete(m) && |commanded| == NUM_DOFS && i < NUM_DOFS && Guarded(c)
    requires HandFree(c, m) && Unclamped(c, Applied(c, commanded, m, i), i)
    requires PushesBack(p, m.q[i], c.jointLower[i], c.jointUpper[i], c.marginJoint, c.kJoint)
    requires PushesBack(w, m.dq[i], -c.jointVel[i], c.jointVel[i], c.marginVel, c.kVel)
    ensures Applied(c, commanded, m, i) - commanded[i] == p + w
  {
    NoForce(c, m, i);
    PushIs(p, m.q[i], c.jointLower[i], c.jointUpper[i], c.marginJoint, c.kJoint);
    PushIs(w, m.dq[i], -c.jointVel[i], c.jointVel[i], c.marginVel, c.kVel);
  }

  lemma NoForce(c: Config, m: Measurement, i: nat)
    requires WellFormed(c) && Complete(m) && i < NUM_DOFS && HandFree(c, m)
    ensures Torque(m, i, Force(c, m, 0), Force(c, m, 1), Force(c, m, 2)) == 0.0
  {
    forall r: nat | r < 3 ensures Force(c, m, r) == 0.0 {
      NoReflex(c.reflexActive, m.eePos[r], c.cartesianLower[r], c.cartesianUpper[r], c.marginCartesian, c.kCartesian);
    }
    ZeroForce(m.jacobian[0][i], m.jacobian[1][i], m.jacobian[2][i], Force(c, m, 0), Force(c, m, 1), Force(c, m, 2));
  }

  /** In mock mode, or with the safety controller off, an admissible command is applied unchanged, wherever the robot
      is. */
  lemma PassiveUnchanged(c: Config, commanded: seq<real>, m: Measurement, i: nat)
    requires WellFormed(c) && Complete(m) && |commanded| == NUM_DOFS && i < NUM_DOFS
    requires c.mock || !c.reflexActive
    requires -c.jointTorques[i] <= commanded[i] <= c.jointTorques[i]
    ensures Applied(c, commanded, m, i) == commanded[i]
  {
    ZeroForce(m.jacobian[0][i], m.jacobian[1][i], m.jacobian[2][i], 0.0, 0.0, 0.0);
  }

  // ----- Negative feedback -----

  /** The further a joint is, or the faster, the smaller the torque that is applied to it, in every configuration and
      wherever the margin bands lie; the torques of the other joints do not change. */
  lemma AppliedMonotone(c: Config, commanded: seq<real>, m: Measurement, i: nat, q: real, dq: real, j: nat)
    requires WellFormed(c) && Complete(m) && |commanded| == NUM_DOFS && i < NUM_DOFS && j < NUM_DOFS
    requires c.kJoint >= 0.0 && c.kVel >= 0.0 && m.q[i] <= q && m.dq[i] <= dq
    ensures var further := m.(q := m.q[i := q], dq := m.dq[i := dq]);
            && Complete(further)
            && Applied(c, commanded, further, i) <= Applied(c, commanded, m, i)
            && (j != i ==> Applied(c, commanded, further, j) == Applied(c, commanded, m, j))
  {
    ReflexMonotone(m.q[i], q, c.jointLower[i], c.jointUpper[i], c.marginJoint, c.kJoint);
    ReflexMonotone(m.dq[i], dq, -c.jointVel[i], c.jointVel[i], c.marginVel, c.kVel);
    var further := m.(q := m.q[i := q], dq := m.dq[i := dq]);
    SameForce(c, m, further, i);
    SameForce(c, m, further, j);
  }

  lemma SameForce(c: Config, m: Measurement, n: Measurement, j: nat)
    requires WellFormed(c) && Complete(m) && Complete(n) && j < NUM_DOFS
    requires m.eePos == n.eePos && m.jacobian == n.jacobian
    ensures Torque(m, j, Force(c, m, 0), Force(c, m, 1), Force(c, m, 2))
         == Torque(n, j, Force(c, n, 0), Force(c, n, 1), Force(c, n, 2))
  {
  }

  // ----- Virtual work -----

  /** The velocity of the end effector along axis `r` for joint velocities `v`, from the first `n` joints. */
  ghost function HandVelocity(m: Measurement, r: nat, v: seq<real>, n: nat): real
    requires Complete(m) && r < 3 && |v| == NUM_DOFS && n <= NUM_DOFS
  {
    if n == 0 then 0.0 else HandVelocity(m, r, v, n - 1) + m.jacobian[r][n - 1] * v[n - 1]
  }

  /** The power that the first `n` joints' changes of torque put in at joint velocities `v`. */
  ghost function Power(applied: seq<real>, commanded: seq<real>, v: seq<real>, n: nat): real
    requires |applied| == |commanded| == |v| && n <= |v|
  {
    if n == 0 then 0.0 else Power(applied, commanded, v, n - 1) + (applied[n - 1] - commanded[n - 1]) * v[n - 1]
  }

  ghost predicate IsApplied(c: Config, commanded: seq<real>, m: Measurement, applied: seq<real>)
    requires WellFormed(c) && Complete(m) && |commanded| == NUM_DOFS
  {
    |applied| == NUM_DOFS && forall i :: 0 <= i < NUM_DOFS ==> applied[i] == Applied(c, commanded, m, i)
  }

  /** The force (x, y, z) pushes the end effector back along each axis. */
  predicate PushesHandBack(c: Config, m: Measurement, x: real, y: real, z: real)
    requires WellFormed(c) && Complete(m)
  {
    && PushesBack(x, m.eePos[0], c.cartesianLower[0], c.cartesianUpper[0], c.marginCartesian, c.kCartesian)
    && PushesBack(y, m.eePos[1], c.cartesianLower[1], c.cartesianUpper[1], c.marginCartesian, c.kCartesian)
    && PushesBack(z, m.eePos[2], c.cartesianLower[2], c.cartesianUpper[2], c.marginCartesian, c.kCartesian)
  }

  /** `push` is what the limits of joint `i` itself push back. */
  ghost predicate PushesJointBack(c: Config, m: Measurement, i: nat, push: real)
    requires WellFormed(c) && Complete(m) && i < NUM_DOFS
  {
    exists p :: && PushesBack(p, m.q[i], c.jointLower[i], c.jointUpper[i], c.marginJoint, c.kJoint)
                && PushesBack(push - p, m.dq[i], -c.jointVel[i], c.jointVel[i], c.marginVel, c.kVel)
  }

  /** Whatever the robot's state, the torques the callback adds beyond what the joints' own limits push back do exactly
      the work, in every motion `v` of the joints, of the force at the end effector that pushes it back. */
  lemma VirtualWork(
    c: Config, commanded: seq<real>, m: Measurement, applied: seq<real>, own: seq<real>, x: real, y: real, z: real,
    v: seq<real>)
    requires WellFormed(c) && Complete(m) && |commanded| == |own| == |v| == NUM_DOFS && Guarded(c)
    requires IsApplied(c, commanded, m, applied)
    requires forall i :: 0 <= i < NUM_DOFS ==> Unclamped(c, applied[i], i)
    requires forall i :: 0 <= i < NUM_DOFS ==> PushesJointBack(c, m, i, own[i] - commanded[i])
    requires PushesHandBack(c, m, x, y, z)
    ensures Power(applied, own, v, |v|)
         == x * HandVelocity(m, 0, v, |v|) + y * HandVelocity(m, 1, v, |v|) + z * HandVelocity(m, 2, v, |v|)
  {
    HandForceIs(c, m, x, y, z);
    RestIsForce(c, commanded, m, applied, own, x, y, z);
    WorkOfForce(m, applied, own, x, y, z, v);
  }

  lemma WorkOfAxes(m: Measurement, power: real, x: real, y: real, z: real, v: seq<real>)
    requires Complete(m) && |v| == NUM_DOFS
    requires power == AxisPower(m, 0, x, v, |v|) + AxisPower(m, 1, y, v, |v|) + AxisPower(m, 2, z, v, |v|)
    ensures power
         == x * HandVelocity(m, 0, v, |v|) + y * HandVelocity(m, 1, v, |v|) + z * HandVelocity(m, 2, v, |v|)
  {
    var a := AxisWork(m, 0, x, v);
    var b := AxisWork(m, 1, y, v);
    var d := AxisWork(m, 2, z, v);
  }

  lemma AxisWork(m: Measurement, r: nat, f: real, v: seq<real>) returns (w: real)
    requires Complete(m) && r < 3 && |v| == NUM_DOFS
    ensures w == AxisPower(m, r, f, v, |v|) && w == f * HandVelocity(m, r, v, |v|)
  {
    w := AxisPower(m, r, f, v, |v|);
    AxisPowerIs(m, r, f, v, |v|);
  }

  lemma WorkOfForce(
    m: Measurement, applied: seq<real>, own: seq<real>, x: real, y: real, z: real, v: seq<real>)
    requires Complete(m) && |applied| == |own| == |v| == NUM_DOFS && AddsForce(m, applied, own, x, y, z)
    ensures Power(applied, own, v, |v|)
         == x * HandVelocity(m, 0, v, |v|) + y * HandVelocity(m, 1, v, |v|) + z * HandVelocity(m, 2, v, |v|)
  {
    PowerIsSum(m, applied, own, v, x, y, z, |v|);
    WorkOfAxes(m, Power(applied, own, v, |v|), x, y, z, v);
  }

  /** The torques exceed `own` by those of the force (x, y, z) at the end effector. */
  ghost predicate AddsForce(m: Measurement, applied: seq<real>, own: seq<real>, x: real, y: real, z: real)
    requires Complete(m) && |applied| == |own| == NUM_DOFS
  {
    forall i: nat :: i < NUM_DOFS ==> applied[i] - own[i] == Torque(m, i, x, y, z)
  }

  lemma RestIsForce(
    c: Config, commanded: seq<real>, m: Measurement, applied: seq<real>, own: seq<real>, x: real, y: real, z: real)
    requires WellFormed(c) && Complete(m) && |commanded| == |own| == NUM_DOFS && Guarded(c)
    requires IsApplied(c, commanded, m, applied)
    requires forall i :: 0 <= i < NUM_DOFS ==> Unclamped(c, applied[i], i)
    requires forall i :: 0 <= i < NUM_DOFS ==> PushesJointBack(c, m, i, own[i] - commanded[i])
    requires x == Force(c, m, 0) && y == Force(c, m, 1) && z == Force(c, m, 2)
    ensures AddsForce(m, applied, own, x, y, z)
  {
    forall i: nat | i < NUM_DOFS ensures applied[i] - own[i] == Torque(m, i, x, y, z) {
      RestIsTorque(c, commanded, m, i, own[i]);
    }
  }

  lemma HandForceIs(c: Config, m: Measurement, x: real, y: real, z: real)
    requires WellFormed(c) && Complete(m) && Guarded(c) && PushesHandBack(c, m, x, y, z)
    ensures x == Force(c, m, 0) && y == Force(c, m, 1) && z == Force(c, m, 2)
  {
    PushIs(x, m.eePos[0], c.cartesianLower[0], c.cartesianUpper[0], c.marginCartesian, c.kCartesian);
    PushIs(y, m.eePos[1], c.cartesianLower[1], c.cartesianUpper[1], c.marginCartesian, c.kCartesian);
    PushIs(z, m.eePos[2], c.cartesianLower[2], c.cartesianUpper[2], c.marginCartesian, c.kCartesian);
  }

  lemma RestIsTorque(c: Config, commanded: seq<real>, m: Measurement, i: nat, own: real)
    requires WellFormed(c) && Complete(m) && |commanded| == NUM_DOFS && i < NUM_DOFS && Guarded(c)
    requires Unclamped(c, Applied(c, commanded, m, i), i)
    requires PushesJointBack(c, m, i, own - commanded[i])
    ensures Applied(c, commanded, m, i) - own == Torque(m, i, Force(c, m, 0), Force(c, m, 1), Force(c, m, 2))
  {
    var p :| && PushesBack(p, m.q[i], c.jointLower[i], c.jointUpper[i], c.marginJoint, c.kJoint)
             && PushesBack(own - commanded[i] - p, m.dq[i], -c.jointVel[i], c.jointVel[i], c.marginVel, c.kVel);
    PushIs(p, m.q[i], c.jointLower[i], c.jointUpper[i], c.marginJoint, c.kJoint);
    PushIs(own - commanded[i] - p, m.dq[i], -c.jointVel[i], c.jointVel[i], c.marginVel, c.kVel);
  }

  /** The power of the force `f` along axis `r`, joint by joint. */
  ghost function AxisPower(m: Measurement, r: nat, f: real, v: seq<real>, n: nat): real
    requires Complete(m) && r < 3 && |v| == NUM_DOFS && n <= NUM_DOFS
  {
    if n == 0 then 0.0 else AxisPower(m, r, f, v, n - 1) + m.jacobian[r][n - 1] * f * v[n - 1]
  }

  lemma {:induction false} AxisPowerIs(m: Measurement, r: nat, f: real, v: seq<real>, n: nat)
    requires Complete(m) && r < 3 && |v| == NUM_DOFS && n <= NUM_DOFS
    ensures AxisPower(m, r, f, v, n) == f * HandVelocity(m, r, v, n)
  {
    if n == 0 {
    } else {
      AxisPowerIs(m, r, f, v, n - 1);
      Factor(f, HandVelocity(m, r, v, n - 1), m.jacobian[r][n - 1], v[n - 1]);
    }
  }

  lemma Factor(f: real, h: real, a: real, v: real)
    ensures f * h + a * f * v == f * (h + a * v)
  {
  }

  lemma {:induction false} PowerIsSum(
    m: Measurement, applied: seq<real>, own: seq<real>, v: seq<real>, x: real, y: real, z: real, n: nat)
    requires Complete(m) && |applied| == |own| == |v| == NUM_DOFS && n <= NUM_DOFS
    requires AddsForce(m, applied, own, x, y, z)
    ensures Power(applied, own, v, n) == AxisPower(m, 0, x, v, n) + AxisPower(m, 1, y, v, n) + AxisPower(m, 2, z, v, n)
  {
    if n == 0 {
    } else {
      var i := n - 1;
      PowerIsSum(m, applied, own, v, x, y, z, i);
      Distribute(applied[i] - own[i],
                 m.jacobian[0][i] * x, m.jacobian[1][i] * y, m.jacobian[2][i] * z, v[i]);
    }
  }

  lemma Distribute(tau: real, a: real, b: real, c: real, v: real)
    requires tau == a + b + c
    ensures tau * v == a * v + b * v + c * v
  {
  }

  // ----- Exceptions -----

  /** Every monitored quantity lies within its hard limits. */
  predicate WithinLimits(c: Config, m: Measurement)
    requires WellFormed(c) && Complete(m)
  {
    && (forall r :: 0 <= r < 3 ==> c.cartesianLower[r] <= m.eePos[r] <= c.cartesianUpper[r])
    && (forall i :: 0 <= i < NUM_DOFS ==> c.jointLower[i] <= m.q[i] <= c.jointUpper[i])
    && (forall i :: 0 <= i < NUM_DOFS ==> -c.jointVel[i] <= m.dq[i] <= c.jointVel[i])
    && -c.elbowVel <= m.elbowVel <= c.elbowVel
  }

  /** The first cycle throws exactly when something is outside its limits, unless the client is readonly. */
  lemma FirstCycleThrows(c: Config, m: Measurement)
    requires WellFormed(c) && Complete(m)
    ensures Evaluate(map[], Violations(c, m), 0, c.readonly).1.Some? <==> !WithinLimits(c, m) && !c.readonly
  {
    ViolationsAre(c, m);
    AnyThrows(map[], Violations(c, m), 0, c.readonly);
  }

  /** A readonly client never throws, whatever has been violated before. */
  lemma {:induction false} ReadonlyNeverThrows(a: map<nat, bool>, v: seq<bool>, i: nat)
    requires i <= |v|
    ensures Evaluate(a, v, i, true).1.None?
    decreases |v| - i
  {
    if i == |v| {
    } else {
      ReadonlyNeverThrows(a[i := v[i]], v, i + 1);
    }
  }

  lemma ViolationsAre(c: Config, m: Measurement)
    requires WellFormed(c) && Complete(m)
    ensures var v := Violations(c, m);
            && (!v[0] <==> forall r :: 0 <= r < 3 ==> c.cartesianLower[r] <= m.eePos[r] <= c.cartesianUpper[r])
            && (!v[1] <==> forall i :: 0 <= i < NUM_DOFS ==> c.jointLower[i] <= m.q[i] <= c.jointUpper[i])
            && (!v[2] <==> forall i :: 0 <= i < NUM_DOFS ==> -c.jointVel[i] <= m.dq[i] <= c.jointVel[i])
            && (!v[3] <==> -c.elbowVel <= m.elbowVel <= c.elbowVel)
  {
    NotViolated(m.eePos, c.cartesianLower, c.cartesianUpper, false);
    NotViolated(m.q, c.jointLower, c.jointUpper, false);
    NotViolated(m.dq, c.jointVel, c.jointVel, true);
    OneViolated(m.elbowVel, c.elbowVel);
  }

  lemma OneViolated(value: real, limit: real)
    ensures !Violated([value], [limit], [limit], true, 1) <==> -limit <= value <= limit
  {
    NotViolated([value], [limit], [limit], true);
    assert [value][0] == value && [limit][0] == limit;
  }

  lemma NotViolated(values: seq<real>, lower: seq<real>, upper: seq<real>, invert: bool)
    requires |values| == |lower| == |upper|
    ensures !Violated(values, lower, upper, invert, |values|) <==>
              forall i :: 0 <= i < |values| ==> (if invert then -lower[i] else lower[i]) <= values[i] <= upper[i]
  {
  }

  /** With nothing active yet, the first violated item throws. */
  lemma {:induction false} AnyThrows(a: map<nat, bool>, v: seq<bool>, i: nat, readonly: bool)
    requires i <= |v| && forall j :: i <= j < |v| ==> !IsActive(a, j)
    ensures Evaluate(a, v, i, readonly).1.Some? <==> !readonly && exists j :: i <= j < |v| && v[j]
    decreases |v| - i
  {
    if i == |v| {
    } else {
      var next := a[i := v[i]];
      forall j | i + 1 <= j < |v| ensures !IsActive(next, j) {
        assert !IsActive(a, j);
      }
      AnyThrows(next, v, i + 1, readonly);
    }
  }
}
