/** The control callback of the Franka client as an object whose torque arrays and constraint map are
    updated in place (polymetis/src/clients/franka_panda_client/franka_panda_client.cpp). */
module FrankaClients {
  import opened Wrappers
  import opened SafetyLimits

  const EE_POSITION: nat := 0
  const JOINT_POSITION: nat := 1
  const JOINT_VELOCITY: nat := 2
  const ELBOW_VELOCITY: nat := 3

  /** Limits and gains read from the configuration. */
  datatype Config = Config(
    cartesianLower: seq<real>, cartesianUpper: seq<real>,
    jointLower: seq<real>, jointUpper: seq<real>,
    jointVel: seq<real>, elbowVel: real, jointTorques: seq<real>,
    marginCartesian: real, marginJoint: real, marginVel: real,
    kCartesian: real, kJoint: real, kVel: real,
    reflexActive: bool, mock: bool, readonly: bool)

  predicate WellFormed(c: Config) {
    && |c.cartesianLower| == |c.cartesianUpper| == 3
    && |c.jointLower| == |c.jointUpper| == |c.jointVel| == |c.jointTorques| == NUM_DOFS
  }

  /** What the client reads from the robot in one cycle; the Jacobian's first three rows. */
  datatype Measurement = Measurement(
    eePos: seq<real>, q: seq<real>, dq: seq<real>, elbowVel: real, jacobian: seq<seq<real>>)

  predicate Complete(m: Measurement) {
    && |m.eePos| == 3 && |m.q| == |m.dq| == NUM_DOFS
    && |m.jacobian| == 3 && forall r :: 0 <= r < 3 ==> |m.jacobian[r]| == NUM_DOFS
  }

  /** The lower limit as used: velocities give its magnitude. */
  function LowerLimit(invert: bool, x: real): real {
    if invert then -x else x
  }

  ghost predicate Violated(values: seq<real>, lower: seq<real>, upper: seq<real>, invert: bool, n: nat)
    requires n <= |values| == |lower| == |upper|
  {
    exists i :: 0 <= i < n && Outside(values[i], LowerLimit(invert, lower[i]), upper[i])
  }

  /** Per-item violations of a measurement, in evaluation order. */
  ghost function Violations(c: Config, m: Measurement): seq<bool>
    requires WellFormed(c) && Complete(m)
  {
    [Violated(m.eePos, c.cartesianLower, c.cartesianUpper, false, 3),
     Violated(m.q, c.jointLower, c.jointUpper, false, NUM_DOFS),
     Violated(m.dq, c.jointVel, c.jointVel, true, NUM_DOFS),
     Violated([m.elbowVel], [c.elbowVel], [c.elbowVel], true, 1)]
  }

  function SoftTorque(active: bool, v: real, lo: real, hi: real, margin: real, k: real): real {
    if active then Reflex(v, lo, hi, margin, k) else 0.0
  }

  function Force(c: Config, m: Measurement, r: nat): real
    requires WellFormed(c) && Complete(m) && r < 3
  {
    SoftTorque(c.reflexActive, m.eePos[r], c.cartesianLower[r], c.cartesianUpper[r], c.marginCartesian, c.kCartesian)
  }

  /** Torque on joint `i` of an end-effector force: a column of the Jacobian times the force. */
  function Torque(m: Measurement, i: nat, x: real, y: real, z: real): real
    requires Complete(m) && i < NUM_DOFS
  {
    m.jacobian[0][i] * x + m.jacobian[1][i] * y + m.jacobian[2][i] * z
  }

  /** Safety torque of joint `i`: the end-effector force mapped through the Jacobian plus the reflexes
      of the joint's position and velocity. */
  function SafetyTorque(c: Config, m: Measurement, i: nat): real
    requires WellFormed(c) && Complete(m) && i < NUM_DOFS
  {
    Torque(m, i, Force(c, m, 0), Force(c, m, 1), Force(c, m, 2))
    + SoftTorque(c.reflexActive, m.q[i], c.jointLower[i], c.jointUpper[i], c.marginJoint, c.kJoint)
    + SoftTorque(c.reflexActive, m.dq[i], -c.jointVel[i], c.jointVel[i], c.marginVel, c.kVel)
  }

  ghost predicate Agree(a: map<nat, bool>, b: map<nat, bool>) {
    forall j: nat :: IsActive(a, j) == IsActive(b, j)
  }

  /** The map after evaluating item `i`, given what the reflex loop did to the real one. */
  lemma EvaluateStep(
    a: map<nat, bool>, before: map<nat, bool>, now: map<nat, bool>, v: seq<bool>, i: nat, readonly: bool, threw: bool)
    returns (next: map<nat, bool>)
    requires i < |v| && Agree(before, a) && threw == (v[i] && !IsActive(before, i) && !readonly)
    requires IsActive(now, i) == v[i] && forall j: nat :: j != i ==> IsActive(now, j) == IsActive(before, j)
    ensures next == a[i := v[i]] && Agree(now, next)
    ensures Evaluate(a, v, i, readonly) == if threw then (next, Some(i)) else Evaluate(next, v, i + 1, readonly)
  {
    next := a[i := v[i]];
    forall j: nat ensures IsActive(now, j) == IsActive(next, j) {
      assert IsActive(before, j) == IsActive(a, j);
    }
  }

  class FrankaClient {
    const config: Config
    var activeConstraints: map<nat, bool>
    const torqueSafety: array<real>
    const torqueApplied: array<real>

    ghost predicate Valid()
      reads this, torqueSafety, torqueApplied
    {
      && WellFormed(config)
      && torqueSafety.Length == torqueApplied.Length == NUM_DOFS && torqueSafety != torqueApplied
      && (config.mock ==> forall i :: 0 <= i < NUM_DOFS ==> torqueSafety[i] == 0.0)
    }

    constructor (config: Config)
      requires WellFormed(config)
      ensures Valid() && this.config == config && activeConstraints == map[]
      ensures fresh(torqueSafety) && fresh(torqueApplied)
    {
      this.config := config;
      activeConstraints := map[];
      torqueSafety := new real[NUM_DOFS](_ => 0.0);
      torqueApplied := new real[NUM_DOFS](_ => 0.0);
    }

    /** Checks one item and adds its soft torques; an exception leaves the loop on the spot. */
    method ComputeSafetyReflex(
      values: seq<real>, lower: seq<real>, upper: seq<real>, invert: bool, torques: array<real>,
      margin: real, k: real, item: nat) returns (threw: bool)
      requires |values| == |lower| == |upper| == torques.Length
      modifies this`activeConstraints, torques
      ensures var v := Violated(values, lower, upper, invert, |values|);
              && threw == (v && !IsActive(old(activeConstraints), item) && !config.readonly)
              && IsActive(activeConstraints, item) == v
              && forall j: nat :: j != item ==> IsActive(activeConstraints, j) == old(IsActive(activeConstraints, j))
      ensures !threw ==> torques[..] == Softened(old(torques[..]), values, lower, upper, invert, margin, k, |values|)
    {
      var triggered := false;
      if item !in activeConstraints {
        activeConstraints := activeConstraints[item := false];
      }
      ghost var entry := activeConstraints;
      ghost var start := torques[..];
      var i := 0;
      while i < |values|
        invariant 0 <= i <= |values| && item in activeConstraints
        invariant triggered <==> Violated(values, lower, upper, invert, i)
        invariant activeConstraints == entry[item := entry[item] || triggered]
        invariant triggered ==> entry[item] || config.readonly
        invariant torques[..] == Softened(start, values, lower, upper, invert, margin, k, i)
      {
        var lo := LowerLimit(invert, lower[i]);
        var outside := Outside(values[i], lo, upper[i]);
        ViolatedStep(values, lower, upper, invert, i);
        if outside {
          triggered := true;
          if !activeConstraints[item] {
            activeConstraints := activeConstraints[item := true];
            if !config.readonly {
              return true;
            }
          }
        }
        AddReflex(torques, i, values[i], lo, upper[i], margin, k);
        i := i + 1;
      }
      if !triggered && activeConstraints[item] {
        activeConstraints := activeConstraints[item := false];
      }
      threw := false;
    }

    /** The torques after the soft limits of the first `n` dimensions. */
    ghost function Softened(
      start: seq<real>, values: seq<real>, lower: seq<real>, upper: seq<real>, invert: bool,
      margin: real, k: real, n: nat): seq<real>
      requires n <= |values| == |lower| == |upper| == |start|
    {
      seq(|start|, j requires 0 <= j < |start| =>
        if j < n then
          start[j] + SoftTorque(config.reflexActive, values[j], LowerLimit(invert, lower[j]), upper[j], margin, k)
        else start[j])
    }

    lemma ViolatedStep(values: seq<real>, lower: seq<real>, upper: seq<real>, invert: bool, i: nat)
      requires i < |values| == |lower| == |upper|
      ensures Violated(values, lower, upper, invert, i + 1) <==>
                Violated(values, lower, upper, invert, i) || Outside(values[i], LowerLimit(invert, lower[i]), upper[i])
      ensures Violated(values, lower, upper, invert, i + 1) ==> Violated(values, lower, upper, invert, |values|)
    {
    }

    method AddReflex(torques: array<real>, i: nat, v: real, lo: real, hi: real, margin: real, k: real)
      requires i < torques.Length
      modifies torques
      ensures var added := SoftTorque(config.reflexActive, v, lo, hi, margin, k);
              torques[..] == old(torques[..])[i := old(torques[i]) + added]
    {
      if config.reflexActive {
        if v - hi > -margin {
          torques[i] := torques[i] - k * (margin + (v - hi));
        } else if lo - v > -margin {
          torques[i] := torques[i] + k * (margin + (lo - v));
        }
      }
    }

    /** Maps the end-effector force to joint torques. */
    method SetFromForce(m: Measurement, force: array<real>)
      requires Valid() && Complete(m) && force.Length == 3 && force != torqueSafety
      modifies torqueSafety
      ensures forall i :: 0 <= i < NUM_DOFS ==>
                torqueSafety[i] == Torque(m, i, force[0], force[1], force[2])
    {
      var i := 0;
      while i < NUM_DOFS
        invariant 0 <= i <= NUM_DOFS
        invariant forall j :: 0 <= j < i ==> torqueSafety[j] == Torque(m, j, force[0], force[1], force[2])
      {
        torqueSafety[i] := Torque(m, i, force[0], force[1], force[2]);
        i := i + 1;
      }
    }

    /** The constraint map says the same about every item as `other`. */
    ghost predicate SameActive(other: map<nat, bool>)
      reads this
    {
      Agree(activeConstraints, other)
    }

    /** The reflex computation of one item, as a step of Evaluate. */
    method EvaluateItem(
      ghost a: map<nat, bool>, ghost v: seq<bool>, values: seq<real>, lower: seq<real>, upper: seq<real>, invert: bool,
      torques: array<real>, margin: real, k: real, item: nat) returns (threw: bool, ghost next: map<nat, bool>)
      requires |values| == |lower| == |upper| == torques.Length && item < |v|
      requires SameActive(a) && v[item] == Violated(values, lower, upper, invert, |values|)
      modifies this`activeConstraints, torques
      ensures SameActive(next)
      ensures Evaluate(a, v, item, config.readonly) ==
                if threw then (next, Some(item)) else Evaluate(next, v, item + 1, config.readonly)
      ensures !threw ==> torques[..] == Softened(old(torques[..]), values, lower, upper, invert, margin, k, |values|)
    {
      ghost var before := activeConstraints;
      threw := ComputeSafetyReflex(values, lower, upper, invert, torques, margin, k, item);
      next := EvaluateStep(a, before, activeConstraints, v, item, config.readonly, threw);
    }

    /** The end-effector item, which overwrites the safety torques with those of its force. */
    method CheckCartesian(ghost a: map<nat, bool>, ghost v: seq<bool>, m: Measurement)
      returns (threw: bool, ghost next: map<nat, bool>)
      requires Valid() && !config.mock && Complete(m) && SameActive(a) && v == Violations(config, m)
      modifies this`activeConstraints, torqueSafety
      ensures SameActive(next)
      ensures Evaluate(a, v, EE_POSITION, config.readonly) ==
                if threw then (next, Some(EE_POSITION)) else Evaluate(next, v, EE_POSITION + 1, config.readonly)
      ensures forall i :: 0 <= i < NUM_DOFS ==>
                torqueSafety[i] ==
                  if threw then 0.0 else Torque(m, i, Force(config, m, 0), Force(config, m, 1), Force(config, m, 2))
    {
      forall i | 0 <= i < NUM_DOFS {
        torqueSafety[i] := 0.0;
      }
      var force := new real[3](_ => 0.0);
      threw, next := EvaluateItem(
        a, v, m.eePos, config.cartesianLower, config.cartesianUpper, false, force,
        config.marginCartesian, config.kCartesian, EE_POSITION);
      if !threw {
        assert forall r :: 0 <= r < 3 ==> force[..][r] == Force(config, m, r);
        SetFromForce(m, force);
      }
    }

    /** The joint positions and velocities, whose reflexes are added to the safety torques. */
    method CheckJoints(ghost a: map<nat, bool>, ghost v: seq<bool>, m: Measurement)
      returns (thrown: Option<nat>, ghost next: map<nat, bool>)
      requires Valid() && !config.mock && Complete(m) && SameActive(a) && v == Violations(config, m)
      modifies this`activeConstraints, torqueSafety
      ensures SameActive(next)
      ensures Evaluate(a, v, JOINT_POSITION, config.readonly) ==
                if thrown.Some? then (next, thrown) else Evaluate(next, v, JOINT_VELOCITY + 1, config.readonly)
      ensures thrown.None? ==> forall i :: 0 <= i < NUM_DOFS ==>
                torqueSafety[i] == old(torqueSafety[i])
                  + SoftTorque(config.reflexActive, m.q[i], config.jointLower[i], config.jointUpper[i],
                               config.marginJoint, config.kJoint)
                  + SoftTorque(config.reflexActive, m.dq[i], -config.jointVel[i], config.jointVel[i],
                               config.marginVel, config.kVel)
    {
      var threw: bool;
      threw, next := EvaluateItem(
        a, v, m.q, config.jointLower, config.jointUpper, false, torqueSafety,
        config.marginJoint, config.kJoint, JOINT_POSITION);
      if threw {
        return Some(JOINT_POSITION), next;
      }
      threw, next := EvaluateItem(
        next, v, m.dq, config.jointVel, config.jointVel, true, torqueSafety,
        config.marginVel, config.kVel, JOINT_VELOCITY);
      thrown := if threw then Some(JOINT_VELOCITY) else None;
    }

    /** Evaluates the items in order; outside mock mode this is the step Evaluate of the constraint map. */
    method CheckStateLimits(m: Measurement) returns (thrown: Option<nat>)
      requires Valid() && Complete(m)
      modifies this`activeConstraints, torqueSafety
      ensures Valid()
      ensures config.mock ==>
                thrown.None? && SameActive(old(activeConstraints)) && torqueSafety[..] == old(torqueSafety[..])
      ensures !config.mock ==>
                var (after, t) := Evaluate(old(activeConstraints), Violations(config, m), 0, config.readonly);
                thrown == t && SameActive(after)
      ensures !config.mock && thrown.None? ==>
                forall i :: 0 <= i < NUM_DOFS ==> torqueSafety[i] == SafetyTorque(config, m, i)
    {
      if config.mock {
        return None;
      }
      ghost var v := Violations(config, m);
      ghost var a := activeConstraints;
      var threw: bool;
      threw, a := CheckCartesian(a, v, m);
      if threw {
        return Some(EE_POSITION);
      }
      thrown, a := CheckJoints(a, v, m);
      if thrown.Some? {
        return;
      }
      var dummy := new real[1](_ => 0.0);
      threw, a := EvaluateItem(
        a, v, [m.elbowVel], [config.elbowVel], [config.elbowVel], true, dummy, 0.0, 0.0, ELBOW_VELOCITY);
      thrown := if threw then Some(ELBOW_VELOCITY) else None;
    }

    method PostprocessTorques()
      requires Valid()
      modifies torqueApplied
      ensures Valid()
      ensures forall i :: 0 <= i < NUM_DOFS ==> torqueApplied[i] == Clamp(old(torqueApplied[i]), config.jointTorques[i])
    {
      var i := 0;
      while i < NUM_DOFS
        invariant 0 <= i <= NUM_DOFS && Valid()
        invariant forall j :: 0 <= j < i ==> torqueApplied[j] == Clamp(old(torqueApplied[j]), config.jointTorques[j])
        invariant forall j :: i <= j < NUM_DOFS ==> torqueApplied[j] == old(torqueApplied[j])
      {
        if torqueApplied[i] > config.jointTorques[i] {
          torqueApplied[i] := config.jointTorques[i];
        }
        if torqueApplied[i] < -config.jointTorques[i] {
          torqueApplied[i] := -config.jointTorques[i];
        }
        i := i + 1;
      }
    }

    /** One control callback with the torques the server commanded; None is an exception. */
    method ControlCallback(commanded: seq<real>, m: Measurement) returns (applied: Option<seq<real>>)
      requires Valid() && Complete(m) && |commanded| == NUM_DOFS
      modifies this`activeConstraints, torqueSafety, torqueApplied
      ensures Valid()
      ensures applied.None? <==>
                !config.mock && Evaluate(old(activeConstraints), Violations(config, m), 0, config.readonly).1.Some?
      ensures !config.mock ==>
                SameActive(Evaluate(old(activeConstraints), Violations(config, m), 0, config.readonly).0)
      ensures applied.Some? ==> |applied.value| == NUM_DOFS && forall i :: 0 <= i < NUM_DOFS ==>
                applied.value[i] == Applied(config, commanded, m, i)
    {
      var thrown := CheckStateLimits(m);
      if thrown.Some? {
        return None;
      }
      forall i | 0 <= i < NUM_DOFS {
        torqueApplied[i] := commanded[i] + torqueSafety[i];
      }
      PostprocessTorques();
      applied := Some(torqueApplied[..]);
    }
  }

  function Applied(c: Config, commanded: seq<real>, m: Measurement, i: nat): real
    requires WellFormed(c) && Complete(m) && |commanded| == NUM_DOFS && i < NUM_DOFS
  {
    Clamp(commanded[i] + if c.mock then 0.0 else SafetyTorque(c, m, i), c.jointTorques[i])
  }

  predicate Inside(v: real, lo: real, hi: real, margin: real) {
    lo + margin <= v <= hi - margin
  }

  /** Every reflex input is outside its margin band. */
  ghost predicate OutsideMargins(c: Config, m: Measurement)
    requires WellFormed(c) && Complete(m)
  {
    && (forall r :: 0 <= r < 3 ==> Inside(m.eePos[r], c.cartesianLower[r], c.cartesianUpper[r], c.marginCartesian))
    && (forall i :: 0 <= i < NUM_DOFS ==>
          && Inside(m.q[i], c.jointLower[i], c.jointUpper[i], c.marginJoint)
          && Inside(m.dq[i], -c.jointVel[i], c.jointVel[i], c.marginVel))
  }

  /** The applied torque never exceeds the joint's limit. */
  lemma AppliedWithinLimit(c: Config, commanded: seq<real>, m: Measurement, i: nat)
    requires WellFormed(c) && Complete(m) && |commanded| == NUM_DOFS && i < NUM_DOFS && c.jointTorques[i] >= 0.0
    ensures -c.jointTorques[i] <= Applied(c, commanded, m, i) <= c.jointTorques[i]
  {
    ClampIsNearest(commanded[i] + if c.mock then 0.0 else SafetyTorque(c, m, i), c.jointTorques[i], 0.0);
  }

  /** A robot well inside all its limits executes an admissible command unchanged. */
  lemma CommandUnchanged(c: Config, commanded: seq<real>, m: Measurement, i: nat)
    requires WellFormed(c) && Complete(m) && |commanded| == NUM_DOFS && i < NUM_DOFS
    requires OutsideMargins(c, m) && -c.jointTorques[i] <= commanded[i] <= c.jointTorques[i]
    ensures Applied(c, commanded, m, i) == commanded[i]
  {
    NoReflex(c.reflexActive, m.q[i], c.jointLower[i], c.jointUpper[i], c.marginJoint, c.kJoint);
    NoReflex(c.reflexActive, m.dq[i], -c.jointVel[i], c.jointVel[i], c.marginVel, c.kVel);
    forall r: nat | r < 3 ensures Force(c, m, r) == 0.0 {
      NoReflex(c.reflexActive, m.eePos[r], c.cartesianLower[r], c.cartesianUpper[r], c.marginCartesian, c.kCartesian);
    }
    ZeroForce(m.jacobian[0][i], m.jacobian[1][i], m.jacobian[2][i], Force(c, m, 0), Force(c, m, 1), Force(c, m, 2));
  }

  lemma NoReflex(active: bool, v: real, lo: real, hi: real, margin: real, k: real)
    requires Inside(v, lo, hi, margin)
    ensures SoftTorque(active, v, lo, hi, margin, k) == 0.0
  {
  }

  lemma ZeroForce(a: real, b: real, c: real, x: real, y: real, z: real)
    requires x == y == z == 0.0
    ensures a * x + b * y + c * z == 0.0
  {
  }

  /** Violations of successive measurements, for ThrowsOnRisingEdges. */
  ghost function History(c: Config, ms: seq<Measurement>): (h: seq<seq<bool>>)
    requires WellFormed(c) && forall n :: 0 <= n < |ms| ==> Complete(ms[n])
    ensures |h| == |ms| && forall n :: 0 <= n < |h| ==> h[n] == Violations(c, ms[n])
  {
    seq(|ms|, n requires 0 <= n < |ms| => Violations(c, ms[n]))
  }

  /** Evaluation depends only on which items are active. */
  lemma {:induction false} EvaluateSame(a: map<nat, bool>, b: map<nat, bool>, v: seq<bool>, i: nat, readonly: bool)
    requires i <= |v| && Agree(a, b)
    ensures Evaluate(a, v, i, readonly).1 == Evaluate(b, v, i, readonly).1
    ensures Agree(Evaluate(a, v, i, readonly).0, Evaluate(b, v, i, readonly).0)
    decreases |v| - i
  {
    if i == |v| {
    } else {
      assert IsActive(a, i) == IsActive(b, i);
      AgreeUpdate(a, b, i, v[i]);
      EvaluateSame(a[i := v[i]], b[i := v[i]], v, i + 1, readonly);
    }
  }

  lemma AgreeUpdate(a: map<nat, bool>, b: map<nat, bool>, i: nat, x: bool)
    requires Agree(a, b)
    ensures Agree(a[i := x], b[i := x])
  {
    var c, d := a[i := x], b[i := x];
    forall j: nat ensures IsActive(c, j) == IsActive(d, j) {
      assert IsActive(a, j) == IsActive(b, j);
    }
  }

  /** A client that is controlling the robot, driven through any series of control cycles, raises an
      exception in a cycle exactly when some monitored item is violated that was not violated the last
      time it was evaluated. */
  method RunCycles(client: FrankaClient, commands: seq<seq<real>>, ms: seq<Measurement>) returns (threw: seq<bool>)
    requires client.Valid() && client.activeConstraints == map[] && !client.config.mock && !client.config.readonly
    requires |commands| == |ms| && forall n :: 0 <= n < |ms| ==> |commands[n]| == NUM_DOFS && Complete(ms[n])
    modifies client`activeConstraints, client.torqueSafety, client.torqueApplied
    ensures |threw| == |ms|
    ensures forall n :: 0 <= n < |ms| ==>
              (threw[n] <==> exists j :: 0 <= j < ITEMS && Rising(History(client.config, ms), n, j))
  {
    ghost var h := History(client.config, ms);
    threw := [];
    var n := 0;
    while n < |ms|
      invariant 0 <= n <= |ms| && client.Valid() && |threw| == n
      invariant client.SameActive(ActiveAfter(h, n))
      invariant forall i :: 0 <= i < n ==> (threw[i] <==> exists j :: 0 <= j < ITEMS && Rising(h, i, j))
    {
      ghost var before := client.activeConstraints;
      EvaluateSame(before, ActiveAfter(h, n), h[n], 0, false);
      ThrowsOnRisingEdges(h, n);
      var applied := client.ControlCallback(commands[n], ms[n]);
      threw := threw + [applied.None?];
      n := n + 1;
    }
  }
}
