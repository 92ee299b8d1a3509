/** Policies as the server runs them: the step counters and termination flags of
    torchcontrol/policies/trajectory.py, the parameter update of torchcontrol/_module.py, the hold
    controller of torchcontrol/policies/default_controller.py, and the wrapper of
    torch_isolation/src/torch_server_ops.cpp that warms a loaded policy up.

    What a policy computes from a robot state is an input (`Outcome`): a torque, or an exception that
    may come before or after the policy has changed its own state. */
module Policies {
  import opened Wrappers

  type Vec = seq<real>
  type Params = map<string, Vec>

  const WARM_UP_ITERS: nat := 5

  /** Waypoints: JointTrajectoryExecutor and EndEffectorTrajectoryExecutor, which compute everything
      before they increment the counter. Ilqr: increments before it computes. Continuing: no counter. */
  datatype Kind = Waypoints | Ilqr | Continuing

  datatype Policy = Policy(kind: Kind, horizon: nat, step: nat, terminated: bool, params: Params)

  datatype Outcome =
    | Computes(tau: Vec, finish: bool)
    | Raises(late: bool, finish: bool)

  predicate Indexed(p: Policy) {
    !p.kind.Continuing?
  }

  /** The counter and termination statements of one forward call. */
  function Advance(p: Policy, finish: bool): Policy {
    if Indexed(p) then p.(step := p.step + 1, terminated := p.terminated || p.step + 1 == p.horizon)
    else p.(terminated := p.terminated || finish)
  }

  /** One forward call: the state it leaves and the torque, if it did not raise. */
  function Forward(p: Policy, o: Outcome): (Policy, Option<Vec>) {
    if Indexed(p) && p.step >= p.horizon then (p, None)
    else
      match o
      case Computes(tau, finish) => (Advance(p, finish), Some(tau))
      case Raises(late, finish) => (if late && !p.kind.Waypoints? then Advance(p, finish) else p, None)
  }

  // ----- Parameter update -----

  /** Copy into a one-dimensional tensor: equal lengths, or a single element that is broadcast. */
  function CopyInto(dst: Vec, src: Vec): Option<Vec> {
    if |src| == |dst| then Some(src)
    else if |src| == 1 then Some(seq(|dst|, _ => src[0]))
    else None
  }

  /** The updates applied in dictionary order up to the first that fails. */
  function Updated(params: Params, dict: seq<(string, Vec)>): (Params, bool) {
    if dict == [] then (params, true)
    else
      var (name, v) := dict[0];
      if name !in params then (params, false)
      else
        match CopyInto(params[name], v)
        case None => (params, false)
        case Some(copied) => Updated(params[name := copied], dict[1..])
  }

  /** An entry that can be copied: its name exists, and it has as many elements as the parameter, or one. */
  ghost predicate Fits(params: Params, entry: (string, Vec)) {
    entry.0 in params && (|entry.1| == |params[entry.0]| || |entry.1| == 1)
  }

  /** `v` has the length of `was` and the elements of `src`, or its only one everywhere. */
  ghost predicate Overwrites(was: Vec, src: Vec, v: Vec) {
    && |v| == |was| && (|src| == |was| || |src| == 1)
    && forall k :: 0 <= k < |v| ==> v[k] == src[if |src| == 1 then 0 else k]
  }

  /** The leading `n` entries of the dictionary, and no others, have been copied over `params`; of two entries with
      one name the later one counts. */
  ghost predicate PrefixApplied(params: Params, dict: seq<(string, Vec)>, n: nat, after: Params) {
    && n <= |dict| && after.Keys == params.Keys
    && (forall j :: 0 <= j < n ==> Fits(params, dict[j]))
    && (n < |dict| ==> !Fits(params, dict[n]))
    && (forall j :: 0 <= j < n && (forall i :: j < i < n ==> dict[i].0 != dict[j].0) ==>
          Overwrites(params[dict[j].0], dict[j].1, after[dict[j].0]))
    && forall name :: name in params && (forall j :: 0 <= j < n ==> dict[j].0 != name) ==> after[name] == params[name]
  }

  /** The number of leading entries of the dictionary that can be copied. */
  ghost function FittingPrefix(params: Params, dict: seq<(string, Vec)>): (n: nat)
    ensures n <= |dict|
    ensures forall j :: 0 <= j < n ==> Fits(params, dict[j])
    ensures n < |dict| ==> !Fits(params, dict[n])
  {
    if dict == [] || !Fits(params, dict[0]) then 0
    else 1 + FittingPrefix(params, dict[1..])
  }

  /** An update copies exactly the leading entries that fit, element by element, and leaves every other name alone;
      it fails iff some entry names no parameter or has the wrong length, and then it has been applied in part. */
  lemma {:induction false} UpdateIsPrefix(params: Params, dict: seq<(string, Vec)>)
    ensures var (after, ok) := Updated(params, dict);
            var n := FittingPrefix(params, dict);
            (ok <==> n == |dict|) && PrefixApplied(params, dict, n, after)
    decreases |dict|
  {
    if dict == [] || !Fits(params, dict[0]) {
    } else {
      var (name, v) := dict[0];
      var next := params[name := CopyInto(params[name], v).value];
      FitsAlike(params, next, dict[1..]);
      UpdateIsPrefix(next, dict[1..]);
      PrefixGrows(params, next, dict, FittingPrefix(next, dict[1..]), Updated(next, dict[1..]).0);
    }
  }

  lemma PrefixGrows(params: Params, next: Params, dict: seq<(string, Vec)>, n: nat, after: Params)
    requires dict != [] && Fits(params, dict[0])
    requires next.Keys == params.Keys && Overwrites(params[dict[0].0], dict[0].1, next[dict[0].0])
    requires forall name :: name in params && name != dict[0].0 ==> next[name] == params[name]
    requires PrefixApplied(next, dict[1..], n, after)
    ensures PrefixApplied(params, dict, n + 1, after)
  {
    var rest := dict[1..];
    assert forall j :: 1 <= j < |dict| ==> dict[j] == rest[j - 1];
    assert forall name :: name in params ==> |next[name]| == |params[name]|;
    forall j | 0 <= j < n + 1 ensures Fits(params, dict[j]) {
      assert j > 0 ==> Fits(next, rest[j - 1]);
    }
    forall j | 0 <= j < n + 1 && (forall i :: j < i < n + 1 ==> dict[i].0 != dict[j].0)
      ensures Overwrites(params[dict[j].0], dict[j].1, after[dict[j].0])
    {
      if j == 0 {
        assert forall i :: 0 <= i < n ==> rest[i] == dict[i + 1];
        assert after[dict[0].0] == next[dict[0].0];
      } else {
        assert forall i :: j - 1 < i < n ==> rest[i] == dict[i + 1];
        assert Overwrites(next[rest[j - 1].0], rest[j - 1].1, after[rest[j - 1].0]);
      }
    }
    forall name | name in params && (forall j :: 0 <= j < n + 1 ==> dict[j].0 != name)
      ensures after[name] == params[name]
    {
      assert name != dict[0].0;
      assert forall j :: 0 <= j < n ==> rest[j] == dict[j + 1];
    }
  }

  /** Copying keeps every length, so it does not change what fits. */
  lemma {:induction false} FitsAlike(params: Params, next: Params, dict: seq<(string, Vec)>)
    requires params.Keys == next.Keys && forall name :: name in params ==> |params[name]| == |next[name]|
    ensures FittingPrefix(params, dict) == FittingPrefix(next, dict)
    decreases |dict|
  {
    if dict == [] {
    } else {
      assert Fits(params, dict[0]) <==> Fits(next, dict[0]);
      FitsAlike(params, next, dict[1..]);
    }
  }

  // ----- Warm-up -----

  /** The policy after a series of forward calls, or None if one of them raised. */
  function ForwardAll(p: Policy, outcomes: seq<Outcome>): Option<Policy>
    decreases |outcomes|
  {
    if outcomes == [] then Some(p)
    else
      var (q, tau) := Forward(p, outcomes[0]);
      if tau.None? then None else ForwardAll(q, outcomes[1..])
  }

  /** A warm-up succeeds exactly when no call raises and an indexed policy has a waypoint for each call. */
  lemma {:induction false} WarmUpSucceeds(p: Policy, outcomes: seq<Outcome>)
    requires p.step <= p.horizon || !Indexed(p)
    ensures ForwardAll(p, outcomes).Some? <==>
              && (forall k :: 0 <= k < |outcomes| ==> outcomes[k].Computes?)
              && (Indexed(p) ==> p.step + |outcomes| <= p.horizon)
    decreases |outcomes|
  {
    if outcomes == [] {
    } else {
      var (q, tau) := Forward(p, outcomes[0]);
      if tau.Some? {
        WarmUpSucceeds(q, outcomes[1..]);
        assert forall k :: 1 <= k < |outcomes| ==> outcomes[k] == outcomes[1..][k - 1];
      }
    }
  }

  /** TorchScriptedController: owns a module whose attributes the calls change in place. Copying the
      attributes is the module's deep copy. */
  class TorchScriptedController {
    var attributes: Policy

    constructor (serialized: Policy)
      ensures attributes == serialized
    {
      attributes := serialized;
    }

    method CallForward(o: Outcome) returns (tau: Option<Vec>)
      modifies this
      ensures (attributes, tau) == Forward(old(attributes), o)
    {
      if Indexed(attributes) && attributes.step >= attributes.horizon {
        return None;
      }
      if o.Raises? && (attributes.kind.Waypoints? || !o.late) {
        return None;
      }
      if Indexed(attributes) {
        attributes := attributes.(step := attributes.step + 1);
        if attributes.step == attributes.horizon {
          attributes := attributes.(terminated := true);
        }
      } else if o.finish {
        attributes := attributes.(terminated := true);
      }
      tau := if o.Computes? then Some(o.tau) else None;
    }

    /** Back up, call, restore. An exception escapes from the constructor that runs this. */
    method WarmUp(outcomes: seq<Outcome>) returns (ok: bool)
      modifies this
      ensures ok <==> ForwardAll(old(attributes), outcomes).Some?
      ensures ok ==> attributes == old(attributes)
    {
      var backup := attributes;
      var k := 0;
      while k < |outcomes|
        invariant 0 <= k <= |outcomes|
        invariant ForwardAll(backup, outcomes) == ForwardAll(attributes, outcomes[k..])
      {
        assert outcomes[k..][0] == outcomes[k] && outcomes[k..][1..] == outcomes[k + 1..];
        var tau := CallForward(outcomes[k]);
        if tau.None? {
          return false;
        }
        k := k + 1;
      }
      attributes := backup;
      return true;
    }

    method Update(dict: seq<(string, Vec)>) returns (ok: bool)
      modifies this
      ensures var (after, done) := Updated(old(attributes).params, dict);
              attributes == old(attributes).(params := after) && ok == done
      ensures var n := FittingPrefix(old(attributes).params, dict);
              (ok <==> n == |dict|) && PrefixApplied(old(attributes).params, dict, n, attributes.params)
    {
      UpdateIsPrefix(attributes.params, dict);
      var k := 0;
      while k < |dict|
        invariant 0 <= k <= |dict|
        invariant attributes == old(attributes).(params := attributes.params)
        invariant Updated(old(attributes).params, dict) == Updated(attributes.params, dict[k..])
      {
        assert dict[k..][0] == dict[k] && dict[k..][1..] == dict[k + 1..];
        var (name, v) := dict[k];
        if name !in attributes.params {
          return false;
        }
        var copied := CopyInto(attributes.params[name], v);
        if copied.None? {
          return false;
        }
        attributes := attributes.(params := attributes.params[name := copied.value]);
        k := k + 1;
      }
      return true;
    }
  }

  // ----- Default controller -----

  datatype Hold = Hold(running: bool, setpoint: Vec)

  const RELEASED: Hold := Hold(false, [])

  /** The default controller latches the measured position on its first call after a reset. A call that
      raises late has latched already. */
  function HoldForward(d: Hold, q: Vec, o: Outcome): (Hold, Option<Vec>) {
    var latched := if d.running then d else Hold(true, q);
    match o
    case Computes(tau, _) => (latched, Some(tau))
    case Raises(late, _) => (if late then latched else d, None)
  }

  class DefaultController {
    var running: bool
    var jointPosDesired: Vec

    constructor (numDofs: nat)
      ensures View() == RELEASED
    {
      running := false;
      jointPosDesired := seq(numDofs, _ => 0.0);
    }

    /** The setpoint does not matter while it is not latched. */
    ghost function View(): Hold
      reads this
    {
      if running then Hold(true, jointPosDesired) else RELEASED
    }

    method Reset()
      modifies this
      ensures View() == RELEASED
    {
      running := false;
    }

    method CallForward(q: Vec, o: Outcome) returns (tau: Option<Vec>)
      modifies this
      ensures (View(), tau) == HoldForward(old(View()), q, o)
    {
      if o.Raises? && !o.late {
        return None;
      }
      if !running {
        jointPosDesired := q;
        running := true;
      }
      tau := if o.Computes? then Some(o.tau) else None;
    }
  }
}
