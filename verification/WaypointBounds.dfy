/** The step counter of a trajectory policy never leaves the trajectory, and counts log entries. */
module WaypointBounds {
  import opened Wrappers
  import opened Policies
  import opened ServerModel
  import opened ServerInvariants

  ghost predicate LoadedRight(p: Policy) {
    Indexed(p) ==> p.step + WARM_UP_ITERS <= p.horizon
  }

  /** An entry of a trajectory policy was computed from a waypoint that exists; unless the policy has counted a
      step it did not compute, it is the one whose offset is the entry's offset in the episode. */
  ghost predicate WaypointRight(s: State, o: Origin, j: int) {
    o.FromCustom? && o.id < |s.loaded| && o.id < |s.episodes| && Indexed(s.loaded[o.id]) ==>
      && o.waypoint < s.loaded[o.id].horizon
      && (o.id !in s.late && (s.episodes[o.id].Active? || s.episodes[o.id].Over?) ==>
            o.waypoint == s.loaded[o.id].step + (j - s.episodes[o.id].begin))
  }

  /** Only a policy that counts before it computes can raise late. */
  ghost predicate LateRight(s: State) {
    forall id :: id in s.late ==> id < |s.loaded| && s.loaded[id].kind.Ilqr?
  }

  /** The counter of the current policy; while its section can run, it indexes a waypoint. */
  ghost predicate CounterRight(s: State) {
    s.episodes != [] && s.custom.Some? && |s.loaded| == |s.episodes| ==>
      var p, first := s.custom.value, s.loaded[|s.loaded| - 1];
      && p.kind == first.kind && p.horizon == first.horizon
      && (Indexed(p) ==>
            && p.step <= p.horizon && (p.step == p.horizon ==> p.terminated)
            && (Current(s).Waiting? ==> p.step == first.step && p.step < p.horizon))
      && (Indexed(p) && |s.loaded| - 1 !in s.late ==>
            && (Current(s).Active? ==>
                  p.step == first.step + (|s.log| - Current(s).begin) + if InFlight(s) then 1 else 0)
            && (s.status.Running? && (s.pc.Idle? || s.pc.Entered?) ==> p.step < p.horizon))
  }

  ghost predicate Counted(s: State) {
    && (forall k :: 0 <= k < |s.loaded| ==> LoadedRight(s.loaded[k]))
    && LateRight(s)
    && CounterRight(s)
    && (forall j :: 0 <= j < |s.log| ==> WaypointRight(s, s.log[j].origin, j))
    && (s.pc.Computed? ==> WaypointRight(s, s.pc.entry.origin, |s.log|))
  }

  lemma CountedKept(s: State, e: Event)
    requires Shape(s) && Partitioned(s) && Counted(s) && Enabled(s, e)
    ensures Counted(Next(s, e))
  {
    match e {
      case Section(state, o) => CountedSection(s, state, o);
      case Install(policy, warmUp) => CountedInstall(s, policy, warmUp);
      case Append => CountedAppend(s);
      case ApplyUpdate => CountedApplied(s);
      case Enter(_) => ClientStepFrame(s, e); CountedEnter(s, Next(s, e));
      case Tail(_) => ClientStepFrame(s, e); CountedTail(s, Next(s, e));
      case _ => ServiceStepFrame(s, e); CountedService(s, Next(s, e));
    }
  }

  lemma CountedEnter(s: State, n: State)
    requires Counted(s) && EnterFrame(s, n)
    ensures Counted(n)
  {
  }

  lemma CountedTail(s: State, n: State)
    requires Counted(s) && TailFrame(s, n)
    ensures Counted(n)
  {
  }

  lemma CountedService(s: State, n: State)
    requires Counted(s) && ServiceFrame(s, n)
    ensures Counted(n)
  {
  }

  lemma CountedSection(s: State, state: RobotState, o: Outcome)
    requires Shape(s) && Partitioned(s) && Counted(s) && s.pc.Entered?
    ensures Counted(Computing(Marked(s), state, o))
  {
    ShapeMarked(s);
    CountedMarked(s);
    CountedComputing(Marked(s), state, o);
  }

  lemma CountedInstall(s: State, policy: Policy, warmUp: seq<Outcome>)
    requires Shape(s) && Partitioned(s) && Counted(s) && Enabled(s, Install(policy, warmUp))
    ensures Counted(Next(s, Install(policy, warmUp)))
  {
    if ForwardAll(policy, warmUp).Some? {
      CountedInstalled(s, policy, warmUp);
    } else {
      CountedService(s, Respond(s, SetFailed));
    }
  }

  lemma CountedMarked(s: State)
    requires Shape(s) && Partitioned(s) && Counted(s) && s.pc.Entered?
    ensures Counted(Marked(s))
  {
    var next := Marked(s);
    forall j | 0 <= j < |s.log| ensures WaypointRight(next, s.log[j].origin, j) {
      assert WaypointRight(s, s.log[j].origin, j);
      assert TaggedRight(s.episodes, s.log[j].origin, j);
    }
  }

  lemma CountedComputing(s: State, state: RobotState, o: Outcome)
    requires Shape(s) && Counted(s) && s.pc.Entered?
    requires s.episodes != [] && Current(s).Active? <==> s.status.Running?
    ensures Counted(Computing(s, state, o))
  {
    if s.status.Running? && s.custom.Some? {
      CountedCustom(s, state, o);
    } else {
      CountedDefault(s, state, o);
    }
  }

  lemma CountedCustom(s: State, state: RobotState, o: Outcome)
    requires Shape(s) && Counted(s) && s.pc.Entered? && s.status.Running? && s.custom.Some?
    requires s.episodes != [] && Current(s).Active?
    ensures Counted(AskCustom(s, state, o))
  {
    var next := AskCustom(s, state, o);
    forall j | 0 <= j < |s.log| ensures WaypointRight(next, s.log[j].origin, j) {
      assert WaypointRight(s, s.log[j].origin, j);
    }
  }

  lemma CountedDefault(s: State, state: RobotState, o: Outcome)
    requires Counted(s) && s.pc.Entered? && !s.status.Running?
    requires s.episodes != [] ==> !Current(s).Active?
    ensures Counted(AskDefault(s, state, o))
  {
    var next := AskDefault(s, state, o);
    forall j | 0 <= j < |s.log| ensures WaypointRight(next, s.log[j].origin, j) {
      assert WaypointRight(s, s.log[j].origin, j);
    }
  }

  lemma CountedAppend(s: State)
    requires Shape(s) && Counted(s) && Enabled(s, Append)
    ensures Counted(Next(s, Append))
  {
    var next := Next(s, Append);
    forall j | 0 <= j < |next.log| ensures WaypointRight(next, next.log[j].origin, j) {
      if j < |s.log| {
        assert WaypointRight(s, s.log[j].origin, j);
      }
    }
  }

  lemma CountedInstalled(s: State, policy: Policy, warmUp: seq<Outcome>)
    requires Shape(s) && Partitioned(s) && Counted(s)
    requires |warmUp| == WARM_UP_ITERS && ForwardAll(policy, warmUp).Some?
    ensures Counted(Installed(s, policy))
  {
    var next := Installed(s, policy);
    WarmedUp(policy, warmUp);
    forall j | 0 <= j < |s.log| ensures WaypointRight(next, s.log[j].origin, j) {
      assert WaypointRight(s, s.log[j].origin, j);
      assert TaggedRight(s.episodes, s.log[j].origin, j);
    }
    if s.pc.Computed? {
      assert TaggedRight(s.episodes, s.pc.entry.origin, |s.log|);
    }
  }

  lemma CountedApplied(s: State)
    requires Shape(s) && Counted(s) && s.service.Updating? && s.custom.Some?
    ensures Counted(Applied(s))
  {
    var next := Applied(s);
    forall j | 0 <= j < |s.log| ensures WaypointRight(next, s.log[j].origin, j) {
      assert WaypointRight(s, s.log[j].origin, j);
    }
  }

  /** A policy that survives the warm-up has a waypoint left for each of the warm-up's calls. */
  lemma {:induction false} WarmedUp(p: Policy, outcomes: seq<Outcome>)
    requires ForwardAll(p, outcomes).Some?
    ensures Indexed(p) && outcomes != [] ==> p.step + |outcomes| <= p.horizon
    decreases |outcomes|
  {
    if outcomes == [] {
    } else {
      WarmedUp(Forward(p, outcomes[0]).0, outcomes[1..]);
    }
  }
}
