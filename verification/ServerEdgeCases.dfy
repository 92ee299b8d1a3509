/** Where the controller manager's promises stop holding, and exactly when. */
module ServerEdgeCases {
  import opened Wrappers
  import opened Policies
  import opened ServerModel
  import opened ServerInvariants
  import opened ServerTheorems
  import opened TrajectoryRuns

  /** A timeout on a controller that is installed but not started kills it: SetController answers -1, no
      entry is ever computed by it, and the server then reports an end without a begin. */
  lemma TimeoutBeforeStart(s: State, now: int, state: RobotState, o: Outcome)
    requires Inv(s) && s.pc.Idle? && s.status.Ready? && !s.halted && Stale(s, now)
    ensures var a := Next(s, Enter(now));
            && Enabled(a, RespondSet) && Enabled(Next(a, RespondSet), Section(state, o))
            && var n := Next(Next(a, RespondSet), Section(state, o));
            && n.responses == s.responses + [SetDone(|s.episodes| - 1, -1)]
            && n.status.Terminated? && Current(n).Killed?
            && n.begin == -1 && n.end == |s.log| - 1 && n.log == s.log
            && (n.pc.Computed? ==> n.pc.entry.origin.FromDefault?)
  {
    var a := Next(s, Enter(now));
    assert s.service == Installing(|s.episodes| - 1) && s.begin == -1;
    var r := Next(a, RespondSet);
    assert Marked(r).status.Terminated? && Current(Marked(r)).Killed?;
  }

  /** The smallest run that needs the hypothesis on timeouts: one controller, installed and then hit by
      a timeout before its first update. The server reports the empty interval's end as set. */
  lemma TimeoutHypothesisNeeded(p: Policy, warmUp: seq<Outcome>, q: RobotState, tau: Vec)
    requires |warmUp| == WARM_UP_ITERS && ForwardAll(p, warmUp).Some?
    ensures exists es :: IsRun(INIT, es) && !TimelyRun(INIT, es)
                         && Exec(INIT, es).status.Terminated? && Exec(INIT, es).begin == -1
                         && |Exec(INIT, es).log| == 1 && Exec(INIT, es).end == 0
  {
    var before := OneLogged(p, warmUp, q, tau);
    var o := Computes(tau, false);
    var late := Enter(THRESHOLD_NS);
    var es := Then(before, late);
    es := Then(es, Section(q, o));
    var s := Exec(INIT, before);
    ExecTwo(s, late, Section(q, o));
    assert !TimelyRun(s, [late, Section(q, o)]);
    UntimelyAfter(INIT, before, [late, Section(q, o)]);
    assert es == before + [late, Section(q, o)];
  }

  /** One state logged, and a controller waiting for its first update. */
  lemma OneLogged(p: Policy, warmUp: seq<Outcome>, q: RobotState, tau: Vec) returns (es: seq<Event>)
    requires |warmUp| == WARM_UP_ITERS && ForwardAll(p, warmUp).Some?
    ensures IsRun(INIT, es)
    ensures var s := Exec(INIT, es);
            && s.status.Ready? && s.pc.Idle? && !s.halted && |s.log| == 1 && |s.episodes| == 1
            && s.begin == -1 && s.lastUpdate == 0 && s.service.Installing?
  {
    es := [];
    es := Then(es, Enter(0));
    es := Then(es, Section(q, Computes(tau, false)));
    es := Then(es, Append);
    es := Then(es, Tail(0));
    es := Then(es, Install(p, warmUp));
  }

  lemma {:induction false} UntimelyAfter(s: State, es: seq<Event>, fs: seq<Event>)
    requires IsRun(s, es) && IsRun(Exec(s, es), fs) && !TimelyRun(Exec(s, es), fs)
    ensures IsRun(s, es + fs) && !TimelyRun(s, es + fs)
    decreases |es|
  {
    if es == [] {
      assert es + fs == fs;
    } else {
      assert (es + fs)[1..] == es[1..] + fs;
      UntimelyAfter(Next(s, es[0]), es[1..], fs);
    }
  }

  // ----- Controllers that only raise -----

  /** Every update raises, and nobody stops or replaces the running controller. */
  predicate Raising(s: State, e: Event) {
    match e
    case Enter(now) => now - s.lastUpdate < THRESHOLD_NS
    case Section(_, o) => s.custom.Some? && Forward(s.custom.value, o).1.None?
    case Install(policy, warmUp) => ForwardAll(policy, warmUp).None?
    case Terminate => false
    case RespondTerminate => false
    case _ => true
  }

  ghost predicate RaisingRun(s: State, es: seq<Event>)
    requires IsRun(s, es)
    decreases |es|
  {
    es == [] || (Raising(s, es[0]) && RaisingRun(Next(s, es[0]), es[1..]))
  }

  /** Nothing has been logged and no update has succeeded since `s`. */
  predicate Stuck(s: State, t: State) {
    && t.status.Running? && (t.pc.Idle? || t.pc.Entered?)
    && t.log == s.log && t.begin == s.begin && t.end == s.end && t.lastUpdate == s.lastUpdate
    && |t.episodes| == |s.episodes| && t.disturbed == s.disturbed
  }

  lemma {:induction false} RaisingKeeps(s: State, es: seq<Event>)
    requires Shape(s) && s.status.Running? && (s.pc.Idle? || s.pc.Entered?)
    requires IsRun(s, es) && RaisingRun(s, es)
    ensures Stuck(s, Exec(s, es))
    decreases |es|
  {
    if es == [] {
    } else {
      ShapeKept(s, es[0]);
      RaisingStep(s, es[0]);
      RaisingKeeps(Next(s, es[0]), es[1..]);
    }
  }

  lemma RaisingStep(s: State, e: Event)
    requires Shape(s) && s.status.Running? && (s.pc.Idle? || s.pc.Entered?) && Enabled(s, e) && Raising(s, e)
    ensures Stuck(s, Next(s, e))
  {
  }

  /** The section of an update that timed out on a running controller. */
  lemma StaleStops(t: State, now: int, state: RobotState, o: Outcome)
    requires Inv(t) && t.status.Running? && t.pc.Idle? && !t.halted && Stale(t, now)
    ensures IsRun(t, [Enter(now), Section(state, o)])
    ensures var n := Exec(t, [Enter(now), Section(state, o)]);
            && n.status.Terminated? && n.log == t.log && n.begin == t.begin >= 0 && n.end == |t.log| - 1
            && |n.episodes| == |t.episodes| && Exact(n.log, |t.episodes| - 1, n.begin, n.end)
            && (o.Computes? ==> ServedByDefault(n.pc, state, o.tau))
  {
    var n := Next(Next(t, Enter(now)), Section(state, o));
    ExecTwo(t, Enter(now), Section(state, o));
    assert [Enter(now)] + [Section(state, o)] == [Enter(now), Section(state, o)];
    InvRun(t, [Enter(now), Section(state, o)]);
    StaleSection(t, now, state, o);
    ExactFromPartition(n);
  }

  /** The pending update was computed by the default controller, holding the position it sees. */
  predicate ServedByDefault(pc: Pc, state: RobotState, tau: Vec) {
    && pc.Computed? && pc.entry.state == state && pc.entry.torque == tau
    && pc.entry.origin.FromDefault? && pc.entry.origin.setpoint == state.q
  }

  lemma StaleSection(t: State, now: int, state: RobotState, o: Outcome)
    requires Shape(t) && Reported(t) && Partitioned(t) && t.status.Running? && t.pc.Idle? && !t.halted && Stale(t, now)
    ensures var n := Next(Next(t, Enter(now)), Section(state, o));
            && n.status.Terminated? && n.log == t.log && n.begin == t.begin >= 0 && n.end == |t.log| - 1
            && |n.episodes| == |t.episodes| && n.episodes != [] && Current(n) == Over(n.begin, n.end)
            && (o.Computes? ==> ServedByDefault(n.pc, state, o.tau))
  {
  }

  /** A controller that only raises is stopped by the first update that begins a second or more after the last one
      that succeeded: no state has been logged in between, the episode is closed with an exact interval, and that
      very update is served by the default controller, which holds the position it sees. */
  lemma RaisingControllerStopped(s: State, es: seq<Event>, now: int, state: RobotState, o: Outcome)
    requires Inv(s) && s.status.Running? && (s.pc.Idle? || s.pc.Entered?)
    requires IsRun(s, es) && RaisingRun(s, es) && Exec(s, es).pc.Idle? && !Exec(s, es).halted
    requires now - s.lastUpdate >= THRESHOLD_NS
    ensures var t := Exec(s, es);
            && IsRun(t, [Enter(now), Section(state, o)])
            && var n := Exec(t, [Enter(now), Section(state, o)]);
            && n.status.Terminated? && n.log == s.log && n.begin == s.begin >= 0 && n.end == |s.log| - 1
            && |n.episodes| == |s.episodes| && Exact(n.log, |s.episodes| - 1, n.begin, n.end)
            && (o.Computes? ==> ServedByDefault(n.pc, state, o.tau))
  {
    RaisingKeeps(s, es);
    InvRun(s, es);
    StaleStops(Exec(s, es), now, state, o);
  }

  // ----- Policies that count before they compute -----

  predicate Exhausted(s: State) {
    s.status.Running? && s.custom.Some? && Indexed(s.custom.value) && s.custom.value.step >= s.custom.value.horizon
  }

  /** A section leaves the server about to step a counting policy past its last waypoint exactly when the
      policy counts first and its computation raises on the last waypoint: the termination flag is set
      but the update that would have looked at it has failed. */
  lemma ExhaustedExactly(s: State, state: RobotState, o: Outcome)
    requires Inv(s) && Enabled(s, Section(state, o)) && Marked(s).status.Running? && Indexed(s.custom.value)
    requires s.custom.value.step < s.custom.value.horizon
    ensures var n := Next(s, Section(state, o));
            Exhausted(n) && n.pc.Idle? <==>
              o.Raises? && o.late && s.custom.value.kind.Ilqr? && s.custom.value.step + 1 == s.custom.value.horizon
  {
  }

  /** The events of a server whose control loop keeps running in time and that nobody stops. */
  predicate Unattended(s: State, e: Event) {
    match e
    case Enter(now) => now - s.lastUpdate < THRESHOLD_NS
    case Install(policy, warmUp) => ForwardAll(policy, warmUp).None?
    case Terminate => false
    case RespondTerminate => false
    case _ => true
  }

  ghost predicate UnattendedRun(s: State, es: seq<Event>)
    requires IsRun(s, es)
    decreases |es|
  {
    es == [] || (Unattended(s, es[0]) && UnattendedRun(Next(s, es[0]), es[1..]))
  }

  /** An exhausted policy raises whatever it is asked, so RaisingControllerStopped says how its episode ends. */
  lemma {:induction false} ExhaustedRaises(s: State, es: seq<Event>)
    requires Shape(s) && Exhausted(s) && (s.pc.Idle? || s.pc.Entered?)
    requires IsRun(s, es) && UnattendedRun(s, es)
    ensures RaisingRun(s, es) && Exhausted(Exec(s, es))
    decreases |es|
  {
    if es == [] {
    } else {
      ShapeKept(s, es[0]);
      ExhaustedStep(s, es[0]);
      ExhaustedRaises(Next(s, es[0]), es[1..]);
    }
  }

  lemma ExhaustedStep(s: State, e: Event)
    requires Shape(s) && Exhausted(s) && (s.pc.Idle? || s.pc.Entered?) && Enabled(s, e) && Unattended(s, e)
    ensures Raising(s, e) && Exhausted(Next(s, e)) && (Next(s, e).pc.Idle? || Next(s, e).pc.Entered?)
  {
  }

  /** Every iLQR policy that loads gets there in some run of the server: all its steps but the last succeed. */
  lemma ExhaustedReachable(p: Policy, warmUp: seq<Outcome>, q: RobotState, tau: Vec) returns (es: seq<Event>)
    requires Fresh(p) && p.kind.Ilqr? && |warmUp| == WARM_UP_ITERS && ForwardAll(p, warmUp).Some?
    ensures IsRun(INIT, es) && Exhausted(Exec(INIT, es)) && Exec(INIT, es).pc.Idle?
    ensures |Exec(INIT, es).log| == p.horizon - p.step - 1 && Exec(INIT, es).begin == 0
    ensures Exec(INIT, es).lastUpdate == 0
  {
    es := SomeUpdates(p, warmUp, q, tau, p.horizon - p.step - 1);
    es := Then(es, Enter(0));
    es := Then(es, Section(q, Raises(true, false)));
  }

  /** A run of `k` successful updates, all at time zero. */
  lemma {:induction false} SomeUpdates(p: Policy, warmUp: seq<Outcome>, q: RobotState, tau: Vec, k: nat)
    returns (es: seq<Event>)
    requires Fresh(p) && |warmUp| == WARM_UP_ITERS && ForwardAll(p, warmUp).Some? && k < p.horizon - p.step
    ensures IsRun(INIT, es)
    ensures Running(Exec(INIT, es), p, k)
    decreases k
  {
    if k == 0 {
      es := Then([], Install(p, warmUp));
    } else {
      es := SomeUpdates(p, warmUp, q, tau, k - 1);
      es := OneUpdate(es, p, q, tau, k - 1);
    }
  }

  lemma OneUpdate(a: seq<Event>, p: Policy, q: RobotState, tau: Vec, k: nat) returns (es: seq<Event>)
    requires IsRun(INIT, a) && Running(Exec(INIT, a), p, k) && Fresh(p) && k + 1 < p.horizon - p.step
    ensures IsRun(INIT, es) && Running(Exec(INIT, es), p, k + 1)
  {
    es := Then(a, Enter(0));
    es := Then(es, Section(q, Computes(tau, false)));
    es := Then(es, Append);
    es := Then(es, Tail(0));
  }

  /** The first controller of the server after `k` updates. */
  predicate Running(s: State, p: Policy, k: nat) {
    && s.pc.Idle? && !s.halted && s.lastUpdate == 0 && |s.episodes| == 1 && |s.log| == k
    && (if k == 0 then s.status.Ready? else s.status.Running? && s.begin == 0)
    && s.custom == Some(p.(step := p.step + k))
  }
}
