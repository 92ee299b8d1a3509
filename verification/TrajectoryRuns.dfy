/** An undisturbed trajectory: from installation to the closed interval the blocking client waits for
    (send_torch_policy in polymetis/python/polymetis/robot_interface.py), and the log it then gets. */
module TrajectoryRuns {
  import opened Wrappers
  import opened Policies
  import opened StateLogs
  import opened ServerModel
  import opened ServerInvariants
  import opened WaypointBounds
  import opened ServerTheorems

  /** No timeout, no exception from the torque computation, and no other client stops or replaces the
      controller, though one may try with a controller that does not load. Parameter updates, status polls and the
      pending response may come at any time. */
  predicate Undisturbed(s: State, e: Event) {
    match e
    case Enter(now) => now - s.lastUpdate < THRESHOLD_NS
    case Section(_, o) => o.Computes?
    case Install(policy, warmUp) => ForwardAll(policy, warmUp).None?
    case Terminate => false
    case RespondTerminate => false
    case _ => true
  }

  ghost predicate UndisturbedRun(s: State, es: seq<Event>)
    requires IsRun(s, es)
    decreases |es|
  {
    es == [] || (Undisturbed(s, es[0]) && UndisturbedRun(Next(s, es[0]), es[1..]))
  }

  /** A trajectory or iLQR policy with a waypoint for each warm-up call. */
  predicate Fresh(p: Policy) {
    Indexed(p) && p.step + WARM_UP_ITERS <= p.horizon && !p.terminated
  }

  ghost function Sections(es: seq<Event>): nat {
    if es == [] then 0 else (if es[0].Section? then 1 else 0) + Sections(es[1..])
  }

  /** `o` tags the entry with index `i` of the episode of `p` that starts at index `b`. */
  predicate FromStep(o: Origin, p: Policy, id: nat, b: nat, i: int) {
    o.FromCustom? && o.id == id && o.waypoint == p.step + (i - b)
  }

  /** The entries computed by `p` so far were computed from its waypoints in order. */
  ghost predicate InOrder(s: State, p: Policy, id: nat, b: nat, c: nat) {
    var n := p.horizon - p.step;
    && (forall i :: b <= i < |s.log| && i < b + (if c <= n then c else n) ==> FromStep(s.log[i].origin, p, id, b, i))
    && (s.pc.Computed? && 0 < c <= n ==> FromStep(s.pc.entry.origin, p, id, b, |s.log|))
  }

  /** The server `c` locked sections after the installation of `p`, whose first entry has index `b`. */
  ghost predicate Tracking(s: State, p: Policy, id: nat, b: nat, c: nat) {
    var n := p.horizon - p.step;
    && |s.episodes| == id + 1 == |s.loaded| && s.loaded[id] == p && s.custom.Some? && !s.service.Stopping?
    && s.custom.value.kind == p.kind && s.custom.value.horizon == p.horizon
    && InOrder(s, p, id, b, c)
    && (s.status.Ready? <==> c == 0)
    && (if c == 0 then
          Current(s).Waiting? && NextIndex(s) == b && s.begin == s.end == -1
          && s.custom.value.step == p.step && !s.custom.value.terminated
        else if c <= n then
          && Current(s) == Active(b) && s.begin == b && s.end == -1
          && s.custom.value.step == p.step + c && (s.custom.value.terminated <==> c == n)
          && NextIndex(s) == b + c
          && s.status == (if c == n && (s.pc.Idle? || s.pc.Entered?) then Terminating else Running)
        else
          && s.status.Terminated? && Current(s) == Over(b, b + n - 1) && s.begin == b && s.end == b + n - 1
          && b + n <= |s.log|)
  }

  lemma TrackInstall(s: State, p: Policy, warmUp: seq<Outcome>)
    requires Inv(s) && Enabled(s, Install(p, warmUp)) && Fresh(p) && ForwardAll(p, warmUp).Some?
    ensures Tracking(Next(s, Install(p, warmUp)), p, |s.episodes|, NextIndex(s), 0)
  {
  }

  lemma TrackStep(s: State, e: Event, p: Policy, id: nat, b: nat, c: nat)
    requires Shape(s) && Tracking(s, p, id, b, c) && Fresh(p) && Enabled(s, e) && Undisturbed(s, e)
    ensures Tracking(Next(s, e), p, id, b, c + if e.Section? then 1 else 0)
  {
    match e {
      case Section(state, o) => TrackSection(s, state, o, p, id, b, c);
      case Enter(_) => TrackClient(s, e, p, id, b, c);
      case Append => TrackAppend(s, p, id, b, c);
      case Tail(_) => TrackClient(s, e, p, id, b, c);
      case RespondSet => TrackServiceStep(s, e, p, id, b, c);
      case CheckUpdate(_, _) => TrackServiceStep(s, e, p, id, b, c);
      case GetEpisodeInterval => TrackServiceStep(s, e, p, id, b, c);
      case ApplyUpdate => TrackApplied(s, p, id, b, c);
      case Install(_, _) => TrackService(s, Next(s, e), p, id, b, c);
      case Terminate =>
      case RespondTerminate =>
    }
  }

  lemma TrackSection(s: State, state: RobotState, o: Outcome, p: Policy, id: nat, b: nat, c: nat)
    requires Shape(s) && Tracking(s, p, id, b, c) && Fresh(p) && s.pc.Entered? && o.Computes?
    ensures Tracking(Computing(Marked(s), state, o), p, id, b, c + 1)
  {
  }

  lemma TrackAppend(s: State, p: Policy, id: nat, b: nat, c: nat)
    requires Tracking(s, p, id, b, c) && Fresh(p) && Enabled(s, Append)
    ensures Tracking(Next(s, Append), p, id, b, c)
  {
  }

  lemma TrackClient(s: State, e: Event, p: Policy, id: nat, b: nat, c: nat)
    requires Shape(s) && Tracking(s, p, id, b, c) && Fresh(p) && Enabled(s, e) && Undisturbed(s, e)
    requires e.Enter? || e.Tail?
    ensures Tracking(Next(s, e), p, id, b, c)
  {
  }

  lemma TrackApplied(s: State, p: Policy, id: nat, b: nat, c: nat)
    requires Tracking(s, p, id, b, c) && s.service.Updating?
    ensures Tracking(Applied(s), p, id, b, c)
  {
  }

  lemma TrackServiceStep(s: State, e: Event, p: Policy, id: nat, b: nat, c: nat)
    requires Tracking(s, p, id, b, c) && Enabled(s, e)
    requires e.RespondSet? || e.CheckUpdate? || e.GetEpisodeInterval?
    ensures Tracking(Next(s, e), p, id, b, c)
  {
    TrackService(s, Next(s, e), p, id, b, c);
  }

  lemma TrackService(s: State, n: State, p: Policy, id: nat, b: nat, c: nat)
    requires Tracking(s, p, id, b, c) && !n.service.Stopping?
    requires n == s.(service := n.service, responses := n.responses, halted := n.halted)
    ensures Tracking(n, p, id, b, c)
  {
  }

  lemma TrackAll(s: State, e: Event, p: Policy, id: nat, b: nat, c: nat)
    requires Shape(s) && Tracking(s, p, id, b, c) && Fresh(p) && Enabled(s, e) && Undisturbed(s, e)
    ensures Shape(Next(s, e)) && Tracking(Next(s, e), p, id, b, c + if e.Section? then 1 else 0)
  {
    ShapeKept(s, e);
    TrackStep(s, e, p, id, b, c);
  }

  lemma {:induction false} TrackShape(s: State, es: seq<Event>, p: Policy, id: nat, b: nat, c: nat)
    requires Shape(s) && Tracking(s, p, id, b, c) && Fresh(p)
    requires IsRun(s, es) && UndisturbedRun(s, es)
    ensures Shape(Exec(s, es)) && Tracking(Exec(s, es), p, id, b, c + Sections(es))
    decreases |es|
  {
    if es == [] {
    } else {
      TrackAll(s, es[0], p, id, b, c);
      TrackShape(Next(s, es[0]), es[1..], p, id, b, c + if es[0].Section? then 1 else 0);
    }
  }

  lemma TrackRun(s: State, es: seq<Event>, p: Policy, id: nat, b: nat, c: nat)
    requires Inv(s) && Tracking(s, p, id, b, c) && Fresh(p)
    requires IsRun(s, es) && UndisturbedRun(s, es)
    ensures Inv(Exec(s, es)) && Tracking(Exec(s, es), p, id, b, c + Sections(es))
  {
    TrackShape(s, es, p, id, b, c);
    InvRun(s, es);
  }

  /** An undisturbed run of an n-waypoint trajectory: the episode is closed exactly from the (n+1)-th
      locked section on, it then has exactly n entries, and entry j was computed from waypoint j. */
  lemma UndisturbedTrajectory(s: State, p: Policy, warmUp: seq<Outcome>, es: seq<Event>)
    requires Inv(s) && Enabled(s, Install(p, warmUp)) && Fresh(p) && ForwardAll(p, warmUp).Some?
    requires IsRun(Next(s, Install(p, warmUp)), es) && UndisturbedRun(Next(s, Install(p, warmUp)), es)
    ensures var t := Exec(Next(s, Install(p, warmUp)), es);
            var n, b, m := p.horizon - p.step, NextIndex(s), Sections(es);
            && t.begin == (if m == 0 then -1 else b)
            && t.end == (if m <= n then -1 else b + n - 1)
            && (m > n ==> IsTrajectory(t, p, |s.episodes|, b))
  {
    var s0 := Next(s, Install(p, warmUp));
    InvKept(s, Install(p, warmUp));
    TrackInstall(s, p, warmUp);
    TrackRun(s0, es, p, |s.episodes|, NextIndex(s), 0);
    var t := Exec(s0, es);
    if Sections(es) > p.horizon - p.step {
      ClosedTrajectory(t, p, |s.episodes|, NextIndex(s), Sections(es));
    }
  }

  /** Entries b..b+n of the log were computed by controller `id` from its remaining waypoints in order. */
  ghost predicate IsTrajectory(t: State, p: Policy, id: nat, b: nat) {
    && p.step <= p.horizon && b + (p.horizon - p.step) <= |t.log|
    && forall i :: b <= i < b + (p.horizon - p.step) ==> FromStep(t.log[i].origin, p, id, b, i)
  }

  lemma ClosedTrajectory(t: State, p: Policy, id: nat, b: nat, c: nat)
    requires Tracking(t, p, id, b, c) && Fresh(p) && c > p.horizon - p.step
    ensures IsTrajectory(t, p, id, b)
  {
  }

  // ----- The blocking client -----

  ghost function TotalSections(batches: seq<seq<Event>>): nat {
    if batches == [] then 0 else Sections(batches[0]) + TotalSections(batches[1..])
  }

  ghost predicate IsBatchRun(s: State, batches: seq<seq<Event>>)
    decreases |batches|
  {
    batches == [] || (
      && IsRun(s, batches[0]) && Enabled(Exec(s, batches[0]), GetEpisodeInterval)
      && IsBatchRun(Next(Exec(s, batches[0]), GetEpisodeInterval), batches[1..]))
  }

  ghost predicate AllUndisturbed(s: State, batches: seq<seq<Event>>)
    requires IsBatchRun(s, batches)
    decreases |batches|
  {
    batches == [] || (
      && UndisturbedRun(s, batches[0])
      && AllUndisturbed(Next(Exec(s, batches[0]), GetEpisodeInterval), batches[1..]))
  }

  /** The client's polling loop: the server runs a batch of steps, the client asks for the episode
      interval, and stops at the first answer whose end is set. */
  ghost function Poll(s: State, batches: seq<seq<Event>>): Option<(int, int)>
    requires IsBatchRun(s, batches)
    decreases |batches|
  {
    if batches == [] then None
    else
      var t := Next(Exec(s, batches[0]), GetEpisodeInterval);
      var answer := t.responses[|t.responses| - 1];
      if answer.end != -1 then Some((answer.start, answer.end)) else Poll(t, batches[1..])
  }

  lemma PollOnce(s: State, es: seq<Event>, p: Policy, id: nat, b: nat, c: nat)
    requires Shape(s) && Tracking(s, p, id, b, c) && Fresh(p) && IsRun(s, es) && UndisturbedRun(s, es)
    requires Enabled(Exec(s, es), GetEpisodeInterval)
    ensures var t := Next(Exec(s, es), GetEpisodeInterval);
            var d := c + Sections(es);
            Shape(t) && Tracking(t, p, id, b, d) && LastAnswer(t.responses, p, b, d)
  {
    TrackShape(s, es, p, id, b, c);
    TrackAll(Exec(s, es), GetEpisodeInterval, p, id, b, c + Sections(es));
    AnswerWhileTracking(Exec(s, es), p, id, b, c + Sections(es));
  }

  /** The interval reported `c` sections after the installation. */
  predicate LastAnswer(responses: seq<Response>, p: Policy, b: nat, c: nat) {
    var n := p.horizon - p.step;
    && responses != []
    && responses[|responses| - 1] == Interval(if c == 0 then -1 else b, if c <= n then -1 else b + n - 1)
  }

  lemma AnswerWhileTracking(s: State, p: Policy, id: nat, b: nat, c: nat)
    requires Tracking(s, p, id, b, c) && Fresh(p) && Enabled(s, GetEpisodeInterval)
    ensures LastAnswer(Next(s, GetEpisodeInterval).responses, p, b, c)
  {
  }

  /** The blocking client returns exactly when the server has run one locked section more than the
      trajectory has waypoints (so the number of sections still missing decreases with every update),
      and then with the interval of exactly its own episode. */
  lemma {:induction false} BlockingClientReturns(s: State, batches: seq<seq<Event>>, p: Policy, id: nat, b: nat, c: nat)
    requires Shape(s) && Tracking(s, p, id, b, c) && Fresh(p) && c <= p.horizon - p.step
    requires IsBatchRun(s, batches) && AllUndisturbed(s, batches)
    ensures Poll(s, batches) ==
              if c + TotalSections(batches) > p.horizon - p.step then Some((b, b + (p.horizon - p.step) - 1)) else None
    decreases |batches|
  {
    if batches == [] {
    } else {
      PollOnce(s, batches[0], p, id, b, c);
      var t := Exec(s, batches[0]);
      var d := c + Sections(batches[0]);
      if d <= p.horizon - p.step {
        BlockingClientReturns(Next(t, GetEpisodeInterval), batches[1..], p, id, b, d);
      }
    }
  }

  /** What the client then fetches. If the log request is served before the buffer wraps past the start
      of the episode, it is one state per waypoint, in order, even while new states keep arriving. */
  lemma BlockingClientGetsTrajectory(
    s: State, p: Policy, id: nat, b: nat, arrivals: seq<seq<Entry>>, cap: nat)
    requires Fresh(p) && IsTrajectory(s, p, id, b) && s.end == b + (p.horizon - p.step) - 1
    requires |arrivals| >= p.horizon - p.step && |s.log| <= 0x7FFF_FFFF
    requires |Grown(s.log, arrivals, p.horizon - p.step)| - b <= cap
    ensures var n := p.horizon - p.step;
            var w := LogWritten(s.log, arrivals, b, cap, n);
            && (forall k: nat :: k < n ==> LogCursor(b, k) <= EndIndex(s.end, |s.log|))
            && LogCursor(b, n) > EndIndex(s.end, |s.log|)
            && |w| == n
            && forall i :: 0 <= i < n ==>
                 w[i].origin.FromCustom? && w[i].origin.id == id && w[i].origin.waypoint == p.step + i
  {
    var n := p.horizon - p.step;
    LogSurvivesAppends(s.log, arrivals, b, cap, n);
    forall k: nat | k <= n ensures LogCursor(b, k) == b + k {
      CursorInOrder(b, k);
    }
    var w := LogWritten(s.log, arrivals, b, cap, n);
    forall i | 0 <= i < n
      ensures w[i].origin.FromCustom? && w[i].origin.id == id && w[i].origin.waypoint == p.step + i
    {
      assert w[i] == s.log[b + i] && FromStep(s.log[b + i].origin, p, id, b, b + i);
    }
  }
}
