/** The life of a controller that is not a trajectory: it runs until it asks to finish itself
    (set_terminated in polymetis/python/torchcontrol/_module.py, looked at by ControlUpdate). */
module ContinuingRuns {
  import opened Wrappers
  import opened Policies
  import opened ServerModel
  import opened ServerInvariants
  import opened ServerTheorems

  /** No timeout, and no client stops or replaces the controller, though one may try with a controller that does not
      load. The controller may raise and ask to finish. */
  predicate Unstopped(s: State, e: Event) {
    match e
    case Enter(now) => now - s.lastUpdate < THRESHOLD_NS
    case Install(policy, warmUp) => ForwardAll(policy, warmUp).None?
    case Terminate => false
    case RespondTerminate => false
    case _ => true
  }

  ghost predicate UnstoppedRun(s: State, es: seq<Event>)
    requires IsRun(s, es)
    decreases |es|
  {
    es == [] || (Unstopped(s, es[0]) && UnstoppedRun(Next(s, es[0]), es[1..]))
  }

  /** The call asks to finish; a call that raises before it changed anything does not. */
  predicate AsksToFinish(o: Outcome) {
    o.finish && (o.Computes? || o.late)
  }

  // ----- The life of a controller, told by the events alone -----

  datatype Stage =
    | Fresh                       // no section yet
    | Open                        // some section, none has asked to finish
    | Asked                       // some section has asked to finish
    | Ending                      // and an update call has completed since
    | Closed                      // and a section has come since

  /** `served` counts the sections up to the end that computed a torque, `completed` the update calls that completed. */
  datatype Life = Life(stage: Stage, served: nat, completed: nat)

  const BORN: Life := Life(Fresh, 0, 0)

  function Lived(l: Life, e: Event): Life {
    match e
    case Section(_, o) =>
      if l.stage.Ending? || l.stage.Closed? then l.(stage := Closed)
      else l.(stage := if l.stage.Asked? || AsksToFinish(o) then Asked else Open,
              served := l.served + if o.Computes? then 1 else 0)
    case Tail(_) =>
      if l.stage.Asked? then l.(stage := Ending, completed := l.completed + 1)
      else if l.stage.Open? then l.(completed := l.completed + 1)
      else l
    case _ => l
  }

  function LivedAll(l: Life, es: seq<Event>): Life
    decreases |es|
  {
    if es == [] then l else LivedAll(Lived(l, es[0]), es[1..])
  }

  /** The life ends exactly when, in this order, a section asks to finish, an update call completes, and another section
      comes. */
  lemma {:induction false} ClosedExactly(l: Life, es: seq<Event>)
    requires l.stage.Fresh? || l.stage.Open?
    ensures LivedAll(l, es).stage.Closed? <==> exists i, j, k :: FinishesAt(es, i, j, k)
    decreases |es|
  {
    if es == [] {
    } else {
      var rest := es[1..];
      assert forall n :: 0 <= n < |rest| ==> rest[n] == es[n + 1];
      assert forall i, j, k :: FinishesAt(rest, i, j, k) ==> FinishesAt(es, i + 1, j + 1, k + 1);
      assert forall i, j, k :: FinishesAt(es, i, j, k) && i > 0 ==> FinishesAt(rest, i - 1, j - 1, k - 1);
      if Lived(l, es[0]).stage.Asked? {
        EndsExactly(Lived(l, es[0]), rest);
        assert forall j, k :: EndsAt(rest, j, k) ==> FinishesAt(es, 0, j + 1, k + 1);
        assert forall i, j, k :: FinishesAt(es, i, j, k) ==> EndsAt(rest, j - 1, k - 1);
      } else {
        ClosedExactly(Lived(l, es[0]), rest);
      }
    }
  }

  predicate FinishesAt(es: seq<Event>, i: int, j: int, k: int) {
    0 <= i < j < k < |es| && es[i].Section? && AsksToFinish(es[i].outcome) && es[j].Tail? && es[k].Section?
  }

  predicate EndsAt(es: seq<Event>, j: int, k: int) {
    0 <= j < k < |es| && es[j].Tail? && es[k].Section?
  }

  lemma {:induction false} EndsExactly(l: Life, es: seq<Event>)
    requires l.stage.Asked?
    ensures LivedAll(l, es).stage.Closed? <==> exists j, k :: EndsAt(es, j, k)
    decreases |es|
  {
    if es == [] {
    } else {
      var rest := es[1..];
      assert forall n :: 0 <= n < |rest| ==> rest[n] == es[n + 1];
      if es[0].Tail? {
        ClosesExactly(Lived(l, es[0]), rest);
        assert forall k :: 0 <= k < |rest| && rest[k].Section? ==> EndsAt(es, 0, k + 1);
        assert forall j, k :: EndsAt(es, j, k) ==> rest[k - 1].Section?;
      } else {
        EndsExactly(Lived(l, es[0]), rest);
        assert forall j, k :: EndsAt(rest, j, k) ==> EndsAt(es, j + 1, k + 1);
        assert forall j, k :: EndsAt(es, j, k) ==> EndsAt(rest, j - 1, k - 1);
      }
    }
  }

  lemma {:induction false} ClosesExactly(l: Life, es: seq<Event>)
    requires l.stage.Ending? || l.stage.Closed?
    ensures LivedAll(l, es).stage.Closed? <==> l.stage.Closed? || exists k :: 0 <= k < |es| && es[k].Section?
    decreases |es|
  {
    if es == [] {
    } else {
      assert forall k :: 0 <= k < |es[1..]| ==> es[1..][k] == es[k + 1];
      ClosesExactly(Lived(l, es[0]), es[1..]);
    }
  }

  // ----- The server follows it -----

  predicate IsOf(o: Origin, id: nat) {
    o.FromCustom? && o.id == id
  }

  /** The entries from `b` on are `id`'s up to the number it has served, and no later ones are. */
  ghost predicate ServedBy(s: State, id: nat, b: nat, served: nat) {
    && (forall i :: b <= i < |s.log| ==> (IsOf(s.log[i].origin, id) <==> i < b + served))
    && (s.pc.Computed? && b <= |s.log| ==> (IsOf(s.pc.entry.origin, id) <==> |s.log| < b + served))
  }

  /** The server in life `l` of controller `id`, whose first entry has index `b`. */
  ghost predicate Lives(s: State, id: nat, b: nat, l: Life) {
    && |s.episodes| == id + 1 && s.custom.Some? && s.custom.value.kind.Continuing? && !s.service.Stopping?
    && (s.custom.value.terminated <==> l.stage.Asked? || l.stage.Ending? || l.stage.Closed?)
    && ServedBy(s, id, b, l.served) && s.timestep == l.completed
    && match l.stage
       case Fresh =>
         s.status.Ready? && Current(s).Waiting? && s.begin == s.end == -1 && NextIndex(s) == b && l.served == 0
       case Open => IsOpen(s, b, l.served) && s.status.Running?
       case Asked => IsOpen(s, b, l.served) && s.status.Running?
       case Ending => IsOpen(s, b, l.served) && s.status.Terminating? && (s.pc.Idle? || s.pc.Entered?)
       case Closed =>
         && s.status.Terminated? && Current(s) == Over(b, b + l.served - 1) && s.begin == b && s.end == b + l.served - 1
         && b + l.served <= |s.log|
  }

  ghost predicate IsOpen(s: State, b: nat, served: nat) {
    s.episodes != [] && Current(s) == Active(b) && s.begin == b && s.end == -1 && NextIndex(s) == b + served
  }

  lemma LivesInstall(s: State, p: Policy, warmUp: seq<Outcome>)
    requires Inv(s) && Enabled(s, Install(p, warmUp)) && ForwardAll(p, warmUp).Some?
    requires p.kind.Continuing? && !p.terminated
    ensures Lives(Next(s, Install(p, warmUp)), |s.episodes|, NextIndex(s), BORN)
  {
    if s.pc.Computed? {
      assert TaggedRight(s.episodes, s.pc.entry.origin, |s.log|);
    }
  }

  lemma LivesStep(s: State, e: Event, id: nat, b: nat, l: Life)
    requires Shape(s) && Lives(s, id, b, l) && Enabled(s, e) && Unstopped(s, e)
    ensures Lives(Next(s, e), id, b, Lived(l, e))
  {
    match e {
      case Section(state, o) => LivesSection(s, state, o, id, b, l);
      case Append => LivesAppend(s, id, b, l);
      case Tail(now) => LivesTail(s, now, id, b, l);
      case ApplyUpdate => LivesApplied(s, id, b, l);
      case Install(_, _) => LivesResponse(s, SetFailed, id, b, l);
      case _ => LivesService(s, e, id, b, l);
    }
  }

  lemma LivesSection(s: State, state: RobotState, o: Outcome, id: nat, b: nat, l: Life)
    requires Shape(s) && Lives(s, id, b, l) && Enabled(s, Section(state, o))
    ensures Lives(Computing(Marked(s), state, o), id, b, Lived(l, Section(state, o)))
  {
  }

  lemma LivesAppend(s: State, id: nat, b: nat, l: Life)
    requires Lives(s, id, b, l) && Enabled(s, Append)
    ensures Lives(Next(s, Append), id, b, l)
  {
  }

  lemma LivesTail(s: State, now: int, id: nat, b: nat, l: Life)
    requires Lives(s, id, b, l) && Enabled(s, Tail(now))
    ensures Lives(Next(s, Tail(now)), id, b, Lived(l, Tail(now)))
  {
  }

  lemma LivesApplied(s: State, id: nat, b: nat, l: Life)
    requires Lives(s, id, b, l) && Enabled(s, ApplyUpdate)
    ensures Lives(Next(s, ApplyUpdate), id, b, l)
  {
  }

  lemma LivesResponse(s: State, r: Response, id: nat, b: nat, l: Life)
    requires Lives(s, id, b, l)
    ensures Lives(Respond(s, r), id, b, l)
  {
  }

  lemma LivesService(s: State, e: Event, id: nat, b: nat, l: Life)
    requires Lives(s, id, b, l) && Enabled(s, e) && Unstopped(s, e)
    requires e.Enter? || e.RespondSet? || e.CheckUpdate? || e.GetEpisodeInterval?
    ensures Lives(Next(s, e), id, b, l)
  {
  }

  lemma {:induction false} LivesRun(s: State, es: seq<Event>, id: nat, b: nat, l: Life)
    requires Shape(s) && Lives(s, id, b, l) && IsRun(s, es) && UnstoppedRun(s, es)
    ensures Lives(Exec(s, es), id, b, LivedAll(l, es))
    decreases |es|
  {
    if es == [] {
    } else {
      ShapeKept(s, es[0]);
      LivesStep(s, es[0], id, b, l);
      LivesRun(Next(s, es[0]), es[1..], id, b, Lived(l, es[0]));
    }
  }

  // ----- What clients see of it -----

  /** While nobody stops it, a controller is running from its first section on, with its first index reported and no
      end, until the first section after the first update that completed after it asked to finish. That section
      closes the episode, and the reported interval then is exactly the states it computed torques for. */
  lemma RunsUntilItFinishes(s: State, p: Policy, warmUp: seq<Outcome>, es: seq<Event>)
    requires Inv(s) && Enabled(s, Install(p, warmUp)) && ForwardAll(p, warmUp).Some?
    requires p.kind.Continuing? && !p.terminated
    requires IsRun(Next(s, Install(p, warmUp)), es) && UnstoppedRun(Next(s, Install(p, warmUp)), es)
    ensures var t, l := Exec(Next(s, Install(p, warmUp)), es), LivedAll(BORN, es);
            var b, id := NextIndex(s), |s.episodes|;
            && t.begin == (if l.stage.Fresh? then -1 else b)
            && t.end == (if l.stage.Closed? then b + l.served - 1 else -1)
            && (t.status.Ready? <==> l.stage.Fresh?) && (t.status.Running? <==> l.stage.Open? || l.stage.Asked?)
            && (t.status.Terminating? <==> l.stage.Ending?) && (t.status.Terminated? <==> l.stage.Closed?)
            && (forall i :: b <= i < |t.log| ==> (IsOf(t.log[i].origin, id) <==> i < b + l.served))
            && (l.stage.Closed? ==> b + l.served <= |t.log|)
            && (!l.stage.Closed? ==> NextIndex(t) == b + l.served) && t.timestep == l.completed
  {
    var n := Next(s, Install(p, warmUp));
    InvKept(s, Install(p, warmUp));
    LivesInstall(s, p, warmUp);
    LivesRun(n, es, |s.episodes|, NextIndex(s), BORN);
  }

  /** The run contains no section in which a controller asked to finish. */
  ghost predicate NobodyFinishes(es: seq<Event>) {
    forall k :: 0 <= k < |es| && es[k].Section? ==> !AsksToFinish(es[k].outcome)
  }

  lemma {:induction false} StaysOpen(l: Life, es: seq<Event>)
    requires NobodyFinishes(es) && (l.stage.Fresh? || l.stage.Open?)
    ensures LivedAll(l, es).stage.Fresh? || LivedAll(l, es).stage.Open?
    ensures LivedAll(l, es).stage.Fresh? <==> l.stage.Fresh? && forall k :: 0 <= k < |es| ==> !es[k].Section?
    decreases |es|
  {
    if es == [] {
    } else {
      assert forall k :: 0 <= k < |es[1..]| ==> es[1..][k] == es[k + 1];
      StaysOpen(Lived(l, es[0]), es[1..]);
    }
  }

  /** A controller that never asks to finish, and that nobody stops, runs on whatever else happens: every entry from
      its first section on is its own. */
  lemma RunsOn(s: State, p: Policy, warmUp: seq<Outcome>, es: seq<Event>)
    requires Inv(s) && Enabled(s, Install(p, warmUp)) && ForwardAll(p, warmUp).Some?
    requires p.kind.Continuing? && !p.terminated
    requires IsRun(Next(s, Install(p, warmUp)), es) && UnstoppedRun(Next(s, Install(p, warmUp)), es)
    requires NobodyFinishes(es) && exists k :: 0 <= k < |es| && es[k].Section?
    ensures var t := Exec(Next(s, Install(p, warmUp)), es);
            && t.status.Running? && t.begin == NextIndex(s) && t.end == -1
            && forall i :: t.begin <= i < |t.log| ==> IsOf(t.log[i].origin, |s.episodes|)
  {
    RunsUntilItFinishes(s, p, warmUp, es);
    StaysOpen(BORN, es);
  }
}
