/** Claims about every run of the controller manager, under any interleaving of its requests. */
module ServerTheorems {
  import opened Wrappers
  import opened Policies
  import opened ServerModel
  import opened ServerInvariants
  import opened HandOver
  import opened ParameterUpdates
  import opened WaypointBounds

  ghost predicate Inv(s: State) {
    Shape(s) && Partitioned(s) && Reported(s) && Responded(s) && HandedOver(s) && Versioned(s) && Counted(s)
  }

  lemma InvKept(s: State, e: Event)
    requires Inv(s) && Enabled(s, e)
    ensures Inv(Next(s, e))
  {
    ShapeKept(s, e);
    PartitionKept(s, e);
    ReportedKept(s, e);
    RespondedKept(s, e);
    HandedOverKept(s, e);
    VersionedKept(s, e);
    CountedKept(s, e);
  }

  lemma {:induction false} InvRun(s: State, es: seq<Event>)
    requires Inv(s) && IsRun(s, es)
    ensures Inv(Exec(s, es))
    decreases |es|
  {
    if es == [] {
    } else {
      InvKept(s, es[0]);
      InvRun(Next(s, es[0]), es[1..]);
    }
  }

  /** The locked section and the termination check never find a missing controller. */
  lemma ControllerIsPresent(es: seq<Event>, state: RobotState, o: Outcome, now: int)
    requires IsRun(INIT, es)
    ensures var s := Exec(INIT, es);
            !s.halted ==>
              && (s.pc.Entered? ==> Enabled(s, Section(state, o)))
              && (s.pc.Appended? ==> Enabled(s, Tail(now)))
  {
    InvRun(INIT, es);
  }

  /** The server is lost exactly when a well-formed parameter update arrives before any controller was ever
      installed. */
  lemma LostExactly(es: seq<Event>, e: Event)
    requires IsRun(INIT, es) && Enabled(Exec(INIT, es), e)
    ensures Next(Exec(INIT, es), e).halted <==> e.CheckUpdate? && e.loads && Exec(INIT, es).episodes == []
  {
    InvRun(INIT, es);
    LostStep(Exec(INIT, es), e);
  }

  lemma LostStep(s: State, e: Event)
    requires Shape(s) && Enabled(s, e)
    ensures Next(s, e).halted <==> e.CheckUpdate? && e.loads && s.episodes == []
  {
  }

  // ----- Episodes -----

  /** Every log entry was computed by the controller whose episode contains its index, and by the
      default controller when no episode does. */
  lemma EpisodePartition(es: seq<Event>, j: nat)
    requires IsRun(INIT, es) && j < |Exec(INIT, es).log|
    ensures var s := Exec(INIT, es);
            && (forall k :: 0 <= k < |s.episodes| ==>
                  (In(s.episodes[k], j) <==> s.log[j].origin.FromCustom? && s.log[j].origin.id == k))
            && (s.log[j].origin.FromDefault? <==> forall k :: 0 <= k < |s.episodes| ==> !In(s.episodes[k], j))
  {
    InvRun(INIT, es);
    var s := Exec(INIT, es);
    var o := s.log[j].origin;
    assert TaggedRight(s.episodes, o, j);
    if o.FromCustom? {
      assert In(s.episodes[o.id], j);
    }
  }

  /** The interval a closed episode reports is exactly the set of entries its controller computed. */
  ghost predicate IntervalExact(s: State) {
    Exact(s.log, |s.episodes| - 1, s.begin, s.end)
  }

  ghost predicate Exact(log: seq<Entry>, id: int, begin: int, end: int) {
    forall j :: 0 <= j < |log| ==> (begin <= j <= end <==> log[j].origin.FromCustom? && log[j].origin.id == id)
  }

  lemma ExactFromPartition(s: State)
    requires Shape(s) && Partitioned(s) && s.episodes != [] && Current(s).Over?
    ensures Exact(s.log, |s.episodes| - 1, Current(s).begin, Current(s).end)
    ensures Current(s).begin - 1 <= Current(s).end && 0 <= Current(s).begin
    ensures s.pc.Computed? || Current(s).end < |s.log|
  {
    forall j | 0 <= j < |s.log|
      ensures In(Current(s), j) <==> s.log[j].origin.FromCustom? && s.log[j].origin.id == |s.episodes| - 1
    {
      assert TaggedRight(s.episodes, s.log[j].origin, j);
    }
    assert EpisodeBounds(Current(s), |s.log|, Pending(s.pc).Some?);
  }

  lemma ExactUpToEnd(log: seq<Entry>, id: int, begin: int, end: int)
    requires Exact(log, id, begin, end) && 0 <= begin <= end + 1 <= |log|
    ensures Exact(log, id, begin, |log| - 1) <==> |log| == end + 1
  {
    if end + 1 < |log| {
      assert !(log[end + 1].origin.FromCustom? && log[end + 1].origin.id == id);
    }
  }

  /** After any run the interval of an episode that ran and was closed is exact unless a timeout hit it
      after it was closed and moved its end. */
  lemma ClosedIntervalExact(es: seq<Event>)
    requires IsRun(INIT, es)
    ensures var s := Exec(INIT, es);
            s.status.Terminated? && s.episodes != [] && Current(s).Over? && !s.disturbed ==> IntervalExact(s)
  {
    InvRun(INIT, es);
    var s := Exec(INIT, es);
    if s.episodes != [] && Current(s).Over? {
      ExactFromPartition(s);
    }
  }

  /** Exactly when a timeout on a closed episode leaves it a wrong interval: a timed-out update stamps the latest
      index again, which is wrong as soon as one state has been logged since the close, whether or not another
      timeout has hit before. */
  lemma RestampExactly(s: State, now: int, state: RobotState, o: Outcome)
    requires Inv(s) && s.pc.Idle? && s.status.Terminated? && s.episodes != [] && Current(s).Over?
    requires !s.halted && Stale(s, now)
    ensures IsRun(s, [Enter(now), Section(state, o)])
    ensures var n := Exec(s, [Enter(now), Section(state, o)]);
            && n.begin == s.begin && n.end == |s.log| - 1
            && (IntervalExact(n) <==> |s.log| == Current(s).end + 1)
  {
    ExecTwo(s, Enter(now), Section(state, o));
    RestampedState(s, now, state, o);
    ExactFromPartition(s);
    ExactUpToEnd(s.log, |s.episodes| - 1, s.begin, Current(s).end);
  }

  lemma RestampedState(s: State, now: int, state: RobotState, o: Outcome)
    requires Shape(s) && Reported(s) && s.pc.Idle? && s.status.Terminated? && s.episodes != []
    requires !s.halted && Stale(s, now)
    ensures Enabled(Next(s, Enter(now)), Section(state, o))
    ensures var n := Next(Next(s, Enter(now)), Section(state, o));
            n.begin == s.begin && n.end == |s.log| - 1 && n.log == s.log && |n.episodes| == |s.episodes|
  {
  }

  ghost predicate NoTimeouts(s: State, es: seq<Event>)
    requires IsRun(s, es)
    decreases |es|
  {
    es == [] || (!TimesOut(s, es[0]) && NoTimeouts(Next(s, es[0]), es[1..]))
  }

  lemma {:induction false} EpisodesGrow(s: State, es: seq<Event>)
    requires IsRun(s, es)
    ensures |Exec(s, es).episodes| >= |s.episodes|
    decreases |es|
  {
    if es == [] {
    } else {
      EpisodesGrow(Next(s, es[0]), es[1..]);
    }
  }

  /** The end of a closed episode stays as it is until a timeout or the next installation. */
  lemma {:induction false} EndStays(s: State, es: seq<Event>)
    requires IsRun(s, es) && NoTimeouts(s, es) && s.status.Terminated?
    requires |Exec(s, es).episodes| == |s.episodes|
    ensures Exec(s, es).status.Terminated? && Exec(s, es).end == s.end
    decreases |es|
  {
    if es == [] {
    } else {
      EpisodesGrow(Next(s, es[0]), es[1..]);
      EndStays(Next(s, es[0]), es[1..]);
    }
  }

  /** A section closes the current episode. */
  ghost predicate Closes(s: State, e: Event) {
    Enabled(s, e) && e.Section? && s.status.Terminating? && s.episodes != [] && Current(s).Active?
  }

  /** A closed episode looks open to a client (end = -1) exactly when nothing had ever been logged by the time of
      the section that closed it, that is, when every update since the server started had raised. */
  lemma ClosedLooksOpen(a: seq<Event>, close: Event, c: seq<Event>)
    requires IsRun(INIT, a) && Closes(Exec(INIT, a), close)
    requires IsRun(Next(Exec(INIT, a), close), c) && NoTimeouts(Next(Exec(INIT, a), close), c)
    requires |Exec(Next(Exec(INIT, a), close), c).episodes| == |Exec(INIT, a).episodes|
    ensures IsRun(INIT, a + [close] + c)
    ensures Exec(INIT, a + [close] + c).end == -1 <==> Exec(INIT, a).log == []
  {
    var s := Exec(INIT, a);
    ExecOne(s, close);
    ExecConcat(INIT, a, [close]);
    ExecConcat(INIT, a + [close], c);
    assert Next(s, close).end == |s.log| - 1;
    EndStays(Next(s, close), c);
  }

  /** That happens: a controller that raises on its first update is stopped by its user. */
  lemma ClosedLooksOpenReachable(p: Policy, warmUp: seq<Outcome>, q: RobotState, tau: Vec)
    returns (a: seq<Event>, close: Event)
    requires |warmUp| == WARM_UP_ITERS && ForwardAll(p, warmUp).Some?
    ensures IsRun(INIT, a) && Closes(Exec(INIT, a), close) && Exec(INIT, a).log == []
    ensures Next(Exec(INIT, a), close).end == -1 && Next(Exec(INIT, a), close).status.Terminated?
  {
    close := Section(q, Computes(tau, false));
    a := [];
    a := Then(a, Install(p, warmUp));
    a := Then(a, Enter(0));
    a := Then(a, Section(q, Raises(false, false)));
    a := Then(a, RespondSet);
    a := Then(a, Terminate);
    a := Then(a, Enter(0));
  }

  lemma Then(a: seq<Event>, e: Event) returns (b: seq<Event>)
    requires IsRun(INIT, a) && Enabled(Exec(INIT, a), e)
    ensures b == a + [e] && IsRun(INIT, b) && Exec(INIT, b) == Next(Exec(INIT, a), e)
  {
    b := a + [e];
    ExecOne(Exec(INIT, a), e);
    ExecConcat(INIT, a, [e]);
  }

  // ----- Runs whose timeouts hit only a running controller -----

  predicate CleanAnswer(r: Response) {
    match r
    case SetDone(_, start) => start >= 0
    case TerminateDone(_, start, _, clean) => start >= 0 && clean
    case _ => true
  }

  ghost predicate Clean(s: State) {
    && !s.disturbed
    && (forall k :: 0 <= k < |s.episodes| ==> !s.episodes[k].Killed?)
    && (forall k :: 0 <= k < |s.responses| ==> CleanAnswer(s.responses[k]))
  }

  lemma CleanKept(s: State, e: Event)
    requires Shape(s) && Partitioned(s) && Reported(s) && Clean(s) && Enabled(s, e)
    requires TimesOut(s, e) ==> s.status.Running? || s.status.Terminating?
    ensures Clean(Next(s, e))
  {
    match e {
      case Section(state, o) => CleanMarked(s); CleanSame(Marked(s), Computing(Marked(s), state, o));
      case Enter(_) => ClientStepFrame(s, e); CleanSame(s, Next(s, e));
      case Tail(_) => ClientStepFrame(s, e); CleanSame(s, Next(s, e));
      case Append => CleanSame(s, Next(s, e));
      case Install(policy, warmUp) => CleanInstall(s, policy, warmUp);
      case ApplyUpdate => CleanApplied(s);
      case RespondSet => CleanRespondSet(s);
      case Terminate => CleanResponse(s, Next(s, e), TerminateRefused);
      case RespondTerminate => CleanRespondTerminate(s);
      case CheckUpdate(_, _) => CleanCheckUpdate(s, e);
      case GetEpisodeInterval => CleanInterval(s);
    }
  }

  lemma CleanSame(s: State, n: State)
    requires Clean(s) && n.disturbed == s.disturbed && n.episodes == s.episodes && n.responses == s.responses
    ensures Clean(n)
  {
  }

  lemma CleanResponse(s: State, n: State, r: Response)
    requires Clean(s) && n.disturbed == s.disturbed && n.episodes == s.episodes && CleanAnswer(r)
    requires n.responses == s.responses || n.responses == s.responses + [r]
    ensures Clean(n)
  {
  }

  lemma CleanMarked(s: State)
    requires Shape(s) && Clean(s)
    ensures Clean(Marked(s))
  {
  }

  lemma CleanInstall(s: State, policy: Policy, warmUp: seq<Outcome>)
    requires Shape(s) && Clean(s) && Enabled(s, Install(policy, warmUp))
    ensures Clean(Next(s, Install(policy, warmUp)))
  {
    if ForwardAll(policy, warmUp).None? {
      CleanResponse(s, Respond(s, SetFailed), SetFailed);
    }
  }

  lemma CleanApplied(s: State)
    requires Clean(s) && s.service.Updating? && s.custom.Some?
    ensures Clean(Applied(s))
  {
    CleanResponse(s, Applied(s), Applied(s).responses[|s.responses|]);
  }

  lemma CleanRespondSet(s: State)
    requires Shape(s) && Partitioned(s) && Reported(s) && Clean(s) && Enabled(s, RespondSet)
    ensures Clean(Next(s, RespondSet))
  {
    assert EpisodeBounds(Current(s), |s.log|, Pending(s.pc).Some?);
    CleanResponse(s, Next(s, RespondSet), SetDone(s.service.id, s.begin));
  }

  lemma CleanRespondTerminate(s: State)
    requires Shape(s) && Partitioned(s) && Reported(s) && Clean(s) && Enabled(s, RespondTerminate)
    ensures Clean(Next(s, RespondTerminate))
  {
    assert EpisodeBounds(Current(s), |s.log|, Pending(s.pc).Some?);
    CleanResponse(s, Next(s, RespondTerminate), TerminateDone(s.service.id, s.begin, s.end, !s.disturbed));
  }

  lemma CleanCheckUpdate(s: State, e: Event)
    requires Clean(s) && Enabled(s, e) && e.CheckUpdate?
    ensures Clean(Next(s, e))
  {
    CleanResponse(s, Next(s, e), if e.loads then UpdateRefused else UpdateFailed);
  }

  lemma CleanInterval(s: State)
    requires Clean(s) && Enabled(s, GetEpisodeInterval)
    ensures Clean(Next(s, GetEpisodeInterval))
  {
    CleanResponse(s, Next(s, GetEpisodeInterval), Next(s, GetEpisodeInterval).responses[|s.responses|]);
  }

  lemma {:induction false} CleanRun(s: State, es: seq<Event>)
    requires Inv(s) && Clean(s) && IsRun(s, es) && TimelyRun(s, es)
    ensures Clean(Exec(s, es))
    decreases |es|
  {
    if es == [] {
    } else {
      InvKept(s, es[0]);
      CleanKept(s, es[0]);
      CleanRun(Next(s, es[0]), es[1..]);
    }
  }

  /** If timeouts hit only a controller that is running or being stopped, every closed episode's
      interval is exact. */
  lemma TimelyIntervalsExact(es: seq<Event>)
    requires IsRun(INIT, es) && TimelyRun(INIT, es)
    ensures var s := Exec(INIT, es);
            s.status.Terminated? && s.episodes != [] ==> s.begin >= 0 && IntervalExact(s)
  {
    InvRun(INIT, es);
    CleanRun(INIT, es);
    ClosedIntervalExact(es);
    var s := Exec(INIT, es);
    if s.status.Terminated? && s.episodes != [] {
      assert !s.episodes[|s.episodes| - 1].Killed?;
      ExactFromPartition(s);
    }
  }

  // ----- Responses belong to the call that waited for them -----

  /** In every run SetController returned the first index of the controller that very call installed,
      or -1 if a timeout stopped it before its first update; TerminateController returned the first
      index of the episode it stopped, and its last index unless a timeout hit after the close. */
  lemma ResponseOwnership(es: seq<Event>, k: nat)
    requires IsRun(INIT, es) && k < |Exec(INIT, es).responses|
    ensures var s := Exec(INIT, es);
            match s.responses[k]
            case SetDone(id, start) => id < |s.episodes| && start == BeginOf(s.episodes[id])
            case TerminateDone(id, start, end, clean) =>
              id < |s.episodes| && s.episodes[id].Over? && start == s.episodes[id].begin
              && end >= s.episodes[id].end && (clean ==> s.episodes[id] == Over(start, end))
            case _ => true
  {
    InvRun(INIT, es);
    assert ResponseRight(Exec(INIT, es), Exec(INIT, es).responses[k]);
  }

  lemma TimelyResponses(es: seq<Event>, k: nat)
    requires IsRun(INIT, es) && TimelyRun(INIT, es) && k < |Exec(INIT, es).responses|
    ensures var s := Exec(INIT, es);
            match s.responses[k]
            case SetDone(id, start) =>
              id < |s.episodes| && start >= 0 && start == BeginOf(s.episodes[id])
            case TerminateDone(id, start, end, _) =>
              id < |s.episodes| && start >= 0 && s.episodes[id] == Over(start, end)
            case _ => true
  {
    ResponseOwnership(es, k);
    InvRun(INIT, es);
    CleanRun(INIT, es);
  }

  /** In every run, GetEpisodeInterval answers with the first index of the current controller, or -1 if there is none or
      it never started; with end -1 until its episode is over, and then, unless a timeout has hit after the close, with
      its last index. */
  lemma IntervalAnswer(es: seq<Event>)
    requires IsRun(INIT, es) && !Exec(INIT, es).halted
    ensures var s := Exec(INIT, es);
            && Enabled(s, GetEpisodeInterval)
            && var n := Next(s, GetEpisodeInterval);
               n.responses == s.responses + [n.responses[|s.responses|]] && IsInterval(s, n.responses[|s.responses|])
  {
    InvRun(INIT, es);
    IntervalIs(Exec(INIT, es));
  }

  ghost predicate IsInterval(s: State, r: Response) {
    && r.Interval?
    && (s.status.Uninitialized? ==> r.start == r.end == -1)
    && (s.episodes == [] ==> r.start == -1)
    && (s.episodes != [] ==>
          && r.start == BeginOf(Current(s))
          && (Current(s).Waiting? || Current(s).Active? ==> r.end == -1)
          && (Current(s).Over? ==> r.end >= Current(s).end && (!s.disturbed ==> r.end == Current(s).end)))
  }

  lemma IntervalIs(s: State)
    requires Shape(s) && Reported(s) && !s.halted
    ensures var n := Next(s, GetEpisodeInterval);
            n.responses == s.responses + [n.responses[|s.responses|]] && IsInterval(s, n.responses[|s.responses|])
  {
  }

  /** A waiting SetController is released by the next locked section, and whatever else happens it
      stays released, with the same answer, until it responds. */
  lemma SetWaitEnds(s: State, e: Event)
    requires Inv(s) && s.service.Installing? && Enabled(s, e) && e != RespondSet
    ensures Next(s, e).service == s.service
    ensures e.Section? || !s.status.Ready? ==> Enabled(Next(s, e), RespondSet)
    ensures !s.status.Ready? ==> Next(s, e).begin == s.begin
  {
    if e.Section? {
      ShapeMarked(s);
    }
  }

  /** A waiting TerminateController is released by the next locked section. */
  lemma TerminateWaitEnds(s: State, e: Event)
    requires Inv(s) && s.service.Stopping? && Enabled(s, e) && e != RespondTerminate
    ensures Next(s, e).service == s.service
    ensures e.Section? ==> Enabled(Next(s, e), RespondTerminate)
    ensures !TimesOut(s, e) && !s.status.Terminating? ==>
              Enabled(Next(s, e), RespondTerminate) && Next(s, e).begin == s.begin && Next(s, e).end == s.end
  {
  }

  // ----- Hand-over -----

  /** In every run, a log entry holds the state one section observed and the torque computed in that section, and
      entries are in the order of their sections. */
  lemma LoggedTorque(es: seq<Event>, i: nat, j: nat)
    requires IsRun(INIT, es) && i <= j < |Exec(INIT, es).log|
    ensures var s := Exec(INIT, es);
            var e := s.log[j];
            && e.tick < |s.seen| && s.seen[e.tick].state == e.state
            && s.seen[e.tick].outcome.Computes? && s.seen[e.tick].outcome.tau == e.torque
            && (s.seen[e.tick].custom <==> e.origin.FromCustom?)
            && (i < j ==> s.log[i].tick < e.tick)
  {
    InvRun(INIT, es);
    var s := Exec(INIT, es);
    assert EntryRight(s.seen, s.log[j]);
  }

  /** In every run, a default torque was computed from the position that the first section since the last release
      observed, not counting sections that raised in vain, with no custom controller asked since; right after a custom
      controller it is the position of that very update. */
  lemma SafeHandOver(es: seq<Event>, j: nat)
    requires IsRun(INIT, es) && j < |Exec(INIT, es).log| && Exec(INIT, es).log[j].origin.FromDefault?
    ensures var s := Exec(INIT, es);
            var e := s.log[j];
            && e.origin.latch <= e.tick < |s.seen|
            && s.seen[e.origin.latch].state.q == e.origin.setpoint
            && NoCustom(s.seen, e.origin.latch, e.tick + 1)
            && e.origin.release <= e.origin.latch && AllVain(s.seen, e.origin.release, e.origin.latch)
            && !Vain(s.seen[e.origin.latch])
            && (e.tick > 0 && s.seen[e.tick - 1].custom ==> e.origin.setpoint == e.state.q)
  {
    InvRun(INIT, es);
    var s := Exec(INIT, es);
    assert EntryRight(s.seen, s.log[j]);
    if s.log[j].tick > 0 && s.seen[s.log[j].tick - 1].custom {
      ResumesAtCurrentPosition(s, j);
    }
  }

  // ----- Parameter updates -----

  /** In every run, an update places the entries of its controller around the index it recorded; it changed the
      parameters element by element as its dictionary says, from the loaded ones if it was the first. */
  lemma UpdatePlaced(es: seq<Event>, i: nat, j: nat)
    requires IsRun(INIT, es)
    requires i < |Exec(INIT, es).updates| && j < |Exec(INIT, es).log|
    ensures var s := Exec(INIT, es);
            var m := s.updates[i];
            && m.id < |s.loaded| && PrefixApplied(m.before, m.dict, FittingPrefix(m.before, m.dict), m.after)
            && (m.version == 0 ==> m.before == s.loaded[m.id].params)
            && Placed(m, s.log[j].origin, j)
  {
    InvRun(INIT, es);
    var s := Exec(INIT, es);
    assert UpdateBounds(s, s.updates[i]) && VersionRight(s, s.log[j].origin);
    UpdateIsPrefix(s.updates[i].before, s.updates[i].dict);
  }

  /** In every run, an UpdateController that answered `u` applied its whole dictionary, and splits the episode of
      its controller at `u`. */
  lemma UpdateIndex(es: seq<Event>, k: nat, j: nat)
    requires IsRun(INIT, es)
    requires k < |Exec(INIT, es).responses| && Exec(INIT, es).responses[k].UpdateDone? && j < |Exec(INIT, es).log|
    ensures var s := Exec(INIT, es);
            var r := s.responses[k];
            && r.update < |s.updates|
            && var m := s.updates[r.update];
            && m.start == r.start && PrefixApplied(m.before, m.dict, |m.dict|, m.after)
            && Placed(m, s.log[j].origin, j)
  {
    InvRun(INIT, es);
    var s := Exec(INIT, es);
    assert ResponseRight(s, s.responses[k]);
    UpdateIsPrefix(s.updates[s.responses[k].update].before, s.updates[s.responses[k].update].dict);
  }

  /** An accepted UpdateController copies the dictionary it was called with over the parameters the controller had
      then, whatever runs in between, and answers with the index only if every entry fits. */
  lemma UpdateCall(s: State, dict: seq<(string, Vec)>, es: seq<Event>)
    requires Shape(s) && Enabled(s, CheckUpdate(true, dict)) && s.status.Running?
    requires IsRun(Next(s, CheckUpdate(true, dict)), es) && ApplyUpdate !in es
    ensures s.custom.Some? && Enabled(Next(s, CheckUpdate(true, dict)), ApplyUpdate)
    ensures var t := Exec(Next(s, CheckUpdate(true, dict)), es);
            var before := s.custom.value.params;
            && Enabled(t, ApplyUpdate)
            && var n := Next(t, ApplyUpdate);
               && n.custom.Some?
               && PrefixApplied(before, dict, FittingPrefix(before, dict), n.custom.value.params)
               && n.responses == t.responses + [
                    if forall j :: 0 <= j < |dict| ==> Fits(before, dict[j]) then UpdateDone(|t.log|, |t.updates|)
                    else UpdateFailed]
  {
    var before := s.custom.value.params;
    UpdatePending(Next(s, CheckUpdate(true, dict)), dict, es);
    UpdateIsPrefix(before, dict);
  }

  lemma {:induction false} UpdatePending(s: State, dict: seq<(string, Vec)>, es: seq<Event>)
    requires s.service.Updating? && s.service.dict == dict && s.custom.Some?
    requires IsRun(s, es) && ApplyUpdate !in es
    ensures var t := Exec(s, es);
            && t.service == s.service && t.halted == s.halted
            && t.custom.Some? && t.custom.value.params == s.custom.value.params
    decreases |es|
  {
    if es == [] {
    } else {
      assert es[0] in es && forall e :: e in es[1..] ==> e in es;
      UpdatePendingStep(s, es[0]);
      UpdatePending(Next(s, es[0]), dict, es[1..]);
    }
  }

  lemma UpdatePendingStep(s: State, e: Event)
    requires s.service.Updating? && s.custom.Some? && Enabled(s, e) && !e.ApplyUpdate?
    ensures var t := Next(s, e);
            && t.service == s.service && t.halted == s.halted
            && t.custom.Some? && t.custom.value.params == s.custom.value.params
  {
  }

  /** In every run, entries computed before any update used the parameters the controller was loaded with, and
      each update started where the one before it ended. */
  lemma ParametersFromLoading(es: seq<Event>, j: nat)
    requires IsRun(INIT, es) && j < |Exec(INIT, es).log|
    ensures var s := Exec(INIT, es);
            var o := s.log[j].origin;
            && (o.FromCustom? && o.version == 0 ==> o.id < |s.loaded| && o.params == s.loaded[o.id].params)
            && forall i, k :: 0 <= i < |s.updates| && 0 <= k < |s.updates| ==> Follows(s.updates[i], s.updates[k])
  {
    InvRun(INIT, es);
    var s := Exec(INIT, es);
    assert VersionRight(s, s.log[j].origin);
  }

  // ----- Trajectories stay in bounds -----

  /** A run in which no policy raises after changing its own state. */
  ghost predicate NoLateRaises(es: seq<Event>) {
    forall k :: 0 <= k < |es| && es[k].Section? ==> !(es[k].outcome.Raises? && es[k].outcome.late)
  }

  lemma {:induction false} NeverLate(s: State, es: seq<Event>)
    requires IsRun(s, es) && NoLateRaises(es)
    ensures Exec(s, es).late == s.late
    decreases |es|
  {
    if es == [] {
    } else {
      assert forall k :: 0 <= k < |es[1..]| ==> es[1..][k] == es[k + 1];
      NeverLate(Next(s, es[0]), es[1..]);
    }
  }

  /** Whenever a locked section is about to step a trajectory policy that never raised after counting, its counter
      indexes a waypoint; the trajectory executors never do. */
  lemma NeverSteppedPastEnd(es: seq<Event>)
    requires IsRun(INIT, es)
    ensures var s := Exec(INIT, es);
            s.pc.Entered? && Marked(s).status.Running? && s.custom.Some? && Indexed(s.custom.value)
            && (|s.episodes| - 1 !in s.late || s.custom.value.kind.Waypoints?)
            ==> s.custom.value.step < s.custom.value.horizon
  {
    InvRun(INIT, es);
    if Exec(INIT, es).pc.Entered? {
      CounterInBounds(Exec(INIT, es));
    }
  }

  lemma CounterInBounds(s: State)
    requires Shape(s) && Partitioned(s) && Counted(s) && s.pc.Entered?
    ensures Marked(s).status.Running? && s.custom.Some? && Indexed(s.custom.value)
            && (|s.episodes| - 1 !in s.late || s.custom.value.kind.Waypoints?)
            ==> s.custom.value.step < s.custom.value.horizon
  {
    ShapeMarked(s);
    CountedMarked(s);
  }

  /** In every run, an entry of a trajectory policy was computed from a waypoint that exists; unless the policy
      raised after counting, the entry at offset d of the episode was computed from waypoint d (counted from where
      the loaded policy's counter stood). The trajectory executors never raise after counting. */
  lemma EntryUsesItsWaypoint(es: seq<Event>, j: nat)
    requires IsRun(INIT, es) && j < |Exec(INIT, es).log|
    ensures var s := Exec(INIT, es);
            var o := s.log[j].origin;
            o.FromCustom? ==>
              && o.id < |s.loaded| && o.id < |s.episodes|
              && (s.episodes[o.id].Active? || s.episodes[o.id].Over?)
              && (Indexed(s.loaded[o.id]) ==> o.waypoint < s.loaded[o.id].horizon)
              && (Indexed(s.loaded[o.id]) && (o.id !in s.late || s.loaded[o.id].kind.Waypoints?) ==>
                    o.waypoint == s.loaded[o.id].step + (j - s.episodes[o.id].begin))
  {
    InvRun(INIT, es);
    var s := Exec(INIT, es);
    assert TaggedRight(s.episodes, s.log[j].origin, j);
    assert WaypointRight(s, s.log[j].origin, j);
  }
}
