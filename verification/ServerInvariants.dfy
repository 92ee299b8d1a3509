/** What every step of the controller manager keeps, and hence what holds in every run. */
module ServerInvariants {
  import opened Wrappers
  import opened Policies
  import opened ServerModel

  // ----- Shape of the history -----

  ghost function Current(s: State): Episode
    requires s.episodes != []
  {
    s.episodes[|s.episodes| - 1]
  }

  predicate Finished(e: Episode) {
    e.Over? || e.Killed?
  }

  function PendingOrigin(pc: Pc): Option<Origin> {
    match pc
    case Computed(e) => Some(e.origin)
    case Appended(o) => Some(o)
    case _ => None
  }

  ghost predicate StatusMatchesEpisode(s: State) {
    match s.status
    case Uninitialized => s.episodes == []
    case Ready => s.episodes != [] && Current(s).Waiting? && s.service == Installing(|s.episodes| - 1)
    case Running => s.episodes != [] && Current(s).Active?
    case Terminating => true
    case Terminated => s.episodes != [] ==> Finished(Current(s))
  }

  ghost predicate ServiceMatchesEpisode(s: State) {
    match s.service
    case Free => true
    case Installing(id) => id == |s.episodes| - 1
    case Stopping(id) => id == |s.episodes| - 1
                         && (s.status.Terminating? || s.status.Terminated?) && !Current(s).Waiting?
                         && !Current(s).Killed?
    case Updating(id, _) => id == |s.episodes| - 1
  }

  ghost predicate Shape(s: State) {
    && |s.loaded| == |s.episodes|
    && (s.custom.Some? <==> s.episodes != [])
    && StatusMatchesEpisode(s)
    && ServiceMatchesEpisode(s)
    && (forall k :: 0 <= k < |s.episodes| - 1 ==> Finished(s.episodes[k]))
    && (s.episodes != [] && Current(s).Active? && PendingOrigin(s.pc).Some? ==> IsCurrent(s, PendingOrigin(s.pc).value))
    && (PendingOrigin(s.pc).Some? && PendingOrigin(s.pc).value.FromCustom? ==>
          PendingOrigin(s.pc).value.id < |s.episodes|)
    && (s.episodes != [] && Current(s).Waiting? && !s.status.Ready? ==> s.status.Terminating? && s.disturbed)
  }

  lemma ShapeKept(s: State, e: Event)
    requires Shape(s) && Enabled(s, e)
    ensures Shape(Next(s, e))
  {
    match e {
      case Section(state, o) => ShapeMarked(s); ShapeComputing(Marked(s), state, o);
      case Install(policy, _) => ShapeInstalled(s, policy);
      case ApplyUpdate => ShapeApplied(s);
      case Enter(_) => ShapeClient(s, e);
      case Append => ShapeClient(s, e);
      case Tail(_) => ShapeClient(s, e);
      case Terminate => ShapeTerminate(s);
      case CheckUpdate(_, _) => ShapeCheckUpdate(s, e);
      case _ => ShapeResponse(s, e);
    }
  }

  lemma ShapeClient(s: State, e: Event)
    requires Shape(s) && Enabled(s, e) && (e.Enter? || e.Append? || e.Tail?)
    ensures Shape(Next(s, e))
  {
  }

  lemma ShapeResponse(s: State, e: Event)
    requires Shape(s) && Enabled(s, e) && (e.RespondSet? || e.RespondTerminate? || e.GetEpisodeInterval?)
    ensures Shape(Next(s, e))
  {
  }

  lemma ShapeTerminate(s: State)
    requires Shape(s) && Enabled(s, Terminate)
    ensures Shape(Next(s, Terminate))
  {
  }

  lemma ShapeCheckUpdate(s: State, e: Event)
    requires Shape(s) && Enabled(s, e) && e.CheckUpdate?
    ensures Shape(Next(s, e))
  {
  }

  lemma ShapeMarked(s: State)
    requires Shape(s) && s.pc.Entered?
    ensures Shape(Marked(s))
    ensures Marked(s).episodes != [] && Current(Marked(s)).Active? <==> Marked(s).status.Running?
  {
  }

  lemma ShapeComputing(s: State, state: RobotState, o: Outcome)
    requires Shape(s) && s.pc.Entered?
    requires s.episodes != [] && Current(s).Active? <==> s.status.Running?
    ensures Shape(Computing(s, state, o))
  {
  }

  lemma ShapeInstalled(s: State, policy: Policy)
    requires Shape(s) && s.service.Free?
    ensures Shape(Installed(s, policy))
  {
  }

  lemma ShapeApplied(s: State)
    requires Shape(s) && s.service.Updating? && s.custom.Some?
    ensures Shape(Applied(s))
  {
  }

  // ----- Episodes partition the log -----

  predicate In(e: Episode, j: int) {
    match e
    case Active(b) => b <= j
    case Over(b, end) => b <= j <= end
    case _ => false
  }

  /** The origin at log index `j` is the custom controller whose episode contains `j`, if any. */
  ghost predicate TaggedRight(episodes: seq<Episode>, o: Origin, j: int) {
    && (o.FromCustom? ==> o.id < |episodes|)
    && forall k :: 0 <= k < |episodes| ==> (In(episodes[k], j) <==> o.FromCustom? && o.id == k)
  }

  function Pending(pc: Pc): Option<Origin> {
    if pc.Computed? then Some(pc.entry.origin) else None
  }

  ghost predicate EpisodeBounds(e: Episode, size: nat, pending: bool) {
    match e
    case Active(b) => b <= size
    case Over(b, end) => b - 1 <= end < size + if pending then 1 else 0
    case _ => true
  }

  ghost predicate Partition(episodes: seq<Episode>, log: seq<Entry>, pending: Option<Origin>) {
    && (forall k :: 0 <= k < |episodes| ==> EpisodeBounds(episodes[k], |log|, pending.Some?))
    && (forall j :: 0 <= j < |log| ==> TaggedRight(episodes, log[j].origin, j))
    && (pending.Some? ==> TaggedRight(episodes, pending.value, |log|))
  }

  ghost predicate Partitioned(s: State) {
    Partition(s.episodes, s.log, Pending(s.pc))
  }

  lemma PartitionKept(s: State, e: Event)
    requires Shape(s) && Partitioned(s) && Enabled(s, e)
    ensures Partitioned(Next(s, e))
  {
    match e {
      case Section(state, o) =>
        ShapeMarked(s);
        PartitionMarked(s);
        PartitionComputing(Marked(s), state, o);
      case Append => PartitionAppend(s.episodes, s.log, s.pc.entry);
      case Install(policy, warmUp) =>
        if ForwardAll(policy, warmUp).Some? {
          PartitionInstalled(s);
        }
      case _ =>
    }
  }

  lemma PartitionRetire(s: State)
    requires Shape(s) && Partitioned(s)
    ensures Partition(RetireCurrent(s), s.log, Pending(s.pc))
  {
    if s.episodes != [] {
      var e, r := Current(s), Retire(Current(s), LastIndex(s));
      assert EpisodeBounds(e, |s.log|, Pending(s.pc).Some?) && EpisodeBounds(r, |s.log|, Pending(s.pc).Some?);
      assert forall j :: 0 <= j < |s.log| ==> (In(r, j) <==> In(e, j));
      if s.pc.Computed? {
        assert In(r, |s.log|) <==> In(e, |s.log|);
      }
    }
  }

  lemma PartitionMarked(s: State)
    requires Shape(s) && Partitioned(s) && s.pc.Entered?
    ensures Partitioned(Marked(s))
  {
    PartitionRetire(s);
  }

  lemma PartitionComputing(s: State, state: RobotState, o: Outcome)
    requires Shape(s) && Partitioned(s) && s.pc.Entered?
    requires s.episodes != [] && Current(s).Active? <==> s.status.Running?
    ensures Partitioned(Computing(s, state, o))
  {
    var next := Computing(s, state, o);
    if next.pc.Computed? {
      forall k | 0 <= k < |s.episodes|
        ensures In(s.episodes[k], |s.log|) <==> next.pc.entry.origin.FromCustom? && next.pc.entry.origin.id == k
      {
        assert EpisodeBounds(s.episodes[k], |s.log|, false);
      }
    }
  }

  lemma PartitionAppend(episodes: seq<Episode>, log: seq<Entry>, entry: Entry)
    requires Partition(episodes, log, Some(entry.origin))
    ensures Partition(episodes, log + [entry], None)
  {
    forall k | 0 <= k < |episodes| ensures EpisodeBounds(episodes[k], |log| + 1, false) {
      assert EpisodeBounds(episodes[k], |log|, true);
    }
  }

  lemma PartitionInstalled(s: State)
    requires Shape(s) && Partitioned(s)
    ensures Partition(RetireCurrent(s) + [Waiting], s.log, Pending(s.pc))
  {
    PartitionRetire(s);
  }

  // ----- Reported markers -----

  function BeginOf(e: Episode): int {
    match e
    case Active(b) => b
    case Over(b, _) => b
    case _ => -1
  }

  ghost predicate Reported(s: State) {
    if s.episodes == [] then s.begin == -1
    else
      && s.begin == BeginOf(Current(s))
      && match Current(s)
         case Over(_, end) => end <= s.end && (s.disturbed || (s.end == end && s.status.Terminated?))
         case Killed => s.disturbed
         case _ => s.end == -1
  }

  lemma ReportedKept(s: State, e: Event)
    requires Shape(s) && Partitioned(s) && Reported(s) && Enabled(s, e)
    ensures Reported(Next(s, e))
  {
    match e {
      case Section(state, o) => ReportedSection(s, state, o);
      case Enter(_) => ClientStepFrame(s, e); ReportedEnter(s, Next(s, e));
      case Install(policy, warmUp) => ReportedInstall(s, policy, warmUp);
      case ApplyUpdate => ReportedApplied(s);
      case Append => ReportedAppend(s, Next(s, e));
      case Tail(_) => ClientStepFrame(s, e); ReportedTail(s, Next(s, e));
      case _ => ServiceStepFrame(s, e); ReportedService(s, Next(s, e));
    }
  }

  lemma ReportedMarked(s: State)
    requires Shape(s) && Partitioned(s) && Reported(s) && s.pc.Entered?
    ensures Reported(Marked(s))
  {
    if s.episodes != [] {
      assert EpisodeBounds(Current(s), |s.log|, false);
    }
  }

  /** Computing a torque does not touch the markers. */
  lemma ReportedSection(s: State, state: RobotState, o: Outcome)
    requires Shape(s) && Partitioned(s) && Reported(s) && s.pc.Entered?
    ensures Reported(Computing(Marked(s), state, o))
  {
    ReportedMarked(s);
    MarkersFrame(Marked(s), Computing(Marked(s), state, o));
  }

  lemma MarkersFrame(s: State, n: State)
    requires Reported(s)
    requires n.begin == s.begin && n.end == s.end && n.episodes == s.episodes
    requires n.status == s.status && n.disturbed == s.disturbed
    ensures Reported(n)
  {
  }

  lemma ReportedInstall(s: State, policy: Policy, warmUp: seq<Outcome>)
    requires Reported(s) && Enabled(s, Install(policy, warmUp))
    ensures Reported(Next(s, Install(policy, warmUp)))
  {
    if ForwardAll(policy, warmUp).None? {
      MarkersFrame(s, Respond(s, SetFailed));
    } else {
      assert Current(Installed(s, policy)).Waiting?;
    }
  }

  lemma ReportedApplied(s: State)
    requires Reported(s) && s.service.Updating? && s.custom.Some?
    ensures Reported(Applied(s))
  {
    MarkersFrame(s, Applied(s));
  }

  lemma ReportedAppend(s: State, n: State)
    requires Reported(s) && s.pc.Computed? && n == s.(log := n.log, pc := n.pc)
    ensures Reported(n)
  {
    MarkersFrame(s, n);
  }

  lemma ReportedEnter(s: State, n: State)
    requires Shape(s) && Reported(s) && EnterFrame(s, n)
    ensures Reported(n)
  {
  }

  lemma ReportedTail(s: State, n: State)
    requires Shape(s) && Reported(s) && TailFrame(s, n)
    ensures Reported(n)
  {
  }

  lemma ReportedService(s: State, n: State)
    requires Shape(s) && Reported(s) && ServiceFrame(s, n)
    ensures Reported(n)
  {
  }

  // ----- Responses -----

  ghost predicate ResponseRight(s: State, r: Response) {
    match r
    case SetDone(id, start) =>
      && id < |s.episodes| && start == BeginOf(s.episodes[id])
      && (s.episodes[id].Waiting? ==> s.service.Free? && !s.status.Ready?)
    case TerminateDone(id, start, end, clean) =>
      && id < |s.episodes| && s.episodes[id].Over?
      && start == s.episodes[id].begin && end >= s.episodes[id].end
      && (clean ==> end == s.episodes[id].end)
    case UpdateDone(start, k) =>
      && k < |s.updates| && s.updates[k].start == start
      && Updated(s.updates[k].before, s.updates[k].dict) == (s.updates[k].after, true)
    case _ => true
  }

  ghost predicate Responded(s: State) {
    forall k :: 0 <= k < |s.responses| ==> ResponseRight(s, s.responses[k])
  }

  lemma RespondedKept(s: State, e: Event)
    requires Shape(s) && Reported(s) && Responded(s) && Enabled(s, e)
    ensures Responded(Next(s, e))
  {
    var n := Next(s, e);
    NewResponse(s, e);
    forall k | 0 <= k < |n.responses| ensures ResponseRight(n, n.responses[k]) {
      if k < |s.responses| {
        ResponseStable(s, e, s.responses[k]);
      }
    }
  }

  /** A step adds at most one response, and that one is right. */
  lemma NewResponse(s: State, e: Event)
    requires Shape(s) && Reported(s) && Enabled(s, e)
    ensures var n := Next(s, e);
            n.responses == s.responses
            || (n.responses == s.responses + [n.responses[|s.responses|]]
                && ResponseRight(n, n.responses[|s.responses|]))
  {
    match e {
      case Section(_, _) =>
      case Enter(_) => ClientStepFrame(s, e);
      case Tail(_) => ClientStepFrame(s, e);
      case Append =>
      case Install(_, _) =>
      case ApplyUpdate => AppliedResponse(s);
      case RespondSet =>
      case Terminate =>
      case RespondTerminate => TerminateResponse(s);
      case CheckUpdate(_, _) =>
      case GetEpisodeInterval =>
    }
  }

  lemma AppliedResponse(s: State)
    requires s.service.Updating? && s.custom.Some?
    ensures var n := Applied(s);
            n.responses == s.responses + [n.responses[|s.responses|]] && ResponseRight(n, n.responses[|s.responses|])
  {
  }

  lemma TerminateResponse(s: State)
    requires Shape(s) && Reported(s) && Enabled(s, RespondTerminate)
    ensures ResponseRight(Next(s, RespondTerminate), TerminateDone(s.service.id, s.begin, s.end, !s.disturbed))
  {
    assert Current(s).Over?;
  }

  lemma ResponseStable(s: State, e: Event, r: Response)
    requires Shape(s) && Enabled(s, e) && ResponseRight(s, r)
    ensures ResponseRight(Next(s, e), r)
  {
    match e {
      case Section(state, o) => ResponseSection(s, state, o, r);
      case Enter(_) => ClientStepFrame(s, e); ResponseClient(s, Next(s, e), r);
      case Tail(_) => ClientStepFrame(s, e); ResponseClient(s, Next(s, e), r);
      case Install(policy, warmUp) => ResponseInstall(s, policy, warmUp, r);
      case ApplyUpdate => ResponseApplied(s, r);
      case Append => ResponseClient(s, Next(s, e), r);
      case _ => ServiceStepFrame(s, e); ShapeKept(s, e); ResponseService(s, Next(s, e), r);
    }
  }

  /** Steps of the robot client other than the section leave every response right. */
  lemma ResponseClient(s: State, n: State, r: Response)
    requires ResponseRight(s, r) && n.episodes == s.episodes && n.updates == s.updates && n.service == s.service
    requires n.status.Ready? ==> s.status.Ready?
    ensures ResponseRight(n, r)
  {
  }

  lemma ResponseSection(s: State, state: RobotState, o: Outcome, r: Response)
    requires Shape(s) && ResponseRight(s, r)
    ensures ResponseRight(Computing(Marked(s), state, o), r)
  {
    ResponseMarked(s, r);
    ResponseClient(Marked(s), Computing(Marked(s), state, o), r);
  }

  lemma ResponseInstall(s: State, policy: Policy, warmUp: seq<Outcome>, r: Response)
    requires Shape(s) && Enabled(s, Install(policy, warmUp)) && ResponseRight(s, r)
    ensures ResponseRight(Next(s, Install(policy, warmUp)), r)
  {
    if ForwardAll(policy, warmUp).Some? {
      ResponseInstalled(s, policy, r);
    } else {
      ResponseClient(s, Respond(s, SetFailed), r);
    }
  }

  lemma ResponseApplied(s: State, r: Response)
    requires s.service.Updating? && s.custom.Some? && ResponseRight(s, r)
    requires Shape(s)
    ensures ResponseRight(Applied(s), r)
  {
  }

  lemma ResponseMarked(s: State, r: Response)
    requires Shape(s) && ResponseRight(s, r)
    ensures ResponseRight(Marked(s), r)
  {
  }

  lemma ResponseInstalled(s: State, policy: Policy, r: Response)
    requires Shape(s) && ResponseRight(s, r)
    ensures ResponseRight(Installed(s, policy), r)
  {
  }

  lemma ResponseService(s: State, n: State, r: Response)
    requires Shape(s) && Shape(n) && ServiceFrame(s, n) && ResponseRight(s, r)
    requires s.service.Free? && !s.status.Running? ==> n.service.Free?
    ensures ResponseRight(n, r)
  {
  }
}
