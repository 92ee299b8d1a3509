/** The controller manager of polymetis/src/polymetis_server.cpp as a labelled step system.

    One robot client calls ControlUpdate sequentially; its call is cut into four steps between which
    any other request may run: the staleness check, the locked section, the append to the log, and the
    final termination check. SetController, TerminateController and UpdateController are cut into the
    step that acts and the step that responds, and hold the service mutex in between. The log is the
    unbounded history of the circular buffer, each entry tagged with what computed its torque. */
module ServerModel {
  import opened Wrappers
  import opened Policies

  datatype Status = Uninitialized | Ready | Running | Terminating | Terminated

  datatype RobotState = RobotState(q: Vec, dq: Vec, stamp: int)

  /** What computed a torque. `latch` is the section in which the hold setpoint was latched, `release` the one in which
      it was released before. */
  datatype Origin =
    | FromDefault(setpoint: Vec, latch: nat, release: nat)
    | FromCustom(id: nat, version: nat, params: Params, waypoint: nat)

  /** `tick` is the section that computed the entry. */
  datatype Entry = Entry(state: RobotState, torque: Vec, tick: nat, origin: Origin)

  /** Where the robot client's ControlUpdate call is. */
  datatype Pc = Idle | Entered | Computed(entry: Entry) | Appended(origin: Origin)

  /** The holder of the service mutex. */
  datatype Service = Free | Installing(id: nat) | Stopping(id: nat) | Updating(id: nat, dict: seq<(string, Vec)>)

  /** What became of the i-th installed controller; Over covers both a closed episode and one cut short
      by the next controller, Killed one that was stopped before its first update. */
  datatype Episode = Waiting | Active(begin: nat) | Over(begin: nat, end: int) | Killed

  /** One locked section: the observed state, whether a custom controller was asked, and what came of that. */
  datatype Seen = Seen(state: RobotState, custom: bool, outcome: Outcome)

  /** One parameter update: the version it replaced, the index it returned, and whether an update call
      was between its section and its append. */
  datatype Update = Update(
    id: nat, version: nat, start: nat, inFlight: bool, before: Params, dict: seq<(string, Vec)>, after: Params)

  datatype Response =
    | SetDone(id: nat, start: int)
    | SetFailed
    | TerminateDone(id: nat, start: int, end: int, clean: bool)
    | TerminateRefused
    | UpdateDone(start: int, update: nat)
    | UpdateRefused
    | UpdateFailed
    | Interval(start: int, end: int)

  datatype State = State(
    // fields of the server
    status: Status, begin: int, end: int, timestep: nat,
    custom: Option<Policy>, hold: Hold,
    pc: Pc, service: Service, log: seq<Entry>,
    // when the last update call succeeded, in nanoseconds since InitRobotClient
    lastUpdate: int,
    // the process has dereferenced a null pointer and is gone
    halted: bool,
    // history
    version: nat, latch: nat, release: nat,
    episodes: seq<Episode>, loaded: seq<Policy>, seen: seq<Seen>,
    updates: seq<Update>, responses: seq<Response>,
    // controllers that counted a waypoint and then raised
    late: set<nat>,
    // a staleness timeout has hit the current controller before its start or after its end
    disturbed: bool)

  datatype Event =
    | Enter(now: int)
    | Section(state: RobotState, outcome: Outcome)
    | Append
    | Tail(now: int)
    | Install(policy: Policy, warmUp: seq<Outcome>)
    | RespondSet
    | Terminate
    | RespondTerminate
    | CheckUpdate(loads: bool, dict: seq<(string, Vec)>)
    | ApplyUpdate
    | GetEpisodeInterval

  /** The server right after InitRobotClient. */
  const INIT: State := State(
    Uninitialized, -1, -1, 0, None, RELEASED, Idle, Free, [], 0, false,
    0, 0, 0, [], [], [], [], [], {}, false)

  /** One second. */
  const THRESHOLD_NS: int := 1_000_000_000

  /** An update call that begins now comes too long after the last one that succeeded. */
  predicate Stale(s: State, now: int) {
    now - s.lastUpdate >= THRESHOLD_NS
  }

  // ----- The current controller -----

  predicate IsCurrent(s: State, o: Origin) {
    o.FromCustom? && o.id == |s.episodes| - 1
  }

  /** An update call computed with the current controller and not appended yet. */
  predicate InFlight(s: State) {
    s.pc.Computed? && IsCurrent(s, s.pc.entry.origin)
  }

  function Retire(e: Episode, last: int): Episode {
    match e
    case Active(b) => Over(b, last)
    case Waiting => Killed
    case _ => e
  }

  /** Index of the next entry to be computed, at which a controller installed now will start: an update call in flight
      still appends its entry first. */
  function NextIndex(s: State): nat {
    |s.log| + if s.pc.Computed? then 1 else 0
  }

  /** Index of the last entry the current controller computes if it is stopped now. */
  function LastIndex(s: State): int {
    |s.log| - 1 + if InFlight(s) then 1 else 0
  }

  function WithCurrent(episodes: seq<Episode>, e: Episode): seq<Episode>
    requires episodes != []
  {
    episodes[|episodes| - 1 := e]
  }

  function RetireCurrent(s: State): seq<Episode> {
    if s.episodes == [] then []
    else WithCurrent(s.episodes, Retire(s.episodes[|s.episodes| - 1], LastIndex(s)))
  }

  // ----- Steps -----

  /** Which steps the program counters allow. A custom controller is dereferenced only in the states
      that have one; ControllerIsPresent shows that this never blocks a section. */
  predicate Enabled(s: State, e: Event) {
    !s.halted &&
    match e
    case Enter(_) => s.pc.Idle?
    case Section(_, _) => s.pc.Entered? && (s.status.Ready? || s.status.Running? ==> s.custom.Some? && s.episodes != [])
    case Append => s.pc.Computed?
    case Tail(_) => s.pc.Appended? && (s.status.Running? ==> s.custom.Some?)
    case Install(_, warmUp) => s.service.Free? && |warmUp| == WARM_UP_ITERS
    case RespondSet => s.service.Installing? && !s.status.Ready?
    case Terminate => s.service.Free?
    case RespondTerminate => s.service.Stopping? && !s.status.Terminating?
    case CheckUpdate(_, _) => s.service.Free?
    case ApplyUpdate => s.service.Updating? && s.custom.Some?
    case GetEpisodeInterval => true
  }

  /** Episode markers at the start of the locked section. */
  function Marked(s: State): State {
    if s.status.Ready? && s.episodes != [] then
      s.(begin := |s.log|, status := Running, episodes := WithCurrent(s.episodes, Active(|s.log|)))
    else if s.status.Terminating? then
      s.(end := |s.log| - 1, status := Terminated, hold := RELEASED, release := |s.seen|,
          episodes := RetireCurrent(s))
    else s
  }

  /** Controller selection and forward call, on a state with up-to-date markers. */
  function Computing(s: State, state: RobotState, o: Outcome): State {
    if s.status.Running? && s.custom.Some? then AskCustom(s, state, o) else AskDefault(s, state, o)
  }

  function AskCustom(s: State, state: RobotState, o: Outcome): State
    requires s.custom.Some?
  {
    var p := s.custom.value;
    var (next, tau) := Forward(p, o);
    var origin := FromCustom(if |s.episodes| > 0 then |s.episodes| - 1 else 0, s.version, p.params, p.step);
    s.(custom := Some(next),
       late := if tau.None? && next.step != p.step then s.late + {origin.id} else s.late,
       pc := if tau.Some? then Computed(Entry(state, tau.value, |s.seen|, origin)) else Idle,
       seen := s.seen + [Seen(state, true, o)])
  }

  function AskDefault(s: State, state: RobotState, o: Outcome): State {
    var tick := |s.seen|;
    var (next, tau) := HoldForward(s.hold, state.q, o);
    var latch := if !s.hold.running && next.running then tick else s.latch;
    var origin := FromDefault(next.setpoint, latch, s.release);
    s.(hold := next, latch := latch,
       pc := if tau.Some? then Computed(Entry(state, tau.value, tick, origin)) else Idle,
       seen := s.seen + [Seen(state, false, o)])
  }

  function Installed(s: State, policy: Policy): State {
    s.(begin := -1, end := -1, timestep := 0, status := Ready,
       custom := Some(policy), version := 0, disturbed := false,
       episodes := RetireCurrent(s) + [Waiting], loaded := s.loaded + [policy],
       service := Installing(|s.episodes|))
  }

  function Applied(s: State): State
    requires s.service.Updating? && s.custom.Some?
  {
    var before := s.custom.value.params;
    var (after, ok) := Updated(before, s.service.dict);
    s.(custom := Some(s.custom.value.(params := after)),
       version := s.version + 1,
       updates := s.updates + [Update(s.service.id, s.version, |s.log|, InFlight(s), before, s.service.dict, after)],
       responses := s.responses + [if ok then UpdateDone(|s.log|, |s.updates|) else UpdateFailed],
       service := Free)
  }

  function Respond(s: State, r: Response): State {
    s.(responses := s.responses + [r])
  }

  function Next(s: State, e: Event): State
    requires Enabled(s, e)
  {
    match e
    case Enter(now) =>
      if Stale(s, now) then
        s.(pc := Entered, status := Terminating,
           disturbed := s.disturbed || s.status.Ready? || s.status.Terminated?)
      else s.(pc := Entered)
    case Section(state, o) => Computing(Marked(s), state, o)
    case Append => s.(log := s.log + [s.pc.entry], pc := Appended(s.pc.entry.origin))
    case Tail(now) =>
      if s.status.Running? then
        s.(pc := Idle, timestep := s.timestep + 1, lastUpdate := now,
           status := if s.custom.value.terminated then Terminating else Running)
      else s.(pc := Idle, lastUpdate := now)
    case Install(policy, warmUp) =>
      if ForwardAll(policy, warmUp).None? then Respond(s, SetFailed)
      else Installed(s, policy)
    case RespondSet => Respond(s, SetDone(s.service.id, s.begin)).(service := Free)
    case Terminate =>
      if s.status.Running? && s.episodes != [] then s.(status := Terminating, service := Stopping(|s.episodes| - 1))
      else Respond(s, TerminateRefused)
    case RespondTerminate =>
      Respond(s, TerminateDone(s.service.id, s.begin, s.end, !s.disturbed)).(service := Free)
    case CheckUpdate(loads, dict) =>
      if !loads then Respond(s, UpdateFailed)
      else if s.custom.None? then s.(halted := true)
      else if s.status.Running? && s.episodes != [] then s.(service := Updating(|s.episodes| - 1, dict))
      else Respond(s, UpdateRefused)
    case ApplyUpdate => Applied(s)
    case GetEpisodeInterval =>
      Respond(s, if s.status.Uninitialized? then Interval(-1, -1) else Interval(s.begin, s.end))
  }

  // ----- What the simple steps change -----

  /** `n` differs from `s` as after a step of the user clients that neither installs nor updates. */
  ghost predicate ServiceFrame(s: State, n: State) {
    && n == s.(status := n.status, service := n.service, responses := n.responses, halted := n.halted)
    && (n.status == s.status || (s.status.Running? && n.status.Terminating?))
  }

  predicate IsServiceStep(e: Event) {
    e.RespondSet? || e.Terminate? || e.RespondTerminate? || e.CheckUpdate? || e.GetEpisodeInterval?
  }

  lemma ServiceStepFrame(s: State, e: Event)
    requires Enabled(s, e) && IsServiceStep(e)
    ensures ServiceFrame(s, Next(s, e))
  {
  }

  /** `n` differs from `s` as after the staleness check. */
  ghost predicate EnterFrame(s: State, n: State) {
    && s.pc.Idle? && n.pc.Entered?
    && n == s.(pc := n.pc, status := n.status, disturbed := n.disturbed)
    && ((n.status == s.status && n.disturbed == s.disturbed)
        || (n.status.Terminating? && n.disturbed == (s.disturbed || s.status.Ready? || s.status.Terminated?)))
  }

  /** `n` differs from `s` as after the termination check. */
  ghost predicate TailFrame(s: State, n: State) {
    && s.pc.Appended? && n.pc.Idle?
    && n == s.(pc := n.pc, status := n.status, timestep := n.timestep, lastUpdate := n.lastUpdate)
    && (n.status == s.status || (s.status.Running? && n.status.Terminating?))
    && (n.status.Running? ==> s.custom.Some? && !s.custom.value.terminated)
  }

  lemma ClientStepFrame(s: State, e: Event)
    requires Enabled(s, e)
    ensures e.Enter? ==> EnterFrame(s, Next(s, e))
    ensures e.Tail? ==> TailFrame(s, Next(s, e))
  {
  }

  // ----- Runs -----

  ghost predicate IsRun(s: State, es: seq<Event>)
    decreases |es|
  {
    es == [] || (Enabled(s, es[0]) && IsRun(Next(s, es[0]), es[1..]))
  }

  ghost function Exec(s: State, es: seq<Event>): State
    requires IsRun(s, es)
    decreases |es|
  {
    if es == [] then s else Exec(Next(s, es[0]), es[1..])
  }

  lemma ExecOne(s: State, e: Event)
    requires Enabled(s, e)
    ensures IsRun(s, [e]) && Exec(s, [e]) == Next(s, e)
  {
    assert [e][1..] == [];
    assert Exec(Next(s, e), []) == Next(s, e);
  }

  lemma ExecTwo(s: State, a: Event, b: Event)
    requires Enabled(s, a) && Enabled(Next(s, a), b)
    ensures IsRun(s, [a, b]) && Exec(s, [a, b]) == Next(Next(s, a), b)
  {
    assert [a, b][1..] == [b];
    ExecOne(Next(s, a), b);
  }

  lemma {:induction false} ExecConcat(s: State, es: seq<Event>, fs: seq<Event>)
    requires IsRun(s, es) && IsRun(Exec(s, es), fs)
    ensures IsRun(s, es + fs) && Exec(s, es + fs) == Exec(Exec(s, es), fs)
    decreases |es|
  {
    if es == [] {
      assert es + fs == fs;
    } else {
      assert (es + fs)[1..] == es[1..] + fs;
      ExecConcat(Next(s, es[0]), es[1..], fs);
    }
  }

  /** Every staleness timeout of the run hits while a controller is running or already being stopped. */
  ghost predicate TimelyRun(s: State, es: seq<Event>)
    requires IsRun(s, es)
    decreases |es|
  {
    es == [] ||
    ((TimesOut(s, es[0]) ==> s.status.Running? || s.status.Terminating?) && TimelyRun(Next(s, es[0]), es[1..]))
  }

  /** When the last update call of a run completed; `last` if none did. */
  ghost function LastCompleted(last: int, es: seq<Event>): int
    decreases |es|
  {
    if es == [] then last else LastCompleted(if es[0].Tail? then es[0].now else last, es[1..])
  }

  lemma {:induction false} LastUpdateIs(s: State, es: seq<Event>)
    requires IsRun(s, es)
    ensures Exec(s, es).lastUpdate == LastCompleted(s.lastUpdate, es)
    decreases |es|
  {
    if es == [] {
    } else {
      LastUpdateIs(Next(s, es[0]), es[1..]);
    }
  }

  /** In every run, an update call that begins a second or more after the last one that completed, or after
      InitRobotClient if none has, sends the server into termination, and one that begins earlier changes nothing. */
  lemma TimeoutExactly(es: seq<Event>, now: int)
    requires IsRun(INIT, es) && Enabled(Exec(INIT, es), Enter(now))
    ensures var s, n := Exec(INIT, es), Next(Exec(INIT, es), Enter(now));
            && n.status == (if now - LastCompleted(0, es) >= 1_000_000_000 then Terminating else s.status)
            && n == s.(pc := Entered, status := n.status, disturbed := n.disturbed)
  {
    LastUpdateIs(INIT, es);
  }

  /** The step is a staleness timeout. */
  predicate TimesOut(s: State, e: Event) {
    e.Enter? && Stale(s, e.now)
  }
}
