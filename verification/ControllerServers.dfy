/** The controller manager as an object that its request handlers update in place. Every handler step
    refines the step of ServerModel with the same name, so the claims about all runs are claims about
    this object. */
module ControllerServers {
  import opened Wrappers
  import opened CircularBuffers
  import opened Policies
  import opened ServerModel
  import opened ServerInvariants
  import opened ServerTheorems

  /** A robot state together with the torque computed for it, as kept in the log. */
  datatype Logged = Logged(state: RobotState, torque: Vec)

  /** Local variables of the robot client's pending ControlUpdate. */
  datatype Call = NoCall | Entering | Computing(logged: Logged) | Recorded

  /** The service mutex and the request that holds it. */
  datatype Mutex = Unlocked | HeldBySet | HeldByTerminate | HeldByUpdate(dict: seq<(string, Vec)>)

  /** What the handlers rely on in every reachable state. */
  lemma Facts(trace: seq<Event>, s: State)
    requires IsRun(INIT, trace) && s == Exec(INIT, trace)
    ensures s.status.Ready? || s.status.Running? ==> s.episodes != [] && s.custom.Some?
    ensures s.service.Updating? ==> s.custom.Some?
    ensures s.status.Running? && s.pc.Appended? ==> IsCurrent(s, s.pc.origin)
    ensures PendingOrigin(s.pc).Some? && PendingOrigin(s.pc).value.FromCustom? ==>
              PendingOrigin(s.pc).value.id < |s.episodes|
    ensures s.service.Stopping? ==> s.status.Terminating? || s.status.Terminated?
  {
    InvRun(INIT, trace);
  }

  lemma Extend(trace: seq<Event>, s: State, e: Event)
    requires IsRun(INIT, trace) && s == Exec(INIT, trace) && Enabled(s, e)
    ensures IsRun(INIT, trace + [e]) && Exec(INIT, trace + [e]) == Next(s, e)
  {
    ExecOne(s, e);
    ExecConcat(INIT, trace, [e]);
  }

  class ControllerServer {
    var status: Status
    var episodeBegin: int
    var episodeEnd: int
    var timestep: nat
    var customController: TorchScriptedController?
    const defaultController: DefaultController
    const buffer: CircularBuffer<Logged>
    var call: Call
    /** The controller the pending call selected; null stands for the default controller. */
    var selected: TorchScriptedController?
    var mutex: Mutex
    /** Nanoseconds since InitRobotClient. */
    var lastUpdateNs: int
    /** The process has not dereferenced a null pointer. */
    var alive: bool

    /** The steps taken since InitRobotClient; the object is where they lead. */
    ghost var trace: seq<Event>
    ghost var model: State

    /** The handler took exactly the step `e` of the model. */
    ghost predicate Steps(before: seq<Event>, s: State, e: Event)
      reads this
    {
      Enabled(s, e) && model == Next(s, e) && trace == before + [e]
    }

    ghost predicate CallMatches(m: State)
      reads this
    {
      match call
      case NoCall => m.pc.Idle?
      case Entering => m.pc.Entered?
      case Computing(logged) => m.pc.Computed? && logged == Logged(m.pc.entry.state, m.pc.entry.torque)
      case Recorded => m.pc.Appended?
    }

    ghost predicate MutexMatches(m: State)
      reads this
    {
      match mutex
      case Unlocked => m.service.Free?
      case HeldBySet => m.service.Installing?
      case HeldByTerminate => m.service.Stopping?
      case HeldByUpdate(dict) => m.service.Updating? && m.service.dict == dict
    }

    ghost predicate LogMatches(m: State)
      reads this, buffer
    {
      && |buffer.history| == |m.log|
      && forall j :: 0 <= j < |m.log| ==> buffer.history[j] == Logged(m.log[j].state, m.log[j].torque)
    }

    /** The fields hold what `m` says. */
    ghost predicate Matches(m: State)
      reads this, buffer, buffer.elems, defaultController, customController
    {
      && buffer.Valid() && LogMatches(m) && CallMatches(m) && MutexMatches(m)
      && status == m.status && timestep == m.timestep && lastUpdateNs == m.lastUpdate && alive == !m.halted
      && episodeBegin == m.begin && episodeEnd == m.end
      && defaultController.View() == m.hold
      && (customController == null <==> m.custom.None?)
      && (customController != null ==> customController.attributes == m.custom.value)
      && (PendingOrigin(m.pc).Some? && IsCurrent(m, PendingOrigin(m.pc).value) ==>
            selected != null && selected == customController)
    }

    ghost predicate Valid()
      reads this, buffer, buffer.elems, defaultController, customController
    {
      IsRun(INIT, trace) && model == Exec(INIT, trace) && Matches(model)
    }

    /** The fields already hold the state after step `e`. */
    ghost method Advance(e: Event)
      requires IsRun(INIT, trace) && model == Exec(INIT, trace)
      requires Enabled(model, e) && Matches(Next(model, e))
      modifies this`trace, this`model
      ensures Valid() && Steps(old(trace), old(model), e)
    {
      Extend(trace, model, e);
      trace, model := trace + [e], Next(model, e);
    }

    constructor InitRobotClient(numDofs: nat, capacity: nat)
      requires capacity > 0
      ensures Valid() && model == INIT && buffer.elems.Length == capacity
      ensures fresh(buffer) && fresh(buffer.elems) && fresh(defaultController)
    {
      status, episodeBegin, episodeEnd, timestep := Uninitialized, -1, -1, 0;
      customController, selected := null, null;
      defaultController := new DefaultController(numDofs);
      buffer := new CircularBuffer(capacity);
      call, mutex, lastUpdateNs, alive := NoCall, Unlocked, 0, true;
      trace, model := [], INIT;
    }

    // ----- ControlUpdate -----

    /** The robot client has been heard of less than a second ago. */
    method ValidRobotContext(now: int) returns (valid: bool)
      requires Valid()
      ensures valid <==> now - lastUpdateNs < THRESHOLD_NS
    {
      var timeSinceLastUpdate := now - lastUpdateNs;
      return timeSinceLastUpdate < THRESHOLD_NS;
    }

    method Enter(now: int)
      requires Valid() && alive && call.NoCall?
      modifies this
      ensures Valid() && Steps(old(trace), old(model), Event.Enter(now))
      ensures customController == old(customController) && alive
    {
      Facts(trace, model);
      var valid := ValidRobotContext(now);
      if !valid {
        status := Terminating;
      }
      call := Entering;
      Advance(Event.Enter(now));
    }

    /** Episode markers, first part of the locked section. */
    method MarkEpisode(ghost m: State)
      requires Matches(m) && (m.status.Ready? ==> m.episodes != []) && m.pc.Entered?
      modifies this, defaultController
      ensures Matches(Marked(m))
      ensures model == old(model) && trace == old(trace) && customController == old(customController)
    {
      if status == Ready {
        episodeBegin := buffer.index;
        status := Running;
      } else if status == Terminating {
        episodeEnd := buffer.index - 1;
        status := Terminated;
        defaultController.Reset();
      }
    }

    /** Controller selection and forward call, second part of the locked section. */
    method ComputeTorque(ghost m: State, state: RobotState, outcome: Outcome) returns (torque: Option<Vec>)
      requires Matches(m) && (m.status.Running? ==> m.custom.Some? && m.episodes != []) && m.pc.Entered?
      modifies this, customController, defaultController
      ensures Matches(ServerModel.Computing(m, state, outcome))
      ensures torque.Some? <==> call.Computing?
      ensures torque.Some? ==> call.logged == Logged(state, torque.value)
      ensures model == old(model) && trace == old(trace) && customController == old(customController)
    {
      if status == Running {
        torque := ForwardCustom(m, state, outcome);
      } else {
        torque := ForwardDefault(m, state, outcome);
      }
    }

    method ForwardCustom(ghost m: State, state: RobotState, outcome: Outcome) returns (torque: Option<Vec>)
      requires Matches(m) && m.status.Running? && m.custom.Some? && m.episodes != [] && m.pc.Entered?
      modifies this, customController
      ensures Matches(AskCustom(m, state, outcome))
      ensures torque.Some? <==> call.Computing?
      ensures torque.Some? ==> call.logged == Logged(state, torque.value)
      ensures model == old(model) && trace == old(trace) && customController == old(customController)
    {
      selected := customController;
      torque := selected.CallForward(outcome);
      call := if torque.Some? then Computing(Logged(state, torque.value)) else NoCall;
    }

    method ForwardDefault(ghost m: State, state: RobotState, outcome: Outcome) returns (torque: Option<Vec>)
      requires Matches(m) && m.pc.Entered?
      modifies this, defaultController
      ensures Matches(AskDefault(m, state, outcome))
      ensures torque.Some? <==> call.Computing?
      ensures torque.Some? ==> call.logged == Logged(state, torque.value)
      ensures model == old(model) && trace == old(trace) && customController == old(customController)
    {
      selected := null;
      torque := defaultController.CallForward(state.q, outcome);
      call := if torque.Some? then Computing(Logged(state, torque.value)) else NoCall;
    }

    method LockedSection(state: RobotState, outcome: Outcome) returns (torque: Option<Vec>)
      requires Valid() && alive && call.Entering?
      modifies this, customController, defaultController
      ensures Valid() && Steps(old(trace), old(model), Section(state, outcome))
      ensures torque.Some? <==> call.Computing?
      ensures torque.Some? ==> call.logged == Logged(state, torque.value)
      ensures customController == old(customController) && alive
    {
      Facts(trace, model);
      MarkEpisode(model);
      torque := ComputeTorque(Marked(model), state, outcome);
      Advance(Section(state, outcome));
    }

    method RecordState()
      requires Valid() && alive && call.Computing?
      modifies this, buffer, buffer.elems
      ensures Valid() && Steps(old(trace), old(model), Append)
      ensures buffer.history == old(buffer.history) + [old(call).logged]
      ensures customController == old(customController) && alive
    {
      Facts(trace, model);
      buffer.Append(call.logged);
      call := Recorded;
      Advance(Append);
    }

    method CheckTermination(now: int)
      requires Valid() && alive && call.Recorded?
      modifies this
      ensures Valid() && Steps(old(trace), old(model), Tail(now))
      ensures customController == old(customController)
    {
      Facts(trace, model);
      FinishUpdate(model, now);
      Advance(Tail(now));
    }

    method FinishUpdate(ghost m: State, now: int)
      requires Matches(m) && Enabled(m, Tail(now)) && (m.status.Running? ==> IsCurrent(m, m.pc.origin))
      modifies this
      ensures Matches(Next(m, Tail(now)))
      ensures model == old(model) && trace == old(trace) && customController == old(customController)
    {
      if status == Running {
        timestep := timestep + 1;
        if selected.attributes.terminated {
          status := Terminating;
        }
      }
      lastUpdateNs := now;
      call := NoCall;
    }

    /** A ControlUpdate during which no other request runs. */
    method ControlUpdate(now: int, state: RobotState, outcome: Outcome, done: int) returns (torque: Option<Vec>)
      requires Valid() && alive && call.NoCall?
      modifies this, customController, defaultController, buffer, buffer.elems
      ensures Valid() && call.NoCall?
      ensures trace == old(trace) + [Event.Enter(now)] + [Section(state, outcome)]
                         + if torque.Some? then [Append] + [Tail(done)] else []
      ensures buffer.history == old(buffer.history) + if torque.Some? then [Logged(state, torque.value)] else []
    {
      Enter(now);
      torque := LockedSection(state, outcome);
      if torque.Some? {
        RecordAndCheck(done);
      }
    }

    method RecordAndCheck(done: int)
      requires Valid() && alive && call.Computing?
      modifies this, buffer, buffer.elems
      ensures Valid() && call.NoCall? && trace == old(trace) + ([Append] + [Tail(done)])
      ensures buffer.history == old(buffer.history) + [old(call).logged]
    {
      RecordState();
      CheckTermination(done);
    }

    // ----- SetController -----

    /** Load and warm up the new controller and, if that succeeds, switch it in. */
    method SwitchIn(ghost m: State, policy: Policy, warmUp: seq<Outcome>) returns (loaded: bool)
      requires Matches(m) && m.service.Free?
      requires PendingOrigin(m.pc).Some? && PendingOrigin(m.pc).value.FromCustom? ==>
                 PendingOrigin(m.pc).value.id < |m.episodes|
      modifies this
      ensures loaded <==> ForwardAll(policy, warmUp).Some?
      ensures loaded ==> Matches(Installed(m, policy)) && fresh(customController)
      ensures !loaded ==> Matches(m) && customController == old(customController)
      ensures model == old(model) && trace == old(trace)
    {
      var controller := new TorchScriptedController(policy);
      loaded := controller.WarmUp(warmUp);
      if loaded {
        SwapController(m, controller);
      }
    }

    method SwapController(ghost m: State, controller: TorchScriptedController)
      requires Matches(m) && m.service.Free?
      requires PendingOrigin(m.pc).Some? && PendingOrigin(m.pc).value.FromCustom? ==>
                 PendingOrigin(m.pc).value.id < |m.episodes|
      modifies this
      ensures Matches(Installed(m, controller.attributes)) && customController == controller
      ensures model == old(model) && trace == old(trace)
    {
      episodeBegin, episodeEnd, timestep := -1, -1, 0;
      customController := controller;
      status := Ready;
      mutex := HeldBySet;
    }

    method Install(policy: Policy, warmUp: seq<Outcome>) returns (loaded: bool)
      requires Valid() && alive && mutex.Unlocked? && |warmUp| == WARM_UP_ITERS
      modifies this
      ensures Valid() && Steps(old(trace), old(model), Event.Install(policy, warmUp))
      ensures loaded <==> ForwardAll(policy, warmUp).Some?
      ensures loaded ==> fresh(customController)
      ensures !loaded ==> customController == old(customController)
    {
      Facts(trace, model);
      loaded := SwitchIn(model, policy, warmUp);
      Advance(Event.Install(policy, warmUp));
    }

    method RespondSet() returns (start: int)
      requires Valid() && alive && mutex.HeldBySet? && status != Ready
      modifies this
      ensures Valid() && Steps(old(trace), old(model), Event.RespondSet)
      ensures model.responses == old(model).responses + [SetDone(old(model).service.id, start)]
      ensures customController == old(customController)
    {
      Facts(trace, model);
      start := episodeBegin;
      mutex := Unlocked;
      Advance(Event.RespondSet);
    }

    // ----- TerminateController -----

    method Terminate() returns (accepted: bool)
      requires Valid() && alive && mutex.Unlocked?
      modifies this
      ensures Valid() && Steps(old(trace), old(model), Event.Terminate)
      ensures accepted <==> old(status) == Running
      ensures customController == old(customController)
    {
      Facts(trace, model);
      accepted := status == Running;
      if accepted {
        status := Terminating;
        mutex := HeldByTerminate;
      }
      Advance(Event.Terminate);
    }

    method RespondTerminate() returns (start: int, end: int)
      requires Valid() && alive && mutex.HeldByTerminate? && status != Terminating
      modifies this
      ensures Valid() && Steps(old(trace), old(model), Event.RespondTerminate)
      ensures model.responses ==
                old(model).responses + [TerminateDone(old(model).service.id, start, end, !old(model).disturbed)]
      ensures customController == old(customController)
    {
      Facts(trace, model);
      start, end := episodeBegin, episodeEnd;
      mutex := Unlocked;
      Advance(Event.RespondTerminate);
    }

    // ----- UpdateController -----

    /** A container that loads is then stored in the controller, which may not exist. */
    method CheckUpdate(loads: bool, dict: seq<(string, Vec)>) returns (accepted: bool)
      requires Valid() && alive && mutex.Unlocked?
      modifies this
      ensures Valid() && Steps(old(trace), old(model), Event.CheckUpdate(loads, dict))
      ensures accepted <==> loads && old(status) == Running
      ensures alive <==> !(loads && customController == null)
      ensures customController == old(customController)
    {
      Facts(trace, model);
      accepted := false;
      if loads {
        if customController == null {
          alive := false;
        } else {
          accepted := status == Running;
        }
      }
      if accepted {
        mutex := HeldByUpdate(dict);
      }
      Advance(Event.CheckUpdate(loads, dict));
    }

    method ApplyUpdate() returns (r: Result<nat, ()>)
      requires Valid() && alive && mutex.HeldByUpdate?
      modifies this, customController
      ensures Valid() && Steps(old(trace), old(model), Event.ApplyUpdate)
      ensures var (_, ok) := Updated(old(model).custom.value.params, old(mutex).dict);
              r == if ok then Success(|old(model).log|) else Failure(())
      ensures customController == old(customController)
    {
      Facts(trace, model);
      var start := buffer.index;
      var ok := customController.Update(mutex.dict);
      r := if ok then Success(start) else Failure(());
      mutex := Unlocked;
      Advance(Event.ApplyUpdate);
    }

    method GetEpisodeInterval() returns (start: int, end: int)
      requires Valid() && alive
      modifies this
      ensures Valid() && Steps(old(trace), old(model), Event.GetEpisodeInterval)
      ensures model.responses == old(model).responses + [Interval(start, end)]
      ensures customController == old(customController)
    {
      Facts(trace, model);
      start, end := -1, -1;
      if status != Uninitialized {
        start, end := episodeBegin, episodeEnd;
      }
      Advance(Event.GetEpisodeInterval);
    }
  }
}
