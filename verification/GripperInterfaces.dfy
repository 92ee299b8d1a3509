/** The user's side of the gripper: gating and rate limit of set_state
    (polymetis/python/polymetis/gripper_interface.py). */
module GripperInterfaces {
  import opened GripperRelay
  import opened GripperServers
  import opened Wrappers

  /** One call of set_state: the clock on entry and when a command is sent, the state read in between. */
  datatype Call = Call(
    now: int, sendTime: int, seconds: int, nanos: int, state: GripperState, target: real, speed: real, force: real)

  /** The state asks for a command: to open a gripper that is not open, or to close one that holds nothing. */
  predicate Wanted(state: GripperState, target: real, halfWidth: real, openWidth: real) {
    !state.isMoving && if target >= halfWidth then state.width < openWidth else !state.isGrasped
  }

  /** The command a call sends: stamped by it, opening to the full width or closing to width zero. */
  predicate Answers(cmd: Command, c: Call, halfWidth: real, maxWidth: real) {
    && cmd.seconds == c.seconds && cmd.nanos == c.nanos
    && Meaning(cmd) ==
         if c.target >= halfWidth then Move(maxWidth, c.speed) else Action.Grasp(0.0, c.speed, c.force, 0.01, 1.0)
  }

  class GripperInterface {
    const server: PolymetisGripperServer
    const maxWidth: real
    const openWidth: real
    const halfWidth: real
    const waitNs: int
    var lastCmdTime: int

    constructor (server: PolymetisGripperServer, maxWidth: real, openThreshold: real, waitNs: int)
      ensures this.server == server && this.maxWidth == maxWidth && this.waitNs == waitNs && lastCmdTime == 0
      ensures openWidth == maxWidth - openThreshold && halfWidth == maxWidth / 2.0
    {
      this.server := server;
      this.maxWidth := maxWidth;
      openWidth := maxWidth - openThreshold;
      halfWidth := maxWidth / 2.0;
      this.waitNs := waitNs;
      lastCmdTime := 0;
    }

    method Goto(width: real, speed: real, force: real, seconds: int, nanos: int, sendTime: int) returns (cmd: Command)
      modifies this`lastCmdTime, server`gripperCmd, server`issued
      ensures lastCmdTime == sendTime && server.issued == old(server.issued) + [cmd]
      ensures cmd == Command(seconds, nanos, false, width, speed, force, 0.0, 0.0) && Meaning(cmd) == Move(width, speed)
    {
      cmd := Command(seconds, nanos, false, width, speed, force, 0.0, 0.0);
      lastCmdTime := sendTime;
      server.Goto(cmd);
    }

    method Grasp(
      speed: real, force: real, graspWidth: real, epsInner: real, epsOuter: real,
      seconds: int, nanos: int, sendTime: int)
      returns (cmd: Command)
      modifies this`lastCmdTime, server`gripperCmd, server`issued
      ensures lastCmdTime == sendTime && server.issued == old(server.issued) + [cmd]
      ensures cmd == Command(seconds, nanos, true, graspWidth, speed, force, epsInner, epsOuter)
      ensures Meaning(cmd) == Action.Grasp(
                graspWidth, speed, force, if epsInner < 0.0 then 0.2 else epsInner,
                if epsOuter < 0.0 then 0.2 else epsOuter)
    {
      cmd := Command(seconds, nanos, true, graspWidth, speed, force, epsInner, epsOuter);
      lastCmdTime := sendTime;
      server.Goto(cmd);
    }

    /** Sends a command exactly when the last one is old enough and the state asks for one; opening goes to the
        full width without force, closing grasps at width zero with a tolerance wider than the gripper. */
    method SetState(c: Call) returns (sent: Option<Command>)
      modifies this`lastCmdTime, server`gripperCmd, server`issued
      ensures sent.Some? <==> c.now - old(lastCmdTime) >= waitNs && Wanted(c.state, c.target, halfWidth, openWidth)
      ensures sent.None? ==> lastCmdTime == old(lastCmdTime) && server.issued == old(server.issued)
      ensures sent.Some? ==> lastCmdTime == c.sendTime && server.issued == old(server.issued) + [sent.value]
      ensures sent.Some? ==> Answers(sent.value, c, halfWidth, maxWidth)
    {
      if c.now - lastCmdTime < waitNs {
        return None;
      }
      var state := c.state;
      if state.isMoving {
        return None;
      }
      if c.target >= halfWidth && state.width < openWidth {
        var cmd := Goto(maxWidth, c.speed, 0.0, c.seconds, c.nanos, c.sendTime);
        return Some(cmd);
      } else if c.target < halfWidth && !state.isGrasped {
        var cmd := Grasp(c.speed, c.force, 0.0, 0.01, 1.0, c.seconds, c.nanos, c.sendTime);
        return Some(cmd);
      }
      return None;
    }
  }

  /** A monotonic clock through a series of calls. */
  predicate Monotonic(calls: seq<Call>) {
    && (forall i :: 0 <= i < |calls| ==> calls[i].now <= calls[i].sendTime)
    && (forall i, j :: 0 <= i < j < |calls| ==> calls[i].sendTime <= calls[j].now)
  }

  /** When the last of the accepted calls sent its command; `last` if there is none. */
  function LastSend(calls: seq<Call>, which: seq<nat>, last: int): int
    requires forall k :: 0 <= k < |which| ==> which[k] < |calls|
  {
    if which == [] then last else calls[which[|which| - 1]].sendTime
  }

  /** Which of the first `n` calls send a command: those that want one and come late enough after the one before. */
  function Accepted(calls: seq<Call>, n: nat, last: int, wait: int, halfWidth: real, openWidth: real): (which: seq<nat>)
    requires n <= |calls|
    ensures forall k :: 0 <= k < |which| ==> which[k] < n
  {
    if n == 0 then []
    else
      var before := Accepted(calls, n - 1, last, wait, halfWidth, openWidth);
      var c := calls[n - 1];
      if c.now - LastSend(calls, before, last) >= wait && Wanted(c.state, c.target, halfWidth, openWidth)
      then before + [n - 1] else before
  }

  /** Call `i` comes at least the rate limit after the last command before it. */
  ghost predicate InTime(calls: seq<Call>, i: nat, last: int, wait: int, halfWidth: real, openWidth: real)
    requires i < |calls|
  {
    calls[i].now - LastSend(calls, Accepted(calls, i, last, wait, halfWidth, openWidth), last) >= wait
  }

  /** Exactly the calls in time send a command that find the gripper at rest and not yet as they want it: not open, for
      a target of half the width or more, and otherwise not holding anything. */
  lemma {:induction false} AcceptedExactly(
    calls: seq<Call>, n: nat, last: int, wait: int, halfWidth: real, openWidth: real, i: nat)
    requires i < n <= |calls|
    ensures var state, target := calls[i].state, calls[i].target;
            i in Accepted(calls, n, last, wait, halfWidth, openWidth) <==>
              && InTime(calls, i, last, wait, halfWidth, openWidth)
              && !state.isMoving
              && (target >= halfWidth ==> state.width < openWidth)
              && (target < halfWidth ==> !state.isGrasped)
    decreases n
  {
    var before := Accepted(calls, n - 1, last, wait, halfWidth, openWidth);
    if i < n - 1 {
      AcceptedExactly(calls, n - 1, last, wait, halfWidth, openWidth, i);
      assert i in before + [n - 1] <==> i in before;
    } else {
      assert i !in before;
    }
  }

  /** When the `k`-th of the accepted calls sent its command; the 0-th is the last command before. */
  function SendTime(calls: seq<Call>, which: seq<nat>, last: int, k: nat): int
    requires k <= |which| && forall i :: 0 <= i < |which| ==> which[i] < |calls|
  {
    if k == 0 then last else calls[which[k - 1]].sendTime
  }

  /** Commands are sent at least the rate limit apart. */
  lemma {:induction false} AcceptedSpaced(
    calls: seq<Call>, n: nat, last: int, wait: int, halfWidth: real, openWidth: real, k: nat)
    requires Monotonic(calls) && n <= |calls| && k < |Accepted(calls, n, last, wait, halfWidth, openWidth)|
    ensures var which := Accepted(calls, n, last, wait, halfWidth, openWidth);
            SendTime(calls, which, last, k + 1) - SendTime(calls, which, last, k) >= wait
  {
    var before := Accepted(calls, n - 1, last, wait, halfWidth, openWidth);
    if k < |before| {
      AcceptedSpaced(calls, n - 1, last, wait, halfWidth, openWidth, k);
    }
  }

  /** Each command is the one its accepted call sends. */
  ghost predicate AllAnswer(sent: seq<Command>, calls: seq<Call>, which: seq<nat>, halfWidth: real, maxWidth: real) {
    && |sent| == |which|
    && forall k :: 0 <= k < |sent| ==> which[k] < |calls| && Answers(sent[k], calls[which[k]], halfWidth, maxWidth)
  }

  /** However often set_state is called, the server receives exactly one command for each accepted call, in order,
      and each is sent at least the rate limit after the one before. */
  method Teleoperate(gripper: GripperInterface, calls: seq<Call>) returns (sent: seq<Command>)
    requires Monotonic(calls)
    modifies gripper`lastCmdTime, gripper.server`gripperCmd, gripper.server`issued
    ensures gripper.server.issued == old(gripper.server.issued) + sent
    ensures var last := old(gripper.lastCmdTime);
            var which := Accepted(calls, |calls|, last, gripper.waitNs, gripper.halfWidth, gripper.openWidth);
            && AllAnswer(sent, calls, which, gripper.halfWidth, gripper.maxWidth)
            && (forall k: nat :: k < |sent| ==>
                  SendTime(calls, which, last, k + 1) - SendTime(calls, which, last, k) >= gripper.waitNs)
  {
    ghost var last := gripper.lastCmdTime;
    ghost var which := [];
    sent := [];
    for i := 0 to |calls|
      invariant which == Accepted(calls, i, last, gripper.waitNs, gripper.halfWidth, gripper.openWidth)
      invariant gripper.lastCmdTime == LastSend(calls, which, last)
      invariant gripper.server.issued == old(gripper.server.issued) + sent
      invariant AllAnswer(sent, calls, which, gripper.halfWidth, gripper.maxWidth)
    {
      var cmd := gripper.SetState(calls[i]);
      if cmd.Some? {
        sent := sent + [cmd.value];
        which := which + [i];
      }
    }
    forall k: nat | k < |which|
      ensures SendTime(calls, which, last, k + 1) - SendTime(calls, which, last, k) >= gripper.waitNs
    {
      AcceptedSpaced(calls, |calls|, last, gripper.waitNs, gripper.halfWidth, gripper.openWidth, k);
    }
  }
}
