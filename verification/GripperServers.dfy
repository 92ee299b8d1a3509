/** The gripper server and the Franka hand client as objects whose fields are updated in place; every schedule of
    their steps is a run of the relay (polymetis/python/polymetis/robot_servers/gripper_server.py and
    polymetis/src/clients/franka_panda_client/franka_hand_client.cpp). */
module GripperServers {
  import opened GripperRelay

  const EPSILON_INNER: real := 0.2
  const EPSILON_OUTER: real := 0.2

  datatype GripperState = GripperState(width: real, isGrasped: bool, isMoving: bool, prevSuccessful: bool)

  /** What the client asks of the gripper. */
  datatype Action =
    | Grasp(width: real, speed: real, force: real, inner: real, outer: real)
    | Move(width: real, speed: real)

  /** A command as the gripper understands it; negative tolerances stand for the defaults. */
  function Meaning(c: Command): Action {
    if c.grasp then
      Grasp(c.width, c.speed, c.force,
            if c.epsInner < 0.0 then EPSILON_INNER else c.epsInner,
            if c.epsOuter < 0.0 then EPSILON_OUTER else c.epsOuter)
    else Move(c.width, c.speed)
  }

  /** Nothing of a command is lost or changed on its way to the gripper, except that a negative tolerance is replaced by
      20 centimetres and that a move needs no force. */
  lemma MeaningKeepsAll(c: Command)
    ensures var a := Meaning(c);
            && a.width == c.width && a.speed == c.speed && (a.Grasp? <==> c.grasp)
            && (c.grasp ==>
                  && a.force == c.force
                  && (c.epsInner >= 0.0 ==> a.inner == c.epsInner) && (c.epsInner < 0.0 ==> a.inner == 0.2)
                  && (c.epsOuter >= 0.0 ==> a.outer == c.epsOuter) && (c.epsOuter < 0.0 ==> a.outer == 0.2))
  {
  }

  class PolymetisGripperServer {
    var gripperState: GripperState
    var gripperCmd: Command
    /** All commands received so far. */
    ghost var issued: seq<Command>

    constructor ()
      ensures gripperState == GripperState(0.0, false, false, false) && gripperCmd == EMPTY && issued == []
    {
      issued := [];
      gripperState := GripperState(0.0, false, false, false);
      gripperCmd := EMPTY;
    }

    method Goto(request: Command)
      modifies this`gripperCmd, this`issued
      ensures gripperCmd == request && issued == old(issued) + [request]
    {
      gripperCmd := request;
      issued := issued + [request];
    }

    method ControlUpdate(request: GripperState) returns (cmd: Command)
      modifies this`gripperState
      ensures gripperState == request && cmd == gripperCmd
    {
      gripperState := request;
      cmd := gripperCmd;
    }
  }

  class FrankaHandClient {
    const server: PolymetisGripperServer
    var gripperCmd: Command
    var prevTimestamp: int
    var isMoving: bool
    var prevSuccessful: bool
    var threads: nat

    /** Client and server are in state `s` of the relay. */
    ghost predicate Matches(s: State)
      reads this, server
    {
      && server.gripperCmd == s.cache && server.issued == s.issued && gripperCmd == s.cmd
      && prevTimestamp == s.prev && isMoving == s.moving && threads == s.spawned
    }

    /** `prev` is whatever the uninitialised field holds. */
    constructor (server: PolymetisGripperServer, prev: int)
      ensures this.server == server && prevTimestamp == prev
      ensures server.gripperCmd == EMPTY && server.issued == [] ==> Matches(Init(prev))
    {
      this.server := server;
      gripperCmd := EMPTY;
      prevTimestamp := prev;
      isMoving := false;
      prevSuccessful := true;
      threads := 0;
    }

    /** One turn of the loop with what the gripper reads: reports the state, takes over the cached command and
        launches a thread for a new one unless the gripper is moving. */
    method Turn(ghost s: State, width: real, isGrasped: bool)
      requires Matches(s)
      modifies this, server`gripperState
      ensures Matches(Next(s, Poll))
      ensures server.gripperState == GripperState(width, isGrasped, old(isMoving), old(prevSuccessful))
    {
      var state := GripperState(width, isGrasped, isMoving, prevSuccessful);
      gripperCmd := server.ControlUpdate(state);
      if !isMoving {
        var timestamp := gripperCmd.nanos;
        if timestamp != prevTimestamp && timestamp != 0 {
          threads := threads + 1;
          prevTimestamp := timestamp;
        }
      }
    }

    /** A launched thread starts on its command. */
    method BeginCommand(ghost s: State) returns (a: Action)
      requires Matches(s) && Enabled(s, Begin)
      modifies this
      ensures Matches(Next(s, Begin)) && a == Meaning(s.cmd)
    {
      threads := threads - 1;
      isMoving := true;
      if gripperCmd.grasp {
        var inner := if gripperCmd.epsInner < 0.0 then EPSILON_INNER else gripperCmd.epsInner;
        var outer := if gripperCmd.epsOuter < 0.0 then EPSILON_OUTER else gripperCmd.epsOuter;
        a := Grasp(gripperCmd.width, gripperCmd.speed, gripperCmd.force, inner, outer);
      } else {
        a := Move(gripperCmd.width, gripperCmd.speed);
      }
    }

    /** The gripper is done with a thread's command. */
    method FinishCommand(ghost s: State, success: bool)
      requires Matches(s) && Enabled(s, Finish)
      modifies this
      ensures Matches(Next(s, Finish)) && prevSuccessful == success
    {
      prevSuccessful := success;
      isMoving := false;
    }
  }

  function Meanings(cs: seq<Command>): seq<Action> {
    seq(|cs|, j requires 0 <= j < |cs| => Meaning(cs[j]))
  }

  /** What the gripper reads at a turn of the client, and how its command went when a thread is done. */
  datatype Reading = Reading(width: real, isGrasped: bool, success: bool)

  /** Any schedule of user commands, client turns and gripper motions, with any readings: the gripper is asked for
      exactly the commands the relay executes, in their order. */
  method Serve(client: FrankaHandClient, es: seq<Event>, readings: seq<Reading>) returns (actions: seq<Action>)
    requires IsRun(client.prevTimestamp, es) && client.Matches(Init(client.prevTimestamp)) && |readings| == |es|
    modifies client, client.server
    ensures client.Matches(Exec(old(client.prevTimestamp), es))
    ensures actions == Meanings(Exec(old(client.prevTimestamp), es).executed)
  {
    ghost var prev := client.prevTimestamp;
    actions := [];
    Prefix(prev, es, 0);
    for k := 0 to |es|
      invariant IsRun(prev, es[..k]) && client.Matches(Exec(prev, es[..k]))
      invariant actions == Meanings(Exec(prev, es[..k]).executed)
    {
      ghost var s := Exec(prev, es[..k]);
      StepOf(prev, es, k);
      match es[k] {
        case Issue(c) => client.server.Goto(c);
        case Poll => client.Turn(s, readings[k].width, readings[k].isGrasped);
        case Begin =>
          var a := client.BeginCommand(s);
          actions := actions + [a];
        case Finish => client.FinishCommand(s, readings[k].success);
      }
    }
    assert es[..|es|] == es;
  }

  lemma StepOf(prev: int, es: seq<Event>, k: nat)
    requires IsRun(prev, es) && k < |es|
    ensures IsRun(prev, es[..k]) && IsRun(prev, es[..k + 1])
    ensures Enabled(Exec(prev, es[..k]), es[k]) && Exec(prev, es[..k + 1]) == Next(Exec(prev, es[..k]), es[k])
  {
    Prefix(prev, es, k);
    Prefix(prev, es, k + 1);
    assert es[..k + 1][..k] == es[..k];
  }
}
