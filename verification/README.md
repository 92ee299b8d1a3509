# Verified model of Polymetis

Polymetis runs torque policies on a robot. This project models the parts of it whose correctness is hardest to
see, as Dafny programs, and proves what they promise.

- **Controller manager** (`ServerModel`, `ServerInvariants`, `HandOver`, `ParameterUpdates`, `WaypointBounds`,
  `ServerTheorems`, `TrajectoryRuns`, `ContinuingRuns`, `ServerEdgeCases`). The robot client calls ControlUpdate in an
  endless loop while user clients install, update, stop and query controllers. The server is a labelled step system:
  an update call is four steps, a request that waits is one step that acts and one that responds, and anything may run
  in between. A history tags every log entry with the controller, parameter version and waypoint it was computed from.
  The theorems speak about every run. `ControllerServers` is the server as an object whose handlers update its fields
  in place; each handler is proved to take exactly the step of the same name.
- **What the server is built from**: the circular log and the two requests that read it (`CircularBuffers`,
  `StateLogs`), warm-up, parameter update, trajectory counters and the hold controller (`Policies`).
- **Planning** (`MinJerk`, with lemmas of `Arithmetic`): min-jerk plans and the adaptive duration, over exact reals.
- **Rigid motions** (`RigidTransforms`): the algebra of transformations over unit quaternions, over exact reals.
- **Franka client** (`SafetyLimits`, `FrankaClients`, `AppliedTorques`): hard-limit exceptions over whole runs, the
  reflex torque, the final clamp, the control callback as an object, and what it adds to the commanded torques.
- **Ability Hand** (`Bits`, `NibbleUnpacking`, `TouchSensors`, `HandProtocol`, `HandFrames`, `Hands`,
  `JointScaling`, `PositionEcho`): 12-bit unpacking in C and in Python, checksums, reply frames and streams of them,
  and the position echo through the mock device.
- **Gripper** (`GripperRelay`, `GripperServers`, `GripperInterfaces`): the path of a command from the user through the
  server's one-command cache to the polling client, and the rate limit on the user's side.

`dafny verify dfyconfig.toml` checks the whole project.

## Assumptions

- One robot client, whose ControlUpdate calls are sequential; InitRobotClient has been called once, before everything
  else. Log indices stay below 2^31.
- Testing the status and writing it is one step in TerminateController (`polymetis_server.cpp:356-358`), in
  UpdateController's check (line 322) and in the termination check (lines 225-230), although the code holds no lock
  there. Reading the episode markers for a response is one step. Append and termination check are separate steps.
- Clock readings are inputs, counted in nanoseconds from InitRobotClient and never the reading that stands for "no
  client" (`polymetis_server.cpp:118`); they may run backwards. The staleness threshold is its default of one second.
- A null pointer that is dereferenced ends the process: no step follows.
- What a policy computes is an input of the step: a torque or an exception. A raising trajectory executor raises before
  it counts; iLQR counts before it computes, so its exception may come after.
- In the gripper relay, launching a thread, taking its command and setting `is_moving_` happen without another step in
  between where a theorem says `Atomic`; `SlowThreads` shows what happens otherwise. Stamps are distinct and non-zero
  where a theorem says `Distinct`.
- Floating point is modelled by exact reals; integers are unbounded except where a width is written out (the unsigned
  log cursor, bytes, 12-bit and 16-bit words, the signed-byte checksum accumulator).

## Where the code and its description differ

The model follows the code in each case.

- An update call that computed its torque before a parameter update but records it afterwards uses the old parameters
  at the very index UpdateController returns (`UpdateIndex`).
- The end of an episode is -1 both while it is open and when it closed before anything was ever logged
  (`ClosedLooksOpen`, `ClosedLooksOpenReachable`).
- A timeout in any state sets the status to terminating: after the close it moves the recorded end
  (`RestampExactly`), before the start it leaves an end without a begin (`TimeoutBeforeStart`).
- A parameter update that fails has already changed the parameters before the failing name (`UpdateIsPrefix`).
- An iLQR policy that raises on its last step leaves the server asking it for a step it does not have
  (`ExhaustedExactly`, `ExhaustedReachable`, `ExhaustedRaises`). The episode ends when an update begins a second or
  more after the last one that succeeded (`RaisingControllerStopped`).
- UpdateController dereferences a null pointer before any controller was installed (`LostExactly`).
- A joint plan stamps its waypoints one period apart but spreads the profile of the whole duration over them, so the
  goal is reached a period or more before the duration is over (`PlanLength`, `PlanTimes`, `PlanIsMotion`).
- Retrieving the log "until the latest" never ends on an empty log (`LogRequestEnds`).
- Only the right operand of a rotation product is normalised (`MultiplyKeepsLeftNorm`).
- The gripper client compares only the sub-second part of time stamps (`StampsDecide`, `SameNanosDropped`).
- A frame of an unsupported variant raises only after motor status and positions were overwritten
  (`FailurePublishes`, `UnknownVariantExists`).
- The Python and C touch decoders take nibbles in opposite orders (`DecodersAgreeOn`).

## Model

| member | source | states |
|---|---|---|
| CircularBuffers.SlotsDistinct | polymetis/include/polymetis/utils.h:35-45 | two retained indices never share a slot, for every capacity |
| CircularBuffers.CircularBuffer.constructor | polymetis/include/polymetis/utils.h:26 | an empty history |
| CircularBuffers.CircularBuffer.Clear | polymetis/include/polymetis/utils.h:30-33 | forgets the whole history |
| CircularBuffers.CircularBuffer.Append | polymetis/include/polymetis/utils.h:35-38 | extends the unbounded history by one element, and the slots still hold every retained element |
| CircularBuffers.CircularBuffer.Get | polymetis/include/polymetis/utils.h:40-45 | element `i` of the unbounded history exactly when it is retained, otherwise absent; negative indices are absent |
| CircularBuffers.CircularBuffer.Size | polymetis/include/polymetis/utils.h:47 | the length of the whole history, retained or not |
| StateLogs.GetRobotState | polymetis/src/polymetis_server.cpp:14-23 | the latest state, or the error on an empty log |
| StateLogs.GetRobotStateLog | polymetis/src/polymetis_server.cpp:53-75 | with appends arriving during the loop, makes exactly one pass for each index asked for, for all bounds, and writes what the buffer holds there; on a quiet log that is everything retained from start to end, or up to the very latest state for end -1 |
| StateLogs.LogRequestEnds | polymetis/src/polymetis_server.cpp:57-73 | a request ends by itself for all signed bounds, except exactly the request for "until the latest" on an empty log |
| StateLogs.LogIsRetainedSlice | polymetis/src/polymetis_server.cpp:62-73 | on a quiet log the output is exactly the retained part of the requested interval, in order |
| StateLogs.QuietRequest | polymetis/src/polymetis_server.cpp:53-75 | on a quiet log the reads of the unsigned cursor are exactly the retained states from start to end, or to the latest for end -1; nothing for a start behind the log |
| StateLogs.CountPasses | polymetis/src/polymetis_server.cpp:57-73 | the number of passes for all signed bounds: size - start for end -1, end + 1 - start otherwise, none for a start behind the end |
| StateLogs.LogSurvivesAppends | polymetis/src/polymetis_server.cpp:62-73 | while states keep arriving the request is still served completely if its first index is retained at the last read |
| StateLogs.GetRobotStateStream | polymetis/src/polymetis_server.cpp:36-51 | the stream loop writes what its specification says for every interleaving of appends and passes, and everything that arrived if it is given time to catch up |
| StateLogs.StreamIncreases | polymetis/src/polymetis_server.cpp:36-51 | written entries are history entries at strictly increasing indices from the subscription point on |
| StateLogs.StreamMissesNone | polymetis/src/polymetis_server.cpp:36-51 | no index up to the cursor is missed exactly when the reader never lags more than the capacity |
| StateLogs.StreamIsSlice | polymetis/src/polymetis_server.cpp:36-51 | without lag the output is the slice of the history from the subscription point to the cursor |
| StateLogs.StreamComplete | polymetis/src/polymetis_server.cpp:36-51 | a stream that is given time to catch up has written everything that arrived since the subscription |
| Policies.UpdateIsPrefix | polymetis/python/torchcontrol/_module.py:49-56 | an update copies exactly the entries before the first that names no parameter or has a wrong length, element by element or one element to all, and leaves every other name; it succeeds exactly when all entries fit |
| Policies.WarmUpSucceeds | polymetis/python/torchcontrol/policies/trajectory.py:64-84 | a series of calls succeeds exactly when none raises and the trajectory has a waypoint for each |
| Policies.TorchScriptedController.CallForward | polymetis/torch_isolation/src/torch_server_ops.cpp:135-149 | one forward call changes counter and flag as the policy does, before or after a raise |
| Policies.TorchScriptedController.WarmUp | polymetis/torch_isolation/src/torch_server_ops.cpp:151-163 | succeeds exactly when every call does, and then leaves the module as it was |
| Policies.TorchScriptedController.Update | polymetis/torch_isolation/src/torch_server_ops.cpp:193-195 | the in-place update copies exactly the entries before the first that does not fit, element by element, also when it fails part-way |
| Policies.DefaultController.Reset | polymetis/python/torchcontrol/policies/default_controller.py:26-27 | releases the setpoint |
| Policies.DefaultController.CallForward | polymetis/python/torchcontrol/policies/default_controller.py:29-46 | latches the measured position on the first call after a reset and holds it afterwards |
| ServerInvariants.ShapeKept | polymetis/src/polymetis_server.cpp:117-389 | every step keeps status, episode history and service holder consistent |
| ServerInvariants.PartitionKept | polymetis/src/polymetis_server.cpp:172-230 | every step keeps the log partitioned by the episodes, including an entry computed but not yet appended |
| ServerInvariants.ReportedKept | polymetis/src/polymetis_server.cpp:174-189 | every step keeps the episode markers equal to the current episode's interval |
| ServerInvariants.RespondedKept | polymetis/src/polymetis_server.cpp:284-291 | every step keeps all responses given so far true |
| HandOver.HandedOverKept | polymetis/src/polymetis_server.cpp:180-197 | every step keeps the setpoint of the default controller younger than any custom controller's call |
| ParameterUpdates.VersionedKept | polymetis/src/polymetis_server.cpp:321-327 | every step keeps the entries on the right side of every update |
| WaypointBounds.CountedKept | polymetis/src/polymetis_server.cpp:175-230 | every step keeps a trajectory's counter in step with its episode |
| ServerTheorems.InvRun | polymetis/src/polymetis_server.cpp:145-389 | all invariants hold after every run |
| ServerTheorems.ControllerIsPresent | polymetis/src/polymetis_server.cpp:191-200 | in no run of a server that is still alive can the locked section or the termination check meet a missing controller |
| ServerTheorems.EpisodePartition | polymetis/src/polymetis_server.cpp:172-230 | in every run an index lies in an episode exactly when that episode's controller computed the entry, and in none exactly when the default controller did |
| ServerTheorems.ClosedIntervalExact | polymetis/src/polymetis_server.cpp:180-183 | a closed, undisturbed episode reports exactly the entries its controller computed |
| ServerTheorems.RestampExactly | polymetis/src/polymetis_server.cpp:150-155 | a timeout after the close stamps the end again, whether or not another one did before; the interval is then exact if and only if nothing has been logged since the close |
| ServerTheorems.ClosedLooksOpen | polymetis/src/polymetis_server.cpp:182 | while no timeout and no new controller follows, a closed episode reports end -1 exactly when the log was empty at the section that closed it |
| ServerTheorems.ClosedLooksOpenReachable | polymetis/src/polymetis_server.cpp:180-183 | a run from the initial state that closes an episode with an empty log |
| ServerTheorems.LostExactly | polymetis/src/polymetis_server.cpp:313-320 | the server dereferences a null pointer exactly when a well-formed parameter update arrives before any controller was installed |
| ServerTheorems.TimelyIntervalsExact | polymetis/src/polymetis_server.cpp:145-235 | if timeouts hit only a running or stopping controller, every closed interval is exact and has a begin |
| ServerTheorems.ResponseOwnership | polymetis/src/polymetis_server.cpp:284-291 | SetController answers with the begin of the controller that very call installed or -1; TerminateController with the interval of the episode it stopped |
| ServerTheorems.TimelyResponses | polymetis/src/polymetis_server.cpp:361-366 | with timely timeouts both answers are the exact non-negative markers |
| ServerTheorems.SetWaitEnds | polymetis/src/polymetis_server.cpp:285-288 | the next locked section releases a waiting SetController, which then stays released with the same answer |
| ServerTheorems.TerminateWaitEnds | polymetis/src/polymetis_server.cpp:362-366 | the next locked section releases a waiting TerminateController |
| ServerTheorems.IntervalAnswer | polymetis/src/polymetis_server.cpp:378-389 | in every run GetEpisodeInterval answers with the first index of the current controller or -1, with end -1 until its episode is over, and then with its last index unless a timeout hit after the close |
| ServerTheorems.LoggedTorque | polymetis/src/polymetis_server.cpp:172-222 | in every run each log entry holds the state one section observed and the torque computed in that section, in the order of sections |
| ServerTheorems.SafeHandOver | polymetis/src/polymetis_server.cpp:180-197 | every default torque uses the position observed by the first section since the last release that did not raise in vain, after the last custom call; right after a custom controller it is the position of that very update |
| ServerTheorems.UpdateIndex | polymetis/src/polymetis_server.cpp:322-327 | an UpdateController that answered u copied every entry of its dictionary, element by element, and splits its episode at u; index u used the old parameters exactly when an update call was between section and append |
| ServerTheorems.UpdateCall | polymetis/src/polymetis_server.cpp:313-336 | an accepted UpdateController copies the dictionary it was called with over the parameters of that moment, whatever runs in between, and answers with the index exactly when every entry fits |
| ServerTheorems.UpdatePlaced | polymetis/src/polymetis_server.cpp:318-336 | every update, failed ones too, copied the fitting leading entries of its dictionary and splits its episode at the index it recorded |
| ServerTheorems.ParametersFromLoading | polymetis/src/polymetis_server.cpp:318-336 | entries before any update used the parameters the controller was loaded with; each update starts from what the one before it left |
| ParameterUpdates.UpdateTakesEffectAtStart | polymetis/src/polymetis_server.cpp:322-327 | for a controller updated once, the parameters of every entry, case by case |
| ServerTheorems.NeverSteppedPastEnd | polymetis/python/torchcontrol/policies/trajectory.py:64-66 | in every run the counter of a trajectory or iLQR policy about to be stepped indexes a waypoint, unless the policy is an iLQR one that has raised after counting |
| ServerTheorems.NeverLate | polymetis/python/torchcontrol/policies/trajectory.py:223-239 | in a run without such exceptions no policy is ever marked as having raised after counting |
| ServerTheorems.EntryUsesItsWaypoint | polymetis/python/torchcontrol/policies/trajectory.py:64-84 | in every run an entry was computed from a waypoint that exists; the entry at offset d of the episode from waypoint d, unless an iLQR policy raised after counting |
| TrajectoryRuns.UndisturbedTrajectory | polymetis/src/polymetis_server.cpp:174-230 | the episode of an n-waypoint trajectory or iLQR policy opens in the first and closes exactly in the (n+1)-th section, with n entries computed from the n waypoints in order |
| TrajectoryRuns.BlockingClientReturns | polymetis/python/polymetis/robot_interface.py:249-256 | the loop that polls GetEpisodeInterval returns exactly when n+1 sections have run, with its own episode's interval |
| TrajectoryRuns.BlockingClientGetsTrajectory | polymetis/python/polymetis/robot_interface.py:258-262 | the log it then fetches from an episode left with such an interval is one state per waypoint, in order, while new states keep arriving |
| ContinuingRuns.RunsUntilItFinishes | polymetis/src/polymetis_server.cpp:174-230 | a controller that is not a trajectory runs from its first section on, with its begin reported and no end, until the first section after an update completed after it asked to finish; the interval then is exactly the entries it computed |
| ContinuingRuns.ClosedExactly | polymetis/src/polymetis_server.cpp:224-230 | such a life is over exactly when a section asked to finish, later an update completed, and later another section came |
| ContinuingRuns.RunsOn | polymetis/src/polymetis_server.cpp:174-230 | a controller that never asks to finish and that nobody stops keeps running, and every entry from its first on is its own, also when it raises or another controller fails to load |
| ServerModel.TimeoutExactly | polymetis/src/polymetis_server.cpp:117-155 | in every run an update call is a timeout exactly when a second or more has passed since the last one that completed, or since InitRobotClient; otherwise the check changes nothing |
| ServerEdgeCases.TimeoutBeforeStart | polymetis/src/polymetis_server.cpp:150-155 | a timeout on a ready controller kills it: SetController answers -1 and the server reports an end without a begin |
| ServerEdgeCases.TimeoutHypothesisNeeded | polymetis/src/polymetis_server.cpp:150-155 | a run from the initial state in which that happens |
| ServerEdgeCases.ExhaustedExactly | polymetis/python/torchcontrol/policies/trajectory.py:232-237 | a policy is left past its last waypoint exactly when it counts first and raises on the last one |
| ServerEdgeCases.ExhaustedReachable | polymetis/python/torchcontrol/policies/trajectory.py:232-237 | for every iLQR policy that loads, a run from the initial state that ends past its last waypoint |
| ServerEdgeCases.ExhaustedRaises | polymetis/src/polymetis_server.cpp:198-207 | from then on every update raises, as long as updates come in time and nobody stops or replaces the controller |
| ServerEdgeCases.RaisingControllerStopped | polymetis/src/polymetis_server.cpp:117-155 | a controller that only raises is stopped by the first update begun a second or more after the last success: nothing was logged meanwhile, the interval is exact and that update is served by the default controller |
| ControllerServers.ControllerServer.InitRobotClient | polymetis/src/polymetis_server.cpp:77-115 | the object starts in the initial state |
| ControllerServers.ControllerServer.ValidRobotContext | polymetis/src/polymetis_server.cpp:117-124 | false exactly when a second or more has passed since the last completed update |
| ControllerServers.ControllerServer.Enter | polymetis/src/polymetis_server.cpp:149-155 | the staleness check is the step Enter |
| ControllerServers.ControllerServer.MarkEpisode | polymetis/src/polymetis_server.cpp:174-189 | the first half of the locked section writes the episode markers the step system says |
| ControllerServers.ControllerServer.ComputeTorque | polymetis/src/polymetis_server.cpp:191-207 | the second half selects, calls and reports a controller as the step system says |
| ControllerServers.ControllerServer.ForwardCustom | polymetis/src/polymetis_server.cpp:191-207 | asks the custom controller as the step system says |
| ControllerServers.ControllerServer.ForwardDefault | polymetis/src/polymetis_server.cpp:191-207 | asks the default controller as the step system says |
| ControllerServers.ControllerServer.LockedSection | polymetis/src/polymetis_server.cpp:172-210 | both halves together are the step Section |
| ControllerServers.ControllerServer.RecordState | polymetis/src/polymetis_server.cpp:216-222 | appends the state with its torque to the circular log: the step Append |
| ControllerServers.ControllerServer.CheckTermination | polymetis/src/polymetis_server.cpp:224-232 | the step Tail, which records the time of the completed update |
| ControllerServers.ControllerServer.ControlUpdate | polymetis/src/polymetis_server.cpp:145-235 | an uninterrupted call is its four steps, or two when the controller raises, and logs exactly one state or none |
| ControllerServers.ControllerServer.SwitchIn | polymetis/src/polymetis_server.cpp:259-282 | loads, warms up and switches in a fresh controller, or changes nothing |
| ControllerServers.ControllerServer.Install | polymetis/src/polymetis_server.cpp:259-282 | the step Install |
| ControllerServers.ControllerServer.RespondSet | polymetis/src/polymetis_server.cpp:284-291 | the answer is the one the step system records |
| ControllerServers.ControllerServer.Terminate | polymetis/src/polymetis_server.cpp:351-359 | the step Terminate, accepted exactly while running |
| ControllerServers.ControllerServer.RespondTerminate | polymetis/src/polymetis_server.cpp:361-366 | the answer is the one the step system records |
| ControllerServers.ControllerServer.CheckUpdate | polymetis/src/polymetis_server.cpp:313-322 | the step CheckUpdate in any state: refused, accepted, or, without any controller, the end of the process |
| ControllerServers.ControllerServer.ApplyUpdate | polymetis/src/polymetis_server.cpp:323-336 | the step ApplyUpdate and the index it returns |
| ControllerServers.ControllerServer.GetEpisodeInterval | polymetis/src/polymetis_server.cpp:378-389 | the answer is the one the step system records |
| MinJerk.ProfileStep | polymetis/python/torchcontrol/planning/min_jerk.py:37-38 | the position profile never moves back on [0, 1] and never faster than 15/8 |
| MinJerk.ProfileVel | polymetis/python/torchcontrol/planning/min_jerk.py:39 | the velocity profile lies between 0 and 15/8 |
| MinJerk.Taylor | polymetis/python/torchcontrol/planning/min_jerk.py:38-40 | velocity and acceleration are the derivatives of the position profile: an exact Taylor expansion |
| MinJerk.PlanEndpoints | polymetis/python/torchcontrol/planning/min_jerk.py:65-85 | a plan exists exactly with time for two steps and matching joints, and starts and ends at rest at start and goal |
| MinJerk.PlanLength | polymetis/python/torchcontrol/planning/min_jerk.py:43-44 | as many waypoints as there are whole steps in the time |
| MinJerk.PlanTimes | polymetis/python/torchcontrol/planning/min_jerk.py:76-83 | waypoint i is stamped i periods |
| MinJerk.PlanIsMotion | polymetis/python/torchcontrol/planning/min_jerk.py:30-40 | positions, velocities and accelerations of the waypoints are one motion in time: an exact expansion from any waypoint to any other, up to a cubic remainder that is given |
| MinJerk.PlanSteps | polymetis/python/torchcontrol/planning/min_jerk.py:68-83 | between consecutive waypoints every joint moves toward the goal, inside the segment, by at most 15/8 of the average step |
| MinJerk.AdaptiveTimeIsLeast | polymetis/python/polymetis/robot_interface.py:377-390 | a duration is at least the adaptive one exactly when it is at least the default and no joint's mean velocity exceeds an eighth of its limit |
| MinJerk.VelocityWithinLimit | polymetis/python/polymetis/robot_interface.py:542-558 | with at least the adaptive duration no waypoint velocity exceeds 15/64 of its joint's limit |
| RigidTransforms.MultiplyUnit | polymetis/torch_isolation/src/rotations.cpp:112-118 | normalising the right operand changes nothing for unit quaternions |
| RigidTransforms.MultiplyKeepsLeftNorm | polymetis/torch_isolation/src/rotations.cpp:112-118 | the product has the norm of its left operand whatever the right one, as long as that is not zero: only the right operand is normalised |
| RigidTransforms.HamiltonAssociative | polymetis/torch_isolation/src/rotations.cpp:112-118 | the quaternion product is associative |
| RigidTransforms.InvertUnit | polymetis/torch_isolation/src/rotations.cpp:58-63 | inversion of a unit quaternion is conjugation and gives a unit quaternion |
| RigidTransforms.InvertCancels | polymetis/torch_isolation/src/rotations.cpp:58-63 | every non-zero quaternion times its inverse is the identity |
| RigidTransforms.ApplyIsSandwich | polymetis/torch_isolation/src/rotations.cpp:80-86 | the matrix of a unit quaternion acts as conjugation by it |
| RigidTransforms.ApplyIsTurn | polymetis/torch_isolation/src/rotations.cpp:80-86 | rotations are right-handed turns about the vector part: Rodrigues' formula |
| RigidTransforms.ApplyProduct | polymetis/python/torchcontrol/transform/rotation.py:82-99 | (r1 * r2).apply(v) = r1.apply(r2.apply(v)) |
| RigidTransforms.MatrixOfProduct | polymetis/python/torchcontrol/transform/rotation.py:94-99 | as_matrix turns * into the matrix product |
| RigidTransforms.InverseCancels | polymetis/python/torchcontrol/transform/rotation.py:101-108 | a rotation times its inverse, either way, is the identity |
| RigidTransforms.ApplyInverse | polymetis/python/torchcontrol/transform/rotation.py:101-108 | applying a rotation and its inverse, either way, gives the vector back |
| RigidTransforms.ApplyPreservesLength | polymetis/python/torchcontrol/transform/rotation.py:82-92 | rotations preserve lengths |
| RigidTransforms.ActCompose | polymetis/python/torchcontrol/transform/transformation.py:62-76 | (t1 * t2).apply(v) = t1.apply(t2.apply(v)) |
| RigidTransforms.ActOrigin | polymetis/python/torchcontrol/transform/transformation.py:62-67 | the origin goes to the translation |
| RigidTransforms.ActDifference | polymetis/python/torchcontrol/transform/transformation.py:62-67 | differences of points are turned by the rotation, so distances are preserved |
| RigidTransforms.MatrixActs | polymetis/python/torchcontrol/transform/transformation.py:33-41 | the homogeneous matrix times (v, 1) is (apply(v), 1) |
| RigidTransforms.ComposeAssociative | polymetis/python/torchcontrol/transform/transformation.py:69-76 | * is associative |
| RigidTransforms.InverseIsInverse | polymetis/python/torchcontrol/transform/transformation.py:78-84 | inv() is a two-sided inverse, as a transformation and as a map on points |
| RigidTransforms.MatrixOfCompose | polymetis/python/torchcontrol/transform/transformation.py:33-41 | as_matrix turns * into the product of homogeneous matrices |
| SafetyLimits.ReflexMonotone | polymetis/src/clients/franka_panda_client/franka_panda_client.cpp:381-419 | the reflex torque never increases with the measured value |
| SafetyLimits.ReflexLipschitz | polymetis/src/clients/franka_panda_client/franka_panda_client.cpp:381-419 | the reflex is k-Lipschitz exactly when the margin bands do not overlap or k is zero |
| SafetyLimits.ClampIsNearest | polymetis/src/clients/franka_panda_client/franka_panda_client.cpp:341-350 | the clamped torque is the admissible one nearest to the aggregate |
| SafetyLimits.ThrowsOnRisingEdges | polymetis/src/clients/franka_panda_client/franka_panda_client.cpp:375-426 | in every run a cycle throws exactly when some item is violated that was not at its last evaluation, counting that items after a throw are skipped |
| SafetyLimits.ActiveIsLastViolated | polymetis/src/clients/franka_panda_client/franka_panda_client.cpp:386-426 | the constraint map remembers, per item, the outcome of its last evaluation |
| SafetyLimits.PersistentViolationThrowsOnce | polymetis/src/clients/franka_panda_client/franka_panda_client.cpp:391-409 | a lasting violation throws once |
| FrankaClients.FrankaClient.ComputeSafetyReflex | polymetis/src/clients/franka_panda_client/franka_panda_client.cpp:353-427 | the in-place loop throws on exactly the rising edge, records the violation, and otherwise adds the reflex of every dimension |
| FrankaClients.FrankaClient.AddReflex | polymetis/src/clients/franka_panda_client/franka_panda_client.cpp:412-419 | adds the piecewise-linear reflex to one torque |
| FrankaClients.FrankaClient.SetFromForce | polymetis/src/clients/franka_panda_client/franka_panda_client.cpp:306-318 | joint torques are the transposed Jacobian times the end-effector force |
| FrankaClients.FrankaClient.CheckCartesian | polymetis/src/clients/franka_panda_client/franka_panda_client.cpp:290-318 | the end-effector item overwrites the safety torques, which are zero if it throws |
| FrankaClients.FrankaClient.CheckJoints | polymetis/src/clients/franka_panda_client/franka_panda_client.cpp:320-328 | the joint items are evaluated in order and add their reflexes |
| FrankaClients.FrankaClient.CheckStateLimits | polymetis/src/clients/franka_panda_client/franka_panda_client.cpp:276-335 | all items in order: throws, updates the constraint map and computes the safety torques as specified; nothing in mock mode |
| FrankaClients.FrankaClient.PostprocessTorques | polymetis/src/clients/franka_panda_client/franka_panda_client.cpp:337-351 | clamps every joint in place |
| FrankaClients.FrankaClient.ControlCallback | polymetis/src/clients/franka_panda_client/franka_panda_client.cpp:132-151 | an exception exactly when the limit check throws, otherwise the clamped sum of command and safety torque |
| FrankaClients.AppliedWithinLimit | polymetis/src/clients/franka_panda_client/franka_panda_client.cpp:337-351 | no applied torque ever exceeds its limit |
| FrankaClients.CommandUnchanged | polymetis/src/clients/franka_panda_client/franka_panda_client.cpp:132-142 | outside all margins an admissible command is applied unchanged |
| AppliedTorques.JointPushedBack | polymetis/src/clients/franka_panda_client/franka_panda_client.cpp:129-151 | with the end effector outside its margins, the callback adds to a joint exactly the stiffness times the depth in the margin bands of position and velocity, away from the limits |
| AppliedTorques.VirtualWork | polymetis/src/clients/franka_panda_client/franka_panda_client.cpp:290-330 | what the callback adds beyond that does, in every motion of the joints, exactly the work of a force that pushes the end effector back along each axis |
| AppliedTorques.AppliedMonotone | polymetis/src/clients/franka_panda_client/franka_panda_client.cpp:129-151 | no applied torque increases with the joint's position or velocity, and those of the other joints do not change |
| AppliedTorques.PassiveUnchanged | polymetis/src/clients/franka_panda_client/franka_panda_client.cpp:276-289 | in mock mode or without the reflex an admissible command is applied unchanged |
| AppliedTorques.FirstCycleThrows | polymetis/src/clients/franka_panda_client/franka_panda_client.cpp:375-426 | the first cycle throws exactly when a measurement is outside its limits, and never in readonly mode |
| AppliedTorques.ReadonlyNeverThrows | polymetis/src/clients/franka_panda_client/franka_panda_client.cpp:395-409 | in readonly mode no cycle throws, whatever was violated before |
| AppliedTorques.ViolationsAre | polymetis/src/clients/franka_panda_client/franka_panda_client.cpp:375-385 | an item is violated exactly when one of its values is outside its lower and upper limit, velocities by magnitude |
| FrankaClients.RunCycles | polymetis/src/clients/franka_panda_client/franka_panda_client.cpp:129-151 | a client driven through any series of cycles throws in exactly the cycles with a rising edge |
| NibbleUnpacking.Unpack | polymetis/python/polymetis/robot_drivers/psyonic_gripper/ability-hand-api/demo/i2c-master-test.c:120-131 | the nibble loop fills the values with the nibbles of the bytes, least significant first, and touches nothing else |
| NibbleUnpacking.Conserves | polymetis/python/polymetis/robot_drivers/psyonic_gripper/ability-hand-api/demo/i2c-master-test.c:120-131 | the values in base 4096 are the bytes in base 256, for every number of values; for an odd number the last half byte is left over |
| NibbleUnpacking.UnpackPack | polymetis/python/polymetis/robot_drivers/psyonic_gripper/ability-hand-api/demo/i2c-master-test.c:120-131 | packing then unpacking any even number of 12-bit values gives them back |
| NibbleUnpacking.PackUnpack | polymetis/python/polymetis/robot_drivers/psyonic_gripper/ability-hand-api/demo/i2c-master-test.c:120-131 | unpacking then packing any bytes gives them back, so the decoder is a bijection |
| TouchSensors.TripletConserves | polymetis/python/polymetis/robot_drivers/psyonic_gripper/ability-hand-api/python/psyonic-ability-hand/src/psyonic_ability_hand/hand.py:132-136 | two 12-bit values spell the same number as their three bytes, most significant first |
| TouchSensors.UnpackPack | polymetis/python/polymetis/robot_drivers/psyonic_gripper/ability-hand-api/python/psyonic-ability-hand/src/psyonic_ability_hand/hand.py:127-147 | every touch reading survives packing and unpacking, finger by finger |
| TouchSensors.PackUnpack | polymetis/python/polymetis/robot_drivers/psyonic_gripper/ability-hand-api/python/psyonic-ability-hand/src/psyonic_ability_hand/hand.py:127-147 | every 45-byte string unpacks to a reading that packs to it |
| TouchSensors.UnpackAt | polymetis/python/polymetis/robot_drivers/psyonic_gripper/ability-hand-api/python/psyonic-ability-hand/src/psyonic_ability_hand/hand.py:127-147 | site i of finger f comes from the three bytes that hold values 6 f + i and its neighbour |
| TouchSensors.DecodersAgreeOn | polymetis/python/polymetis/robot_drivers/psyonic_gripper/ability-hand-api/python/psyonic-ability-hand/src/psyonic_ability_hand/hand.py:132-136 | the Python and the C decoder agree on three bytes exactly when all six nibbles are equal |
| HandProtocol.ComputeChecksum | polymetis/python/polymetis/robot_drivers/psyonic_gripper/ability-hand-api/python/psyonic-ability-hand/src/psyonic_ability_hand/hand.py:157-162 | the accumulated checksum is the complement of the sum modulo 256; a length of zero means the whole string |
| HandProtocol.GetChecksum | polymetis/python/polymetis/robot_drivers/psyonic_gripper/ability-hand-api/demo/i2c-master-test.c:36-44 | accumulating in a signed byte gives the same checksum as the Python function |
| HandProtocol.ChecksumCompletes | polymetis/python/polymetis/robot_drivers/psyonic_gripper/ability-hand-api/python/psyonic-ability-hand/src/psyonic_ability_hand/hand.py:157-162 | the checksum is the only byte that completes the sum to a multiple of 256 |
| HandProtocol.ChecksumDetects | polymetis/python/polymetis/robot_drivers/psyonic_gripper/ability-hand-api/python/psyonic-ability-hand/src/psyonic_ability_hand/hand.py:687-692 | changing a covered byte changes the checksum if and only if it changes the byte |
| HandFrames.ShortsRoundTrip | polymetis/python/polymetis/robot_drivers/psyonic_gripper/ability-hand-api/python/psyonic-ability-hand/src/psyonic_ability_hand/hand.py:701 | packed signed words unpack to themselves |
| HandFrames.MotorHotIsLowBits | polymetis/python/polymetis/robot_drivers/psyonic_gripper/ability-hand-api/python/psyonic-ability-hand/src/psyonic_ability_hand/hand.py:94-103 | the six flags are the low six bits of the status byte, least significant first |
| HandFrames.DecodeEncode | polymetis/python/polymetis/robot_drivers/psyonic_gripper/ability-hand-api/python/psyonic-ability-hand/src/psyonic_ability_hand/hand.py:642-723 | decoding a well-formed reply of variant 0, 1 or 2 recovers exactly its fields and nothing else changes |
| HandFrames.IntactFrameIsReply | polymetis/python/polymetis/robot_drivers/psyonic_gripper/ability-hand-api/python/psyonic-ability-hand/src/psyonic_ability_hand/hand.py:694-721 | every frame of a supported variant with a right checksum is the encoding of a reply |
| HandFrames.FrameReadings | polymetis/python/polymetis/robot_drivers/psyonic_gripper/ability-hand-api/python/psyonic-ability-hand/src/psyonic_ability_hand/hand.py:694-721 | the readings of an intact frame byte by byte: which two bytes hold which joint's position, current or velocity, and what full scale means; what the variant does not carry is unchanged |
| HandFrames.ReceiveSucceeds | polymetis/python/polymetis/robot_drivers/psyonic_gripper/ability-hand-api/python/psyonic-ability-hand/src/psyonic_ability_hand/hand.py:642-692 | a read succeeds exactly when a whole intact frame of a supported variant comes first, and otherwise says what was wrong; it takes one frame off the line, or all of an incomplete one |
| HandFrames.CorruptionRejected | polymetis/python/polymetis/robot_drivers/psyonic_gripper/ability-hand-api/python/psyonic-ability-hand/src/psyonic_ability_hand/hand.py:687-692 | changing any one byte of an intact frame without changing its length is rejected and publishes nothing |
| HandFrames.FailurePublishes | polymetis/python/polymetis/robot_drivers/psyonic_gripper/ability-hand-api/python/psyonic-ability-hand/src/psyonic_ability_hand/hand.py:687-723 | a failing read publishes nothing, except exactly for intact frames of an unsupported variant |
| HandFrames.UnknownVariantExists | polymetis/python/polymetis/robot_drivers/psyonic_gripper/ability-hand-api/python/psyonic-ability-hand/src/psyonic_ability_hand/hand.py:694-723 | an intact frame of variant 3 |
| HandFrames.StreamFrames | polymetis/python/polymetis/robot_drivers/psyonic_gripper/ability-hand-api/python/psyonic-ability-hand/src/psyonic_ability_hand/hand.py:663-683 | on any concatenation of frames, whatever their content, each read consumes exactly one |
| HandFrames.StreamRoundTrip | polymetis/python/polymetis/robot_drivers/psyonic_gripper/ability-hand-api/python/psyonic-ability-hand/src/psyonic_ability_hand/hand.py:642-725 | on any concatenation of replies, any of them damaged in one byte, the undamaged ones are published in order and each damaged one is one failure |
| Hands.Comm.Read | polymetis/python/polymetis/robot_drivers/psyonic_gripper/ability-hand-api/python/psyonic-ability-hand/src/psyonic_ability_hand/io.py:99-101 | takes up to the requested bytes off the front of the line |
| Hands.PairWithCurrent | polymetis/python/polymetis/robot_drivers/psyonic_gripper/ability-hand-api/python/psyonic-ability-hand/src/psyonic_ability_hand/hand.py:194-200 | the slicing loop pairs every position word with a zero current, although it runs past the data |
| Hands.Comm.Write | polymetis/python/polymetis/robot_drivers/psyonic_gripper/ability-hand-api/python/psyonic-ability-hand/src/psyonic_ability_hand/hand.py:184-218 | answers exactly the position and query commands, the former after storing their data |
| Hands.Hand.Command | polymetis/python/polymetis/robot_drivers/psyonic_gripper/ability-hand-api/python/psyonic-ability-hand/src/psyonic_ability_hand/hand.py:508-526 | sends address, command, data and checksum, and with the mock device gets its answer |
| Hands.PacketSums | polymetis/python/polymetis/robot_drivers/psyonic_gripper/ability-hand-api/python/psyonic-ability-hand/src/psyonic_ability_hand/hand.py:508-526 | a packet is address (version 2), command, data and a byte that makes the sum a multiple of 256 |
| Hands.Hand.Publish | polymetis/python/polymetis/robot_drivers/psyonic_gripper/ability-hand-api/python/psyonic-ability-hand/src/psyonic_ability_hand/hand.py:698-723 | the in-place assignments have the effect of decoding, also on the failure after two of them |
| Hands.Hand.ReadV2 | polymetis/python/polymetis/robot_drivers/psyonic_gripper/ability-hand-api/python/psyonic-ability-hand/src/psyonic_ability_hand/hand.py:642-725 | one read has the effect of receiving on telemetry and line; a silent line raises nothing |
| Hands.Hand.PositionCommand | polymetis/python/polymetis/robot_drivers/psyonic_gripper/ability-hand-api/python/psyonic-ability-hand/src/psyonic_ability_hand/hand.py:558-571 | sends the scaled and packed joint positions |
| Hands.Hand.VelocityCommand | polymetis/python/polymetis/robot_drivers/psyonic_gripper/ability-hand-api/python/psyonic-ability-hand/src/psyonic_ability_hand/hand.py:573-584 | sends the scaled and packed joint velocities; a device addressed with protocol version 2 does not answer |
| Hands.Hand.QueryCommand | polymetis/python/polymetis/robot_drivers/psyonic_gripper/ability-hand-api/python/psyonic-ability-hand/src/psyonic_ability_hand/hand.py:555-556 | sends a query |
| Hands.Hand.Run | polymetis/python/polymetis/robot_drivers/psyonic_gripper/ability-hand-api/python/psyonic-ability-hand/src/psyonic_ability_hand/hand.py:340-352 | the receiving loop goes on after an error and makes exactly the reads of the specification, on silent lines too |
| JointScaling.ScaleAccuracy | polymetis/python/polymetis/robot_drivers/psyonic_gripper/ability-hand-api/python/psyonic-ability-hand/src/psyonic_ability_hand/hand.py:563-566 | a scaled value fits a signed word and reads back within one step of the clamped value, never beyond it, for every limit |
| JointScaling.Rescale | polymetis/python/polymetis/robot_drivers/psyonic_gripper/ability-hand-api/python/psyonic-ability-hand/src/psyonic_ability_hand/hand.py:578-583 | a word read and sent back is unchanged except exactly for -32768 |
| PositionEcho.MockReplyIs | polymetis/python/polymetis/robot_drivers/psyonic_gripper/ability-hand-api/python/psyonic-ability-hand/src/psyonic_ability_hand/hand.py:202-210 | the mock device's answer is the encoding of a reply reporting the commanded words and no current |
| PositionEcho.DecodedFollows | polymetis/python/polymetis/robot_drivers/psyonic_gripper/ability-hand-api/python/psyonic-ability-hand/src/psyonic_ability_hand/hand.py:703-707 | decoded positions lie within 150/32767 of the clamped command |
| PositionEcho.WordsSurvive | polymetis/python/polymetis/robot_drivers/psyonic_gripper/ability-hand-api/python/psyonic-ability-hand/src/psyonic_ability_hand/hand.py:573-584 | words decoded as positions or velocities and commanded again are the same words, unless one is -32768 |
| PositionEcho.ResendSame | polymetis/python/polymetis/robot_drivers/psyonic_gripper/ability-hand-api/python/psyonic-ability-hand/src/psyonic_ability_hand/hand.py:558-571 | commanding the decoded position gives the same words |
| PositionEcho.MoveAndRead | polymetis/python/polymetis/robot_drivers/psyonic_gripper/ability-hand-api/python/psyonic-ability-hand/src/psyonic_ability_hand/hand.py:558-571 | command, mock device and read back: no error, an empty line and the commanded words |
| PositionEcho.MoveAndPoll | polymetis/python/polymetis/robot_drivers/psyonic_gripper/ability-hand-api/python/psyonic-ability-hand/src/psyonic_ability_hand/hand.py:555-571 | the same through any number of polls; each joint within one step of the clamped command, and the reported position is the same packet when commanded |
| GripperRelay.OnceInOrder | polymetis/src/clients/franka_panda_client/franka_hand_client.cpp:87-103 | executed commands are issued ones in order of issue, none twice; at most one runs and none begins while another runs |
| GripperRelay.ExecutedExactly | polymetis/src/clients/franka_panda_client/franka_hand_client.cpp:94-102 | a command is launched exactly when an idle client polls before the next one is issued |
| GripperRelay.LastIsExecuted | polymetis/src/clients/franka_panda_client/franka_hand_client.cpp:87-103 | once issuing stops, the last command is executed after an idle poll |
| GripperRelay.StampsDecide | polymetis/src/clients/franka_panda_client/franka_hand_client.cpp:94-102 | commands can be lost under an idle client if and only if two of them, or one of them and the empty or the initial stamp, agree in the sub-second part |
| GripperRelay.SameNanosDropped | polymetis/src/clients/franka_panda_client/franka_hand_client.cpp:96-97 | two commands with the same sub-second stamp: the second is never executed, however long the client polls |
| GripperRelay.SlowThreads | polymetis/src/clients/franka_panda_client/franka_hand_client.cpp:98-101 | if a thread is slow to set is_moving, two threads execute the later command at once and the earlier one is lost |
| GripperServers.PolymetisGripperServer.Goto | polymetis/python/polymetis/robot_servers/gripper_server.py:39-41 | the cache holds the latest command |
| GripperServers.PolymetisGripperServer.ControlUpdate | polymetis/python/polymetis/robot_servers/gripper_server.py:32-34 | stores the state and hands out the cached command |
| GripperServers.MeaningKeepsAll | polymetis/src/clients/franka_panda_client/franka_hand_client.cpp:53-74 | width, speed, force and tolerances reach the gripper unchanged, except that a negative tolerance becomes 0.2 |
| GripperServers.FrankaHandClient.Turn | polymetis/src/clients/franka_panda_client/franka_hand_client.cpp:87-103 | one turn of the loop is the step Poll and reports the state before it |
| GripperServers.FrankaHandClient.BeginCommand | polymetis/src/clients/franka_panda_client/franka_hand_client.cpp:53-74 | the thread's first part is the step Begin and asks the gripper for the command with its default tolerances |
| GripperServers.FrankaHandClient.FinishCommand | polymetis/src/clients/franka_panda_client/franka_hand_client.cpp:65-76 | the thread's end is the step Finish |
| GripperServers.Serve | polymetis/src/clients/franka_panda_client/franka_hand_client.cpp:79-109 | for every schedule and any readings of the gripper it is asked for exactly the commands the relay executes, in order |
| GripperInterfaces.GripperInterface.SetState | polymetis/python/polymetis/gripper_interface.py:180-240 | sends a command exactly when the rate limit and the state allow one, and which one |
| GripperInterfaces.GripperInterface.Goto | polymetis/python/polymetis/gripper_interface.py:103-129 | issues a command that the gripper understands as a move to that width |
| GripperInterfaces.GripperInterface.Grasp | polymetis/python/polymetis/gripper_interface.py:131-178 | issues a command that the gripper understands as that grasp, with default tolerances for negative ones |
| GripperInterfaces.AcceptedSpaced | polymetis/python/polymetis/gripper_interface.py:203-210 | accepted calls send at least the rate limit apart |
| GripperInterfaces.AcceptedExactly | polymetis/python/polymetis/gripper_interface.py:203-240 | a call sends a command exactly when it is in time and finds the gripper at rest and not yet open, or not yet holding anything |
| GripperInterfaces.Teleoperate | polymetis/python/polymetis/gripper_interface.py:203-240 | over any series of calls the server receives exactly one command for each accepted call, in order, each the one that call asks for and at least the rate limit after the one before |

## Left out

- Data races inside the steps listed under Assumptions, and a second robot client or a second InitRobotClient.
- gRPC transport, protobuf serialisation, chunking of policies into messages, configuration and process launch.
- TorchScript execution, Pinocchio kinematics and dynamics, and libfranka: a policy's torque, the Jacobian and the measurements are inputs.
- Parameter tensors have one dimension; broadcasting covers a single element.
- `params_updated` and printing in policies.
- The Cartesian min-jerk generators, which interpolate rotations with transcendental functions.
- Rotation vectors, axis and angle of rotations, and conversion from matrices: transcendental functions.
- Elbow velocity has a hard limit only; its reflex has zero margin and stiffness and writes to an unused buffer.
- The frames of the C demo program (I2C transfers, floating-point fields); its decoder and checksum are modelled.
- read_v1, the torque, PWM and grip commands of the hand and its grasp thread.
- Hands.Comm.Read: returns short where MockComm.read would wait for missing bytes; with enough bytes on the line they agree.
- Hands.Hand.Run: counts errors instead of calling the error callback; the line's reset is the base class's, which does nothing. A serial port's reset would drop the pending bytes.
- Touch values are kept as integers; the code stores them as floats, which hold them exactly.
- Packet counters and time stamps of the hand driver.
- The one-slot command queue of GripperInterface: a command is sent when it is queued. Exceptions of the gripper and of the connection.
- Gripper fields read by a thread while the polling loop overwrites them: a thread takes its whole command when it begins.
- PyBullet, MuJoCo and Habitat environments, the simulation clients, dashboards and the benchmark viewer.
