# zero_franky: a model of its hard parts, with proofs

zero_franky lets a client drive a Franka arm through a server that sits next to the robot. The client has
dependency-free stand-ins for franky's geometry and motion types; the server keeps tracker sessions, each an
impedance motion that a policy thread, an RPC thread and a reference listener reach without a lock. This project
models the parts whose correctness does not show in any one function, and proves what they guarantee for every
input, every run and every interleaving. `dafny verify dfyconfig.toml` checks all of it.

| file | what it models |
|---|---|
| `Rotation.dfy`, `RigidTransform.dfy` | quaternions, rotation matrices and `Affine`, over the reals |
| `TrackerLifecycle.dfy` | one session's policy thread and its RPC stop, one step per statement, with the robot's control flag changing at any time |
| `PolicyThread.dfy`, `PolicyDecisions.dfy`, `PolicyLoop.dfy` | what the policy thread does in its runs: after the event, with each value and exception, and round after round |
| `StopRefusals.dfy`, `StopOutcome.dfy`, `StopJoins.dfy` | what becomes of a stop: what was submitted, what was refused, what it raises |
| `SharedRobot.dfy` | any number of sessions on one robot, which executes one motion at a time |
| `Pacing.dfy`, `TrackerProxy.dfy`, `TrackerRuns.dfy`, `TickOutcomes.dfy`, `PolicyPacing.dfy` | the client's `tick()` with its liveness detection, and the server's policy loop, as classes proved equal to specifications, and runs of any length |
| `OrderedDict.dfy`, `SessionRegistry.dfy`, `RegistryRuns.dfy` | `RobotManager`'s sessions, finished statuses, stops and shutdown |
| `ReferenceDelivery.dfy`, `PerClientDelivery.dfy` | references from client to motion through two one-slot buffers and the listener, and the same with a slot for each client at the server |
| `Gains.dfy`, `GainUpdates.dfy` | gain updates from the caller's arguments over the wire into the motion |
| `Wire.dfy`, `Motions.dfy`, `MotionWire.dfy`, `MotionRoundTrip.dfy`, `MissingKeys.dfy`, `PayloadSchema.dfy` | the twelve position, velocity and stop motions, encoded and built again, and what is built of payloads that lack a key or come from elsewhere |
| `Gripper.dfy` | the gripper's one-byte quantiser |
| `Wrappers.dfy` | option, result and fixed-length list types |

What the code reads from outside is an input: clock readings, snapshots, answers of calls, whether a call raises.
`Fate`, `Reading`, `TickInput`, `Cycle`, `Choice` and `Step` are those inputs.

## Where the code and its documentation part

- The docstring of `_rotation_from_quaternion` says a non-unit quaternion gives the rotation scaled by the squared
  norm. For a multiple s q of a unit q this holds exactly when s is 1 or -1 (`Rotation.ScaledBySquaredNormIff`);
  what does hold is M(s q) - I = s² (M(q) - I) (`Rotation.MatrixOfScaled`).
- The comment in `_enqueue_stop_motion` says the flag keeps the ramp from being enqueued again. A policy thread and
  an RPC stop that are both between the flag's test and its write both enqueue one
  (`TrackerLifecycle.OverlapHappens`, `TrackerLifecycle.OverlapAllowsSecondRamp`); without that meeting there is at
  most one (`TrackerLifecycle.SecondRampNeedsOverlap`).
- The flag is written before the submission, so it also counts submissions that the robot refused
  (`StopRefusals.FlagCountsAttempts`). A stop can then return without an exception, or a failed policy end, with the
  arm in control and nothing submitted (`StopRefusals.StopCanReturnUnstopped`,
  `StopRefusals.FailedPolicyCanLeaveArmRunning`), exactly when submissions were only refused (`StopOutcome.StopAchieves`,
  `StopOutcome.FailedPolicyStopsTheArm`), and only a stop that names its own motion can still follow
  (`StopOutcome.FurtherStopIff`).
- The docstring of `tick` says an overrun resets the schedule to the moment the tick returns. It is reset to the clock
  read before the control check, which may take a status call (`TickOutcomes.ClientDeadlineIs`).
- A policy that raises past `except Exception`, as `SystemExit` does, ends its thread with no error kept and no stop
  requested (`PolicyThread.QuitLeavesNoTrace`).
- `_remember_finished` promises that `is_running` answers False after a stop. It does except for a policy session
  whose thread outlives the capped join while the arm is in control (`RegistryRuns.StoppedStatusIff`). A run of
  `session.stop` gets there, its stop motion taken, exactly when the session has a policy
  (`StopOutcome.StopCanReturnRunningIff`, `RegistryRuns.StopCanLeaveRunning`).
- The docstring of `_in_control` says it tells whether the robot still executes this session's motion. The flag is
  the robot's, so a session whose motion was replaced still says running, and stopping it ramps down the motion of the
  session that replaced it (`SharedRobot.FirstStopsSecond`), whenever its flag is unset or the stop names a motion of
  its own (`SharedRobot.StopReplacesIff`, `SharedRobot.StaleSessionTakesOverIff`).
- `stop_tracker` pops the session before it builds the stop motion. A payload that cannot be built leaves a session
  that nothing can stop or ask about any more, though a further stop answers True; every other stop reaches it
  (`RegistryRuns.StopReachesSessionIff`).
- The start calls start the motion before they load the policy. A policy that cannot be loaded leaves the arm
  executing a motion that no session owns (`RegistryRuns.StartAnswersIff`,
  `RegistryRuns.MovesAreStarts`).
- A robot's trackers share one reference socket, and all robots' clients share the server's. If every end keeps one
  message, a message is sure to be taken in only if it is the last of all and no other client sent anything
  (`ReferenceDelivery.OnlyTheLastIsSure`). If the server's end keeps one for each client, it is sure exactly if it is
  the last of its own client (`PerClientDelivery.LastOfEachClientIsSure`). Either way one tracker's last reference can
  be lost to another's of the same robot.
- Client and policy handle agree on gain updates except for a gains object whose damping is a string or the `CRITICAL`
  object: the client tries to read it as a matrix, the handle as the sentinel or as it stands
  (`GainUpdates.CartesianAgreeIff`).
- A `JointState` target's velocity is not encoded, so a joint motion arrives asking to be at rest at its target
  (`MotionRoundTrip.ArrivesUnchangedIff`). A payload that lacks a key its builders need, at any
  depth, is reported as an unsupported motion type (`MissingKeys.MissingKey`).

## Model

| member | source | states |
|---|---|---|
| Rotation.RadicandAtLeastOne | zero_franky/types.py:108-126 | for any 3x3 matrix at all the branch taken has a root of a number >= 1 and a divisor >= 2 |
| Rotation.OuterHasRankOne | zero_franky/types.py:108-126 | on SO(3) the linear forms the four branches read are the products of one quaternion's components |
| Rotation.RotationRoundTrip | zero_franky/types.py:89-126 | matrix to quaternion to matrix is the identity on SO(3), in all four branches, through a unit quaternion |
| Rotation.QuaternionRoundTrip | zero_franky/types.py:89-126 | unit quaternion to matrix to quaternion gives q or -q, the one whose pivot component is positive, and that is at least 1/2 |
| Rotation.RootOfUnitQuaternion | zero_franky/types.py:108-126 | the root the extraction needs exists for the matrix of every unit quaternion |
| Rotation.SameMatrixUpToSign | zero_franky/types.py:89-105 | two unit quaternions have one matrix if and only if they are equal up to sign |
| Rotation.GramOfMatrix | zero_franky/types.py:89-105 | M(q) M(q)^T = I + 4 (1 - norm²) [v]² for every q |
| Rotation.OrthonormalIff | zero_franky/types.py:89-105 | M(q) is orthonormal if and only if q is unit or has no vector part |
| Rotation.UnitGivesRotation | zero_franky/types.py:89-105 | the matrix of a unit quaternion is orthonormal with determinant 1 |
| Rotation.MatrixOfScaled | zero_franky/types.py:89-105 | M(s q) - I = s² (M(q) - I) |
| Rotation.ScaledBySquaredNormIff | zero_franky/types.py:89-95 | the docstring's scaling by the squared norm holds for a multiple of a unit quaternion if and only if the factor is 1 or -1 |
| Rotation.MatrixActsAsSandwich | zero_franky/types.py:89-105 | the matrix of a unit q acts on vectors as q v q* |
| Rotation.MatrixOfProduct | zero_franky/types.py:89-105 | the matrix of a Hamilton product of unit quaternions is the product of their matrices |
| RigidTransform.MulAssociative4 | zero_franky/types.py:129-133 | products of arbitrary 4x4 matrices are associative |
| RigidTransform.RigidClosed | zero_franky/types.py:204-227 | rigid transforms are closed under product and inverse, and the inverse inverts itself |
| RigidTransform.RigidInverse | zero_franky/types.py:204-227 | the inverse of a rigid transform is two-sided |
| RigidTransform.InverseIff | zero_franky/types.py:204-222 | `inverse` inverts, on either side, if and only if the transform is rigid |
| RigidTransform.InverseOfProduct | zero_franky/types.py:204-227 | (a b)⁻¹ = b⁻¹ a⁻¹ |
| RigidTransform.FromTranslationIsRigid | zero_franky/types.py:171-192 | the constructed transform is rigid if and only if the quaternion is unit or scalar, and carries the translation given |
| RigidTransform.ProductOfPoses | zero_franky/types.py:171-227 | transforms multiply as their quaternions and rotated offsets do |
| TrackerLifecycle.AtMostOneRampPerThread | zero_franky/tracker_session.py:144-190 | under every interleaving each thread submits at most one default ramp, at most two in all, one for passthrough or a given stop motion |
| TrackerLifecycle.SecondRampNeedsOverlap | zero_franky/tracker_session.py:174-190 | a run with two default ramps has had both threads between the flag's test and its write |
| TrackerLifecycle.OverlapAllowsSecondRamp | zero_franky/tracker_session.py:174-190 | from every reachable such meeting some schedule submits two |
| TrackerLifecycle.OverlapHappens | zero_franky/tracker_session.py:144-190 | the meeting is reachable for every policy session stopped without a motion of its own |
| TrackerLifecycle.AtomicEnqueueRampsOnce | zero_franky/tracker_session.py:174-190 | were the enqueue one step, there would be at most one default ramp per session |
| TrackerLifecycle.FlagBlocksLaterRamps | zero_franky/tracker_session.py:174-190 | once the flag is set and no thread is past its test, nothing is read or submitted again, a refused submission included |
| StopRefusals.FlagCountsAttempts | zero_franky/tracker_session.py:174-190 | in every run the flag is set if and only if a stop was taken, refused or is about to be submitted, and each thread has at most one of these |
| StopRefusals.FlagMeansStop | zero_franky/tracker_session.py:174-190 | without a refusal the flag means that a stop was taken or is about to be submitted |
| StopRefusals.EmptyFlagIff | zero_franky/tracker_session.py:174-190 | with no submission under way, the flag is set with no stop taken if and only if submissions were refused and none accepted |
| StopRefusals.StopCanReturnUnstopped | zero_franky/tracker_session.py:144-202 | a reachable stop that returns without an exception, arm in control throughout, nothing submitted by anyone |
| StopRefusals.FailedPolicyCanLeaveArmRunning | zero_franky/tracker_session.py:385-392 | a reachable failed policy, thread ended, arm in control throughout, nothing submitted |
| PolicyThread.StopsWithinOneStep | zero_franky/tracker_session.py:335-419 | once the stop event is set the loop applies at most one more value and begins at most one more step, wherever it then was |
| PolicyThread.CountersAccountForSteps | zero_franky/tracker_session.py:335-392 | `_iterations` equals completed steps; a factory that is itself the step function has one value more applied |
| PolicyThread.EndedForAReason | zero_franky/tracker_session.py:357-392 | a policy thread ends only if stopped, out of control, failed without `stop_on_policy_error`, or left by an exception the handler does not catch, which keeps no error |
| PolicyThread.QuitLeavesNoTrace | zero_franky/tracker_session.py:385-392 | such an exception leaves no event, no error and no stop, with the arm in control |
| PolicyThread.StopsSawControl | zero_franky/tracker_session.py:174-212 | no stop is submitted by a call that read the robot as out of control |
| PolicyThread.FailedPolicySetsFlag | zero_franky/tracker_session.py:385-392 | a failed policy has set the event, and the flag is set or its last request read the arm as out of control |
| PolicyDecisions.AppliedValueDecides | zero_franky/tracker_session.py:394-419 | under any schedule a returned stop request sets the event within two steps of the thread, a malformed value or a raising reference keeps an error and with `stop_on_policy_error` sets the event, anything else does neither |
| PolicyDecisions.PolicyCallDecides | zero_franky/tracker_session.py:345-377 | under any schedule what asking to stop, raising or returning inside a policy call leads to |
| PolicyDecisions.RequestsHaveCauses | zero_franky/tracker_session.py:335-419 | in every run the thread has requested a stop, or is about to, once for each cause, and the event is set if and only if it has or a stop over RPC was called |
| PolicyLoop.NoStepOutOfControl | zero_franky/tracker_session.py:354-359 | while the robot is out of control no step is begun under any schedule, and a thread at the tests ends |
| PolicyLoop.TestsDecide | zero_franky/tracker_session.py:354-359 | undisturbed, the two tests end the loop or begin a step |
| PolicyLoop.StreamsOn | zero_franky/tracker_session.py:354-384 | in control and not asked to stop, the loop runs any number of rounds, each counted once |
| PolicyLoop.RequestReturns | zero_franky/tracker_session.py:165-190 | an undisturbed stop request sets the event, submits a stop if and only if the flag is unset and the arm in control, and returns to where it was made |
| StopOutcome.StopAchieves | zero_franky/tracker_session.py:144-202 | without a refusal, a stop that met no exception read the arm as out of control or a stop was taken or is being submitted; in general no stop was taken if and only if submissions were only refused |
| StopOutcome.FailedPolicyStopsTheArm | zero_franky/tracker_session.py:385-392 | the same for a policy that failed with `stop_on_policy_error`, over submitted stops |
| StopOutcome.FurtherStopIff | zero_franky/tracker_session.py:174-190 | with the flag set and no thread past its test, another stop can follow if and only if the stop over RPC names its own motion and was not called yet |
| StopOutcome.RunningAfterStop | zero_franky/tracker_session.py:214-228 | after a stop the session says running if and only if a policy thread has not ended and the arm is in control, and that thread begins at most one more step |
| StopOutcome.StopCanReturnRunningIff | zero_franky/tracker_session.py:144-228 | a stop can return without an exception, its stop taken and the arm in control throughout, with the session still running, if and only if the session has a policy |
| StopJoins.StopRaisesIff | zero_franky/tracker_session.py:144-202 | in every run a stop over RPC raises if and only if its submission was refused or the motion it joined had failed |
| StopJoins.StopJoinsOnce | zero_franky/tracker_session.py:144-202 | a stop over RPC joins the motion exactly once, whatever it read, unless its submission was refused, and takes at most seven steps |
| SharedRobot.SessionsRunAsIfAlone | zero_franky/tracker_session.py:203-212 | after any run of any number of sessions on one robot each is in a state it could reach alone, and only the session begun last has its own motion executed |
| SharedRobot.ActsAreExec | zero_franky/tracker_session.py:174-212 | while the robot executes anything, a session's threads run among others exactly as alone, and a submission puts its stop motion on the robot |
| SharedRobot.StopReplacesIff | zero_franky/tracker_session.py:144-202 | whatever the robot executes, an uninterrupted stop of a session replaces it if and only if the stop names its own motion or the session's flag is unset |
| SharedRobot.StaleSessionTakesOverIff | zero_franky/tracker_session.py:174-212 | with its flag set and no thread past the test, a session can still replace what the robot executes if and only if its stop names its own motion and was not called |
| SharedRobot.FirstStopsSecond | zero_franky/tracker_session.py:203-228 | for any two sessions begun in turn, the first still says running and its stop ramps down the motion of the second, whose state does not change |
| Pacing.NoBurst | zero_franky/tracker_session.py:354-384 | starts i and j are at least j - i - 1 periods apart |
| Pacing.PacedNeverBursts | zero_franky/zmq_client.py:201-212 | the rate bound for every pair of beats of a re-anchoring schedule |
| Pacing.StepsAccountForTime | zero_franky/zmq_client.py:220-228 | timesteps after the first sum to at least the elapsed time and exceed it by at most one floor a step |
| TrackerProxy.Tracker.constructor | zero_franky/zmq_client.py:85-108 | a new proxy's fields |
| TrackerProxy.Tracker.CheckControl | zero_franky/zmq_client.py:230-252 | `_still_in_control` answers and updates its caches as specified |
| TrackerProxy.Tracker.Pace | zero_franky/zmq_client.py:201-212 | pacing moves only `_t_next`, to the specified anchor |
| TrackerProxy.Tracker.DoTick | zero_franky/zmq_client.py:164-228 | `tick()` returns and updates every field as specified, errors included |
| TrackerProxy.Tracker.Stop | zero_franky/zmq_client.py:346-362 | `stop()` marks the proxy whether or not the call succeeds |
| TrackerRuns.ClientRunIsPaced | zero_franky/zmq_client.py:164-228 | in every run of a fresh proxy ticks never burst, timesteps are floored and account for the time, `tick_count` counts them |
| TickOutcomes.TickAnswersIff | zero_franky/zmq_client.py:190-252 | a tick returns None if and only if a stop, a lost-control snapshot after an in-control one, or a denying status call has occurred; it raises if and only if none has and the stream has failed, or the stream decides nothing and the status call that is then due fails; else its timestep, all in terms of the run's snapshots, answers and clock readings |
| TickOutcomes.ClientDeadlineIs | zero_franky/zmq_client.py:199-212 | after any run the deadline is one period for each check since the last overrun, counted from the clock read there, and `tick_count` the timesteps returned |
| TrackerRuns.ProbesAreSpaced | zero_franky/zmq_client.py:249-252 | status calls made by ticks are at least the probe interval apart in any run |
| TrackerRuns.CachesAreOld | zero_franky/zmq_client.py:230-252 | the proxy's two cached clock readings never run ahead of the clock |
| TrackerRuns.DeadControllerIsDetected | zero_franky/zmq_client.py:164-252 | after any run, once status calls deny and no new in-control snapshot comes, each tick checked an interval or more later returns None |
| TrackerRuns.GoneServerIsNoticed | zero_franky/zmq_client.py:164-252 | after any run, once status calls fail and no new in-control snapshot comes, one of the ticks up to any that is checked an interval later raises, unless a stop or a denying snapshot ends the loop |
| TrackerRuns.ClientDeadlinesDoNotDrift | zero_franky/zmq_client.py:199-212 | while ticks are on time the client's k-th deadline is exactly k periods after the first tick began |
| PolicyPacing.TrackerSession.constructor | zero_franky/tracker_session.py:110-135 | a new session's loop fields |
| PolicyPacing.TrackerSession.RunPolicy | zero_franky/tracker_session.py:354-384 | the loop leaves the fields, the steps and the deadline that the fold of its passes gives |
| PolicyPacing.ServerRunIsPaced | zero_franky/tracker_session.py:354-384 | in every timely run steps never burst, timesteps account for the time and `_iterations` counts the steps that did not raise |
| PolicyPacing.ServerLoopIs | zero_franky/tracker_session.py:354-384 | over any run the steps begun, their clocks, timesteps and deadlines, what is counted and how the loop ended, said by the passes alone; the deadline is one period for each completed step since the last overrun, counted from the clock read then |
| PolicyPacing.DeadlinesDoNotDrift | zero_franky/tracker_session.py:379-384 | if no step overruns, the k-th deadline is exactly the start plus k periods |
| SessionRegistry.RobotManager.constructor | zero_franky/zmq_server.py:32-41 | an empty registry |
| SessionRegistry.RobotManager.CreateRobot | zero_franky/zmq_server.py:43-46 | a robot that connects is registered last, one that does not leaves nothing |
| SessionRegistry.RobotManager.DoStartTracker | zero_franky/zmq_server.py:73-149 | the registry and the motions started after a start: unknown robot, refused motion, policy that cannot be loaded |
| SessionRegistry.RobotManager.RememberFinished | zero_franky/zmq_server.py:188-196 | the eviction loop leaves what inserting and evicting gives |
| SessionRegistry.RobotManager.DoStopTracker | zero_franky/zmq_server.py:160-186 | the registry and answer of a stop: unknown id, unbuildable motion, a `session.stop` that raises |
| SessionRegistry.RobotManager.ReadStatus | zero_franky/zmq_server.py:151-158 | live status, else the remembered one, else a KeyError |
| SessionRegistry.RobotManager.DoStopRobot | zero_franky/zmq_server.py:48-71 | a known robot is stopped even if the call raises |
| SessionRegistry.RobotManager.DoShutdown | zero_franky/zmq_server.py:266-278 | both loops of shutdown do what the folds over sessions and robots do |
| RegistryRuns.RunKeeps | zero_franky/zmq_server.py:43-278 | every event of every run keeps the registry's invariant |
| RegistryRuns.FinishedIsLatestStops | zero_franky/zmq_server.py:151-196 | the bounded map is the unbounded log of stops cut to its last 32, in order, with frozen values, disjoint from the live map |
| RegistryRuns.StopsOncePerSession | zero_franky/zmq_server.py:160-186 | no run calls `session.stop` twice for an id, whatever the calls raise |
| RegistryRuns.ShutdownStopsEverything | zero_franky/zmq_server.py:266-278 | shutdown leaves no live session, having stopped each live one once and every robot once, whatever raises |
| RegistryRuns.StopAgainIsHarmless | zero_franky/zmq_server.py:166-176 | however much later, another stop of an id answers True and changes nothing |
| RegistryRuns.StopReachesSessionIff | zero_franky/zmq_server.py:160-186 | a stop of a live session calls its `stop` and leaves a status if and only if its stop motion builds; otherwise its `stop` is never called, its status is unknown and a further stop answers True |
| RegistryRuns.EncodedStopMotionBuilds | zero_franky/zmq_server_franky.py:212-331 | every stop motion of the twelve encoded types builds |
| RegistryRuns.StartAnswersIff | zero_franky/zmq_server.py:73-149 | after any run, which starts answer with an id, a key error, the robot's exception or a policy error, and what each leaves in the registry |
| RegistryRuns.MovesAreStarts | zero_franky/zmq_server.py:43-149 | in any run the robots known, the motions started with their owners and the robots stopped are, in order, what the events alone say |
| RegistryRuns.RobotStopAnswersIff | zero_franky/zmq_server.py:48-71 | after any run a robot is stopped if and only if it has connected, and answers with its own exception or a key error |
| RegistryRuns.StoppedStatusIff | zero_franky/zmq_server.py:151-196 | a stopped id's status is readable if and only if fewer than 32 stops followed, and says running only for a policy thread alive with the arm in control |
| RegistryRuns.StatusAnswersIff | zero_franky/zmq_server.py:151-158 | a status call answers for exactly the live sessions and the last 32 stopped; a live one runs if and only if in control and, with a policy, its thread is alive |
| RegistryRuns.StopCanLeaveRunning | zero_franky/tracker_session.py:144-228 | for every policy session and stop motion that builds, a run in which the stop answers True and the status remembered for it says running, with a reading that the session's threads reach |
| ReferenceDelivery.ReceivedInOrder | zero_franky/zmq_server.py:337-369 | of each client's messages the listener takes in a subsequence, in order and without repetition |
| ReferenceDelivery.QuiescentHandlesNewest | zero_franky/zmq_server.py:320-369 | at rest, the last message taken in is the last its client sent |
| ReferenceDelivery.OnlyTheLastIsSure | zero_franky/zmq_client.py:364-371 | for any script of sends by any clients, a message is taken in by every run that comes to rest if and only if it is the last of all and one client sent everything |
| PerClientDelivery.LastOfEachClientIsSure | zero_franky/zmq_server.py:320-369 | with a slot for each client at the server, a message is taken in by every run that comes to rest if and only if it is the last of its own client |
| ReferenceDelivery.UpdatesReachTheNamedSession | zero_franky/zmq_server.py:198-264 | the listener only gives a motion references naming the session it was registered for |
| ReferenceDelivery.HandlesOne | zero_franky/zmq_server.py:337-369 | a message taken in is given to the motion of the session it names if it is in order, the session is registered when looked up and the write succeeds, and to none otherwise; then the listener waits again |
| ReferenceDelivery.RegisteredIff | zero_franky/zmq_server.py:103-176 | after any run exactly the sessions registered and not deregistered since can be looked up |
| ReferenceDelivery.WrittenInOrder | zero_franky/zmq_server.py:337-369 | the listener gives no motion two references of one client out of order or one twice |
| ReferenceDelivery.LastReferenceArrives | zero_franky/zmq_server.py:337-369 | with sessions registered and nothing failing, at rest the last message taken in is the last thing the listener gave its session's motion |
| ReferenceDelivery.AtMostOneLateUpdate | zero_franky/zmq_server.py:198-264 | after deregistration at most one update from the listener reaches the motion, and only one already looked up |
| Gains.OverwriteBlock | zero_franky/tracker_session.py:302-305 | a 3x3 diagonal block becomes k times the identity, the rest stays |
| Gains.TrackerSession.ResolveCartesianGains | zero_franky/tracker_session.py:274-310 | the merged gains, the no-op or the refusal of a payload |
| Gains.TrackerSession.SetCartesianGains | zero_franky/tracker_session.py:262-266 | the motion's gains after a payload; other gains untouched |
| Gains.TrackerSession.SetHybridCartesianGains | zero_franky/tracker_session.py:268-272 | the same for the hybrid shaping of a joint motion |
| Gains.TrackerSession.SetJointGains | zero_franky/tracker_session.py:247-260 | joint gains with unnamed stiffness read back and the damping's three states |
| GainUpdates.WholeResolves | zero_franky/tracker_session.py:274-294 | what a whole gains object comes to, from the client and from the handle, read or refused |
| GainUpdates.WholeIsRead | zero_franky/tracker_session.py:274-294 | a whole gains object that is read sets every entry to the number it holds |
| GainUpdates.UpdateWrites | zero_franky/tracker_session.py:48-71 | entry by entry, what one request of any form leaves in the stiffness and the damping |
| GainUpdates.KeywordsAreRead | zero_franky/tracker_session.py:295-310 | keywords make each block they name that multiple of the identity and leave every other entry; six damping values become a diagonal |
| GainUpdates.UpdateAnswers | zero_franky/zmq_client.py:47-69 | which requests are refused and how: mixed forms, gains objects that cannot be read, a misspelled sentinel, nothing else |
| GainUpdates.IneffectiveKeepsGains | zero_franky/tracker_session.py:274-291 | a refused request or one naming nothing changes nothing |
| GainUpdates.LastWriterWins | zero_franky/tracker_session.py:274-310 | over any sequence each stiffness entry holds the last request that wrote it; coupling entries change only with a gains object |
| GainUpdates.LastEffectiveSetsDamping | zero_franky/tracker_session.py:307-310 | the damping is the last effective request's, pinned if and only if that one gave values |
| GainUpdates.JointUpdateWrites | zero_franky/zmq_client.py:406-446 | what one joint request leaves in stiffness and damping |
| GainUpdates.JointUpdateAnswers | zero_franky/zmq_client.py:430-449 | which joint requests are refused and with what error |
| GainUpdates.CartesianAgreeIff | zero_franky/zmq_client.py:47-69 | the same Cartesian call by client and handle has one effect and one answer if and only if it does not pass a gains object whose damping is a string, or the `CRITICAL` object where franky takes it, but for one case both refuse |
| GainUpdates.CartesianRunsAgree | zero_franky/tracker_session.py:48-71 | so do any sequence of such calls, gains and answers alike |
| GainUpdates.JointAgree | zero_franky/tracker_session.py:481-488 | a policy's joint call and a client's with the same keywords have one effect and one answer |
| GainUpdates.LastJointStiffnessWins | zero_franky/tracker_session.py:247-260 | over any sequence the joint stiffness is that of the last effective request naming one |
| GainUpdates.LastJointEffectiveSetsDamping | zero_franky/tracker_session.py:247-260 | the joint damping is the last effective request's, so stiffness alone unpins it |
| Wire.ListRoundTrip | zero_franky/zmq_server_franky.py:183-201 | a list whose items survive the trip survives it, in order, at any length |
| MotionRoundTrip.MotionArrives | zero_franky/zmq_server_franky.py:212-331 | every encoded motion of the twelve types is built, and exactly what arrives |
| MotionRoundTrip.EncodeBuildEncode | zero_franky/protocol.py:418-542 | encoding the built motion gives the payload it was built from |
| MotionRoundTrip.SamePayloadIff | zero_franky/protocol.py:418-542 | two motions have one payload if and only if they arrive as one motion |
| MotionRoundTrip.ArrivesUnchangedIff | zero_franky/protocol.py:301-326 | a motion arrives unchanged if and only if it has no plain dynamics factor and no joint target with a velocity |
| MotionRoundTrip.WaypointsArriveInOrder | zero_franky/zmq_server_franky.py:183-201 | waypoints keep their number, order, targets, references and timing |
| MotionRoundTrip.SameTargetSamePayload | zero_franky/types.py:389-408 | targets in any of the three forms give one payload if and only if they stand for one pose |
| MotionRoundTrip.SameWaypointsSamePayload | zero_franky/types.py:418-435 | the same over waypoint lists of any length, waypoint by waypoint |
| MissingKeys.MissingKey | zero_franky/zmq_server_franky.py:212-331 | the server's answer to an accepted payload with any one key removed at any depth |
| PayloadSchema.AcceptsIff | zero_franky/zmq_server_franky.py:20-331 | the server builds a motion from exactly the payloads that fit a schema, whoever made them, and from each the motion whose encoding is its normal form |
| PayloadSchema.RefusesIff | zero_franky/zmq_server_franky.py:212-220 | which payloads are answered with a type error, a key error or as unsupported |
| PayloadSchema.PartsGoByName | zero_franky/zmq_server_franky.py:20-160 | parts of a twist, factors and matrix entries are taken for what their keys and places say |
| Gripper.RoundIff | zero_franky/robotiq.py:75-86 | the rounding used is to nearest, ties to even, and nothing else is |
| Gripper.ByteAcceptedIff | zero_franky/robotiq.py:75-79 | a value is accepted if and only if it lies in [-0.5, 255.5), and moves by at most a half |
| Gripper.PositionIsAByte | zero_franky/robotiq.py:82-86 | widths convert if and only if the maximum is positive, to 0..255, closed at 255 and open at 0 |
| Gripper.PositionIsAntitone | zero_franky/robotiq.py:82-86 | a wider opening never has a higher position |
| Gripper.PositionRoundTrip | zero_franky/robotiq.py:82-91 | position to width to position is the identity |
| Gripper.WidthOfPosition | zero_franky/robotiq.py:75-91 | a position has a width if and only if it rounds to a byte, and then that byte's, falling evenly |
| Gripper.WidthRoundTrip | zero_franky/robotiq.py:82-91 | width to position to width is off by at most a 510th of the maximum |
| Gripper.BoundIsAttained | zero_franky/robotiq.py:82-91 | that bound is attained |

## Left out

- IEEE rounding: floats are reals. `math.sqrt` is the root itself, an argument required to be non-negative and to square to the number.
- The `Affine` constructor's choice between a matrix and a translation, and its errors for both at once.
- Sockets, msgpack bytes, request timeouts, argument parsing and process supervision. What a CONFLATE socket does with several peers is not settled by the code: `ReferenceDelivery` has all peers share one slot at the receiving end, `PerClientDelivery` a slot for each. The registry and the listener's writes are modelled for the first.
- franky and libfranka: the robot is its `is_in_control` flag, which may change at any step, and calls that may raise. The flag is the robot's and not a session's, in the model as in the code. Gains are cells whose reads return the last write. What franky's motion constructors do with arguments is taken from the stand-ins in `types.py`; a value of a wrong kind is a TypeError.
- Policy loading, and what a policy computes: its calls may ask to stop, return anything or raise. It starts no threads of its own.
- The RPC fallback for references when there is no reference socket, and the RPC calls that set torque, nullspace gains and posture stiffness.
- Waiting for threads: `join` calls are single steps, and the capped join shows only as a policy thread that may still be alive.
- Session and robot ids are random in the code and taken never to repeat.
- `JointImpedanceMotion`, `CartesianImpedanceMotion` and `TorqueStopMotion` payloads: the first two are not meant to be lossless.
- Encoding of robot state by reflection, the state publisher and the latest-state cache.
- Wire keys and names are constructors of an enumeration rather than strings; any other string is `OtherKey` or `OtherName`.
- Cartesian damping vectors of other lengths than six, which franky refuses.
- The gripper's manager, cache, locks and hardware wrapper.
- PolicyPacing.TrackerSession.RunPolicy: covers the loop; the factory call before it and the handler after it are steps of `TrackerLifecycle`.
- GainUpdates.CartesianAgreeIff: a gains object holds nested lists of numbers, and as damping also none, a string or the `CRITICAL` object (whether franky's gains object takes that is an input), with ASCII digits as the only digits; keyword payloads are built by the same rule on both sides and are one function. An error raised on the server reaches the client as an `RpcError` that names it.
- ReferenceDelivery.UpdatesReachTheNamedSession: registration gives each session a motion of its own, as the three start calls do.
- ReferenceDelivery.AtMostOneLateUpdate, ReferenceDelivery.LastReferenceArrives: count the listener's writes. A session's own policy thread writes to the same motion, before and after deregistration, and so does the RPC path for references.
- SharedRobot.StopReplacesIff: covers stops that nothing interrupts and no submission refuses. What a session's own references do once its motion was replaced is up to franky.
- SessionRegistry: the reading taken for a status and the outcome of `session.stop` are inputs; what they can be after a stop is said by `StopOutcome.RunningAfterStop`, `StopOutcome.StopAchieves` and `RegistryRuns.StopCanLeaveRunning`.
- `RegistryRuns` builds stop motions of the twelve types with `MotionWire`; for the impedance and torque stop motions whether they build is an input.
