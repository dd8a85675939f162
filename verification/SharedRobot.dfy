/**
 Several tracker sessions on one robot (zero_franky/tracker_session.py, zero_franky/zmq_server.py). The robot
 executes one motion at a time, and each session reads the robot's `is_in_control`, whoever's motion it is.
 */
module SharedRobot {
  import opened Wrappers
  import opened TrackerLifecycle
  import opened PolicyThread
  import opened StopRefusals
  import opened StopOutcome

  // --- The robot and its sessions --------------------------------------------------------------------

  /** What the robot executes: a session's own motion, a stop motion that a session submitted, or any other motion. */
  datatype Executing = Idle | Tracking(session: nat) | Stopping(session: nat) | Other

  datatype Session = Session(config: Config, state: State)

  /** Sessions are numbered in the order they begin, and never leave. */
  datatype World = World(sessions: seq<Session>, motion: Executing)

  /** `Act` is a step of a session's threads; `Replace` is a motion moved to over RPC; `End` its end or a fault. */
  datatype WorldStep = Begin(config: Config) | Act(session: nat, action: Action) | Replace | End

  function NoSessions(): World {
    World([], Idle)
  }

  /** A session's state, with the robot's flag as it stands. */
  function StateOf(w: World, i: nat): State
    requires i < |w.sessions|
  {
    w.sessions[i].state.(inControl := w.motion != Idle)
  }

  /** A stop motion that the robot takes replaces what it executes. */
  function ActStep(w: World, i: nat, a: Action): Option<World> {
    if i >= |w.sessions| || a.RobotAct? then None
    else
      var s := StateOf(w, i);
      match Step(w.sessions[i].config, s, a)
      case None => None
      case Some(t) =>
        Some(World(w.sessions[i := Session(w.sessions[i].config, t)],
          if Submitted(t.log) > Submitted(s.log) then Stopping(i) else w.motion))
  }

  function Advance(w: World, step: WorldStep): Option<World> {
    match step
    case Begin(c) => Some(World(w.sessions + [Session(c, Init(c, true))], Tracking(|w.sessions|)))
    case Act(i, a) => ActStep(w, i, a)
    case Replace => Some(w.(motion := Other))
    case End => Some(w.(motion := Idle))
  }

  function Play(w: World, steps: seq<WorldStep>): Option<World>
    decreases |steps|
  {
    if steps == [] then Some(w)
    else
      match Advance(w, steps[0])
      case None => None
      case Some(next) => Play(next, steps[1..])
  }

  // --- Each session runs as if alone -------------------------------------------------------------------

  /** What is proved of a single session, its robot's flag changing at any time, holds of each of these. */
  ghost predicate EachReachable(w: World) {
    forall i :: 0 <= i < |w.sessions| ==> forall inControl ::
        Reachable(w.sessions[i].config, w.sessions[i].state.(inControl := inControl))
  }

  /** Only the session begun last can have its own motion executed; a stop motion was submitted by its session. */
  predicate MotionIsLatest(w: World) {
    match w.motion
    case Tracking(i) => i == |w.sessions| - 1
    case Stopping(i) => i < |w.sessions| && Submitted(w.sessions[i].state.log) > 0
    case _ => true
  }

  lemma ReachableStep(c: Config, s: State, a: Action)
    requires Reachable(c, s) && Step(c, s, a).Some?
    ensures Reachable(c, Step(c, s, a).value)
  {
    var inControl, schedule :| Exec(c, Init(c, inControl), schedule) == Some(s);
    var t := Step(c, s, a).value;
    assert [a][1..] == [];
    assert Exec(c, s, [a]) == Some(t);
    hide Exec, Step;
    Extend(c, inControl, schedule, s, [a], t);
  }

  lemma AnyFlag(c: Config, s: State)
    requires Reachable(c, s)
    ensures forall inControl :: Reachable(c, s.(inControl := inControl))
  {
    hide Reachable;
    forall inControl ensures Reachable(c, s.(inControl := inControl)) {
      ReachableStep(c, s, RobotAct(inControl));
    }
  }

  lemma InitReachable(c: Config)
    ensures Reachable(c, Init(c, true))
  {
    assert Exec(c, Init(c, true), []) == Some(Init(c, true));
  }

  lemma ActKeepsReachable(w: World, i: nat, a: Action)
    requires EachReachable(w) && ActStep(w, i, a).Some?
    ensures EachReachable(ActStep(w, i, a).value)
  {
    hide Reachable, Step, Submitted;
    var c, s := w.sessions[i].config, StateOf(w, i);
    ReachableStep(c, s, a);
    AnyFlag(c, Step(c, s, a).value);
  }

  lemma BeginKeepsReachable(w: World, c: Config)
    requires EachReachable(w)
    ensures EachReachable(World(w.sessions + [Session(c, Init(c, true))], Tracking(|w.sessions|)))
  {
    hide Reachable, Init;
    InitReachable(c);
    AnyFlag(c, Init(c, true));
  }

  lemma {:induction false} LogGrows(c: Config, s: State, schedule: seq<Action>)
    requires Exec(c, s, schedule).Some?
    ensures Submitted(Exec(c, s, schedule).value.log) >= Submitted(s.log)
    decreases |schedule|
  {
    hide Step, Submitted;
    if schedule != [] {
      StepGrows(c, s, schedule[0]);
      LogGrows(c, Step(c, s, schedule[0]).value, schedule[1..]);
    }
  }

  lemma StepGrows(c: Config, s: State, a: Action)
    requires Step(c, s, a).Some?
    ensures Submitted(Step(c, s, a).value.log) >= Submitted(s.log)
    ensures !a.RobotAct? ==> Step(c, s, a).value.inControl == s.inControl
  {
    hide LoopStep;
    match a
    case PolicyAct(choice) => PolicyGrows(c, s, choice); hide PolicyStep, Submitted;
    case RpcAct(_) => hide PolicyStep, DefaultStopsBy;
    case RobotAct(_) => hide PolicyStep, RpcStep;
  }

  lemma PolicyGrows(c: Config, s: State, choice: Choice)
    requires PolicyStep(c, s, choice).Some?
    ensures Submitted(PolicyStep(c, s, choice).value.log) >= Submitted(s.log)
    ensures PolicyStep(c, s, choice).value.inControl == s.inControl
  {
    if s.policy.PolicyEnqueue? {
      hide LoopStep;
    } else {
      LoopStepFrame(c, s, choice);
      hide LoopStep, Submitted;
    }
  }

  lemma ActKeepsLatest(w: World, i: nat, a: Action)
    requires MotionIsLatest(w) && ActStep(w, i, a).Some?
    ensures MotionIsLatest(ActStep(w, i, a).value)
  {
    StepGrows(w.sessions[i].config, StateOf(w, i), a);
    hide Step, Submitted;
  }

  lemma AdvanceKeeps(w: World, step: WorldStep)
    requires EachReachable(w) && MotionIsLatest(w) && Advance(w, step).Some?
    ensures EachReachable(Advance(w, step).value) && MotionIsLatest(Advance(w, step).value)
  {
    hide ActStep, Init, Reachable;
    match step
    case Begin(c) => BeginKeepsReachable(w, c); hide EachReachable;
    case Act(i, a) => ActKeepsReachable(w, i, a); ActKeepsLatest(w, i, a); hide EachReachable, MotionIsLatest;
    case Replace =>
    case End =>
  }

  lemma {:induction false} PlayKeeps(w: World, steps: seq<WorldStep>)
    requires EachReachable(w) && MotionIsLatest(w) && Play(w, steps).Some?
    ensures EachReachable(Play(w, steps).value) && MotionIsLatest(Play(w, steps).value)
    decreases |steps|
  {
    hide Advance, EachReachable, MotionIsLatest;
    if steps != [] {
      AdvanceKeeps(w, steps[0]);
      PlayKeeps(Advance(w, steps[0]).value, steps[1..]);
    }
  }

  /**
   Main result: after any run of any number of sessions on one robot, each session is in a state it could reach
   alone on a robot whose flag changes at any time, and only the session begun last has its own motion executed.
   */
  lemma SessionsRunAsIfAlone(steps: seq<WorldStep>)
    requires Play(NoSessions(), steps).Some?
    ensures
      var w := Play(NoSessions(), steps).value;
      && (forall i :: 0 <= i < |w.sessions| ==> Reachable(w.sessions[i].config, StateOf(w, i)))
      && MotionIsLatest(w)
  {
    hide Play, Reachable, Submitted;
    PlayKeeps(NoSessions(), steps);
    hide MotionIsLatest;
  }

  // --- Stopping one session while another tracks -----------------------------------------------------------

  /** A run of one session's threads alone. */
  function Acts(i: nat, schedule: seq<Action>): (steps: seq<WorldStep>)
    ensures |steps| == |schedule| && forall k :: 0 <= k < |steps| ==> steps[k] == Act(i, schedule[k])
  {
    seq(|schedule|, k requires 0 <= k < |schedule| => Act(i, schedule[k]))
  }

  predicate OwnThreads(schedule: seq<Action>) {
    forall k :: 0 <= k < |schedule| ==> !schedule[k].RobotAct?
  }

  /** `t` is `w` after session `i` alone has run, ending in `s`: a submission puts its stop motion on the robot. */
  predicate RanAlone(w: World, i: nat, s: State, t: World) {
    && i < |w.sessions| == |t.sessions| && StateOf(t, i) == s && t.sessions[i].config == w.sessions[i].config
    && (forall j :: 0 <= j < |w.sessions| && j != i ==> t.sessions[j] == w.sessions[j])
    && t.motion == if Submitted(s.log) > Submitted(w.sessions[i].state.log) then Stopping(i) else w.motion
  }

  lemma ActAlone(w: World, i: nat, a: Action)
    requires i < |w.sessions| && w.motion != Idle && !a.RobotAct?
    ensures ActStep(w, i, a).Some? <==> Step(w.sessions[i].config, StateOf(w, i), a).Some?
    ensures
      ActStep(w, i, a).Some? ==>
        RanAlone(w, i, Step(w.sessions[i].config, StateOf(w, i), a).value, ActStep(w, i, a).value)
  {
    if Step(w.sessions[i].config, StateOf(w, i), a).Some? {
      StepGrows(w.sessions[i].config, StateOf(w, i), a);
    }
    hide Step, Submitted;
  }

  lemma AloneInTurn(w: World, i: nat, s1: State, w1: World, s2: State, w2: World)
    requires RanAlone(w, i, s1, w1) && RanAlone(w1, i, s2, w2)
    requires Submitted(s2.log) >= Submitted(s1.log) >= Submitted(w.sessions[i].state.log)
    ensures RanAlone(w, i, s2, w2)
  {
    hide Submitted;
  }

  /** While something executes, a session's threads run in the shared world exactly as they do alone. */
  lemma {:induction false} ActsAreExec(w: World, i: nat, schedule: seq<Action>)
    requires i < |w.sessions| && w.motion != Idle && OwnThreads(schedule)
    ensures Play(w, Acts(i, schedule)).Some? <==> Exec(w.sessions[i].config, StateOf(w, i), schedule).Some?
    ensures
      Play(w, Acts(i, schedule)).Some? ==>
        RanAlone(w, i, Exec(w.sessions[i].config, StateOf(w, i), schedule).value, Play(w, Acts(i, schedule)).value)
    decreases |schedule|
  {
    hide Step, ActStep, Submitted, RanAlone;
    var c, s := w.sessions[i].config, StateOf(w, i);
    if schedule == [] {
      NothingRan(w, i);
    } else {
      var a, rest := schedule[0], schedule[1..];
      assert Acts(i, schedule)[1..] == Acts(i, rest) && Acts(i, schedule)[0] == Act(i, a);
      ActAlone(w, i, a);
      if Step(c, s, a).Some? {
        var s1, w1 := Step(c, s, a).value, ActStep(w, i, a).value;
        StillExecuting(w, i, s1, w1);
        ActsAreExec(w1, i, rest);
        if Exec(c, s1, rest).Some? {
          StepGrows(c, s, a);
          LogGrows(c, s1, rest);
          AloneInTurn(w, i, s1, w1, Exec(c, s1, rest).value, Play(w1, Acts(i, rest)).value);
        }
      }
    }
  }

  lemma NothingRan(w: World, i: nat)
    requires i < |w.sessions|
    ensures RanAlone(w, i, StateOf(w, i), w)
  {
  }

  lemma StillExecuting(w: World, i: nat, s: State, t: World)
    requires RanAlone(w, i, s, t) && w.motion != Idle
    ensures t.motion != Idle && i < |t.sessions| && StateOf(t, i) == s && t.sessions[i].config == w.sessions[i].config
  {
  }

  /** An uninterrupted stop over RPC that no submission refuses, of a session that has not been stopped over RPC. */
  lemma StopAlone(c: Config, s: State) returns (schedule: seq<Action>, t: State)
    requires s.rpc.NotCalled? && s.inControl
    ensures Exec(c, s, schedule) == Some(t) && !(exists a :: a in schedule && a != RpcAct(false))
    ensures t.rpc == Returned(false) && t.stopEvent && t.policy == s.policy
    ensures Submitted(t.log) == Submitted(s.log) + if c.givenStop || !s.stopEnqueued then 1 else 0
  {
    hide Exec, Submitted;
    if c.givenStop || !s.stopEnqueued {
      var first := RpcGetsToControlTest(c, s);
      var tested := s.(rpc := RpcEnqueue(CheckControl), stopEvent := true);
      var second;
      second, t := RpcSubmitsAndReturns(c, tested);
      assert t.log == StopLog(c, s.log);
      StopLogAdds(c, s.log);
      ExecInTwoParts(c, s, first, second);
      schedule := first + second;
    } else {
      schedule := RpcReturnsBehindFlag(c, s);
      t := s.(rpc := Returned(false), stopEvent := true);
    }
  }

  lemma StopLogAdds(c: Config, log: Log)
    ensures Submitted(StopLog(c, log)) == Submitted(log) + 1
  {
    var read := ControlRead(RPC_CALL, true);
    AppendToLog(log, read);
    AppendToLog(More(log, read), if c.givenStop then GivenStop(RPC_CALL) else DefaultStop(RPC_CALL));
    hide DefaultStopsBy, GivenStops;
  }

  /** Session `i` was stopped over RPC by `schedule`, uninterrupted and unrefused, and nothing else moved. */
  predicate StoppedAlone(w: World, i: nat, schedule: seq<Action>, t: World) {
    && i < |w.sessions| == |t.sessions|
    && (forall k :: 0 <= k < |schedule| ==> schedule[k] == RpcAct(false))
    && Play(w, Acts(i, schedule)) == Some(t) && StateOf(t, i).rpc == Returned(false)
    && (forall j :: 0 <= j < |w.sessions| && j != i ==> t.sessions[j] == w.sessions[j])
  }

  /**
   Main result: whatever the robot executes, be it another session's motion, an uninterrupted stop of a session
   replaces it by that session's stop motion if it names a motion of its own or the session's flag is unset, and
   leaves it alone otherwise.
   */
  lemma StopReplacesIff(w: World, i: nat) returns (schedule: seq<Action>, t: World)
    requires i < |w.sessions| && StateOf(w, i).rpc.NotCalled? && w.motion != Idle && w.motion != Stopping(i)
    ensures StoppedAlone(w, i, schedule, t)
    ensures t.motion == Stopping(i) <==> w.sessions[i].config.givenStop || !StateOf(w, i).stopEnqueued
    ensures t.motion != Stopping(i) ==> t.motion == w.motion
  {
    var s;
    schedule, s := StopAlone(w.sessions[i].config, StateOf(w, i));
    forall k | 0 <= k < |schedule| ensures schedule[k] == RpcAct(false) {
      assert schedule[k] in schedule;
    }
    hide Exec, Play, Submitted;
    ActsAreExec(w, i, schedule);
    t := Play(w, Acts(i, schedule)).value;
  }

  predicate TakesOver(w: World, i: nat, schedule: seq<Action>) {
    && OwnThreads(schedule) && Play(w, Acts(i, schedule)).Some?
    && Play(w, Acts(i, schedule)).value.motion == Stopping(i)
  }

  /**
   Main result: a session whose flag is set, with no thread past its test, can still stop the motion that the robot
   now executes exactly when its stop over RPC names a motion of its own and has not been called.
   */
  lemma StaleSessionTakesOverIff(w: World, i: nat)
    requires i < |w.sessions| && EachReachable(w) && w.motion != Idle && w.motion != Stopping(i)
    requires var s := StateOf(w, i); s.stopEnqueued && !PolicyCommitted(s) && !RpcCommitted(s)
    ensures (exists schedule :: TakesOver(w, i, schedule)) <==>
        w.sessions[i].config.givenStop && StateOf(w, i).rpc.NotCalled?
  {
    var c, s := w.sessions[i].config, StateOf(w, i);
    if c.givenStop && s.rpc.NotCalled? {
      var schedule, t := StopReplacesIff(w, i);
      assert TakesOver(w, i, schedule);
    } else {
      hide Exec, Play, Submitted, Reachable;
      FurtherStopIff(c, s);
      forall schedule ensures !TakesOver(w, i, schedule) {
        if OwnThreads(schedule) && Play(w, Acts(i, schedule)).Some? {
          ActsAreExec(w, i, schedule);
          assert !CanStillSubmit(c, s, schedule);
        }
      }
    }
  }

  /**
   Main result: begin one session on a robot and then another. The first still says running unless its policy has
   ended, and stopping it ramps down the second's motion, whose session knows nothing of it.
   */
  lemma FirstStopsSecond(first: Config, second: Config) returns (schedule: seq<Action>, t: World)
    ensures
      var w := World([Session(first, Init(first, true)), Session(second, Init(second, true))], Tracking(1));
      && Play(NoSessions(), [Begin(first), Begin(second)]) == Some(w)
      && Running(first, StateOf(w, 0)) && StoppedAlone(w, 0, schedule, t)
      && t.motion == Stopping(0) && StateOf(t, 1) == Init(second, true)
  {
    var one, other := Session(first, Init(first, true)), Session(second, Init(second, true));
    var w := World([one, other], Tracking(1));
    assert [Begin(first), Begin(second)][1..] == [Begin(second)] && [Begin(second)][1..] == [];
    assert [one] + [other] == [one, other] && NoSessions().sessions + [one] == [one];
    assert Advance(World([one], Tracking(0)), Begin(second)) == Some(w);
    assert Play(World([one], Tracking(0)), [Begin(second)]) == Some(w);
    assert Advance(NoSessions(), Begin(first)) == Some(World([one], Tracking(0)));
    schedule, t := StopReplacesIff(w, 0);
  }
}
