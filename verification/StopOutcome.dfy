/** When a requested stop has reached the robot, and when it has not (zero_franky/tracker_session.py). */
module StopOutcome {
  import opened Wrappers
  import opened TrackerLifecycle
  import opened PolicyThread
  import opened StopRefusals

  const RPC_CALL := Call(RpcThread, 0)

  /** The RPC thread is past `_enqueue_stop_motion`, and has met no exception. */
  predicate Enqueued(rpc: RpcPc) {
    rpc == JoinMotion || rpc == JoinThread(false) || rpc == Returned(false)
  }

  /** It submitted its stop, or read the robot as out of control, or did neither, finding the flag set. */
  predicate Achieved(c: Config, s: State) {
    || Submits(s.log, RPC_CALL)
    || Reads(s.log, RPC_CALL, false)
    || (!c.givenStop && s.stopEnqueued && !Mentions(s.log, RPC_CALL))
  }

  predicate OutcomeInvariant(c: Config, s: State) {
    && (Enqueued(s.rpc) ==> s.stopEvent && Achieved(c, s))
    && (s.rpc == RpcEnqueue(CheckFlag) ==> !c.givenStop)
    && (s.rpc.RpcEnqueue? ==> s.stopEvent)
  }

  lemma RpcOutcome(c: Config, s: State, raises: bool)
    requires OutcomeInvariant(c, s) && ReadInvariant(s) && RpcStep(c, s, raises).Some?
    ensures OutcomeInvariant(c, RpcStep(c, s, raises).value)
  {
    hide Honest, FreshAbove;
    match s.rpc
    case NotCalled =>
    case RpcEnqueue(CheckFlag) =>
    case RpcEnqueue(CheckControl) =>
    case RpcEnqueue(SetFlag) =>
    case RpcEnqueue(Submit) =>
    case JoinMotion =>
    case JoinThread(_) =>
    case Returned(_) =>
  }

  /** Events of the policy thread do not speak of the RPC thread's call. */
  lemma OtherEvent(log: Log, e: Event)
    requires e.call.thread == PolicyThread
    ensures Submits(More(log, e), RPC_CALL) == Submits(log, RPC_CALL)
    ensures Reads(More(log, e), RPC_CALL, false) == Reads(log, RPC_CALL, false)
    ensures Mentions(More(log, e), RPC_CALL) == Mentions(log, RPC_CALL)
  {
  }

  lemma PolicyOutcome(c: Config, s: State, choice: Choice)
    requires OutcomeInvariant(c, s) && PolicyStep(c, s, choice).Some?
    ensures OutcomeInvariant(c, PolicyStep(c, s, choice).value)
  {
    if s.policy.PolicyEnqueue? {
      PolicyEnqueueOutcome(c, s, choice);
      hide OutcomeInvariant, EnqueueStep;
    } else {
      LoopStepFrame(c, s, choice);
      hide EnqueueStep, LoopStep, Submits, Reads, Mentions;
    }
  }

  lemma PolicyEnqueueOutcome(c: Config, s: State, choice: Choice)
    requires OutcomeInvariant(c, s) && s.policy.PolicyEnqueue?
    ensures OutcomeInvariant(c, EnqueueStep(s, s.policy.at, s.policy.resume, choice))
  {
    var t := EnqueueStep(s, s.policy.at, s.policy.resume, choice);
    EnqueueLeavesRpc(s, choice);
    hide EnqueueStep, Submits, Reads, Mentions;
    assert Achieved(c, s) ==> Achieved(c, t);
  }

  /** What the policy thread's stop request leaves alone. */
  lemma EnqueueLeavesRpc(s: State, choice: Choice)
    requires s.policy.PolicyEnqueue?
    ensures
      var t := EnqueueStep(s, s.policy.at, s.policy.resume, choice);
      && t.rpc == s.rpc && t.stopEvent == s.stopEvent && (s.stopEnqueued ==> t.stopEnqueued)
      && Submits(t.log, RPC_CALL) == Submits(s.log, RPC_CALL)
      && Reads(t.log, RPC_CALL, false) == Reads(s.log, RPC_CALL, false)
      && Mentions(t.log, RPC_CALL) == Mentions(s.log, RPC_CALL)
  {
    OtherEvent(s.log, DefaultStop(Call(PolicyThread, s.requests)));
    OtherEvent(s.log, ControlRead(Call(PolicyThread, s.requests), s.inControl));
    hide Submits, Reads, Mentions;
  }

  lemma StepOutcome(c: Config, s: State, a: Action)
    requires OutcomeInvariant(c, s) && ReadInvariant(s) && Step(c, s, a).Some?
    ensures OutcomeInvariant(c, Step(c, s, a).value)
  {
    match a
    case PolicyAct(choice) => PolicyOutcome(c, s, choice); hide OutcomeInvariant, ReadInvariant;
    case RpcAct(raises) => RpcOutcome(c, s, raises); hide OutcomeInvariant, ReadInvariant;
    case RobotAct(_) => hide ReadInvariant, Submits, Reads, Mentions;
  }

  lemma {:induction false} RunOutcome(c: Config, s: State, schedule: seq<Action>)
    requires OutcomeInvariant(c, s) && ReadInvariant(s) && Exec(c, s, schedule).Some?
    ensures OutcomeInvariant(c, Exec(c, s, schedule).value)
    decreases |schedule|
  {
    hide Step, OutcomeInvariant, ReadInvariant;
    if schedule != [] {
      StepOutcome(c, s, schedule[0]);
      StepReads(c, s, schedule[0]);
      RunOutcome(c, Step(c, s, schedule[0]).value, schedule[1..]);
    }
  }

  lemma InitOutcome(c: Config, inControl: bool)
    ensures OutcomeInvariant(c, Init(c, inControl))
  {
  }

  lemma ReachableOutcome(c: Config, s: State)
    requires Reachable(c, s)
    ensures OutcomeInvariant(c, s)
  {
    hide Exec, Init, ReadInvariant, OutcomeInvariant;
    var inControl, schedule :| Exec(c, Init(c, inControl), schedule) == Some(s);
    InitOutcome(c, inControl);
    InitReads(c, inControl);
    RunOutcome(c, Init(c, inControl), schedule);
  }

  // --- Whether a stop was submitted ------------------------------------------------------------------

  lemma {:induction false} SubmitsCounts(log: Log, call: Call)
    requires Submits(log, call)
    ensures Submitted(log) >= 1
  {
    match log
    case More(earlier, event) =>
      if event != DefaultStop(call) && event != GivenStop(call) {
        SubmitsCounts(earlier, call);
      }
  }

  /** The state a run ends in. */
  predicate Ends(c: Config, inControl: bool, schedule: seq<Action>, s: State) {
    Exec(c, Init(c, inControl), schedule) == Some(s)
  }

  /** With the flag set and no submission under way, a stop was taken unless submissions were only refused. */
  lemma FlagLandsIff(c: Config, inControl: bool, schedule: seq<Action>, s: State)
    requires Ends(c, inControl, schedule, s) && s.stopEnqueued
    ensures Refusals(c, Init(c, inControl), schedule) == 0 ==> Submitted(s.log) >= 1 || Pending(s) > 0
    ensures Pending(s) == 0 ==> (Submitted(s.log) == 0 <==> OnlyRefused(c, Init(c, inControl), schedule))
  {
    hide Exec, Init, Refusals, Acceptances, Submitted, Pending;
    FlagCountsAttempts(c, inControl, schedule);
  }

  /**
   Main result: a stop over RPC that met no exception has set the event, and the arm was out of control when it
   looked, or a stop was taken or is about to be submitted by the policy thread, provided no submission was
   refused. In general, once the policy thread is not submitting, no stop was taken exactly when submissions
   were only refused.
   */
  lemma StopAchieves(c: Config, inControl: bool, schedule: seq<Action>, s: State)
    requires Ends(c, inControl, schedule, s) && Enqueued(s.rpc)
    ensures s.stopEvent && Achieved(c, s)
    ensures
      Refusals(c, Init(c, inControl), schedule) == 0 ==>
        Reads(s.log, RPC_CALL, false) || Submitted(s.log) >= 1 || PolicyAtSubmit(s)
    ensures
      !Reads(s.log, RPC_CALL, false) && !PolicyAtSubmit(s) ==>
        (Submitted(s.log) == 0 <==> OnlyRefused(c, Init(c, inControl), schedule))
  {
    hide Exec, Init, Refusals, Acceptances, Submitted, Submits, Reads, Mentions;
    assert Reachable(c, s);
    ReachableOutcome(c, s);
    if !Reads(s.log, RPC_CALL, false) {
      if Submits(s.log, RPC_CALL) {
        SubmitsCounts(s.log, RPC_CALL);
        FlagCountsAttempts(c, inControl, schedule);
      }
      FlagLandsIff(c, inControl, schedule, s);
    }
  }

  /**
   Main result: a policy thread that died of an exception, with `stop_on_policy_error`, has set the event, and
   its own last request read the arm as out of control, or a stop was taken or is about to be submitted by the
   RPC thread, provided no submission was refused. In general no stop was taken exactly when submissions were
   only refused.
   */
  lemma FailedPolicyStopsTheArm(c: Config, inControl: bool, schedule: seq<Action>, s: State)
    requires Ends(c, inControl, schedule, s) && s.policy.Exited? && s.progress.errored && c.stopOnPolicyError
    ensures s.stopEvent
    ensures
      Refusals(c, Init(c, inControl), schedule) == 0 ==>
        Reads(s.log, Call(PolicyThread, s.requests), false) || Submitted(s.log) >= 1 || RpcAtSubmit(s)
    ensures
      !Reads(s.log, Call(PolicyThread, s.requests), false) && !RpcAtSubmit(s) ==>
        (Submitted(s.log) == 0 <==> OnlyRefused(c, Init(c, inControl), schedule))
  {
    hide Exec, Init, Refusals, Acceptances, Submitted, Reads;
    assert Reachable(c, s);
    FailedPolicySetsFlag(c, s);
    if !Reads(s.log, Call(PolicyThread, s.requests), false) {
      FlagLandsIff(c, inControl, schedule, s);
    }
  }

  // --- Whether another stop can still follow ------------------------------------------------------------

  predicate CanStillSubmit(c: Config, s: State, schedule: seq<Action>) {
    Exec(c, s, schedule).Some? && Submitted(Exec(c, s, schedule).value.log) > Submitted(s.log)
  }

  /**
   Main result: in every reachable state with the flag set and no thread past its test, a further stop can be
   submitted exactly when the stop over RPC names a motion of its own and has not been called. So a refused
   default stop is final for the session.
   */
  lemma FurtherStopIff(c: Config, s: State)
    requires Reachable(c, s) && s.stopEnqueued && !PolicyCommitted(s) && !RpcCommitted(s)
    ensures (exists schedule :: CanStillSubmit(c, s, schedule)) <==> c.givenStop && s.rpc.NotCalled?
  {
    if c.givenStop && s.rpc.NotCalled? {
      var schedule := GivenStopIgnoresFlag(c, s);
      assert CanStillSubmit(c, s, schedule);
    } else {
      ReachableOutcome(c, s);
      assert Shut(c, s);
      hide Submitted, Exec, Shut, OutcomeInvariant, Reachable;
      forall schedule ensures !CanStillSubmit(c, s, schedule) {
        if Exec(c, s, schedule).Some? {
          FlagBlocksLaterRamps(c, s, schedule);
        }
      }
    }
  }

  lemma GivenStopIgnoresFlag(c: Config, s: State) returns (schedule: seq<Action>)
    requires c.givenStop && s.rpc.NotCalled?
    ensures CanStillSubmit(c, s, schedule)
  {
    var go := RpcAct(false);
    var s1 := s.(inControl := true);
    var s2 := s1.(rpc := RpcEnqueue(CheckControl), stopEvent := true);
    var s3 := s2.(rpc := RpcEnqueue(SetFlag), log := More(s.log, ControlRead(RPC_CALL, true)));
    var s4 := s3.(rpc := RpcEnqueue(Submit), stopEnqueued := true);
    var s5 := s4.(rpc := JoinMotion, log := More(s3.log, GivenStop(RPC_CALL)));
    schedule := [RobotAct(true), go, go, go, go];
    assert schedule[1..] == [go, go, go, go] && [go, go, go, go][1..] == [go, go, go];
    assert [go, go, go][1..] == [go, go] && [go, go][1..] == [go] && [go][1..] == [];
    assert Exec(c, s4, [go]) == Some(s5);
    assert Exec(c, s3, [go, go]) == Some(s5);
    assert Exec(c, s2, [go, go, go]) == Some(s5);
    assert Exec(c, s1, [go, go, go, go]) == Some(s5);
    assert Exec(c, s, schedule) == Some(s5);
    AppendToLog(s.log, ControlRead(RPC_CALL, true));
    AppendToLog(s3.log, GivenStop(RPC_CALL));
    hide Exec, DefaultStopsBy, GivenStops;
  }

  // --- What a status reading says after a stop --------------------------------------------------------------

  /** `status()["running"]` as the session would compute it now. */
  predicate Running(c: Config, s: State) {
    s.inControl && (if c.hasPolicy then !s.policy.Exited? else !s.stopEvent)
  }

  /** An uninterrupted stop over RPC that finds the arm in control, from its control test on. */
  lemma RpcSubmitsAndReturns(c: Config, s: State) returns (schedule: seq<Action>, t: State)
    requires s.rpc == RpcEnqueue(CheckControl) && s.inControl
    ensures Exec(c, s, schedule) == Some(t) && !(exists a :: a in schedule && a != RpcAct(false))
    ensures t == s.(rpc := Returned(false), stopEnqueued := true, log := StopLog(c, s.log))
  {
    var s1 := s.(rpc := RpcEnqueue(SetFlag), log := More(s.log, ControlRead(RPC_CALL, true)));
    var s2 := s1.(rpc := RpcEnqueue(Submit), stopEnqueued := true);
    var s3 := s2.(rpc := JoinMotion, log := StopLog(c, s.log));
    var s4 := s3.(rpc := JoinThread(false));
    t := s4.(rpc := Returned(false));
    var go := RpcAct(false);
    assert [go, go, go, go, go][1..] == [go, go, go, go] && [go, go, go, go][1..] == [go, go, go];
    assert [go, go, go][1..] == [go, go] && [go, go][1..] == [go] && [go][1..] == [];
    assert Exec(c, s4, [go]) == Some(t);
    assert Exec(c, s3, [go, go]) == Some(t);
    assert Exec(c, s2, [go, go, go]) == Some(t);
    assert Exec(c, s1, [go, go, go, go]) == Some(t);
    assert Exec(c, s, [go, go, go, go, go]) == Some(t);
    schedule := [go, go, go, go, go];
  }

  /** The log after a stop over RPC that read the arm as in control. */
  function StopLog(c: Config, log: Log): Log {
    More(More(log, ControlRead(RPC_CALL, true)), if c.givenStop then GivenStop(RPC_CALL) else DefaultStop(RPC_CALL))
  }

  /** How such a stop begins: the event is set, and the flag tested unless the stop names a motion of its own. */
  lemma RpcGetsToControlTest(c: Config, s: State) returns (schedule: seq<Action>)
    requires s.rpc.NotCalled? && (c.givenStop || !s.stopEnqueued)
    ensures Exec(c, s, schedule) == Some(s.(rpc := RpcEnqueue(CheckControl), stopEvent := true))
    ensures !(exists a :: a in schedule && a != RpcAct(false))
  {
    var go := RpcAct(false);
    var t := s.(rpc := RpcEnqueue(CheckControl), stopEvent := true);
    assert [go, go][1..] == [go] && [go][1..] == [];
    if c.givenStop {
      assert Exec(c, s, [go]) == Some(t);
      schedule := [go];
    } else {
      assert Exec(c, s.(rpc := RpcEnqueue(CheckFlag), stopEvent := true), [go]) == Some(t);
      assert Exec(c, s, [go, go]) == Some(t);
      schedule := [go, go];
    }
  }

  /** A stop over RPC has returned without an exception, having submitted the one stop, and the session still runs. */
  predicate RunsThoughStopped(c: Config, schedule: seq<Action>, s: State) {
    && Ends(c, true, schedule, s) && !(exists a :: a in schedule && a.RobotAct?)
    && s.rpc == Returned(false) && Submitted(s.log) == 1 && Running(c, s)
  }

  lemma StopCanReturnRunning(c: Config) returns (schedule: seq<Action>, s: State)
    requires c.hasPolicy
    ensures RunsThoughStopped(c, schedule, s) && s.stopEvent
  {
    var start := Init(c, true);
    var first := RpcGetsToControlTest(c, start);
    var tested := start.(rpc := RpcEnqueue(CheckControl), stopEvent := true);
    var second;
    second, s := RpcSubmitsAndReturns(c, tested);
    hide Exec, Step;
    Extend(c, true, first, tested, second, s);
    schedule := first + second;
  }

  /**
   Main result: with a policy, and only then, a stop over RPC can return without an exception, its stop taken,
   while the session still says running: the policy thread need not have ended within the join's timeout.
   */
  lemma StopCanReturnRunningIff(c: Config)
    ensures (exists schedule, s :: RunsThoughStopped(c, schedule, s)) <==> c.hasPolicy
  {
    if c.hasPolicy {
      var schedule, s := StopCanReturnRunning(c);
    } else {
      forall schedule, s ensures !RunsThoughStopped(c, schedule, s) {
        if RunsThoughStopped(c, schedule, s) {
          assert Reachable(c, s);
          hide Exec, Reachable;
          ReachableKeepsInvariant(c, s);
          assert false;
        }
      }
    }
  }

  /**
   Main result: after a stop over RPC the session still says running only while a policy thread has not ended and
   the arm is in control, and that thread begins at most one more step and applies at most one more value.
   */
  lemma RunningAfterStop(c: Config, s: State, schedule: seq<Action>)
    requires Reachable(c, s) && s.rpc.Returned? && Exec(c, s, schedule).Some?
    ensures s.stopEvent
    ensures Running(c, s) <==> c.hasPolicy && s.inControl && !s.policy.Exited?
    ensures
      var t := Exec(c, s, schedule).value;
      t.progress.steps <= s.progress.steps + 1 && t.progress.applied <= s.progress.applied + 1
  {
    ReachableKeepsInvariant(c, s);
    hide Exec, Reachable;
    StopsWithinOneStep(c, s, schedule);
  }
}
