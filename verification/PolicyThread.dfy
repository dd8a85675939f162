/**
 What the policy thread does after the stop event is set, how its counters relate, what a
 failed policy leaves behind, and which reading of the robot lies behind each stop
 (zero_franky/tracker_session.py), over every run of the machine in `TrackerLifecycle`.
 */
module PolicyThread {
  import opened Wrappers
  import opened TrackerLifecycle

  // --- After the stop event --------------------------------------------------------------

  function ResumeOf(pc: PolicyPc): Option<Resume> {
    match pc
    case Requesting(resume) => Some(resume)
    case PolicyEnqueue(_, resume) => Some(resume)
    case _ => None
  }

  /** Whether the policy thread still owes a call of `_apply_reference` once the stop event is set. */
  function AppliesLeft(pc: PolicyPc): nat {
    if pc.Factory? || pc.ApplyCandidate? || pc.TestControl? || pc.Stepping? || pc.ApplyReturned?
       || ResumeOf(pc) == Some(InFactory) || ResumeOf(pc) == Some(InStep) then 1 else 0
  }

  function StepsLeft(pc: PolicyPc): nat {
    if pc.TestControl? then 1 else 0
  }

  function IterationsLeft(pc: PolicyPc): nat {
    if pc.TestControl? || pc.Stepping? || pc.ApplyReturned? || pc.Count?
       || ResumeOf(pc) == Some(InStep) || ResumeOf(pc) == Some(BeforeCount) then 1 else 0
  }

  predicate Within(s: State, t: State) {
    && t.progress.applied + AppliesLeft(t.policy) <= s.progress.applied + AppliesLeft(s.policy)
    && t.progress.steps + StepsLeft(t.policy) <= s.progress.steps + StepsLeft(s.policy)
    && t.progress.iterations + IterationsLeft(t.policy) <= s.progress.iterations + IterationsLeft(s.policy)
  }

  lemma CallWithin(s: State, choice: Choice)
    ensures s.policy.Factory? && FactoryStep(s, choice).Some? ==> Within(s, FactoryStep(s, choice).value)
    ensures s.policy.Stepping? && SteppingStep(s, choice).Some? ==> Within(s, SteppingStep(s, choice).value)
  {
  }

  lemma ApplyWithin(s: State, value: PolicyValue, raises: bool)
    ensures s.policy.ApplyCandidate? ==> Within(s, ApplyReference(s, value, raises, BeforeLoop))
    ensures s.policy.ApplyReturned? ==> Within(s, ApplyReference(s, value, raises, BeforeCount))
  {
  }

  lemma EnqueueWithin(s: State, choice: Choice)
    requires s.policy.PolicyEnqueue?
    ensures Within(s, EnqueueStep(s, s.policy.at, s.policy.resume, choice))
    ensures EnqueueStep(s, s.policy.at, s.policy.resume, choice).stopEvent == s.stopEvent
  {
    hide PolicyStep, LoopStep;
    match s.policy.at
    case CheckFlag =>
    case CheckControl =>
    case SetFlag =>
    case Submit =>
  }

  lemma LoopWithin(c: Config, s: State, choice: Choice)
    requires s.stopEvent && LoopStep(c, s, choice).Some?
    ensures Within(s, LoopStep(c, s, choice).value)
  {
    match s.policy
    case Factory => CallWithin(s, choice); hide *;
    case Stepping => CallWithin(s, choice); hide *;
    case ApplyCandidate(value) => ApplyWithin(s, value, choice.Raise?); hide *;
    case ApplyReturned(value) => ApplyWithin(s, value, choice.Raise?); hide *;
    case _ => hide FactoryStep, SteppingStep, ApplyReference;
  }

  lemma StepWithin(c: Config, s: State, a: Action)
    requires s.stopEvent && Step(c, s, a).Some?
    ensures Within(s, Step(c, s, a).value) && Step(c, s, a).value.stopEvent
  {
    match a
    case RpcAct(_) => hide PolicyStep;
    case RobotAct(_) => hide PolicyStep, RpcStep;
    case PolicyAct(choice) =>
      hide RpcStep, Within, LoopStep, EnqueueStep;
      if s.policy.PolicyEnqueue? {
        EnqueueWithin(s, choice);
      } else {
        LoopWithin(c, s, choice);
        LoopStepFrame(c, s, choice);
      }
  }

  lemma {:induction false} RunWithin(c: Config, s: State, schedule: seq<Action>)
    requires s.stopEvent && Exec(c, s, schedule).Some?
    ensures Within(s, Exec(c, s, schedule).value) && Exec(c, s, schedule).value.stopEvent
    decreases |schedule|
  {
    hide Step, AppliesLeft, StepsLeft, IterationsLeft;
    if schedule != [] {
      StepWithin(c, s, schedule[0]);
      RunWithin(c, Step(c, s, schedule[0]).value, schedule[1..]);
    }
  }

  /**
   Main result: from the moment the stop event is set, wherever the policy thread then is, it
   applies at most one more returned value, begins at most one more step and completes at
   most one more; and the event stays set.
   */
  lemma StopsWithinOneStep(c: Config, s: State, schedule: seq<Action>)
    requires s.stopEvent && Exec(c, s, schedule).Some?
    ensures
      var t := Exec(c, s, schedule).value;
      && t.stopEvent
      && t.progress.applied <= s.progress.applied + 1
      && t.progress.steps <= s.progress.steps + 1
      && t.progress.iterations <= s.progress.iterations + 1
      && (s.policy.TestEvent? ==> t.progress.applied <= s.progress.applied && t.progress.steps <= s.progress.steps)
  {
    RunWithin(c, s, schedule);
    hide Exec;
  }

  // --- Counters and endings --------------------------------------------------------------------

  /** Whether a step is under way: begun, not yet counted. */
  function UnderWay(pc: PolicyPc): nat {
    if pc.Stepping? || pc.ApplyReturned? || pc.Count? || ResumeOf(pc) == Some(InStep)
        || ResumeOf(pc) == Some(BeforeCount) then 1 else 0
  }

  /** Whether a step's value has been applied but the step is not yet counted. */
  function AppliedUncounted(pc: PolicyPc): nat {
    if pc.Count? || ResumeOf(pc) == Some(BeforeCount) then 1 else 0
  }

  /** Whether the value of a factory that is itself the step function has been applied. */
  function CandidateApplied(s: State): nat {
    if s.progress.direct && !s.policy.ApplyCandidate? then 1 else 0
  }

  predicate Failed(s: State) {
    s.progress.errored || s.progress.quit || s.policy.Handling?
  }

  predicate CountInvariant(s: State) {
    var p := s.progress;
    && (if Failed(s) then p.iterations <= p.steps <= p.iterations + 1 else p.steps == p.iterations + UnderWay(s.policy))
    && (!Failed(s) ==> p.applied == p.iterations + CandidateApplied(s) + AppliedUncounted(s.policy))
    && (s.policy.Factory? || ResumeOf(s.policy) == Some(InFactory) ==> !p.direct)
    && (s.policy.ApplyCandidate? ==> p.direct)
  }

  /** After a failure the thread only handles it; a thread that ended unharmed was told to, or lost the robot. */
  predicate EndInvariant(c: Config, s: State) {
    && (s.progress.errored <==> ResumeOf(s.policy) == Some(AtExit) || (s.policy.Exited? && s.progress.errored))
    && (s.progress.quit ==> s.policy.Exited? && !s.progress.errored)
    && (s.policy.Exited? && c.hasPolicy && !s.progress.errored && !s.progress.quit
        ==> s.stopEvent || s.progress.lostControl)
    && (s.policy.Exited? && s.progress.errored && c.stopOnPolicyError ==> s.stopEvent)
  }

  predicate ThreadInvariant(c: Config, s: State) {
    CountInvariant(s) && EndInvariant(c, s)
  }

  lemma FactoryCounts(c: Config, s: State, choice: Choice)
    requires ThreadInvariant(c, s) && s.policy.Factory? && FactoryStep(s, choice).Some?
    ensures ThreadInvariant(c, FactoryStep(s, choice).value)
  {
  }

  lemma SteppingCounts(c: Config, s: State, choice: Choice)
    requires ThreadInvariant(c, s) && s.policy.Stepping? && SteppingStep(s, choice).Some?
    ensures ThreadInvariant(c, SteppingStep(s, choice).value)
  {
  }

  lemma CandidateCounts(c: Config, s: State, value: PolicyValue, raises: bool)
    requires ThreadInvariant(c, s) && s.policy.ApplyCandidate?
    ensures ThreadInvariant(c, ApplyReference(s, value, raises, BeforeLoop))
  {
  }

  lemma ReturnedCounts(c: Config, s: State, value: PolicyValue, raises: bool)
    requires ThreadInvariant(c, s) && s.policy.ApplyReturned?
    ensures ThreadInvariant(c, ApplyReference(s, value, raises, BeforeCount))
  {
  }

  /** Inside `_enqueue_stop_motion` the thread only moves on, back to its caller, or to the exception handler. */
  predicate EnqueueFrame(s: State, t: State, resume: Resume) {
    && t.progress == s.progress && t.stopEvent == s.stopEvent && t.rpc == s.rpc && t.requests == s.requests
    && (|| t.policy == Continue(resume)
        || (t.policy.PolicyEnqueue? && t.policy.resume == resume)
        || (t.policy == Handling && resume != AtExit))
  }

  lemma EnqueueStepFrame(s: State, at: EnqueuePc, resume: Resume, choice: Choice)
    ensures EnqueueFrame(s, EnqueueStep(s, at, resume, choice), resume)
  {
  }

  lemma EnqueueCounts(c: Config, s: State, t: State)
    requires ThreadInvariant(c, s) && s.policy.PolicyEnqueue? && s.stopEvent && EnqueueFrame(s, t, s.policy.resume)
    ensures ThreadInvariant(c, t)
  {
  }

  lemma TestsCount(c: Config, s: State, choice: Choice)
    requires ThreadInvariant(c, s) && (s.policy.TestEvent? || s.policy.TestControl?)
    ensures ThreadInvariant(c, LoopStep(c, s, choice).value)
  {
    hide FactoryStep, SteppingStep, ApplyReference;
  }

  lemma CountCounts(c: Config, s: State, choice: Choice)
    requires ThreadInvariant(c, s) && (s.policy.Count? || s.policy.Pace?)
    ensures ThreadInvariant(c, LoopStep(c, s, choice).value)
  {
    hide FactoryStep, SteppingStep, ApplyReference;
  }

  lemma HandlingCounts(c: Config, s: State, choice: Choice)
    requires ThreadInvariant(c, s) && (s.policy.Handling? || s.policy.Requesting?)
    ensures ThreadInvariant(c, LoopStep(c, s, choice).value)
  {
    hide FactoryStep, SteppingStep, ApplyReference;
  }

  lemma LoopCounts(c: Config, s: State, choice: Choice)
    requires ThreadInvariant(c, s) && LoopStep(c, s, choice).Some?
    ensures ThreadInvariant(c, LoopStep(c, s, choice).value)
  {
    match s.policy
    case Factory => FactoryCounts(c, s, choice); hide *;
    case Stepping => SteppingCounts(c, s, choice); hide *;
    case ApplyCandidate(value) => CandidateCounts(c, s, value, choice.Raise?); hide *;
    case ApplyReturned(value) => ReturnedCounts(c, s, value, choice.Raise?); hide *;
    case TestEvent => TestsCount(c, s, choice); hide *;
    case TestControl => TestsCount(c, s, choice); hide *;
    case Count => CountCounts(c, s, choice); hide *;
    case Pace => CountCounts(c, s, choice); hide *;
    case Handling => HandlingCounts(c, s, choice); hide *;
    case Requesting(_) => HandlingCounts(c, s, choice); hide *;
  }

  lemma StepCounts(c: Config, s: State, a: Action)
    requires ThreadInvariant(c, s) && RampInvariant(c, s) && Step(c, s, a).Some?
    ensures ThreadInvariant(c, Step(c, s, a).value)
  {
    match a
    case RpcAct(raises) => RpcCounts(c, s, raises); hide RpcStep;
    case RobotAct(_) => hide PolicyStep, RpcStep, RampInvariant;
    case PolicyAct(choice) =>
      assert s.policy.PolicyEnqueue? ==> s.stopEvent;
      hide RpcStep, ThreadInvariant, LoopStep, EnqueueStep, RampInvariant;
      if s.policy.PolicyEnqueue? {
        EnqueueStepFrame(s, s.policy.at, s.policy.resume, choice);
        EnqueueCounts(c, s, EnqueueStep(s, s.policy.at, s.policy.resume, choice));
      } else {
        LoopCounts(c, s, choice);
      }
  }

  lemma RpcCounts(c: Config, s: State, raises: bool)
    requires ThreadInvariant(c, s) && RpcStep(c, s, raises).Some?
    ensures ThreadInvariant(c, RpcStep(c, s, raises).value)
  {
    var t := RpcStep(c, s, raises).value;
    assert t.policy == s.policy && t.progress == s.progress && (s.stopEvent ==> t.stopEvent);
    hide RpcStep;
  }

  lemma {:induction false} RunCounts(c: Config, s: State, schedule: seq<Action>)
    requires ThreadInvariant(c, s) && RampInvariant(c, s) && Exec(c, s, schedule).Some?
    ensures ThreadInvariant(c, Exec(c, s, schedule).value)
    decreases |schedule|
  {
    hide Step, ThreadInvariant, RampInvariant;
    if schedule != [] {
      StepCounts(c, s, schedule[0]);
      RampStep(c, s, schedule[0]);
      RunCounts(c, Step(c, s, schedule[0]).value, schedule[1..]);
    }
  }

  lemma InitCounts(c: Config, inControl: bool)
    ensures ThreadInvariant(c, Init(c, inControl))
  {
  }

  /**
   Main result: in every reachable state without a failure, `_iterations` is the number of completed
   steps, and the values applied are one per completed step, one more while a step's value is applied
   but not counted, and one more if the factory itself is the step function.
   */
  lemma CountersAccountForSteps(c: Config, s: State)
    requires Reachable(c, s) && !Failed(s)
    ensures s.progress.steps == s.progress.iterations + UnderWay(s.policy)
    ensures s.progress.applied == s.progress.iterations + CandidateApplied(s) + AppliedUncounted(s.policy)
    ensures s.policy.Exited? ==> s.progress.applied == s.progress.iterations + (if s.progress.direct then 1 else 0)
  {
    ReachableThread(c, s);
  }

  lemma ReachableThread(c: Config, s: State)
    requires Reachable(c, s)
    ensures ThreadInvariant(c, s)
  {
    hide Exec, Init, ThreadInvariant, RampInvariant;
    var inControl, schedule :| Exec(c, Init(c, inControl), schedule) == Some(s);
    InitCounts(c, inControl);
    InitRamp(c, inControl);
    RunCounts(c, Init(c, inControl), schedule);
  }

  /**
   Main result: a policy thread that ended was asked to stop, saw the robot out of control, failed with
   `stop_on_policy_error` off, or left through an exception that the handler does not catch, and then no error is kept.
   */
  lemma EndedForAReason(c: Config, s: State)
    requires Reachable(c, s) && c.hasPolicy && s.policy.Exited?
    ensures s.stopEvent || s.progress.lostControl || (s.progress.errored && !c.stopOnPolicyError) || s.progress.quit
    ensures s.progress.quit ==> !s.progress.errored
  {
    ReachableThread(c, s);
  }

  /** Such an ending happens: no event, no error, no stop, and the arm still in control. */
  lemma QuitLeavesNoTrace(c: Config) returns (s: State)
    requires c.hasPolicy
    ensures Reachable(c, s) && s.policy.Exited? && s.progress.quit
    ensures s.inControl && !s.stopEvent && !s.stopEnqueued && !s.progress.errored && s.log == Empty
  {
    var start := Init(c, true);
    s := start.(policy := Exited, progress := start.progress.(quit := true));
    var quit := [PolicyAct(Quit)];
    assert quit[1..] == [];
    assert Exec(c, start, quit) == Some(s);
  }

  // --- What lies behind each stop ------------------------------------------------------------------

  /** Whether `call` read the robot's control flag as `inControl`. */
  predicate Reads(log: Log, call: Call, inControl: bool) {
    log.More? && (log.event == ControlRead(call, inControl) || Reads(log.earlier, call, inControl))
  }

  predicate Submits(log: Log, call: Call) {
    log.More? && (log.event == DefaultStop(call) || log.event == GivenStop(call) || Submits(log.earlier, call))
  }

  predicate Mentions(log: Log, call: Call) {
    Reads(log, call, true) || Reads(log, call, false) || Submits(log, call)
  }

  /** Every submission was made by a call that read the robot as in control, and read nothing else. */
  ghost predicate Honest(log: Log) {
    forall call {:trigger Submits(log, call)} :: Submits(log, call)
        ==> Reads(log, call, true) && !Reads(log, call, false)
  }

  ghost predicate FreshAbove(log: Log, requests: nat) {
    forall n: nat {:trigger Call(PolicyThread, n)} :: n > requests ==> !Mentions(log, Call(PolicyThread, n))
  }

  /** What the log says of the call a thread is in, by the statement it is at. */
  predicate Remembers(log: Log, call: Call, at: EnqueuePc) {
    match at
    case CheckFlag => !Mentions(log, call)
    case CheckControl => !Mentions(log, call)
    case SetFlag => Reads(log, call, true) && !Reads(log, call, false)
    case Submit => Reads(log, call, true) && !Reads(log, call, false)
  }

  ghost predicate ReadInvariant(s: State) {
    && Honest(s.log)
    && FreshAbove(s.log, s.requests)
    && (s.policy.PolicyEnqueue? ==> s.requests > 0 && Remembers(s.log, Call(PolicyThread, s.requests), s.policy.at))
    && (s.rpc.NotCalled? ==> !Mentions(s.log, Call(RpcThread, 0)))
    && (s.rpc.RpcEnqueue? ==> Remembers(s.log, Call(RpcThread, 0), s.rpc.at))
  }

  lemma AppendRead(log: Log, call: Call, inControl: bool)
    requires Honest(log) && !Mentions(log, call)
    ensures Honest(More(log, ControlRead(call, inControl)))
    ensures Reads(More(log, ControlRead(call, inControl)), call, inControl)
        && !Reads(More(log, ControlRead(call, inControl)), call, !inControl)
    ensures forall other | other != call ::
          Mentions(More(log, ControlRead(call, inControl)), other) <==> Mentions(log, other)
    ensures forall other, b | other != call ::
          Reads(More(log, ControlRead(call, inControl)), other, b) <==> Reads(log, other, b)
  {
    var longer := More(log, ControlRead(call, inControl));
    forall other ensures Submits(longer, other) <==> Submits(log, other) {
    }
    forall other, b | other != call ensures Reads(longer, other, b) <==> Reads(log, other, b) {
    }
  }

  lemma AppendStop(log: Log, call: Call, e: Event)
    requires Honest(log) && Reads(log, call, true) && !Reads(log, call, false)
        && (e == DefaultStop(call) || e == GivenStop(call))
    ensures Honest(More(log, e))
    ensures forall other | other != call :: Mentions(More(log, e), other) <==> Mentions(log, other)
    ensures forall other, b :: Reads(More(log, e), other, b) <==> Reads(log, other, b)
  {
    var longer := More(log, e);
    forall other, b ensures Reads(longer, other, b) <==> Reads(log, other, b) {
    }
    forall other ensures Submits(longer, other) <==> Submits(log, other) || other == call {
    }
  }

  lemma LoopReads(s: State, t: State)
    requires ReadInvariant(s) && !s.policy.PolicyEnqueue? && LoopFrame(s, t)
    ensures ReadInvariant(t)
  {
    hide Mentions, Honest, Remembers;
    assert Remembers(s.log, Call(PolicyThread, s.requests + 1), CheckFlag) by {
      FreshIsForgotten(s.log, s.requests);
    }
    if t.policy.PolicyEnqueue? {
      assert t.requests == s.requests + 1;
    }
  }

  lemma FreshIsForgotten(log: Log, requests: nat)
    requires FreshAbove(log, requests)
    ensures Remembers(log, Call(PolicyThread, requests + 1), CheckFlag)
  {
    assert !Mentions(log, Call(PolicyThread, requests + 1));
  }

  lemma EnqueueReads(s: State, choice: Choice)
    requires ReadInvariant(s) && s.policy.PolicyEnqueue?
    ensures ReadInvariant(EnqueueStep(s, s.policy.at, s.policy.resume, choice))
  {
    var call := Call(PolicyThread, s.requests);
    EnqueueStepFrame(s, s.policy.at, s.policy.resume, choice);
    match s.policy.at
    case CheckFlag => hide Mentions, Honest, FreshAbove;
    case CheckControl =>
      AppendRead(s.log, call, s.inControl);
      hide Honest, Reads, Submits;
    case SetFlag => hide Mentions, Honest, FreshAbove;
    case Submit =>
      AppendStop(s.log, call, DefaultStop(call));
      hide Honest, Reads, Submits;
  }

  lemma RpcReads(c: Config, s: State, raises: bool)
    requires ReadInvariant(s) && RpcStep(c, s, raises).Some?
    ensures ReadInvariant(RpcStep(c, s, raises).value)
  {
    var call := Call(RpcThread, 0);
    match s.rpc
    case RpcEnqueue(CheckControl) =>
      AppendRead(s.log, call, s.inControl);
      hide Honest, Reads, Submits;
    case RpcEnqueue(Submit) =>
      AppendStop(s.log, call, DefaultStop(call));
      AppendStop(s.log, call, GivenStop(call));
      hide Honest, Reads, Submits;
    case RpcEnqueue(CheckFlag) => hide Mentions, Honest, FreshAbove;
    case _ => hide Mentions, Honest, FreshAbove;
  }

  lemma StepReads(c: Config, s: State, a: Action)
    requires ReadInvariant(s) && Step(c, s, a).Some?
    ensures ReadInvariant(Step(c, s, a).value)
  {
    match a
    case RpcAct(raises) => hide ReadInvariant, RpcStep; RpcReads(c, s, raises);
    case RobotAct(_) => hide PolicyStep, RpcStep, Mentions, Honest, FreshAbove, Remembers;
    case PolicyAct(choice) =>
      hide RpcStep, ReadInvariant, LoopStep, EnqueueStep;
      if s.policy.PolicyEnqueue? {
        EnqueueReads(s, choice);
      } else {
        LoopStepFrame(c, s, choice);
        LoopReads(s, LoopStep(c, s, choice).value);
      }
  }

  lemma {:induction false} RunReads(c: Config, s: State, schedule: seq<Action>)
    requires ReadInvariant(s) && Exec(c, s, schedule).Some?
    ensures ReadInvariant(Exec(c, s, schedule).value)
    decreases |schedule|
  {
    hide Step, ReadInvariant;
    if schedule != [] {
      StepReads(c, s, schedule[0]);
      RunReads(c, Step(c, s, schedule[0]).value, schedule[1..]);
    }
  }

  /**
   Main result: no stop is submitted by a call that read the robot as out of control, only by one that read it in
   control.
   */
  lemma StopsSawControl(c: Config, s: State, call: Call)
    requires Reachable(c, s) && Submits(s.log, call)
    ensures Reads(s.log, call, true) && !Reads(s.log, call, false)
  {
    hide Exec, Reads, Submits, Init;
    var inControl, schedule :| Exec(c, Init(c, inControl), schedule) == Some(s);
    InitReads(c, inControl);
    RunReads(c, Init(c, inControl), schedule);
  }

  lemma InitReads(c: Config, inControl: bool)
    ensures ReadInvariant(Init(c, inControl))
  {
  }

  // --- A failed policy -----------------------------------------------------------------------------

  /** The flag is set, or the last request found the arm already out of control. */
  predicate StopSettled(s: State) {
    s.stopEnqueued || Reads(s.log, Call(PolicyThread, s.requests), false)
  }

  predicate FailureInvariant(c: Config, s: State) {
    s.policy.Exited? && s.progress.errored && c.stopOnPolicyError ==> StopSettled(s)
  }

  lemma RpcSettles(c: Config, s: State, raises: bool)
    requires FailureInvariant(c, s) && RpcStep(c, s, raises).Some?
    ensures FailureInvariant(c, RpcStep(c, s, raises).value)
  {
    var t := RpcStep(c, s, raises).value;
    assert t.policy == s.policy && t.progress == s.progress && t.requests == s.requests
        && (s.stopEnqueued ==> t.stopEnqueued);
    assert t.log == s.log || (t.log.More? && t.log.earlier == s.log);
    hide RpcStep;
  }

  lemma EnqueueSettles(c: Config, s: State, choice: Choice)
    requires s.policy.PolicyEnqueue? && (s.policy.at == Submit ==> s.stopEnqueued)
    ensures FailureInvariant(c, EnqueueStep(s, s.policy.at, s.policy.resume, choice))
  {
    EnqueueStepFrame(s, s.policy.at, s.policy.resume, choice);
    match s.policy.at
    case CheckFlag =>
    case CheckControl =>
    case SetFlag =>
    case Submit =>
  }

  lemma LoopSettles(c: Config, s: State, choice: Choice)
    requires EndInvariant(c, s) && !s.policy.PolicyEnqueue? && LoopStep(c, s, choice).Some?
    ensures FailureInvariant(c, LoopStep(c, s, choice).value)
  {
    hide Reads;
    match s.policy
    case ApplyCandidate(_) => hide EndInvariant, FactoryStep, SteppingStep;
    case ApplyReturned(_) => hide EndInvariant, FactoryStep, SteppingStep;
    case Factory => CallSetsNoError(s, choice); hide FactoryStep, SteppingStep;
    case Stepping => CallSetsNoError(s, choice); hide FactoryStep, SteppingStep;
    case _ => hide FactoryStep, SteppingStep, ApplyReference;
  }

  lemma CallSetsNoError(s: State, choice: Choice)
    ensures FactoryStep(s, choice).Some? ==> FactoryStep(s, choice).value.progress.errored == s.progress.errored
    ensures SteppingStep(s, choice).Some? ==> SteppingStep(s, choice).value.progress.errored == s.progress.errored
  {
  }

  lemma StepSettles(c: Config, s: State, a: Action)
    requires FailureInvariant(c, s) && EndInvariant(c, s) && RampInvariant(c, s) && Step(c, s, a).Some?
    ensures FailureInvariant(c, Step(c, s, a).value)
  {
    match a
    case RpcAct(raises) => hide FailureInvariant, RpcStep; RpcSettles(c, s, raises);
    case RobotAct(_) => hide PolicyStep, RpcStep, RampInvariant, EndInvariant;
    case PolicyAct(choice) =>
      assert s.policy.PolicyEnqueue? && s.policy.at == Submit ==> s.stopEnqueued;
      hide RpcStep, FailureInvariant, EndInvariant, RampInvariant, LoopStep, EnqueueStep;
      if s.policy.PolicyEnqueue? {
        EnqueueSettles(c, s, choice);
      } else {
        LoopSettles(c, s, choice);
      }
  }

  lemma {:induction false} RunSettles(c: Config, s: State, schedule: seq<Action>)
    requires FailureInvariant(c, s) && ThreadInvariant(c, s) && RampInvariant(c, s) && Exec(c, s, schedule).Some?
    ensures FailureInvariant(c, Exec(c, s, schedule).value)
    decreases |schedule|
  {
    hide Step, FailureInvariant, CountInvariant, EndInvariant, RampInvariant;
    if schedule != [] {
      StepSettles(c, s, schedule[0]);
      StepCounts(c, s, schedule[0]);
      RampStep(c, s, schedule[0]);
      RunSettles(c, Step(c, s, schedule[0]).value, schedule[1..]);
    }
  }

  lemma InitSettled(c: Config, inControl: bool)
    ensures FailureInvariant(c, Init(c, inControl))
  {
  }

  lemma ReachableSettles(c: Config, s: State)
    requires Reachable(c, s)
    ensures FailureInvariant(c, s)
  {
    hide Exec, Init, ThreadInvariant, RampInvariant, FailureInvariant;
    var inControl, schedule :| Exec(c, Init(c, inControl), schedule) == Some(s);
    InitCounts(c, inControl);
    InitRamp(c, inControl);
    InitSettled(c, inControl);
    RunSettles(c, Init(c, inControl), schedule);
  }

  /**
   A policy thread that died of an exception, with `stop_on_policy_error`, has set the stop event, and the flag
   is set or its own last request read the robot as out of control.
   */
  lemma FailedPolicySetsFlag(c: Config, s: State)
    requires Reachable(c, s) && s.policy.Exited? && s.progress.errored && c.stopOnPolicyError
    ensures s.stopEvent && StopSettled(s)
  {
    ReachableThread(c, s);
    ReachableSettles(c, s);
    hide Reachable, StopSettled;
  }
}
