/**
 The policy thread and the RPC thread of one tracker session (zero_franky/tracker_session.py),
 as a step machine. Each step is one statement of one thread, or a change of the robot's
 `is_in_control` flag, which the environment may flip at any time. Nothing is locked.
 */
module TrackerLifecycle {
  import opened Wrappers

  // --- Data -----------------------------------------------------------------------------

  /** What a policy call hands back, as `_apply_reference` tells the cases apart. */
  datatype PolicyValue = Hold | StopRequest | Reference | Malformed

  /** Statements of `_enqueue_stop_motion`: the flag test, the control test, the flag write, the submission. */
  datatype EnqueuePc = CheckFlag | CheckControl | SetFlag | Submit

  /** Where the policy thread continues once a stop request returns. */
  datatype Resume = InFactory | InStep | BeforeLoop | BeforeCount | AtExit

  datatype PolicyPc =
    | Factory
    | ApplyCandidate(candidate: PolicyValue)
    | TestEvent
    | TestControl
    | Stepping
    | ApplyReturned(returned: PolicyValue)
    | Count
    | Pace
    | Handling
    | Requesting(resume: Resume)
    | PolicyEnqueue(at: EnqueuePc, resume: Resume)
    | Exited

  datatype RpcPc =
    | NotCalled
    | RpcEnqueue(at: EnqueuePc)
    | JoinMotion
    | JoinThread(raising: bool)
    | Returned(raised: bool)

  datatype Thread = PolicyThread | RpcThread

  /** One execution of `_enqueue_stop_motion`: the n-th by its thread. */
  datatype Call = Call(thread: Thread, n: nat)

  datatype Event =
    | ControlRead(call: Call, inControl: bool)
    | DefaultStop(call: Call)
    | GivenStop(call: Call)

  /** `hasPolicy` is false for passthrough; `givenStop` says the RPC stop names its own motion. */
  datatype Config = Config(hasPolicy: bool, stopOnPolicyError: bool, paced: bool, givenStop: bool)

  /** The session's history, newest event last. */
  datatype Log = Empty | More(earlier: Log, event: Event)

  datatype Progress = Progress(
    direct: bool,        // the factory returned a value, so it is the step function itself
    steps: nat,          // loop steps begun
    iterations: nat,     // the session's `_iterations`
    applied: nat,        // values given to `_apply_reference`
    errored: bool,       // the session's `_error` is set
    lostControl: bool,   // the loop test read the robot as out of control
    quit: bool)          // a policy call raised past the exception handler

  /** `requests` counts the stop requests the policy thread has made. */
  datatype State = State(
    stopEvent: bool, stopEnqueued: bool, inControl: bool, policy: PolicyPc, rpc: RpcPc, requests: nat,
    progress: Progress, log: Log)

  /**
   `RaiseCaught` is a failed submission inside a policy call that catches the exception; `Quit` an exception like
   `SystemExit`, which the handler does not catch and which ends the thread.
   */
  datatype Choice = Go | AskToStop | ReturnCallable | ReturnValue(value: PolicyValue) | Raise | RaiseCaught | Quit

  datatype Action = PolicyAct(choice: Choice) | RpcAct(raises: bool) | RobotAct(inControl: bool)

  function Init(c: Config, inControl: bool): State {
    State(false, false, inControl, if c.hasPolicy then Factory else Exited, NotCalled, 0,
        Progress(false, 0, 0, 0, false, false, false), Empty)
  }

  // --- Steps ------------------------------------------------------------------------------

  function Continue(resume: Resume): PolicyPc {
    match resume
    case InFactory => Factory
    case InStep => Stepping
    case BeforeLoop => TestEvent
    case BeforeCount => Count
    case AtExit => Exited
  }

  /**
   Where an exception out of a stop request lands: only a policy call can catch it, and the handler's ends the thread.
   */
  function Unwind(resume: Resume, caught: bool): PolicyPc {
    if (resume == InFactory || resume == InStep) && caught then Continue(resume)
    else if resume == AtExit then Exited
    else Handling
  }

  /** `_apply_reference` on the policy thread; `raises` is a failure while setting the reference. */
  function ApplyReference(s: State, value: PolicyValue, raises: bool, resume: Resume): State {
    var s := s.(progress := s.progress.(applied := s.progress.applied + 1));
    match value
    case Hold => s.(policy := Continue(resume))
    case StopRequest => s.(policy := Requesting(resume))
    case Malformed => s.(policy := Handling)
    case Reference => s.(policy := if raises then Handling else Continue(resume))
  }

  /** Inside `self._policy_factory(ctx)`. */
  function FactoryStep(s: State, choice: Choice): Option<State> {
    match choice
    case AskToStop => Some(s.(policy := Requesting(InFactory)))
    case ReturnCallable => Some(s.(policy := TestEvent))
    case ReturnValue(value) => Some(s.(policy := ApplyCandidate(value), progress := s.progress.(direct := true)))
    case Raise => Some(s.(policy := Handling))
    case Quit => Some(s.(policy := Exited, progress := s.progress.(quit := true)))
    case _ => None
  }

  /** Inside `policy(ctx)`. */
  function SteppingStep(s: State, choice: Choice): Option<State> {
    match choice
    case AskToStop => Some(s.(policy := Requesting(InStep)))
    case ReturnValue(value) => Some(s.(policy := ApplyReturned(value)))
    case ReturnCallable => Some(s.(policy := ApplyReturned(Malformed)))
    case Raise => Some(s.(policy := Handling))
    case Quit => Some(s.(policy := Exited, progress := s.progress.(quit := true)))
    case _ => None
  }

  /** The policy thread outside `_enqueue_stop_motion`. */
  function LoopStep(c: Config, s: State, choice: Choice): Option<State> {
    match s.policy
    case Factory => FactoryStep(s, choice)
    case ApplyCandidate(value) => Some(ApplyReference(s, value, choice.Raise?, BeforeLoop))
    case TestEvent => Some(s.(policy := if s.stopEvent then Exited else TestControl))
    case TestControl =>
      Some(if s.inControl then s.(policy := Stepping, progress := s.progress.(steps := s.progress.steps + 1))
           else s.(policy := Exited, progress := s.progress.(lostControl := true)))
    case Stepping => SteppingStep(s, choice)
    case ApplyReturned(value) => Some(ApplyReference(s, value, choice.Raise?, BeforeCount))
    case Count =>
      Some(s.(policy := if c.paced then Pace else TestEvent,
          progress := s.progress.(iterations := s.progress.iterations + 1)))
    case Pace => Some(s.(policy := TestEvent))
    case Handling => Some(s.(policy := if c.stopOnPolicyError then Requesting(AtExit) else Exited,
        progress := s.progress.(errored := true)))
    case Requesting(resume) =>
      Some(s.(policy := PolicyEnqueue(CheckFlag, resume), stopEvent := true, requests := s.requests + 1))
    case _ => None
  }

  /** The policy thread inside `_enqueue_stop_motion(None)`. */
  function EnqueueStep(s: State, at: EnqueuePc, resume: Resume, choice: Choice): State {
    var call := Call(PolicyThread, s.requests);
    match at
    case CheckFlag => s.(policy := if s.stopEnqueued then Continue(resume) else PolicyEnqueue(CheckControl, resume))
    case CheckControl =>
      s.(policy := if s.inControl then PolicyEnqueue(SetFlag, resume) else Continue(resume),
         log := More(s.log, ControlRead(call, s.inControl)))
    case SetFlag => s.(policy := PolicyEnqueue(Submit, resume), stopEnqueued := true)
    case Submit =>
      if choice.Raise? || choice.RaiseCaught? then s.(policy := Unwind(resume, choice.RaiseCaught?))
      else s.(policy := Continue(resume), log := More(s.log, DefaultStop(call)))
  }

  function PolicyStep(c: Config, s: State, choice: Choice): Option<State> {
    match s.policy
    case PolicyEnqueue(at, resume) => Some(EnqueueStep(s, at, resume, choice))
    case _ => LoopStep(c, s, choice)
  }

  function RpcStep(c: Config, s: State, raises: bool): Option<State> {
    var call := Call(RpcThread, 0);
    match s.rpc
    case NotCalled => Some(s.(rpc := RpcEnqueue(if c.givenStop then CheckControl else CheckFlag), stopEvent := true))
    case RpcEnqueue(CheckFlag) => Some(s.(rpc := if s.stopEnqueued then JoinMotion else RpcEnqueue(CheckControl)))
    case RpcEnqueue(CheckControl) =>
      Some(s.(rpc := if s.inControl then RpcEnqueue(SetFlag) else JoinMotion,
          log := More(s.log, ControlRead(call, s.inControl))))
    case RpcEnqueue(SetFlag) => Some(s.(rpc := RpcEnqueue(Submit), stopEnqueued := true))
    case RpcEnqueue(Submit) =>
      if raises then Some(s.(rpc := JoinThread(true)))
      else Some(s.(rpc := JoinMotion, log := More(s.log, if c.givenStop then GivenStop(call) else DefaultStop(call))))
    case JoinMotion => Some(s.(rpc := JoinThread(raises)))
    case JoinThread(raising) => Some(s.(rpc := Returned(raising)))
    case Returned(_) => None
  }

  function Step(c: Config, s: State, a: Action): Option<State> {
    match a
    case PolicyAct(choice) => PolicyStep(c, s, choice)
    case RpcAct(raises) => RpcStep(c, s, raises)
    case RobotAct(inControl) => Some(s.(inControl := inControl))
  }

  /** Runs a schedule; None when some action in it is not enabled. */
  function Exec(c: Config, s: State, schedule: seq<Action>): Option<State>
    decreases |schedule|
  {
    if schedule == [] then Some(s)
    else
      match Step(c, s, schedule[0])
      case None => None
      case Some(next) => Exec(c, next, schedule[1..])
  }

  ghost predicate Reachable(c: Config, s: State) {
    exists inControl, schedule :: Exec(c, Init(c, inControl), schedule) == Some(s)
  }

  // --- Reading the log ---------------------------------------------------------------------

  function Ones(b: bool): nat {
    if b then 1 else 0
  }

  function DefaultStopsBy(log: Log, thread: Thread): nat {
    match log
    case Empty => 0
    case More(rest, last) =>
      DefaultStopsBy(rest, thread) + (if last.DefaultStop? && last.call.thread == thread then 1 else 0)
  }

  function GivenStops(log: Log): nat {
    match log
    case Empty => 0
    case More(rest, last) => GivenStops(rest) + (if last.GivenStop? then 1 else 0)
  }

  function DefaultStops(log: Log): nat {
    DefaultStopsBy(log, PolicyThread) + DefaultStopsBy(log, RpcThread)
  }

  lemma AppendToLog(log: Log, e: Event)
    ensures forall t ::
          DefaultStopsBy(More(log, e), t)
          == DefaultStopsBy(log, t) + (if e.DefaultStop? && e.call.thread == t then 1 else 0)
    ensures GivenStops(More(log, e)) == GivenStops(log) + (if e.GivenStop? then 1 else 0)
  {
  }
  // --- At most one ramp per thread ------------------------------------------------------------

  predicate PolicyCommitted(s: State) {
    s.policy.PolicyEnqueue? && s.policy.at != CheckFlag
  }

  predicate RpcCommitted(s: State) {
    s.rpc.RpcEnqueue? && s.rpc.at != CheckFlag
  }

  predicate RampInvariant(c: Config, s: State) {
    && DefaultStopsBy(s.log, PolicyThread) + (if PolicyCommitted(s) then 1 else 0) <= 1
    && (DefaultStopsBy(s.log, PolicyThread) == 1 ==> s.stopEnqueued)
    && DefaultStopsBy(s.log, RpcThread) + GivenStops(s.log) <= 1
    && (s.rpc.NotCalled? || s.rpc.RpcEnqueue? ==> DefaultStopsBy(s.log, RpcThread) + GivenStops(s.log) == 0)
    && (if c.givenStop then DefaultStopsBy(s.log, RpcThread) == 0 else GivenStops(s.log) == 0)
    && (DefaultStopsBy(s.log, RpcThread) + GivenStops(s.log) == 1 ==> s.stopEnqueued)
    && ((s.policy.PolicyEnqueue? && s.policy.at == Submit) || s.rpc == RpcEnqueue(Submit) ==> s.stopEnqueued)
    && (s.stopEnqueued ==> s.stopEvent)
    && (s.policy.PolicyEnqueue? || !s.rpc.NotCalled? ==> s.stopEvent)
  }

  /** What a policy thread step outside `_enqueue_stop_motion` leaves alone. */
  predicate LoopFrame(s: State, t: State) {
    && t.log == s.log && t.rpc == s.rpc && t.stopEnqueued == s.stopEnqueued && t.inControl == s.inControl
    && (s.stopEvent ==> t.stopEvent)
    && (t.policy.PolicyEnqueue? ==> t.policy.at == CheckFlag && t.stopEvent && t.requests == s.requests + 1)
    && (!t.policy.PolicyEnqueue? ==> t.requests == s.requests && t.stopEvent == s.stopEvent)
  }

  lemma CallFrame(s: State, choice: Choice)
    ensures FactoryStep(s, choice).Some? ==> LoopFrame(s, FactoryStep(s, choice).value)
    ensures SteppingStep(s, choice).Some? ==> LoopFrame(s, SteppingStep(s, choice).value)
  {
  }

  lemma ApplyFrame(s: State, value: PolicyValue, raises: bool, resume: Resume)
    ensures LoopFrame(s, ApplyReference(s, value, raises, resume))
  {
  }

  lemma LoopStepFrame(c: Config, s: State, choice: Choice)
    requires LoopStep(c, s, choice).Some?
    ensures LoopFrame(s, LoopStep(c, s, choice).value)
  {
    match s.policy
    case Factory => CallFrame(s, choice); hide *;
    case Stepping => CallFrame(s, choice); hide *;
    case ApplyCandidate(value) => ApplyFrame(s, value, choice.Raise?, BeforeLoop); hide *;
    case ApplyReturned(value) => ApplyFrame(s, value, choice.Raise?, BeforeCount); hide *;
    case _ => hide FactoryStep, SteppingStep, ApplyReference;
  }

  lemma PolicyRampStep(c: Config, s: State, choice: Choice)
    requires RampInvariant(c, s) && PolicyStep(c, s, choice).Some?
    ensures RampInvariant(c, PolicyStep(c, s, choice).value)
  {
    hide DefaultStopsBy, GivenStops, RpcCommitted, LoopStep;
    if s.policy.PolicyEnqueue? {
      AppendToLog(s.log, DefaultStop(Call(PolicyThread, s.requests)));
      AppendToLog(s.log, ControlRead(Call(PolicyThread, s.requests), s.inControl));
    } else {
      LoopStepFrame(c, s, choice);
    }
  }

  lemma RpcRampStep(c: Config, s: State, raises: bool)
    requires RampInvariant(c, s) && RpcStep(c, s, raises).Some?
    ensures RampInvariant(c, RpcStep(c, s, raises).value)
  {
    AppendToLog(s.log, DefaultStop(Call(RpcThread, 0)));
    AppendToLog(s.log, GivenStop(Call(RpcThread, 0)));
    AppendToLog(s.log, ControlRead(Call(RpcThread, 0), s.inControl));
    hide DefaultStopsBy, GivenStops, RpcCommitted;
    match s.rpc
    case NotCalled =>
    case RpcEnqueue(CheckFlag) =>
    case RpcEnqueue(CheckControl) =>
    case RpcEnqueue(SetFlag) =>
    case RpcEnqueue(Submit) =>
    case JoinMotion =>
    case JoinThread(_) =>
    case Returned(_) =>
  }

  lemma RampStep(c: Config, s: State, a: Action)
    requires RampInvariant(c, s) && Step(c, s, a).Some?
    ensures RampInvariant(c, Step(c, s, a).value)
  {
    hide DefaultStopsBy, GivenStops, PolicyStep, RpcStep;
    match a
    case PolicyAct(choice) => PolicyRampStep(c, s, choice);
    case RpcAct(raises) => RpcRampStep(c, s, raises);
    case RobotAct(_) =>
  }

  lemma {:induction false} RampRun(c: Config, s: State, schedule: seq<Action>)
    requires RampInvariant(c, s) && Exec(c, s, schedule).Some?
    ensures RampInvariant(c, Exec(c, s, schedule).value)
    decreases |schedule|
  {
    if schedule != [] {
      RampStep(c, s, schedule[0]);
      RampRun(c, Step(c, s, schedule[0]).value, schedule[1..]);
    }
  }

  lemma ReachableKeepsInvariant(c: Config, s: State)
    requires Reachable(c, s)
    ensures RampInvariant(c, s)
  {
    hide DefaultStopsBy, GivenStops, Exec, Init, RampInvariant;
    var inControl, schedule :| Exec(c, Init(c, inControl), schedule) == Some(s);
    InitRamp(c, inControl);
    RampRun(c, Init(c, inControl), schedule);
  }

  /**
   Main result: under every interleaving each thread submits at most one default stop, so at
   most two are submitted in all, and a given stop motion is submitted at most once.
   */
  lemma AtMostOneRampPerThread(c: Config, s: State)
    requires Reachable(c, s)
    ensures DefaultStopsBy(s.log, PolicyThread) <= 1 && DefaultStopsBy(s.log, RpcThread) <= 1
        && DefaultStops(s.log) <= 2
    ensures GivenStops(s.log) <= (if c.givenStop then 1 else 0)
    ensures c.givenStop || !c.hasPolicy ==> DefaultStops(s.log) <= 1
  {
    ReachableKeepsInvariant(c, s);
    hide DefaultStopsBy, GivenStops, Exec, Init, RampInvariant;
    RampBounds(c, s);
    if !c.hasPolicy {
      var inControl, schedule :| Exec(c, Init(c, inControl), schedule) == Some(s);
      InitPassthrough(c, inControl);
      PassthroughRun(c, Init(c, inControl), schedule);
    }
  }

  lemma InitRamp(c: Config, inControl: bool)
    ensures RampInvariant(c, Init(c, inControl))
  {
  }

  lemma InitPassthrough(c: Config, inControl: bool)
    requires !c.hasPolicy
    ensures Init(c, inControl).policy.Exited? && DefaultStopsBy(Init(c, inControl).log, PolicyThread) == 0
  {
  }

  lemma RampBounds(c: Config, s: State)
    requires RampInvariant(c, s)
    ensures DefaultStopsBy(s.log, PolicyThread) <= 1 && DefaultStopsBy(s.log, RpcThread) + GivenStops(s.log) <= 1
    ensures if c.givenStop then DefaultStopsBy(s.log, RpcThread) == 0 else GivenStops(s.log) == 0
  {
    hide DefaultStopsBy, GivenStops;
  }

  lemma PassthroughStep(c: Config, s: State, a: Action)
    requires s.policy.Exited? && Step(c, s, a).Some?
    ensures Step(c, s, a).value.policy.Exited?
    ensures DefaultStopsBy(Step(c, s, a).value.log, PolicyThread) == DefaultStopsBy(s.log, PolicyThread)
  {
    hide LoopFrame, ApplyReference, EnqueueStep, FactoryStep, SteppingStep;
    match a
    case PolicyAct(choice) => assert false;
    case RpcAct(_) =>
    case RobotAct(_) =>
  }

  lemma {:induction false} PassthroughRun(c: Config, s: State, schedule: seq<Action>)
    requires s.policy.Exited? && Exec(c, s, schedule).Some?
    ensures DefaultStopsBy(Exec(c, s, schedule).value.log, PolicyThread) == DefaultStopsBy(s.log, PolicyThread)
    decreases |schedule|
  {
    hide DefaultStopsBy, Step;
    if schedule != [] {
      PassthroughStep(c, s, schedule[0]);
      PassthroughRun(c, Step(c, s, schedule[0]).value, schedule[1..]);
    }
  }

  // --- Two ramps: exactly when the two threads meet between the flag test and the flag write -----------

  /** Both threads have read the flag as false and neither has written it. */
  predicate Overlap(c: Config, s: State) {
    && s.policy.PolicyEnqueue? && (s.policy.at == CheckControl || s.policy.at == SetFlag)
    && s.rpc.RpcEnqueue? && (s.rpc.at == CheckControl || s.rpc.at == SetFlag) && !c.givenStop
  }

  predicate MeetsOverlap(c: Config, s: State, schedule: seq<Action>)
    decreases |schedule|
  {
    Overlap(c, s)
    || (schedule != [] && Step(c, s, schedule[0]).Some?
        && MeetsOverlap(c, Step(c, s, schedule[0]).value, schedule[1..]))
  }

  predicate OneRampInvariant(s: State) {
    && DefaultStops(s.log) + (if PolicyCommitted(s) then 1 else 0) + (if RpcCommitted(s) then 1 else 0) <= 1
    && (DefaultStops(s.log) >= 1 || (s.policy.PolicyEnqueue? && s.policy.at == Submit) || s.rpc == RpcEnqueue(Submit)
        ==> s.stopEnqueued)
  }

  lemma PolicyOneRampStep(c: Config, s: State, choice: Choice)
    requires !c.givenStop && OneRampInvariant(s) && PolicyStep(c, s, choice).Some?
        && !Overlap(c, PolicyStep(c, s, choice).value)
    ensures OneRampInvariant(PolicyStep(c, s, choice).value)
  {
    hide DefaultStopsBy, LoopStep;
    if s.policy.PolicyEnqueue? {
      AppendToLog(s.log, DefaultStop(Call(PolicyThread, s.requests)));
      AppendToLog(s.log, ControlRead(Call(PolicyThread, s.requests), s.inControl));
    } else {
      LoopStepFrame(c, s, choice);
    }
  }

  lemma RpcOneRampStep(c: Config, s: State, raises: bool)
    requires !c.givenStop && OneRampInvariant(s) && RpcStep(c, s, raises).Some?
        && !Overlap(c, RpcStep(c, s, raises).value)
    ensures OneRampInvariant(RpcStep(c, s, raises).value)
  {
    hide DefaultStopsBy;
    AppendToLog(s.log, DefaultStop(Call(RpcThread, 0)));
    AppendToLog(s.log, ControlRead(Call(RpcThread, 0), s.inControl));
    match s.rpc
    case RpcEnqueue(CheckFlag) =>
    case RpcEnqueue(CheckControl) =>
    case RpcEnqueue(SetFlag) =>
    case RpcEnqueue(Submit) =>
    case _ =>
  }

  lemma {:induction false} OneRampRun(c: Config, s: State, schedule: seq<Action>)
    requires !c.givenStop && OneRampInvariant(s) && Exec(c, s, schedule).Some? && !MeetsOverlap(c, s, schedule)
    ensures OneRampInvariant(Exec(c, s, schedule).value)
    decreases |schedule|
  {
    hide OneRampInvariant, PolicyStep, RpcStep, Overlap;
    if schedule != [] {
      var next := Step(c, s, schedule[0]).value;
      assert !Overlap(c, next);
      match schedule[0] {
        case PolicyAct(choice) => PolicyOneRampStep(c, s, choice);
        case RpcAct(raises) => RpcOneRampStep(c, s, raises);
        case RobotAct(inControl) => RobotKeepsOneRamp(s, inControl);
      }
      OneRampRun(c, next, schedule[1..]);
    }
  }

  lemma RobotKeepsOneRamp(s: State, inControl: bool)
    requires OneRampInvariant(s)
    ensures OneRampInvariant(s.(inControl := inControl))
  {
    hide DefaultStopsBy;
  }

  /** Main result: a run that never has both threads in the window submits at most one default stop. */
  lemma SecondRampNeedsOverlap(c: Config, inControl: bool, schedule: seq<Action>)
    requires Exec(c, Init(c, inControl), schedule).Some?
    requires DefaultStops(Exec(c, Init(c, inControl), schedule).value.log) > 1
    ensures MeetsOverlap(c, Init(c, inControl), schedule)
  {
    var s := Exec(c, Init(c, inControl), schedule).value;
    hide DefaultStops, DefaultStopsBy, GivenStops, Exec, Init, MeetsOverlap;
    AtMostOneRampPerThread(c, s);
    InitOneRamp(c, inControl);
    if !MeetsOverlap(c, Init(c, inControl), schedule) {
      OneRampRun(c, Init(c, inControl), schedule);
      hide PolicyCommitted, RpcCommitted;
    }
  }

  lemma InitOneRamp(c: Config, inControl: bool)
    ensures OneRampInvariant(Init(c, inControl))
  {
  }

  lemma {:induction false} ExecInTwoParts(c: Config, s: State, first: seq<Action>, second: seq<Action>)
    requires Exec(c, s, first).Some?
    ensures Exec(c, s, first + second) == Exec(c, Exec(c, s, first).value, second)
    decreases |first|
  {
    if first == [] {
      assert first + second == second;
    } else {
      assert (first + second)[1..] == first[1..] + second;
      hide Step;
      ExecInTwoParts(c, Step(c, s, first[0]).value, first[1..], second);
    }
  }

  /** The policy thread, past the flag test with the robot in control, submits its stop. */
  lemma PolicyFinishes(c: Config, s: State) returns (schedule: seq<Action>, t: State)
    requires s.policy.PolicyEnqueue? && (s.policy.at == CheckControl || s.policy.at == SetFlag) && s.inControl
    ensures Exec(c, s, schedule) == Some(t)
    ensures t.rpc == s.rpc && t.inControl && DefaultStops(t.log) == DefaultStops(s.log) + 1
    decreases s.policy.at == CheckControl
  {
    if s.policy.at == CheckControl {
      var next := EnqueueStep(s, CheckControl, s.policy.resume, Go);
      var rest: seq<Action>;
      rest, t := PolicyFinishes(c, next);
      schedule := [PolicyAct(Go)] + rest;
      assert schedule[1..] == rest;
    } else {
      var next := EnqueueStep(s, SetFlag, s.policy.resume, Go);
      t := EnqueueStep(next, Submit, s.policy.resume, Go);
      schedule := [PolicyAct(Go), PolicyAct(Go)];
      assert schedule[1..] == [PolicyAct(Go)] && schedule[1..][1..] == [];
      assert Exec(c, next, schedule[1..]) == Exec(c, t, []);
    }
  }

  lemma RpcFinishes(c: Config, s: State) returns (schedule: seq<Action>, t: State)
    requires !c.givenStop && s.rpc.RpcEnqueue? && (s.rpc.at == CheckControl || s.rpc.at == SetFlag) && s.inControl
    ensures Exec(c, s, schedule) == Some(t) && DefaultStops(t.log) == DefaultStops(s.log) + 1
    decreases s.rpc.at == CheckControl
  {
    if s.rpc.at == CheckControl {
      var next := RpcStep(c, s, false).value;
      var rest: seq<Action>;
      rest, t := RpcFinishes(c, next);
      schedule := [RpcAct(false)] + rest;
      assert schedule[1..] == rest;
    } else {
      var next := RpcStep(c, s, false).value;
      t := RpcStep(c, next, false).value;
      schedule := [RpcAct(false), RpcAct(false)];
      assert schedule[1..] == [RpcAct(false)] && schedule[1..][1..] == [];
      assert Exec(c, next, schedule[1..]) == Exec(c, t, []);
    }
  }

  /** Main result, the converse: from any reachable meeting in the window a second ramp can follow. */
  lemma OverlapAllowsSecondRamp(c: Config, s: State) returns (schedule: seq<Action>)
    requires Reachable(c, s) && Overlap(c, s)
    ensures Exec(c, s, schedule).Some? && DefaultStops(Exec(c, s, schedule).value.log) == 2
  {
    var ready := s.(inControl := true);
    assert Exec(c, s, [RobotAct(true)]) == Some(ready);
    var first, middle := PolicyFinishes(c, ready);
    var second, last := RpcFinishes(c, middle);
    ExecInTwoParts(c, ready, first, second);
    ExecInTwoParts(c, s, [RobotAct(true)], first + second);
    schedule := [RobotAct(true)] + (first + second);
    hide *;
    ReachableKeepsInvariant(c, s);
    NoStopYet(c, s);
  }

  lemma NoStopYet(c: Config, s: State)
    requires RampInvariant(c, s) && Overlap(c, s)
    ensures DefaultStops(s.log) == 0
  {
    hide DefaultStopsBy, GivenStops;
  }

  /** The meeting does happen: three statements of the policy thread, two of the RPC thread. */
  lemma OverlapHappens(c: Config) returns (s: State)
    requires c.hasPolicy && !c.givenStop
    ensures Reachable(c, s) && Overlap(c, s)
  {
    var start := Init(c, true);
    var s1 := start.(policy := Requesting(InFactory));
    var s2 := s1.(policy := PolicyEnqueue(CheckFlag, InFactory), stopEvent := true, requests := 1);
    var s3 := s2.(policy := PolicyEnqueue(CheckControl, InFactory));
    var s4 := s3.(rpc := RpcEnqueue(CheckFlag));
    s := s4.(rpc := RpcEnqueue(CheckControl));
    var r4 := [RpcAct(false)];
    var r3 := [RpcAct(false)] + r4;
    var r2 := [PolicyAct(Go)] + r3;
    var r1 := [PolicyAct(Go)] + r2;
    var r0 := [PolicyAct(AskToStop)] + r1;
    assert r0[1..] == r1 && r1[1..] == r2 && r2[1..] == r3 && r3[1..] == r4 && r4[1..] == [];
    assert Exec(c, s4, r4) == Some(s);
    assert Exec(c, s3, r3) == Some(s);
    assert Exec(c, s2, r2) == Some(s);
    assert Exec(c, s1, r1) == Some(s);
    assert Exec(c, start, r0) == Some(s);
  }

  /** Schedules in which no thread moves while the other is inside `_enqueue_stop_motion` past the flag test. */
  predicate Atomic(c: Config, s: State, schedule: seq<Action>)
    decreases |schedule|
  {
    schedule == []
    || (&& (schedule[0].PolicyAct? ==> !RpcCommitted(s))
        && (schedule[0].RpcAct? ==> !PolicyCommitted(s))
        && Step(c, s, schedule[0]).Some? && Atomic(c, Step(c, s, schedule[0]).value, schedule[1..]))
  }

  lemma {:induction false} AtomicNeverOverlaps(c: Config, s: State, schedule: seq<Action>)
    requires Atomic(c, s, schedule) && !(PolicyCommitted(s) && RpcCommitted(s))
    ensures Exec(c, s, schedule).Some? && !MeetsOverlap(c, s, schedule)
    decreases |schedule|
  {
    if schedule != [] {
      OtherThreadUnmoved(c, s, schedule[0]);
      var next := Step(c, s, schedule[0]).value;
      hide Step;
      AtomicNeverOverlaps(c, next, schedule[1..]);
    }
  }

  lemma OtherThreadUnmoved(c: Config, s: State, a: Action)
    requires Step(c, s, a).Some?
    ensures !a.RpcAct? ==> Step(c, s, a).value.rpc == s.rpc
    ensures !a.PolicyAct? ==> Step(c, s, a).value.policy == s.policy
  {
    match a
    case PolicyAct(choice) =>
      hide LoopStep;
      if !s.policy.PolicyEnqueue? {
        LoopStepFrame(c, s, choice);
      }
    case RpcAct(_) => hide PolicyStep;
    case RobotAct(_) => hide PolicyStep, RpcStep;
  }

  /** Main result: with the enqueue run as a single step there is at most one default stop per session. */
  lemma AtomicEnqueueRampsOnce(c: Config, inControl: bool, schedule: seq<Action>)
    requires Atomic(c, Init(c, inControl), schedule)
    ensures Exec(c, Init(c, inControl), schedule).Some?
    ensures DefaultStops(Exec(c, Init(c, inControl), schedule).value.log) <= 1
  {
    hide Exec, Atomic, MeetsOverlap, DefaultStops;
    AtomicNeverOverlaps(c, Init(c, inControl), schedule);
    if DefaultStops(Exec(c, Init(c, inControl), schedule).value.log) > 1 {
      SecondRampNeedsOverlap(c, inControl, schedule);
    }
  }

  // --- The flag outlives a refused submission -----------------------------------------------------

  /** The flag is set and no thread is past its test, nor will be: a stop with a motion of its own does not test it. */
  predicate Shut(c: Config, s: State) {
    && s.stopEnqueued && !PolicyCommitted(s) && !RpcCommitted(s)
    && (c.givenStop ==> !s.rpc.NotCalled? && !s.rpc.RpcEnqueue?)
  }

  lemma StepBehindFlag(c: Config, s: State, a: Action)
    requires Shut(c, s) && Step(c, s, a).Some?
    ensures Shut(c, Step(c, s, a).value) && Step(c, s, a).value.log == s.log
  {
    match a
    case PolicyAct(choice) =>
      hide LoopStep, RpcStep;
      if !s.policy.PolicyEnqueue? {
        LoopStepFrame(c, s, choice);
      }
    case RpcAct(_) => hide PolicyStep;
    case RobotAct(_) => hide PolicyStep, RpcStep;
  }

  /**
   Main result: once the flag is set and no thread is past its test, the log never grows again, even if the
   submission that set the flag was refused and so no stop was ever submitted.
   */
  lemma {:induction false} FlagBlocksLaterRamps(c: Config, s: State, schedule: seq<Action>)
    requires Shut(c, s) && Exec(c, s, schedule).Some?
    ensures Exec(c, s, schedule).value.log == s.log
    decreases |schedule|
  {
    hide Step, Shut;
    if schedule != [] {
      StepBehindFlag(c, s, schedule[0]);
      FlagBlocksLaterRamps(c, Step(c, s, schedule[0]).value, schedule[1..]);
    }
  }
}
