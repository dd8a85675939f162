/**
 What a policy's calls and returned values lead to (zero_franky/tracker_session.py): which of them stop the tracker,
 which end the thread with an error and which go on, over every schedule of the machine in `TrackerLifecycle`.
 */
module PolicyDecisions {
  import opened Wrappers
  import opened TrackerLifecycle
  import opened PolicyThread

  // --- Reading a schedule ----------------------------------------------------------------------------

  /** The policy thread's steps in a schedule. */
  function PolicySteps(schedule: seq<Action>): nat
    decreases |schedule|
  {
    if schedule == [] then 0 else (if schedule[0].PolicyAct? then 1 else 0) + PolicySteps(schedule[1..])
  }

  /** How its first step goes. */
  function FirstChoice(schedule: seq<Action>): Choice
    decreases |schedule|
  {
    if schedule == [] then Go
    else if schedule[0].PolicyAct? then schedule[0].choice
    else FirstChoice(schedule[1..])
  }

  // --- A stop or an error that is due -------------------------------------------------------------------

  predicate StopComes(c: Config, value: PolicyValue, n: nat) {
    (value.StopRequest? && n >= 2) || (value.Malformed? && c.stopOnPolicyError && n >= 3)
  }

  /** The event is set within `n` more steps of the policy thread. */
  predicate StopDue(c: Config, s: State, n: nat) {
    || s.stopEvent
    || match s.policy
       case ApplyCandidate(value) => StopComes(c, value, n)
       case ApplyReturned(value) => StopComes(c, value, n)
       case Requesting(_) => n >= 1
       case Handling => c.stopOnPolicyError && n >= 2
       case _ => false
  }

  /** The error is kept within `n` more steps of the policy thread. */
  predicate ErrorDue(s: State, n: nat) {
    || s.progress.errored
    || match s.policy
       case ApplyCandidate(value) => value.Malformed? && n >= 2
       case ApplyReturned(value) => value.Malformed? && n >= 2
       case Handling => n >= 1
       case _ => false
  }

  /** What steps of the RPC thread and of the robot leave alone. */
  lemma OthersKeep(c: Config, s: State, a: Action)
    requires !a.PolicyAct? && Step(c, s, a).Some?
    ensures
      var t := Step(c, s, a).value;
      && t.policy == s.policy && t.progress == s.progress && t.requests == s.requests
      && (s.stopEvent ==> t.stopEvent)
  {
    hide PolicyStep;
  }

  lemma PolicyStepDue(c: Config, s: State, choice: Choice, n: nat)
    requires n > 0 && PolicyStep(c, s, choice).Some?
    ensures StopDue(c, s, n) ==> StopDue(c, PolicyStep(c, s, choice).value, n - 1)
    ensures ErrorDue(s, n) ==> ErrorDue(PolicyStep(c, s, choice).value, n - 1)
  {
    if s.policy.PolicyEnqueue? {
      EnqueueStepFrame(s, s.policy.at, s.policy.resume, choice);
      hide EnqueueStep, LoopStep;
    } else {
      LoopStepFrame(c, s, choice);
      LoopDue(c, s, choice, n);
      hide LoopStep, StopDue, ErrorDue;
    }
  }

  lemma LoopDue(c: Config, s: State, choice: Choice, n: nat)
    requires n > 0 && LoopStep(c, s, choice).Some?
    ensures StopDue(c, s, n) ==> StopDue(c, LoopStep(c, s, choice).value, n - 1)
    ensures ErrorDue(s, n) ==> ErrorDue(LoopStep(c, s, choice).value, n - 1)
  {
    LoopStepFrame(c, s, choice);
    if s.policy.ApplyCandidate? || s.policy.ApplyReturned? {
      ApplyStep(c, s, choice);
      hide LoopStep;
    } else if s.policy.Factory? || s.policy.Stepping? {
      CallStep(c, s, choice);
      hide LoopStep;
    } else {
      PlainStep(c, s, choice);
      hide LoopStep;
    }
  }

  /** A value that ends the thread with an error, given how applying it goes. */
  predicate Fails(value: PolicyValue, choice: Choice) {
    value.Malformed? || (value.Reference? && choice.Raise?)
  }

  /** One step in which a value is applied. */
  lemma ApplyStep(c: Config, s: State, choice: Choice)
    requires s.policy.ApplyCandidate? || s.policy.ApplyReturned?
    ensures LoopStep(c, s, choice).Some?
    ensures
      var t := LoopStep(c, s, choice).value;
      var value := if s.policy.ApplyCandidate? then s.policy.candidate else s.policy.returned;
      && t.requests == s.requests && t.progress.errored == s.progress.errored && t.stopEvent == s.stopEvent
      && t.rpc == s.rpc
      && (value.StopRequest? ==> t.policy.Requesting?)
      && (Fails(value, choice) ==> t.policy.Handling?)
      && (!value.StopRequest? && !Fails(value, choice) ==>
            t.policy == if s.policy.ApplyCandidate? then TestEvent else Count)
  {
  }

  /** One step that neither applies a value nor is inside a policy call. */
  lemma PlainStep(c: Config, s: State, choice: Choice)
    requires LoopStep(c, s, choice).Some?
    requires !s.policy.ApplyCandidate? && !s.policy.ApplyReturned? && !s.policy.Factory? && !s.policy.Stepping?
    ensures
      var t := LoopStep(c, s, choice).value;
      && t.rpc == s.rpc
      && if s.policy.Requesting? then t.policy.PolicyEnqueue? && t.requests == s.requests + 1 && t.stopEvent
         else
           && t.requests == s.requests && t.stopEvent == s.stopEvent
           && if s.policy.Handling? then
                t.policy == (if c.stopOnPolicyError then Requesting(AtExit) else Exited) && t.progress.errored
              else
                t.policy.Exited? || t.policy.TestControl? || t.policy.TestEvent? || t.policy.Stepping? || t.policy.Pace?
    ensures s.progress.errored ==> LoopStep(c, s, choice).value.progress.errored
  {
    hide FactoryStep, SteppingStep, ApplyReference;
  }

  /** One step inside a policy call. */
  lemma CallStep(c: Config, s: State, choice: Choice)
    requires (s.policy.Factory? || s.policy.Stepping?) && LoopStep(c, s, choice).Some?
    ensures
      var t := LoopStep(c, s, choice).value;
      && t.requests == s.requests && t.progress.errored == s.progress.errored && t.stopEvent == s.stopEvent
      && t.rpc == s.rpc
      && match choice
         case AskToStop => t.policy.Requesting?
         case Raise => t.policy.Handling?
         case Quit => t.policy.Exited?
         case ReturnValue(value) =>
           t.policy == if s.policy.Factory? then ApplyCandidate(value) else ApplyReturned(value)
         case ReturnCallable => t.policy == if s.policy.Factory? then TestEvent else ApplyReturned(Malformed)
         case _ => false
  {
  }

  lemma {:induction false} RunDue(c: Config, s: State, schedule: seq<Action>)
    requires Exec(c, s, schedule).Some?
    ensures StopDue(c, s, PolicySteps(schedule)) ==> Exec(c, s, schedule).value.stopEvent
    ensures ErrorDue(s, PolicySteps(schedule)) ==> Exec(c, s, schedule).value.progress.errored
    decreases |schedule|
  {
    hide PolicyStep, RpcStep;
    if schedule != [] {
      var t := Step(c, s, schedule[0]).value;
      if schedule[0].PolicyAct? {
        PolicyStepDue(c, s, schedule[0].choice, PolicySteps(schedule));
        hide StopDue, ErrorDue;
      } else {
        OthersKeep(c, s, schedule[0]);
        hide Step;
      }
      RunDue(c, t, schedule[1..]);
    }
  }

  /** Without a step of its own the policy thread stays where it is. */
  lemma {:induction false} NoPolicyStep(c: Config, s: State, schedule: seq<Action>)
    requires Exec(c, s, schedule).Some? && PolicySteps(schedule) == 0
    ensures
      var t := Exec(c, s, schedule).value;
      t.policy == s.policy && t.progress == s.progress && t.requests == s.requests
    decreases |schedule|
  {
    hide Step;
    if schedule != [] {
      OthersKeep(c, s, schedule[0]);
      NoPolicyStep(c, Step(c, s, schedule[0]).value, schedule[1..]);
    }
  }

  /** The first step of the policy thread in a schedule, with what the other threads do before and after it. */
  lemma {:induction false} FirstStep(c: Config, s: State, schedule: seq<Action>)
      returns (before: State, rest: seq<Action>)
    requires Exec(c, s, schedule).Some? && PolicySteps(schedule) > 0
    ensures before.policy == s.policy && before.progress == s.progress && before.requests == s.requests
    ensures PolicyStep(c, before, FirstChoice(schedule)).Some? && PolicySteps(rest) == PolicySteps(schedule) - 1
    ensures Exec(c, PolicyStep(c, before, FirstChoice(schedule)).value, rest) == Exec(c, s, schedule)
    decreases |schedule|
  {
    hide PolicyStep, RpcStep;
    if schedule[0].PolicyAct? {
      before, rest := s, schedule[1..];
    } else {
      OthersKeep(c, s, schedule[0]);
      hide Step;
      before, rest := FirstStep(c, Step(c, s, schedule[0]).value, schedule[1..]);
    }
  }

  // --- What applying a value leads to ----------------------------------------------------------------------

  /**
   Main result: from any state in which a value of the policy is about to be applied, whatever else happens, a stop
   request sets the event within two steps of the thread. A malformed value, or a reference that raises, keeps an
   error within two and, with `stop_on_policy_error`, sets the event within three. Any other value only lets the
   thread go on: no request is made and no error kept.
   */
  lemma AppliedValueDecides(c: Config, s: State, value: PolicyValue, schedule: seq<Action>)
    requires s.policy == ApplyCandidate(value) || s.policy == ApplyReturned(value)
    requires Exec(c, s, schedule).Some?
    ensures
      var (t, n, first) := (Exec(c, s, schedule).value, PolicySteps(schedule), FirstChoice(schedule));
      && (value.StopRequest? && n >= 2 ==> t.stopEvent)
      && (Fails(value, first) && n >= 2 ==> t.progress.errored)
      && (Fails(value, first) && n >= 3 && c.stopOnPolicyError ==> t.stopEvent)
      && (!value.StopRequest? && !Fails(value, first) && n == 1 ==>
            && t.policy == (if s.policy.ApplyCandidate? then TestEvent else Count)
            && t.requests == s.requests && t.progress.errored == s.progress.errored)
  {
    var n := PolicySteps(schedule);
    if n >= 1 {
      var before, rest := FirstStep(c, s, schedule);
      var t := PolicyStep(c, before, FirstChoice(schedule)).value;
      ApplyStep(c, before, FirstChoice(schedule));
      hide Exec, LoopStep, EnqueueStep, Fails;
      RunDue(c, t, rest);
      if n == 1 {
        NoPolicyStep(c, t, rest);
      }
    }
  }

  /**
   Main result: the same from inside a policy call. Asking to stop sets the event in the next step; an exception
   keeps an error in the next, if the handler catches it, and ends the thread at once if not; and what is returned is
   what is applied next, a callable being the policy when it comes from the factory and malformed when it does not.
   */
  lemma PolicyCallDecides(c: Config, s: State, schedule: seq<Action>)
    requires s.policy.Factory? || s.policy.Stepping?
    requires Exec(c, s, schedule).Some? && PolicySteps(schedule) > 0
    ensures
      var (t, n, first) := (Exec(c, s, schedule).value, PolicySteps(schedule), FirstChoice(schedule));
      && (first.AskToStop? && n >= 2 ==> t.stopEvent)
      && (first.Raise? && n >= 2 ==> t.progress.errored)
      && (first.Raise? && n >= 3 && c.stopOnPolicyError ==> t.stopEvent)
      && (first.Quit? && n == 1 ==> t.policy.Exited? && t.requests == s.requests)
      && (first.ReturnValue? && n == 1 ==>
            t.policy == if s.policy.Factory? then ApplyCandidate(first.value) else ApplyReturned(first.value))
      && (first.ReturnCallable? && n == 1 ==>
            t.policy == if s.policy.Factory? then TestEvent else ApplyReturned(Malformed))
      && (first.ReturnValue? && first.value.StopRequest? && n >= 3 ==> t.stopEvent)
      && (first.ReturnValue? && first.value.Malformed? && n >= 3 ==> t.progress.errored)
  {
    var n := PolicySteps(schedule);
    var before, rest := FirstStep(c, s, schedule);
    var t := PolicyStep(c, before, FirstChoice(schedule)).value;
    CallStep(c, before, FirstChoice(schedule));
    hide Exec, LoopStep, EnqueueStep;
    RunDue(c, t, rest);
    if n == 1 {
      NoPolicyStep(c, t, rest);
    }
  }

  // --- Every stop request has a cause -----------------------------------------------------------------------

  /** An action that makes the policy thread request a stop, sooner or later. */
  predicate Causes(c: Config, s: State, a: Action) {
    a.PolicyAct?
    && match s.policy
       case Factory =>
         a.choice.AskToStop? || a.choice == ReturnValue(StopRequest)
         || (c.stopOnPolicyError && (a.choice.Raise? || a.choice == ReturnValue(Malformed)))
       case Stepping =>
         a.choice.AskToStop? || a.choice == ReturnValue(StopRequest)
         || (c.stopOnPolicyError && (a.choice.Raise? || a.choice.ReturnCallable? || a.choice == ReturnValue(Malformed)))
       case ApplyCandidate(value) => value.Reference? && a.choice.Raise? && c.stopOnPolicyError
       case ApplyReturned(value) => value.Reference? && a.choice.Raise? && c.stopOnPolicyError
       case PolicyEnqueue(Submit, resume) =>
         c.stopOnPolicyError && !resume.AtExit?
         && (a.choice.Raise? || (a.choice.RaiseCaught? && !resume.InFactory? && !resume.InStep?))
       case _ => false
  }

  function CausesIn(c: Config, s: State, schedule: seq<Action>): nat
    requires Exec(c, s, schedule).Some?
    decreases |schedule|
  {
    if schedule == [] then 0
    else Ones(Causes(c, s, schedule[0])) + CausesIn(c, Step(c, s, schedule[0]).value, schedule[1..])
  }

  /** The thread is on its way to a stop request. */
  predicate OnTheWay(c: Config, pc: PolicyPc) {
    match pc
    case ApplyCandidate(value) => value.StopRequest? || (value.Malformed? && c.stopOnPolicyError)
    case ApplyReturned(value) => value.StopRequest? || (value.Malformed? && c.stopOnPolicyError)
    case Requesting(_) => true
    case Handling => c.stopOnPolicyError
    case _ => false
  }

  predicate EventAccount(s: State) {
    s.stopEvent <==> s.requests > 0 || !s.rpc.NotCalled?
  }

  lemma LoopCauses(c: Config, s: State, choice: Choice)
    requires LoopStep(c, s, choice).Some?
    ensures
      var t := LoopStep(c, s, choice).value;
      t.requests + Ones(OnTheWay(c, t.policy))
      == s.requests + Ones(OnTheWay(c, s.policy)) + Ones(Causes(c, s, PolicyAct(choice)))
    ensures EventAccount(s) ==> EventAccount(LoopStep(c, s, choice).value)
  {
    if s.policy.ApplyCandidate? || s.policy.ApplyReturned? {
      ApplyStep(c, s, choice);
      hide LoopStep;
    } else if s.policy.Factory? || s.policy.Stepping? {
      CallStep(c, s, choice);
      hide LoopStep;
    } else {
      PlainStep(c, s, choice);
      hide LoopStep;
    }
  }

  lemma EnqueueCauses(c: Config, s: State, choice: Choice)
    requires s.policy.PolicyEnqueue?
    ensures
      var t := EnqueueStep(s, s.policy.at, s.policy.resume, choice);
      t.requests + Ones(OnTheWay(c, t.policy)) == s.requests + Ones(Causes(c, s, PolicyAct(choice)))
  {
  }

  lemma StepCauses(c: Config, s: State, a: Action)
    requires Step(c, s, a).Some?
    ensures
      var t := Step(c, s, a).value;
      t.requests + Ones(OnTheWay(c, t.policy)) == s.requests + Ones(OnTheWay(c, s.policy)) + Ones(Causes(c, s, a))
    ensures EventAccount(s) ==> EventAccount(Step(c, s, a).value)
  {
    match a
    case PolicyAct(choice) =>
      if s.policy.PolicyEnqueue? {
        EnqueueCauses(c, s, choice);
        EnqueueStepFrame(s, s.policy.at, s.policy.resume, choice);
        hide EnqueueStep, Causes;
      } else {
        LoopCauses(c, s, choice);
        hide LoopStep, Causes, OnTheWay, EventAccount;
      }
    case RpcAct(_) => hide PolicyStep;
    case RobotAct(_) => hide PolicyStep, RpcStep;
  }

  lemma {:induction false} RunCauses(c: Config, s: State, schedule: seq<Action>)
    requires Exec(c, s, schedule).Some? && EventAccount(s)
    ensures
      var t := Exec(c, s, schedule).value;
      && t.requests + Ones(OnTheWay(c, t.policy))
         == s.requests + Ones(OnTheWay(c, s.policy)) + CausesIn(c, s, schedule)
      && EventAccount(t)
    decreases |schedule|
  {
    hide Step, OnTheWay, Causes, EventAccount;
    if schedule != [] {
      StepCauses(c, s, schedule[0]);
      RunCauses(c, Step(c, s, schedule[0]).value, schedule[1..]);
    }
  }

  /**
   Main result: in every run the policy thread has requested a stop, or is on its way to, once for each cause: a call
   that asked for it, a value that says so and, with `stop_on_policy_error`, a failure. The event is set exactly when
   it has requested one or a stop over RPC was called.
   */
  lemma RequestsHaveCauses(c: Config, inControl: bool, schedule: seq<Action>)
    requires Exec(c, Init(c, inControl), schedule).Some?
    ensures
      var s := Exec(c, Init(c, inControl), schedule).value;
      && s.requests + Ones(OnTheWay(c, s.policy)) == CausesIn(c, Init(c, inControl), schedule)
      && (s.stopEvent <==> s.requests > 0 || !s.rpc.NotCalled?)
  {
    hide Exec, CausesIn;
    RunCauses(c, Init(c, inControl), schedule);
  }
}
