/** Which stops over RPC meet an exception, and that each of them joins (zero_franky/tracker_session.py). */
module StopJoins {
  import opened Wrappers
  import opened TrackerLifecycle
  import opened StopRefusals

  /** An exception that a stop over RPC meets: its submission is refused, or the motion it joins has failed. */
  predicate Fails(s: State, a: Action) {
    a == RpcAct(true) && (s.rpc == RpcEnqueue(Submit) || s.rpc == JoinMotion)
  }

  predicate Joins(s: State, a: Action) {
    a.RpcAct? && s.rpc == JoinMotion
  }

  function RpcSteps(schedule: seq<Action>): nat
    decreases |schedule|
  {
    if schedule == [] then 0 else Ones(schedule[0].RpcAct?) + RpcSteps(schedule[1..])
  }

  function FailuresIn(c: Config, s: State, schedule: seq<Action>): nat
    requires Exec(c, s, schedule).Some?
    decreases |schedule|
  {
    if schedule == [] then 0
    else Ones(Fails(s, schedule[0])) + FailuresIn(c, Step(c, s, schedule[0]).value, schedule[1..])
  }

  function JoinsIn(c: Config, s: State, schedule: seq<Action>): nat
    requires Exec(c, s, schedule).Some?
    decreases |schedule|
  {
    if schedule == [] then 0
    else Ones(Joins(s, schedule[0])) + JoinsIn(c, Step(c, s, schedule[0]).value, schedule[1..])
  }

  predicate Raised(rpc: RpcPc) {
    rpc == JoinThread(true) || rpc == Returned(true)
  }

  /** The motion has been joined, or the stop failed before that. */
  predicate PastMotion(rpc: RpcPc) {
    rpc.JoinThread? || rpc.Returned?
  }

  /** Statements of the stop already behind it, at most. */
  function Done(rpc: RpcPc): nat {
    match rpc
    case NotCalled => 0
    case RpcEnqueue(CheckFlag) => 1
    case RpcEnqueue(CheckControl) => 2
    case RpcEnqueue(SetFlag) => 3
    case RpcEnqueue(Submit) => 4
    case JoinMotion => 5
    case JoinThread(_) => 6
    case Returned(_) => 7
  }

  lemma RpcAccount(c: Config, s: State, a: Action)
    requires Step(c, s, a).Some?
    ensures
      var t := Step(c, s, a).value;
      && Ones(Raised(t.rpc)) == Ones(Raised(s.rpc)) + Ones(Fails(s, a))
      && Ones(PastMotion(t.rpc))
         == Ones(PastMotion(s.rpc)) + Ones(Joins(s, a)) + Ones(RpcRefused(s, a))
      && Done(t.rpc) >= Done(s.rpc) + Ones(a.RpcAct?)
  {
    hide LoopStep, EnqueueStep;
    match a
    case PolicyAct(choice) => PolicyLeavesRpc(c, s, choice); hide PolicyStep;
    case RpcAct(_) => hide PolicyStep;
    case RobotAct(_) => hide PolicyStep, RpcStep;
  }

  lemma PolicyLeavesRpc(c: Config, s: State, choice: Choice)
    requires PolicyStep(c, s, choice).Some?
    ensures PolicyStep(c, s, choice).value.rpc == s.rpc
  {
    if !s.policy.PolicyEnqueue? {
      LoopStepFrame(c, s, choice);
      hide LoopStep;
    }
  }

  lemma {:induction false} RunAccount(c: Config, s: State, schedule: seq<Action>)
    requires Exec(c, s, schedule).Some?
    ensures
      var t := Exec(c, s, schedule).value;
      && Ones(Raised(t.rpc)) == Ones(Raised(s.rpc)) + FailuresIn(c, s, schedule)
      && Ones(PastMotion(t.rpc)) == Ones(PastMotion(s.rpc)) + JoinsIn(c, s, schedule) + RpcRefusals(c, s, schedule)
      && Done(t.rpc) >= Done(s.rpc) + RpcSteps(schedule)
    decreases |schedule|
  {
    hide Step, Raised, PastMotion, Done, Fails, Joins, RpcRefused;
    if schedule != [] {
      RpcAccount(c, s, schedule[0]);
      RunAccount(c, Step(c, s, schedule[0]).value, schedule[1..]);
    }
  }

  /**
   Main result: in every run a stop over RPC is raising, or has raised, exactly when its submission was refused or the
   motion it joined had failed, and it meets one such exception at most.
   */
  lemma StopRaisesIff(c: Config, inControl: bool, schedule: seq<Action>)
    requires Exec(c, Init(c, inControl), schedule).Some?
    ensures
      var s := Exec(c, Init(c, inControl), schedule).value;
      && (s.rpc == JoinThread(true) || s.rpc == Returned(true) <==> FailuresIn(c, Init(c, inControl), schedule) > 0)
      && FailuresIn(c, Init(c, inControl), schedule) <= 1
  {
    hide Exec, FailuresIn, JoinsIn, RpcRefusals, RpcSteps;
    RunAccount(c, Init(c, inControl), schedule);
  }

  /**
   Main result: a stop over RPC has come to wait for the policy thread, or has returned, exactly when it has joined
   the motion, whatever it read before, or its submission was refused; never both, and never twice. It takes at most
   seven steps.
   */
  lemma StopJoinsOnce(c: Config, inControl: bool, schedule: seq<Action>)
    requires Exec(c, Init(c, inControl), schedule).Some?
    ensures
      var (start, s) := (Init(c, inControl), Exec(c, Init(c, inControl), schedule).value);
      && JoinsIn(c, start, schedule) + RpcRefusals(c, start, schedule) == Ones(s.rpc.JoinThread? || s.rpc.Returned?)
      && RpcSteps(schedule) <= 7
  {
    hide Exec, FailuresIn, JoinsIn, RpcRefusals, RpcSteps;
    RunAccount(c, Init(c, inControl), schedule);
  }
}
