/**
 What `_stop_enqueued` means (zero_franky/tracker_session.py). The flag is written before the stop motion is
 submitted, so it counts the submissions that the robot refused as well as those it took.
 */
module StopRefusals {
  import opened Wrappers
  import opened TrackerLifecycle

  // --- Submissions, taken and refused ------------------------------------------------------------

  predicate PolicyAtSubmit(s: State) {
    s.policy.PolicyEnqueue? && s.policy.at == Submit
  }

  predicate RpcAtSubmit(s: State) {
    s.rpc == RpcEnqueue(Submit)
  }

  /** Threads that have written the flag and not yet submitted. */
  function Pending(s: State): nat {
    (if PolicyAtSubmit(s) then 1 else 0) + (if RpcAtSubmit(s) then 1 else 0)
  }

  /** Stops the robot took. */
  function Submitted(log: Log): nat {
    DefaultStops(log) + GivenStops(log)
  }

  predicate PolicyRefused(s: State, a: Action) {
    a.PolicyAct? && PolicyAtSubmit(s) && (a.choice.Raise? || a.choice.RaiseCaught?)
  }

  predicate RpcRefused(s: State, a: Action) {
    a.RpcAct? && RpcAtSubmit(s) && a.raises
  }

  /** Refused submissions of the policy thread. */
  function PolicyRefusals(c: Config, s: State, schedule: seq<Action>): nat
    requires Exec(c, s, schedule).Some?
    decreases |schedule|
  {
    if schedule == [] then 0
    else Ones(PolicyRefused(s, schedule[0])) + PolicyRefusals(c, Step(c, s, schedule[0]).value, schedule[1..])
  }

  /** Refused submissions of the RPC thread. */
  function RpcRefusals(c: Config, s: State, schedule: seq<Action>): nat
    requires Exec(c, s, schedule).Some?
    decreases |schedule|
  {
    if schedule == [] then 0
    else Ones(RpcRefused(s, schedule[0])) + RpcRefusals(c, Step(c, s, schedule[0]).value, schedule[1..])
  }

  function Refusals(c: Config, s: State, schedule: seq<Action>): nat
    requires Exec(c, s, schedule).Some?
  {
    PolicyRefusals(c, s, schedule) + RpcRefusals(c, s, schedule)
  }

  /** An action at the submission that does not raise. */
  predicate Taken(s: State, a: Action) {
    (a.PolicyAct? && PolicyAtSubmit(s) && !PolicyRefused(s, a)) || (a.RpcAct? && RpcAtSubmit(s) && !RpcRefused(s, a))
  }

  function Acceptances(c: Config, s: State, schedule: seq<Action>): nat
    requires Exec(c, s, schedule).Some?
    decreases |schedule|
  {
    if schedule == [] then 0
    else Ones(Taken(s, schedule[0])) + Acceptances(c, Step(c, s, schedule[0]).value, schedule[1..])
  }

  // --- The account -----------------------------------------------------------------------------------

  /** With `p` and `r` refusals so far, the flag is set exactly when some thread got as far as submitting. */
  predicate FlagAccount(s: State, p: nat, r: nat) {
    s.stopEnqueued <==> Submitted(s.log) + p + r + Pending(s) > 0
  }

  /** Each thread gets as far as submitting at most once. */
  predicate OnceEach(s: State, p: nat, r: nat) {
    && DefaultStopsBy(s.log, PolicyThread) + p + Ones(PolicyCommitted(s)) <= 1
    && RpcTaken(s.log) + r + Ones(RpcCommitted(s)) <= 1
    && (s.rpc.NotCalled? || s.rpc.RpcEnqueue? ==> RpcTaken(s.log) + r == 0)
  }

  predicate Account(s: State, p: nat, r: nat) {
    FlagAccount(s, p, r) && OnceEach(s, p, r)
  }

  function RpcTaken(log: Log): nat {
    DefaultStopsBy(log, RpcThread) + GivenStops(log)
  }

  /** What one event adds to the counts. */
  lemma Appended(log: Log, e: Event)
    ensures
      var longer := More(log, e);
      && DefaultStopsBy(longer, PolicyThread)
         == DefaultStopsBy(log, PolicyThread) + Ones(e.DefaultStop? && e.call.thread == PolicyThread)
      && RpcTaken(longer) == RpcTaken(log) + Ones((e.DefaultStop? && e.call.thread == RpcThread) || e.GivenStop?)
  {
  }

  lemma SubmittedIs(log: Log)
    ensures Submitted(log) == DefaultStopsBy(log, PolicyThread) + RpcTaken(log)
  {
  }

  lemma PolicyAccount(c: Config, s: State, p: nat, r: nat, choice: Choice)
    requires Account(s, p, r) && PolicyStep(c, s, choice).Some?
    ensures
      var t, a := PolicyStep(c, s, choice).value, PolicyAct(choice);
      Account(t, p + Ones(PolicyRefused(s, a)), r) && Submitted(t.log) == Submitted(s.log) + Ones(Taken(s, a))
  {
    if s.policy.PolicyEnqueue? {
      PolicyEnqueueAccount(c, s, p, r, choice);
      hide Account, Submitted, EnqueueStep;
    } else {
      LoopStepFrame(c, s, choice);
      hide DefaultStopsBy, RpcTaken, Submitted, LoopStep, EnqueueStep;
    }
  }

  lemma PolicyEnqueueAccount(c: Config, s: State, p: nat, r: nat, choice: Choice)
    requires Account(s, p, r) && s.policy.PolicyEnqueue?
    ensures
      var t, a := EnqueueStep(s, s.policy.at, s.policy.resume, choice), PolicyAct(choice);
      Account(t, p + Ones(PolicyRefused(s, a)), r) && Submitted(t.log) == Submitted(s.log) + Ones(Taken(s, a))
  {
    SubmittedIs(s.log);
    SubmittedIs(EnqueueStep(s, s.policy.at, s.policy.resume, choice).log);
    Appended(s.log, DefaultStop(Call(PolicyThread, s.requests)));
    Appended(s.log, ControlRead(Call(PolicyThread, s.requests), s.inControl));
    hide DefaultStopsBy, RpcTaken, Submitted;
    match s.policy.at
    case CheckFlag =>
    case CheckControl =>
    case SetFlag =>
    case Submit =>
  }

  lemma RpcSubmitAccount(c: Config, s: State, p: nat, r: nat, raises: bool)
    requires Account(s, p, r) && RpcAtSubmit(s)
    ensures
      var t, a := RpcStep(c, s, raises).value, RpcAct(raises);
      Account(t, p, r + Ones(RpcRefused(s, a))) && Submitted(t.log) == Submitted(s.log) + Ones(Taken(s, a))
  {
    var t := RpcStep(c, s, raises).value;
    SubmittedIs(s.log);
    SubmittedIs(t.log);
    Appended(s.log, DefaultStop(Call(RpcThread, 0)));
    Appended(s.log, GivenStop(Call(RpcThread, 0)));
    hide DefaultStopsBy, RpcTaken, Submitted;
  }

  lemma RpcAccount(c: Config, s: State, p: nat, r: nat, raises: bool)
    requires Account(s, p, r) && RpcStep(c, s, raises).Some?
    ensures
      var t, a := RpcStep(c, s, raises).value, RpcAct(raises);
      Account(t, p, r + Ones(RpcRefused(s, a))) && Submitted(t.log) == Submitted(s.log) + Ones(Taken(s, a))
  {
    if RpcAtSubmit(s) {
      RpcSubmitAccount(c, s, p, r, raises);
      hide Account, Submitted, RpcStep;
    } else {
      SubmittedIs(s.log);
      SubmittedIs(RpcStep(c, s, raises).value.log);
      Appended(s.log, ControlRead(Call(RpcThread, 0), s.inControl));
      hide DefaultStopsBy, RpcTaken, Submitted;
      match s.rpc
      case NotCalled =>
      case RpcEnqueue(CheckFlag) =>
      case RpcEnqueue(CheckControl) =>
      case RpcEnqueue(SetFlag) =>
      case JoinMotion =>
      case JoinThread(_) =>
    }
  }

  lemma StepAccount(c: Config, s: State, p: nat, r: nat, a: Action)
    requires Account(s, p, r) && Step(c, s, a).Some?
    ensures
      var t := Step(c, s, a).value;
      && Account(t, p + Ones(PolicyRefused(s, a)), r + Ones(RpcRefused(s, a)))
      && Submitted(t.log) == Submitted(s.log) + Ones(Taken(s, a))
  {
    match a
    case PolicyAct(choice) => PolicyAccount(c, s, p, r, choice); hide Account, Submitted, PolicyStep, RpcStep;
    case RpcAct(raises) => RpcAccount(c, s, p, r, raises); hide Account, Submitted, PolicyStep, RpcStep;
    case RobotAct(_) => hide Submitted, RpcTaken, DefaultStopsBy, PolicyStep, RpcStep;
  }

  lemma {:induction false} RunAccount(c: Config, s: State, p: nat, r: nat, schedule: seq<Action>)
    requires Account(s, p, r) && Exec(c, s, schedule).Some?
    ensures
      var t := Exec(c, s, schedule).value;
      && Account(t, p + PolicyRefusals(c, s, schedule), r + RpcRefusals(c, s, schedule))
      && Submitted(t.log) == Submitted(s.log) + Acceptances(c, s, schedule)
    decreases |schedule|
  {
    hide Account, Step, Submitted, Taken, PolicyRefused, RpcRefused, Ones;
    if schedule != [] {
      var a := schedule[0];
      StepAccount(c, s, p, r, a);
      RunAccount(c, Step(c, s, a).value, p + Ones(PolicyRefused(s, a)), r + Ones(RpcRefused(s, a)), schedule[1..]);
    }
  }

  lemma InitAccount(c: Config, inControl: bool)
    ensures Account(Init(c, inControl), 0, 0) && Submitted(Init(c, inControl).log) == 0
  {
    SubmittedIs(Empty);
  }

  lemma AccountFrom(c: Config, start: State, schedule: seq<Action>)
    requires Account(start, 0, 0) && Submitted(start.log) == 0 && Exec(c, start, schedule).Some?
    ensures
      var s := Exec(c, start, schedule).value;
      && (s.stopEnqueued <==> Submitted(s.log) + Refusals(c, start, schedule) + Pending(s) > 0)
      && Submitted(s.log) == Acceptances(c, start, schedule)
      && DefaultStopsBy(s.log, PolicyThread) + PolicyRefusals(c, start, schedule) <= 1
      && DefaultStopsBy(s.log, RpcThread) + GivenStops(s.log) + RpcRefusals(c, start, schedule) <= 1
  {
    hide Exec, PolicyRefusals, RpcRefusals, Acceptances, DefaultStopsBy, GivenStops, Submitted, Pending;
    hide PolicyCommitted, RpcCommitted;
    RunAccount(c, start, 0, 0, schedule);
  }

  /**
   Main result: in every run the flag is set exactly when a stop was taken, refused or is about to be submitted;
   the log holds the stops that were taken; and each thread has at most one of these.
   */
  lemma FlagCountsAttempts(c: Config, inControl: bool, schedule: seq<Action>)
    requires Exec(c, Init(c, inControl), schedule).Some?
    ensures
      var start := Init(c, inControl);
      var s := Exec(c, start, schedule).value;
      && (s.stopEnqueued <==> Submitted(s.log) + Refusals(c, start, schedule) + Pending(s) > 0)
      && Submitted(s.log) == Acceptances(c, start, schedule)
      && DefaultStopsBy(s.log, PolicyThread) + PolicyRefusals(c, start, schedule) <= 1
      && DefaultStopsBy(s.log, RpcThread) + GivenStops(s.log) + RpcRefusals(c, start, schedule) <= 1
  {
    hide *;
    InitAccount(c, inControl);
    AccountFrom(c, Init(c, inControl), schedule);
  }

  /** Main result: without a refusal, the flag means that a stop was taken or is about to be submitted. */
  lemma FlagMeansStop(c: Config, inControl: bool, schedule: seq<Action>)
    requires Exec(c, Init(c, inControl), schedule).Some? && Refusals(c, Init(c, inControl), schedule) == 0
    ensures
      var s := Exec(c, Init(c, inControl), schedule).value;
      s.stopEnqueued <==> Submitted(s.log) >= 1 || PolicyAtSubmit(s) || RpcAtSubmit(s)
  {
    FlagCountsAttempts(c, inControl, schedule);
    hide Exec, Init, Refusals, Acceptances, Submitted;
  }

  /** Some submission was refused and none was taken. */
  predicate OnlyRefused(c: Config, s: State, schedule: seq<Action>)
    requires Exec(c, s, schedule).Some?
  {
    Refusals(c, s, schedule) > 0 && Acceptances(c, s, schedule) == 0
  }

  /**
   Main result: with no submission under way, the flag stands for nothing exactly when submissions were only refused.
   */
  lemma EmptyFlagIff(c: Config, inControl: bool, schedule: seq<Action>)
    requires Exec(c, Init(c, inControl), schedule).Some? && Pending(Exec(c, Init(c, inControl), schedule).value) == 0
    ensures
      var s := Exec(c, Init(c, inControl), schedule).value;
      s.stopEnqueued && Submitted(s.log) == 0 <==> OnlyRefused(c, Init(c, inControl), schedule)
  {
    FlagCountsAttempts(c, inControl, schedule);
    hide Exec, Init, Refusals, Acceptances, Submitted, Pending;
  }

  // --- Refusals do happen ------------------------------------------------------------------------------

  /** The log of a call that read the robot as in control. */
  function ReadOnce(call: Call): Log {
    More(Empty, ControlRead(call, true))
  }

  /** The states of a policy thread that asks for its first stop from `resume`, up to the submission. */
  lemma PolicyGetsToSubmit(c: Config, s: State, resume: Resume) returns (schedule: seq<Action>, t: State)
    requires s.policy == Requesting(resume) && s.requests == 0 && !s.stopEnqueued && s.inControl && s.log == Empty
    ensures Exec(c, s, schedule) == Some(t) && !(exists a :: a in schedule && a.RobotAct?)
    ensures
      t == s.(policy := PolicyEnqueue(Submit, resume), stopEvent := true, stopEnqueued := true, requests := 1,
              log := ReadOnce(Call(PolicyThread, 1)))
  {
    var s1 := s.(policy := PolicyEnqueue(CheckFlag, resume), stopEvent := true, requests := 1);
    var s2 := s1.(policy := PolicyEnqueue(CheckControl, resume));
    var s3 := s2.(policy := PolicyEnqueue(SetFlag, resume), log := ReadOnce(Call(PolicyThread, 1)));
    t := s3.(policy := PolicyEnqueue(Submit, resume), stopEnqueued := true);
    var go := PolicyAct(Go);
    assert [go, go, go, go][1..] == [go, go, go] && [go, go, go][1..] == [go, go] && [go, go][1..] == [go]
        && [go][1..] == [];
    assert Exec(c, s3, [go]) == Some(t);
    assert Exec(c, s2, [go, go]) == Some(t);
    assert Exec(c, s1, [go, go, go]) == Some(t);
    assert Exec(c, s, [go, go, go, go]) == Some(t);
    schedule := [go, go, go, go];
  }

  /** An uninterrupted stop over RPC that finds the flag set submits nothing and returns without an exception. */
  lemma RpcReturnsBehindFlag(c: Config, s: State) returns (schedule: seq<Action>)
    requires s.rpc.NotCalled? && s.stopEnqueued && !c.givenStop
    ensures Exec(c, s, schedule) == Some(s.(rpc := Returned(false), stopEvent := true))
    ensures !(exists a :: a in schedule && a != RpcAct(false))
  {
    var s1 := s.(rpc := RpcEnqueue(CheckFlag), stopEvent := true);
    var s2, s3 := s1.(rpc := JoinMotion), s1.(rpc := JoinThread(false));
    var s4 := s3.(rpc := Returned(false));
    var go := RpcAct(false);
    assert [go, go, go, go][1..] == [go, go, go] && [go, go, go][1..] == [go, go] && [go, go][1..] == [go]
        && [go][1..] == [];
    assert Exec(c, s3, [go]) == Some(s4);
    assert Exec(c, s2, [go, go]) == Some(s4);
    assert Exec(c, s1, [go, go, go]) == Some(s4);
    assert Exec(c, s, [go, go, go, go]) == Some(s4);
    schedule := [go, go, go, go];
  }

  lemma Extend(c: Config, inControl: bool, first: seq<Action>, s: State, second: seq<Action>, t: State)
    requires Exec(c, Init(c, inControl), first) == Some(s) && Exec(c, s, second) == Some(t)
    ensures Exec(c, Init(c, inControl), first + second) == Some(t)
  {
    ExecInTwoParts(c, Init(c, inControl), first, second);
  }

  /** The arm was in control from start to end, and nothing was submitted to stop it. */
  predicate Unstopped(s: State) {
    s.inControl && s.stopEvent && s.stopEnqueued && Submitted(s.log) == 0 && Pending(s) == 0
  }

  /**
   Main result: a stop over RPC can return without an exception, the arm in control all the time, and no stop
   submitted by anyone: the policy's own request was refused and the policy caught the exception.
   */
  lemma StopCanReturnUnstopped(c: Config) returns (schedule: seq<Action>, s: State)
    requires c.hasPolicy && !c.givenStop
    ensures Exec(c, Init(c, true), schedule) == Some(s) && !(exists a :: a in schedule && a.RobotAct?)
    ensures s.rpc == Returned(false) && Unstopped(s)
  {
    var start := Init(c, true);
    var asked := start.(policy := Requesting(InFactory));
    var ask := [PolicyAct(AskToStop)];
    assert ask[1..] == [];
    assert Exec(c, start, ask) == Some(asked);
    var first, ready := PolicyGetsToSubmit(c, asked, InFactory);
    var refused := ready.(policy := Factory);
    var refuse := [PolicyAct(RaiseCaught)];
    assert refuse[1..] == [];
    assert Exec(c, ready, refuse) == Some(refused);
    var last := RpcReturnsBehindFlag(c, refused);
    s := refused.(rpc := Returned(false));
    hide Exec, Step;
    Extend(c, true, ask, asked, first, ready);
    Extend(c, true, ask + first, ready, refuse, refused);
    Extend(c, true, ask + first + refuse, refused, last, s);
    schedule := ask + first + refuse + last;
  }

  /** The factory raises, and the handler is about to request a stop. */
  lemma FactoryFails(c: Config) returns (schedule: seq<Action>, s: State)
    requires c.hasPolicy && c.stopOnPolicyError
    ensures Exec(c, Init(c, true), schedule) == Some(s) && !(exists a :: a in schedule && a.RobotAct?)
    ensures
      var start := Init(c, true);
      s == start.(policy := Requesting(AtExit), progress := start.progress.(errored := true))
  {
    var start := Init(c, true);
    s := start.(policy := Requesting(AtExit), progress := start.progress.(errored := true));
    var go := PolicyAct(Go);
    schedule := [PolicyAct(Raise), go];
    assert schedule[1..] == [go] && [go][1..] == [];
    assert Exec(c, start.(policy := Handling), [go]) == Some(s);
    assert Exec(c, start, schedule) == Some(s);
  }

  /**
   Main result: a failed policy can end its thread with the flag set, the arm in control all the time, and no
   stop submitted: the exception handler's own request was refused.
   */
  lemma FailedPolicyCanLeaveArmRunning(c: Config) returns (schedule: seq<Action>, s: State)
    requires c.hasPolicy && c.stopOnPolicyError
    ensures Exec(c, Init(c, true), schedule) == Some(s) && !(exists a :: a in schedule && a.RobotAct?)
    ensures s.policy.Exited? && s.progress.errored && Unstopped(s)
  {
    var fail, asked := FactoryFails(c);
    var first, ready := PolicyGetsToSubmit(c, asked, AtExit);
    s := ready.(policy := Exited);
    var refuse := [PolicyAct(Raise)];
    assert refuse[1..] == [];
    assert Exec(c, ready, refuse) == Some(s);
    hide Exec, Step;
    Extend(c, true, fail, asked, first, ready);
    Extend(c, true, fail + first, ready, refuse, s);
    schedule := fail + first + refuse;
  }
}
