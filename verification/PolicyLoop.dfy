/**
 How the policy loop goes on and when it does not (zero_franky/tracker_session.py): what its two tests decide, where a
 stop request returns to, and that it streams for as long as nobody stops it and the arm stays in control.
 */
module PolicyLoop {
  import opened Wrappers
  import opened TrackerLifecycle
  import opened PolicyThread
  import opened PolicyDecisions

  // --- The two tests of the loop --------------------------------------------------------------------------

  /** The robot stays out of control. */
  predicate NeverRegains(schedule: seq<Action>) {
    forall k :: 0 <= k < |schedule| ==> schedule[k] != RobotAct(true)
  }

  predicate PolicyOnly(schedule: seq<Action>) {
    forall k :: 0 <= k < |schedule| ==> schedule[k].PolicyAct?
  }

  /** The thread has ended, or ends within `n` more steps of its own. */
  predicate EndDue(s: State, n: nat) {
    s.policy.Exited? || (s.policy.TestControl? && n >= 1) || (s.policy.TestEvent? && n >= 2)
  }

  lemma LostStep(c: Config, s: State, a: Action, n: nat)
    requires !s.inControl && a != RobotAct(true) && Step(c, s, a).Some?
    ensures !Step(c, s, a).value.inControl && Step(c, s, a).value.progress.steps == s.progress.steps
    ensures EndDue(s, n + Ones(a.PolicyAct?)) ==> EndDue(Step(c, s, a).value, n)
  {
    match a
    case PolicyAct(choice) =>
      if s.policy.PolicyEnqueue? {
        EnqueueStepFrame(s, s.policy.at, s.policy.resume, choice);
        hide LoopStep;
      } else {
        LostLoopStep(c, s, choice, n);
        hide LoopStep;
      }
    case RpcAct(_) => hide PolicyStep;
    case RobotAct(_) => hide PolicyStep, RpcStep;
  }

  lemma LostLoopStep(c: Config, s: State, choice: Choice, n: nat)
    requires !s.inControl && LoopStep(c, s, choice).Some?
    ensures
      var t := LoopStep(c, s, choice).value;
      !t.inControl && t.progress.steps == s.progress.steps && (EndDue(s, n + 1) ==> EndDue(t, n))
  {
    if s.policy.ApplyCandidate? || s.policy.ApplyReturned? || s.policy.Factory? || s.policy.Stepping? {
      CallsBeginNothing(c, s, choice);
      hide LoopStep;
    } else {
      hide FactoryStep, SteppingStep, ApplyReference;
    }
  }

  lemma CallsBeginNothing(c: Config, s: State, choice: Choice)
    requires s.policy.ApplyCandidate? || s.policy.ApplyReturned? || s.policy.Factory? || s.policy.Stepping?
    requires LoopStep(c, s, choice).Some?
    ensures
      var t := LoopStep(c, s, choice).value;
      t.inControl == s.inControl && t.progress.steps == s.progress.steps
  {
  }

  /**
   Main result: while the robot is out of control no step is begun, whatever the threads do, and a thread that is at
   the loop's tests ends within two steps.
   */
  lemma {:induction false} NoStepOutOfControl(c: Config, s: State, schedule: seq<Action>)
    requires !s.inControl && NeverRegains(schedule) && Exec(c, s, schedule).Some?
    ensures Exec(c, s, schedule).value.progress.steps == s.progress.steps
    ensures EndDue(s, PolicySteps(schedule)) ==> Exec(c, s, schedule).value.policy.Exited?
    decreases |schedule|
  {
    if schedule != [] {
      LostStep(c, s, schedule[0], PolicySteps(schedule[1..]));
      hide Step, EndDue;
      NoStepOutOfControl(c, Step(c, s, schedule[0]).value, schedule[1..]);
    }
  }

  /**
   Main result: undisturbed, the tests at the head of the loop end the thread if the event is set or the robot out of
   control, which is then remembered, and begin a step otherwise.
   */
  lemma TestsDecide(c: Config, s: State, schedule: seq<Action>)
    requires s.policy.TestEvent? && PolicyOnly(schedule) && Exec(c, s, schedule).Some?
    ensures
      var (t, n) := (Exec(c, s, schedule).value, |schedule|);
      && (n >= 1 && s.stopEvent ==> t == s.(policy := Exited))
      && (n >= 2 && !s.stopEvent && !s.inControl ==>
            t == s.(policy := Exited, progress := s.progress.(lostControl := true)))
      && (n == 2 && !s.stopEvent && s.inControl ==>
            t == s.(policy := Stepping, progress := s.progress.(steps := s.progress.steps + 1)))
  {
    hide FactoryStep, SteppingStep, ApplyReference, EnqueueStep;
    if schedule != [] {
      var s1 := Step(c, s, schedule[0]).value;
      if s.stopEvent {
        if schedule[1..] != [] {
          ExitedStays(c, s1, schedule[1..]);
        }
      } else if |schedule| >= 2 {
        var s2 := Step(c, s1, schedule[1]).value;
        assert schedule[1..][0] == schedule[1] && schedule[1..][1..] == schedule[2..];
        assert Exec(c, s1, schedule[1..]) == Exec(c, s2, schedule[2..]);
        if !s.inControl && schedule[2..] != [] {
          ExitedStays(c, s2, schedule[2..]);
        }
      }
    }
  }

  /** A thread that has ended takes no step. */
  lemma ExitedStays(c: Config, s: State, schedule: seq<Action>)
    requires s.policy.Exited? && PolicyOnly(schedule) && schedule != []
    ensures Exec(c, s, schedule).None?
  {
    hide FactoryStep, SteppingStep, ApplyReference, EnqueueStep;
    assert schedule[0].PolicyAct?;
  }

  // --- A round of the loop -----------------------------------------------------------------------------------

  /** A value that lets the loop go on. */
  predicate Streams(value: PolicyValue) {
    value.Hold? || value.Reference?
  }

  /** A round of the loop in which the step returns this value. */
  function Round(c: Config, value: PolicyValue): seq<Action> {
    var go := PolicyAct(Go);
    [go, go, PolicyAct(ReturnValue(value)), go, go] + (if c.paced then [go] else [])
  }

  lemma RoundGoes(c: Config, s: State, value: PolicyValue)
    requires s.policy.TestEvent? && !s.stopEvent && s.inControl && Streams(value)
    ensures
      Exec(c, s, Round(c, value))
      == Some(s.(progress := s.progress.(steps := s.progress.steps + 1, iterations := s.progress.iterations + 1,
                applied := s.progress.applied + 1)))
  {
    var go, p := PolicyAct(Go), s.progress;
    var s4 := s.(policy := Count, progress := p.(steps := p.steps + 1, applied := p.applied + 1));
    var rest := if c.paced then [go, go] else [go];
    assert Round(c, value) == [go, go, PolicyAct(ReturnValue(value)), go] + rest;
    RoundBegins(c, s, value, rest, s4);
    RoundEnds(c, s4);
    hide Exec;
  }

  /** From the count on. */
  lemma RoundEnds(c: Config, s: State)
    requires s.policy.Count?
    ensures
      Exec(c, s, if c.paced then [PolicyAct(Go), PolicyAct(Go)] else [PolicyAct(Go)])
      == Some(s.(policy := TestEvent, progress := s.progress.(iterations := s.progress.iterations + 1)))
  {
    var go := PolicyAct(Go);
    var counted := s.progress.(iterations := s.progress.iterations + 1);
    assert [go][1..] == [] && [go, go][1..] == [go];
    if c.paced {
      var s1 := s.(policy := Pace, progress := counted);
      assert Exec(c, s1, [go]) == Some(s1.(policy := TestEvent));
    }
  }

  /** Up to the point where the step's value has been applied. */
  lemma RoundBegins(c: Config, s: State, value: PolicyValue, rest: seq<Action>, applied: State)
    requires s.policy.TestEvent? && !s.stopEvent && s.inControl && Streams(value)
    requires
      applied == s.(policy := Count,
        progress := s.progress.(steps := s.progress.steps + 1, applied := s.progress.applied + 1))
    ensures
      Exec(c, s, [PolicyAct(Go), PolicyAct(Go), PolicyAct(ReturnValue(value)), PolicyAct(Go)] + rest)
      == Exec(c, applied, rest)
  {
    var go, ret := PolicyAct(Go), PolicyAct(ReturnValue(value));
    var begun := s.progress.(steps := s.progress.steps + 1);
    var s3 := s.(policy := ApplyReturned(value), progress := begun);
    var s2, s1 := s.(policy := Stepping, progress := begun), s.(policy := TestControl);
    var r3, r2, r1 := [go] + rest, [ret, go] + rest, [go, ret, go] + rest;
    var all := [go, go, ret, go] + rest;
    assert r3[1..] == rest && r2[1..] == r3 && r1[1..] == r2 && all[1..] == r1;
    assert Step(c, s, go) == Some(s1) && Step(c, s1, go) == Some(s2);
    assert Step(c, s2, ret) == Some(s3) && Step(c, s3, go) == Some(applied);
    hide Step;
    assert Exec(c, s3, r3) == Exec(c, applied, rest);
    assert Exec(c, s2, r2) == Exec(c, s3, r3);
    assert Exec(c, s1, r1) == Exec(c, s2, r2);
  }

  function Rounds(c: Config, values: seq<PolicyValue>): seq<Action> {
    if values == [] then [] else Round(c, values[0]) + Rounds(c, values[1..])
  }

  /**
   Main result: as long as the arm is in control and nobody asks to stop, the loop goes on for any number of rounds,
   each of them one step begun, one value applied and one iteration counted.
   */
  lemma {:induction false} StreamsOn(c: Config, s: State, values: seq<PolicyValue>)
    requires s.policy.TestEvent? && !s.stopEvent && s.inControl
    requires forall k :: 0 <= k < |values| ==> Streams(values[k])
    ensures
      var (p, n) := (s.progress, |values|);
      Exec(c, s, Rounds(c, values))
      == Some(s.(progress := p.(steps := p.steps + n, iterations := p.iterations + n, applied := p.applied + n)))
    decreases |values|
  {
    hide Exec, Round;
    if values == [] {
      NothingDone(c, s);
    } else {
      RoundGoes(c, s, values[0]);
      var t := Exec(c, s, Round(c, values[0])).value;
      ExecInTwoParts(c, s, Round(c, values[0]), Rounds(c, values[1..]));
      StreamsOn(c, t, values[1..]);
    }
  }

  lemma NothingDone(c: Config, s: State)
    ensures Exec(c, s, []) == Some(s)
  {
  }

  // --- Where a stop request returns to ---------------------------------------------------------------------------

  /** Where the thread goes on after the stop request that this statement makes. */
  function After(pc: PolicyPc): PolicyPc {
    match pc
    case ApplyCandidate(_) => TestEvent
    case ApplyReturned(_) => Count
    case Handling => Exited
    case _ => pc
  }

  /** An action that lets a request begin at this statement. */
  predicate Begins(c: Config, pc: PolicyPc, choice: Choice) {
    match pc
    case Factory => choice.AskToStop?
    case Stepping => choice.AskToStop?
    case ApplyCandidate(value) => value.StopRequest?
    case ApplyReturned(value) => value.StopRequest?
    case Handling => c.stopOnPolicyError
    case _ => false
  }

  /** The steps of a request that nothing disturbs: it ends early behind the flag, or out of control. */
  function Request(s: State): seq<Action> {
    var go := PolicyAct(Go);
    if s.stopEnqueued then [go, go] else if !s.inControl then [go, go, go] else [go, go, go, go, go]
  }

  function RequestLog(s: State): Log {
    var call := Call(PolicyThread, s.requests + 1);
    if s.stopEnqueued then s.log
    else if !s.inControl then More(s.log, ControlRead(call, false))
    else More(More(s.log, ControlRead(call, true)), DefaultStop(call))
  }

  lemma RequestGoes(c: Config, s: State, resume: Resume)
    requires s.policy == Requesting(resume)
    ensures
      Exec(c, s, Request(s))
      == Some(s.(policy := Continue(resume), stopEvent := true, stopEnqueued := s.stopEnqueued || s.inControl,
                requests := s.requests + 1, log := RequestLog(s)))
  {
    var go := PolicyAct(Go);
    var s1 := s.(policy := PolicyEnqueue(CheckFlag, resume), stopEvent := true, requests := s.requests + 1);
    var s2 := s1.(policy := PolicyEnqueue(CheckControl, resume));
    assert [go][1..] == [] && [go, go][1..] == [go] && [go, go, go][1..] == [go, go];
    if s.stopEnqueued {
      assert Exec(c, s1, [go]) == Some(s1.(policy := Continue(resume)));
    } else if !s.inControl {
      var end := s1.(policy := Continue(resume), log := RequestLog(s));
      assert Exec(c, s2, [go]) == Some(end);
      assert Exec(c, s1, [go, go]) == Some(end);
    } else {
      var s3 := s2.(policy := PolicyEnqueue(SetFlag, resume), log := More(s.log, ControlRead(Call(PolicyThread,
          s.requests + 1), true)));
      var s4 := s3.(policy := PolicyEnqueue(Submit, resume), stopEnqueued := true);
      var end := s4.(policy := Continue(resume), log := RequestLog(s));
      assert [go, go, go, go][1..] == [go, go, go] && [go, go, go, go, go][1..] == [go, go, go, go];
      assert Exec(c, s4, [go]) == Some(end);
      assert Exec(c, s3, [go, go]) == Some(end);
      assert Exec(c, s2, [go, go, go]) == Some(end);
      assert Exec(c, s1, [go, go, go, go]) == Some(end);
    }
  }

  lemma RequestBegins(c: Config, s: State, choice: Choice)
    requires Begins(c, s.policy, choice)
    ensures PolicyStep(c, s, choice).Some?
    ensures
      var t := PolicyStep(c, s, choice).value;
      && t.policy.Requesting? && Continue(t.policy.resume) == After(s.policy)
      && t.log == s.log && t.requests == s.requests && t.stopEnqueued == s.stopEnqueued && t.inControl == s.inControl
  {
  }

  /** A request depends on the flag, the robot, the log and the requests before it only. */
  lemma RequestSame(s: State, t: State)
    requires t.log == s.log && t.requests == s.requests
    requires t.stopEnqueued == s.stopEnqueued && t.inControl == s.inControl
    ensures Request(t) == Request(s) && RequestLog(t) == RequestLog(s)
  {
  }

  /**
   Main result: a stop request that nothing disturbs or refuses sets the event and comes back to where it was made: to
   the policy call that asked for it, to the loop after a value that says so, and to the end after a failure. It
   submits a stop and sets the flag if the flag was unset and the arm in control, and submits nothing otherwise.
   */
  lemma RequestReturns(c: Config, s: State, choice: Choice)
    requires Begins(c, s.policy, choice)
    ensures Exec(c, s, [PolicyAct(choice)] + Request(s)).Some?
    ensures
      var t := Exec(c, s, [PolicyAct(choice)] + Request(s)).value;
      && t.policy == After(s.policy) && t.stopEvent && t.requests == s.requests + 1
      && t.stopEnqueued == (s.stopEnqueued || s.inControl) && t.log == RequestLog(s)
  {
    var schedule := [PolicyAct(choice)] + Request(s);
    assert schedule[0] == PolicyAct(choice) && schedule[1..] == Request(s);
    RequestBegins(c, s, choice);
    hide PolicyStep, Begins, After;
    RequestSame(s, PolicyStep(c, s, choice).value);
    hide Request, RequestLog;
    var t := PolicyStep(c, s, choice).value;
    RequestGoes(c, t, t.policy.resume);
  }
}
