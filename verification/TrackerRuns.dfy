/** Whole runs of the client's `tick()`: pacing, timesteps, soundness and detection (zero_franky/zmq_client.py). */
module TrackerRuns {
  import opened Wrappers
  import opened Pacing
  import opened TrackerProxy

  datatype ProxyCall = TickCall(input: TickInput) | StopCall

  function CallOnce(p: Proxy, call: ProxyCall): Proxy {
    match call
    case TickCall(input) => Tick(p, input).0
    case StopCall => p.(stopped := true)
  }

  function After(p: Proxy, calls: seq<ProxyCall>): Proxy
    decreases |calls|
  {
    if calls == [] then p else After(CallOnce(p, calls[0]), calls[1..])
  }

  /** The clock only moves forward, and a sleep lasts at least as long as asked. */
  predicate Timely(p: Proxy, now: real, input: TickInput) {
    && now <= input.entry <= input.paced <= input.checked <= input.returned
    && (p.period.Some? && p.tickCount > 0 && p.next > input.entry ==> input.paced >= p.next)
  }

  function Later(p: Proxy, now: real, call: ProxyCall): real {
    if call.TickCall? && ReachesCheck(p, call.input) then call.input.returned else now
  }

  predicate TimelyRun(p: Proxy, now: real, calls: seq<ProxyCall>)
    decreases |calls|
  {
    calls != [] ==>
      && (calls[0].TickCall? && ReachesCheck(p, calls[0].input) ==> Timely(p, now, calls[0].input))
      && TimelyRun(CallOnce(p, calls[0]), Later(p, now, calls[0]), calls[1..])
  }

  // --- Pacing and timesteps --------------------------------------------------------------------

  predicate Beats(p: Proxy, call: ProxyCall) {
    call.TickCall? && Tick(p, call.input).1.Timestep?
  }

  function BeatOf(p: Proxy, input: TickInput): Beat
    requires Tick(p, input).1.Timestep?
  {
    Beat(input.returned, if p.period.Some? then NextAnchor(p, input) - p.period.value else input.paced,
        Tick(p, input).1.dt)
  }

  /** The beats of a run: one for every timestep returned. */
  function BeatsOf(p: Proxy, calls: seq<ProxyCall>): seq<Beat>
    decreases |calls|
  {
    if calls == [] then []
    else
      (if Beats(p, calls[0]) then [BeatOf(p, calls[0].input)] else []) + BeatsOf(CallOnce(p, calls[0]), calls[1..])
  }

  /** Facts about one tick that the run needs: it keeps the period, and moves `_t_next` on by at least a period. */
  lemma TickFacts(p: Proxy, now: real, input: TickInput)
    requires ReachesCheck(p, input) && Timely(p, now, input)
    ensures
      var (q, outcome) := Tick(p, input);
      && q.hasRobot == p.hasRobot && q.period == p.period && q.next == NextAnchor(p, input)
      && (if outcome.Timestep? then q.last == input.returned && q.tickCount == p.tickCount + 1 && outcome.dt >= MIN_DT
          else q.last == p.last && q.tickCount == p.tickCount)
      && (outcome.Timestep? && p.tickCount > 0 ==> outcome.dt == Max(input.returned - p.last, MIN_DT))
      && (p.period.Some? ==>
            && q.next - p.period.value <= input.returned
            && (p.tickCount > 0 && p.last <= now
                ==> q.next - p.period.value >= p.next && q.next - p.period.value >= p.last))
  {
    CheckKeeps(p.(next := NextAnchor(p, input)), input);
    hide StillInControl;
  }

  predicate HasPeriod(p: Proxy) {
    p.period.Some? && p.period.value >= 0.0
  }

  /** What a run of beats may be appended to: the proxy's last start and its schedule. */
  predicate Follows(p: Proxy, beats: seq<Beat>) {
    && Measured(beats)
    && (HasPeriod(p) ==> Paced(beats, p.period.value))
    && (p.tickCount > 0 && beats != [] ==>
          && beats[0].start >= p.last && beats[0].dt == Max(beats[0].start - p.last, MIN_DT)
          && (HasPeriod(p) ==> beats[0].anchor >= p.next && beats[0].anchor >= p.last))
  }

  lemma PrependMeasured(first: Beat, rest: seq<Beat>)
    requires Measured(rest)
    requires rest != [] ==> rest[0].start >= first.start && rest[0].dt == Max(rest[0].start - first.start, MIN_DT)
    ensures Measured([first] + rest)
  {
    var beats := [first] + rest;
    hide Max;
    forall k | 0 < k < |beats| ensures beats[k].start >= beats[k - 1].start
        && beats[k].dt == Max(beats[k].start - beats[k - 1].start, MIN_DT) {
      assert beats[k] == rest[k - 1] && (k > 1 ==> beats[k - 1] == rest[k - 2]);
    }
  }

  lemma PrependPaced(first: Beat, rest: seq<Beat>, period: real)
    requires Paced(rest, period) && first.anchor <= first.start
    requires rest != [] ==> rest[0].anchor >= first.anchor + period && rest[0].anchor >= first.start
    ensures Paced([first] + rest, period)
  {
    var beats := [first] + rest;
    forall k | 0 < k < |beats| ensures beats[k].anchor >= beats[k - 1].anchor + period
        && beats[k].anchor >= beats[k - 1].start {
      assert beats[k] == rest[k - 1] && (k > 1 ==> beats[k - 1] == rest[k - 2]);
    }
  }

  lemma {:induction false} BeatsFollow(p: Proxy, now: real, calls: seq<ProxyCall>)
    requires TimelyRun(p, now, calls) && (p.tickCount > 0 ==> p.last <= now)
    ensures Follows(p, BeatsOf(p, calls))
    decreases |calls|
  {
    hide Tick, NextAnchor, Measured, Paced;
    if calls == [] {
      EmptyBeats(if p.period.Some? then p.period.value else 0.0);
    } else {
      var call := calls[0];
      var q := CallOnce(p, call);
      if call.TickCall? && ReachesCheck(p, call.input) {
        TickFacts(p, now, call.input);
      } else if call.TickCall? {
        NoCheckNoBeat(p, call.input);
      }
      BeatsFollow(q, Later(p, now, call), calls[1..]);
      if Beats(p, call) {
        PrependMeasured(BeatOf(p, call.input), BeatsOf(q, calls[1..]));
        if HasPeriod(p) {
          PrependPaced(BeatOf(p, call.input), BeatsOf(q, calls[1..]), p.period.value);
        }
      } else {
        assert [] + BeatsOf(q, calls[1..]) == BeatsOf(q, calls[1..]);
      }
    }
  }

  lemma EmptyBeats(period: real)
    ensures Measured([]) && Paced([], period)
  {
  }

  lemma NoCheckNoBeat(p: Proxy, input: TickInput)
    requires !ReachesCheck(p, input)
    ensures Tick(p, input).0 == p && !Tick(p, input).1.Timestep?
  {
  }

  /**
   Main result: over any timely run of a fresh proxy, whatever the overruns and oversleeps, the ticks that
   return never come in bursts, their timesteps account for the elapsed time, and `tick_count` counts them.
   */
  lemma ClientRunIsPaced(hasRobot: bool, period: Option<real>, now: real, calls: seq<ProxyCall>)
    requires TimelyRun(Create(hasRobot, period, now), now, calls)
    ensures
      var p := Create(hasRobot, period, now);
      var beats := BeatsOf(p, calls);
      && Measured(beats) && Floored(beats) && AccountsForTime(beats)
      && (period.Some? ==> NeverBursts(beats, period.value))
      && After(p, calls).tickCount == |beats|
      && (beats != [] ==> beats[0].dt == if period.Some? then Max(period.value, MIN_DT) else MIN_DT)
  {
    var p := Create(hasRobot, period, now);
    var beats := BeatsOf(p, calls);
    BeatsFollow(p, now, calls);
    CountsBeats(p, calls);
    FirstStep(p, calls);
    StepsAreFloored(p, calls);
    StepsAccountForTime(beats);
    hide Floored, Measured, Paced, BeatsOf, NeverBursts, AccountsForTime;
    if period.Some? {
      PacedNeverBursts(beats, period.value);
    }
  }

  /** Every call is a tick that returns a timestep, entered before its deadline once there is one. */
  predicate OnTime(p: Proxy, calls: seq<ProxyCall>)
    decreases |calls|
  {
    calls != [] ==>
      && Beats(p, calls[0]) && (p.tickCount > 0 ==> calls[0].input.entry < p.next)
      && OnTime(CallOnce(p, calls[0]), calls[1..])
  }

  lemma OnTimeTick(p: Proxy, period: real, input: TickInput)
    requires p.period == Some(period) && Tick(p, input).1.Timestep? && (p.tickCount > 0 ==> input.entry < p.next)
    ensures
      var q := Tick(p, input).0;
      && q.period == Some(period) && q.tickCount == p.tickCount + 1
      && q.next == (if p.tickCount == 0 then input.entry else p.next) + period
  {
    CheckKeeps(p.(next := NextAnchor(p, input)), input);
    hide StillInControl;
  }

  lemma {:induction false} DeadlinesAdvance(p: Proxy, period: real, calls: seq<ProxyCall>)
    requires p.period == Some(period) && p.tickCount > 0 && OnTime(p, calls)
    ensures After(p, calls).next == p.next + Periods(|calls|, period)
    decreases |calls|
  {
    OneMorePeriod(|calls|, period);
    if calls != [] {
      OnTimeTick(p, period, calls[0].input);
      OneMorePeriod(|calls| - 1, period);
      hide Tick, Periods;
      DeadlinesAdvance(CallOnce(p, calls[0]), period, calls[1..]);
    }
  }

  /**
   Main result: while ticks are on time the client's deadlines do not drift, the k-th is k periods after the first
   tick began.
   */
  lemma ClientDeadlinesDoNotDrift(hasRobot: bool, period: real, now: real, calls: seq<ProxyCall>)
    requires calls != [] && OnTime(Create(hasRobot, Some(period), now), calls)
    ensures After(Create(hasRobot, Some(period), now), calls).next == calls[0].input.entry + Periods(|calls|, period)
  {
    var p := Create(hasRobot, Some(period), now);
    OnTimeTick(p, period, calls[0].input);
    OneMorePeriod(|calls| - 1, period);
    hide Tick, Periods;
    DeadlinesAdvance(CallOnce(p, calls[0]), period, calls[1..]);
  }

  lemma {:induction false} CountsBeats(p: Proxy, calls: seq<ProxyCall>)
    ensures After(p, calls).tickCount == p.tickCount + |BeatsOf(p, calls)|
    decreases |calls|
  {
    if calls != [] {
      if calls[0].TickCall? {
        CheckKeeps(p.(next := NextAnchor(p, calls[0].input)), calls[0].input);
      }
      hide StillInControl, NextAnchor;
      CountsBeats(CallOnce(p, calls[0]), calls[1..]);
    }
  }

  lemma {:induction false} StepsAreFloored(p: Proxy, calls: seq<ProxyCall>)
    ensures Floored(BeatsOf(p, calls))
    decreases |calls|
  {
    if calls != [] {
      StepsAreFloored(CallOnce(p, calls[0]), calls[1..]);
    }
  }

  lemma {:induction false} FirstStep(p: Proxy, calls: seq<ProxyCall>)
    requires p.tickCount == 0
    ensures
      var beats := BeatsOf(p, calls);
      beats != [] ==> beats[0].dt == if p.period.Some? then Max(p.period.value, MIN_DT) else MIN_DT
    decreases |calls|
  {
    if calls != [] {
      if calls[0].TickCall? {
        CheckKeeps(p.(next := NextAnchor(p, calls[0].input)), calls[0].input);
      }
      hide StillInControl, NextAnchor;
      if !Beats(p, calls[0]) {
        FirstStep(CallOnce(p, calls[0]), calls[1..]);
      }
    }
  }

  // --- The proxy within a run -------------------------------------------------------------------------

  /** The proxy before call k. */
  function At(p: Proxy, calls: seq<ProxyCall>, k: nat): Proxy
    requires k <= |calls|
  {
    After(p, calls[..k])
  }

  lemma {:induction false} AtNext(p: Proxy, calls: seq<ProxyCall>, k: nat)
    requires k < |calls|
    ensures At(p, calls, k + 1) == CallOnce(At(p, calls, k), calls[k])
    decreases |calls|
  {
    hide CallOnce;
    if k == 0 {
      assert calls[..0] == [] && calls[..1] == [calls[0]] && calls[..1][1..] == [];
      assert After(CallOnce(p, calls[0]), []) == CallOnce(p, calls[0]);
    } else {
      assert calls[..k + 1][1..] == calls[1..][..k];
      assert calls[..k][1..] == calls[1..][..k - 1];
      AtNext(CallOnce(p, calls[0]), calls[1..], k - 1);
    }
  }

  // --- Status calls are rare --------------------------------------------------------------------------

  function ProbeTimes(p: Proxy, calls: seq<ProxyCall>): seq<real>
    decreases |calls|
  {
    if calls == [] then []
    else
      (if calls[0].TickCall? && ReachesCheck(p, calls[0].input)
          && Probes(p, calls[0].input) then [calls[0].input.checked] else [])
      + ProbeTimes(CallOnce(p, calls[0]), calls[1..])
  }

  predicate Spaced(since: real, times: seq<real>) {
    times != [] ==>
      && times[0] >= since + PROBE_INTERVAL
      && forall k | 0 < k < |times| :: times[k] >= times[k - 1] + PROBE_INTERVAL
  }

  /** Main result: status calls made by ticks are at least the probe interval apart, in any run whatever. */
  lemma {:induction false} ProbesAreSpaced(p: Proxy, calls: seq<ProxyCall>)
    ensures Spaced(p.probedAt, ProbeTimes(p, calls))
    decreases |calls|
  {
    if calls != [] {
      var q := CallOnce(p, calls[0]);
      ProbedAt(p, calls[0]);
      hide CallOnce, Probes, ReachesCheck;
      ProbesAreSpaced(q, calls[1..]);
      var rest := ProbeTimes(q, calls[1..]);
      var times := ProbeTimes(p, calls);
      if times != rest {
        assert times == [calls[0].input.checked] + rest;
        forall k | 0 < k < |times| ensures times[k] >= times[k - 1] + PROBE_INTERVAL {
          assert times[k] == rest[k - 1];
        }
      }
    }
  }

  lemma ProbedAt(p: Proxy, call: ProxyCall)
    ensures
      var q := CallOnce(p, call);
      if call.TickCall? && ReachesCheck(p, call.input) && Probes(p, call.input) then
        q.probedAt == call.input.checked && call.input.checked >= p.probedAt + PROBE_INTERVAL
      else q.probedAt == p.probedAt
  {
    if call.TickCall? {
      hide NextAnchor, Max;
    }
  }

  // --- A dead controller is detected -------------------------------------------------------------------

  function AfterTicks(p: Proxy, inputs: seq<TickInput>): Proxy
    decreases |inputs|
  {
    if inputs == [] then p else AfterTicks(Tick(p, inputs[0]).0, inputs[1..])
  }

  /** Snapshots arrive in the order of their serials, and one serial is one snapshot. */
  predicate StreamOrdered(inputs: seq<TickInput>) {
    forall i, j | 0 <= i < j < |inputs| ::
      && inputs[i].checked <= inputs[j].checked
      && Serial(inputs[i].latest) <= Serial(inputs[j].latest)
      && (Serial(inputs[i].latest) == Serial(inputs[j].latest) ==> inputs[i].latest == inputs[j].latest)
  }

  /** The stream goes on, and no snapshot newer than that of the first check says in control. */
  predicate NoNewControl(inputs: seq<TickInput>) {
    && (forall k | 0 <= k < |inputs| :: !inputs[k].streamError)
    && (forall k | 0 < k < |inputs| ::
          SaysInControl(inputs[k].latest) ==> Serial(inputs[k].latest) <= Serial(inputs[0].latest))
  }

  /** From the first of these checks on, status calls deny and no new snapshot says in control. */
  predicate ControllerDead(inputs: seq<TickInput>) {
    NoNewControl(inputs) && forall k | 0 <= k < |inputs| :: inputs[k].answer.NotRunning?
  }

  /** From the first of these checks on, status calls fail and no new snapshot says in control. */
  predicate ServerGone(inputs: seq<TickInput>) {
    NoNewControl(inputs) && forall k | 0 <= k < |inputs| :: inputs[k].answer.CallFails?
  }

  /** What the proxy may still believe between the check that saw `first` and the next one. */
  predicate Fading(p: Proxy, first: TickInput, previous: TickInput) {
    || p.stopped
    || (&& p.probedAt <= first.checked
        && (p.hasRobot ==>
              && Serial(p.snapshot) == Serial(previous.latest)
              && (Serial(p.snapshot) == Serial(first.latest) ==> p.snapshotAt <= first.checked)))
  }

  /** `input` is a check later than `previous`, in a run that began with `first`, and nothing new says in control. */
  predicate LaterCheck(first: TickInput, previous: TickInput, input: TickInput) {
    && !input.answer.Running? && !input.streamError
    && first.checked <= previous.checked <= input.checked
    && Serial(first.latest) <= Serial(previous.latest) <= Serial(input.latest)
    && (SaysInControl(input.latest) ==> Serial(input.latest) <= Serial(first.latest))
  }

  lemma FirstFades(p: Proxy, first: TickInput)
    requires p.probedAt <= first.checked && p.snapshotAt <= first.checked && !first.answer.Running?
        && !first.streamError
    ensures !Tick(p, first).1.Raised? ==> Fading(Tick(p, first).0, first, first)
    ensures first.answer.NotRunning? ==> !Tick(p, first).1.Raised?
    ensures Tick(p, first).1.Ended? && !p.stopped && first.answer.CallFails? ==> SaysLost(first.latest)
  {
    hide NextAnchor, Max;
  }

  lemma KeepsFading(p: Proxy, first: TickInput, previous: TickInput, input: TickInput)
    requires Fading(p, first, previous) && LaterCheck(first, previous, input)
    ensures !Tick(p, input).1.Raised? ==> Fading(Tick(p, input).0, first, input)
    ensures input.checked >= first.checked + PROBE_INTERVAL ==> !Tick(p, input).1.Timestep?
    ensures input.answer.NotRunning? ==> !Tick(p, input).1.Raised?
    ensures Tick(p, input).1.Ended? && !p.stopped && input.answer.CallFails? ==> SaysLost(input.latest)
  {
    hide NextAnchor, Max;
  }

  lemma {:induction false} FadesTo(p: Proxy, inputs: seq<TickInput>, n: nat)
    requires 0 < n <= |inputs| && StreamOrdered(inputs) && ControllerDead(inputs)
    requires p.probedAt <= inputs[0].checked && p.snapshotAt <= inputs[0].checked
    ensures Fading(AfterTicks(p, inputs[..n]), inputs[0], inputs[n - 1])
  {
    hide Tick, Fading;
    AfterTicksNext(p, inputs, n - 1);
    if n == 1 {
      FirstFades(p, inputs[0]);
    } else {
      FadesTo(p, inputs, n - 1);
      KeepsFading(AfterTicks(p, inputs[..n - 1]), inputs[0], inputs[n - 2], inputs[n - 1]);
    }
  }

  /** The `m`-th tick raises, or ends because the proxy was stopped or a snapshot denies. */
  predicate Notices(p: Proxy, inputs: seq<TickInput>, m: nat)
    requires m < |inputs|
  {
    var q := AfterTicks(p, inputs[..m]);
    var outcome := Tick(q, inputs[m]).1;
    outcome.Raised? || (outcome.Ended? && (p.stopped || SaysLost(inputs[m].latest)))
  }

  /** Until a tick notices, the proxy's belief fades. */
  lemma {:induction false} FadesOrNotices(p: Proxy, inputs: seq<TickInput>, n: nat)
    requires 0 < n <= |inputs| && StreamOrdered(inputs) && ServerGone(inputs)
    requires p.probedAt <= inputs[0].checked && p.snapshotAt <= inputs[0].checked
    requires forall m :: 0 <= m < n ==> !Notices(p, inputs, m)
    ensures
      var q := AfterTicks(p, inputs[..n]);
      !q.stopped && Fading(q, inputs[0], inputs[n - 1])
  {
    hide Tick, Fading;
    AfterTicksNext(p, inputs, n - 1);
    assert !Notices(p, inputs, n - 1);
    if n == 1 {
      assert inputs[..0] == [];
      FirstFades(p, inputs[0]);
      StoppedIffEnded(p, inputs[0]);
    } else {
      FadesOrNotices(p, inputs, n - 1);
      KeepsFading(AfterTicks(p, inputs[..n - 1]), inputs[0], inputs[n - 2], inputs[n - 1]);
      StoppedIffEnded(AfterTicks(p, inputs[..n - 1]), inputs[n - 1]);
    }
  }

  lemma StoppedIffEnded(p: Proxy, input: TickInput)
    ensures Tick(p, input).0.stopped <==> Tick(p, input).1.Ended?
  {
    hide NextAnchor, Max;
  }

  lemma {:induction false} AfterTicksNext(p: Proxy, inputs: seq<TickInput>, n: nat)
    requires n < |inputs|
    ensures AfterTicks(p, inputs[..n + 1]) == Tick(AfterTicks(p, inputs[..n]), inputs[n]).0
    decreases n
  {
    hide Tick;
    if n == 0 {
      assert inputs[..0] == [] && inputs[..1] == [inputs[0]] && inputs[..1][1..] == [];
      assert AfterTicks(Tick(p, inputs[0]).0, []) == Tick(p, inputs[0]).0;
    } else {
      assert inputs[..n + 1][1..] == inputs[1..][..n] && inputs[..n][1..] == inputs[1..][..n - 1];
      AfterTicksNext(Tick(p, inputs[0]).0, inputs[1..], n - 1);
    }
  }

  /** The clock after a run. */
  function Clock(p: Proxy, now: real, calls: seq<ProxyCall>): real
    decreases |calls|
  {
    if calls == [] then now else Clock(CallOnce(p, calls[0]), Later(p, now, calls[0]), calls[1..])
  }

  /** The two clock readings the proxy keeps never run ahead of the clock. */
  lemma {:induction false} CachesAreOld(p: Proxy, now: real, calls: seq<ProxyCall>)
    requires TimelyRun(p, now, calls) && p.probedAt <= now && p.snapshotAt <= now
    ensures After(p, calls).probedAt <= Clock(p, now, calls) && After(p, calls).snapshotAt <= Clock(p, now, calls)
    decreases |calls|
  {
    if calls != [] {
      CachedAt(p, now, calls[0]);
      hide CallOnce, Timely, ReachesCheck;
      CachesAreOld(CallOnce(p, calls[0]), Later(p, now, calls[0]), calls[1..]);
    }
  }

  lemma CachedAt(p: Proxy, now: real, call: ProxyCall)
    requires p.probedAt <= now && p.snapshotAt <= now
    requires call.TickCall? && ReachesCheck(p, call.input) ==> Timely(p, now, call.input)
    ensures CallOnce(p, call).probedAt <= Later(p, now, call) && CallOnce(p, call).snapshotAt <= Later(p, now, call)
  {
    if call.TickCall? {
      hide NextAnchor, Max;
    }
  }

  /**
   Main result: take any run of a proxy. If from its end on every status call denies and no new in-control
   snapshot arrives, then every tick whose check is a probe interval or more after the first check since
   then returns None, whatever stale snapshot the proxy has cached.
   */
  lemma DeadControllerIsDetected(
      hasRobot: bool, period: Option<real>, now: real, calls: seq<ProxyCall>, inputs: seq<TickInput>, n: nat)
    requires TimelyRun(Create(hasRobot, period, now), now, calls)
    requires n < |inputs| && StreamOrdered(inputs) && ControllerDead(inputs)
    requires Clock(Create(hasRobot, period, now), now, calls) <= inputs[0].checked
    requires inputs[n].checked >= inputs[0].checked + PROBE_INTERVAL
    ensures
      var p := After(Create(hasRobot, period, now), calls);
      Tick(AfterTicks(p, inputs[..n]), inputs[n]).1.Ended?
  {
    var p := After(Create(hasRobot, period, now), calls);
    CachesAreOld(Create(hasRobot, period, now), now, calls);
    assert n > 0;
    FadesTo(p, inputs, n);
    KeepsFading(AfterTicks(p, inputs[..n]), inputs[0], inputs[n - 1], inputs[n]);
  }

  /**
   Main result: take any run of a proxy. If from its end on every status call fails and no new in-control snapshot
   arrives, then of the ticks up to any whose check is a probe interval or more after the first check since then,
   one raises, unless one ends the loop because it was stopped or a snapshot denies.
   */
  lemma GoneServerIsNoticed(
      hasRobot: bool, period: Option<real>, now: real, calls: seq<ProxyCall>, inputs: seq<TickInput>, n: nat)
    requires TimelyRun(Create(hasRobot, period, now), now, calls)
    requires n < |inputs| && StreamOrdered(inputs) && ServerGone(inputs)
    requires Clock(Create(hasRobot, period, now), now, calls) <= inputs[0].checked
    requires inputs[n].checked >= inputs[0].checked + PROBE_INTERVAL
    ensures exists m :: 0 <= m <= n && Notices(After(Create(hasRobot, period, now), calls), inputs, m)
  {
    var p := After(Create(hasRobot, period, now), calls);
    CachesAreOld(Create(hasRobot, period, now), now, calls);
    assert n > 0;
    if forall m :: 0 <= m < n ==> !Notices(p, inputs, m) {
      FadesOrNotices(p, inputs, n);
      KeepsFading(AfterTicks(p, inputs[..n]), inputs[0], inputs[n - 1], inputs[n]);
      hide Tick;
      assert Notices(p, inputs, n);
    }
  }
}
