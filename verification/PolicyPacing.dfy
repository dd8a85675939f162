/** The timing of the server-side policy loop, `_run_policy` (zero_franky/tracker_session.py). */
module PolicyPacing {
  import opened Wrappers
  import opened Pacing

  // --- Data ----------------------------------------------------------------------------------

  /**
   What one pass through the loop meets: the two loop tests, the clock at the head of the step, whether
   the step raises, the clock after the step and the clock read to re-anchor after an overrun.
   */
  datatype Cycle = Cycle(stopSet: bool, inControl: bool, now: real, raises: bool, afterStep: real, reanchor: real)

  /** The loop's variables and the session fields it updates, with the steps begun so far. */
  datatype Loop = Loop(running: bool, errored: bool, next: real, last: real, iterations: nat, dt: real,
      beats: seq<Beat>)

  // --- Specification ---------------------------------------------------------------------------

  function Start(now: real): Loop {
    Loop(true, false, now, now, 0, 0.0, [])
  }

  function StepDt(s: Loop, period: Option<real>, now: real): real {
    if s.iterations == 0 then (if period.Some? then period.value else MIN_DT)
    else Max(now - s.last, MIN_DT)
  }

  function NextDeadline(s: Loop, period: Option<real>, c: Cycle): real {
    if period.None? then s.next
    else if s.next + period.value - c.afterStep > 0.0 then s.next + period.value
    else c.reanchor
  }

  function Pass(s: Loop, period: Option<real>, c: Cycle): Loop {
    if !s.running then s
    else if c.stopSet || !c.inControl then s.(running := false)
    else
      var dt := StepDt(s, period, c.now);
      var t := s.(last := c.now, dt := dt, beats := s.beats + [Beat(c.now, s.next, dt)]);
      if c.raises then t.(running := false, errored := true)
      else t.(iterations := s.iterations + 1, next := NextDeadline(s, period, c))
  }

  /** The loop after as many passes as there are cycles. */
  function Passes(s: Loop, period: Option<real>, cycles: seq<Cycle>): Loop {
    if cycles == [] then s
    else Pass(Passes(s, period, cycles[..|cycles| - 1]), period, cycles[|cycles| - 1])
  }

  // --- The loop itself ---------------------------------------------------------------------------

  class TrackerSession {
    const period: Option<real>
    var iterations: nat
    var dt: real
    var errored: bool

    constructor (period: Option<real>)
      ensures this.period == period && iterations == 0 && dt == 0.0 && !errored
    {
      this.period := period;
      iterations := 0;
      dt := 0.0;
      errored := false;
    }

    /** `cycles` is as much of the environment as the run is observed for; the loop may end sooner. */
    method RunPolicy(start: real, cycles: seq<Cycle>) returns (beats: seq<Beat>, next: real, last: real, running: bool)
      requires iterations == 0 && dt == 0.0 && !errored
      modifies this
      ensures Loop(running, errored, next, last, iterations, dt, beats) == Passes(Start(start), period, cycles)
    {
      next := start;
      last := next;
      beats := [];
      running := true;
      var i := 0;
      while i < |cycles| && running
        invariant i <= |cycles|
        invariant Loop(running, errored, next, last, iterations, dt, beats) == Passes(Start(start), period, cycles[..i])
      {
        var c := cycles[i];
        ghost var before := Loop(running, errored, next, last, iterations, dt, beats);
        assert cycles[..i + 1][..i] == cycles[..i];
        i := i + 1;
        if c.stopSet || !c.inControl {
          running := false;
        } else {
          var now := c.now;
          var step: real;
          if iterations == 0 {
            step := if period.Some? then period.value else MIN_DT;
          } else {
            step := Max(now - last, MIN_DT);
          }
          last := now;
          dt := step;
          beats := beats + [Beat(now, next, step)];
          if c.raises {
            errored := true;
            running := false;
          } else {
            iterations := iterations + 1;
            if period.Some? {
              next := next + period.value;
              if !(next - c.afterStep > 0.0) {
                next := c.reanchor;
              }
            }
          }
        }
        assert Loop(running, errored, next, last, iterations, dt, beats) == Pass(before, period, c);
      }
      EndedStaysEnded(Start(start), period, cycles, i);
    }
  }

  lemma {:induction false} EndedStaysEnded(s: Loop, period: Option<real>, cycles: seq<Cycle>, i: nat)
    requires i <= |cycles| && (i == |cycles| || !Passes(s, period, cycles[..i]).running)
    ensures Passes(s, period, cycles) == Passes(s, period, cycles[..i])
    decreases |cycles| - i
  {
    if i == |cycles| {
      assert cycles[..i] == cycles;
    } else {
      assert cycles[..i + 1][..i] == cycles[..i];
      EndedStaysEnded(s, period, cycles, i + 1);
    }
  }

  // --- Timing -----------------------------------------------------------------------------------------

  predicate Steps(s: Loop, c: Cycle) {
    s.running && !c.stopSet && c.inControl
  }

  /**
   The clock only moves forward. A wait for the deadline is only cut short by the stop event, so a
   cycle whose loop test finds the event unset begins no earlier than the deadline waited for.
   */
  predicate Timely(s: Loop, clock: real, c: Cycle) {
    Steps(s, c) ==> clock <= c.now <= c.afterStep <= c.reanchor
  }

  /** The earliest time the next step can begin. */
  function ClockAfter(s: Loop, clock: real, period: Option<real>, c: Cycle): real {
    if !Steps(s, c) || c.raises then clock
    else if period.Some? then NextDeadline(s, period, c)
    else c.afterStep
  }

  function Clock(s: Loop, clock: real, period: Option<real>, cycles: seq<Cycle>): real {
    if cycles == [] then clock
    else
      var before := cycles[..|cycles| - 1];
      ClockAfter(Passes(s, period, before), Clock(s, clock, period, before), period, cycles[|cycles| - 1])
  }

  predicate TimelyRun(start: real, period: Option<real>, cycles: seq<Cycle>) {
    cycles != [] ==>
      var before := cycles[..|cycles| - 1];
      && TimelyRun(start, period, before)
      && Timely(Passes(Start(start), period, before), Clock(Start(start), start, period, before), cycles[|cycles| - 1])
  }

  predicate LoopInvariant(s: Loop, clock: real, period: Option<real>) {
    && Measured(s.beats)
    && (period.Some? && period.value >= 0.0 ==> Paced(s.beats, period.value))
    && s.iterations <= |s.beats| <= s.iterations + (if s.errored then 1 else 0)
    && (s.running ==> !s.errored && (period.Some? ==> s.next <= clock))
    && (s.beats != [] && s.running ==>
          && s.beats[|s.beats| - 1].start == s.last <= clock
          && (period.Some? ==> s.next >= s.last)
          && (period.Some? && period.value >= 0.0 ==> s.next >= s.beats[|s.beats| - 1].anchor + period.value))
  }

  lemma AppendBeat(beats: seq<Beat>, b: Beat, period: Option<real>)
    requires Measured(beats)
    requires period.Some? && period.value >= 0.0 ==> Paced(beats, period.value) && b.anchor <= b.start
    requires beats != [] ==>
      var last := beats[|beats| - 1];
      && b.start >= last.start && b.dt == Max(b.start - last.start, MIN_DT)
      && (period.Some? && period.value >= 0.0 ==> b.anchor >= last.anchor + period.value && b.anchor >= last.start)
    ensures Measured(beats + [b])
    ensures period.Some? && period.value >= 0.0 ==> Paced(beats + [b], period.value)
  {
    AppendMeasured(beats, b);
    hide Measured, Max;
    if period.Some? && period.value >= 0.0 {
      AppendPaced(beats, b, period.value);
    }
  }

  lemma AppendMeasured(beats: seq<Beat>, b: Beat)
    requires Measured(beats)
    requires beats != [] ==>
      var last := beats[|beats| - 1];
      b.start >= last.start && b.dt == Max(b.start - last.start, MIN_DT)
    ensures Measured(beats + [b])
  {
    hide Max;
    var all := beats + [b];
    forall k | 0 < k < |all|
        ensures all[k].start >= all[k - 1].start && all[k].dt == Max(all[k].start - all[k - 1].start, MIN_DT) {
      assert all[k - 1] == beats[k - 1];
      assert k < |beats| ==> all[k] == beats[k];
    }
  }

  lemma AppendPaced(beats: seq<Beat>, b: Beat, period: real)
    requires Paced(beats, period) && b.anchor <= b.start
    requires beats != [] ==>
      var last := beats[|beats| - 1];
      b.anchor >= last.anchor + period && b.anchor >= last.start
    ensures Paced(beats + [b], period)
  {
    var all := beats + [b];
    forall k | 0 < k < |all|
        ensures all[k].anchor >= all[k - 1].anchor + period && all[k].anchor >= all[k - 1].start {
      assert all[k - 1] == beats[k - 1];
      assert k < |beats| ==> all[k] == beats[k];
    }
  }

  lemma PassKeeps(s: Loop, clock: real, period: Option<real>, c: Cycle)
    requires LoopInvariant(s, clock, period) && Timely(s, clock, c)
    ensures LoopInvariant(Pass(s, period, c), ClockAfter(s, clock, period, c), period)
  {
    if Steps(s, c) {
      AppendBeat(s.beats, Beat(c.now, s.next, StepDt(s, period, c.now)), period);
    }
    hide Measured, Paced, Max;
  }

  lemma {:induction false} RunKeeps(start: real, period: Option<real>, cycles: seq<Cycle>)
    requires TimelyRun(start, period, cycles)
    ensures LoopInvariant(Passes(Start(start), period, cycles), Clock(Start(start), start, period, cycles), period)
  {
    hide Pass, ClockAfter, Timely, LoopInvariant;
    if cycles == [] {
      StartKeeps(start, period);
    } else {
      var before := cycles[..|cycles| - 1];
      RunKeeps(start, period, before);
      PassKeeps(Passes(Start(start), period, before), Clock(Start(start), start, period, before), period,
          cycles[|cycles| - 1]);
    }
  }

  lemma StartKeeps(start: real, period: Option<real>)
    ensures LoopInvariant(Start(start), start, period)
  {
  }

  /**
   Main result: over any timely run of the server loop, steps never come in bursts whatever the overruns,
   their timesteps account for the elapsed time, and `_iterations` counts the steps that did not raise.
   */
  lemma ServerRunIsPaced(start: real, period: Option<real>, cycles: seq<Cycle>)
    requires TimelyRun(start, period, cycles)
    ensures
      var s := Passes(Start(start), period, cycles);
      && Measured(s.beats) && AccountsForTime(s.beats)
      && (period.Some? ==> NeverBursts(s.beats, period.value))
      && s.iterations <= |s.beats| <= s.iterations + (if s.errored then 1 else 0)
  {
    RunKeeps(start, period, cycles);
    hide Measured, Paced, NeverBursts, TimelyRun, Passes, AccountsForTime;
    StepsAccountForTime(Passes(Start(start), period, cycles).beats);
    if period.Some? {
      PacedNeverBursts(Passes(Start(start), period, cycles).beats, period.value);
    }
  }

  // --- Deadlines ---------------------------------------------------------------------------------------

  /** A pass that completes a step. */
  predicate Completes(c: Cycle) {
    !c.stopSet && c.inControl && !c.raises
  }

  /** How many steps are completed: the loop ends at the first pass that does not complete one. */
  function Completed(cycles: seq<Cycle>): (m: nat)
    ensures m <= |cycles|
  {
    if cycles == [] then 0
    else
      var m := Completed(cycles[..|cycles| - 1]);
      if m == |cycles| - 1 && Completes(cycles[m]) then m + 1 else m
  }

  /** The clock that the deadlines after `a` steps are counted from. */
  function Anchor(start: real, steps: seq<Cycle>, a: nat): real
    requires a <= |steps|
  {
    if a == 0 then start else steps[a - 1].reanchor
  }

  /** Of completed steps, the number up to the last that ended no earlier than its deadline; 0 if none did. */
  function LastOverrun(start: real, period: real, steps: seq<Cycle>): (a: nat)
    ensures a <= |steps|
  {
    if steps == [] then 0
    else
      var before := steps[..|steps| - 1];
      var a := LastOverrun(start, period, before);
      if steps[|steps| - 1].afterStep < Anchor(start, before, a) + Periods(|steps| - a, period) then a else |steps|
  }

  /** The deadline after these steps: one period for each since the last overrun, or since the start. */
  function Deadline(start: real, period: Option<real>, steps: seq<Cycle>): real {
    if period.None? then start
    else
      var a := LastOverrun(start, period.value, steps);
      Anchor(start, steps, a) + Periods(|steps| - a, period.value)
  }

  /** The timestep of the `k`-th step: the period for the first, then the time since the one before, floored. */
  function StepTime(period: Option<real>, cycles: seq<Cycle>, k: nat): real
    requires k < |cycles|
  {
    if k > 0 then Max(cycles[k].now - cycles[k - 1].now, 0.000000001)
    else if period.Some? then period.value
    else 0.000000001
  }

  /** The steps begun, in order, each with its clock, its deadline and its timestep. */
  predicate BeatsAre(start: real, period: Option<real>, cycles: seq<Cycle>, beats: seq<Beat>) {
    && |beats| <= |cycles|
    && forall k :: 0 <= k < |beats| ==>
         beats[k] == Beat(cycles[k].now, Deadline(start, period, cycles[..k]), StepTime(period, cycles, k))
  }

  /** The step after the completed ones is begun and raises. */
  predicate Raises(cycles: seq<Cycle>) {
    var m := Completed(cycles);
    m < |cycles| && !cycles[m].stopSet && cycles[m].inControl && cycles[m].raises
  }

  lemma DeadlineMoves(start: real, period: real, steps: seq<Cycle>, c: Cycle)
    ensures
      Deadline(start, Some(period), steps + [c])
      == var next := Deadline(start, Some(period), steps) + period;
         if c.afterStep < next then next else c.reanchor
  {
    var all := steps + [c];
    assert all[..|all| - 1] == steps;
    var a := LastOverrun(start, period, steps);
    OneMorePeriod(|steps| - a, period);
    OneMorePeriod(0, period);
    hide Periods;
    assert Anchor(start, all, a) == Anchor(start, steps, a);
  }

  lemma BeatAppended(start: real, period: Option<real>, cycles: seq<Cycle>, c: Cycle, beats: seq<Beat>)
    requires BeatsAre(start, period, cycles, beats)
    ensures BeatsAre(start, period, cycles + [c], beats)
    ensures
      |beats| == |cycles| ==>
        BeatsAre(start, period, cycles + [c],
          beats + [Beat(c.now, Deadline(start, period, cycles), StepTime(period, cycles + [c], |cycles|))])
  {
    hide Deadline;
    var all := cycles + [c];
    assert all[..|cycles|] == cycles;
    forall k | 0 <= k < |beats|
        ensures all[..k] == cycles[..k] && StepTime(period, all, k) == StepTime(period, cycles, k) {
    }
  }

  /** The loop after these cycles, said by the cycles alone. */
  predicate LoopIs(start: real, period: Option<real>, cycles: seq<Cycle>, s: Loop) {
    var m := Completed(cycles);
    && s.iterations == m && (s.running <==> m == |cycles|) && (s.errored <==> Raises(cycles))
    && |s.beats| == m + (if s.errored then 1 else 0)
    && BeatsAre(start, period, cycles, s.beats)
    && s.next == Deadline(start, period, cycles[..m])
    && s.last == (if s.beats == [] then start else s.beats[|s.beats| - 1].start)
    && s.dt == (if s.beats == [] then 0.0 else s.beats[|s.beats| - 1].dt)
  }

  lemma CompletedNext(cycles: seq<Cycle>, c: Cycle)
    ensures
      var m := Completed(cycles);
      && Completed(cycles + [c]) == (if m == |cycles| && Completes(c) then m + 1 else m)
      && (Raises(cycles + [c]) <==> Raises(cycles) || (m == |cycles| && !c.stopSet && c.inControl && c.raises))
  {
    var all := cycles + [c];
    assert all[..|all| - 1] == cycles;
    assert forall k :: 0 <= k < |cycles| ==> all[k] == cycles[k];
  }

  lemma StartIs(start: real, period: Option<real>)
    ensures LoopIs(start, period, [], Start(start))
  {
    OneMorePeriod(0, if period.Some? then period.value else 0.0);
  }

  /** A pass of a loop that has ended, or that ends it before a step. */
  lemma IdlePassIs(start: real, period: Option<real>, cycles: seq<Cycle>, c: Cycle, s: Loop)
    requires LoopIs(start, period, cycles, s) && !Steps(s, c)
    ensures LoopIs(start, period, cycles + [c], Pass(s, period, c))
  {
    CompletedNext(cycles, c);
    BeatAppended(start, period, cycles, c, s.beats);
    hide Deadline, BeatsAre, Completed, Raises, StepTime;
    assert (cycles + [c])[..Completed(cycles)] == cycles[..Completed(cycles)];
  }

  /** A pass that begins a step. */
  lemma StepPassIs(start: real, period: Option<real>, cycles: seq<Cycle>, c: Cycle, s: Loop)
    requires LoopIs(start, period, cycles, s) && Steps(s, c)
    ensures LoopIs(start, period, cycles + [c], Pass(s, period, c))
  {
    var all := cycles + [c];
    CompletedNext(cycles, c);
    BeatAppended(start, period, cycles, c, s.beats);
    StepDtIs(start, period, cycles, c, s);
    NextIs(start, period, cycles, c, s);
    hide Deadline, BeatsAre, Completed, Raises, StepTime, StepDt, NextDeadline;
    assert all[..|cycles|] == cycles && cycles[..|cycles|] == cycles && all[..|all|] == all;
  }

  lemma StepDtIs(start: real, period: Option<real>, cycles: seq<Cycle>, c: Cycle, s: Loop)
    requires LoopIs(start, period, cycles, s) && s.running
    ensures !s.errored && |s.beats| == |cycles| && StepDt(s, period, c.now) == StepTime(period, cycles + [c], |cycles|)
  {
    hide Deadline, Completed, Max;
  }

  lemma NextIs(start: real, period: Option<real>, cycles: seq<Cycle>, c: Cycle, s: Loop)
    requires LoopIs(start, period, cycles, s) && s.running
    ensures NextDeadline(s, period, c) == Deadline(start, period, cycles + [c])
  {
    if period.Some? {
      DeadlineMoves(start, period.value, cycles, c);
    } else {
      assert Deadline(start, period, cycles + [c]) == Deadline(start, period, cycles);
    }
    hide Deadline, BeatsAre, Completed, Raises;
    assert cycles[..|cycles|] == cycles;
  }

  /**
   Main result: over any run of the server loop the steps begun are those of the passes up to the first that finds the
   event set or the robot out of control or raises, `_iterations` counts those that did not raise, each has its
   timestep, and the deadline is exactly one period for each completed step since the last that overran, counted from
   the clock read then, or from the start if none did.
   */
  lemma {:induction false} ServerLoopIs(start: real, period: Option<real>, cycles: seq<Cycle>)
    ensures LoopIs(start, period, cycles, Passes(Start(start), period, cycles))
  {
    hide LoopIs, Pass;
    if cycles == [] {
      StartIs(start, period);
    } else {
      var before, last := cycles[..|cycles| - 1], cycles[|cycles| - 1];
      var s := Passes(Start(start), period, before);
      ServerLoopIs(start, period, before);
      if Steps(s, last) {
        StepPassIs(start, period, before, last, s);
      } else {
        IdlePassIs(start, period, before, last, s);
      }
      assert before + [last] == cycles;
    }
  }

  /** No step so far took longer than the time left to its deadline. */
  predicate NoOverrun(start: real, period: real, cycles: seq<Cycle>) {
    cycles != [] ==>
      var before := Passes(Start(start), Some(period), cycles[..|cycles| - 1]);
      && NoOverrun(start, period, cycles[..|cycles| - 1])
      && (Steps(before, cycles[|cycles| - 1]) ==> cycles[|cycles| - 1].afterStep < before.next + period)
  }

  /** Main result: without overruns the deadlines do not drift, the k-th is exactly k periods after the start. */
  lemma {:induction false} DeadlinesDoNotDrift(start: real, period: real, cycles: seq<Cycle>)
    requires NoOverrun(start, period, cycles)
    ensures
      var s := Passes(Start(start), Some(period), cycles);
      s.next == start + Periods(s.iterations, period)
  {
    OneMorePeriod(0, period);
    hide Periods;
    if cycles != [] {
      var before := Passes(Start(start), Some(period), cycles[..|cycles| - 1]);
      DeadlinesDoNotDrift(start, period, cycles[..|cycles| - 1]);
      OneMorePeriod(before.iterations, period);
    }
  }
}
