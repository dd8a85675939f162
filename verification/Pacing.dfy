/**
 What re-anchoring schedulers guarantee: no bursts, and timesteps that account for the elapsed time.
 The client's `tick()` and the server's policy loop both produce `Beat`s that satisfy `Paced` and `Measured`.
 */
module Pacing {

  /** The floor for reported timesteps, 1e-9 s on both sides. */
  const MIN_DT: real := 0.000000001

  /** A step began at `start`, was scheduled for `anchor` and reported the timestep `dt`. */
  datatype Beat = Beat(start: real, anchor: real, dt: real)

  function Max(x: real, y: real): real {
    if x >= y then x else y
  }

  /** Each beat is anchored a period after the one before, and not before that one began. */
  predicate Paced(beats: seq<Beat>, period: real) {
    && (forall k | 0 <= k < |beats| :: beats[k].anchor <= beats[k].start)
    && (forall k | 0 < k < |beats| ::
          beats[k].anchor >= beats[k - 1].anchor + period && beats[k].anchor >= beats[k - 1].start)
  }

  /** Each timestep after the first is the time since the previous start, floored. */
  predicate Measured(beats: seq<Beat>) {
    forall k | 0 < k < |beats| ::
      beats[k].start >= beats[k - 1].start && beats[k].dt == Max(beats[k].start - beats[k - 1].start, MIN_DT)
  }

  /** No timestep is below the floor. */
  predicate Floored(beats: seq<Beat>) {
    forall k | 0 <= k < |beats| :: beats[k].dt >= MIN_DT
  }

  function Periods(n: nat, period: real): real {
    n as real * period
  }

  lemma OneMorePeriod(n: nat, period: real)
    ensures Periods(n + 1, period) == Periods(n, period) + period && Periods(0, period) == 0.0
  {
  }

  lemma {:induction false} AnchorsSpread(beats: seq<Beat>, period: real, i: nat, j: nat)
    requires Paced(beats, period) && i <= j < |beats|
    ensures beats[j].anchor >= beats[i].anchor + Periods(j - i, period)
    decreases j - i
  {
    OneMorePeriod(j - i, period);
    if i < j {
      OneMorePeriod(j - 1 - i, period);
      hide Periods;
      AnchorsSpread(beats, period, i, j - 1);
    }
  }

  /** Main result: whatever the overruns and oversleeps, starts i and j are at least (j - i - 1) periods apart. */
  lemma NoBurst(beats: seq<Beat>, period: real, i: nat, j: nat)
    requires Paced(beats, period) && i < j < |beats|
    ensures beats[j].start >= beats[i].start + (j - i - 1) as real * period
  {
    AnchorsSpread(beats, period, i + 1, j);
  }

  /** The rate bound for every pair of beats. */
  predicate NeverBursts(beats: seq<Beat>, period: real) {
    forall i, j | 0 <= i < j < |beats| :: beats[j].start >= beats[i].start + (j - i - 1) as real * period
  }

  /** For a negative period the bound asks no more than that starts do not go back. */
  lemma PacedNeverBursts(beats: seq<Beat>, period: real)
    requires Measured(beats) && (period >= 0.0 ==> Paced(beats, period))
    ensures NeverBursts(beats, period)
  {
    hide Measured, Paced;
    forall i, j | 0 <= i < j < |beats| ensures beats[j].start >= beats[i].start + (j - i - 1) as real * period {
      if period >= 0.0 {
        NoBurst(beats, period, i, j);
      } else {
        StartsGrow(beats, i, j);
        NegativeProduct((j - i - 1) as real, period);
      }
    }
  }

  lemma NegativeProduct(x: real, y: real)
    requires x >= 0.0 && y < 0.0
    ensures x * y <= 0.0
  {
  }

  lemma {:induction false} StartsGrow(beats: seq<Beat>, i: nat, j: nat)
    requires Measured(beats) && i <= j < |beats|
    ensures beats[i].start <= beats[j].start
    decreases j - i
  {
    if i < j {
      StartsGrow(beats, i, j - 1);
    }
  }

  function SumOfSteps(beats: seq<Beat>): real {
    if beats == [] then 0.0 else SumOfSteps(beats[..|beats| - 1]) + beats[|beats| - 1].dt
  }

  /**
   The timesteps after the first add up to at least the time between the first and the last start, and
   to at most one floor per step more.
   */
  predicate AccountsForTime(beats: seq<Beat>) {
    beats != [] ==>
      var elapsed, after := beats[|beats| - 1].start - beats[0].start, SumOfSteps(beats) - beats[0].dt;
      elapsed <= after <= elapsed + (|beats| - 1) as real * MIN_DT
  }

  /** Main result: measured timesteps account for the elapsed time. */
  lemma {:induction false} StepsAccountForTime(beats: seq<Beat>)
    requires Measured(beats)
    ensures AccountsForTime(beats)
  {
    if |beats| > 1 {
      var shorter := beats[..|beats| - 1];
      StepsAccountForTime(shorter);
      assert (|beats| - 1) as real * MIN_DT == (|shorter| - 1) as real * MIN_DT + MIN_DT;
    } else if |beats| == 1 {
      assert SumOfSteps(beats[..0]) == 0.0;
    }
  }
}
