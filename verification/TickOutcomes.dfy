/**
 What each call of the client's `tick()` comes to (zero_franky/zmq_client.py), said by the snapshots, clock readings
 and answers of the calls up to it, without the proxy's own fields.
 */
module TickOutcomes {
  import opened Wrappers
  import opened Pacing
  import opened TrackerProxy
  import opened TrackerRuns

  // --- A run as its history says ---------------------------------------------------------------------

  /** A proxy made at `now`, and the calls made on it. */
  datatype History = History(hasRobot: bool, now: real, calls: seq<ProxyCall>)

  /** By the `k`-th call something has ended the loop. */
  predicate Over(h: History, k: nat)
    requires k <= |h.calls|
    decreases k, 0
  {
    k > 0 && (Over(h, k - 1) || Reason(h, k - 1))
  }

  /** The `k`-th call is a tick that looks whether the controller is still running. */
  predicate Checks(h: History, k: nat): (checks: bool)
    requires k < |h.calls|
    ensures checks ==> h.calls[k].TickCall?
    decreases k, 1
  {
    h.calls[k].TickCall? && !Over(h, k) && !(h.hasRobot && h.calls[k].input.streamError)
  }

  /** A check before the `k`-th call read an in-control snapshot. */
  predicate Seen(h: History, k: nat)
    requires k <= |h.calls|
    decreases k, 0
  {
    k > 0 && (Seen(h, k - 1) || (Checks(h, k - 1) && h.hasRobot && SaysInControl(h.calls[k - 1].input.latest)))
  }

  /** The snapshot read by the last check before the `k`-th call. */
  function Met(h: History, k: nat): Option<Snapshot>
    requires k <= |h.calls|
    decreases k, 0
  {
    if k == 0 then None else if Checks(h, k - 1) then h.calls[k - 1].input.latest else Met(h, k - 1)
  }

  /** The clock at the check that read this snapshot first. */
  function MetAt(h: History, k: nat): real
    requires k <= |h.calls|
    decreases k, 0
  {
    if k == 0 then h.now
    else if Checks(h, k - 1) && Serial(h.calls[k - 1].input.latest) != Serial(Met(h, k - 1)) then
      h.calls[k - 1].input.checked
    else MetAt(h, k - 1)
  }

  /** An in-control snapshot first read less than a second ago. */
  predicate Vouched(h: History, k: nat)
    requires k < |h.calls| && h.calls[k].TickCall?
    decreases k, 2
  {
    var input := h.calls[k].input;
    && h.hasRobot && SaysInControl(input.latest)
    && (Serial(input.latest) == Serial(Met(h, k)) ==> input.checked - MetAt(h, k) < 1.0)
  }

  /** An out-of-control snapshot, with an in-control one before it. */
  predicate Denied(h: History, k: nat)
    requires k < |h.calls| && h.calls[k].TickCall?
    decreases k, 2
  {
    h.hasRobot && SaysLost(h.calls[k].input.latest) && Seen(h, k)
  }

  /** The clock at the last status call before the `k`-th call, or when the proxy was made. */
  function LastAsked(h: History, k: nat): real
    requires k <= |h.calls|
    decreases k, 0
  {
    if k == 0 then h.now else if Asks(h, k - 1) then h.calls[k - 1].input.checked else LastAsked(h, k - 1)
  }

  /** The `k`-th call makes a status call: the stream decides nothing, and the last one was a second ago. */
  predicate Asks(h: History, k: nat): (asks: bool)
    requires k < |h.calls|
    ensures asks ==> h.calls[k].TickCall?
    decreases k, 3
  {
    && Checks(h, k) && !Vouched(h, k) && !Denied(h, k)
    && h.calls[k].input.checked - LastAsked(h, k) >= 1.0
  }

  /** What ends a loop: a stop, an out-of-control snapshot after an in-control one, or a status call that denies. */
  predicate Reason(h: History, k: nat)
    requires k < |h.calls|
    decreases k, 4
  {
    || h.calls[k].StopCall?
    || (Checks(h, k) && (Denied(h, k) || (Asks(h, k) && h.calls[k].input.answer.NotRunning?)))
  }

  /** What a tick raises: the failure of the stream, or that of the status call it makes. */
  predicate Failure(h: History, k: nat)
    requires k < |h.calls| && h.calls[k].TickCall?
  {
    (h.hasRobot && h.calls[k].input.streamError) || (Asks(h, k) && h.calls[k].input.answer.CallFails?)
  }

  /** The `k`-th call is a tick that returns a timestep. */
  predicate Returns(h: History, k: nat)
    requires k < |h.calls|
  {
    Checks(h, k) && !Reason(h, k) && !Failure(h, k)
  }

  /** The timesteps returned before the `k`-th call. */
  function Returned(h: History, k: nat): nat
    requires k <= |h.calls|
  {
    if k == 0 then 0 else Returned(h, k - 1) + if Returns(h, k - 1) then 1 else 0
  }

  /** The clock when the last of them was returned, or when the proxy was made. */
  function LastReturn(h: History, k: nat): real
    requires k <= |h.calls|
  {
    if k == 0 then h.now
    else if Returns(h, k - 1) then h.calls[k - 1].input.returned
    else LastReturn(h, k - 1)
  }

  /** The clock that deadlines are counted from, and the periods since. An overrun starts it again. */
  function Schedule(h: History, period: real, k: nat): (real, nat)
    requires k <= |h.calls|
  {
    if k == 0 then (h.now, 0)
    else
      var (anchor, n) := Schedule(h, period, k - 1);
      if !Checks(h, k - 1) then (anchor, n)
      else
        var input := h.calls[k - 1].input;
        if Returned(h, k - 1) == 0 then (input.entry, 1)
        else if input.entry < anchor + Periods(n, period) then (anchor, n + 1)
        else (input.paced, 1)
  }

  // --- The proxy holds what its history says --------------------------------------------------------------

  /** The fields that the control check reads. */
  predicate Knows(h: History, k: nat, p: Proxy)
    requires k <= |h.calls|
  {
    && p.hasRobot == h.hasRobot && (p.stopped <==> Over(h, k)) && (p.inControlSeen <==> Seen(h, k))
    && p.probedAt == LastAsked(h, k)
    && (h.hasRobot ==> Serial(p.snapshot) == Serial(Met(h, k)) && p.snapshotAt == MetAt(h, k))
  }

  /** The fields that pacing reads. */
  predicate Paces(h: History, period: Option<real>, k: nat, p: Proxy)
    requires k <= |h.calls|
  {
    && p.period == period && p.tickCount == Returned(h, k) && p.last == LastReturn(h, k)
    && match period
       case None => p.next == h.now
       case Some(d) => p.next == Schedule(h, d, k).0 + Periods(Schedule(h, d, k).1, d)
  }

  /** The three things that a check decides on. */
  lemma ChecksAlike(h: History, k: nat, p: Proxy)
    requires k < |h.calls| && h.calls[k].TickCall? && Knows(h, k, p)
    ensures
      var input := h.calls[k].input;
      && (ReachesCheck(p, input) <==> Checks(h, k))
      && (StreamVouches(p, input) <==> Vouched(h, k))
      && (StreamDenies(p, input) <==> Denied(h, k))
      && (Checks(h, k) ==> (Probes(p, input) <==> Asks(h, k)))
  {
  }

  /** What one tick answers, and the fields it leaves, by what the check decides on. */
  lemma TickDoes(p: Proxy, input: TickInput)
    requires ReachesCheck(p, input)
    ensures
      var (q, outcome) := Tick(p, input);
      var lost := StreamDenies(p, input) || (Probes(p, input) && input.answer.NotRunning?);
      && (outcome.Ended? <==> lost)
      && (outcome.Raised? <==> Probes(p, input) && input.answer.CallFails?)
      && (q.stopped <==> lost)
      && q.hasRobot == p.hasRobot && q.probedAt == (if Probes(p, input) then input.checked else p.probedAt)
      && (q.inControlSeen <==> p.inControlSeen || (p.hasRobot && SaysInControl(input.latest)))
      && (p.hasRobot ==>
            && Serial(q.snapshot) == Serial(input.latest)
            && q.snapshotAt == if Serial(input.latest) != Serial(p.snapshot) then input.checked else p.snapshotAt)
      && q.period == p.period && q.next == NextAnchor(p, input)
      && q.tickCount == p.tickCount + (if outcome.Timestep? then 1 else 0)
      && q.last == (if outcome.Timestep? then input.returned else p.last)
      && (outcome.Timestep? ==>
            outcome.dt == Max(
              if p.tickCount > 0 then input.returned - p.last else if p.period.Some? then p.period.value else MIN_DT,
              MIN_DT))
  {
    hide NextAnchor;
  }

  /** The history one call later. */
  lemma HistoryNext(h: History, k: nat)
    requires k < |h.calls|
    ensures Over(h, k + 1) <==> Over(h, k) || Reason(h, k)
    ensures
      Checks(h, k) ==>
        var input := h.calls[k].input;
        && (Seen(h, k + 1) <==> Seen(h, k) || (h.hasRobot && SaysInControl(input.latest)))
        && Met(h, k + 1) == input.latest
        && MetAt(h, k + 1) == (if Serial(input.latest) != Serial(Met(h, k)) then input.checked else MetAt(h, k))
        && LastAsked(h, k + 1) == (if Asks(h, k) then input.checked else LastAsked(h, k))
        && (Reason(h, k) <==> Denied(h, k) || (Asks(h, k) && input.answer.NotRunning?))
    ensures
      !Checks(h, k) ==>
        && (Seen(h, k + 1) <==> Seen(h, k)) && Met(h, k + 1) == Met(h, k) && MetAt(h, k + 1) == MetAt(h, k)
        && LastAsked(h, k + 1) == LastAsked(h, k) && (Reason(h, k) <==> h.calls[k].StopCall?)
  {
  }

  lemma KnowsNext(h: History, k: nat, p: Proxy)
    requires k < |h.calls| && Knows(h, k, p)
    ensures Knows(h, k + 1, CallOnce(p, h.calls[k]))
  {
    HistoryNext(h, k);
    if h.calls[k].TickCall? {
      ChecksAlike(h, k, p);
      if Checks(h, k) {
        TickDoes(p, h.calls[k].input);
        hide Tick;
      }
    }
    hide Vouched, Denied, Asks, Reason, Checks, Probes, StreamDenies, Over, Seen, Met, MetAt, LastAsked;
  }

  lemma PacesNext(h: History, period: Option<real>, k: nat, p: Proxy)
    requires k < |h.calls| && Knows(h, k, p) && Paces(h, period, k, p)
    ensures Paces(h, period, k + 1, CallOnce(p, h.calls[k]))
  {
    if h.calls[k].TickCall? {
      ChecksAlike(h, k, p);
      if period.Some? {
        OneMorePeriod(Schedule(h, period.value, k).1, period.value);
        OneMorePeriod(0, period.value);
      }
      if Checks(h, k) {
        TickDoes(p, h.calls[k].input);
      }
      hide Tick, Checks, Vouched, Denied, Probes, StreamDenies, Asks, Periods;
    } else {
      hide Vouched, Denied, Asks, Periods;
    }
  }

  lemma {:induction false} HistoryHolds(h: History, period: Option<real>, k: nat)
    requires k <= |h.calls|
    ensures var p := At(Create(h.hasRobot, period, h.now), h.calls, k); Knows(h, k, p) && Paces(h, period, k, p)
  {
    hide Knows, Paces, CallOnce;
    var start := Create(h.hasRobot, period, h.now);
    if k == 0 {
      HistoryBegins(h, period);
      assert h.calls[..0] == [];
    } else {
      HistoryHolds(h, period, k - 1);
      AtNext(start, h.calls, k - 1);
      KnowsNext(h, k - 1, At(start, h.calls, k - 1));
      PacesNext(h, period, k - 1, At(start, h.calls, k - 1));
    }
  }

  lemma HistoryBegins(h: History, period: Option<real>)
    ensures
      var p := Create(h.hasRobot, period, h.now);
      Knows(h, 0, p) && Paces(h, period, 0, p)
  {
    if period.Some? {
      OneMorePeriod(0, period.value);
    }
  }

  /** A reason occurred in a call before the `k`-th. */
  predicate EndedBefore(h: History, k: nat)
    requires k <= |h.calls|
  {
    exists j :: 0 <= j < k && Reason(h, j)
  }

  lemma {:induction false} OverIff(h: History, k: nat)
    requires k <= |h.calls|
    ensures Over(h, k) <==> EndedBefore(h, k)
  {
    if k > 0 {
      OverIff(h, k - 1);
      HistoryNext(h, k - 1);
      hide Reason, Over;
      if Over(h, k - 1) {
        var j :| 0 <= j < k - 1 && Reason(h, j);
        assert 0 <= j < k && Reason(h, j);
      }
    }
  }

  // --- What a tick comes to ------------------------------------------------------------------------------------

  /**
   Main result: in any run of a fresh proxy a tick returns None exactly when a reason has occurred by then, in that
   tick or before it. It raises exactly when none occurred before it and the stream has failed, or the stream decides
   nothing, the last status call is a second old and the one it makes fails. Otherwise it returns a timestep: the
   time since the last one, or the period at first, and never less than the floor.
   */
  lemma TickAnswersIff(h: History, period: Option<real>, k: nat)
    requires k < |h.calls| && h.calls[k].TickCall?
    ensures
      var outcome := Tick(At(Create(h.hasRobot, period, h.now), h.calls, k), h.calls[k].input).1;
      && (outcome.Ended? <==> EndedBefore(h, k + 1))
      && (outcome.Raised? <==> !EndedBefore(h, k) && Failure(h, k))
      && (outcome.Timestep? <==> Returns(h, k))
      && (outcome.Timestep? ==>
            outcome.dt == Max(
              if Returned(h, k) > 0 then h.calls[k].input.returned - LastReturn(h, k)
              else if period.Some? then period.value
              else 0.000000001,
              0.000000001))
  {
    var p := At(Create(h.hasRobot, period, h.now), h.calls, k);
    HistoryHolds(h, period, k);
    ChecksAlike(h, k, p);
    HistoryNext(h, k);
    OverIff(h, k);
    OverIff(h, k + 1);
    if Checks(h, k) {
      TickDoes(p, h.calls[k].input);
      hide Tick;
    }
    hide At, Vouched, Denied, Asks, Probes, StreamDenies, Reason, Seen, Met, MetAt, LastAsked;
  }

  /**
   Main result: after any run the client's deadline is exactly one period for each tick that checked since the last
   that overran, counted from the clock read after that one was paced, or from the first tick's entry; the first is
   first until a timestep has been returned. `tick_count` counts the timesteps returned.
   */
  lemma ClientDeadlineIs(h: History, period: real, k: nat)
    requires k <= |h.calls|
    ensures
      var p := At(Create(h.hasRobot, Some(period), h.now), h.calls, k);
      && p.next == Schedule(h, period, k).0 + Periods(Schedule(h, period, k).1, period)
      && p.tickCount == Returned(h, k)
  {
    HistoryHolds(h, Some(period), k);
    hide At, Schedule, Knows;
  }
}
