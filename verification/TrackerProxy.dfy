/**
 The client's handle to a remote tracker (zero_franky/zmq_client.py): `tick()` paces a loop and
 tells, from a stream of state snapshots and rate-limited status calls, when the controller ended.
 Clock readings, snapshots and answers are inputs, one `TickInput` per call.
 */
module TrackerProxy {
  import opened Wrappers
  import opened Pacing

  /** How often `tick()` falls back to a status call, in seconds. */
  const PROBE_INTERVAL: real := 1.0

  // --- Data --------------------------------------------------------------------------------

  /** A state snapshot; `serial` is its identity, numbered as snapshots arrive. */
  datatype Snapshot = Snapshot(serial: nat, inControl: Option<bool>)

  datatype Answer = Running | NotRunning | CallFails

  datatype Check = InControl | Lost | CheckRaised

  datatype Outcome = Timestep(dt: real) | Ended | Raised

  /**
   What one call of `tick()` meets: whether the state stream has failed, the clock on entry, after
   pacing, at the control check and at the end, the latest snapshot, and the answer to a status call.
   */
  datatype TickInput = TickInput(
    streamError: bool, entry: real, paced: real, checked: real, latest: Option<Snapshot>, answer: Answer,
    returned: real)

  /** The proxy's fields. */
  datatype Proxy = Proxy(
    hasRobot: bool, period: Option<real>, next: real, last: real, tickCount: nat, dt: real,
    stopped: bool, inControlSeen: bool, probedAt: real, snapshot: Option<Snapshot>, snapshotAt: real)

  function Create(hasRobot: bool, period: Option<real>, now: real): Proxy {
    Proxy(hasRobot, period, now, now, 0, 0.0, false, false, now, None, now)
  }

  function Serial(snapshot: Option<Snapshot>): nat {
    if snapshot.Some? then snapshot.value.serial + 1 else 0
  }

  predicate SaysInControl(snapshot: Option<Snapshot>) {
    snapshot.Some? && snapshot.value.inControl == Some(true)
  }

  predicate SaysLost(snapshot: Option<Snapshot>) {
    snapshot.Some? && snapshot.value.inControl == Some(false)
  }

  // --- Specification ---------------------------------------------------------------------------

  /** The snapshot bookkeeping at the head of `_still_in_control`. */
  function Observe(p: Proxy, input: TickInput): Proxy {
    if !p.hasRobot then p
    else
      var q := if Serial(input.latest) != Serial(p.snapshot)
          then p.(snapshot := input.latest, snapshotAt := input.checked) else p;
      if SaysInControl(input.latest) then q.(inControlSeen := true) else q
  }

  /** A recent enough in-control snapshot answers the check without a call. */
  predicate StreamVouches(p: Proxy, input: TickInput) {
    p.hasRobot && SaysInControl(input.latest) && input.checked - Observe(p, input).snapshotAt < PROBE_INTERVAL
  }

  /** An out-of-control snapshot counts only after an in-control one. */
  predicate StreamDenies(p: Proxy, input: TickInput) {
    p.hasRobot && SaysLost(input.latest) && p.inControlSeen
  }

  predicate Probes(p: Proxy, input: TickInput) {
    !StreamVouches(p, input) && !StreamDenies(p, input) && input.checked - p.probedAt >= PROBE_INTERVAL
  }

  function StillInControl(p: Proxy, input: TickInput): (Proxy, Check) {
    var q := Observe(p, input);
    if StreamVouches(p, input) then (q, InControl)
    else if StreamDenies(p, input) then (q, Lost)
    else if !Probes(p, input) then (q, InControl)
    else
      (q.(probedAt := input.checked),
       match input.answer case Running => InControl case NotRunning => Lost case CallFails => CheckRaised)
  }

  /** Where pacing leaves `_t_next`. */
  function NextAnchor(p: Proxy, input: TickInput): real {
    if p.period.None? then p.next
    else if p.tickCount == 0 then input.entry + p.period.value
    else if p.next - input.entry > 0.0 then p.next + p.period.value
    else input.paced + p.period.value
  }

  predicate ReachesCheck(p: Proxy, input: TickInput) {
    !p.stopped && !(p.hasRobot && input.streamError)
  }

  function Tick(p: Proxy, input: TickInput): (Proxy, Outcome) {
    if p.stopped then (p, Ended)
    else if !ReachesCheck(p, input) then (p, Raised)
    else
      var (q, check) := StillInControl(p.(next := NextAnchor(p, input)), input);
      match check
      case Lost => (q.(stopped := true), Ended)
      case CheckRaised => (q, Raised)
      case InControl =>
        var dt :=
          if p.tickCount > 0 then Max(input.returned - p.last, MIN_DT)
          else if p.period.Some? then Max(p.period.value, MIN_DT)
          else MIN_DT;
        (q.(dt := dt, last := input.returned, tickCount := p.tickCount + 1), Timestep(dt))
  }

  /** What the control check leaves alone. */
  lemma CheckKeeps(p: Proxy, input: TickInput)
    ensures
      var q := StillInControl(p, input).0;
      q == p.(inControlSeen := q.inControlSeen, probedAt := q.probedAt, snapshot := q.snapshot,
          snapshotAt := q.snapshotAt)
  {
  }

  // --- The proxy as an object -------------------------------------------------------------------

  class Tracker {
    const hasRobot: bool
    const period: Option<real>
    var next: real
    var last: real
    var tickCount: nat
    var dt: real
    var stopped: bool
    var inControlSeen: bool
    var probedAt: real
    var snapshot: Option<Snapshot>
    var snapshotAt: real

    function State(): Proxy
      reads this
    {
      Proxy(hasRobot, period, next, last, tickCount, dt, stopped, inControlSeen, probedAt, snapshot, snapshotAt)
    }

    constructor (hasRobot: bool, period: Option<real>, now: real)
      ensures State() == Create(hasRobot, period, now)
    {
      this.hasRobot := hasRobot;
      this.period := period;
      next := now;
      last := now;
      tickCount := 0;
      dt := 0.0;
      stopped := false;
      inControlSeen := false;
      probedAt := now;
      snapshot := None;
      snapshotAt := now;
    }

    method CheckControl(input: TickInput) returns (check: Check)
      modifies this
      ensures (State(), check) == StillInControl(old(State()), input)
    {
      var now := input.checked;
      if hasRobot {
        var latest := input.latest;
        if Serial(latest) != Serial(snapshot) {
          snapshot := latest;
          snapshotAt := now;
        }
        var inControl := if latest.None? then None else latest.value.inControl;
        if inControl == Some(true) {
          inControlSeen := true;
          if now - snapshotAt < PROBE_INTERVAL {
            return InControl;
          }
        } else if inControl == Some(false) && inControlSeen {
          return Lost;
        }
      }
      if now - probedAt < PROBE_INTERVAL {
        return InControl;
      }
      probedAt := now;
      match input.answer {
        case Running => return InControl;
        case NotRunning => return Lost;
        case CallFails => return CheckRaised;
      }
    }

    /** The pacing part of `tick()`; sleeping is the time that passes up to `input.paced`. */
    method Pace(input: TickInput)
      modifies this`next
      ensures State() == old(State()).(next := NextAnchor(old(State()), input))
    {
      if period.Some? {
        if tickCount == 0 {
          next := input.entry + period.value;
        } else {
          var remaining := next - input.entry;
          if remaining > 0.0 {
            next := next + period.value;
          } else {
            next := input.paced + period.value;
          }
        }
      }
    }

    method DoTick(input: TickInput) returns (outcome: Outcome)
      modifies this
      ensures (State(), outcome) == Tick(old(State()), input)
    {
      hide NextAnchor, StillInControl;
      if stopped {
        return Ended;
      }
      if hasRobot && input.streamError {
        return Raised;
      }
      var first := tickCount == 0;
      Pace(input);
      var check := CheckControl(input);
      if check.CheckRaised? {
        return Raised;
      }
      if check.Lost? {
        stopped := true;
        return Ended;
      }
      var now := input.returned;
      CheckKeeps(old(State()).(next := NextAnchor(old(State()), input)), input);
      if !first {
        dt := Max(now - last, MIN_DT);
      } else if period.Some? {
        dt := Max(period.value, MIN_DT);
      } else {
        dt := MIN_DT;
      }
      last := now;
      tickCount := tickCount + 1;
      return Timestep(dt);
    }

    /** `stop()` marks the proxy before the call is made, so a failing call leaves it stopped. */
    method Stop()
      modifies this
      ensures State() == old(State()).(stopped := true)
    {
      stopped := true;
    }
  }
}
