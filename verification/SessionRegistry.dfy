/**
 The server's registry of tracker sessions (zero_franky/zmq_server.py): live sessions, the bounded
 memory of finished ones, and what stopping and shutting down do to robots. Everything the registry
 calls out to is an input: whether it raises, and what a status reading sees.
 */
module SessionRegistry {
  import opened Wrappers
  import opened OrderedDict
  import opened Wire
  import opened MotionWire

  const FINISHED_STATUS_HISTORY: nat := 32

  // --- Data ------------------------------------------------------------------------------------

  /** The parts of a session the registry depends on: its kind of loop and whether `stop` was called. */
  datatype Session = Session(robot: nat, passthrough: bool, stopSet: bool)

  /** What a status reading sees at its moment. */
  datatype Reading = Reading(inControl: bool, threadAlive: bool, iterations: nat, failed: bool)

  datatype Status = Status(id: nat, passthrough: bool, running: bool, iterations: nat, failed: bool)

  /** A stop motion payload; `otherBuilds` speaks for the motion types that `MotionWire` does not model. */
  datatype StopMotion = Default | Payload(wire: Wire, otherBuilds: bool)

  /** How a start goes: `Refused` up to the motion's start, else whether a policy then given can be loaded. */
  datatype StartFate = Refused | Moved(policyLoads: bool)

  /** A tracking motion started on a robot, and the session that owns it. */
  datatype Move = Move(robot: nat, owner: Option<nat>)

  /** How one `session.stop` goes: whether it raises, and the reading taken after it. */
  datatype Fate = Fate(raises: bool, after: Reading)

  /** One completed call of `session.stop`, with the reading remembered for it. */
  datatype StopRecord = StopRecord(id: nat, session: Session, after: Reading)

  /**
   `robots`, `active` and `finished` are the manager's dictionaries; `moves` and `robotStops` list the tracking
   motions started and the calls of `robot.stop`. The rest is history: ids started, completed stops, and ids
   dropped unstopped.
   */
  datatype Registry = Registry(
    robots: seq<nat>, active: seq<Item<Session>>, finished: seq<Item<Status>>,
    moves: seq<Move>, robotStops: seq<nat>, started: seq<nat>, stops: seq<StopRecord>, dropped: seq<nat>)

  // --- Specification -----------------------------------------------------------------------------

  function Empty(): Registry {
    Registry([], [], [], [], [], [], [], [])
  }

  function StatusOf(id: nat, session: Session, now: Reading): Status {
    Status(
      id, session.passthrough,
      now.inControl && (if session.passthrough then !session.stopSet else now.threadAlive),
      now.iterations, now.failed)
  }

  function Evict(finished: seq<Item<Status>>): seq<Item<Status>> {
    if |finished| > FINISHED_STATUS_HISTORY then Evict(finished[1..]) else finished
  }

  function Remember(finished: seq<Item<Status>>, id: nat, status: Status): seq<Item<Status>> {
    Evict(Put(finished, id, status))
  }

  /** The policy is loaded after the motion has started. */
  function StartTracker(r: Registry, robot: nat, id: nat, passthrough: bool, fate: StartFate): (Registry, Result<nat>) {
    if robot !in r.robots then (r, Failure(KeyError))
    else if fate.Refused? then (r, Failure(ControlException))
    else if !passthrough && !fate.policyLoads then (r.(moves := r.moves + [Move(robot, None)]), Failure(PolicyError))
    else
      (r.(moves := r.moves + [Move(robot, Some(id))],
          active := Put(r.active, id, Session(robot, passthrough, false)), started := r.started + [id]),
       Success(id))
  }

  /** The motion types whose builders are not modelled. */
  predicate IsOtherMotion(w: Wire) {
    match Field(w, TypeKey)
    case Success(Text(OtherName(text))) =>
      text in {"JointImpedanceMotion", "CartesianImpedanceMotion", "TorqueStopMotion"}
    case _ => false
  }

  /** What building the stop motion comes to; nothing is built for the default ramp. */
  function StopMotionBuilt(motion: StopMotion): Result<bool> {
    match motion
    case Default => Success(true)
    case Payload(wire, otherBuilds) =>
      if IsOtherMotion(wire) then (if otherBuilds then Success(true) else Failure(ValueError))
      else
        match BuildMotion(wire)
        case Success(_) => Success(true)
        case Failure(error) => Failure(error)
  }

  function StopSession(r: Registry, id: nat, session: Session, fate: Fate): (Registry, Result<bool>) {
    var stopped := session.(stopSet := true);
    (r.(finished := Remember(r.finished, id, StatusOf(id, stopped, fate.after)),
        stops := r.stops + [StopRecord(id, stopped, fate.after)]),
     if fate.raises then Failure(ControlException) else Success(true))
  }

  function StopTracker(r: Registry, id: nat, motion: StopMotion, fate: Fate): (Registry, Result<bool>) {
    match Get(r.active, id)
    case None => (r, Success(true))
    case Some(session) =>
      var popped := r.(active := Remove(r.active, id));
      match StopMotionBuilt(motion)
      case Failure(error) => (popped.(dropped := r.dropped + [id]), Failure(error))
      case Success(_) => StopSession(popped, id, session, fate)
  }

  function TrackerStatus(r: Registry, id: nat, now: Reading): Result<Status> {
    match Get(r.active, id)
    case Some(session) => Success(StatusOf(id, session, now))
    case None =>
      match Get(r.finished, id)
      case Some(status) => Success(status)
      case None => Failure(KeyError)
  }

  function StopRobot(r: Registry, robot: nat, raises: bool): (Registry, Result<bool>) {
    if robot !in r.robots then (r, Failure(KeyError))
    else (r.(robotStops := r.robotStops + [robot]), if raises then Failure(ControlException) else Success(true))
  }

  function StopEach(r: Registry, ids: seq<nat>, fates: nat -> Fate): Registry
    decreases |ids|
  {
    if ids == [] then r else StopEach(StopTracker(r, ids[0], Default, fates(ids[0])).0, ids[1..], fates)
  }

  function StopEachRobot(r: Registry, robots: seq<nat>, raises: nat -> bool): Registry
    decreases |robots|
  {
    if robots == [] then r else StopEachRobot(StopRobot(r, robots[0], raises(robots[0])).0, robots[1..], raises)
  }

  /** What the calls raise is swallowed. */
  function Shutdown(r: Registry, fates: nat -> Fate, raises: nat -> bool): Registry {
    var s := StopEach(r, Keys(r.active), fates);
    StopEachRobot(s, s.robots, raises)
  }

  // --- The manager as an object --------------------------------------------------------------------

  class RobotManager {
    var robots: seq<nat>
    var trackerSessions: seq<Item<Session>>
    var finishedStatuses: seq<Item<Status>>
    var moves: seq<Move>
    var robotStops: seq<nat>
    ghost var started: seq<nat>
    ghost var stops: seq<StopRecord>
    ghost var dropped: seq<nat>

    ghost function State(): Registry
      reads this
    {
      Registry(robots, trackerSessions, finishedStatuses, moves, robotStops, started, stops, dropped)
    }

    constructor ()
      ensures State() == Empty()
    {
      robots := [];
      trackerSessions := [];
      finishedStatuses := [];
      moves := [];
      robotStops := [];
      started := [];
      stops := [];
      dropped := [];
    }

    /** `connects` is whether franky's robot constructor returns. */
    method CreateRobot(robot: nat, connects: bool) returns (result: Result<nat>)
      modifies this
      ensures State() == if connects then old(State()).(robots := old(robots) + [robot]) else old(State())
      ensures result == if connects then Success(robot) else Failure(ControlException)
    {
      if !connects {
        return Failure(ControlException);
      }
      robots := robots + [robot];
      return Success(robot);
    }

    method DoStartTracker(robot: nat, id: nat, passthrough: bool, fate: StartFate) returns (result: Result<nat>)
      modifies this
      ensures (State(), result) == StartTracker(old(State()), robot, id, passthrough, fate)
    {
      if robot !in robots {
        return Failure(KeyError);
      }
      if fate.Refused? {
        return Failure(ControlException);
      }
      if !passthrough && !fate.policyLoads {
        moves := moves + [Move(robot, None)];
        return Failure(PolicyError);
      }
      moves := moves + [Move(robot, Some(id))];
      trackerSessions := Put(trackerSessions, id, Session(robot, passthrough, false));
      started := started + [id];
      return Success(id);
    }

    method RememberFinished(id: nat, session: Session, after: Reading)
      modifies this`finishedStatuses
      ensures finishedStatuses == Remember(old(finishedStatuses), id, StatusOf(id, session, after))
    {
      finishedStatuses := Put(finishedStatuses, id, StatusOf(id, session, after));
      while |finishedStatuses| > FINISHED_STATUS_HISTORY
        invariant Evict(finishedStatuses) == Remember(old(finishedStatuses), id, StatusOf(id, session, after))
        decreases |finishedStatuses|
      {
        assert Remove(finishedStatuses, finishedStatuses[0].key) == finishedStatuses[1..];
        finishedStatuses := Remove(finishedStatuses, finishedStatuses[0].key);
      }
    }

    method DoStopTracker(id: nat, motion: StopMotion, fate: Fate) returns (result: Result<bool>)
      modifies this
      ensures (State(), result) == StopTracker(old(State()), id, motion, fate)
    {
      var session := Get(trackerSessions, id);
      trackerSessions := Remove(trackerSessions, id);
      if session.None? {
        return Success(true);
      }
      var built := StopMotionBuilt(motion);
      if built.Failure? {
        dropped := dropped + [id];
        return Failure(built.error);
      }
      var stopped := session.value.(stopSet := true);
      stops := stops + [StopRecord(id, stopped, fate.after)];
      RememberFinished(id, stopped, fate.after);
      return if fate.raises then Failure(ControlException) else Success(true);
    }

    method ReadStatus(id: nat, now: Reading) returns (result: Result<Status>)
      ensures result == TrackerStatus(State(), id, now)
    {
      var session := Get(trackerSessions, id);
      if session.Some? {
        return Success(StatusOf(id, session.value, now));
      }
      var status := Get(finishedStatuses, id);
      if status.None? {
        return Failure(KeyError);
      }
      return Success(status.value);
    }

    method DoStopRobot(robot: nat, raises: bool) returns (result: Result<bool>)
      modifies this`robotStops
      ensures (State(), result) == StopRobot(old(State()), robot, raises)
    {
      if robot !in robots {
        return Failure(KeyError);
      }
      robotStops := robotStops + [robot];
      return if raises then Failure(ControlException) else Success(true);
    }

    /** Results are discarded: what the calls raise is swallowed. */
    method DoShutdown(fates: nat -> Fate, raises: nat -> bool)
      modifies this
      ensures State() == Shutdown(old(State()), fates, raises)
    {
      hide StopTracker, StopRobot;
      var ids := Keys(trackerSessions);
      var i := 0;
      while i < |ids|
        invariant i <= |ids|
        invariant StopEach(State(), ids[i..], fates) == StopEach(old(State()), ids, fates)
      {
        var _ := DoStopTracker(ids[i], Default, fates(ids[i]));
        assert ids[i..][1..] == ids[i + 1..];
        i := i + 1;
      }
      var toStop := robots;
      i := 0;
      label Robots:
      while i < |toStop|
        invariant i <= |toStop|
        invariant StopEachRobot(State(), toStop[i..], raises) == StopEachRobot(old@Robots(State()), toStop, raises)
      {
        var _ := DoStopRobot(toStop[i], raises(toStop[i]));
        assert toStop[i..][1..] == toStop[i + 1..];
        i := i + 1;
      }
    }
  }
}
