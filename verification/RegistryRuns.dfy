/** Whole runs of the session registry: what its bounded memory and its map of live sessions always satisfy. */
module RegistryRuns {
  import opened Wrappers
  import opened OrderedDict
  import opened SessionRegistry
  import opened MotionWire
  import opened MotionRoundTrip
  import Motions
  import Wire
  import TrackerLifecycle
  import StopOutcome

  datatype Event =
    | CreateRobot(robot: nat, connects: bool)
    | StartCall(robot: nat, id: nat, passthrough: bool, start: StartFate)
    | StopCall(id: nat, motion: StopMotion, fate: Fate)
    | RobotStopCall(robot: nat, raises: bool)
    | ShutdownCall(fates: nat -> Fate, robotRaises: nat -> bool)

  function Apply(r: Registry, e: Event): Registry {
    match e
    case CreateRobot(robot, connects) => if connects then r.(robots := r.robots + [robot]) else r
    case StartCall(robot, id, passthrough, fate) => StartTracker(r, robot, id, passthrough, fate).0
    case StopCall(id, motion, fate) => StopTracker(r, id, motion, fate).0
    case RobotStopCall(robot, raises) => StopRobot(r, robot, raises).0
    case ShutdownCall(fates, raises) => Shutdown(r, fates, raises)
  }

  function Run(r: Registry, events: seq<Event>): Registry
    decreases |events|
  {
    if |events| == 0 then r else Run(Apply(r, events[0]), events[1..])
  }

  /** Robot and session ids are random, and taken to be new each time. */
  predicate NewIds(r: Registry, e: Event) {
    && (e.CreateRobot? ==> e.robot !in r.robots)
    && (e.StartCall? ==> e.id !in r.started)
  }

  predicate FreshRun(r: Registry, events: seq<Event>)
    decreases |events|
  {
    |events| > 0 ==> NewIds(r, events[0]) && FreshRun(Apply(r, events[0]), events[1..])
  }

  // --- The invariant -------------------------------------------------------------------------------

  function StopIds(stops: seq<StopRecord>): (ids: seq<nat>)
    ensures |ids| == |stops| && forall i :: 0 <= i < |stops| ==> ids[i] == stops[i].id
  {
    seq(|stops|, i requires 0 <= i < |stops| => stops[i].id)
  }

  /** Every stop with its status, without a bound. */
  function Frozen(stops: seq<StopRecord>): (d: seq<Item<Status>>)
    ensures |d| == |stops|
    ensures forall i ::
          0 <= i < |stops| ==> d[i] == Item(stops[i].id, StatusOf(stops[i].id, stops[i].session, stops[i].after))
  {
    seq(|stops|, i requires 0 <= i < |stops| => Item(stops[i].id,
        StatusOf(stops[i].id, stops[i].session, stops[i].after)))
  }

  function Latest<T>(s: seq<T>): seq<T> {
    if |s| <= FINISHED_STATUS_HISTORY then s else s[|s| - FINISHED_STATUS_HISTORY..]
  }

  predicate Bounded(r: Registry) {
    r.finished == Latest(Frozen(r.stops))
  }

  predicate Unique(r: Registry) {
    Distinct(r.robots) && Distinct(Keys(r.active)) && Distinct(StopIds(r.stops)) && Distinct(r.started)
  }

  /** Every started session is live, stopped or dropped, and only one of these. */
  ghost predicate Sorted(r: Registry) {
    && (forall id :: id in r.started <==> id in Keys(r.active) || id in StopIds(r.stops) || id in r.dropped)
    && (forall id :: !(id in Keys(r.active) && id in StopIds(r.stops)))
    && (forall id :: !(id in Keys(r.active) && id in r.dropped))
    && (forall id :: !(id in StopIds(r.stops) && id in r.dropped))
  }

  predicate StopsWereSet(r: Registry) {
    forall i :: 0 <= i < |r.stops| ==> r.stops[i].session.stopSet
  }

  ghost predicate Consistent(r: Registry) {
    Bounded(r) && Unique(r) && Sorted(r) && StopsWereSet(r)
  }

  /** A registered session has not been stopped. */
  predicate LiveUnstopped(r: Registry) {
    forall i :: 0 <= i < |r.active| ==> !r.active[i].value.stopSet
  }

  // --- Every step keeps it ---------------------------------------------------------------------------

  lemma {:induction false} EvictIsLatest(d: seq<Item<Status>>)
    ensures Evict(d) == Latest(d)
    decreases |d|
  {
    if |d| > FINISHED_STATUS_HISTORY {
      EvictIsLatest(d[1..]);
    }
  }

  lemma FrozenAppends(stops: seq<StopRecord>, last: StopRecord)
    ensures
      Frozen(stops + [last]) == Frozen(stops) + [Item(last.id, StatusOf(last.id, last.session, last.after))]
  {
    hide StatusOf;
  }

  lemma LatestOfLatest<T>(s: seq<T>, last: T)
    ensures Latest(Latest(s) + [last]) == Latest(s + [last])
  {
  }

  lemma RememberAppends(stops: seq<StopRecord>, last: StopRecord)
    requires last.id !in StopIds(stops)
    ensures
      Remember(Latest(Frozen(stops)), last.id, StatusOf(last.id, last.session, last.after))
          == Latest(Frozen(stops + [last]))
  {
    var all, status := Frozen(stops), StatusOf(last.id, last.session, last.after);
    var d, item := Latest(all), Item(last.id, status);
    LatestAt(all);
    FrozenAppends(stops, last);
    hide StatusOf, Frozen, Latest;
    forall i | 0 <= i < |d| ensures d[i].key != last.id {
      assert d[i] == all[|all| - |d| + i] && StopIds(stops)[|all| - |d| + i] != last.id;
    }
    assert Put(d, last.id, status) == d + [item];
    EvictIsLatest(d + [item]);
    LatestOfLatest(all, item);
  }

  lemma StartKeeps(r: Registry, robot: nat, id: nat, passthrough: bool, fate: StartFate)
    requires Consistent(r) && id !in r.started
    ensures Consistent(StartTracker(r, robot, id, passthrough, fate).0)
  {
    var session := Session(robot, passthrough, false);
    if StartTracker(r, robot, id, passthrough, fate).1.Success? {
      GetIff(r.active, id);
      assert Put(r.active, id, session) == r.active + [Item(id, session)];
      assert Keys(r.active + [Item(id, session)]) == Keys(r.active) + [id];
    }
  }

  lemma StopSessionKeeps(r: Registry, id: nat, session: Session, fate: Fate)
    requires Bounded(r) && Unique(r) && StopsWereSet(r) && id !in StopIds(r.stops)
    ensures var s := StopSession(r, id, session, fate).0; Bounded(s) && Unique(s) && StopsWereSet(s)
    ensures StopIds(StopSession(r, id, session, fate).0.stops) == StopIds(r.stops) + [id]
  {
    var last := StopRecord(id, session.(stopSet := true), fate.after);
    RememberAppends(r.stops, last);
    assert StopIds(r.stops + [last]) == StopIds(r.stops) + [id];
  }

  /** A session has left the registry and is not stopped or dropped yet. */
  ghost predicate Popped(r: Registry, id: nat) {
    && id in r.started && id !in Keys(r.active) && id !in StopIds(r.stops) && id !in r.dropped
    && (forall other :: other != id ==>
          (other in r.started <==> other in Keys(r.active) || other in StopIds(r.stops) || other in r.dropped))
    && (forall other :: !(other in Keys(r.active) && other in StopIds(r.stops)))
    && (forall other :: !(other in Keys(r.active) && other in r.dropped))
    && (forall other :: !(other in StopIds(r.stops) && other in r.dropped))
  }

  lemma PopKeeps(r: Registry, id: nat)
    requires Consistent(r) && id in Keys(r.active)
    ensures
      var popped := r.(active := Remove(r.active, id));
      Bounded(popped) && Unique(popped) && StopsWereSet(popped) && Popped(popped, id)
  {
    RemoveKeys(r.active, id);
    hide Remove, Latest, Frozen;
  }

  lemma DropKeeps(r: Registry, id: nat)
    requires Bounded(r) && Unique(r) && StopsWereSet(r) && Popped(r, id)
    ensures Consistent(r.(dropped := r.dropped + [id]))
  {
    hide Latest, Frozen;
  }

  lemma StoppedIsSorted(r: Registry, s: Registry, id: nat)
    requires Popped(r, id) && StopIds(s.stops) == StopIds(r.stops) + [id]
    requires s.active == r.active && s.started == r.started && s.dropped == r.dropped
    ensures Sorted(s)
  {
  }

  lemma StopKeeps(r: Registry, id: nat, motion: StopMotion, fate: Fate)
    requires Consistent(r)
    ensures Consistent(StopTracker(r, id, motion, fate).0)
  {
    GetIff(r.active, id);
    if id in Keys(r.active) {
      var session := Get(r.active, id).value;
      PopKeeps(r, id);
      var popped := r.(active := Remove(r.active, id));
      StopSessionKeeps(popped, id, session, fate);
      hide Bounded, Unique, StopsWereSet, Remember, Get, Remove, StopMotionBuilt;
      match StopMotionBuilt(motion)
      case Failure(_) => DropKeeps(popped, id);
      case Success(_) => StoppedIsSorted(popped, StopSession(popped, id, session, fate).0, id);
    }
  }

  lemma {:induction false} StopEachKeeps(r: Registry, ids: seq<nat>, fates: nat -> Fate)
    requires Consistent(r)
    ensures Consistent(StopEach(r, ids, fates))
    decreases |ids|
  {
    hide StopTracker, Consistent;
    if ids != [] {
      StopKeeps(r, ids[0], Default, fates(ids[0]));
      StopEachKeeps(StopTracker(r, ids[0], Default, fates(ids[0])).0, ids[1..], fates);
    }
  }

  /** Stopping robots only extends the list of robot stops, by each known robot in turn. */
  lemma {:induction false} RobotStopsOnly(r: Registry, robots: seq<nat>, raises: nat -> bool)
    requires forall i :: 0 <= i < |robots| ==> robots[i] in r.robots
    ensures StopEachRobot(r, robots, raises) == r.(robotStops := r.robotStops + robots)
    decreases |robots|
  {
    if robots != [] {
      RobotStopsOnly(StopRobot(r, robots[0], raises(robots[0])).0, robots[1..], raises);
      assert r.robotStops + robots == (r.robotStops + [robots[0]]) + robots[1..];
    }
  }

  /** What is remembered of robot stops is outside the invariant. */
  lemma RobotStopsKeep(r: Registry, robotStops: seq<nat>)
    requires Consistent(r)
    ensures Consistent(r.(robotStops := robotStops))
  {
  }

  lemma RobotsDiffer(r: Registry)
    requires Consistent(r)
    ensures Distinct(r.robots)
  {
  }

  lemma ApplyKeeps(r: Registry, e: Event)
    requires Consistent(r) && NewIds(r, e)
    ensures Consistent(Apply(r, e))
  {
    match e
    case CreateRobot(_, _) =>
    case StartCall(robot, id, passthrough, fate) => StartKeeps(r, robot, id, passthrough, fate);
    case StopCall(id, motion, fate) => StopKeeps(r, id, motion, fate);
    case RobotStopCall(_, _) =>
    case ShutdownCall(fates, raises) =>
      StopEachKeeps(r, Keys(r.active), fates);
      var s := StopEach(r, Keys(r.active), fates);
      RobotStopsOnly(s, s.robots, raises);
  }

  /** Main result: the invariant holds after every run from any consistent state, in particular from an empty one. */
  lemma {:induction false} RunKeeps(r: Registry, events: seq<Event>)
    requires Consistent(r) && FreshRun(r, events)
    ensures Consistent(Run(r, events))
    decreases |events|
  {
    hide Apply, Consistent;
    if |events| > 0 {
      ApplyKeeps(r, events[0]);
      RunKeeps(Apply(r, events[0]), events[1..]);
    }
  }

  // --- What every run guarantees ---------------------------------------------------------------------

  function After(events: seq<Event>): Registry {
    Run(Empty(), events)
  }

  lemma AfterIsConsistent(events: seq<Event>)
    requires FreshRun(Empty(), events)
    ensures Consistent(After(events))
  {
    RunKeeps(Empty(), events);
  }

  /**
   Main result: the bounded memory is an unbounded log of stops cut to its last 32 entries, in order and
   with the values of the moment of each stop, and shares no id with the live sessions.
   */
  lemma FinishedIsLatestStops(events: seq<Event>)
    requires FreshRun(Empty(), events)
    ensures
      var r := After(events);
      && r.finished == Latest(Frozen(r.stops))
      && Keys(r.finished) == Latest(StopIds(r.stops))
      && |r.finished| == (if |r.stops| <= 32 then |r.stops| else 32)
      && forall id :: !(id in Keys(r.active) && id in Keys(r.finished))
  {
    AfterIsConsistent(events);
    var r := After(events);
    hide Run;
    assert Keys(r.finished) == Latest(StopIds(r.stops));
    assert forall id :: id in Latest(StopIds(r.stops)) ==> id in StopIds(r.stops);
  }

  /** Main result: no run, shutdown included, calls `session.stop` twice for one id, whatever those calls raise. */
  lemma StopsOncePerSession(events: seq<Event>)
    requires FreshRun(Empty(), events)
    ensures
      var r := After(events);
      && Distinct(StopIds(r.stops))
      && forall id :: id in StopIds(r.stops) ==> id in r.started && id !in Keys(r.active) && id !in r.dropped
  {
    AfterIsConsistent(events);
  }

  /** The live sessions `ids` have all been stopped in going from `r` to `s`, and nothing but that. */
  predicate AllStopped(r: Registry, s: Registry, ids: seq<nat>) {
    && s.active == [] && StopIds(s.stops) == StopIds(r.stops) + ids
    && s.robots == r.robots && s.robotStops == r.robotStops && s.dropped == r.dropped
  }

  lemma {:induction false} StopEachEmpties(r: Registry, ids: seq<nat>, fates: nat -> Fate)
    requires Consistent(r) && ids == Keys(r.active)
    ensures AllStopped(r, StopEach(r, ids, fates), ids)
    decreases |ids|
  {
    hide StopTracker, Consistent, AllStopped;
    if ids == [] {
      NothingToStop(r);
    } else {
      var s := StopTracker(r, ids[0], Default, fates(ids[0])).0;
      StopFirst(r, ids, fates(ids[0]));
      StopKeeps(r, ids[0], Default, fates(ids[0]));
      StopEachEmpties(s, ids[1..], fates);
      AllStoppedStep(r, s, StopEach(s, ids[1..], fates), ids);
    }
  }

  lemma NothingToStop(r: Registry)
    requires Keys(r.active) == []
    ensures AllStopped(r, r, [])
  {
    assert |r.active| == |Keys(r.active)|;
  }

  lemma StopFirst(r: Registry, ids: seq<nat>, fate: Fate)
    requires Consistent(r) && ids == Keys(r.active) && ids != []
    ensures
      var s := StopTracker(r, ids[0], Default, fate).0;
      && Keys(s.active) == ids[1..] && StopIds(s.stops) == StopIds(r.stops) + [ids[0]]
      && s.robots == r.robots && s.robotStops == r.robotStops && s.dropped == r.dropped
  {
    hide Remember;
  }

  lemma AllStoppedStep(r: Registry, s: Registry, t: Registry, ids: seq<nat>)
    requires ids != [] && AllStopped(s, t, ids[1..])
    requires StopIds(s.stops) == StopIds(r.stops) + [ids[0]]
    requires s.robots == r.robots && s.robotStops == r.robotStops && s.dropped == r.dropped
    ensures AllStopped(r, t, ids)
  {
    assert ids == [ids[0]] + ids[1..];
  }

  /**
   Main result: shutdown leaves no live session, having called `stop` once for each session that was
   live and once for every robot, in order, even when every call raises.
   */
  lemma ShutdownStopsEverything(events: seq<Event>, fates: nat -> Fate, raises: nat -> bool)
    requires FreshRun(Empty(), events)
    ensures
      var (r, s) := (After(events), Shutdown(After(events), fates, raises));
      && s.active == []
      && StopIds(s.stops) == StopIds(r.stops) + Keys(r.active)
      && s.robotStops == r.robotStops + r.robots && Distinct(r.robots)
      && Consistent(s)
  {
    AfterIsConsistent(events);
    var r := After(events);
    StopEachEmpties(r, Keys(r.active), fates);
    StopEachKeeps(r, Keys(r.active), fates);
    hide Run, StopEach, Consistent;
    var s := StopEach(r, Keys(r.active), fates);
    RobotStopsOnly(s, s.robots, raises);
    RobotStopsKeep(s, s.robotStops + s.robots);
    RobotsDiffer(r);
  }

  // --- Ids that are gone stay gone ---------------------------------------------------------------------

  predicate Gone(r: Registry, id: nat) {
    id in r.started && id !in Keys(r.active)
  }

  lemma StopLeavesGone(r: Registry, id: nat, motion: StopMotion, fate: Fate)
    requires Consistent(r) && id in r.started
    ensures Gone(StopTracker(r, id, motion, fate).0, id)
  {
    GetIff(r.active, id);
    RemoveKeys(r.active, id);
  }

  lemma StopsGrow(r: Registry, id: nat, motion: StopMotion, fate: Fate)
    ensures StopIds(r.stops) <= StopIds(StopTracker(r, id, motion, fate).0.stops)
  {
    hide Remember, StopMotionBuilt, Remove, Get, StatusOf;
  }

  lemma StopKeepsGone(r: Registry, id: nat, other: nat, motion: StopMotion, fate: Fate)
    requires Consistent(r) && Gone(r, id)
    ensures Gone(StopTracker(r, other, motion, fate).0, id)
    ensures id in r.dropped ==> id in StopTracker(r, other, motion, fate).0.dropped
    ensures id in StopIds(r.stops) ==> id in StopIds(StopTracker(r, other, motion, fate).0.stops)
  {
    StopsGrow(r, other, motion, fate);
    RemoveKeys(r.active, other);
    hide StopMotionBuilt, Remember, StatusOf;
  }

  lemma {:induction false} StopEachKeepsGone(r: Registry, id: nat, ids: seq<nat>, fates: nat -> Fate)
    requires Consistent(r) && Gone(r, id)
    ensures Gone(StopEach(r, ids, fates), id)
    ensures id in r.dropped ==> id in StopEach(r, ids, fates).dropped
    ensures id in StopIds(r.stops) ==> id in StopIds(StopEach(r, ids, fates).stops)
    decreases |ids|
  {
    hide StopTracker, Consistent, Gone;
    if ids != [] {
      StopKeepsGone(r, id, ids[0], Default, fates(ids[0]));
      StopKeeps(r, ids[0], Default, fates(ids[0]));
      StopEachKeepsGone(StopTracker(r, ids[0], Default, fates(ids[0])).0, id, ids[1..], fates);
    }
  }

  lemma ApplyKeepsGone(r: Registry, id: nat, e: Event)
    requires Consistent(r) && NewIds(r, e) && Gone(r, id)
    ensures Gone(Apply(r, e), id)
    ensures id in r.dropped ==> id in Apply(r, e).dropped
    ensures id in StopIds(r.stops) ==> id in StopIds(Apply(r, e).stops)
  {
    match e
    case CreateRobot(_, _) =>
    case StartCall(robot, added, passthrough, fate) =>
      GetIff(r.active, added);
      assert Keys(r.active + [Item(added, Session(robot, passthrough, false))]) == Keys(r.active) + [added];
    case StopCall(other, motion, fate) => StopKeepsGone(r, id, other, motion, fate);
    case RobotStopCall(_, _) =>
    case ShutdownCall(fates, raises) =>
      StopEachKeepsGone(r, id, Keys(r.active), fates);
      var s := StopEach(r, Keys(r.active), fates);
      RobotStopsOnly(s, s.robots, raises);
  }

  lemma {:induction false} RunKeepsGone(r: Registry, id: nat, events: seq<Event>)
    requires Consistent(r) && FreshRun(r, events) && Gone(r, id)
    ensures Gone(Run(r, events), id)
    ensures id in r.dropped ==> id in Run(r, events).dropped
    ensures id in StopIds(r.stops) ==> id in StopIds(Run(r, events).stops)
    decreases |events|
  {
    hide Apply, Consistent, Gone;
    if |events| > 0 {
      ApplyKeepsGone(r, id, events[0]);
      ApplyKeeps(r, events[0]);
      RunKeepsGone(Apply(r, events[0]), id, events[1..]);
    }
  }

  /** Main result: however long after the first, a further stop of the same session answers True and changes nothing. */
  lemma StopAgainIsHarmless(
      before: seq<Event>, id: nat, first: StopMotion, fate: Fate, later: seq<Event>, motion: StopMotion,
      fateAgain: Fate)
    requires FreshRun(Empty(), before) && id in After(before).started
    requires FreshRun(StopTracker(After(before), id, first, fate).0, later)
    ensures
      var s := Run(StopTracker(After(before), id, first, fate).0, later);
      StopTracker(s, id, motion, fateAgain) == (s, Success(true))
  {
    AfterIsConsistent(before);
    var r := After(before);
    StopKeeps(r, id, first, fate);
    StopLeavesGone(r, id, first, fate);
    var stopped := StopTracker(r, id, first, fate).0;
    RunKeepsGone(stopped, id, later);
    var s := Run(stopped, later);
    hide Run, Consistent;
    GetIff(s.active, id);
  }

  /** What one stop of a live session does with its id. */
  lemma LiveStop(r: Registry, id: nat, motion: StopMotion, fate: Fate)
    requires Consistent(r) && id in Keys(r.active)
    ensures
      var (s, answer) := StopTracker(r, id, motion, fate);
      match StopMotionBuilt(motion)
      case Failure(error) => answer == Failure(error) && id in s.dropped
      case Success(_) =>
            answer == (if fate.raises then Failure(ControlException) else Success(true)) && id in StopIds(s.stops)
  {
    GetIff(r.active, id);
    hide StopMotionBuilt, Remember;
    if StopMotionBuilt(motion).Success? {
      var s := StopTracker(r, id, motion, fate).0;
      assert StopIds(s.stops)[|r.stops|] == id;
    }
  }

  /**
   Main result: a stop of a live session calls its `stop`, and leaves a status to be read, exactly when its stop
   motion builds. Otherwise the session has been popped for nothing: however long after, its `stop` has never
   been called, its status is unknown, and asking again answers True.
   */
  lemma StopReachesSessionIff(
      before: seq<Event>, id: nat, motion: StopMotion, fate: Fate, later: seq<Event>, again: StopMotion,
      fateAgain: Fate, now: Reading)
    requires FreshRun(Empty(), before) && id in Keys(After(before).active)
    requires FreshRun(StopTracker(After(before), id, motion, fate).0, later)
    ensures
      var stopped := StopTracker(After(before), id, motion, fate).0;
      var s := Run(stopped, later);
      && (id in StopIds(s.stops) <==> StopMotionBuilt(motion).Success?)
      && (TrackerStatus(stopped, id, now).Success? <==> StopMotionBuilt(motion).Success?)
      && (StopMotionBuilt(motion).Failure? ==>
            && StopTracker(After(before), id, motion, fate).1 == Failure(StopMotionBuilt(motion).error)
            && TrackerStatus(s, id, now) == Failure(KeyError)
            && StopTracker(s, id, again, fateAgain) == (s, Success(true)))
      && (StopMotionBuilt(motion).Success? ==>
            StopTracker(After(before), id, motion, fate).1
            == if fate.raises then Failure(ControlException) else Success(true))
  {
    AfterIsConsistent(before);
    var r := After(before);
    var stopped := StopTracker(r, id, motion, fate).0;
    LiveStop(r, id, motion, fate);
    StopKeeps(r, id, motion, fate);
    StopLeavesGone(r, id, motion, fate);
    RunKeepsGone(stopped, id, later);
    RunKeeps(stopped, later);
    StopAgainIsHarmless(before, id, motion, fate, later, again, fateAgain);
    hide Run, StopTracker, StopMotionBuilt, After, FreshRun;
    if StopMotionBuilt(motion).Success? {
      LastStopReadable(r, id, motion, fate, now);
    } else {
      StatusOfDropped(stopped, id, now);
      StatusOfDropped(Run(stopped, later), id, now);
    }
  }

  lemma LastStopReadable(r: Registry, id: nat, motion: StopMotion, fate: Fate, now: Reading)
    requires Consistent(r) && id in Keys(r.active) && StopMotionBuilt(motion).Success?
    ensures TrackerStatus(StopTracker(r, id, motion, fate).0, id, now).Success?
  {
    StopKeeps(r, id, motion, fate);
    StopLeavesGone(r, id, motion, fate);
    GetIff(r.active, id);
    var s := StopTracker(r, id, motion, fate).0;
    hide StopMotionBuilt, Remember, StatusOf;
    assert s.stops[|r.stops|].id == id;
    GetIff(s.active, id);
    hide StopTracker, Latest, Frozen, Sorted, StopsWereSet;
    LatestHolds(s.stops, |r.stops|);
  }

  /**
   Any motion of the modelled types that a client can encode builds, so it cannot strand a session as a stop motion.
   */
  lemma EncodedStopMotionBuilds(m: Motions.Motion, otherBuilds: bool)
    ensures StopMotionBuilt(Payload(EncodeMotion(m), otherBuilds)) == Success(true)
  {
    MotionArrives(m);
    EncodedNamesModelled(m);
    hide BuildMotion, EncodeMotion, Arriving, IsOtherMotion;
  }

  /** The default ramp is always there; a payload builds if its type is known and its builder takes it. */
  lemma StopMotionBuildsIff(motion: StopMotion)
    ensures
      StopMotionBuilt(motion).Success?
      <==> match motion
           case Default => true
           case Payload(wire, otherBuilds) =>
             match Wire.Field(wire, Wire.TypeKey)
             case Success(Text(OtherName(text))) =>
               otherBuilds && text in {"JointImpedanceMotion", "CartesianImpedanceMotion", "TorqueStopMotion"}
             case _ => BuildMotion(wire).Success?
  {
    hide BuildCartesianMotion, BuildCartesianWaypointMotion, BuildJointMotion, BuildJointWaypointMotion;
  }

  lemma EncodedNamesModelled(m: Motions.Motion)
    ensures !IsOtherMotion(EncodeMotion(m))
  {
    hide EncodeDynamics, EncodeOptionalAffine, EncodeCartesianState, EncodeJointState, EncodeVelocityTarget,
        EncodeVector7, Wire.Map;
  }

  // --- Motions that no session owns ------------------------------------------------------------------------

  /** The sessions that own the motions started, in order. */
  function Owners(moves: seq<Move>): seq<nat> {
    if moves == [] then []
    else
      var last := moves[|moves| - 1];
      Owners(moves[..|moves| - 1]) + (if last.owner.Some? then [last.owner.value] else [])
  }

  predicate Owned(r: Registry) {
    Owners(r.moves) == r.started
  }

  lemma OwnersOfNone()
    ensures Owners([]) == []
  {
  }

  lemma OwnersGrow(moves: seq<Move>, last: Move)
    ensures Owners(moves + [last]) == Owners(moves) + (if last.owner.Some? then [last.owner.value] else [])
  {
    assert (moves + [last])[..|moves|] == moves;
  }

  lemma StartKeepsOwned(r: Registry, robot: nat, id: nat, passthrough: bool, fate: StartFate)
    requires Owned(r)
    ensures Owned(StartTracker(r, robot, id, passthrough, fate).0)
  {
    hide Put, Owners;
    OwnersGrow(r.moves, Move(robot, None));
    OwnersGrow(r.moves, Move(robot, Some(id)));
  }

  lemma StopKeepsMoves(r: Registry, id: nat, motion: StopMotion, fate: Fate)
    ensures
      var s := StopTracker(r, id, motion, fate).0;
      s.moves == r.moves && s.started == r.started && s.robots == r.robots && s.robotStops == r.robotStops
  {
    hide StopMotionBuilt, Remember, Remove, Get;
  }

  /** Stops do not start tracking motions. */
  lemma {:induction false} StopEachKeepsMoves(r: Registry, ids: seq<nat>, fates: nat -> Fate)
    ensures
      var s := StopEach(r, ids, fates);
      s.moves == r.moves && s.started == r.started && s.robots == r.robots && s.robotStops == r.robotStops
    decreases |ids|
  {
    hide StopTracker;
    if ids != [] {
      StopKeepsMoves(r, ids[0], Default, fates(ids[0]));
      StopEachKeepsMoves(StopTracker(r, ids[0], Default, fates(ids[0])).0, ids[1..], fates);
    }
  }

  lemma ApplyKeepsOwned(r: Registry, e: Event)
    requires Owned(r)
    ensures Owned(Apply(r, e))
    ensures !e.StartCall? ==> Apply(r, e).moves == r.moves
  {
    hide StartTracker, StopTracker, StopEach, StopEachRobot, Owners;
    match e
    case CreateRobot(_, _) =>
    case StartCall(robot, id, passthrough, fate) => StartKeepsOwned(r, robot, id, passthrough, fate);
    case StopCall(id, motion, fate) => StopKeepsMoves(r, id, motion, fate);
    case RobotStopCall(_, _) =>
    case ShutdownCall(fates, raises) =>
      StopEachKeepsMoves(r, Keys(r.active), fates);
      var s := StopEach(r, Keys(r.active), fates);
      RobotStopsOnly(s, s.robots, raises);
  }

  /** The robot takes the motion, and a policy that is given can be loaded. */
  predicate Starts(passthrough: bool, fate: StartFate) {
    fate.Moved? && (passthrough || fate.policyLoads)
  }

  /** How a start answers, and what it leaves behind. */
  lemma StartAnswers(r: Registry, robot: nat, id: nat, passthrough: bool, fate: StartFate)
    ensures
      var (s, answer) := StartTracker(r, robot, id, passthrough, fate);
      && (answer == Failure(KeyError) <==> robot !in r.robots)
      && (answer == Failure(ControlException) <==> robot in r.robots && fate.Refused?)
      && (answer == Failure(PolicyError) <==> robot in r.robots && fate.Moved? && !Starts(passthrough, fate))
      && (answer.Success? <==> robot in r.robots && Starts(passthrough, fate))
      && (answer.Success? ==>
            && answer.value == id
            && s == r.(moves := r.moves + [Move(robot, Some(id))], started := r.started + [id], active := s.active)
            && (id !in Keys(r.active) ==> s.active == r.active + [Item(id, Session(robot, passthrough, false))]))
      && (answer == Failure(PolicyError) ==> s == r.(moves := r.moves + [Move(robot, None)]))
      && (answer.Failure? && answer != Failure(PolicyError) ==> s == r)
  {
    GetIff(r.active, id);
  }

  /** The robot that an event adds to those known. */
  function Connecting(e: Event): seq<nat> {
    if e.CreateRobot? && e.connects then [e.robot] else []
  }

  /** The robots connected in a run, in order. */
  function Connected(events: seq<Event>): seq<nat> {
    if events == [] then [] else Connected(events[..|events| - 1]) + Connecting(events[|events| - 1])
  }

  /** The `k`-th event starts a session: its robot was connected before, and the start goes well. */
  predicate Succeeds(events: seq<Event>, k: nat)
    requires k < |events|
  {
    events[k].StartCall? && events[k].robot in Connected(events[..k]) && Starts(events[k].passthrough, events[k].start)
  }

  /** The `k`-th event leaves a motion only: its robot was connected before and takes it, and the policy fails. */
  predicate Strands(events: seq<Event>, k: nat)
    requires k < |events|
  {
    && events[k].StartCall? && events[k].robot in Connected(events[..k])
    && events[k].start.Moved? && !Starts(events[k].passthrough, events[k].start)
  }

  /** The motions that the events of a run start, in order, each with its owner. */
  function MovesOf(events: seq<Event>): seq<Move> {
    if events == [] then []
    else
      var last := |events| - 1;
      MovesOf(events[..last])
      + if Succeeds(events, last) then [Move(events[last].robot, Some(events[last].id))]
        else if Strands(events, last) then [Move(events[last].robot, None)]
        else []
  }

  /** The calls of `robot.stop` that the events of a run lead to, in order. */
  function RobotStopsOf(events: seq<Event>): seq<nat> {
    if events == [] then []
    else
      var before, last := events[..|events| - 1], events[|events| - 1];
      RobotStopsOf(before)
      + match last
        case RobotStopCall(robot, _) => if robot in Connected(before) then [robot] else []
        case ShutdownCall(_, _) => Connected(before)
        case _ => []
  }

  lemma {:induction false} RunInTwoParts(r: Registry, first: seq<Event>, second: seq<Event>)
    ensures Run(r, first + second) == Run(Run(r, first), second)
    decreases |first|
  {
    hide Apply;
    if first == [] {
      assert first + second == second;
    } else {
      assert (first + second)[1..] == first[1..] + second;
      RunInTwoParts(Apply(r, first[0]), first[1..], second);
    }
  }

  lemma AfterLast(events: seq<Event>)
    requires events != []
    ensures After(events) == Apply(After(events[..|events| - 1]), events[|events| - 1])
  {
    hide Apply;
    var before, last := events[..|events| - 1], events[|events| - 1];
    assert events == before + [last] && [last][1..] == [];
    RunInTwoParts(Empty(), before, [last]);
    assert Run(Apply(After(before), last), []) == Apply(After(before), last);
  }

  /** What one event does to the robots known, the motions started and the robots stopped. */
  lemma EventMoves(r: Registry, e: Event)
    ensures Apply(r, e).robots == r.robots + Connecting(e)
    ensures
      Apply(r, e).robotStops
      == r.robotStops
         + match e
           case RobotStopCall(robot, _) => if robot in r.robots then [robot] else []
           case ShutdownCall(_, _) => r.robots
           case _ => []
    ensures
      Apply(r, e).moves
      == r.moves
         + (if e.StartCall? && e.robot in r.robots && Starts(e.passthrough, e.start) then [Move(e.robot, Some(e.id))]
            else if e.StartCall? && e.robot in r.robots && e.start.Moved? && !Starts(e.passthrough, e.start) then
              [Move(e.robot, None)]
            else [])
  {
    hide StopTracker, StopEach, StopEachRobot, Put;
    match e
    case CreateRobot(_, _) =>
    case StartCall(_, _, _, _) =>
    case StopCall(id, motion, fate) => StopKeepsMoves(r, id, motion, fate);
    case RobotStopCall(_, _) =>
    case ShutdownCall(fates, raises) =>
      StopEachKeepsMoves(r, Keys(r.active), fates);
      var s := StopEach(r, Keys(r.active), fates);
      RobotStopsOnly(s, s.robots, raises);
  }

  /**
   Main result: in any run whatever, the robots known are those that connected; the motions started are, in order,
   those of the starts that succeed, owned by their sessions, and those of the starts whose policy fails, owned by
   none; and the robots stopped are, in order, those named while known and all those known at a shutdown. All of it is
   said by the events alone.
   */
  lemma {:induction false} MovesAreStarts(events: seq<Event>)
    ensures After(events).robots == Connected(events)
    ensures After(events).moves == MovesOf(events)
    ensures After(events).robotStops == RobotStopsOf(events)
    ensures Owners(After(events).moves) == After(events).started
    decreases |events|
  {
    hide Run, Apply, Owners, Starts, Connecting;
    if events == [] {
      OwnersOfNone();
      NothingRun();
    } else {
      MovesAreStarts(events[..|events| - 1]);
      AfterLast(events);
      EventMoves(After(events[..|events| - 1]), events[|events| - 1]);
      ApplyKeepsOwned(After(events[..|events| - 1]), events[|events| - 1]);
    }
  }

  lemma NothingRun()
    ensures After([]) == Empty()
  {
  }

  /**
   Main result: after any run, a start answers with its session's id exactly when the robot has connected and takes
   the motion and no policy was given or it loads, and then adds just that session and its motion. It answers with a
   key error exactly for a robot that has not connected, and with the robot's own exception exactly for one that has
   and refuses, and then leaves nothing. What remains is a policy error, which leaves a motion that no session owns and
   so none can stop.
   */
  lemma StartAnswersIff(events: seq<Event>, robot: nat, id: nat, passthrough: bool, fate: StartFate)
    ensures
      var (r, known) := (After(events), robot in Connected(events));
      var (s, answer) := StartTracker(r, robot, id, passthrough, fate);
      && (answer.Success? <==> known && Starts(passthrough, fate))
      && (answer == Failure(KeyError) <==> !known)
      && (answer == Failure(ControlException) <==> known && fate.Refused?)
      && (answer == Failure(PolicyError) <==> known && fate.Moved? && !Starts(passthrough, fate))
      && (answer.Success? ==>
            && answer.value == id
            && s == r.(moves := r.moves + [Move(robot, Some(id))], started := r.started + [id], active := s.active)
            && (id !in Keys(r.active) ==> s.active == r.active + [Item(id, Session(robot, passthrough, false))]))
      && (answer == Failure(PolicyError) ==> s == r.(moves := r.moves + [Move(robot, None)]))
      && (answer.Failure? && answer != Failure(PolicyError) ==> s == r)
  {
    MovesAreStarts(events);
    hide Run, StartTracker, Starts, Connected;
    StartAnswers(After(events), robot, id, passthrough, fate);
  }

  /**
   Main result: a robot's stop is called exactly if it has connected, and then its exception is the caller's; for any
   other robot the answer is a key error. Nothing else changes.
   */
  lemma RobotStopAnswersIff(events: seq<Event>, robot: nat, raises: bool)
    ensures
      var (r, known) := (After(events), robot in Connected(events));
      var (s, answer) := StopRobot(r, robot, raises);
      && s == r.(robotStops := s.robotStops) && s.robotStops == RobotStopsOf(events) + (if known then [robot] else [])
      && (answer == Failure(KeyError) <==> !known)
      && (answer == Failure(ControlException) <==> known && raises)
      && (answer == Success(true) <==> known && !raises)
  {
    MovesAreStarts(events);
    hide Run, Connected, RobotStopsOf;
  }

  // --- What a status call answers -----------------------------------------------------------------------

  lemma StatusOfDropped(r: Registry, id: nat, now: Reading)
    requires Consistent(r) && id !in Keys(r.active) && id !in StopIds(r.stops)
    ensures TrackerStatus(r, id, now) == Failure(KeyError)
  {
    GetIff(r.active, id);
    GetIff(r.finished, id);
    forall i | 0 <= i < |r.finished| ensures Keys(r.finished)[i] != id {
      var j := |r.stops| - |r.finished| + i;
      assert r.finished[i] == Frozen(r.stops)[j] && StopIds(r.stops)[j] != id;
    }
  }

  lemma LatestAt<T>(s: seq<T>)
    ensures |Latest(s)| == if |s| <= FINISHED_STATUS_HISTORY then |s| else FINISHED_STATUS_HISTORY
    ensures forall j :: 0 <= j < |Latest(s)| ==> Latest(s)[j] == s[|s| - |Latest(s)| + j]
  {
  }

  lemma NotThere<V>(d: seq<Item<V>>, key: nat)
    requires forall j :: 0 <= j < |d| ==> d[j].key != key
    ensures Get(d, key) == None
  {
  }

  lemma LatestHolds(stops: seq<StopRecord>, i: nat)
    requires i < |stops| && Distinct(StopIds(stops))
    ensures
      Get(Latest(Frozen(stops)), stops[i].id)
      == if |stops| - 1 - i < FINISHED_STATUS_HISTORY
          then Some(StatusOf(stops[i].id, stops[i].session, stops[i].after)) else None
  {
    var all, ids, kept := Frozen(stops), StopIds(stops), Latest(Frozen(stops));
    LatestAt(all);
    var first := |all| - |kept|;
    hide Frozen, StopIds, Latest, StatusOf, Get;
    assert ids[i] == stops[i].id;
    forall j | 0 <= j < |kept| && first + j != i ensures kept[j].key != stops[i].id {
      assert all[first + j].key == ids[first + j];
    }
    if i >= first {
      assert kept[i - first] == all[i];
      GetAt(kept, i - first);
    } else {
      NotThere(kept, stops[i].id);
    }
  }

  /**
   Main result: a stopped session's status can be read exactly as long as fewer than 32 sessions were
   stopped after it, and then it is the one frozen at its stop. That one says running only for a policy
   session whose thread outlived the join while the arm was still in control.
   */
  lemma StoppedStatusIff(events: seq<Event>, i: nat, now: Reading)
    requires FreshRun(Empty(), events) && i < |After(events).stops|
    ensures
      var r := After(events);
      var stop := r.stops[i];
      var answer := TrackerStatus(r, stop.id, now);
      && (answer.Success? <==> |r.stops| - 1 - i < 32)
      && (answer.Success? ==> answer.value == StatusOf(stop.id, stop.session, stop.after))
      && (answer.Success? ==>
            && answer.value.passthrough == stop.session.passthrough
            && answer.value.iterations == stop.after.iterations && answer.value.failed == stop.after.failed
            && (answer.value.running <==> !stop.session.passthrough && stop.after.inControl && stop.after.threadAlive))
  {
    AfterIsConsistent(events);
    var r := After(events);
    hide Run, Latest, Frozen, Distinct;
    assert StopIds(r.stops)[i] == r.stops[i].id;
    GetIff(r.active, r.stops[i].id);
    LatestHolds(r.stops, i);
  }

  lemma StopKeepsLive(r: Registry, id: nat, motion: StopMotion, fate: Fate)
    requires LiveUnstopped(r)
    ensures LiveUnstopped(StopTracker(r, id, motion, fate).0)
  {
    hide Remember, StatusOf;
  }

  lemma {:induction false} StopEachKeepsLive(r: Registry, ids: seq<nat>, fates: nat -> Fate)
    requires LiveUnstopped(r)
    ensures LiveUnstopped(StopEach(r, ids, fates))
    decreases |ids|
  {
    hide StopTracker, LiveUnstopped;
    if ids != [] {
      StopKeepsLive(r, ids[0], Default, fates(ids[0]));
      StopEachKeepsLive(StopTracker(r, ids[0], Default, fates(ids[0])).0, ids[1..], fates);
    }
  }

  lemma {:induction false} RobotStopsKeepLive(r: Registry, robots: seq<nat>, raises: nat -> bool)
    ensures StopEachRobot(r, robots, raises).active == r.active
    decreases |robots|
  {
    if robots != [] {
      RobotStopsKeepLive(StopRobot(r, robots[0], raises(robots[0])).0, robots[1..], raises);
    }
  }

  lemma ApplyKeepsLive(r: Registry, e: Event)
    requires LiveUnstopped(r)
    ensures LiveUnstopped(Apply(r, e))
  {
    match e
    case CreateRobot(_, _) =>
    case StartCall(_, _, _, _) =>
    case StopCall(id, motion, fate) => StopKeepsLive(r, id, motion, fate);
    case RobotStopCall(_, _) =>
    case ShutdownCall(fates, raises) =>
      StopEachKeepsLive(r, Keys(r.active), fates);
      var s := StopEach(r, Keys(r.active), fates);
      RobotStopsKeepLive(s, s.robots, raises);
  }

  lemma {:induction false} RunKeepsLive(r: Registry, events: seq<Event>)
    requires LiveUnstopped(r)
    ensures LiveUnstopped(Run(r, events))
    decreases |events|
  {
    hide Apply, LiveUnstopped;
    if |events| > 0 {
      ApplyKeepsLive(r, events[0]);
      RunKeepsLive(Apply(r, events[0]), events[1..]);
    }
  }

  /**
   Main result: a status call answers for exactly the live sessions and the last 32 stopped ones; for a live
   one it says running if and only if the arm is in control and, with a policy, its thread is alive.
   */
  lemma StatusAnswersIff(events: seq<Event>, id: nat, now: Reading)
    requires FreshRun(Empty(), events)
    ensures
      var r := After(events);
      var answer := TrackerStatus(r, id, now);
      && (answer.Success? <==> id in Keys(r.active) || id in Latest(StopIds(r.stops)))
      && (answer.Success? ==> answer.value.id == id)
      && (id in Keys(r.active) ==>
            && answer.value.iterations == now.iterations && answer.value.failed == now.failed
            && (answer.value.running <==> now.inControl && (answer.value.passthrough || now.threadAlive)))
  {
    FinishedIsLatestStops(events);
    RunKeepsLive(Empty(), events);
    var r := After(events);
    hide Run, Latest;
    GetIff(r.active, id);
    GetIff(r.finished, id);
    FrozenNamesItself(events, id);
  }

  lemma FrozenNamesItself(events: seq<Event>, id: nat)
    requires FreshRun(Empty(), events)
    ensures var status := Get(After(events).finished, id); status.Some? ==> status.value.id == id
  {
    AfterIsConsistent(events);
    var r := After(events);
    hide Run;
    var i := IndexOf(r.finished, id);
    if i < |r.finished| {
      assert r.finished[i] == Frozen(r.stops)[|r.stops| - |r.finished| + i];
    }
  }

  /** What a status reading sees of a session's two threads. */
  function ReadingOf(s: TrackerLifecycle.State): Reading {
    Reading(s.inControl, !s.policy.Exited?, s.progress.iterations, s.progress.errored)
  }

  /** The status of a session is running exactly when its threads say so. */
  lemma StatusReadsThreads(id: nat, session: Session, c: TrackerLifecycle.Config, s: TrackerLifecycle.State)
    requires session.passthrough == !c.hasPolicy && session.stopSet == s.stopEvent
    ensures StatusOf(id, session, ReadingOf(s)).running == StopOutcome.Running(c, s)
  {
  }

  /** A robot, one policy session on it, and a stop of that session after which `after` is read. */
  function OneStop(motion: StopMotion, after: Reading): seq<Event> {
    [CreateRobot(0, true), StartCall(0, 1, false, Moved(true)), StopCall(1, motion, Fate(false, after))]
  }

  lemma OneStopRuns(motion: StopMotion, after: Reading)
    requires StopMotionBuilt(motion).Success?
    ensures FreshRun(Empty(), OneStop(motion, after))
    ensures After(OneStop(motion, after)).stops == [StopRecord(1, Session(0, false, true), after)]
  {
    hide Remember, StatusOf, StopMotionBuilt;
    var events := OneStop(motion, after);
    var connected := Empty().(robots := [0]);
    var live := connected.(moves := [Move(0, Some(1))], active := [Item(1, Session(0, false, false))], started := [1]);
    var stopped := Apply(live, events[2]);
    assert events[1..] == [events[1], events[2]] && events[1..][1..] == [events[2]] && [events[2]][1..] == [];
    assert Apply(Empty(), events[0]) == connected;
    assert Apply(connected, events[1]) == live;
    assert IndexOf(live.active, 1) == 0;
    assert Run(live, [events[2]]) == stopped;
    assert Run(connected, events[1..]) == stopped;
    assert FreshRun(live, [events[2]]);
  }

  /**
   Main result: a stop can return True, its stop motion taken, and leave a status that says running for as long as
   it is remembered. The reading behind it is one that the session's threads reach in a run of `session.stop`.
   */
  lemma StopCanLeaveRunning(c: TrackerLifecycle.Config, motion: StopMotion)
      returns (events: seq<Event>, schedule: seq<TrackerLifecycle.Action>, s: TrackerLifecycle.State)
    requires c.hasPolicy && c.givenStop == motion.Payload? && StopMotionBuilt(motion).Success?
    ensures StopOutcome.RunsThoughStopped(c, schedule, s)
    ensures FreshRun(Empty(), events) && After(events).stops == [StopRecord(1, Session(0, false, true), ReadingOf(s))]
    ensures forall now: Reading ::
        var answer := TrackerStatus(After(events), 1, now);
        answer.Success? && answer.value.running
  {
    schedule, s := StopOutcome.StopCanReturnRunning(c);
    events := OneStop(motion, ReadingOf(s));
    OneStopRuns(motion, ReadingOf(s));
    StatusReadsThreads(1, Session(0, false, true), c, s);
    hide Run, FreshRun, TrackerStatus, OneStop;
    forall now: Reading
        ensures TrackerStatus(After(events), 1, now).Success? && TrackerStatus(After(events), 1, now).value.running {
      StoppedStatusIff(events, 0, now);
    }
  }
}
