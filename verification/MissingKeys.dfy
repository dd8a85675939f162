/** What the server answers to a motion payload that lacks a key, at any depth (zero_franky/zmq_server_franky.py). */
module MissingKeys {
  import opened Wrappers
  import opened RigidTransform
  import opened Motions
  import opened Wire
  import opened MotionWire

  // --- Removing a key --------------------------------------------------------------------------------------

  /** Where a key is: in the dictionary at hand, under another key of it, or in an item of the list at hand. */
  datatype Path = Here(key: Key) | Under(key: Key, rest: Path) | Nth(i: nat, rest: Path)

  /** The value without the key that the path leads to; the value itself when it leads nowhere. */
  function Without(w: Wire, p: Path): Wire
    decreases p
  {
    match p
    case Here(k) => if w.Dict? then Dict(w.fields - {k}) else w
    case Under(k, rest) => if w.Dict? && k in w.fields then Dict(w.fields[k := Without(w.fields[k], rest)]) else w
    case Nth(i, rest) => if w.List? && i < |w.items| then List(w.items[i := Without(w.items[i], rest)]) else w
  }

  /** The rest of a path that leads into the value of this key. */
  function Into(w: Wire, p: Path, key: Key): Option<Path> {
    if p.Under? && p.key == key && w.Dict? && key in w.fields then Some(p.rest) else None
  }

  /** The value of a key. */
  function At(w: Wire, key: Key): Wire {
    if w.Dict? && key in w.fields then w.fields[key] else Null
  }

  lemma FieldWithout(w: Wire, p: Path, key: Key)
    requires Field(w, key).Success?
    ensures At(w, key) == Field(w, key).value
    ensures
      Field(Without(w, p), key)
      == if p == Here(key) then Failure(KeyError)
         else Success(if Into(w, p, key).Some? then Without(At(w, key), Into(w, p, key).value) else At(w, key))
  {
  }

  lemma ScalarWithout(w: Wire, p: Path)
    requires !w.Dict? && !w.List?
    ensures Without(w, p) == w
  {
  }

  // --- Lists -----------------------------------------------------------------------------------------------------

  lemma {:induction false} ItemsBuild<T>(items: seq<Wire>, build: Wire -> Result<T>)
    requires BuildAll(items, build).Success?
    ensures forall i :: 0 <= i < |items| ==> build(items[i]).Success?
  {
    if items != [] {
      ItemsBuild(items[1..], build);
      forall i | 0 <= i < |items| ensures build(items[i]).Success? {
        assert i > 0 ==> items[i] == items[1..][i - 1];
      }
    }
  }

  lemma NumbersWithout(w: Wire, p: Path, length: nat)
    requires AsReals(w, length).Success?
    ensures Without(w, p) == w
  {
    ItemsBuild(w.items, AsReal);
    if p.Nth? && p.i < |w.items| {
      ScalarWithout(w.items[p.i], p.rest);
      assert w.items[p.i := w.items[p.i]] == w.items;
    }
  }

  lemma MatrixWithout(w: Wire, p: Path)
    requires BuildMatrix(w).Success?
    ensures Without(w, p) == w
  {
    ItemsBuild(w.items, BuildRow);
    if p.Nth? && p.i < |w.items| {
      NumbersWithout(w.items[p.i], p.rest, 4);
      assert w.items[p.i := w.items[p.i]] == w.items;
    }
  }

  /** An item that fails its lookup fails the list, and one that builds as before leaves it as it was. */
  lemma {:induction false} ItemReplaced<T>(items: seq<Wire>, i: nat, item: Wire, build: Wire -> Result<T>)
    requires BuildAll(items, build).Success? && i < |items|
    requires build(item) == Failure(KeyError) || build(item) == build(items[i])
    ensures
      BuildAll(items[i := item], build)
      == if build(item) == Failure(KeyError) then Failure(KeyError) else BuildAll(items, build)
    decreases |items|
  {
    var changed := items[i := item];
    if i == 0 {
      assert changed[1..] == items[1..];
    } else {
      assert changed[1..] == items[1..][i - 1 := item] && items[1..][i - 1] == items[i];
      ItemReplaced(items[1..], i - 1, item, build);
    }
  }

  // --- The keys that values need -----------------------------------------------------------------------------------

  predicate DynamicsNeeds(p: Path) {
    p == Here(VelocityKey) || p == Here(AccelerationKey) || p == Here(JerkKey)
  }

  predicate TwistNeeds(p: Path) {
    p == Here(LinearKey) || p == Here(AngularKey)
  }

  predicate VelocityTargetNeeds(w: Wire, p: Path) {
    var robot := At(w, TypeKey) == Text(RobotVelocityName);
    match p
    case Here(k) => k == TypeKey || (if robot then k == EndEffectorTwistKey || k == ElbowVelocityKey else k == ValueKey)
    case Under(k, rest) => k == (if robot then EndEffectorTwistKey else ValueKey) && TwistNeeds(rest)
    case Nth(_, _) => false
  }

  /** A target is read along this path, down to the matrix. */
  function TargetPath(w: Wire): Path {
    if At(w, TypeKey) == Text(AffineName) then Under(ValueKey, Here(MatrixKey))
    else if At(w, TypeKey) == Text(RobotPoseName) then Under(EndEffectorPoseKey, Here(MatrixKey))
    else Under(PoseKey, Under(EndEffectorPoseKey, Here(MatrixKey)))
  }

  /** The path leads to a key on the way along another. */
  predicate OnTheWay(p: Path, way: Path) {
    match p
    case Here(k) => !way.Nth? && way.key == k
    case Under(k, rest) => way.Under? && way.key == k && OnTheWay(rest, way.rest)
    case Nth(_, _) => false
  }

  predicate CartesianStateNeeds(w: Wire, p: Path) {
    p == Here(TypeKey) || OnTheWay(p, TargetPath(w))
  }

  predicate JointStateNeeds(w: Wire, p: Path) {
    p == Here(PositionKey)
  }

  predicate NothingNeeded(w: Wire, p: Path) {
    false
  }

  predicate TimingNeeds(p: Path) {
    p == Here(MinimumTimeKey) || p == Here(HoldTargetDurationKey) || p == Here(MaxTotalDurationKey)
  }

  /** A waypoint is read down into its target and its dynamics. */
  predicate WaypointNeeds(w: Wire, p: Path, referenced: bool, targetNeeds: (Wire, Path) -> bool) {
    || TimingNeeds(p) || p == Here(TargetKey) || p == Here(DynamicsKey) || (referenced && p == Here(ReferenceTypeKey))
    || (p.Under? && p.key == TargetKey && targetNeeds(At(w, TargetKey), p.rest))
    || (p.Under? && p.key == DynamicsKey && DynamicsNeeds(p.rest))
  }

  /** Removing a key fails the build of an accepted value if it needs the key, and otherwise does not matter. */
  ghost predicate Exactly<T(!new)>(build: Wire -> Result<T>, needs: (Wire, Path) -> bool) {
    forall w, p :: build(w).Success? ==>
        build(Without(w, p)) == if needs(w, p) then Failure(KeyError) else build(w)
  }

  lemma AffineWithout(w: Wire, p: Path)
    requires BuildAffine(w).Success?
    ensures BuildAffine(Without(w, p)) == if p == Here(MatrixKey) then Failure(KeyError) else BuildAffine(w)
  {
    FieldWithout(w, p, MatrixKey);
    if Into(w, p, MatrixKey).Some? {
      MatrixWithout(At(w, MatrixKey), p.rest);
    }
    hide Without, BuildMatrix;
  }

  /** A plain value behind a key is either gone or the same. */
  lemma PlainWithout(w: Wire, p: Path, key: Key)
    requires Field(w, key).Success? && !Field(w, key).value.Dict? && !Field(w, key).value.List?
    ensures Field(Without(w, p), key) == if p == Here(key) then Failure(KeyError) else Field(w, key)
  {
    FieldWithout(w, p, key);
    if Into(w, p, key).Some? {
      ScalarWithout(At(w, key), p.rest);
    }
  }

  lemma DynamicsWithout(w: Wire, p: Path)
    requires BuildDynamics(w).Success?
    ensures BuildDynamics(Without(w, p)) == if DynamicsNeeds(p) then Failure(KeyError) else BuildDynamics(w)
  {
    PlainWithout(w, p, VelocityKey);
    PlainWithout(w, p, AccelerationKey);
    PlainWithout(w, p, JerkKey);
    hide Without, Field;
  }

  lemma VectorWithout(w: Wire, p: Path, key: Key)
    requires Field(w, key).Success? && BuildVector3(Field(w, key).value).Success?
    ensures Field(Without(w, p), key) == if p == Here(key) then Failure(KeyError) else Field(w, key)
  {
    FieldWithout(w, p, key);
    if Into(w, p, key).Some? {
      NumbersWithout(At(w, key), p.rest, 3);
    }
  }

  lemma TwistWithout(w: Wire, p: Path)
    requires BuildTwist(w).Success?
    ensures BuildTwist(Without(w, p)) == if TwistNeeds(p) then Failure(KeyError) else BuildTwist(w)
  {
    VectorWithout(w, p, LinearKey);
    VectorWithout(w, p, AngularKey);
    hide Without, BuildVector3, Field;
  }

  lemma RobotVelocityWithout(w: Wire, p: Path)
    requires BuildVelocityTarget(w).Success? && At(w, TypeKey) == Text(RobotVelocityName)
    ensures
      BuildVelocityTarget(Without(w, p))
      == if VelocityTargetNeeds(w, p) then Failure(KeyError) else BuildVelocityTarget(w)
  {
    PlainWithout(w, p, TypeKey);
    PlainWithout(w, p, ElbowVelocityKey);
    FieldWithout(w, p, EndEffectorTwistKey);
    if Into(w, p, EndEffectorTwistKey).Some? {
      TwistWithout(At(w, EndEffectorTwistKey), p.rest);
    }
    hide Without, BuildTwist, BuildElbow, TwistNeeds, Field;
  }

  lemma BareTwistWithout(w: Wire, p: Path)
    requires BuildVelocityTarget(w).Success? && At(w, TypeKey) != Text(RobotVelocityName)
    ensures
      BuildVelocityTarget(Without(w, p))
      == if VelocityTargetNeeds(w, p) then Failure(KeyError) else BuildVelocityTarget(w)
  {
    PlainWithout(w, p, TypeKey);
    FieldWithout(w, p, ValueKey);
    if Into(w, p, ValueKey).Some? {
      TwistWithout(At(w, ValueKey), p.rest);
    }
    hide Without, BuildTwist, TwistNeeds, Field;
  }

  lemma VelocityTargetExact()
    ensures Exactly(BuildVelocityTarget, VelocityTargetNeeds)
  {
    hide BuildVelocityTarget, VelocityTargetNeeds, Without;
    forall w, p | BuildVelocityTarget(w).Success?
        ensures BuildVelocityTarget(Without(w, p))
            == if VelocityTargetNeeds(w, p) then Failure(KeyError) else BuildVelocityTarget(w) {
      if At(w, TypeKey) == Text(RobotVelocityName) {
        RobotVelocityWithout(w, p);
      } else {
        BareTwistWithout(w, p);
      }
    }
  }

  /** A matrix behind a key. */
  lemma AffineUnder(w: Wire, p: Path, key: Key)
    requires Field(w, key).Success? && BuildAffine(Field(w, key).value).Success?
    ensures
      var field := Field(Without(w, p), key);
      if p == Here(key) then field == Failure(KeyError)
      else
        && field.Success?
        && BuildAffine(field.value)
           == if p == Under(key, Here(MatrixKey)) then Failure(KeyError) else BuildAffine(Field(w, key).value)
  {
    FieldWithout(w, p, key);
    if Into(w, p, key).Some? {
      AffineWithout(At(w, key), p.rest);
    }
    hide Without, BuildAffine;
  }

  /** The pose of a state payload, which holds a matrix in turn. */
  lemma PoseUnder(w: Wire, p: Path)
    requires Field(w, PoseKey).Success? && Field(Field(w, PoseKey).value, EndEffectorPoseKey).Success?
    requires BuildAffine(Field(Field(w, PoseKey).value, EndEffectorPoseKey).value).Success?
    ensures
      var pose := Field(Without(w, p), PoseKey);
      if p == Here(PoseKey) then pose == Failure(KeyError)
      else
        && pose.Success?
        && var field := Field(pose.value, EndEffectorPoseKey);
        if p == Under(PoseKey, Here(EndEffectorPoseKey)) then field == Failure(KeyError)
        else
          && field.Success?
          && BuildAffine(field.value)
             == if p == Under(PoseKey, Under(EndEffectorPoseKey, Here(MatrixKey))) then Failure(KeyError)
                else BuildAffine(Field(Field(w, PoseKey).value, EndEffectorPoseKey).value)
  {
    FieldWithout(w, p, PoseKey);
    if Into(w, p, PoseKey).Some? {
      AffineUnder(At(w, PoseKey), p.rest, EndEffectorPoseKey);
    }
    hide Without, BuildAffine, Field;
  }

  lemma OnTheWayIff(p: Path, key: Key)
    ensures OnTheWay(p, Under(key, Here(MatrixKey))) <==> p == Here(key) || p == Under(key, Here(MatrixKey))
  {
  }

  lemma MatrixTargetWithout(w: Wire, p: Path)
    requires BuildCartesianTarget(w).Success?
    requires At(w, TypeKey) == Text(AffineName) || At(w, TypeKey) == Text(RobotPoseName)
    ensures
      BuildCartesianTarget(Without(w, p))
      == if CartesianStateNeeds(w, p) then Failure(KeyError) else BuildCartesianTarget(w)
  {
    var key := if At(w, TypeKey) == Text(AffineName) then ValueKey else EndEffectorPoseKey;
    PlainWithout(w, p, TypeKey);
    AffineUnder(w, p, key);
    OnTheWayIff(p, key);
    hide Without, BuildAffine, OnTheWay;
  }

  lemma StateTargetWithout(w: Wire, p: Path)
    requires BuildCartesianTarget(w).Success? && At(w, TypeKey) == Text(CartesianStateName)
    ensures
      BuildCartesianTarget(Without(w, p))
      == if CartesianStateNeeds(w, p) then Failure(KeyError) else BuildCartesianTarget(w)
  {
    PlainWithout(w, p, TypeKey);
    PoseUnder(w, p);
    if p.Under? {
      OnTheWayIff(p.rest, EndEffectorPoseKey);
    }
    StateWay(p);
    hide Without, BuildAffine, OnTheWay;
  }

  lemma StateWay(p: Path)
    ensures
      OnTheWay(p, Under(PoseKey, Under(EndEffectorPoseKey, Here(MatrixKey))))
      <==> p == Here(PoseKey)
           || (p.Under? && p.key == PoseKey && OnTheWay(p.rest, Under(EndEffectorPoseKey, Here(MatrixKey))))
  {
  }

  lemma CartesianStateWithout(w: Wire, p: Path)
    requires BuildCartesianState(w).Success?
    ensures
      BuildCartesianState(Without(w, p))
      == if CartesianStateNeeds(w, p) then Failure(KeyError) else BuildCartesianState(w)
  {
    TargetKinds(w);
    if At(w, TypeKey) == Text(CartesianStateName) {
      StateTargetWithout(w, p);
    } else {
      MatrixTargetWithout(w, p);
    }
    hide BuildCartesianTarget, Without, CartesianStateNeeds;
  }

  lemma TargetKinds(w: Wire)
    requires BuildCartesianTarget(w).Success?
    ensures
      || At(w, TypeKey) == Text(AffineName) || At(w, TypeKey) == Text(RobotPoseName)
      || At(w, TypeKey) == Text(CartesianStateName)
  {
    hide BuildAffine;
  }

  lemma CartesianStateExact()
    ensures Exactly(BuildCartesianState, CartesianStateNeeds)
  {
    hide BuildCartesianState, CartesianStateNeeds, Without;
    forall w, p | BuildCartesianState(w).Success?
        ensures BuildCartesianState(Without(w, p))
            == if CartesianStateNeeds(w, p) then Failure(KeyError) else BuildCartesianState(w) {
      CartesianStateWithout(w, p);
    }
  }

  lemma JointStateExact()
    ensures Exactly(BuildJointState, JointStateNeeds)
  {
    forall w, p | BuildJointState(w).Success?
        ensures BuildJointState(Without(w, p)) == if JointStateNeeds(w, p) then Failure(KeyError)
            else BuildJointState(w) {
      FieldWithout(w, p, PositionKey);
      if Into(w, p, PositionKey).Some? {
        NumbersWithout(At(w, PositionKey), p.rest, 7);
      }
    }
  }

  lemma Vector7Exact()
    ensures Exactly(BuildVector7, NothingNeeded)
  {
    forall w, p | BuildVector7(w).Success? ensures Without(w, p) == w {
      NumbersWithout(w, p, 7);
    }
  }

  // --- Waypoints -------------------------------------------------------------------------------------------------

  lemma TimingWithout(w: Wire, p: Path)
    requires BuildTiming(w).Success?
    ensures BuildTiming(Without(w, p)) == if TimingNeeds(p) then Failure(KeyError) else BuildTiming(w)
  {
    PlainWithout(w, p, MinimumTimeKey);
    PlainWithout(w, p, HoldTargetDurationKey);
    PlainWithout(w, p, MaxTotalDurationKey);
    hide Without, Field;
  }

  /** A value behind a key, built by `build`. */
  function Built<T>(w: Wire, key: Key, build: Wire -> Result<T>): Result<T> {
    var value :- Field(w, key);
    build(value)
  }

  /** Such a value needs its own key and those it needs in turn. */
  predicate NeedsUnder(w: Wire, p: Path, key: Key, needs: (Wire, Path) -> bool) {
    p == Here(key) || (p.Under? && p.key == key && needs(At(w, key), p.rest))
  }

  lemma BuiltWithout<T(!new)>(w: Wire, p: Path, key: Key, build: Wire -> Result<T>, needs: (Wire, Path) -> bool)
    requires Built(w, key, build).Success? && Exactly(build, needs)
    ensures
      Built(Without(w, p), key, build) == if NeedsUnder(w, p, key, needs) then Failure(KeyError)
          else Built(w, key, build)
  {
    FieldWithout(w, p, key);
  }

  predicate DynamicsNeedsIn(w: Wire, p: Path) {
    DynamicsNeeds(p)
  }

  lemma DynamicsExact()
    ensures Exactly(BuildDynamics, DynamicsNeedsIn)
  {
    hide BuildDynamics, DynamicsNeeds, Without;
    forall w, p | BuildDynamics(w).Success?
        ensures BuildDynamics(Without(w, p)) == if DynamicsNeeds(p) then Failure(KeyError) else BuildDynamics(w) {
      DynamicsWithout(w, p);
    }
  }

  lemma PositionWaypointWithout<T(!new)>(w: Wire, p: Path, build: Wire -> Result<T>, needs: (Wire, Path) -> bool)
    requires BuildPositionWaypoint(w, build).Success? && Exactly(build, needs)
    ensures
      BuildPositionWaypoint(Without(w, p), build)
      == if WaypointNeeds(w, p, true, needs) then Failure(KeyError) else BuildPositionWaypoint(w, build)
  {
    DynamicsExact();
    BuiltWithout(w, p, TargetKey, build, needs);
    BuiltWithout(w, p, DynamicsKey, BuildDynamics, DynamicsNeedsIn);
    PlainWithout(w, p, ReferenceTypeKey);
    TimingWithout(w, p);
    hide Without, BuildDynamics, BuildTiming, BuildReference, Field, At, DynamicsNeeds, TimingNeeds, Exactly;
  }

  lemma VelocityWaypointWithout<T(!new)>(w: Wire, p: Path, build: Wire -> Result<T>, needs: (Wire, Path) -> bool)
    requires BuildVelocityWaypoint(w, build).Success? && Exactly(build, needs)
    ensures
      BuildVelocityWaypoint(Without(w, p), build)
      == if WaypointNeeds(w, p, false, needs) then Failure(KeyError) else BuildVelocityWaypoint(w, build)
  {
    DynamicsExact();
    BuiltWithout(w, p, TargetKey, build, needs);
    BuiltWithout(w, p, DynamicsKey, BuildDynamics, DynamicsNeedsIn);
    TimingWithout(w, p);
    hide Without, BuildDynamics, BuildTiming, Field, At, DynamicsNeeds, TimingNeeds, Exactly;
  }

  predicate CartesianWaypointNeeds(w: Wire, p: Path) {
    WaypointNeeds(w, p, true, CartesianStateNeeds)
  }

  predicate JointWaypointNeeds(w: Wire, p: Path) {
    WaypointNeeds(w, p, true, JointStateNeeds)
  }

  predicate CartesianVelocityWaypointNeeds(w: Wire, p: Path) {
    WaypointNeeds(w, p, false, VelocityTargetNeeds)
  }

  predicate JointVelocityWaypointNeeds(w: Wire, p: Path) {
    WaypointNeeds(w, p, false, NothingNeeded)
  }

  lemma CartesianWaypointExact()
    ensures Exactly(BuildCartesianWaypoint, CartesianWaypointNeeds)
  {
    CartesianStateExact();
    hide Without, BuildPositionWaypoint, WaypointNeeds;
    forall w, p | BuildCartesianWaypoint(w).Success?
        ensures BuildCartesianWaypoint(Without(w, p))
            == if CartesianWaypointNeeds(w, p) then Failure(KeyError) else BuildCartesianWaypoint(w) {
      PositionWaypointWithout(w, p, BuildCartesianState, CartesianStateNeeds);
    }
  }

  lemma JointWaypointExact()
    ensures Exactly(BuildJointWaypoint, JointWaypointNeeds)
  {
    JointStateExact();
    hide Without, BuildPositionWaypoint, WaypointNeeds;
    forall w, p | BuildJointWaypoint(w).Success?
        ensures BuildJointWaypoint(Without(w, p))
            == if JointWaypointNeeds(w, p) then Failure(KeyError) else BuildJointWaypoint(w) {
      PositionWaypointWithout(w, p, BuildJointState, JointStateNeeds);
    }
  }

  lemma CartesianVelocityWaypointExact()
    ensures Exactly(BuildCartesianVelocityWaypoint, CartesianVelocityWaypointNeeds)
  {
    VelocityTargetExact();
    hide Without, BuildVelocityWaypoint, WaypointNeeds;
    forall w, p | BuildCartesianVelocityWaypoint(w).Success?
        ensures BuildCartesianVelocityWaypoint(Without(w, p))
            == if CartesianVelocityWaypointNeeds(w, p) then Failure(KeyError) else BuildCartesianVelocityWaypoint(w) {
      VelocityWaypointWithout(w, p, BuildVelocityTarget, VelocityTargetNeeds);
    }
  }

  lemma JointVelocityWaypointExact()
    ensures Exactly(BuildJointVelocityWaypoint, JointVelocityWaypointNeeds)
  {
    Vector7Exact();
    hide Without, BuildVelocityWaypoint, WaypointNeeds;
    forall w, p | BuildJointVelocityWaypoint(w).Success?
        ensures BuildJointVelocityWaypoint(Without(w, p))
            == if JointVelocityWaypointNeeds(w, p) then Failure(KeyError) else BuildJointVelocityWaypoint(w) {
      VelocityWaypointWithout(w, p, BuildVector7, NothingNeeded);
    }
  }

  /** A list of waypoints needs what its items need. */
  predicate ItemNeeds(w: Wire, p: Path, needs: (Wire, Path) -> bool) {
    p.Nth? && w.List? && p.i < |w.items| && needs(w.items[p.i], p.rest)
  }

  predicate WaypointsNeed(w: Wire, p: Path, needs: (Wire, Path) -> bool) {
    p == Here(WaypointsKey) || (p.Under? && p.key == WaypointsKey && ItemNeeds(At(w, WaypointsKey), p.rest, needs))
  }

  lemma ItemsWithout<T(!new)>(w: Wire, p: Path, build: Wire -> Result<T>, needs: (Wire, Path) -> bool)
    requires w.List? && BuildAll(w.items, build).Success? && Exactly(build, needs)
    ensures Without(w, p).List?
    ensures
      BuildAll(Without(w, p).items, build) == if ItemNeeds(w, p, needs) then Failure(KeyError)
          else BuildAll(w.items, build)
  {
    ItemsBuild(w.items, build);
    if p.Nth? && p.i < |w.items| {
      ItemReplaced(w.items, p.i, Without(w.items[p.i], p.rest), build);
    }
  }

  lemma WaypointsWithout<T(!new)>(w: Wire, p: Path, build: Wire -> Result<T>, needs: (Wire, Path) -> bool)
    requires BuildWaypoints(w, build).Success? && Exactly(build, needs)
    ensures
      BuildWaypoints(Without(w, p), build) == if WaypointsNeed(w, p, needs) then Failure(KeyError)
          else BuildWaypoints(w, build)
  {
    FieldWithout(w, p, WaypointsKey);
    if Into(w, p, WaypointsKey).Some? {
      ItemsWithout(At(w, WaypointsKey), p.rest, build, needs);
    }
    hide Without, BuildAll, Exactly;
  }

  // --- Motions ---------------------------------------------------------------------------------------------------

  /** Keys of strings, flags and durations. */
  predicate TopNeeds(m: Motion, p: Path) {
    match m
    case CartesianMotion(_, _, _, _, _) => p == Here(ReferenceTypeKey) || p == Here(ReturnWhenFinishedKey)
    case JointMotion(_, _, _, _) => p == Here(ReferenceTypeKey) || p == Here(ReturnWhenFinishedKey)
    case CartesianWaypointMotion(_, _, _, _) => p == Here(ReturnWhenFinishedKey)
    case JointWaypointMotion(_, _, _) => p == Here(ReturnWhenFinishedKey)
    case CartesianVelocityMotion(_, _, _, _) => p == Here(DurationKey)
    case JointVelocityMotion(_, _, _) => p == Here(DurationKey)
    case _ => false
  }

  /** Keys of the target or the waypoints, at any depth. */
  predicate TargetNeeds(m: Motion, w: Wire, p: Path) {
    match m
    case CartesianMotion(_, _, _, _, _) => NeedsUnder(w, p, TargetKey, CartesianStateNeeds)
    case JointMotion(_, _, _, _) => NeedsUnder(w, p, TargetKey, JointStateNeeds)
    case CartesianVelocityMotion(_, _, _, _) => NeedsUnder(w, p, TargetKey, VelocityTargetNeeds)
    case JointVelocityMotion(_, _, _) => NeedsUnder(w, p, TargetKey, NothingNeeded)
    case CartesianWaypointMotion(_, _, _, _) => WaypointsNeed(w, p, CartesianWaypointNeeds)
    case JointWaypointMotion(_, _, _) => WaypointsNeed(w, p, JointWaypointNeeds)
    case CartesianVelocityWaypointMotion(_, _, _) => WaypointsNeed(w, p, CartesianVelocityWaypointNeeds)
    case JointVelocityWaypointMotion(_, _) => WaypointsNeed(w, p, JointVelocityWaypointNeeds)
    case _ => false
  }

  predicate HasFrame(m: Motion) {
    || m.CartesianMotion? || m.CartesianWaypointMotion? || m.CartesianVelocityMotion?
    || m.CartesianVelocityWaypointMotion?
  }

  /** A frame may be missing, but not its matrix. */
  predicate FrameNeeds(w: Wire, p: Path) {
    p == Under(EeFrameKey, Here(MatrixKey)) && !At(w, EeFrameKey).Null?
  }

  /** What a payload that builds this motion needs. */
  predicate Needs(m: Motion, w: Wire, p: Path) {
    || TopNeeds(m, p) || TargetNeeds(m, w, p) || NeedsUnder(w, p, DynamicsKey, DynamicsNeedsIn)
    || (HasFrame(m) && FrameNeeds(w, p))
  }

  function WithoutFrame(m: Motion): Motion {
    match m
    case CartesianMotion(target, reference, d, finished, _) => CartesianMotion(target, reference, d, finished, None)
    case CartesianWaypointMotion(ws, _, d, finished) => CartesianWaypointMotion(ws, None, d, finished)
    case CartesianVelocityMotion(target, duration, d, _) => CartesianVelocityMotion(target, duration, d, None)
    case CartesianVelocityWaypointMotion(ws, _, d) => CartesianVelocityWaypointMotion(ws, None, d)
    case _ => m
  }

  /** What a builder makes of the payload it built `m` from, without a key. */
  function Remaining(m: Motion, w: Wire, p: Path): Result<Motion> {
    if Needs(m, w, p) then Failure(KeyError)
    else if p == Here(EeFrameKey) then Success(WithoutFrame(m))
    else Success(m)
  }

  lemma DynamicsFieldWithout(w: Wire, p: Path)
    requires DynamicsField(w).Success?
    ensures
      DynamicsField(Without(w, p)) == if NeedsUnder(w, p, DynamicsKey, DynamicsNeedsIn) then Failure(KeyError)
          else DynamicsField(w)
  {
    DynamicsExact();
    BuiltWithout(w, p, DynamicsKey, BuildDynamics, DynamicsNeedsIn);
    hide Without, BuildDynamics, NeedsUnder, Exactly;
  }

  lemma ScalarFieldsWithout(w: Wire, p: Path)
    ensures
      ReferenceField(w).Success? ==>
        ReferenceField(Without(w, p)) == if p == Here(ReferenceTypeKey) then Failure(KeyError) else ReferenceField(w)
    ensures
      FinishedField(w).Success? ==>
        FinishedField(Without(w, p)) == if p == Here(ReturnWhenFinishedKey) then Failure(KeyError) else FinishedField(w)
    ensures
      DurationField(w).Success? ==>
        DurationField(Without(w, p)) == if p == Here(DurationKey) then Failure(KeyError) else DurationField(w)
  {
    if ReferenceField(w).Success? {
      PlainWithout(w, p, ReferenceTypeKey);
    }
    if FinishedField(w).Success? {
      PlainWithout(w, p, ReturnWhenFinishedKey);
    }
    if DurationField(w).Success? {
      PlainWithout(w, p, DurationKey);
    }
    hide Without, Field;
  }

  lemma FrameFieldWithout(w: Wire, p: Path)
    requires EeFrameField(w).Success?
    ensures
      EeFrameField(Without(w, p))
      == if FrameNeeds(w, p) then Failure(KeyError)
         else if p == Here(EeFrameKey) then Success(None)
         else EeFrameField(w)
  {
    if EeFrameKey in w.fields && !w.fields[EeFrameKey].Null? {
      AffineUnder(w, p, EeFrameKey);
      hide BuildAffine;
    }
  }

  lemma TargetFieldWithout<T(!new)>(w: Wire, p: Path, build: Wire -> Result<T>, needs: (Wire, Path) -> bool)
    requires TargetField(w, build).Success? && Exactly(build, needs)
    ensures
      TargetField(Without(w, p), build) == if NeedsUnder(w, p, TargetKey, needs) then Failure(KeyError)
          else TargetField(w, build)
  {
    BuiltWithout(w, p, TargetKey, build, needs);
    hide Without, NeedsUnder, Exactly;
  }

  lemma PositionMotionWithout(name: Name, w: Wire, p: Path)
    requires Registered(name, w).Success? && name in {CartesianMotionName, JointMotionName}
    ensures Registered(name, Without(w, p)) == Remaining(Registered(name, w).value, w, p)
  {
    hide Without, NeedsUnder, FrameNeeds, DynamicsField, ReferenceField, FinishedField, EeFrameField, TargetField,
        Exactly;
    ScalarFieldsWithout(w, p);
    DynamicsFieldWithout(w, p);
    match name
    case CartesianMotionName =>
      CartesianStateExact();
      TargetFieldWithout(w, p, BuildCartesianState, CartesianStateNeeds);
      FrameFieldWithout(w, p);
    case JointMotionName =>
      JointStateExact();
      TargetFieldWithout(w, p, BuildJointState, JointStateNeeds);
  }

  lemma VelocityMotionWithout(name: Name, w: Wire, p: Path)
    requires Registered(name, w).Success? && name in {CartesianVelocityMotionName, JointVelocityMotionName}
    ensures Registered(name, Without(w, p)) == Remaining(Registered(name, w).value, w, p)
  {
    hide Without, NeedsUnder, FrameNeeds, DynamicsField, EeFrameField, DurationField, TargetField, Exactly;
    ScalarFieldsWithout(w, p);
    DynamicsFieldWithout(w, p);
    match name
    case CartesianVelocityMotionName =>
      VelocityTargetExact();
      TargetFieldWithout(w, p, BuildVelocityTarget, VelocityTargetNeeds);
      FrameFieldWithout(w, p);
    case JointVelocityMotionName =>
      Vector7Exact();
      TargetFieldWithout(w, p, BuildVector7, NothingNeeded);
  }

  lemma PositionWaypointMotionWithout(name: Name, w: Wire, p: Path)
    requires Registered(name, w).Success? && name in {CartesianWaypointMotionName, JointWaypointMotionName}
    ensures Registered(name, Without(w, p)) == Remaining(Registered(name, w).value, w, p)
  {
    hide Without, NeedsUnder, FrameNeeds, DynamicsField, FinishedField, EeFrameField, BuildWaypoints, WaypointsNeed,
        Exactly;
    ScalarFieldsWithout(w, p);
    DynamicsFieldWithout(w, p);
    match name
    case CartesianWaypointMotionName =>
      CartesianWaypointExact();
      WaypointsWithout(w, p, BuildCartesianWaypoint, CartesianWaypointNeeds);
      FrameFieldWithout(w, p);
    case JointWaypointMotionName =>
      JointWaypointExact();
      WaypointsWithout(w, p, BuildJointWaypoint, JointWaypointNeeds);
  }

  lemma VelocityWaypointMotionWithout(name: Name, w: Wire, p: Path)
    requires Registered(name, w).Success?
    requires name in {CartesianVelocityWaypointMotionName, JointVelocityWaypointMotionName}
    ensures Registered(name, Without(w, p)) == Remaining(Registered(name, w).value, w, p)
  {
    hide Without, NeedsUnder, FrameNeeds, DynamicsField, EeFrameField, BuildWaypoints, WaypointsNeed, Exactly;
    DynamicsFieldWithout(w, p);
    match name
    case CartesianVelocityWaypointMotionName =>
      CartesianVelocityWaypointExact();
      WaypointsWithout(w, p, BuildCartesianVelocityWaypoint, CartesianVelocityWaypointNeeds);
      FrameFieldWithout(w, p);
    case JointVelocityWaypointMotionName =>
      JointVelocityWaypointExact();
      WaypointsWithout(w, p, BuildJointVelocityWaypoint, JointVelocityWaypointNeeds);
  }

  lemma StopMotionWithout(name: Name, w: Wire, p: Path)
    requires Registered(name, w).Success?
    requires name in {
      CartesianStopMotionName, JointStopMotionName, CartesianVelocityStopMotionName, JointVelocityStopMotionName}
    ensures Registered(name, Without(w, p)) == Remaining(Registered(name, w).value, w, p)
  {
    hide Without, NeedsUnder, DynamicsField;
    DynamicsFieldWithout(w, p);
  }

  lemma RegisteredWithout(name: Name, w: Wire, p: Path)
    requires Registered(name, w).Success?
    ensures Registered(name, Without(w, p)) == Remaining(Registered(name, w).value, w, p)
  {
    OtherNamesFail(name, w);
    hide Registered, Remaining, Without;
    if name in {CartesianMotionName, JointMotionName} {
      PositionMotionWithout(name, w, p);
    } else if name in {CartesianVelocityMotionName, JointVelocityMotionName} {
      VelocityMotionWithout(name, w, p);
    } else if name in {CartesianWaypointMotionName, JointWaypointMotionName} {
      PositionWaypointMotionWithout(name, w, p);
    } else if name in {CartesianVelocityWaypointMotionName, JointVelocityWaypointMotionName} {
      VelocityWaypointMotionWithout(name, w, p);
    } else {
      StopMotionWithout(name, w, p);
    }
  }

  lemma OtherNamesFail(name: Name, w: Wire)
    requires Registered(name, w).Success?
    ensures
      name in {
        CartesianMotionName, CartesianWaypointMotionName, CartesianStopMotionName,
        JointMotionName, JointWaypointMotionName, JointStopMotionName,
        CartesianVelocityMotionName, CartesianVelocityWaypointMotionName, CartesianVelocityStopMotionName,
        JointVelocityMotionName, JointVelocityWaypointMotionName, JointVelocityStopMotionName}
  {
  }

  /** What the server answers to the payload it built `m` from, without a key. */
  function AnswerWithout(m: Motion, w: Wire, p: Path): Result<Motion> {
    if p == Here(TypeKey) then Failure(KeyError) else Reported(Remaining(m, w, p))
  }

  /**
   Main result: take any payload the server accepts and remove any one key at any depth. Without its type it fails
   the key lookup; without a key that some builder needs it is reported as an unsupported motion type; without the
   frame it builds the motion with no frame; and otherwise it builds the same motion.
   */
  lemma MissingKey(w: Wire, p: Path)
    requires BuildMotion(w).Success?
    ensures BuildMotion(Without(w, p)) == AnswerWithout(BuildMotion(w).value, w, p)
  {
    hide Registered, Needs, Without;
    PlainWithout(w, p, TypeKey);
    var name := Field(w, TypeKey).value.name;
    assert Registered(name, w) == BuildMotion(w);
    hide Field;
    RegisteredWithout(name, w, p);
  }
}
