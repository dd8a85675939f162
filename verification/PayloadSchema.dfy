/**
 Which motion payloads the server accepts (zero_franky/zmq_server_franky.py), whoever made them, and what it makes of
 each: said as a schema on payloads, which gives every accepted payload its normal form.
 */
module PayloadSchema {
  import opened Wrappers
  import opened Rotation
  import opened RigidTransform
  import opened Motions
  import opened Wire
  import opened MotionWire

  // --- Schemas ---------------------------------------------------------------------------------------------

  /** The normal form of a value that fits a schema, nothing for one that does not. */
  type Schema = Wire -> Option<Wire>

  function Under(w: Wire, key: Key, schema: Schema): Option<Wire> {
    if w.Dict? && key in w.fields then schema(w.fields[key]) else None
  }

  function NormalItems(items: seq<Wire>, schema: Schema): Option<seq<Wire>> {
    if items == [] then Some([])
    else
      var (first, rest) := (schema(items[0]), NormalItems(items[1..], schema));
      if first.Some? && rest.Some? then Some([first.value] + rest.value) else None
  }

  /** A list of any length. */
  function NormalList(w: Wire, schema: Schema): Option<Wire> {
    if w.List? && NormalItems(w.items, schema).Some? then Some(List(NormalItems(w.items, schema).value)) else None
  }

  /** Any number; integers and flags count as numbers. */
  function Number(w: Wire): Option<Wire> {
    match w
    case Num(x) => Some(Num(x))
    case Int(n) => Some(Num(n as real))
    case Bool(b) => Some(Num(if b then 1.0 else 0.0))
    case _ => None
  }

  function Numbers(w: Wire, length: nat): Option<Wire> {
    if w.List? && |w.items| == length then NormalList(w, Number) else None
  }

  function Row(w: Wire): Option<Wire> {
    Numbers(w, 4)
  }

  function Matrix(w: Wire): Option<Wire> {
    if w.List? && |w.items| == 4 then NormalList(w, Row) else None
  }

  function Flag(w: Wire): Option<Wire> {
    if w.Bool? then Some(w) else None
  }

  function Pose(w: Wire): Option<Wire> {
    var matrix := Under(w, MatrixKey, Matrix);
    if matrix.Some? then Some(Dict(map[TypeKey := Text(AffineName), MatrixKey := matrix.value])) else None
  }

  /** A pose or nothing. */
  function OptionalPose(w: Wire): Option<Wire> {
    if w.Null? then Some(Null) else Pose(w)
  }

  /** The frame may also be missing. */
  function Frame(w: Wire): Option<Wire> {
    if !w.Dict? then None
    else if EeFrameKey in w.fields then OptionalPose(w.fields[EeFrameKey])
    else Some(Null)
  }

  function ReferenceType(w: Wire): Option<Wire> {
    if w == Text(RelativeName) || w == Text(AbsoluteName) then Some(w) else None
  }

  function DynamicsFactors(w: Wire): Option<Wire> {
    var (v, a, j) := (Under(w, VelocityKey, Number), Under(w, AccelerationKey, Number), Under(w, JerkKey, Number));
    if v.Some? && a.Some? && j.Some? then
      Some(Dict(map[VelocityKey := v.value, AccelerationKey := a.value, JerkKey := j.value]))
    else None
  }

  /** Milliseconds or nothing. */
  function Duration(w: Wire): Option<Wire> {
    if w.Null? || w.Int? then Some(w) else None
  }

  /** Milliseconds, no time by default. */
  function Hold(w: Wire): Option<Wire> {
    if w.Null? then Some(Int(0)) else Duration(w)
  }

  /** Milliseconds, a second by default. */
  function MotionDuration(w: Wire): Option<Wire> {
    if w.Null? then Some(Int(1000)) else Duration(w)
  }

  function Three(w: Wire): Option<Wire> {
    Numbers(w, 3)
  }

  function Seven(w: Wire): Option<Wire> {
    Numbers(w, 7)
  }

  function TwistPayload(w: Wire): Option<Wire> {
    var (linear, angular) := (Under(w, LinearKey, Three), Under(w, AngularKey, Three));
    if linear.Some? && angular.Some? then
      Some(Dict(map[TypeKey := Text(TwistName), LinearKey := linear.value, AngularKey := angular.value]))
    else None
  }

  function Elbow(w: Wire): Option<Wire> {
    if w.Null? then Some(Null) else Number(w)
  }

  function TypeOf(w: Wire): Option<Wire> {
    if w.Dict? && TypeKey in w.fields then Some(w.fields[TypeKey]) else None
  }

  function Velocity(w: Wire): Option<Wire> {
    if TypeOf(w) == Some(Text(RobotVelocityName)) then
      var (twist, elbow) := (Under(w, EndEffectorTwistKey, TwistPayload), Under(w, ElbowVelocityKey, Elbow));
      if twist.Some? && elbow.Some? then
        Some(Dict(map[
          TypeKey := Text(RobotVelocityName), EndEffectorTwistKey := twist.value, ElbowVelocityKey := elbow.value]))
      else None
    else if TypeOf(w) == Some(Text(TwistName)) then
      var twist := Under(w, ValueKey, TwistPayload);
      if twist.Some? then Some(Dict(map[TypeKey := Text(TwistName), ValueKey := twist.value])) else None
    else None
  }

  function PosePayload(w: Wire): Option<Wire> {
    Under(w, EndEffectorPoseKey, Pose)
  }

  /** The pose that a target payload holds, in any of its forms. */
  function TargetPose(w: Wire): Option<Wire> {
    if TypeOf(w) == Some(Text(AffineName)) then Under(w, ValueKey, Pose)
    else if TypeOf(w) == Some(Text(RobotPoseName)) then PosePayload(w)
    else if TypeOf(w) == Some(Text(CartesianStateName)) then Under(w, PoseKey, PosePayload)
    else None
  }

  /** A target comes in three forms, and is a state in normal form. */
  function Target(w: Wire): Option<Wire> {
    var pose := TargetPose(w);
    if pose.Some? then
      Some(Dict(map[
        TypeKey := Text(CartesianStateName), PoseKey := Dict(map[EndEffectorPoseKey := pose.value])]))
    else None
  }

  /** A joint target's type is not looked at. */
  function JointTarget(w: Wire): Option<Wire> {
    var position := Under(w, PositionKey, Seven);
    if position.Some? then Some(Dict(map[TypeKey := Text(JointStateName), PositionKey := position.value])) else None
  }

  function TimingPayload(w: Wire): (Option<Wire>, Option<Wire>, Option<Wire>) {
    (Under(w, MinimumTimeKey, Duration), Under(w, HoldTargetDurationKey, Hold), Under(w, MaxTotalDurationKey, Duration))
  }

  function PositionWaypointPayload(w: Wire, target: Schema): Option<Wire> {
    var (t, r, d) :=
      (Under(w, TargetKey, target), Under(w, ReferenceTypeKey, ReferenceType), Under(w, DynamicsKey, DynamicsFactors));
    var (min, hold, max) := TimingPayload(w);
    if t.Some? && r.Some? && d.Some? && min.Some? && hold.Some? && max.Some? then
      Some(Dict(map[
        TargetKey := t.value, ReferenceTypeKey := r.value, DynamicsKey := d.value, MinimumTimeKey := min.value,
        HoldTargetDurationKey := hold.value, MaxTotalDurationKey := max.value]))
    else None
  }

  function VelocityWaypointPayload(w: Wire, target: Schema): Option<Wire> {
    var (t, d) := (Under(w, TargetKey, target), Under(w, DynamicsKey, DynamicsFactors));
    var (min, hold, max) := TimingPayload(w);
    if t.Some? && d.Some? && min.Some? && hold.Some? && max.Some? then
      Some(Dict(map[
        TargetKey := t.value, DynamicsKey := d.value, MinimumTimeKey := min.value,
        HoldTargetDurationKey := hold.value, MaxTotalDurationKey := max.value]))
    else None
  }

  function Waypoint(w: Wire): Option<Wire> {
    PositionWaypointPayload(w, Target)
  }

  function JointWaypoint(w: Wire): Option<Wire> {
    PositionWaypointPayload(w, JointTarget)
  }

  function TwistWaypoint(w: Wire): Option<Wire> {
    VelocityWaypointPayload(w, Velocity)
  }

  function JointTwistWaypoint(w: Wire): Option<Wire> {
    VelocityWaypointPayload(w, Seven)
  }

  function Waypoints(w: Wire): Option<Wire> {
    NormalList(w, Waypoint)
  }

  function JointWaypoints(w: Wire): Option<Wire> {
    NormalList(w, JointWaypoint)
  }

  function TwistWaypoints(w: Wire): Option<Wire> {
    NormalList(w, TwistWaypoint)
  }

  function JointTwistWaypoints(w: Wire): Option<Wire> {
    NormalList(w, JointTwistWaypoint)
  }

  /** A position motion, to a target or through waypoints, with a frame if it is Cartesian. */
  function PositionPayload(w: Wire, name: Name, target: Option<Wire>): Option<Wire> {
    var (r, d, f, frame) :=
      (Under(w, ReferenceTypeKey, ReferenceType), Under(w, DynamicsKey, DynamicsFactors),
       Under(w, ReturnWhenFinishedKey, Flag), Frame(w));
    if target.None? || r.None? || d.None? || f.None? || (name == CartesianMotionName && frame.None?) then None
    else if name == CartesianMotionName then
      Some(Dict(map[
        TypeKey := Text(name), TargetKey := target.value, ReferenceTypeKey := r.value, DynamicsKey := d.value,
        ReturnWhenFinishedKey := f.value, EeFrameKey := frame.value]))
    else
      Some(Dict(map[
        TypeKey := Text(name), TargetKey := target.value, ReferenceTypeKey := r.value, DynamicsKey := d.value,
        ReturnWhenFinishedKey := f.value]))
  }

  function WaypointPayload(w: Wire, name: Name, waypoints: Option<Wire>): Option<Wire> {
    var (d, f, frame) := (Under(w, DynamicsKey, DynamicsFactors), Under(w, ReturnWhenFinishedKey, Flag), Frame(w));
    if waypoints.None? || d.None? || f.None? || (name == CartesianWaypointMotionName && frame.None?) then None
    else if name == CartesianWaypointMotionName then
      Some(Dict(map[
        TypeKey := Text(name), WaypointsKey := waypoints.value, EeFrameKey := frame.value, DynamicsKey := d.value,
        ReturnWhenFinishedKey := f.value]))
    else
      Some(Dict(map[
        TypeKey := Text(name), WaypointsKey := waypoints.value, DynamicsKey := d.value,
        ReturnWhenFinishedKey := f.value]))
  }

  function VelocityPayload(w: Wire, name: Name, target: Option<Wire>): Option<Wire> {
    var (t, d, frame) := (Under(w, DurationKey, MotionDuration), Under(w, DynamicsKey, DynamicsFactors), Frame(w));
    if target.None? || t.None? || d.None? || (name == CartesianVelocityMotionName && frame.None?) then None
    else if name == CartesianVelocityMotionName then
      Some(Dict(map[
        TypeKey := Text(name), TargetKey := target.value, DurationKey := t.value, DynamicsKey := d.value,
        EeFrameKey := frame.value]))
    else
      Some(Dict(map[
        TypeKey := Text(name), TargetKey := target.value, DurationKey := t.value, DynamicsKey := d.value]))
  }

  function VelocityWaypointsPayload(w: Wire, name: Name, waypoints: Option<Wire>): Option<Wire> {
    var (d, frame) := (Under(w, DynamicsKey, DynamicsFactors), Frame(w));
    if waypoints.None? || d.None? || (name == CartesianVelocityWaypointMotionName && frame.None?) then None
    else if name == CartesianVelocityWaypointMotionName then
      Some(Dict(map[
        TypeKey := Text(name), WaypointsKey := waypoints.value, EeFrameKey := frame.value, DynamicsKey := d.value]))
    else Some(Dict(map[TypeKey := Text(name), WaypointsKey := waypoints.value, DynamicsKey := d.value]))
  }

  function StopPayload(w: Wire, name: Name): Option<Wire> {
    var d := Under(w, DynamicsKey, DynamicsFactors);
    if d.Some? then Some(Dict(map[TypeKey := Text(name), DynamicsKey := d.value])) else None
  }

  /** A motion payload of a given type; no type outside the twelve is accepted. */
  function OfType(name: Name, w: Wire): Option<Wire> {
    match name
    case CartesianMotionName => PositionPayload(w, name, Under(w, TargetKey, Target))
    case JointMotionName => PositionPayload(w, name, Under(w, TargetKey, JointTarget))
    case CartesianWaypointMotionName => WaypointPayload(w, name, Under(w, WaypointsKey, Waypoints))
    case JointWaypointMotionName => WaypointPayload(w, name, Under(w, WaypointsKey, JointWaypoints))
    case CartesianVelocityMotionName => VelocityPayload(w, name, Under(w, TargetKey, Velocity))
    case JointVelocityMotionName => VelocityPayload(w, name, Under(w, TargetKey, Seven))
    case CartesianVelocityWaypointMotionName =>
      VelocityWaypointsPayload(w, name, Under(w, WaypointsKey, TwistWaypoints))
    case JointVelocityWaypointMotionName =>
      VelocityWaypointsPayload(w, name, Under(w, WaypointsKey, JointTwistWaypoints))
    case CartesianStopMotionName => StopPayload(w, name)
    case JointStopMotionName => StopPayload(w, name)
    case CartesianVelocityStopMotionName => StopPayload(w, name)
    case JointVelocityStopMotionName => StopPayload(w, name)
    case _ => None
  }

  function Normal(w: Wire): Option<Wire> {
    match TypeOf(w)
    case Some(Text(name)) => OfType(name, w)
    case _ => None
  }

  // --- Builders agree with schemas ---------------------------------------------------------------------------

  /** What was built encodes to the normal form, and nothing was built exactly if there is none. */
  predicate Agrees<T>(built: Result<T>, encode: T -> Wire, normal: Option<Wire>) {
    match built
    case Success(value) => normal == Some(encode(value))
    case Failure(_) => normal.None?
  }

  lemma {:induction false} ItemsAgree<T(!new)>(items: seq<Wire>, build: Wire -> Result<T>, encode: T -> Wire,
      schema: Schema)
    requires forall w :: Agrees(build(w), encode, schema(w))
    ensures
      match BuildAll(items, build)
      case Success(values) => NormalItems(items, schema) == Some(Map(values, encode))
      case Failure(_) => NormalItems(items, schema).None?
  {
    if items != [] {
      ItemsAgree(items[1..], build, encode, schema);
      assert Agrees(build(items[0]), encode, schema(items[0]));
      if BuildAll(items, build).Success? {
        var first, rest := build(items[0]).value, BuildAll(items[1..], build).value;
        assert ([first] + rest)[1..] == rest;
      }
    }
  }

  lemma NumberAgrees(w: Wire)
    ensures Agrees(AsReal(w), EncodeReal, Number(w))
  {
  }

  lemma NumbersAgree(w: Wire, length: nat)
    ensures Agrees(AsReals(w, length), EncodeReals, Numbers(w, length))
  {
    forall x: Wire ensures Agrees(AsReal(x), EncodeReal, Number(x)) {
      NumberAgrees(x);
    }
    if w.List? {
      ItemsAgree(w.items, AsReal, EncodeReal, Number);
      if BuildAll(w.items, AsReal).Success? {
        SameLength(w.items, AsReal);
      }
    }
  }

  lemma {:induction false} SameLength<T>(items: seq<Wire>, build: Wire -> Result<T>)
    requires BuildAll(items, build).Success?
    ensures |BuildAll(items, build).value| == |items|
  {
    if items != [] {
      SameLength(items[1..], build);
    }
  }

  lemma ListAgrees<T(!new)>(w: Wire, build: Wire -> Result<T>, encode: T -> Wire, schema: Schema)
    requires forall x :: Agrees(build(x), encode, schema(x))
    ensures
      match AsItems(w)
      case Failure(_) => NormalList(w, schema).None?
      case Success(items) =>
        match BuildAll(items, build)
        case Success(values) => NormalList(w, schema) == Some(List(Map(values, encode)))
        case Failure(_) => NormalList(w, schema).None?
  {
    if w.List? {
      ItemsAgree(w.items, build, encode, schema);
    }
  }

  lemma MatrixAgrees(w: Wire)
    ensures Agrees(BuildMatrix(w), EncodeMatrix, Matrix(w))
  {
    forall x: Wire ensures Agrees(BuildRow(x), EncodeReals, Row(x)) {
      NumbersAgree(x, 4);
    }
    ListAgrees(w, BuildRow, EncodeReals, Row);
    if w.List? && BuildAll(w.items, BuildRow).Success? {
      var rows := BuildAll(w.items, BuildRow).value;
      SameLength(w.items, BuildRow);
      RowsAreFour(w.items);
      if |rows| == 4 {
        RowsEncode(rows);
      }
    }
  }

  lemma RowsAreFour(items: seq<Wire>)
    requires BuildAll(items, BuildRow).Success?
    ensures forall i :: 0 <= i < |BuildAll(items, BuildRow).value| ==> |BuildAll(items, BuildRow).value[i]| == 4
  {
    if items != [] {
      RowsAreFour(items[1..]);
    }
  }

  lemma RowsEncode(rows: seq<seq<real>>)
    requires |rows| == 4 && forall i :: 0 <= i < 4 ==> |rows[i]| == 4
    ensures List(Map(rows, EncodeReals)) == EncodeMatrix(MatrixOfRows(rows).value)
  {
    forall i | 0 <= i < 4 ensures rows[i] == [rows[i][0], rows[i][1], rows[i][2], rows[i][3]] {
    }
    hide EncodeReals;
    assert Map(rows, EncodeReals)
        == [EncodeReals(rows[0]), EncodeReals(rows[1]), EncodeReals(rows[2]), EncodeReals(rows[3])];
  }

  /** A value behind a key agrees if all values do. */
  lemma UnderAgrees<T(!new)>(w: Wire, key: Key, build: Wire -> Result<T>, encode: T -> Wire, schema: Schema)
    requires forall x :: Agrees(build(x), encode, schema(x))
    ensures
      match Field(w, key)
      case Failure(_) => Under(w, key, schema).None?
      case Success(value) => Agrees(build(value), encode, Under(w, key, schema))
  {
  }

  lemma PoseAgrees(w: Wire)
    ensures Agrees(BuildAffine(w), EncodeAffine, Pose(w))
  {
    forall x: Wire ensures Agrees(BuildMatrix(x), EncodeMatrix, Matrix(x)) {
      MatrixAgrees(x);
    }
    UnderAgrees(w, MatrixKey, BuildMatrix, EncodeMatrix, Matrix);
    hide BuildMatrix, EncodeMatrix, Matrix;
  }

  lemma OptionalPoseAgrees(w: Wire)
    ensures Agrees(BuildOptionalAffine(w), EncodeOptionalAffine, OptionalPose(w))
  {
    PoseAgrees(w);
    hide BuildAffine, EncodeAffine, Pose;
  }

  lemma FrameAgrees(w: Wire)
    requires w.Dict?
    ensures Agrees(EeFrameField(w), EncodeOptionalAffine, Frame(w))
  {
    OptionalPoseAgrees(Null);
    if EeFrameKey in w.fields {
      OptionalPoseAgrees(w.fields[EeFrameKey]);
    }
    hide BuildAffine, EncodeAffine, Pose;
  }

  lemma ReferenceAgrees(w: Wire)
    ensures Agrees(BuildReference(w), EncodeReference, ReferenceType(w))
  {
  }

  lemma DynamicsAgrees(w: Wire)
    ensures Agrees(BuildDynamics(w), EncodeDynamics, DynamicsFactors(w))
  {
    forall x: Wire ensures Agrees(AsReal(x), EncodeReal, Number(x)) {
      NumberAgrees(x);
    }
    UnderAgrees(w, VelocityKey, AsReal, EncodeReal, Number);
    UnderAgrees(w, AccelerationKey, AsReal, EncodeReal, Number);
    UnderAgrees(w, JerkKey, AsReal, EncodeReal, Number);
    hide AsReal, Number, Under;
  }

  lemma VectorAgrees(w: Wire)
    ensures Agrees(BuildVector3(w), EncodeVector3, Three(w))
  {
    NumbersAgree(w, 3);
    if AsReals(w, 3).Success? {
      var v := AsReals(w, 3).value;
      assert v == [v[0], v[1], v[2]];
    }
    hide EncodeReals, Numbers;
  }

  lemma SevenAgrees(w: Wire)
    ensures Agrees(BuildVector7(w), EncodeVector7, Seven(w))
  {
    NumbersAgree(w, 7);
    hide EncodeReals, Numbers;
  }

  lemma TwistAgrees(w: Wire)
    ensures Agrees(BuildTwist(w), EncodeTwist, TwistPayload(w))
  {
    forall x: Wire ensures Agrees(BuildVector3(x), EncodeVector3, Three(x)) {
      VectorAgrees(x);
    }
    UnderAgrees(w, LinearKey, BuildVector3, EncodeVector3, Three);
    UnderAgrees(w, AngularKey, BuildVector3, EncodeVector3, Three);
    hide BuildVector3, EncodeVector3, Three, Under;
  }

  lemma RobotVelocityAgrees(w: Wire)
    requires TypeOf(w) == Some(Text(RobotVelocityName))
    ensures Agrees(BuildVelocityTarget(w), EncodeVelocityTarget, Velocity(w))
  {
    forall x: Wire ensures Agrees(BuildTwist(x), EncodeTwist, TwistPayload(x)) {
      TwistAgrees(x);
    }
    UnderAgrees(w, EndEffectorTwistKey, BuildTwist, EncodeTwist, TwistPayload);
    hide BuildTwist, EncodeTwist, TwistPayload;
  }

  lemma VelocityAgrees(w: Wire)
    ensures Agrees(BuildVelocityTarget(w), EncodeVelocityTarget, Velocity(w))
  {
    if TypeOf(w) == Some(Text(RobotVelocityName)) {
      RobotVelocityAgrees(w);
      hide BuildVelocityTarget, EncodeVelocityTarget, Velocity;
    } else {
      forall x: Wire ensures Agrees(BuildTwist(x), EncodeTwist, TwistPayload(x)) {
        TwistAgrees(x);
      }
      UnderAgrees(w, ValueKey, BuildTwist, EncodeTwist, TwistPayload);
      hide BuildTwist, EncodeTwist, TwistPayload;
    }
  }

  lemma PoseUnder(w: Wire, key: Key)
    ensures
      match Field(w, key)
      case Failure(_) => Under(w, key, Pose).None?
      case Success(value) => Agrees(BuildAffine(value), EncodeAffine, Under(w, key, Pose))
  {
    if w.Dict? && key in w.fields {
      PoseAgrees(w.fields[key]);
    }
    hide BuildAffine, EncodeAffine, Pose;
  }

  /** The matrix that a target payload holds. */
  function TargetMatrix(target: CartesianTarget): Matrix4 {
    match target
    case Affine(matrix) => matrix
    case RobotPose(pose) => pose
    case State(state) => state.endEffectorPose
  }

  lemma FormAgrees(w: Wire)
    ensures
      match BuildCartesianTarget(w)
      case Failure(_) => TargetPose(w).None?
      case Success(target) => TargetPose(w) == Some(EncodeAffine(TargetMatrix(target)))
  {
    if TypeOf(w) == Some(Text(AffineName)) {
      PoseUnder(w, ValueKey);
    } else if TypeOf(w) == Some(Text(RobotPoseName)) {
      PoseUnder(w, EndEffectorPoseKey);
    } else if TypeOf(w) == Some(Text(CartesianStateName)) && PoseKey in w.fields {
      PoseUnder(w.fields[PoseKey], EndEffectorPoseKey);
    }
    hide BuildAffine, EncodeAffine, Pose;
  }

  lemma TargetAgrees(w: Wire)
    ensures Agrees(BuildCartesianState(w), EncodeCartesianState, Target(w))
  {
    FormAgrees(w);
    hide BuildCartesianTarget, TargetPose, EncodeAffine;
  }

  lemma JointTargetAgrees(w: Wire)
    ensures Agrees(BuildJointState(w), EncodeJointState, JointTarget(w))
  {
    forall x: Wire ensures Agrees(BuildVector7(x), EncodeVector7, Seven(x)) {
      SevenAgrees(x);
    }
    UnderAgrees(w, PositionKey, BuildVector7, EncodeVector7, Seven);
    hide BuildVector7, Seven, EncodeReals;
  }

  lemma TimingAgrees(w: Wire)
    ensures
      var (min, hold, max) := TimingPayload(w);
      match BuildTiming(w)
      case Success(timing) =>
        && min == Some(EncodeDuration(timing.minimum)) && hold == Some(Int(timing.hold))
        && max == Some(EncodeDuration(timing.maximum))
      case Failure(_) => min.None? || hold.None? || max.None?
  {
  }

  lemma DynamicsUnder(w: Wire)
    ensures Agrees(DynamicsField(w), EncodeDynamics, Under(w, DynamicsKey, DynamicsFactors))
  {
    forall x: Wire ensures Agrees(BuildDynamics(x), EncodeDynamics, DynamicsFactors(x)) {
      DynamicsAgrees(x);
    }
    UnderAgrees(w, DynamicsKey, BuildDynamics, EncodeDynamics, DynamicsFactors);
    hide BuildDynamics, EncodeDynamics, DynamicsFactors;
  }

  lemma ReferenceUnder(w: Wire)
    ensures Agrees(ReferenceField(w), EncodeReference, Under(w, ReferenceTypeKey, ReferenceType))
  {
  }

  function EncodeFlag(flag: bool): Wire {
    Bool(flag)
  }

  function EncodeInt(n: int): Wire {
    Int(n)
  }

  lemma FlagUnder(w: Wire)
    ensures Agrees(FinishedField(w), EncodeFlag, Under(w, ReturnWhenFinishedKey, Flag))
  {
  }

  lemma DurationUnder(w: Wire)
    ensures Agrees(DurationField(w), EncodeInt, Under(w, DurationKey, MotionDuration))
  {
  }

  lemma TargetUnder<T(!new)>(w: Wire, build: Wire -> Result<T>, encode: T -> Wire, schema: Schema)
    requires forall x :: Agrees(build(x), encode, schema(x))
    ensures Agrees(TargetField(w, build), encode, Under(w, TargetKey, schema))
  {
    UnderAgrees(w, TargetKey, build, encode, schema);
  }

  // --- Waypoints -----------------------------------------------------------------------------------------------

  lemma PositionWaypointAgrees<T(!new)>(w: Wire, build: Wire -> Result<T>, encode: T -> Wire, schema: Schema)
    requires forall x :: Agrees(build(x), encode, schema(x))
    ensures
      match BuildPositionWaypoint(w, build)
      case Success(waypoint) => PositionWaypointPayload(w, schema) == Some(EncodePositionWaypoint(waypoint, encode))
      case Failure(_) => PositionWaypointPayload(w, schema).None?
  {
    TargetUnder(w, build, encode, schema);
    ReferenceUnder(w);
    DynamicsUnder(w);
    TimingAgrees(w);
    hide Under, TimingPayload, BuildTiming, BuildReference, BuildDynamics, EncodeReference, EncodeDynamics;
    hide EncodeDuration;
  }

  lemma VelocityWaypointAgrees<T(!new)>(w: Wire, build: Wire -> Result<T>, encode: T -> Wire, schema: Schema)
    requires forall x :: Agrees(build(x), encode, schema(x))
    ensures
      match BuildVelocityWaypoint(w, build)
      case Success(waypoint) => VelocityWaypointPayload(w, schema) == Some(EncodeVelocityWaypoint(waypoint, encode))
      case Failure(_) => VelocityWaypointPayload(w, schema).None?
  {
    TargetUnder(w, build, encode, schema);
    DynamicsUnder(w);
    TimingAgrees(w);
    hide Under, TimingPayload, BuildTiming, BuildDynamics, EncodeDynamics, EncodeDuration;
  }

  /** A list of waypoints behind its key. */
  lemma WaypointsUnder<T(!new)>(w: Wire, build: Wire -> Result<T>, encode: T -> Wire, item: Schema, list: Schema)
    requires forall x :: Agrees(build(x), encode, item(x))
    requires forall x :: list(x) == NormalList(x, item)
    ensures
      match BuildWaypoints(w, build)
      case Success(values) => Under(w, WaypointsKey, list) == Some(List(Map(values, encode)))
      case Failure(_) => Under(w, WaypointsKey, list).None?
  {
    if Field(w, WaypointsKey).Success? {
      ListAgrees(Field(w, WaypointsKey).value, build, encode, item);
    }
  }

  lemma WaypointAgrees(w: Wire)
    ensures Agrees(BuildCartesianWaypoint(w), EncodeCartesianWaypoint, Waypoint(w))
  {
    forall x: Wire ensures Agrees(BuildCartesianState(x), EncodeCartesianState, Target(x)) {
      TargetAgrees(x);
    }
    PositionWaypointAgrees(w, BuildCartesianState, EncodeCartesianState, Target);
    hide BuildPositionWaypoint, EncodePositionWaypoint, PositionWaypointPayload;
  }

  lemma JointWaypointAgrees(w: Wire)
    ensures Agrees(BuildJointWaypoint(w), EncodeJointWaypoint, JointWaypoint(w))
  {
    forall x: Wire ensures Agrees(BuildJointState(x), EncodeJointState, JointTarget(x)) {
      JointTargetAgrees(x);
    }
    PositionWaypointAgrees(w, BuildJointState, EncodeJointState, JointTarget);
    hide BuildPositionWaypoint, EncodePositionWaypoint, PositionWaypointPayload;
  }

  lemma TwistWaypointAgrees(w: Wire)
    ensures Agrees(BuildCartesianVelocityWaypoint(w), EncodeCartesianVelocityWaypoint, TwistWaypoint(w))
  {
    forall x: Wire ensures Agrees(BuildVelocityTarget(x), EncodeVelocityTarget, Velocity(x)) {
      VelocityAgrees(x);
    }
    VelocityWaypointAgrees(w, BuildVelocityTarget, EncodeVelocityTarget, Velocity);
    hide BuildVelocityWaypoint, EncodeVelocityWaypoint, VelocityWaypointPayload;
  }

  lemma JointTwistWaypointAgrees(w: Wire)
    ensures Agrees(BuildJointVelocityWaypoint(w), EncodeJointVelocityWaypoint, JointTwistWaypoint(w))
  {
    forall x: Wire ensures Agrees(BuildVector7(x), EncodeVector7, Seven(x)) {
      SevenAgrees(x);
    }
    VelocityWaypointAgrees(w, BuildVector7, EncodeVector7, Seven);
    hide BuildVelocityWaypoint, EncodeVelocityWaypoint, VelocityWaypointPayload;
  }

  // --- Motions ---------------------------------------------------------------------------------------------------

  lemma CartesianMotionTarget(w: Wire)
    ensures Agrees(TargetField(w, BuildCartesianState), EncodeCartesianState, Under(w, TargetKey, Target))
  {
    forall x: Wire ensures Agrees(BuildCartesianState(x), EncodeCartesianState, Target(x)) {
      TargetAgrees(x);
    }
    TargetUnder(w, BuildCartesianState, EncodeCartesianState, Target);
  }

  lemma CartesianMotionAgrees(w: Wire)
    requires w.Dict?
    ensures
      Agrees(BuildCartesianMotion(w), EncodeMotion,
        PositionPayload(w, CartesianMotionName, Under(w, TargetKey, Target)))
  {
    CartesianMotionTarget(w);
    DynamicsUnder(w);
    ReferenceUnder(w);
    FlagUnder(w);
    FrameAgrees(w);
    hide Under, Frame, EncodeDynamics, DynamicsField, TargetField, EncodeCartesianState;
    hide ReferenceField, EncodeReference, FinishedField, EeFrameField, EncodeOptionalAffine;
  }

  lemma JointMotionTarget(w: Wire)
    ensures Agrees(TargetField(w, BuildJointState), EncodeJointState, Under(w, TargetKey, JointTarget))
  {
    forall x: Wire ensures Agrees(BuildJointState(x), EncodeJointState, JointTarget(x)) {
      JointTargetAgrees(x);
    }
    TargetUnder(w, BuildJointState, EncodeJointState, JointTarget);
  }

  lemma JointMotionAgrees(w: Wire)
    ensures
      Agrees(BuildJointMotion(w), EncodeMotion,
        PositionPayload(w, JointMotionName, Under(w, TargetKey, JointTarget)))
  {
    JointMotionTarget(w);
    DynamicsUnder(w);
    ReferenceUnder(w);
    FlagUnder(w);
    hide Under, Frame, EncodeDynamics, DynamicsField, TargetField;
    hide EncodeJointState, ReferenceField, EncodeReference, FinishedField;
  }

  lemma CartesianWaypointMotionWaypoints(w: Wire)
    ensures
      match BuildWaypoints(w, BuildCartesianWaypoint)
      case Success(values) => Under(w, WaypointsKey, Waypoints) == Some(List(Map(values, EncodeCartesianWaypoint)))
      case Failure(_) => Under(w, WaypointsKey, Waypoints).None?
  {
    forall x: Wire ensures Agrees(BuildCartesianWaypoint(x), EncodeCartesianWaypoint, Waypoint(x)) {
      WaypointAgrees(x);
    }
    WaypointsUnder(w, BuildCartesianWaypoint, EncodeCartesianWaypoint, Waypoint, Waypoints);
  }

  lemma CartesianWaypointMotionAgrees(w: Wire)
    requires w.Dict?
    ensures
      Agrees(BuildCartesianWaypointMotion(w), EncodeMotion,
        WaypointPayload(w, CartesianWaypointMotionName, Under(w, WaypointsKey, Waypoints)))
  {
    CartesianWaypointMotionWaypoints(w);
    DynamicsUnder(w);
    FlagUnder(w);
    FrameAgrees(w);
    hide Under, Frame, EncodeDynamics, DynamicsField, BuildWaypoints;
    hide Map, FinishedField, EeFrameField, EncodeOptionalAffine;
  }

  lemma JointWaypointMotionWaypoints(w: Wire)
    ensures
      match BuildWaypoints(w, BuildJointWaypoint)
      case Success(values) => Under(w, WaypointsKey, JointWaypoints) == Some(List(Map(values, EncodeJointWaypoint)))
      case Failure(_) => Under(w, WaypointsKey, JointWaypoints).None?
  {
    forall x: Wire ensures Agrees(BuildJointWaypoint(x), EncodeJointWaypoint, JointWaypoint(x)) {
      JointWaypointAgrees(x);
    }
    WaypointsUnder(w, BuildJointWaypoint, EncodeJointWaypoint, JointWaypoint, JointWaypoints);
  }

  lemma JointWaypointMotionAgrees(w: Wire)
    ensures
      Agrees(BuildJointWaypointMotion(w), EncodeMotion,
        WaypointPayload(w, JointWaypointMotionName, Under(w, WaypointsKey, JointWaypoints)))
  {
    JointWaypointMotionWaypoints(w);
    DynamicsUnder(w);
    FlagUnder(w);
    hide Under, Frame, EncodeDynamics, DynamicsField, BuildWaypoints, Map, FinishedField;
  }

  lemma CartesianVelocityMotionTarget(w: Wire)
    ensures Agrees(TargetField(w, BuildVelocityTarget), EncodeVelocityTarget, Under(w, TargetKey, Velocity))
  {
    forall x: Wire ensures Agrees(BuildVelocityTarget(x), EncodeVelocityTarget, Velocity(x)) {
      VelocityAgrees(x);
    }
    TargetUnder(w, BuildVelocityTarget, EncodeVelocityTarget, Velocity);
  }

  lemma CartesianVelocityFields(target: VelocityTarget, duration: int, dynamics: Dynamics, frame: Option<Matrix4>)
    ensures
      EncodeMotion(CartesianVelocityMotion(target, duration, dynamics, frame))
      == Dict(map[
        TypeKey := Text(CartesianVelocityMotionName), TargetKey := EncodeVelocityTarget(target),
        DurationKey := EncodeInt(duration), DynamicsKey := EncodeDynamics(dynamics),
        EeFrameKey := EncodeOptionalAffine(frame)])
  {
    hide EncodeVelocityTarget, EncodeDynamics, EncodeOptionalAffine;
  }

  lemma CartesianVelocityMotionAgrees(w: Wire)
    requires w.Dict?
    ensures
      Agrees(BuildCartesianVelocityMotion(w), EncodeMotion,
        VelocityPayload(w, CartesianVelocityMotionName, Under(w, TargetKey, Velocity)))
  {
    CartesianVelocityMotionTarget(w);
    DynamicsUnder(w);
    DurationUnder(w);
    FrameAgrees(w);
    hide Under, Frame, DynamicsField, TargetField, DurationField, EeFrameField, EncodeMotion;
    hide EncodeVelocityTarget, EncodeInt, EncodeDynamics, EncodeOptionalAffine;
    if BuildCartesianVelocityMotion(w).Success? {
      var m := BuildCartesianVelocityMotion(w).value;
      CartesianVelocityFields(m.velocityTarget, m.duration, m.dynamics, m.eeFrame);
    }
  }

  lemma JointVelocityMotionTarget(w: Wire)
    ensures Agrees(TargetField(w, BuildVector7), EncodeVector7, Under(w, TargetKey, Seven))
  {
    forall x: Wire ensures Agrees(BuildVector7(x), EncodeVector7, Seven(x)) {
      SevenAgrees(x);
    }
    TargetUnder(w, BuildVector7, EncodeVector7, Seven);
  }

  lemma JointVelocityMotionAgrees(w: Wire)
    ensures
      Agrees(BuildJointVelocityMotion(w), EncodeMotion,
        VelocityPayload(w, JointVelocityMotionName, Under(w, TargetKey, Seven)))
  {
    JointVelocityMotionTarget(w);
    DynamicsUnder(w);
    DurationUnder(w);
    hide Under, Frame, EncodeDynamics, DynamicsField, TargetField, EncodeVector7, DurationField;
  }

  lemma CartesianVelocityWaypointMotionWaypoints(w: Wire)
    ensures
      match BuildWaypoints(w, BuildCartesianVelocityWaypoint)
      case Success(values) =>
        Under(w, WaypointsKey, TwistWaypoints) == Some(List(Map(values, EncodeCartesianVelocityWaypoint)))
      case Failure(_) => Under(w, WaypointsKey, TwistWaypoints).None?
  {
    forall x: Wire
        ensures Agrees(BuildCartesianVelocityWaypoint(x), EncodeCartesianVelocityWaypoint, TwistWaypoint(x)) {
      TwistWaypointAgrees(x);
    }
    WaypointsUnder(w, BuildCartesianVelocityWaypoint, EncodeCartesianVelocityWaypoint, TwistWaypoint, TwistWaypoints);
  }

  lemma CartesianVelocityWaypointMotionAgrees(w: Wire)
    requires w.Dict?
    ensures
      Agrees(BuildCartesianVelocityWaypointMotion(w), EncodeMotion,
        VelocityWaypointsPayload(w, CartesianVelocityWaypointMotionName, Under(w, WaypointsKey, TwistWaypoints)))
  {
    CartesianVelocityWaypointMotionWaypoints(w);
    DynamicsUnder(w);
    FrameAgrees(w);
    hide Under, Frame, EncodeDynamics, DynamicsField, BuildWaypoints, Map, EeFrameField, EncodeOptionalAffine;
  }

  lemma JointVelocityWaypointMotionWaypoints(w: Wire)
    ensures
      match BuildWaypoints(w, BuildJointVelocityWaypoint)
      case Success(values) =>
        Under(w, WaypointsKey, JointTwistWaypoints) == Some(List(Map(values, EncodeJointVelocityWaypoint)))
      case Failure(_) => Under(w, WaypointsKey, JointTwistWaypoints).None?
  {
    forall x: Wire ensures Agrees(BuildJointVelocityWaypoint(x), EncodeJointVelocityWaypoint, JointTwistWaypoint(x)) {
      JointTwistWaypointAgrees(x);
    }
    WaypointsUnder(w, BuildJointVelocityWaypoint, EncodeJointVelocityWaypoint, JointTwistWaypoint, JointTwistWaypoints);
  }

  lemma JointVelocityWaypointMotionAgrees(w: Wire)
    ensures
      Agrees(BuildJointVelocityWaypointMotion(w), EncodeMotion,
        VelocityWaypointsPayload(w, JointVelocityWaypointMotionName, Under(w, WaypointsKey, JointTwistWaypoints)))
  {
    JointVelocityWaypointMotionWaypoints(w);
    DynamicsUnder(w);
    hide Under, Frame, EncodeDynamics, DynamicsField, BuildWaypoints, Map;
  }

  lemma StopMotionAgrees(w: Wire)
    ensures Agrees(BuildCartesianStopMotion(w), EncodeMotion, StopPayload(w, CartesianStopMotionName))
    ensures Agrees(BuildJointStopMotion(w), EncodeMotion, StopPayload(w, JointStopMotionName))
    ensures Agrees(BuildCartesianVelocityStopMotion(w), EncodeMotion, StopPayload(w, CartesianVelocityStopMotionName))
    ensures Agrees(BuildJointVelocityStopMotion(w), EncodeMotion, StopPayload(w, JointVelocityStopMotionName))
  {
    DynamicsUnder(w);
    hide DynamicsField, Under, EncodeDynamics;
  }

  lemma RegisteredAgrees(name: Name, w: Wire)
    requires w.Dict?
    ensures Agrees(Registered(name, w), EncodeMotion, OfType(name, w))
  {
    hide BuildCartesianMotion, BuildCartesianWaypointMotion, BuildJointMotion, BuildJointWaypointMotion;
    hide BuildCartesianVelocityMotion, BuildCartesianVelocityWaypointMotion;
    hide BuildJointVelocityMotion, BuildJointVelocityWaypointMotion;
    hide BuildCartesianStopMotion, BuildJointStopMotion, BuildCartesianVelocityStopMotion, BuildJointVelocityStopMotion;
    hide EncodeMotion, PositionPayload, WaypointPayload, VelocityPayload, VelocityWaypointsPayload, StopPayload, Under;
    match name
    case CartesianMotionName => CartesianMotionAgrees(w);
    case CartesianWaypointMotionName => CartesianWaypointMotionAgrees(w);
    case JointMotionName => JointMotionAgrees(w);
    case JointWaypointMotionName => JointWaypointMotionAgrees(w);
    case CartesianVelocityMotionName => CartesianVelocityMotionAgrees(w);
    case CartesianVelocityWaypointMotionName => CartesianVelocityWaypointMotionAgrees(w);
    case JointVelocityMotionName => JointVelocityMotionAgrees(w);
    case JointVelocityWaypointMotionName => JointVelocityWaypointMotionAgrees(w);
    case CartesianStopMotionName => StopMotionAgrees(w);
    case JointStopMotionName => StopMotionAgrees(w);
    case CartesianVelocityStopMotionName => StopMotionAgrees(w);
    case JointVelocityStopMotionName => StopMotionAgrees(w);
    case _ =>
  }

  /**
   Main result: the server builds a motion from exactly the payloads that have a normal form, and from each the motion
   whose encoding that is. So of a payload, whoever made it, nothing matters but its normal form.
   */
  lemma AcceptsIff(w: Wire)
    ensures BuildMotion(w).Success? <==> Normal(w).Some?
    ensures BuildMotion(w).Success? ==> EncodeMotion(BuildMotion(w).value) == Normal(w).value
  {
    if w.Dict? && TypeKey in w.fields && w.fields[TypeKey].Text? {
      RegisteredAgrees(w.fields[TypeKey].name, w);
      hide Registered, OfType, EncodeMotion;
    }
  }

  /**
   Main result: the answer to a payload that is no dictionary is a type error, to one without a type a key error, and
   those are the only key errors; a type that is a string, but none of the twelve, is reported as unsupported.
   */
  lemma RefusesIff(w: Wire)
    ensures !w.Dict? ==> BuildMotion(w) == Failure(TypeError)
    ensures BuildMotion(w) == Failure(KeyError) <==> w.Dict? && TypeKey !in w.fields
    ensures
      w.Dict? && TypeKey in w.fields && w.fields[TypeKey].Text? && w.fields[TypeKey].name.OtherName?
      ==> BuildMotion(w) == Failure(ValueError)
  {
    if w.Dict? && TypeKey in w.fields && w.fields[TypeKey].Text? {
      AcceptsIff(w);
      if w.fields[TypeKey].name.OtherName? {
        assert Registered(w.fields[TypeKey].name, w) == Failure(KeyError);
      }
      hide OfType, Registered;
    }
  }

  /** Main result: numbers are taken for what their keys and places say: parts of a twist, factors, matrix entries. */
  lemma PartsGoByName(l: Vector3, a: Vector3, velocity: real, acceleration: real, jerk: real, m: Matrix4)
    ensures
      BuildTwist(Dict(map[LinearKey := EncodeReals([l.a, l.b, l.c]), AngularKey := EncodeReals([a.a, a.b, a.c])]))
      == Success(Twist(l, a))
    ensures
      BuildDynamics(Dict(map[VelocityKey := Num(velocity), AccelerationKey := Num(acceleration), JerkKey := Num(jerk)]))
      == Success(Factors(velocity, acceleration, jerk))
    ensures
      BuildMatrix(List([
        EncodeReals([m.a00, m.a01, m.a02, m.a03]), EncodeReals([m.a10, m.a11, m.a12, m.a13]),
        EncodeReals([m.a20, m.a21, m.a22, m.a23]), EncodeReals([m.a30, m.a31, m.a32, m.a33])]))
      == Success(m)
  {
    RealsRoundTrip([l.a, l.b, l.c]);
    RealsRoundTrip([a.a, a.b, a.c]);
    MatrixGoesByPlace(m);
    hide EncodeReals, AsReals, BuildMatrix;
  }

  lemma MatrixGoesByPlace(m: Matrix4)
    ensures
      BuildMatrix(List([
        EncodeReals([m.a00, m.a01, m.a02, m.a03]), EncodeReals([m.a10, m.a11, m.a12, m.a13]),
        EncodeReals([m.a20, m.a21, m.a22, m.a23]), EncodeReals([m.a30, m.a31, m.a32, m.a33])]))
      == Success(m)
  {
    var r0, r1 := [m.a00, m.a01, m.a02, m.a03], [m.a10, m.a11, m.a12, m.a13];
    var r2, r3 := [m.a20, m.a21, m.a22, m.a23], [m.a30, m.a31, m.a32, m.a33];
    RealsRoundTrip(r0);
    RealsRoundTrip(r1);
    RealsRoundTrip(r2);
    RealsRoundTrip(r3);
    BuildFour(EncodeReals(r0), EncodeReals(r1), EncodeReals(r2), EncodeReals(r3), BuildRow);
    hide EncodeReals, AsReals, BuildAll;
  }
}
