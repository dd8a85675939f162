/**
 Motions across the wire: the client's encoders (zero_franky/protocol.py) and the server's builders
 (zero_franky/zmq_server_franky.py).
 */
module MotionWire {
  import opened Wrappers
  import opened Rotation
  import opened RigidTransform
  import opened Motions
  import opened Wire

  // --- Encoders --------------------------------------------------------------------------------------------

  function EncodeRow(r0: real, r1: real, r2: real, r3: real): Wire {
    EncodeReals([r0, r1, r2, r3])
  }

  function EncodeMatrix(m: Matrix4): Wire {
    List([
      EncodeRow(m.a00, m.a01, m.a02, m.a03), EncodeRow(m.a10, m.a11, m.a12, m.a13),
      EncodeRow(m.a20, m.a21, m.a22, m.a23), EncodeRow(m.a30, m.a31, m.a32, m.a33)])
  }

  function EncodeAffine(m: Matrix4): Wire {
    Dict(map[TypeKey := Text(AffineName), MatrixKey := EncodeMatrix(m)])
  }

  function EncodeOptionalAffine(m: Option<Matrix4>): Wire {
    if m.Some? then EncodeAffine(m.value) else Null
  }

  function EncodeReference(r: Reference): Wire {
    Text(if r.Relative? then RelativeName else AbsoluteName)
  }

  function EncodeDynamics(d: Dynamics): Wire {
    match d
    case Plain(x) => Dict(map[VelocityKey := Num(x), AccelerationKey := Num(x), JerkKey := Num(x)])
    case Factors(v, a, j) => Dict(map[VelocityKey := Num(v), AccelerationKey := Num(a), JerkKey := Num(j)])
  }

  function EncodeDuration(d: Option<int>): Wire {
    if d.Some? then Int(d.value) else Null
  }

  function EncodeVector3(v: Vector3): Wire {
    EncodeReals([v.a, v.b, v.c])
  }

  function EncodeTwist(t: Twist): Wire {
    Dict(map[TypeKey := Text(TwistName), LinearKey := EncodeVector3(t.linear), AngularKey := EncodeVector3(t.angular)])
  }

  function EncodeVelocityTarget(v: VelocityTarget): Wire {
    match v
    case RobotVelocity(twist, elbow) =>
      Dict(map[
        TypeKey := Text(RobotVelocityName), EndEffectorTwistKey := EncodeTwist(twist),
        ElbowVelocityKey := if elbow.Some? then Num(elbow.value) else Null])
    case BareTwist(twist) => Dict(map[TypeKey := Text(TwistName), ValueKey := EncodeTwist(twist)])
  }

  /** The encoder accepts all three forms of target; motions only ever hand it the last. */
  function EncodeCartesianTarget(t: CartesianTarget): Wire {
    match t
    case Affine(matrix) => Dict(map[TypeKey := Text(AffineName), ValueKey := EncodeAffine(matrix)])
    case RobotPose(pose) => Dict(map[TypeKey := Text(RobotPoseName), EndEffectorPoseKey := EncodeAffine(pose)])
    case State(state) =>
      Dict(map[
        TypeKey := Text(CartesianStateName),
        PoseKey := Dict(map[EndEffectorPoseKey := EncodeAffine(state.endEffectorPose)])])
  }

  function EncodeCartesianState(s: CartesianState): Wire {
    EncodeCartesianTarget(State(s))
  }

  /** The velocity of the target does not travel. */
  function EncodeJointState(s: JointState): Wire {
    Dict(map[TypeKey := Text(JointStateName), PositionKey := EncodeReals(s.position)])
  }

  function EncodeVector7(v: Vector7): Wire {
    EncodeReals(v)
  }

  function EncodePositionWaypoint<T>(w: PositionWaypoint<T>, encodeTarget: T -> Wire): Wire {
    Dict(map[
      TargetKey := encodeTarget(w.target), ReferenceTypeKey := EncodeReference(w.reference),
      DynamicsKey := EncodeDynamics(w.dynamics), MinimumTimeKey := EncodeDuration(w.timing.minimum),
      HoldTargetDurationKey := Int(w.timing.hold), MaxTotalDurationKey := EncodeDuration(w.timing.maximum)])
  }

  function EncodeVelocityWaypoint<T>(w: VelocityWaypoint<T>, encodeTarget: T -> Wire): Wire {
    Dict(map[
      TargetKey := encodeTarget(w.target), DynamicsKey := EncodeDynamics(w.dynamics),
      MinimumTimeKey := EncodeDuration(w.timing.minimum), HoldTargetDurationKey := Int(w.timing.hold),
      MaxTotalDurationKey := EncodeDuration(w.timing.maximum)])
  }

  function EncodeCartesianWaypoint(w: PositionWaypoint<CartesianState>): Wire {
    EncodePositionWaypoint(w, EncodeCartesianState)
  }

  function EncodeJointWaypoint(w: PositionWaypoint<JointState>): Wire {
    EncodePositionWaypoint(w, EncodeJointState)
  }

  function EncodeCartesianVelocityWaypoint(w: VelocityWaypoint<VelocityTarget>): Wire {
    EncodeVelocityWaypoint(w, EncodeVelocityTarget)
  }

  function EncodeJointVelocityWaypoint(w: VelocityWaypoint<Vector7>): Wire {
    EncodeVelocityWaypoint(w, EncodeVector7)
  }

  function FieldsOf(m: Motion): map<Key, Wire> {
    match m
    case CartesianMotion(target, reference, dynamics, returnWhenFinished, eeFrame) =>
      map[TypeKey := Text(CartesianMotionName), TargetKey := EncodeCartesianState(target),
          ReferenceTypeKey := EncodeReference(reference),
          DynamicsKey := EncodeDynamics(dynamics), ReturnWhenFinishedKey := Bool(returnWhenFinished),
          EeFrameKey := EncodeOptionalAffine(eeFrame)]
    case CartesianWaypointMotion(waypoints, eeFrame, dynamics, returnWhenFinished) =>
      map[TypeKey := Text(CartesianWaypointMotionName), WaypointsKey := List(Map(waypoints, EncodeCartesianWaypoint)),
          EeFrameKey := EncodeOptionalAffine(eeFrame), DynamicsKey := EncodeDynamics(dynamics),
          ReturnWhenFinishedKey := Bool(returnWhenFinished)]
    case CartesianStopMotion(dynamics) =>
      map[TypeKey := Text(CartesianStopMotionName), DynamicsKey := EncodeDynamics(dynamics)]
    case JointMotion(target, reference, dynamics, returnWhenFinished) =>
      map[TypeKey := Text(JointMotionName), TargetKey := EncodeJointState(target),
          ReferenceTypeKey := EncodeReference(reference),
          DynamicsKey := EncodeDynamics(dynamics), ReturnWhenFinishedKey := Bool(returnWhenFinished)]
    case JointWaypointMotion(waypoints, dynamics, returnWhenFinished) =>
      map[TypeKey := Text(JointWaypointMotionName), WaypointsKey := List(Map(waypoints, EncodeJointWaypoint)),
          DynamicsKey := EncodeDynamics(dynamics), ReturnWhenFinishedKey := Bool(returnWhenFinished)]
    case JointStopMotion(dynamics) =>
      map[TypeKey := Text(JointStopMotionName), DynamicsKey := EncodeDynamics(dynamics)]
    case CartesianVelocityMotion(target, duration, dynamics, eeFrame) =>
      map[TypeKey := Text(CartesianVelocityMotionName), TargetKey := EncodeVelocityTarget(target),
          DurationKey := Int(duration),
          DynamicsKey := EncodeDynamics(dynamics), EeFrameKey := EncodeOptionalAffine(eeFrame)]
    case CartesianVelocityWaypointMotion(waypoints, eeFrame, dynamics) =>
      map[TypeKey := Text(CartesianVelocityWaypointMotionName),
          WaypointsKey := List(Map(waypoints, EncodeCartesianVelocityWaypoint)),
          EeFrameKey := EncodeOptionalAffine(eeFrame), DynamicsKey := EncodeDynamics(dynamics)]
    case CartesianVelocityStopMotion(dynamics) =>
      map[TypeKey := Text(CartesianVelocityStopMotionName), DynamicsKey := EncodeDynamics(dynamics)]
    case JointVelocityMotion(target, duration, dynamics) =>
      map[TypeKey := Text(JointVelocityMotionName), TargetKey := EncodeVector7(target), DurationKey := Int(duration),
          DynamicsKey := EncodeDynamics(dynamics)]
    case JointVelocityWaypointMotion(waypoints, dynamics) =>
      map[TypeKey := Text(JointVelocityWaypointMotionName),
          WaypointsKey := List(Map(waypoints, EncodeJointVelocityWaypoint)),
          DynamicsKey := EncodeDynamics(dynamics)]
    case JointVelocityStopMotion(dynamics) =>
      map[TypeKey := Text(JointVelocityStopMotionName), DynamicsKey := EncodeDynamics(dynamics)]
  }

  function EncodeMotion(m: Motion): Wire {
    Dict(FieldsOf(m))
  }

  // --- Builders --------------------------------------------------------------------------------------------

  function BuildRow(w: Wire): Result<seq<real>> {
    AsReals(w, 4)
  }

  function MatrixOfRows(rows: seq<seq<real>>): Result<Matrix4> {
    if |rows| == 4 && |rows[0]| == 4 && |rows[1]| == 4 && |rows[2]| == 4 && |rows[3]| == 4 then
      Success(Matrix4(
        rows[0][0], rows[0][1], rows[0][2], rows[0][3], rows[1][0], rows[1][1], rows[1][2], rows[1][3],
        rows[2][0], rows[2][1], rows[2][2], rows[2][3], rows[3][0], rows[3][1], rows[3][2], rows[3][3]))
    else Failure(TypeError)
  }

  function BuildMatrix(w: Wire): Result<Matrix4> {
    var items :- AsItems(w);
    var rows :- BuildAll(items, BuildRow);
    MatrixOfRows(rows)
  }

  function BuildAffine(w: Wire): Result<Matrix4> {
    var matrix :- Field(w, MatrixKey);
    BuildMatrix(matrix)
  }

  function BuildOptionalAffine(w: Wire): Result<Option<Matrix4>> {
    if w.Null? then Success(None)
    else
      var m :- BuildAffine(w);
      Success(Some(m))
  }

  function BuildReference(w: Wire): Result<Reference> {
    if !w.Text? then Failure(TypeError)
    else
      match w.name
      case RelativeName => Success(Relative)
      case AbsoluteName => Success(Absolute)
      case _ => Failure(AttributeError)
  }

  function BuildDynamics(w: Wire): Result<Dynamics> {
    var velocity :- Field(w, VelocityKey);
    var acceleration :- Field(w, AccelerationKey);
    var jerk :- Field(w, JerkKey);
    var v :- AsReal(velocity);
    if velocity == acceleration == jerk then Success(Factors(v, v, v))
    else
      var a :- AsReal(acceleration);
      var j :- AsReal(jerk);
      Success(Factors(v, a, j))
  }

  function BuildDuration(w: Wire): Result<Option<int>> {
    match w
    case Null => Success(None)
    case Int(milliseconds) => Success(Some(milliseconds))
    case _ => Failure(TypeError)
  }

  function BuildVector3(w: Wire): Result<Vector3> {
    var v :- AsReals(w, 3);
    if |v| == 3 then Success(Vector3(v[0], v[1], v[2])) else Failure(ValueError)
  }

  function BuildTwist(w: Wire): Result<Twist> {
    var linear :- Field(w, LinearKey);
    var angular :- Field(w, AngularKey);
    var l :- BuildVector3(linear);
    var a :- BuildVector3(angular);
    Success(Twist(l, a))
  }

  function BuildElbow(w: Wire): Result<Option<real>> {
    if w.Null? then Success(None)
    else
      var elbow :- AsReal(w);
      Success(Some(elbow))
  }

  function BuildVelocityTarget(w: Wire): Result<VelocityTarget> {
    var kind :- Field(w, TypeKey);
    if kind == Text(RobotVelocityName) then
      var twist :- Field(w, EndEffectorTwistKey);
      var t :- BuildTwist(twist);
      var elbow :- Field(w, ElbowVelocityKey);
      var e :- BuildElbow(elbow);
      Success(RobotVelocity(t, e))
    else if kind == Text(TwistName) then
      var value :- Field(w, ValueKey);
      var t :- BuildTwist(value);
      Success(BareTwist(t))
    else Failure(ValueError)
  }

  function BuildCartesianTarget(w: Wire): Result<CartesianTarget> {
    var kind :- Field(w, TypeKey);
    if kind == Text(AffineName) then
      var value :- Field(w, ValueKey);
      var m :- BuildAffine(value);
      Success(Affine(m))
    else if kind == Text(RobotPoseName) then
      var value :- Field(w, EndEffectorPoseKey);
      var m :- BuildAffine(value);
      Success(RobotPose(m))
    else if kind == Text(CartesianStateName) then
      var pose :- Field(w, PoseKey);
      var value :- Field(pose, EndEffectorPoseKey);
      var m :- BuildAffine(value);
      Success(State(CartesianState(m)))
    else Failure(ValueError)
  }

  function BuildCartesianState(w: Wire): Result<CartesianState> {
    var target :- BuildCartesianTarget(w);
    Success(AsCartesianState(target))
  }

  function BuildVector7(w: Wire): Result<Vector7> {
    var v :- AsReals(w, 7);
    AsVector7(v)
  }

  function BuildJointState(w: Wire): Result<JointState> {
    var position :- Field(w, PositionKey);
    var q :- BuildVector7(position);
    MakeJointState(q, None)
  }

  function BuildTiming(w: Wire): Result<Timing> {
    var minimum :- Field(w, MinimumTimeKey);
    var min :- BuildDuration(minimum);
    var hold :- Field(w, HoldTargetDurationKey);
    var h :- BuildDuration(hold);
    var maximum :- Field(w, MaxTotalDurationKey);
    var max :- BuildDuration(maximum);
    Success(MakeTiming(min, h, max))
  }

  function BuildPositionWaypoint<T>(w: Wire, buildTarget: Wire -> Result<T>): Result<PositionWaypoint<T>> {
    var target :- Field(w, TargetKey);
    var t :- buildTarget(target);
    var reference :- Field(w, ReferenceTypeKey);
    var r :- BuildReference(reference);
    var dynamics :- Field(w, DynamicsKey);
    var d :- BuildDynamics(dynamics);
    var timing :- BuildTiming(w);
    Success(PositionWaypoint(t, r, d, timing))
  }

  function BuildVelocityWaypoint<T>(w: Wire, buildTarget: Wire -> Result<T>): Result<VelocityWaypoint<T>> {
    var target :- Field(w, TargetKey);
    var t :- buildTarget(target);
    var dynamics :- Field(w, DynamicsKey);
    var d :- BuildDynamics(dynamics);
    var timing :- BuildTiming(w);
    Success(VelocityWaypoint(t, d, timing))
  }

  function BuildCartesianWaypoint(w: Wire): Result<PositionWaypoint<CartesianState>> {
    BuildPositionWaypoint(w, BuildCartesianState)
  }

  function BuildJointWaypoint(w: Wire): Result<PositionWaypoint<JointState>> {
    BuildPositionWaypoint(w, BuildJointState)
  }

  function BuildCartesianVelocityWaypoint(w: Wire): Result<VelocityWaypoint<VelocityTarget>> {
    BuildVelocityWaypoint(w, BuildVelocityTarget)
  }

  function BuildJointVelocityWaypoint(w: Wire): Result<VelocityWaypoint<Vector7>> {
    BuildVelocityWaypoint(w, BuildVector7)
  }

  function BuildWaypoints<T>(w: Wire, build: Wire -> Result<T>): Result<seq<T>> {
    var waypoints :- Field(w, WaypointsKey);
    var items :- AsItems(waypoints);
    BuildAll(items, build)
  }

  function DynamicsField(w: Wire): Result<Dynamics> {
    var dynamics :- Field(w, DynamicsKey);
    BuildDynamics(dynamics)
  }

  function ReferenceField(w: Wire): Result<Reference> {
    var reference :- Field(w, ReferenceTypeKey);
    BuildReference(reference)
  }

  function FinishedField(w: Wire): Result<bool> {
    var finished :- Field(w, ReturnWhenFinishedKey);
    AsBool(finished)
  }

  function DurationField(w: Wire): Result<int> {
    var duration :- Field(w, DurationKey);
    var d :- BuildDuration(duration);
    Success(DurationOr1000(d))
  }

  /** The frame may be missing. */
  function EeFrameField(w: Wire): Result<Option<Matrix4>> {
    var frame :- OptionalField(w, EeFrameKey);
    BuildOptionalAffine(frame)
  }

  function TargetField<T>(w: Wire, build: Wire -> Result<T>): Result<T> {
    var target :- Field(w, TargetKey);
    build(target)
  }

  function BuildCartesianMotion(w: Wire): Result<Motion> {
    var target :- TargetField(w, BuildCartesianState);
    var reference :- ReferenceField(w);
    var dynamics :- DynamicsField(w);
    var finished :- FinishedField(w);
    var frame :- EeFrameField(w);
    Success(MakeCartesianMotion(State(target), reference, dynamics, finished, frame))
  }

  function BuildCartesianWaypointMotion(w: Wire): Result<Motion> {
    var waypoints :- BuildWaypoints(w, BuildCartesianWaypoint);
    var frame :- EeFrameField(w);
    var dynamics :- DynamicsField(w);
    var finished :- FinishedField(w);
    Success(CartesianWaypointMotion(waypoints, frame, dynamics, finished))
  }

  function BuildCartesianStopMotion(w: Wire): Result<Motion> {
    var dynamics :- DynamicsField(w);
    Success(CartesianStopMotion(dynamics))
  }

  function BuildJointMotion(w: Wire): Result<Motion> {
    var target :- TargetField(w, BuildJointState);
    var reference :- ReferenceField(w);
    var dynamics :- DynamicsField(w);
    var finished :- FinishedField(w);
    Success(JointMotion(target, reference, dynamics, finished))
  }

  function BuildJointWaypointMotion(w: Wire): Result<Motion> {
    var waypoints :- BuildWaypoints(w, BuildJointWaypoint);
    var dynamics :- DynamicsField(w);
    var finished :- FinishedField(w);
    Success(JointWaypointMotion(waypoints, dynamics, finished))
  }

  function BuildJointStopMotion(w: Wire): Result<Motion> {
    var dynamics :- DynamicsField(w);
    Success(JointStopMotion(dynamics))
  }

  function BuildCartesianVelocityMotion(w: Wire): Result<Motion> {
    var target :- TargetField(w, BuildVelocityTarget);
    var duration :- DurationField(w);
    var dynamics :- DynamicsField(w);
    var frame :- EeFrameField(w);
    Success(CartesianVelocityMotion(target, duration, dynamics, frame))
  }

  function BuildCartesianVelocityWaypointMotion(w: Wire): Result<Motion> {
    var waypoints :- BuildWaypoints(w, BuildCartesianVelocityWaypoint);
    var frame :- EeFrameField(w);
    var dynamics :- DynamicsField(w);
    Success(CartesianVelocityWaypointMotion(waypoints, frame, dynamics))
  }

  function BuildCartesianVelocityStopMotion(w: Wire): Result<Motion> {
    var dynamics :- DynamicsField(w);
    Success(CartesianVelocityStopMotion(dynamics))
  }

  function BuildJointVelocityMotion(w: Wire): Result<Motion> {
    var target :- TargetField(w, BuildVector7);
    var duration :- DurationField(w);
    var dynamics :- DynamicsField(w);
    Success(JointVelocityMotion(target, duration, dynamics))
  }

  function BuildJointVelocityWaypointMotion(w: Wire): Result<Motion> {
    var waypoints :- BuildWaypoints(w, BuildJointVelocityWaypoint);
    var dynamics :- DynamicsField(w);
    Success(JointVelocityWaypointMotion(waypoints, dynamics))
  }

  function BuildJointVelocityStopMotion(w: Wire): Result<Motion> {
    var dynamics :- DynamicsField(w);
    Success(JointVelocityStopMotion(dynamics))
  }

  /** The registered builders; an unregistered name is a failed lookup. */
  function Registered(name: Name, w: Wire): Result<Motion> {
    match name
    case CartesianMotionName => BuildCartesianMotion(w)
    case CartesianWaypointMotionName => BuildCartesianWaypointMotion(w)
    case CartesianStopMotionName => BuildCartesianStopMotion(w)
    case JointMotionName => BuildJointMotion(w)
    case JointWaypointMotionName => BuildJointWaypointMotion(w)
    case JointStopMotionName => BuildJointStopMotion(w)
    case CartesianVelocityMotionName => BuildCartesianVelocityMotion(w)
    case CartesianVelocityWaypointMotionName => BuildCartesianVelocityWaypointMotion(w)
    case CartesianVelocityStopMotionName => BuildCartesianVelocityStopMotion(w)
    case JointVelocityMotionName => BuildJointVelocityMotion(w)
    case JointVelocityWaypointMotionName => BuildJointVelocityWaypointMotion(w)
    case JointVelocityStopMotionName => BuildJointVelocityStopMotion(w)
    case _ => Failure(KeyError)
  }

  /** A failed key lookup inside a builder is reported as an unsupported motion type. */
  function Reported(built: Result<Motion>): Result<Motion> {
    if built == Failure(KeyError) then Failure(ValueError) else built
  }

  function BuildMotion(w: Wire): Result<Motion> {
    var kind :- Field(w, TypeKey);
    if kind.Text? then Reported(Registered(kind.name, w))
    else Failure(if kind.List? || kind.Dict? then TypeError else ValueError)
  }
}
