/** What survives the trip of a motion from client to server. */
module MotionRoundTrip {
  import opened Wrappers
  import opened Rotation
  import opened RigidTransform
  import opened Motions
  import opened Wire
  import opened MotionWire

  // --- What arrives ----------------------------------------------------------------------------------------

  /** A plain factor arrives as three equal ones. */
  function ArrivingDynamics(d: Dynamics): Dynamics {
    if d.Plain? then Factors(d.factor, d.factor, d.factor) else d
  }

  /** A joint target arrives without its velocity. */
  function ArrivingJointState(s: JointState): JointState {
    s.(velocity := REST)
  }

  function ArrivingCartesianWaypoint(w: PositionWaypoint<CartesianState>): PositionWaypoint<CartesianState> {
    w.(dynamics := ArrivingDynamics(w.dynamics))
  }

  function ArrivingJointWaypoint(w: PositionWaypoint<JointState>): PositionWaypoint<JointState> {
    w.(target := ArrivingJointState(w.target), dynamics := ArrivingDynamics(w.dynamics))
  }

  function ArrivingVelocityWaypoint<T>(w: VelocityWaypoint<T>): VelocityWaypoint<T> {
    w.(dynamics := ArrivingDynamics(w.dynamics))
  }

  function ArrivingCartesianVelocityWaypoint(w: VelocityWaypoint<VelocityTarget>): VelocityWaypoint<VelocityTarget> {
    ArrivingVelocityWaypoint(w)
  }

  function ArrivingJointVelocityWaypoint(w: VelocityWaypoint<Vector7>): VelocityWaypoint<Vector7> {
    ArrivingVelocityWaypoint(w)
  }

  function Arriving(m: Motion): Motion {
    var d := ArrivingDynamics(m.dynamics);
    match m
    case CartesianMotion(target, reference, _, finished, frame) =>
      CartesianMotion(target, reference, d, finished, frame)
    case CartesianWaypointMotion(waypoints, frame, _, finished) =>
      CartesianWaypointMotion(Map(waypoints, ArrivingCartesianWaypoint), frame, d, finished)
    case CartesianStopMotion(_) => CartesianStopMotion(d)
    case JointMotion(target, reference, _, finished) => JointMotion(ArrivingJointState(target), reference, d, finished)
    case JointWaypointMotion(waypoints, _, finished) =>
      JointWaypointMotion(Map(waypoints, ArrivingJointWaypoint), d, finished)
    case JointStopMotion(_) => JointStopMotion(d)
    case CartesianVelocityMotion(target, duration, _, frame) => CartesianVelocityMotion(target, duration, d, frame)
    case CartesianVelocityWaypointMotion(waypoints, frame, _) =>
      CartesianVelocityWaypointMotion(Map(waypoints, ArrivingCartesianVelocityWaypoint), frame, d)
    case CartesianVelocityStopMotion(_) => CartesianVelocityStopMotion(d)
    case JointVelocityMotion(target, duration, _) => JointVelocityMotion(target, duration, d)
    case JointVelocityWaypointMotion(waypoints, _) =>
      JointVelocityWaypointMotion(Map(waypoints, ArrivingJointVelocityWaypoint), d)
    case JointVelocityStopMotion(_) => JointVelocityStopMotion(d)
  }

  // --- Pieces ----------------------------------------------------------------------------------------------

  lemma RowRoundTrip(r0: real, r1: real, r2: real, r3: real)
    ensures BuildRow(EncodeRow(r0, r1, r2, r3)) == Success([r0, r1, r2, r3])
  {
    RealsRoundTrip([r0, r1, r2, r3]);
  }

  lemma MatrixRoundTrip(m: Matrix4)
    ensures BuildMatrix(EncodeMatrix(m)) == Success(m)
  {
    hide EncodeRow, AsReals;
    RowRoundTrip(m.a00, m.a01, m.a02, m.a03);
    RowRoundTrip(m.a10, m.a11, m.a12, m.a13);
    RowRoundTrip(m.a20, m.a21, m.a22, m.a23);
    RowRoundTrip(m.a30, m.a31, m.a32, m.a33);
    BuildFour(
      EncodeRow(m.a00, m.a01, m.a02, m.a03), EncodeRow(m.a10, m.a11, m.a12, m.a13),
      EncodeRow(m.a20, m.a21, m.a22, m.a23), EncodeRow(m.a30, m.a31, m.a32, m.a33), BuildRow);
  }

  lemma AffineRoundTrip(m: Matrix4)
    ensures BuildAffine(EncodeAffine(m)) == Success(m)
  {
    MatrixRoundTrip(m);
  }

  lemma OptionalAffineRoundTrip(m: Option<Matrix4>)
    ensures BuildOptionalAffine(EncodeOptionalAffine(m)) == Success(m)
  {
    if m.Some? {
      AffineRoundTrip(m.value);
    }
  }

  lemma TwistRoundTrip(t: Twist)
    ensures BuildTwist(EncodeTwist(t)) == Success(t)
  {
    RealsRoundTrip([t.linear.a, t.linear.b, t.linear.c]);
    RealsRoundTrip([t.angular.a, t.angular.b, t.angular.c]);
    hide AsReals, EncodeReals;
  }

  lemma VelocityTargetRoundTrip(v: VelocityTarget)
    ensures BuildVelocityTarget(EncodeVelocityTarget(v)) == Success(v)
  {
    TwistRoundTrip(if v.RobotVelocity? then v.endEffectorTwist else v.twist);
    hide BuildTwist, EncodeTwist;
  }

  lemma CartesianStateRoundTrip(s: CartesianState)
    ensures BuildCartesianState(EncodeCartesianState(s)) == Success(s)
  {
    AffineRoundTrip(s.endEffectorPose);
    hide BuildAffine, EncodeAffine;
  }

  lemma Vector7RoundTrip(v: Vector7)
    ensures BuildVector7(EncodeVector7(v)) == Success(v)
  {
    RealsRoundTrip(v);
  }

  lemma JointStateRoundTrip(s: JointState)
    ensures BuildJointState(EncodeJointState(s)) == Success(ArrivingJointState(s))
  {
    Vector7RoundTrip(s.position);
    hide AsReals, EncodeReals;
  }

  lemma DynamicsRoundTrip(d: Dynamics)
    ensures BuildDynamics(EncodeDynamics(d)) == Success(ArrivingDynamics(d))
  {
  }

  lemma PositionWaypointRoundTrip<T>(
      w: PositionWaypoint<T>, encode: T -> Wire, build: Wire -> Result<T>, arriving: T)
    requires build(encode(w.target)) == Success(arriving)
    ensures
      BuildPositionWaypoint(EncodePositionWaypoint(w, encode), build)
      == Success(w.(target := arriving, dynamics := ArrivingDynamics(w.dynamics)))
  {
    DynamicsRoundTrip(w.dynamics);
    hide BuildDynamics, EncodeDynamics, ArrivingDynamics;
  }

  lemma VelocityWaypointRoundTrip<T>(w: VelocityWaypoint<T>, encode: T -> Wire, build: Wire -> Result<T>)
    requires build(encode(w.target)) == Success(w.target)
    ensures BuildVelocityWaypoint(EncodeVelocityWaypoint(w, encode), build) == Success(ArrivingVelocityWaypoint(w))
  {
    DynamicsRoundTrip(w.dynamics);
    hide BuildDynamics, EncodeDynamics, ArrivingDynamics;
  }

  // --- Lists of waypoints ------------------------------------------------------------------------------------

  lemma CartesianWaypointsRoundTrip(ws: seq<PositionWaypoint<CartesianState>>)
    ensures BuildAll(Map(ws, EncodeCartesianWaypoint), BuildCartesianWaypoint)
        == Success(Map(ws, ArrivingCartesianWaypoint))
  {
    forall w ensures BuildCartesianWaypoint(EncodeCartesianWaypoint(w)) == Success(ArrivingCartesianWaypoint(w)) {
      CartesianStateRoundTrip(w.target);
      PositionWaypointRoundTrip(w, EncodeCartesianState, BuildCartesianState, w.target);
    }
    ListRoundTrip(ws, EncodeCartesianWaypoint, BuildCartesianWaypoint, ArrivingCartesianWaypoint);
  }

  lemma JointWaypointsRoundTrip(ws: seq<PositionWaypoint<JointState>>)
    ensures BuildAll(Map(ws, EncodeJointWaypoint), BuildJointWaypoint) == Success(Map(ws, ArrivingJointWaypoint))
  {
    forall w ensures BuildJointWaypoint(EncodeJointWaypoint(w)) == Success(ArrivingJointWaypoint(w)) {
      JointStateRoundTrip(w.target);
      PositionWaypointRoundTrip(w, EncodeJointState, BuildJointState, ArrivingJointState(w.target));
    }
    ListRoundTrip(ws, EncodeJointWaypoint, BuildJointWaypoint, ArrivingJointWaypoint);
  }

  lemma CartesianVelocityWaypointsRoundTrip(ws: seq<VelocityWaypoint<VelocityTarget>>)
    ensures
      BuildAll(Map(ws, EncodeCartesianVelocityWaypoint), BuildCartesianVelocityWaypoint)
      == Success(Map(ws, ArrivingCartesianVelocityWaypoint))
  {
    forall w ensures BuildCartesianVelocityWaypoint(EncodeCartesianVelocityWaypoint(w))
        == Success(ArrivingCartesianVelocityWaypoint(w)) {
      VelocityTargetRoundTrip(w.target);
      VelocityWaypointRoundTrip(w, EncodeVelocityTarget, BuildVelocityTarget);
    }
    ListRoundTrip(ws, EncodeCartesianVelocityWaypoint, BuildCartesianVelocityWaypoint,
        ArrivingCartesianVelocityWaypoint);
  }

  lemma JointVelocityWaypointsRoundTrip(ws: seq<VelocityWaypoint<Vector7>>)
    ensures
      BuildAll(Map(ws, EncodeJointVelocityWaypoint), BuildJointVelocityWaypoint)
          == Success(Map(ws, ArrivingJointVelocityWaypoint))
  {
    forall w ensures BuildJointVelocityWaypoint(EncodeJointVelocityWaypoint(w))
        == Success(ArrivingJointVelocityWaypoint(w)) {
      Vector7RoundTrip(w.target);
      VelocityWaypointRoundTrip(w, EncodeVector7, BuildVector7);
    }
    ListRoundTrip(ws, EncodeJointVelocityWaypoint, BuildJointVelocityWaypoint, ArrivingJointVelocityWaypoint);
  }

  // --- Whole motions -----------------------------------------------------------------------------------------

  lemma CartesianMotionRoundTrip(m: Motion)
    requires m.CartesianMotion? || m.CartesianWaypointMotion?
    ensures BuildMotion(EncodeMotion(m)) == Success(Arriving(m))
  {
    hide BuildDynamics, EncodeDynamics, ArrivingDynamics, BuildOptionalAffine, EncodeOptionalAffine;
    hide BuildCartesianState, EncodeCartesianState, BuildAll, Map;
    DynamicsRoundTrip(m.dynamics);
    OptionalAffineRoundTrip(m.eeFrame);
    match m
    case CartesianMotion(target, _, _, _, _) => CartesianStateRoundTrip(target);
    case CartesianWaypointMotion(waypoints, _, _, _) => CartesianWaypointsRoundTrip(waypoints);
  }

  lemma JointMotionRoundTrip(m: Motion)
    requires m.JointMotion? || m.JointWaypointMotion?
    ensures BuildMotion(EncodeMotion(m)) == Success(Arriving(m))
  {
    hide BuildDynamics, EncodeDynamics, ArrivingDynamics, BuildOptionalAffine, EncodeOptionalAffine;
    hide BuildJointState, EncodeJointState, BuildAll, Map;
    DynamicsRoundTrip(m.dynamics);
    match m
    case JointMotion(target, _, _, _) => JointStateRoundTrip(target);
    case JointWaypointMotion(waypoints, _, _) => JointWaypointsRoundTrip(waypoints);
  }

  lemma CartesianVelocityMotionRoundTrip(m: Motion)
    requires m.CartesianVelocityMotion? || m.CartesianVelocityWaypointMotion?
    ensures BuildMotion(EncodeMotion(m)) == Success(Arriving(m))
  {
    hide BuildDynamics, EncodeDynamics, ArrivingDynamics, BuildOptionalAffine, EncodeOptionalAffine;
    hide BuildVelocityTarget, EncodeVelocityTarget, BuildAll, Map;
    DynamicsRoundTrip(m.dynamics);
    OptionalAffineRoundTrip(m.eeFrame);
    match m
    case CartesianVelocityMotion(target, _, _, _) => VelocityTargetRoundTrip(target);
    case CartesianVelocityWaypointMotion(waypoints, _, _) => CartesianVelocityWaypointsRoundTrip(waypoints);
  }

  lemma JointVelocityMotionRoundTrip(m: Motion)
    requires m.JointVelocityMotion? || m.JointVelocityWaypointMotion?
    ensures BuildMotion(EncodeMotion(m)) == Success(Arriving(m))
  {
    hide BuildDynamics, EncodeDynamics, ArrivingDynamics, BuildOptionalAffine, EncodeOptionalAffine;
    hide BuildVector7, EncodeVector7, BuildAll, Map;
    DynamicsRoundTrip(m.dynamics);
    match m
    case JointVelocityMotion(target, _, _) => Vector7RoundTrip(target);
    case JointVelocityWaypointMotion(waypoints, _) => JointVelocityWaypointsRoundTrip(waypoints);
  }

  lemma StopMotionRoundTrip(m: Motion)
    requires m.CartesianStopMotion? || m.JointStopMotion? || m.CartesianVelocityStopMotion?
        || m.JointVelocityStopMotion?
    ensures BuildMotion(EncodeMotion(m)) == Success(Arriving(m))
  {
    DynamicsRoundTrip(m.dynamics);
    hide BuildDynamics, EncodeDynamics, ArrivingDynamics;
  }

  /** Main result: every motion the client can encode is built by the server, and this is what arrives. */
  lemma MotionArrives(m: Motion)
    ensures BuildMotion(EncodeMotion(m)) == Success(Arriving(m))
  {
    hide BuildMotion, EncodeMotion, Arriving;
    if m.CartesianStopMotion? || m.JointStopMotion? || m.CartesianVelocityStopMotion? || m.JointVelocityStopMotion? {
      StopMotionRoundTrip(m);
    } else if m.CartesianMotion? || m.CartesianWaypointMotion? {
      CartesianMotionRoundTrip(m);
    } else if m.JointMotion? || m.JointWaypointMotion? {
      JointMotionRoundTrip(m);
    } else if m.CartesianVelocityMotion? || m.CartesianVelocityWaypointMotion? {
      CartesianVelocityMotionRoundTrip(m);
    } else {
      JointVelocityMotionRoundTrip(m);
    }
  }

  // --- What the wire can tell apart ----------------------------------------------------------------------------

  lemma MapTwice<S(!new), T>(items: seq<S>, keep: S -> S, encode: S -> T)
    requires forall x :: encode(keep(x)) == encode(x)
    ensures Map(Map(items, keep), encode) == Map(items, encode)
  {
  }

  lemma ArrivingDynamicsEncodesAlike(d: Dynamics)
    ensures EncodeDynamics(ArrivingDynamics(d)) == EncodeDynamics(d)
  {
  }

  lemma WaypointsEncodeAlike(m: Motion)
    ensures
      match m
      case CartesianWaypointMotion(ws, _, _, _) =>
        Map(Map(ws, ArrivingCartesianWaypoint), EncodeCartesianWaypoint) == Map(ws, EncodeCartesianWaypoint)
      case JointWaypointMotion(ws, _, _) =>
        Map(Map(ws, ArrivingJointWaypoint), EncodeJointWaypoint) == Map(ws, EncodeJointWaypoint)
      case CartesianVelocityWaypointMotion(ws, _, _) =>
        Map(Map(ws, ArrivingCartesianVelocityWaypoint), EncodeCartesianVelocityWaypoint)
            == Map(ws, EncodeCartesianVelocityWaypoint)
      case JointVelocityWaypointMotion(ws, _) =>
        Map(Map(ws, ArrivingJointVelocityWaypoint), EncodeJointVelocityWaypoint) == Map(ws, EncodeJointVelocityWaypoint)
      case _ => true
  {
    forall d ensures EncodeDynamics(ArrivingDynamics(d)) == EncodeDynamics(d) {
      ArrivingDynamicsEncodesAlike(d);
    }
    hide EncodeDynamics, ArrivingDynamics, Map;
    match m
    case CartesianWaypointMotion(ws, _, _, _) => MapTwice(ws, ArrivingCartesianWaypoint, EncodeCartesianWaypoint);
    case JointWaypointMotion(ws, _, _) => MapTwice(ws, ArrivingJointWaypoint, EncodeJointWaypoint);
    case CartesianVelocityWaypointMotion(ws, _, _) =>
      MapTwice(ws, ArrivingCartesianVelocityWaypoint, EncodeCartesianVelocityWaypoint);
    case JointVelocityWaypointMotion(ws, _) => MapTwice(ws, ArrivingJointVelocityWaypoint, EncodeJointVelocityWaypoint);
    case _ =>
  }

  lemma ArrivingEncodesAlike(m: Motion)
    ensures EncodeMotion(Arriving(m)) == EncodeMotion(m)
  {
    ArrivingDynamicsEncodesAlike(m.dynamics);
    WaypointsEncodeAlike(m);
    hide EncodeDynamics, ArrivingDynamics, Map, EncodeOptionalAffine, EncodeVelocityTarget, EncodeCartesianState;
    match m {
      case _ =>
    }
  }

  /** Main result: encoding what the server built gives the payload it was built from. */
  lemma EncodeBuildEncode(m: Motion)
    ensures
      var built := BuildMotion(EncodeMotion(m));
      built.Success? && EncodeMotion(built.value) == EncodeMotion(m)
  {
    hide *;
    MotionArrives(m);
    ArrivingEncodesAlike(m);
  }

  /** Main result: two motions travel as the same payload exactly when they arrive as the same motion. */
  lemma SamePayloadIff(a: Motion, b: Motion)
    ensures EncodeMotion(a) == EncodeMotion(b) <==> Arriving(a) == Arriving(b)
  {
    hide *;
    MotionArrives(a);
    MotionArrives(b);
    ArrivingEncodesAlike(a);
    ArrivingEncodesAlike(b);
  }

  predicate Whole(d: Dynamics) {
    d.Factors?
  }

  /** No plain factor, and no joint target with a velocity. */
  predicate TravelsWhole(m: Motion) {
    && Whole(m.dynamics)
    && match m
       case JointMotion(target, _, _, _) => target.velocity == REST
       case CartesianWaypointMotion(ws, _, _, _) => forall i :: 0 <= i < |ws| ==> Whole(ws[i].dynamics)
       case JointWaypointMotion(ws, _, _) =>
         forall i :: 0 <= i < |ws| ==> Whole(ws[i].dynamics) && ws[i].target.velocity == REST
       case CartesianVelocityWaypointMotion(ws, _, _) => forall i :: 0 <= i < |ws| ==> Whole(ws[i].dynamics)
       case JointVelocityWaypointMotion(ws, _) => forall i :: 0 <= i < |ws| ==> Whole(ws[i].dynamics)
       case _ => true
  }

  lemma MapKeepsIff<T(!new)>(items: seq<T>, keep: T -> T)
    ensures Map(items, keep) == items <==> forall i :: 0 <= i < |items| ==> keep(items[i]) == items[i]
  {
    if Map(items, keep) == items {
      assert forall i :: 0 <= i < |items| ==> Map(items, keep)[i] == keep(items[i]);
    }
  }

  lemma WaypointsKeptIff(m: Motion)
    requires m.CartesianWaypointMotion? || m.JointWaypointMotion? || m.CartesianVelocityWaypointMotion?
        || m.JointVelocityWaypointMotion?
    requires Whole(m.dynamics)
    ensures Arriving(m) == m <==> TravelsWhole(m)
  {
    hide Map;
    match m
    case CartesianWaypointMotion(ws, _, _, _) => MapKeepsIff(ws, ArrivingCartesianWaypoint);
    case JointWaypointMotion(ws, _, _) => MapKeepsIff(ws, ArrivingJointWaypoint);
    case CartesianVelocityWaypointMotion(ws, _, _) => MapKeepsIff(ws, ArrivingCartesianVelocityWaypoint);
    case JointVelocityWaypointMotion(ws, _) => MapKeepsIff(ws, ArrivingJointVelocityWaypoint);
  }

  /**
   Main result: a motion arrives unchanged exactly when it has no plain factor and no joint target with a
   velocity. Only the second loses anything: the arm is sent to the same position, to arrive there at rest.
   */
  lemma ArrivesUnchangedIff(m: Motion)
    ensures BuildMotion(EncodeMotion(m)) == Success(m) <==> TravelsWhole(m)
  {
    MotionArrives(m);
    hide BuildMotion, EncodeMotion;
    if && Whole(m.dynamics)
       && (|| m.CartesianWaypointMotion? || m.JointWaypointMotion?
           || m.CartesianVelocityWaypointMotion? || m.JointVelocityWaypointMotion?) {
      WaypointsKeptIff(m);
    }
  }

  /** Main result: waypoints arrive in the same number and order, each with its target, reference and timing. */
  lemma WaypointsArriveInOrder(m: Motion)
    ensures
      var built := BuildMotion(EncodeMotion(m));
      && built.Success?
      && match m
         case CartesianWaypointMotion(ws, _, _, _) =>
           && built.value.CartesianWaypointMotion? && |built.value.waypoints| == |ws|
           && (forall i :: 0 <= i < |ws| ==>
                 built.value.waypoints[i] == ws[i].(dynamics := ArrivingDynamics(ws[i].dynamics)))
         case JointWaypointMotion(ws, _, _) =>
           && built.value.JointWaypointMotion? && |built.value.jointWaypoints| == |ws|
           && (forall i :: 0 <= i < |ws| ==>
                 built.value.jointWaypoints[i]
                 == ws[i].(target := JointState(ws[i].target.position, REST),
                     dynamics := ArrivingDynamics(ws[i].dynamics)))
         case CartesianVelocityWaypointMotion(ws, _, _) =>
           && built.value.CartesianVelocityWaypointMotion? && |built.value.velocityWaypoints| == |ws|
           && (forall i :: 0 <= i < |ws| ==>
                 built.value.velocityWaypoints[i] == ws[i].(dynamics := ArrivingDynamics(ws[i].dynamics)))
         case JointVelocityWaypointMotion(ws, _) =>
           && built.value.JointVelocityWaypointMotion? && |built.value.jointVelocityWaypoints| == |ws|
           && (forall i :: 0 <= i < |ws| ==>
                 built.value.jointVelocityWaypoints[i] == ws[i].(dynamics := ArrivingDynamics(ws[i].dynamics)))
         case _ => true
  {
    MotionArrives(m);
    hide BuildMotion, EncodeMotion, ArrivingDynamics;
  }

  /** The pose a target stands for, in whichever of the three forms. */
  function PoseOf(target: CartesianTarget): Matrix4 {
    match target
    case Affine(matrix) => matrix
    case RobotPose(pose) => pose
    case State(state) => state.endEffectorPose
  }

  /**
   Main result: two Cartesian motions differing in their targets have one payload exactly when the targets stand for
   one pose.
   */
  lemma SameTargetSamePayload(
      a: CartesianTarget, b: CartesianTarget, reference: Reference, dynamics: Dynamics, finished: bool,
      frame: Option<Matrix4>)
    ensures
      EncodeMotion(MakeCartesianMotion(a, reference, dynamics, finished, frame))
      == EncodeMotion(MakeCartesianMotion(b, reference, dynamics, finished, frame))
      <==> PoseOf(a) == PoseOf(b)
  {
    SamePayloadIff(MakeCartesianMotion(a, reference, dynamics, finished, frame),
        MakeCartesianMotion(b, reference, dynamics, finished, frame));
    hide EncodeMotion;
  }

  /** The waypoints stand for the same poses with the same references, timings and arriving dynamics. */
  predicate SameWaypoint(v: PositionWaypoint<CartesianTarget>, w: PositionWaypoint<CartesianTarget>) {
    && PoseOf(v.target) == PoseOf(w.target) && v.reference == w.reference && v.timing == w.timing
    && ArrivingDynamics(v.dynamics) == ArrivingDynamics(w.dynamics)
  }

  function MadeFrom(ws: seq<PositionWaypoint<CartesianTarget>>, frame: Option<Matrix4>, dynamics: Dynamics,
      finished: bool): Motion {
    CartesianWaypointMotion(Map(ws, MakeCartesianWaypoint), frame, dynamics, finished)
  }

  /**
   Main result: over waypoint lists of any length, targets given in any mixture of the three forms, two motions have
   one payload exactly when the lists are equally long and agree waypoint by waypoint in what they stand for.
   */
  lemma SameWaypointsSamePayload(
      vs: seq<PositionWaypoint<CartesianTarget>>, ws: seq<PositionWaypoint<CartesianTarget>>,
      frame: Option<Matrix4>, dynamics: Dynamics, finished: bool)
    ensures
      EncodeMotion(MadeFrom(vs, frame, dynamics, finished)) == EncodeMotion(MadeFrom(ws, frame, dynamics, finished))
      <==> |vs| == |ws| && forall i :: 0 <= i < |vs| ==> SameWaypoint(vs[i], ws[i])
  {
    SamePayloadIff(MadeFrom(vs, frame, dynamics, finished), MadeFrom(ws, frame, dynamics, finished));
    hide EncodeMotion;
    var left := Map(Map(vs, MakeCartesianWaypoint), ArrivingCartesianWaypoint);
    var right := Map(Map(ws, MakeCartesianWaypoint), ArrivingCartesianWaypoint);
    assert left == right <==> |vs| == |ws| && forall i :: 0 <= i < |vs| ==> SameWaypoint(vs[i], ws[i]) by {
      hide Map, ArrivingDynamics;
      if |vs| == |ws| {
        forall i | 0 <= i < |vs| ensures left[i] == right[i] <==> SameWaypoint(vs[i], ws[i]) {
        }
      }
    }
  }
}
