/** The position, velocity and stop motions a client can ask for, and their constructors (zero_franky/types.py). */
module Motions {
  import opened Wrappers
  import opened Rotation
  import opened RigidTransform

  // --- Data ----------------------------------------------------------------------------------------------

  datatype Reference = Relative | Absolute

  /** A plain number stands for the same factor three times. */
  datatype Dynamics = Plain(factor: real) | Factors(velocity: real, acceleration: real, jerk: real)

  datatype Twist = Twist(linear: Vector3, angular: Vector3)

  /** A Cartesian target as a caller may pass it. */
  datatype CartesianTarget = Affine(matrix: Matrix4) | RobotPose(pose: Matrix4) | State(state: CartesianState)

  /** A Cartesian target as motions keep it. */
  datatype CartesianState = CartesianState(endEffectorPose: Matrix4)

  datatype JointState = JointState(position: Vector7, velocity: Vector7)

  datatype VelocityTarget =
    | RobotVelocity(endEffectorTwist: Twist, elbowVelocity: Option<real>)
    | BareTwist(twist: Twist)

  /** Durations are in milliseconds. */
  datatype Timing = Timing(minimum: Option<int>, hold: int, maximum: Option<int>)

  datatype PositionWaypoint<+T> = PositionWaypoint(target: T, reference: Reference, dynamics: Dynamics, timing: Timing)

  datatype VelocityWaypoint<+T> = VelocityWaypoint(target: T, dynamics: Dynamics, timing: Timing)

  datatype Motion =
    | CartesianMotion(
        target: CartesianState, reference: Reference, dynamics: Dynamics, returnWhenFinished: bool,
        eeFrame: Option<Matrix4>)
    | CartesianWaypointMotion(
        waypoints: seq<PositionWaypoint<CartesianState>>, eeFrame: Option<Matrix4>, dynamics: Dynamics,
        returnWhenFinished: bool)
    | CartesianStopMotion(dynamics: Dynamics)
    | JointMotion(jointTarget: JointState, reference: Reference, dynamics: Dynamics, returnWhenFinished: bool)
    | JointWaypointMotion(jointWaypoints: seq<PositionWaypoint<JointState>>, dynamics: Dynamics,
        returnWhenFinished: bool)
    | JointStopMotion(dynamics: Dynamics)
    | CartesianVelocityMotion(velocityTarget: VelocityTarget, duration: int, dynamics: Dynamics,
        eeFrame: Option<Matrix4>)
    | CartesianVelocityWaypointMotion(
        velocityWaypoints: seq<VelocityWaypoint<VelocityTarget>>, eeFrame: Option<Matrix4>, dynamics: Dynamics)
    | CartesianVelocityStopMotion(dynamics: Dynamics)
    | JointVelocityMotion(jointVelocity: Vector7, duration: int, dynamics: Dynamics)
    | JointVelocityWaypointMotion(jointVelocityWaypoints: seq<VelocityWaypoint<Vector7>>, dynamics: Dynamics)
    | JointVelocityStopMotion(dynamics: Dynamics)

  // --- Constructors ------------------------------------------------------------------------------------------

  const DEFAULT_DURATION: int := 1000

  const REST: Vector7 := [0.0, 0.0, 0.0, 0.0, 0.0, 0.0, 0.0]

  function AsCartesianState(target: CartesianTarget): CartesianState {
    match target
    case Affine(matrix) => CartesianState(matrix)
    case RobotPose(pose) => CartesianState(pose)
    case State(state) => state
  }

  function AsVector7(v: seq<real>): Result<Vector7> {
    if |v| == 7 then Success(v) else Failure(ValueError)
  }

  function MakeJointState(position: seq<real>, velocity: Option<seq<real>>): Result<JointState> {
    var q :- AsVector7(position);
    var dq :- if velocity.Some? then AsVector7(velocity.value) else Success(REST);
    Success(JointState(q, dq))
  }

  function MakeTiming(minimum: Option<int>, hold: Option<int>, maximum: Option<int>): Timing {
    Timing(minimum, if hold.Some? then hold.value else 0, maximum)
  }

  function MakeCartesianMotion(
      target: CartesianTarget, reference: Reference, dynamics: Dynamics, returnWhenFinished: bool,
      eeFrame: Option<Matrix4>): Motion
  {
    CartesianMotion(AsCartesianState(target), reference, dynamics, returnWhenFinished, eeFrame)
  }

  function MakeCartesianWaypoint(w: PositionWaypoint<CartesianTarget>): PositionWaypoint<CartesianState> {
    PositionWaypoint(AsCartesianState(w.target), w.reference, w.dynamics, w.timing)
  }

  function DurationOr1000(duration: Option<int>): int {
    if duration.Some? then duration.value else DEFAULT_DURATION
  }
}
