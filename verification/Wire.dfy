/** What travels between client and server: nested lists and dictionaries of plain values. */
module Wire {
  import opened Wrappers

  // --- Data ----------------------------------------------------------------------------------------------

  /** The dictionary keys in use, and any other. */
  datatype Key =
    | TypeKey | MatrixKey | ValueKey | PoseKey | EndEffectorPoseKey | EndEffectorTwistKey | ElbowVelocityKey
    | LinearKey | AngularKey | PositionKey | VelocityKey | AccelerationKey | JerkKey | TargetKey | ReferenceTypeKey
    | DynamicsKey | MinimumTimeKey | HoldTargetDurationKey | MaxTotalDurationKey | DurationKey | ReturnWhenFinishedKey
    | EeFrameKey | WaypointsKey
    | OtherKey(text: string)

  /** The strings in use, and any other. */
  datatype Name =
    | AffineName | RobotPoseName | CartesianStateName | RobotVelocityName | TwistName | JointStateName
    | RelativeName | AbsoluteName
    | CartesianMotionName | CartesianWaypointMotionName | CartesianStopMotionName
    | JointMotionName | JointWaypointMotionName | JointStopMotionName
    | CartesianVelocityMotionName | CartesianVelocityWaypointMotionName | CartesianVelocityStopMotionName
    | JointVelocityMotionName | JointVelocityWaypointMotionName | JointVelocityStopMotionName
    | OtherName(text: string)

  datatype Wire =
    | Null
    | Bool(flag: bool)
    | Int(whole: int)
    | Num(number: real)
    | Text(name: Name)
    | List(items: seq<Wire>)
    | Dict(fields: map<Key, Wire>)

  // --- Reading ---------------------------------------------------------------------------------------------

  /** `w[key]` */
  function Field(w: Wire, key: Key): Result<Wire> {
    if !w.Dict? then Failure(TypeError)
    else if key in w.fields then Success(w.fields[key])
    else Failure(KeyError)
  }

  /** `w.get(key)` */
  function OptionalField(w: Wire, key: Key): Result<Wire> {
    if !w.Dict? then Failure(AttributeError)
    else Success(if key in w.fields then w.fields[key] else Null)
  }

  function AsReal(w: Wire): Result<real> {
    match w
    case Num(number) => Success(number)
    case Int(whole) => Success(whole as real)
    case Bool(flag) => Success(if flag then 1.0 else 0.0)
    case _ => Failure(TypeError)
  }

  function AsBool(w: Wire): Result<bool> {
    if w.Bool? then Success(w.flag) else Failure(TypeError)
  }

  function AsItems(w: Wire): Result<seq<Wire>> {
    if w.List? then Success(w.items) else Failure(TypeError)
  }

  /** A list comprehension over the items, which stops at the first that cannot be built. */
  function BuildAll<T>(items: seq<Wire>, build: Wire -> Result<T>): Result<seq<T>> {
    if items == [] then Success([])
    else
      var first :- build(items[0]);
      var rest :- BuildAll(items[1..], build);
      Success([first] + rest)
  }

  function Map<S, T>(items: seq<S>, f: S -> T): (mapped: seq<T>)
    ensures |mapped| == |items| && forall i :: 0 <= i < |items| ==> mapped[i] == f(items[i])
  {
    if items == [] then [] else [f(items[0])] + Map(items[1..], f)
  }

  /** Floats of a list of the given length. */
  function AsReals(w: Wire, length: nat): Result<seq<real>> {
    var items :- AsItems(w);
    var reals :- BuildAll(items, AsReal);
    if |reals| == length then Success(reals) else Failure(ValueError)
  }

  function EncodeReal(x: real): Wire {
    Num(x)
  }

  function EncodeReals(v: seq<real>): Wire {
    List(Map(v, EncodeReal))
  }

  // --- Round trips -------------------------------------------------------------------------------------------

  /** If every item survives the trip as `keep` of it, so does the list, in order. */
  lemma {:induction false} ListRoundTrip<T(!new)>(items: seq<T>, encode: T -> Wire, build: Wire -> Result<T>,
      keep: T -> T)
    requires forall x :: build(encode(x)) == Success(keep(x))
    ensures BuildAll(Map(items, encode), build) == Success(Map(items, keep))
  {
    if items != [] {
      ListRoundTrip(items[1..], encode, build, keep);
    }
  }

  lemma RealsRoundTrip(v: seq<real>)
    ensures AsReals(EncodeReals(v), |v|) == Success(v)
  {
    ListRoundTrip(v, EncodeReal, AsReal, (x: real) => x);
    assert Map(v, (x: real) => x) == v;
  }

  lemma BuildCons<T>(items: seq<Wire>, build: Wire -> Result<T>, values: seq<T>)
    requires items != [] && build(items[0]).Success? && BuildAll(items[1..], build) == Success(values)
    ensures BuildAll(items, build) == Success([build(items[0]).value] + values)
  {
  }

  lemma BuildFour<T>(w0: Wire, w1: Wire, w2: Wire, w3: Wire, build: Wire -> Result<T>)
    requires build(w0).Success? && build(w1).Success? && build(w2).Success? && build(w3).Success?
    ensures
      BuildAll([w0, w1, w2, w3], build) == Success([build(w0).value, build(w1).value, build(w2).value, build(w3).value])
  {
    var v1, v2, v3 := build(w1).value, build(w2).value, build(w3).value;
    assert [w3][1..] == [] && [w2, w3][1..] == [w3] && [w1, w2, w3][1..] == [w2, w3]
        && [w0, w1, w2, w3][1..] == [w1, w2, w3];
    BuildCons([w3], build, []);
    assert [v3] + [] == [v3] && [v2] + [v3] == [v2, v3] && [v1] + [v2, v3] == [v1, v2, v3];
    BuildCons([w2, w3], build, [v3]);
    BuildCons([w1, w2, w3], build, [v2, v3]);
    BuildCons([w0, w1, w2, w3], build, [v1, v2, v3]);
    assert [build(w0).value] + [v1, v2, v3] == [build(w0).value, v1, v2, v3];
  }
}
