/**
 Retuning a running tracker's impedance gains: what a caller names, how it is spelled on the wire, and how
 the session merges it into the motion's current gains (zero_franky/zmq_client.py, zero_franky/protocol.py,
 zero_franky/tracker_session.py).
 */
module Gains {
  import opened Wrappers

  // --- Data ------------------------------------------------------------------------------------------

  predicate Is6x6<T>(m: seq<seq<T>>) {
    |m| == 6 && forall i :: 0 <= i < 6 ==> |m[i]| == 6
  }

  type Matrix6 = m: seq<seq<real>> | Is6x6(m) witness seq(6, _ => seq(6, _ => 0.0))

  /** A motion's Cartesian gains; no damping means critical damping, tracked against the stiffness. */
  datatype CartesianGains = CartesianGains(stiffness: Matrix6, damping: Option<Matrix6>)

  datatype JointGains = JointGains(stiffness: Vector7, damping: Option<Vector7>)

  /** What a caller passes as `damping`; a string is passed through to the wire. */
  datatype Damping<+V> = Unnamed | Critical | Spelled(text: string) | Pinned(value: V)

  datatype WireDamping<+V> = Null | Text(text: string) | Values(value: V)

  /** Python's integers and floats. */
  datatype Number = Whole(whole: int) | Float(number: real)

  /** Nested lists of numbers, of any shape. */
  type Rows = seq<seq<Number>>

  /**
   The damping of a gains object; `taken` is whether franky's own gains object accepts the `CRITICAL` object there.
   */
  datatype DampingAttribute =
    | NoDamping
    | DampingText(text: string)
    | DampingRows(rows: Rows)
    | CriticalObject(taken: bool)

  /** A gains object as its attributes stand; nothing has checked their shape yet. */
  datatype GainsObject = GainsObject(stiffness: Rows, damping: DampingAttribute)

  /** Whether a call comes from the client or from a policy's handle on its own tracker. */
  datatype Caller = Client | Handle

  /** The arguments of the Cartesian `set_gains`: a whole gains object, or keywords. */
  datatype CartesianRequest = CartesianRequest(
    caller: Caller, gains: Option<GainsObject>, translational: Option<real>, rotational: Option<real>,
    damping: Damping<Vector6>)

  /** The payload carries `stiffness` for a whole gains object and leaves it null for keywords. */
  datatype CartesianPayload =
    | WholeGains(stiffness: Rows, wholeDamping: DampingAttribute)
    | Blocks(translational: Option<real>, rotational: Option<real>, damping: WireDamping<Vector6>)

  // --- The wire ----------------------------------------------------------------------------------------

  const CRITICAL_DAMPING: string := "critical"

  function EncodeDamping<V>(damping: Damping<V>): WireDamping<V> {
    match damping
    case Unnamed => Null
    case Critical => Text(CRITICAL_DAMPING)
    case Spelled(text) => Text(text)
    case Pinned(value) => Values(value)
  }

  function DecodeDamping<V>(damping: WireDamping<V>): Result<Option<V>> {
    match damping
    case Null => Success(None)
    case Text(text) => if text == CRITICAL_DAMPING then Success(None) else Failure(ProtocolError)
    case Values(value) => Success(Some(value))
  }

  function AsFloat(n: Number): real {
    match n
    case Whole(whole) => whole as real
    case Float(number) => number
  }

  function Floats(rows: Rows): Rows {
    seq(|rows|, i requires 0 <= i < |rows| => seq(|rows[i]|,
        j requires 0 <= j < |rows[i]| => Float(AsFloat(rows[i][j]))))
  }

  predicate AllDigits(text: string) {
    forall i :: 0 <= i < |text| ==> '0' <= text[i] <= '9'
  }

  /** A string is read as a column of one-digit rows. */
  function Column(text: string): Rows
    requires AllDigits(text)
  {
    seq(|text|, i requires 0 <= i < |text| => [Whole(text[i] as int - '0' as int)])
  }

  /** The client's `encode_matrix` of a damping attribute. */
  function EncodeMatrix(damping: DampingAttribute): Result<DampingAttribute> {
    match damping
    case NoDamping => Success(NoDamping)
    case DampingRows(rows) => Success(DampingRows(Floats(rows)))
    case DampingText(text) =>
      if AllDigits(text) then Success(DampingRows(Floats(Column(text)))) else Failure(ValueError)
    case CriticalObject(_) => Failure(TypeError)
  }

  /** The client encodes a gains object, number by number. */
  function ClientWhole(gains: GainsObject): Result<CartesianPayload> {
    var damping :- EncodeMatrix(gains.damping);
    Success(WholeGains(Floats(gains.stiffness), damping))
  }

  /** The handle passes its attributes on as they are. */
  function HandleWhole(gains: GainsObject): CartesianPayload {
    WholeGains(gains.stiffness, gains.damping)
  }

  /** The payload of a request, nothing when the request names nothing. */
  function PayloadOf(request: CartesianRequest): Result<Option<CartesianPayload>> {
    var stiffnessGiven := request.translational.Some? || request.rotational.Some?;
    if request.gains.Some? then
      if stiffnessGiven || !request.damping.Unnamed? then Failure(ValueError)
      else if request.caller.Handle? then Success(Some(HandleWhole(request.gains.value)))
      else
        var payload :- ClientWhole(request.gains.value);
        Success(Some(payload))
    else if !stiffnessGiven && request.damping.Unnamed? then Success(None)
    else Success(Some(Blocks(request.translational, request.rotational, EncodeDamping(request.damping))))
  }

  // --- Merging into the current gains --------------------------------------------------------------------

  function Isotropic(k: real, i: nat, j: nat): real {
    if i == j then k else 0.0
  }

  function MergedEntry(m: Matrix6, translational: Option<real>, rotational: Option<real>, i: nat, j: nat): real
    requires i < 6 && j < 6
  {
    if i < 3 && j < 3 && translational.Some? then Isotropic(translational.value, i, j)
    else if i >= 3 && j >= 3 && rotational.Some? then Isotropic(rotational.value, i, j)
    else m[i][j]
  }

  function MergedStiffness(m: Matrix6, translational: Option<real>, rotational: Option<real>): Matrix6 {
    seq(6, i requires 0 <= i < 6 => seq(6, j requires 0 <= j < 6 => MergedEntry(m, translational, rotational, i, j)))
  }

  function Diagonal(v: Vector6): Matrix6 {
    seq(6, i requires 0 <= i < 6 => seq(6, j requires 0 <= j < 6 => Isotropic(v[i], i, j)))
  }

  predicate NamesNothing(payload: CartesianPayload) {
    payload.Blocks? && payload.translational.None? && payload.rotational.None? && payload.damping.Null?
  }

  function Reals(rows: Rows): seq<seq<real>> {
    seq(|rows|, i requires 0 <= i < |rows| => seq(|rows[i]|, j requires 0 <= j < |rows[i]| => AsFloat(rows[i][j])))
  }

  /** Assigning to a matrix of franky's gains, which takes nothing but 6x6 numbers. */
  function ReadMatrix(rows: Rows): Result<Matrix6> {
    if Is6x6(rows) then Success(Reals(rows)) else Failure(TypeError)
  }

  /** Decoding a damping, which lets any object but a string through, and assigning it. */
  function ReadDamping(damping: DampingAttribute): Result<Option<Matrix6>> {
    match damping
    case NoDamping => Success(None)
    case DampingText(text) => DecodeDamping(Text(text))
    case DampingRows(rows) =>
      var matrix :- ReadMatrix(rows);
      Success(Some(matrix))
    case CriticalObject(taken) => if taken then Success(None) else Failure(TypeError)
  }

  /** A whole gains object from its payload: first the stiffness is assigned, then the damping decoded and assigned. */
  function ReadGains(stiffness: Rows, damping: DampingAttribute): Result<CartesianGains> {
    var k :- ReadMatrix(stiffness);
    var d :- ReadDamping(damping);
    Success(CartesianGains(k, d))
  }

  /** The gains a payload makes of the current ones, nothing when it names nothing. */
  function Resolve(current: CartesianGains, payload: CartesianPayload): Result<Option<CartesianGains>> {
    if NamesNothing(payload) then Success(None)
    else
      match payload
      case WholeGains(stiffness, wire) =>
        var gains :- ReadGains(stiffness, wire);
        Success(Some(gains))
      case Blocks(translational, rotational, wire) =>
        var damping :- DecodeDamping(wire);
        Success(Some(CartesianGains(
          MergedStiffness(current.stiffness, translational, rotational),
          if damping.Some? then Some(Diagonal(damping.value)) else None)))
  }

  /** The gains after a payload, and what the call answers. */
  function SetCartesian(current: CartesianGains, payload: CartesianPayload): (CartesianGains, Result<bool>) {
    match Resolve(current, payload)
    case Failure(error) => (current, Failure(error))
    case Success(None) => (current, Success(true))
    case Success(Some(gains)) => (gains, Success(true))
  }

  /** A joint update names a stiffness, a damping or both; lists of a wrong length are refused by the gains object. */
  function SetJoint(current: JointGains, stiffness: Option<seq<real>>,
      damping: WireDamping<seq<real>>): (JointGains, Result<bool>) {
    if stiffness.None? && damping.Null? then (current, Success(true))
    else
      match DecodeDamping(damping)
      case Failure(error) => (current, Failure(error))
      case Success(pinned) =>
        var k: seq<real> := if stiffness.Some? then stiffness.value else current.stiffness;
        if |k| != 7 || (pinned.Some? && |pinned.value| != 7) then (current, Failure(ValueError))
        else (JointGains(k, if pinned.Some? then Some(pinned.value) else None), Success(true))
  }

  // --- The session as an object ----------------------------------------------------------------------------

  function FromArray(a: array2<real>): (m: Matrix6)
    requires a.Length0 == 6 && a.Length1 == 6
    reads a
    ensures forall i, j :: 0 <= i < 6 && 0 <= j < 6 ==> m[i][j] == a[i, j]
  {
    seq(6, i requires 0 <= i < 6 reads a => seq(6, j requires 0 <= j < 6 reads a => a[i, j]))
  }

  lemma SameEntries(a: Matrix6, b: Matrix6)
    requires forall i, j :: 0 <= i < 6 && 0 <= j < 6 ==> a[i][j] == b[i][j]
    ensures a == b
  {
    forall i | 0 <= i < 6 ensures a[i] == b[i] {
    }
  }

  /** Overwrites the 3x3 diagonal block starting at `from` with `k` times the identity. */
  method OverwriteBlock(a: array2<real>, from: nat, k: real)
    requires a.Length0 == 6 && a.Length1 == 6 && from + 3 <= 6
    modifies a
    ensures forall i, j :: 0 <= i < 6 && 0 <= j < 6 ==>
              a[i, j] == if from <= i < from + 3 && from <= j < from + 3 then Isotropic(k, i, j) else old(a[i, j])
  {
    forall i, j | from <= i < from + 3 && from <= j < from + 3 {
      a[i, j] := Isotropic(k, i, j);
    }
  }

  /** `motionGains` and `hybridGains` are the motion's own Cartesian gains and a joint motion's Cartesian shaping. */
  class TrackerSession {
    var motionGains: CartesianGains
    var hybridGains: CartesianGains
    var jointGains: JointGains

    constructor (motionGains: CartesianGains, hybridGains: CartesianGains, jointGains: JointGains)
      ensures this.motionGains == motionGains && this.hybridGains == hybridGains && this.jointGains == jointGains
    {
      this.motionGains := motionGains;
      this.hybridGains := hybridGains;
      this.jointGains := jointGains;
    }

    method ResolveCartesianGains(current: CartesianGains, payload: CartesianPayload)
        returns (result: Result<Option<CartesianGains>>)
      ensures result == Resolve(current, payload)
    {
      if NamesNothing(payload) {
        return Success(None);
      }
      if payload.WholeGains? {
        var whole := ReadGains(payload.stiffness, payload.wholeDamping);
        if whole.Failure? {
          return Failure(whole.error);
        }
        return Success(Some(whole.value));
      }
      var stiffness := new real[6, 6]((i, j) requires 0 <= i < 6 && 0 <= j < 6 => current.stiffness[i][j]);
      if payload.translational.Some? {
        OverwriteBlock(stiffness, 0, payload.translational.value);
      }
      if payload.rotational.Some? {
        OverwriteBlock(stiffness, 3, payload.rotational.value);
      }
      SameEntries(FromArray(stiffness), MergedStiffness(current.stiffness, payload.translational, payload.rotational));
      var damping := DecodeDamping(payload.damping);
      if damping.Failure? {
        return Failure(damping.error);
      }
      var pinned := if damping.value.Some? then Some(Diagonal(damping.value.value)) else None;
      return Success(Some(CartesianGains(FromArray(stiffness), pinned)));
    }

    method SetCartesianGains(payload: CartesianPayload) returns (result: Result<bool>)
      modifies this`motionGains
      ensures (motionGains, result) == SetCartesian(old(motionGains), payload)
    {
      var gains := ResolveCartesianGains(motionGains, payload);
      if gains.Failure? {
        return Failure(gains.error);
      }
      if gains.value.Some? {
        motionGains := gains.value.value;
      }
      return Success(true);
    }

    method SetHybridCartesianGains(payload: CartesianPayload) returns (result: Result<bool>)
      modifies this`hybridGains
      ensures (hybridGains, result) == SetCartesian(old(hybridGains), payload)
    {
      var gains := ResolveCartesianGains(hybridGains, payload);
      if gains.Failure? {
        return Failure(gains.error);
      }
      if gains.value.Some? {
        hybridGains := gains.value.value;
      }
      return Success(true);
    }

    method SetJointGains(stiffness: Option<seq<real>>, damping: WireDamping<seq<real>>) returns (result: Result<bool>)
      modifies this`jointGains
      ensures (jointGains, result) == SetJoint(old(jointGains), stiffness, damping)
    {
      if stiffness.None? && damping.Null? {
        return Success(true);
      }
      var k: seq<real> := jointGains.stiffness;
      if stiffness.Some? {
        k := stiffness.value;
      }
      var pinned := DecodeDamping(damping);
      if pinned.Failure? {
        return Failure(pinned.error);
      }
      if |k| != 7 || (pinned.value.Some? && |pinned.value.value| != 7) {
        return Failure(ValueError);
      }
      jointGains := JointGains(k, if pinned.value.Some? then Some(pinned.value.value) else None);
      return Success(true);
    }
  }
}
