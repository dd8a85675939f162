/**
 Sequences of gain updates: the last writer of each part wins (zero_franky/tracker_session.py,
 zero_franky/zmq_client.py).
 */
module GainUpdates {
  import opened Wrappers
  import opened Gains

  // --- Cartesian updates -------------------------------------------------------------------------------

  /** The gains after one call of `set_gains`, and what the caller gets. */
  function Update(current: CartesianGains, request: CartesianRequest): (CartesianGains, Result<bool>) {
    match PayloadOf(request)
    case Failure(error) => (current, Failure(error))
    case Success(None) => (current, Success(true))
    case Success(Some(payload)) => SetCartesian(current, payload)
  }

  function Updated(initial: CartesianGains, requests: seq<CartesianRequest>): CartesianGains {
    if requests == [] then initial
    else Update(Updated(initial, requests[..|requests| - 1]), requests[|requests| - 1]).0
  }

  predicate NamesStiffness(request: CartesianRequest) {
    request.translational.Some? || request.rotational.Some?
  }

  /** A gains object excludes the keywords. */
  predicate Mixed(request: CartesianRequest) {
    request.gains.Some? && (NamesStiffness(request) || !request.damping.Unnamed?)
  }

  predicate Misspelled<V>(damping: Damping<V>) {
    damping.Spelled? && damping.text != CRITICAL_DAMPING
  }

  /**
   The attributes of a gains object can be read: 6x6 matrices, the damping also none or, from a handle, the sentinel
   or the object it stands for, if franky takes that.
   */
  predicate Readable(caller: Caller, gains: GainsObject) {
    && Is6x6(gains.stiffness)
    && match gains.damping
       case NoDamping => true
       case DampingRows(rows) => Is6x6(rows)
       case DampingText(text) => caller.Handle? && text == CRITICAL_DAMPING
       case CriticalObject(taken) => caller.Handle? && taken
  }

  /** The request is well formed and names something. */
  predicate Effective(request: CartesianRequest) {
    if request.gains.Some? then !Mixed(request) && Readable(request.caller, request.gains.value)
    else (NamesStiffness(request) || !request.damping.Unnamed?) && !Misspelled(request.damping)
  }

  /** The request writes this entry of the stiffness matrix: coupling entries are only written by a gains object. */
  predicate Writes(request: CartesianRequest, i: nat, j: nat) {
    && Effective(request)
    && (request.gains.Some?
        || (i < 3 && j < 3 && request.translational.Some?)
        || (i >= 3 && j >= 3 && request.rotational.Some?))
  }

  function Entry(request: CartesianRequest, i: nat, j: nat): real
    requires i < 6 && j < 6 && Writes(request, i, j)
  {
    if request.gains.Some? then AsFloat(request.gains.value.stiffness[i][j])
    else Isotropic(if i < 3 then request.translational.value else request.rotational.value, i, j)
  }

  function DampingOf(request: CartesianRequest): Option<Matrix6>
    requires Effective(request)
  {
    if request.gains.Some? then
      if request.gains.value.damping.DampingRows? then Some(Reals(request.gains.value.damping.rows)) else None
    else if request.damping.Pinned? then Some(Diagonal(request.damping.value))
    else None
  }

  /** Encoding the numbers as floats does not change what is read. */
  lemma FloatsReadAlike(rows: Rows)
    ensures ReadMatrix(Floats(rows)) == ReadMatrix(rows) && (Is6x6(Floats(rows)) <==> Is6x6(rows))
  {
    assert |Floats(rows)| == |rows|;
    assert forall i :: 0 <= i < |rows| ==> |Floats(rows)[i]| == |rows[i]|;
    if Is6x6(rows) {
      SameEntries(Reals(Floats(rows)), Reals(rows));
    }
  }

  lemma ColumnIsNot6x6(text: string)
    requires AllDigits(text)
    ensures !Is6x6(Column(text))
  {
    if |text| == 6 {
      assert |Column(text)[0]| == 1;
    }
  }

  lemma SentinelIsNoNumber()
    ensures !AllDigits(CRITICAL_DAMPING)
  {
    assert CRITICAL_DAMPING[0] == 'c';
  }

  /** What a whole gains object comes to. */
  lemma WholeResolves(current: CartesianGains, request: CartesianRequest)
    requires request.gains.Some? && !Mixed(request)
    ensures
      var gains := request.gains.value;
      var (after, answer) := Update(current, request);
      if Readable(request.caller, gains) then
        && answer == Success(true) && after.stiffness == Reals(gains.stiffness)
        && after.damping == (if gains.damping.DampingRows? then Some(Reals(gains.damping.rows)) else None)
      else after == current && answer == Failure(WholeError(request.caller, gains))
  {
    var gains := request.gains.value;
    FloatsReadAlike(gains.stiffness);
    match gains.damping
    case NoDamping => hide Floats, Reals, Is6x6;
    case CriticalObject(_) => hide Floats, Reals, Is6x6;
    case DampingRows(rows) => FloatsReadAlike(rows); hide Floats, Reals, Is6x6;
    case DampingText(text) =>
      if AllDigits(text) {
        ColumnIsNot6x6(text);
        FloatsReadAlike(Column(text));
        SentinelIsNoNumber();
      }
      hide Floats, Reals, Is6x6, Column, AllDigits;
  }

  /** A number of either kind reads as this real. */
  predicate Means(n: Number, x: real) {
    match n
    case Whole(whole) => x == whole as real
    case Float(number) => x == number
  }

  /** Main result: a gains object that is read sets every entry to the number it holds, coupling included. */
  lemma WholeIsRead(current: CartesianGains, request: CartesianRequest, i: nat, j: nat)
    requires request.gains.Some? && !Mixed(request) && Readable(request.caller, request.gains.value) && i < 6 && j < 6
    ensures
      var (gains, after) := (request.gains.value, Update(current, request).0);
      && Means(gains.stiffness[i][j], after.stiffness[i][j])
      && (after.damping.Some? <==> gains.damping.DampingRows?)
      && (after.damping.Some? ==> Means(gains.damping.rows[i][j], after.damping.value[i][j]))
  {
    WholeResolves(current, request);
    hide Update;
  }

  /** How a whole gains object that cannot be read is refused. */
  function WholeError(caller: Caller, gains: GainsObject): Error {
    if caller.Client? && gains.damping.DampingText? && !AllDigits(gains.damping.text) then ValueError
    else if !Is6x6(gains.stiffness) then TypeError
    else if caller.Handle? && gains.damping.DampingText? then ProtocolError
    else TypeError
  }

  /** What one update does, entry by entry. */
  lemma UpdateWrites(current: CartesianGains, request: CartesianRequest, i: nat, j: nat)
    requires i < 6 && j < 6
    ensures
      var after := Update(current, request).0;
      && after.stiffness[i][j] == (if Writes(request, i, j) then Entry(request, i, j) else current.stiffness[i][j])
      && after.damping == (if Effective(request) then DampingOf(request) else current.damping)
  {
    if request.gains.Some? && !Mixed(request) {
      WholeResolves(current, request);
      hide Update;
    }
  }

  /**
   Main result: a request by keywords that is accepted makes each block it names that multiple of the identity and
   leaves every other entry, coupling included; six damping values become the diagonal of the damping, and without
   them there is none.
   */
  lemma KeywordsAreRead(current: CartesianGains, request: CartesianRequest, i: nat, j: nat)
    requires request.gains.None? && Effective(request) && i < 6 && j < 6
    ensures
      var (k, d) := (Update(current, request).0.stiffness, Update(current, request).0.damping);
      && (i < 3 && j < 3 && request.translational.Some? ==>
            k[i][j] == if i == j then request.translational.value else 0.0)
      && (i >= 3 && j >= 3 && request.rotational.Some? ==>
            k[i][j] == if i == j then request.rotational.value else 0.0)
      && ((i < 3) != (j < 3) || (i < 3 && request.translational.None?) || (i >= 3 && request.rotational.None?) ==>
            k[i][j] == current.stiffness[i][j])
      && (d.Some? <==> request.damping.Pinned?)
      && (d.Some? ==> d.value[i][j] == if i == j then request.damping.value[i] else 0.0)
  {
    UpdateWrites(current, request, i, j);
    hide Update;
  }

  /**
   What the caller of `set_gains` is told: the two forms mixed, a gains object that cannot be read and a misspelled
   sentinel are refused, nothing else is.
   */
  lemma UpdateAnswers(current: CartesianGains, request: CartesianRequest)
    ensures
      Update(current, request).1
      == if Mixed(request) then Failure(ValueError)
         else if request.gains.Some? then
           if Readable(request.caller, request.gains.value) then Success(true)
           else Failure(WholeError(request.caller, request.gains.value))
         else if Misspelled(request.damping) then Failure(ProtocolError)
         else Success(true)
  {
    if request.gains.Some? && !Mixed(request) {
      WholeResolves(current, request);
      hide Update;
    }
  }

  /** Main result: a request that is refused, or names nothing, leaves the gains as they were. */
  lemma IneffectiveKeepsGains(current: CartesianGains, request: CartesianRequest)
    requires !Effective(request)
    ensures Update(current, request).0 == current
  {
    forall i, j | 0 <= i < 6 && 0 <= j < 6
        ensures Update(current, request).0.stiffness[i][j] == current.stiffness[i][j] {
      UpdateWrites(current, request, i, j);
    }
    UpdateWrites(current, request, 0, 0);
    SameEntries(Update(current, request).0.stiffness, current.stiffness);
  }

  /**
   Main result: over any sequence of updates, each stiffness entry holds what the last request that wrote it
   says, and its first value when none did. A block is written by keyword or as a whole, coupling only as a whole.
   */
  lemma {:induction false} LastWriterWins(initial: CartesianGains, requests: seq<CartesianRequest>, k: nat, i: nat,
      j: nat)
    requires i < 6 && j < 6 && k <= |requests|
    requires forall l :: k <= l < |requests| ==> !Writes(requests[l], i, j)
    requires k > 0 ==> Writes(requests[k - 1], i, j)
    ensures
      Updated(initial, requests).stiffness[i][j]
      == if k > 0 then Entry(requests[k - 1], i, j) else initial.stiffness[i][j]
    decreases |requests|
  {
    hide Update, Writes, Entry;
    if requests != [] {
      var before, last := requests[..|requests| - 1], requests[|requests| - 1];
      UpdateWrites(Updated(initial, before), last, i, j);
      if k < |requests| {
        LastWriterWins(initial, before, k, i, j);
      }
    }
  }

  /** Main result: the damping is that of the last effective request, pinned exactly when it gave damping values. */
  lemma {:induction false} LastEffectiveSetsDamping(initial: CartesianGains, requests: seq<CartesianRequest>, k: nat)
    requires k <= |requests|
    requires forall l :: k <= l < |requests| ==> !Effective(requests[l])
    requires k > 0 ==> Effective(requests[k - 1])
    ensures Updated(initial, requests).damping == if k > 0 then DampingOf(requests[k - 1]) else initial.damping
    ensures
      k > 0 ==>
        (Updated(initial, requests).damping.Some? <==>
         if requests[k - 1].gains.Some? then requests[k - 1].gains.value.damping.DampingRows?
             else requests[k - 1].damping.Pinned?)
    decreases |requests|
  {
    hide Update, Effective;
    if requests != [] {
      var before, last := requests[..|requests| - 1], requests[|requests| - 1];
      UpdateWrites(Updated(initial, before), last, 0, 0);
      if k < |requests| {
        LastEffectiveSetsDamping(initial, before, k);
      }
    }
  }

  // --- Client and handle ----------------------------------------------------------------------------------

  /**
   A whole gains object whose damping is a string: the client reads it as a matrix, the handle as the sentinel.
   Both refuse it alike only when the stiffness is misshapen and the string is all digits. Or one whose damping is
   the `CRITICAL` object, which the client cannot encode: both refuse it alike unless the handle has it accepted.
   */
  predicate ReadDifferently(request: CartesianRequest) {
    && request.gains.Some? && !Mixed(request)
    && match request.gains.value.damping
       case DampingText(text) => !AllDigits(text) || Is6x6(request.gains.value.stiffness)
       case CriticalObject(taken) => taken && Is6x6(request.gains.value.stiffness)
       case _ => false
  }

  function From(caller: Caller, request: CartesianRequest): CartesianRequest {
    request.(caller := caller)
  }

  /**
   Main result: the same call by the client and by a policy's handle has the same effect and the same answer,
   exactly unless it passes a gains object whose damping is a string, or the `CRITICAL` object where franky takes it.
   */
  lemma CartesianAgreeIff(current: CartesianGains, request: CartesianRequest)
    ensures Update(current, From(Client, request)) == Update(current, From(Handle, request))
        <==> !ReadDifferently(request)
  {
    if request.gains.Some? && !Mixed(request) {
      WholeResolves(current, From(Client, request));
      WholeResolves(current, From(Handle, request));
      hide Update, Is6x6, Reals, AllDigits;
      if request.gains.value.damping.DampingText? && AllDigits(request.gains.value.damping.text) {
        SentinelIsNoNumber();
      }
    }
  }

  function Answers(initial: CartesianGains, requests: seq<CartesianRequest>): seq<Result<bool>> {
    if requests == [] then []
    else
      var before := requests[..|requests| - 1];
      Answers(initial, before) + [Update(Updated(initial, before), requests[|requests| - 1]).1]
  }

  function AllFrom(caller: Caller, requests: seq<CartesianRequest>): seq<CartesianRequest> {
    seq(|requests|, i requires 0 <= i < |requests| => From(caller, requests[i]))
  }

  /** Main result: so do any sequence of calls and the same calls by the other, gains and answers alike. */
  lemma {:induction false} CartesianRunsAgree(initial: CartesianGains, requests: seq<CartesianRequest>)
    requires forall i :: 0 <= i < |requests| ==> !ReadDifferently(requests[i])
    ensures Updated(initial, AllFrom(Client, requests)) == Updated(initial, AllFrom(Handle, requests))
    ensures Answers(initial, AllFrom(Client, requests)) == Answers(initial, AllFrom(Handle, requests))
    decreases |requests|
  {
    if requests != [] {
      var before, last := requests[..|requests| - 1], requests[|requests| - 1];
      hide Update, ReadDifferently;
      CartesianRunsAgree(initial, before);
      assert forall caller :: AllFrom(caller, requests)[..|requests| - 1] == AllFrom(caller, before);
      CartesianAgreeIff(Updated(initial, AllFrom(Client, before)), last);
    }
  }

  // --- Joint updates -----------------------------------------------------------------------------------

  /** The arguments of the joint `set_gains`; a policy's handle takes the keywords only. */
  datatype JointRequest = JointRequest(gains: Option<JointGains>, stiffness: Option<seq<real>>,
      damping: Damping<seq<real>>)

  /** A call through the client, which settles the no-op before the round trip. */
  function ClientUpdate(current: JointGains, request: JointRequest): (JointGains, Result<bool>) {
    if request.gains.Some? then
      if request.stiffness.Some? || !request.damping.Unnamed? then (current, Failure(ValueError))
      else
        var gains := request.gains.value;
        SetJoint(current, Some(gains.stiffness), if gains.damping.Some? then Values(gains.damping.value) else Null)
    else if request.stiffness.None? && request.damping.Unnamed? then (current, Success(true))
    else SetJoint(current, request.stiffness, EncodeDamping(request.damping))
  }

  /** A call by a policy on its own tracker, which leaves the no-op to the session. */
  function HandleUpdate(current: JointGains, stiffness: Option<seq<real>>,
      damping: Damping<seq<real>>): (JointGains, Result<bool>) {
    SetJoint(current, stiffness, EncodeDamping(damping))
  }

  function JointUpdated(initial: JointGains, requests: seq<JointRequest>): JointGains {
    if requests == [] then initial
    else ClientUpdate(JointUpdated(initial, requests[..|requests| - 1]), requests[|requests| - 1]).0
  }

  predicate JointMixed(request: JointRequest) {
    request.gains.Some? && (request.stiffness.Some? || !request.damping.Unnamed?)
  }

  /** Lists of a wrong length. */
  predicate Misshapen(request: JointRequest) {
    (request.stiffness.Some? && |request.stiffness.value| != 7)
        || (request.damping.Pinned? && |request.damping.value| != 7)
  }

  predicate JointEffective(request: JointRequest) {
    if request.gains.Some? then !JointMixed(request)
    else (request.stiffness.Some? || !request.damping.Unnamed?) && !Misspelled(request.damping) && !Misshapen(request)
  }

  predicate WritesJointStiffness(request: JointRequest) {
    JointEffective(request) && (request.gains.Some? || request.stiffness.Some?)
  }

  function JointStiffnessOf(request: JointRequest): seq<real>
    requires WritesJointStiffness(request)
  {
    if request.gains.Some? then request.gains.value.stiffness else request.stiffness.value
  }

  function JointDampingOf(request: JointRequest): Option<seq<real>> {
    if request.gains.Some? then
      if request.gains.value.damping.Some? then Some(request.gains.value.damping.value) else None
    else if request.damping.Pinned? then Some(request.damping.value)
    else None
  }

  lemma JointUpdateWrites(current: JointGains, request: JointRequest)
    ensures
      var after := ClientUpdate(current, request).0;
      && after.stiffness == (if WritesJointStiffness(request) then JointStiffnessOf(request) else current.stiffness)
      && (JointEffective(request) ==> after.damping == JointDampingOf(request))
      && (!JointEffective(request) ==> after == current)
  {
  }

  /**
   What the caller of the joint `set_gains` is told: the two forms mixed, a misspelled sentinel and lists of a wrong
   length are refused, nothing else is.
   */
  lemma JointUpdateAnswers(current: JointGains, request: JointRequest)
    ensures
      ClientUpdate(current, request).1
      == if JointMixed(request) then Failure(ValueError)
         else if request.gains.Some? then Success(true)
         else if Misspelled(request.damping) then Failure(ProtocolError)
         else if Misshapen(request) then Failure(ValueError)
         else Success(true)
  {
  }

  /** A policy's own call and a client's call with the same keywords do the same and answer the same. */
  lemma JointAgree(current: JointGains, stiffness: Option<seq<real>>, damping: Damping<seq<real>>)
    ensures ClientUpdate(current, JointRequest(None, stiffness, damping)) == HandleUpdate(current, stiffness, damping)
  {
  }

  /**
   Main result: the joint stiffness is that of the last effective request naming one; unpinning the damping alone
   keeps it.
   */
  lemma {:induction false} LastJointStiffnessWins(initial: JointGains, requests: seq<JointRequest>, k: nat)
    requires k <= |requests|
    requires forall l :: k <= l < |requests| ==> !WritesJointStiffness(requests[l])
    requires k > 0 ==> WritesJointStiffness(requests[k - 1])
    ensures
      JointUpdated(initial, requests).stiffness == if k > 0 then JointStiffnessOf(requests[k - 1])
          else initial.stiffness
    decreases |requests|
  {
    hide ClientUpdate, WritesJointStiffness, JointEffective, JointStiffnessOf;
    if requests != [] {
      var before, last := requests[..|requests| - 1], requests[|requests| - 1];
      JointUpdateWrites(JointUpdated(initial, before), last);
      if k < |requests| {
        LastJointStiffnessWins(initial, before, k);
      }
    }
  }

  /** Main result: the joint damping is that of the last effective request, so a change of stiffness alone unpins it. */
  lemma {:induction false} LastJointEffectiveSetsDamping(initial: JointGains, requests: seq<JointRequest>, k: nat)
    requires k <= |requests|
    requires forall l :: k <= l < |requests| ==> !JointEffective(requests[l])
    requires k > 0 ==> JointEffective(requests[k - 1])
    ensures
      if k > 0 then JointUpdated(initial, requests).damping == JointDampingOf(requests[k - 1])
      else JointUpdated(initial, requests) == initial
    decreases |requests|
  {
    hide ClientUpdate, WritesJointStiffness, JointEffective, JointStiffnessOf, JointDampingOf;
    if requests != [] {
      var before, last := requests[..|requests| - 1], requests[|requests| - 1];
      JointUpdateWrites(JointUpdated(initial, before), last);
      if k < |requests| {
        LastJointEffectiveSetsDamping(initial, before, k);
      }
    }
  }
}
