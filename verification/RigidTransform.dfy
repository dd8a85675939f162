/** Homogeneous 4x4 transforms: the `Affine` stand-in of zero_franky/types.py. */
module RigidTransform {
  import opened Wrappers
  import opened Rotation

  // --- Data ---------------------------------------------------------------------------

  function Dot4(u0: real, u1: real, u2: real, u3: real, v0: real, v1: real, v2: real, v3: real): real {
    u0 * v0 + u1 * v1 + u2 * v2 + u3 * v3
  }

  datatype Matrix4 = Matrix4(
    a00: real, a01: real, a02: real, a03: real,
    a10: real, a11: real, a12: real, a13: real,
    a20: real, a21: real, a22: real, a23: real,
    a30: real, a31: real, a32: real, a33: real)
  {
    function Block(): Matrix3 {
      Matrix3(a00, a01, a02, a10, a11, a12, a20, a21, a22)
    }

    /** The `translation` accessor. */
    function Offset(): Vector3 {
      Vector3(a03, a13, a23)
    }

    predicate HasUnitLastRow() {
      a30 == 0.0 && a31 == 0.0 && a32 == 0.0 && a33 == 1.0
    }

    predicate IsRigid() {
      Block().IsOrthonormal() && HasUnitLastRow()
    }
  }

  function Compose(rotation: Matrix3, offset: Vector3): Matrix4 {
    Matrix4(
      rotation.m00, rotation.m01, rotation.m02, offset.a,
      rotation.m10, rotation.m11, rotation.m12, offset.b,
      rotation.m20, rotation.m21, rotation.m22, offset.c,
      0.0, 0.0, 0.0, 1.0)
  }

  const UNIT := Compose(IDENTITY, Vector3(0.0, 0.0, 0.0))

  // --- Operations ------------------------------------------------------------------------

  function MatMul4(l: Matrix4, r: Matrix4): Matrix4 {
    Matrix4(
      Dot4(l.a00, l.a01, l.a02, l.a03, r.a00, r.a10, r.a20, r.a30),
      Dot4(l.a00, l.a01, l.a02, l.a03, r.a01, r.a11, r.a21, r.a31),
      Dot4(l.a00, l.a01, l.a02, l.a03, r.a02, r.a12, r.a22, r.a32),
      Dot4(l.a00, l.a01, l.a02, l.a03, r.a03, r.a13, r.a23, r.a33),
      Dot4(l.a10, l.a11, l.a12, l.a13, r.a00, r.a10, r.a20, r.a30),
      Dot4(l.a10, l.a11, l.a12, l.a13, r.a01, r.a11, r.a21, r.a31),
      Dot4(l.a10, l.a11, l.a12, l.a13, r.a02, r.a12, r.a22, r.a32),
      Dot4(l.a10, l.a11, l.a12, l.a13, r.a03, r.a13, r.a23, r.a33),
      Dot4(l.a20, l.a21, l.a22, l.a23, r.a00, r.a10, r.a20, r.a30),
      Dot4(l.a20, l.a21, l.a22, l.a23, r.a01, r.a11, r.a21, r.a31),
      Dot4(l.a20, l.a21, l.a22, l.a23, r.a02, r.a12, r.a22, r.a32),
      Dot4(l.a20, l.a21, l.a22, l.a23, r.a03, r.a13, r.a23, r.a33),
      Dot4(l.a30, l.a31, l.a32, l.a33, r.a00, r.a10, r.a20, r.a30),
      Dot4(l.a30, l.a31, l.a32, l.a33, r.a01, r.a11, r.a21, r.a31),
      Dot4(l.a30, l.a31, l.a32, l.a33, r.a02, r.a12, r.a22, r.a32),
      Dot4(l.a30, l.a31, l.a32, l.a33, r.a03, r.a13, r.a23, r.a33))
  }

  /** The `inverse` property: transposed block, negated translation, a fresh last row. */
  function Inverse(a: Matrix4): Matrix4 {
    Compose(a.Block().Transpose(), a.Block().Transpose().Apply(a.Offset()).Negate())
  }

  /** `Affine(translation, quaternion)` with its defaults and its length errors. */
  function FromTranslation(translation: Option<seq<real>>, quaternion: Option<seq<real>>): Result<Matrix4> {
    if translation.Some? && |translation.value| != 3 then Failure(ValueError)
    else if quaternion.Some? && |quaternion.value| != 4 then Failure(ValueError)
    else
      var t := if translation.Some? then translation.value else [0.0, 0.0, 0.0];
      var q := if quaternion.Some? then QuaternionOf(quaternion.value) else Quaternion(0.0, 0.0, 0.0, 1.0);
      Success(Compose(RotationFromQuaternion(q), Vector3(t[0], t[1], t[2])))
  }

  function QuaternionOf(items: seq<real>): Quaternion
    requires |items| == 4
  {
    Quaternion(items[0], items[1], items[2], items[3])
  }

  // --- Products of arbitrary 4x4 matrices ---------------------------------------------------

  lemma Dot4IsTimes(u0: real, u1: real, u2: real, u3: real, v0: real, v1: real, v2: real, v3: real)
    ensures Dot4(u0, u1, u2, u3, v0, v1, v2, v3) == Times(u0, v0) + Times(u1, v1) + Times(u2, v2) + Times(u3, v3)
  {
  }

  lemma Distribute(u0: real, u1: real, u2: real, u3: real, b0: real, b1: real, b2: real, b3: real, v: real)
    ensures Times(Dot4(u0, u1, u2, u3, b0, b1, b2, b3), v)
        == Triple(u0, b0, v) + Triple(u1, b1, v) + Triple(u2, b2, v) + Triple(u3, b3, v)
    ensures Times(v, Dot4(b0, b1, b2, b3, u0, u1, u2, u3))
        == Triple(v, b0, u0) + Triple(v, b1, u1) + Triple(v, b2, u2) + Triple(v, b3, u3)
  {
  }

  /** (u * b) * v == u * (b * v) for a row u and a column v. */
  lemma RowColumn4(u0: real, u1: real, u2: real, u3: real, b: Matrix4, v0: real, v1: real, v2: real, v3: real)
    ensures
      Dot4(
        Dot4(u0, u1, u2, u3, b.a00, b.a10, b.a20, b.a30), Dot4(u0, u1, u2, u3, b.a01, b.a11, b.a21, b.a31),
        Dot4(u0, u1, u2, u3, b.a02, b.a12, b.a22, b.a32), Dot4(u0, u1, u2, u3, b.a03, b.a13, b.a23, b.a33),
        v0, v1, v2, v3)
      == Dot4(
        u0, u1, u2, u3,
        Dot4(b.a00, b.a01, b.a02, b.a03, v0, v1, v2, v3), Dot4(b.a10, b.a11, b.a12, b.a13, v0, v1, v2, v3),
        Dot4(b.a20, b.a21, b.a22, b.a23, v0, v1, v2, v3), Dot4(b.a30, b.a31, b.a32, b.a33, v0, v1, v2, v3))
  {
    hide Dot4, Times, Triple;
    Distribute(u0, u1, u2, u3, b.a00, b.a10, b.a20, b.a30, v0);
    Distribute(u0, u1, u2, u3, b.a01, b.a11, b.a21, b.a31, v1);
    Distribute(u0, u1, u2, u3, b.a02, b.a12, b.a22, b.a32, v2);
    Distribute(u0, u1, u2, u3, b.a03, b.a13, b.a23, b.a33, v3);
    Distribute(v0, v1, v2, v3, b.a00, b.a01, b.a02, b.a03, u0);
    Distribute(v0, v1, v2, v3, b.a10, b.a11, b.a12, b.a13, u1);
    Distribute(v0, v1, v2, v3, b.a20, b.a21, b.a22, b.a23, u2);
    Distribute(v0, v1, v2, v3, b.a30, b.a31, b.a32, b.a33, u3);
    Dot4IsTimes(
      Dot4(u0, u1, u2, u3, b.a00, b.a10, b.a20, b.a30), Dot4(u0, u1, u2, u3, b.a01, b.a11, b.a21, b.a31),
      Dot4(u0, u1, u2, u3, b.a02, b.a12, b.a22, b.a32), Dot4(u0, u1, u2, u3, b.a03, b.a13, b.a23, b.a33), v0, v1, v2,
      v3);
    Dot4IsTimes(
      u0, u1, u2, u3,
      Dot4(b.a00, b.a01, b.a02, b.a03, v0, v1, v2, v3), Dot4(b.a10, b.a11, b.a12, b.a13, v0, v1, v2, v3),
      Dot4(b.a20, b.a21, b.a22, b.a23, v0, v1, v2, v3), Dot4(b.a30, b.a31, b.a32, b.a33, v0, v1, v2, v3));
  }

  lemma RowTimes(u0: real, u1: real, u2: real, u3: real, b: Matrix4, c: Matrix4)
    ensures
      var r0, r1 := Dot4(u0, u1, u2, u3, b.a00, b.a10, b.a20, b.a30), Dot4(u0, u1, u2, u3, b.a01, b.a11, b.a21, b.a31);
      var r2, r3 := Dot4(u0, u1, u2, u3, b.a02, b.a12, b.a22, b.a32), Dot4(u0, u1, u2, u3, b.a03, b.a13, b.a23, b.a33);
      var d := MatMul4(b, c);
      && Dot4(r0, r1, r2, r3, c.a00, c.a10, c.a20, c.a30) == Dot4(u0, u1, u2, u3, d.a00, d.a10, d.a20, d.a30)
      && Dot4(r0, r1, r2, r3, c.a01, c.a11, c.a21, c.a31) == Dot4(u0, u1, u2, u3, d.a01, d.a11, d.a21, d.a31)
      && Dot4(r0, r1, r2, r3, c.a02, c.a12, c.a22, c.a32) == Dot4(u0, u1, u2, u3, d.a02, d.a12, d.a22, d.a32)
      && Dot4(r0, r1, r2, r3, c.a03, c.a13, c.a23, c.a33) == Dot4(u0, u1, u2, u3, d.a03, d.a13, d.a23, d.a33)
  {
    hide Dot4;
    RowColumn4(u0, u1, u2, u3, b, c.a00, c.a10, c.a20, c.a30);
    RowColumn4(u0, u1, u2, u3, b, c.a01, c.a11, c.a21, c.a31);
    RowColumn4(u0, u1, u2, u3, b, c.a02, c.a12, c.a22, c.a32);
    RowColumn4(u0, u1, u2, u3, b, c.a03, c.a13, c.a23, c.a33);
  }

  /** Main result: products of 4x4 matrices are associative. */
  lemma MulAssociative4(a: Matrix4, b: Matrix4, c: Matrix4)
    ensures MatMul4(MatMul4(a, b), c) == MatMul4(a, MatMul4(b, c))
  {
    hide Dot4;
    RowTimes(a.a00, a.a01, a.a02, a.a03, b, c);
    RowTimes(a.a10, a.a11, a.a12, a.a13, b, c);
    RowTimes(a.a20, a.a21, a.a22, a.a23, b, c);
    RowTimes(a.a30, a.a31, a.a32, a.a33, b, c);
  }

  lemma UnitIsNeutral(a: Matrix4)
    ensures MatMul4(UNIT, a) == a && MatMul4(a, UNIT) == a
  {
  }

  // --- Rigid transforms --------------------------------------------------------------------

  lemma LastColumn(u0: real, u1: real, u2: real, u3: real, v0: real, v1: real, v2: real)
    ensures Dot4(u0, u1, u2, u3, v0, v1, v2, 0.0) == Dot3(u0, u1, u2, v0, v1, v2)
    ensures Dot4(u0, u1, u2, u3, v0, v1, v2, 1.0) == Dot3(u0, u1, u2, v0, v1, v2) + u3
  {
  }

  /** With 0 0 0 1 as last row, blocks multiply and offsets transform. */
  lemma MulOfComposed(r: Matrix3, t: Vector3, s: Matrix3, u: Vector3)
    ensures MatMul4(Compose(r, t), Compose(s, u)) == Compose(r.Mul(s), r.Apply(u).Plus(t))
  {
    RowOfComposed(r.m00, r.m01, r.m02, t.a, s, u);
    RowOfComposed(r.m10, r.m11, r.m12, t.b, s, u);
    RowOfComposed(r.m20, r.m21, r.m22, t.c, s, u);
    LastRow(s.m00, s.m10, s.m20, 0.0); LastRow(s.m01, s.m11, s.m21, 0.0); LastRow(s.m02, s.m12, s.m22, 0.0);
    LastRow(u.a, u.b, u.c, 1.0);
    hide Dot3, Dot4;
  }

  lemma RowOfComposed(u0: real, u1: real, u2: real, u3: real, s: Matrix3, u: Vector3)
    ensures Dot4(u0, u1, u2, u3, s.m00, s.m10, s.m20, 0.0) == Dot3(u0, u1, u2, s.m00, s.m10, s.m20)
    ensures Dot4(u0, u1, u2, u3, s.m01, s.m11, s.m21, 0.0) == Dot3(u0, u1, u2, s.m01, s.m11, s.m21)
    ensures Dot4(u0, u1, u2, u3, s.m02, s.m12, s.m22, 0.0) == Dot3(u0, u1, u2, s.m02, s.m12, s.m22)
    ensures Dot4(u0, u1, u2, u3, u.a, u.b, u.c, 1.0) == Dot3(u0, u1, u2, u.a, u.b, u.c) + u3
  {
    hide Dot3, Dot4;
    LastColumn(u0, u1, u2, u3, s.m00, s.m10, s.m20);
    LastColumn(u0, u1, u2, u3, s.m01, s.m11, s.m21);
    LastColumn(u0, u1, u2, u3, s.m02, s.m12, s.m22);
    LastColumn(u0, u1, u2, u3, u.a, u.b, u.c);
  }

  lemma LastRow(v0: real, v1: real, v2: real, v3: real)
    ensures Dot4(0.0, 0.0, 0.0, 1.0, v0, v1, v2, v3) == v3
  {
  }

  lemma ComposeIsOnto(a: Matrix4)
    ensures a.HasUnitLastRow() <==> a == Compose(a.Block(), a.Offset())
  {
  }

  lemma ApplyNegated(r: Matrix3, v: Vector3)
    ensures r.Apply(v.Negate()) == r.Apply(v).Negate()
  {
  }

  lemma ApplyIdentity(v: Vector3)
    ensures IDENTITY.Apply(v) == v
  {
  }

  lemma TransposeOrthonormal(r: Matrix3)
    requires r.IsOrthonormal()
    ensures r.Transpose().IsOrthonormal() && r.Transpose().Mul(r) == IDENTITY
  {
    RightInverseIsLeftInverse(r, r.Transpose());
    assert r.Transpose().Transpose() == r;
  }

  /** Main result: rigid transforms are closed under product and inverse, and the inverse inverts itself. */
  lemma RigidClosed(a: Matrix4, b: Matrix4)
    requires a.IsRigid() && b.IsRigid()
    ensures MatMul4(a, b).IsRigid()
    ensures Inverse(a).IsRigid()
    ensures Inverse(Inverse(a)) == a
  {
    var r, t := a.Block(), a.Offset();
    hide Matrix3.Mul, Dot3, Dot4;
    ComposeIsOnto(a);
    ComposeIsOnto(b);
    MulOfComposed(r, t, b.Block(), b.Offset());
    OrthonormalCompose(r, b.Block());
    TransposeOrthonormal(r);
    ApplyNegated(r, r.Transpose().Apply(t));
    ApplyOfProduct(r, r.Transpose(), t);
    ApplyIdentity(t);
    assert r.Transpose().Transpose() == r;
    hide Matrix3.Apply, MatMul4;
  }

  lemma RigidInverse(a: Matrix4)
    requires a.IsRigid()
    ensures MatMul4(a, Inverse(a)) == UNIT && MatMul4(Inverse(a), a) == UNIT
  {
    var r, t := a.Block(), a.Offset();
    var s := r.Transpose();
    ComposeIsOnto(a);
    hide Matrix3.Mul, Dot3, Dot4, MatMul4;
    MulOfComposed(r, t, s, s.Apply(t).Negate());
    MulOfComposed(s, s.Apply(t).Negate(), r, t);
    TransposeOrthonormal(r);
    ApplyNegated(r, s.Apply(t));
    ApplyOfProduct(r, s, t);
    ApplyIdentity(t);
    hide Matrix3.Apply;
  }

  /** The block of a * inverse(a) and of inverse(a) * a, for any a whatever. */
  lemma BlocksOfInverse(a: Matrix4)
    ensures MatMul4(a, Inverse(a)).Block() == a.Block().Mul(a.Block().Transpose())
    ensures a.HasUnitLastRow() ==> MatMul4(Inverse(a), a).Block() == a.Block().Transpose().Mul(a.Block())
  {
    var i := Inverse(a);
    LastColumn(a.a00, a.a01, a.a02, a.a03, i.a00, i.a10, i.a20);
    LastColumn(a.a00, a.a01, a.a02, a.a03, i.a01, i.a11, i.a21);
    LastColumn(a.a00, a.a01, a.a02, a.a03, i.a02, i.a12, i.a22);
    LastColumn(a.a10, a.a11, a.a12, a.a13, i.a00, i.a10, i.a20);
    LastColumn(a.a10, a.a11, a.a12, a.a13, i.a01, i.a11, i.a21);
    LastColumn(a.a10, a.a11, a.a12, a.a13, i.a02, i.a12, i.a22);
    LastColumn(a.a20, a.a21, a.a22, a.a23, i.a00, i.a10, i.a20);
    LastColumn(a.a20, a.a21, a.a22, a.a23, i.a01, i.a11, i.a21);
    LastColumn(a.a20, a.a21, a.a22, a.a23, i.a02, i.a12, i.a22);
    LastColumn(i.a00, i.a01, i.a02, i.a03, a.a00, a.a10, a.a20);
    LastColumn(i.a00, i.a01, i.a02, i.a03, a.a01, a.a11, a.a21);
    LastColumn(i.a00, i.a01, i.a02, i.a03, a.a02, a.a12, a.a22);
    LastColumn(i.a10, i.a11, i.a12, i.a13, a.a00, a.a10, a.a20);
    LastColumn(i.a10, i.a11, i.a12, i.a13, a.a01, a.a11, a.a21);
    LastColumn(i.a10, i.a11, i.a12, i.a13, a.a02, a.a12, a.a22);
    LastColumn(i.a20, i.a21, i.a22, i.a23, a.a00, a.a10, a.a20);
    LastColumn(i.a20, i.a21, i.a22, i.a23, a.a01, a.a11, a.a21);
    LastColumn(i.a20, i.a21, i.a22, i.a23, a.a02, a.a12, a.a22);
    hide Dot3, Dot4;
  }

  /** A row that a matrix with a right inverse sends to zero is zero. */
  lemma RowSentToZero(l0: real, l1: real, l2: real, r: Matrix3)
    requires r.Transpose().Mul(r) == IDENTITY
    requires Dot3(l0, l1, l2, r.m00, r.m01, r.m02) == 0.0
    requires Dot3(l0, l1, l2, r.m10, r.m11, r.m12) == 0.0
    requires Dot3(l0, l1, l2, r.m20, r.m21, r.m22) == 0.0
    ensures l0 == 0.0 && l1 == 0.0 && l2 == 0.0
  {
    var s := r.Transpose();
    RowColumn(l0, l1, l2, s, r.m00, r.m10, r.m20);
    RowColumn(l0, l1, l2, s, r.m01, r.m11, r.m21);
    RowColumn(l0, l1, l2, s, r.m02, r.m12, r.m22);
    DotIs(0.0, 0.0, 0.0, r.m00, r.m10, r.m20);
    DotIs(0.0, 0.0, 0.0, r.m01, r.m11, r.m21);
    DotIs(0.0, 0.0, 0.0, r.m02, r.m12, r.m22);
    DotIs(l0, l1, l2, 1.0, 0.0, 0.0);
    DotIs(l0, l1, l2, 0.0, 1.0, 0.0);
    DotIs(l0, l1, l2, 0.0, 0.0, 1.0);
    hide Dot3;
  }

  lemma RightInverseNeedsLastRow(a: Matrix4)
    requires MatMul4(a, Inverse(a)) == UNIT && a.Block().IsOrthonormal()
    ensures a.HasUnitLastRow()
  {
    var r, i := a.Block(), Inverse(a);
    TransposeOrthonormal(r);
    LastColumn(a.a30, a.a31, a.a32, a.a33, i.a00, i.a10, i.a20);
    LastColumn(a.a30, a.a31, a.a32, a.a33, i.a01, i.a11, i.a21);
    LastColumn(a.a30, a.a31, a.a32, a.a33, i.a02, i.a12, i.a22);
    LastColumn(a.a30, a.a31, a.a32, a.a33, i.a03, i.a13, i.a23);
    DotIs(0.0, 0.0, 0.0, i.a03, i.a13, i.a23);
    hide Dot3, Dot4;
    RowSentToZero(a.a30, a.a31, a.a32, r);
  }

  /**
   Main result: `inverse` inverts on either side exactly when the transform is rigid;
   for any other 4x4 matrix it is an inverse on neither side.
   */
  lemma InverseIff(a: Matrix4)
    ensures MatMul4(a, Inverse(a)) == UNIT <==> a.IsRigid()
    ensures MatMul4(Inverse(a), a) == UNIT <==> a.IsRigid()
  {
    hide Matrix3.Mul, Dot3, Dot4;
    if a.IsRigid() {
      RigidInverse(a);
    }
    BlocksOfInverse(a);
    if MatMul4(a, Inverse(a)) == UNIT {
      RightInverseNeedsLastRow(a);
    }
    if MatMul4(Inverse(a), a) == UNIT {
      LastRowOfLeftInverse(a);
      RightInverseIsLeftInverse(a.Block().Transpose(), a.Block());
    }
  }

  lemma LastRowOfLeftInverse(a: Matrix4)
    requires MatMul4(Inverse(a), a) == UNIT
    ensures a.HasUnitLastRow()
  {
    var p := MatMul4(Inverse(a), a);
    assert p.a30 == a.a30 && p.a31 == a.a31 && p.a32 == a.a32 && p.a33 == a.a33;
  }

  /** Main result: the inverse of a product is the product of the inverses in reverse. */
  lemma InverseOfProduct(a: Matrix4, b: Matrix4)
    requires a.IsRigid() && b.IsRigid()
    ensures Inverse(MatMul4(a, b)) == MatMul4(Inverse(b), Inverse(a))
  {
    var c, x := MatMul4(a, b), MatMul4(Inverse(b), Inverse(a));
    RigidClosed(a, b);
    RigidInverse(a);
    RigidInverse(b);
    RigidInverse(c);
    hide *;
    MulAssociative4(a, b, x);
    MulAssociative4(b, Inverse(b), Inverse(a));
    MulAssociative4(Inverse(c), c, x);
    UnitIsNeutral(Inverse(a));
    UnitIsNeutral(x);
    UnitIsNeutral(Inverse(c));
  }

  // --- Transforms built from a translation and a quaternion ---------------------------------------

  lemma ComposedIsRigid(r: Matrix3, t: Vector3)
    ensures Compose(r, t).Block() == r && Compose(r, t).Offset() == t
    ensures Compose(r, t).IsRigid() <==> r.IsOrthonormal()
  {
  }

  lemma IdentityQuaternion()
    ensures RotationFromQuaternion(Quaternion(0.0, 0.0, 0.0, 1.0)) == IDENTITY && IDENTITY.IsOrthonormal()
  {
    EntriesOf(Quaternion(0.0, 0.0, 0.0, 1.0));
    IdentityIsNeutral(IDENTITY);
    hide RotationFromQuaternion, Matrix3.Mul;
    assert Times(0.0, 0.0) == 0.0 && Times(0.0, 1.0) == 0.0;
  }

  predicate GoodLengths(translation: Option<seq<real>>, quaternion: Option<seq<real>>) {
    (translation.Some? ==> |translation.value| == 3) && (quaternion.Some? ==> |quaternion.value| == 4)
  }

  function TranslationOr0(translation: Option<seq<real>>): Vector3
    requires translation.Some? ==> |translation.value| == 3
  {
    if translation.Some? then Vector3(translation.value[0], translation.value[1], translation.value[2])
        else Vector3(0.0, 0.0, 0.0)
  }

  function QuaternionOrIdentity(quaternion: Option<seq<real>>): Quaternion
    requires quaternion.Some? ==> |quaternion.value| == 4
  {
    if quaternion.Some? then QuaternionOf(quaternion.value) else Quaternion(0.0, 0.0, 0.0, 1.0)
  }

  predicate UnitOrScalar(q: Quaternion) {
    q.IsUnit() || (q.x == 0.0 && q.y == 0.0 && q.z == 0.0)
  }

  lemma FromTranslationIsComposed(translation: Option<seq<real>>, quaternion: Option<seq<real>>)
    ensures FromTranslation(translation, quaternion).Success? <==> GoodLengths(translation, quaternion)
    ensures
      GoodLengths(translation, quaternion) ==>
        FromTranslation(translation, quaternion)
        == Success(Compose(RotationFromQuaternion(QuaternionOrIdentity(quaternion)), TranslationOr0(translation)))
  {
    hide RotationFromQuaternion, Compose;
  }

  /** Which constructor calls give a rigid transform, and the translation they carry. */
  lemma FromTranslationIsRigid(translation: Option<seq<real>>, quaternion: Option<seq<real>>)
    requires GoodLengths(translation, quaternion)
    ensures FromTranslation(translation, quaternion).Success?
    ensures FromTranslation(translation, quaternion).value.IsRigid() <==> UnitOrScalar(QuaternionOrIdentity(quaternion))
    ensures FromTranslation(translation, quaternion).value.Offset() == TranslationOr0(translation)
    ensures quaternion.None? ==> FromTranslation(translation, quaternion).value.Block() == IDENTITY
  {
    FromTranslationIsComposed(translation, quaternion);
    hide FromTranslation, RotationFromQuaternion, Compose, Quaternion.IsUnit;
    hide Matrix4.IsRigid, Matrix4.Block, Matrix4.Offset, Matrix3.IsOrthonormal;
    var q := QuaternionOrIdentity(quaternion);
    ComposedIsRigid(RotationFromQuaternion(q), TranslationOr0(translation));
    OrthonormalIff(q);
    IdentityQuaternion();
  }

  /** Main result: transforms compose through their quaternions and rotated offsets. */
  lemma ProductOfPoses(p: Quaternion, t: Vector3, q: Quaternion, u: Vector3)
    requires p.IsUnit() && q.IsUnit()
    ensures MatMul4(Compose(RotationFromQuaternion(p), t), Compose(RotationFromQuaternion(q), u))
         == Compose(RotationFromQuaternion(Hamilton(p, q)), RotationFromQuaternion(p).Apply(u).Plus(t))
  {
    hide RotationFromQuaternion, Hamilton, MatMul4, Matrix3.Mul, Matrix3.Apply;
    MatrixOfProduct(p, q);
    MulOfComposed(RotationFromQuaternion(p), t, RotationFromQuaternion(q), u);
  }
}
