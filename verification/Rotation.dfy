/**
 Quaternions and 3x3 rotation matrices, as the client-side stand-ins compute them
 (zero_franky/types.py). Floats are modelled as reals. `math.sqrt` is modelled by
 the root itself: the extraction takes a `root` argument that satisfies `IsRoot`.
 */
module Rotation {

  // --- Data -------------------------------------------------------------------

  /** A quaternion in the source's [x, y, z, w] order. */
  datatype Quaternion = Quaternion(x: real, y: real, z: real, w: real) {
    function SquaredNorm(): real {
      x * x + y * y + z * z + w * w
    }

    predicate IsUnit() {
      SquaredNorm() == 1.0
    }

    function Scale(s: real): Quaternion {
      Quaternion(s * x, s * y, s * z, s * w)
    }

    function Conjugate(): Quaternion {
      Quaternion(-x, -y, -z, w)
    }

    function At(i: nat): real
      requires i < 4
    {
      if i == 0 then x else if i == 1 then y else if i == 2 then z else w
    }
  }

  datatype Vector3 = Vector3(a: real, b: real, c: real) {
    function Negate(): Vector3 {
      Vector3(-a, -b, -c)
    }

    function Plus(that: Vector3): Vector3 {
      Vector3(a + that.a, b + that.b, c + that.c)
    }
  }

  function Times(s: real, x: real): real {
    s * x
  }

  function Triple(u: real, b: real, v: real): real {
    u * b * v
  }

  function Dot3(u0: real, u1: real, u2: real, v0: real, v1: real, v2: real): real {
    u0 * v0 + u1 * v1 + u2 * v2
  }

  /** The determinant of the 2x2 matrix with rows (a, b) and (c, d). */
  function Minor(a: real, b: real, c: real, d: real): real {
    a * d - b * c
  }

  datatype Matrix3 = Matrix3(
    m00: real, m01: real, m02: real,
    m10: real, m11: real, m12: real,
    m20: real, m21: real, m22: real)
  {
    function Mul(that: Matrix3): Matrix3 {
      Matrix3(
        Dot3(m00, m01, m02, that.m00, that.m10, that.m20),
        Dot3(m00, m01, m02, that.m01, that.m11, that.m21),
        Dot3(m00, m01, m02, that.m02, that.m12, that.m22),
        Dot3(m10, m11, m12, that.m00, that.m10, that.m20),
        Dot3(m10, m11, m12, that.m01, that.m11, that.m21),
        Dot3(m10, m11, m12, that.m02, that.m12, that.m22),
        Dot3(m20, m21, m22, that.m00, that.m10, that.m20),
        Dot3(m20, m21, m22, that.m01, that.m11, that.m21),
        Dot3(m20, m21, m22, that.m02, that.m12, that.m22))
    }

    function Apply(v: Vector3): Vector3 {
      Vector3(Dot3(m00, m01, m02, v.a, v.b, v.c), Dot3(m10, m11, m12, v.a, v.b, v.c),
          Dot3(m20, m21, m22, v.a, v.b, v.c))
    }

    function Plus(that: Matrix3): Matrix3 {
      Matrix3(
        m00 + that.m00, m01 + that.m01, m02 + that.m02,
        m10 + that.m10, m11 + that.m11, m12 + that.m12,
        m20 + that.m20, m21 + that.m21, m22 + that.m22)
    }

    function Scale(s: real): Matrix3 {
      Matrix3(
        Times(s, m00), Times(s, m01), Times(s, m02),
        Times(s, m10), Times(s, m11), Times(s, m12),
        Times(s, m20), Times(s, m21), Times(s, m22))
    }

    function Transpose(): Matrix3 {
      Matrix3(m00, m10, m20, m01, m11, m21, m02, m12, m22)
    }

    function Determinant(): real {
      Dot3(m00, m01, m02, Minor(m11, m12, m21, m22), Minor(m12, m10, m22, m20), Minor(m10, m11, m20, m21))
    }

    function Adjugate(): Matrix3 {
      Matrix3(
        Minor(m11, m12, m21, m22), Minor(m21, m22, m01, m02), Minor(m01, m02, m11, m12),
        Minor(m12, m10, m22, m20), Minor(m22, m20, m02, m00), Minor(m02, m00, m12, m10),
        Minor(m10, m11, m20, m21), Minor(m20, m21, m00, m01), Minor(m00, m01, m10, m11))
    }

    predicate IsOrthonormal() {
      Mul(Transpose()) == IDENTITY
    }

    /** Membership in SO(3). */
    predicate IsRotation() {
      IsOrthonormal() && Determinant() == 1.0
    }
  }

  const IDENTITY := Matrix3(1.0, 0.0, 0.0, 0.0, 1.0, 0.0, 0.0, 0.0, 1.0)

  // --- Operations ---------------------------------------------------------------

  function RotationFromQuaternion(q: Quaternion): Matrix3 {
    var tx, ty, tz := 2.0 * q.x, 2.0 * q.y, 2.0 * q.z;
    var twx, twy, twz := Times(tx, q.w), Times(ty, q.w), Times(tz, q.w);
    var txx, txy, txz := Times(tx, q.x), Times(ty, q.x), Times(tz, q.x);
    var tyy, tyz, tzz := Times(ty, q.y), Times(tz, q.y), Times(tz, q.z);
    Matrix3(
      1.0 - (tyy + tzz), txy - twz, txz + twy,
      txy + twz, 1.0 - (txx + tzz), tyz - twx,
      txz - twy, tyz + twx, 1.0 - (txx + tyy))
  }

  predicate IsRoot(root: real, a: real) {
    root >= 0.0 && root * root == a
  }

  /** Which quaternion component the extraction divides by: 0, 1, 2 for x, y, z and 3 for w. */
  function Pivot(m: Matrix3): (p: nat)
    ensures p < 4
  {
    if m.m00 + m.m11 + m.m22 > 0.0 then 3
    else if m.m00 > m.m11 && m.m00 > m.m22 then 0
    else if m.m11 > m.m22 then 1
    else 2
  }

  /** The argument of the square root in the branch taken for `m`. */
  function Radicand(m: Matrix3): real {
    var trace := m.m00 + m.m11 + m.m22;
    if trace > 0.0 then trace + 1.0
    else if m.m00 > m.m11 && m.m00 > m.m22 then 1.0 + m.m00 - m.m11 - m.m22
    else if m.m11 > m.m22 then 1.0 + m.m11 - m.m00 - m.m22
    else 1.0 + m.m22 - m.m00 - m.m11
  }

  function QuaternionFromRotation(m: Matrix3, root: real): Quaternion
    requires IsRoot(root, Radicand(m))
  {
    RadicandAtLeastOne(m, root);
    var scale := root * 2.0;
    if m.m00 + m.m11 + m.m22 > 0.0 then
      Quaternion((m.m21 - m.m12) / scale, (m.m02 - m.m20) / scale, (m.m10 - m.m01) / scale, 0.25 * scale)
    else if m.m00 > m.m11 && m.m00 > m.m22 then
      Quaternion(0.25 * scale, (m.m01 + m.m10) / scale, (m.m02 + m.m20) / scale, (m.m21 - m.m12) / scale)
    else if m.m11 > m.m22 then
      Quaternion((m.m01 + m.m10) / scale, 0.25 * scale, (m.m12 + m.m21) / scale, (m.m02 - m.m20) / scale)
    else
      Quaternion((m.m02 + m.m20) / scale, (m.m12 + m.m21) / scale, 0.25 * scale, (m.m10 - m.m01) / scale)
  }

  /** The Hamilton product. */
  function Hamilton(p: Quaternion, q: Quaternion): Quaternion {
    Quaternion(
      HamiltonX(p.x, p.y, p.z, p.w, q.x, q.y, q.z, q.w),
      HamiltonX(p.y, p.z, p.x, p.w, q.y, q.z, q.x, q.w),
      HamiltonX(p.z, p.x, p.y, p.w, q.z, q.x, q.y, q.w),
      HamiltonW(p.x, p.y, p.z, p.w, q.x, q.y, q.z, q.w))
  }

  /** The x component of the product of (a, b, c, d) and (x, y, z, w); y and z follow by renaming the axes. */
  function HamiltonX(a: real, b: real, c: real, d: real, x: real, y: real, z: real, w: real): real {
    d * x + a * w + b * z - c * y
  }

  function HamiltonW(a: real, b: real, c: real, d: real, x: real, y: real, z: real, w: real): real {
    d * w - a * x - b * y - c * z
  }

  // --- The extraction never divides by a small scale ----------------------------------

  /** For any 3x3 matrix at all, the chosen branch takes the root of a number >= 1 and divides by >= 2. */
  lemma RadicandAtLeastOne(m: Matrix3, root: real)
    ensures Radicand(m) >= 1.0
    ensures IsRoot(root, Radicand(m)) ==> root >= 1.0 && root * 2.0 >= 2.0
  {
    if 0.0 <= root < 1.0 {
      assert root * root <= 1.0 * root;
    }
  }

  // --- Matrix algebra --------------------------------------------------------------

  /** (u * b) * v == u * (b * v) for a row u and a column v. */
  lemma RowColumn(u0: real, u1: real, u2: real, b: Matrix3, v0: real, v1: real, v2: real)
    ensures
      Dot3(Dot3(u0, u1, u2, b.m00, b.m10, b.m20), Dot3(u0, u1, u2, b.m01, b.m11, b.m21),
          Dot3(u0, u1, u2, b.m02, b.m12, b.m22), v0, v1, v2)
      == Dot3(u0, u1, u2, Dot3(b.m00, b.m01, b.m02, v0, v1, v2), Dot3(b.m10, b.m11, b.m12, v0, v1, v2),
          Dot3(b.m20, b.m21, b.m22, v0, v1, v2))
  {
  }

  lemma MulAssociative(a: Matrix3, b: Matrix3, c: Matrix3)
    ensures a.Mul(b).Mul(c) == a.Mul(b.Mul(c))
  {
    RowColumn(a.m00, a.m01, a.m02, b, c.m00, c.m10, c.m20);
    RowColumn(a.m00, a.m01, a.m02, b, c.m01, c.m11, c.m21);
    RowColumn(a.m00, a.m01, a.m02, b, c.m02, c.m12, c.m22);
    RowColumn(a.m10, a.m11, a.m12, b, c.m00, c.m10, c.m20);
    RowColumn(a.m10, a.m11, a.m12, b, c.m01, c.m11, c.m21);
    RowColumn(a.m10, a.m11, a.m12, b, c.m02, c.m12, c.m22);
    RowColumn(a.m20, a.m21, a.m22, b, c.m00, c.m10, c.m20);
    RowColumn(a.m20, a.m21, a.m22, b, c.m01, c.m11, c.m21);
    RowColumn(a.m20, a.m21, a.m22, b, c.m02, c.m12, c.m22);
  }

  lemma ApplyOfProduct(a: Matrix3, b: Matrix3, v: Vector3)
    ensures a.Mul(b).Apply(v) == a.Apply(b.Apply(v))
  {
    hide Dot3;
    RowColumn(a.m00, a.m01, a.m02, b, v.a, v.b, v.c);
    RowColumn(a.m10, a.m11, a.m12, b, v.a, v.b, v.c);
    RowColumn(a.m20, a.m21, a.m22, b, v.a, v.b, v.c);
  }

  lemma TransposeOfProduct(a: Matrix3, b: Matrix3)
    ensures a.Mul(b).Transpose() == b.Transpose().Mul(a.Transpose())
  {
  }

  lemma IdentityIsNeutral(m: Matrix3)
    ensures IDENTITY.Mul(m) == m && m.Mul(IDENTITY) == m
  {
  }

  lemma ScaledDot(s: real, u0: real, u1: real, u2: real, v0: real, v1: real, v2: real)
    ensures Dot3(Times(s, u0), Times(s, u1), Times(s, u2), v0, v1, v2) == Times(s, Dot3(u0, u1, u2, v0, v1, v2))
    ensures Dot3(u0, u1, u2, Times(s, v0), Times(s, v1), Times(s, v2)) == Times(s, Dot3(u0, u1, u2, v0, v1, v2))
  {
  }

  lemma ScaleMovesOut(s: real, a: Matrix3, b: Matrix3)
    ensures a.Scale(s).Mul(b) == a.Mul(b).Scale(s)
    ensures a.Mul(b.Scale(s)) == a.Mul(b).Scale(s)
  {
    ScaledDot(s, a.m00, a.m01, a.m02, b.m00, b.m10, b.m20);
    ScaledDot(s, a.m00, a.m01, a.m02, b.m01, b.m11, b.m21);
    ScaledDot(s, a.m00, a.m01, a.m02, b.m02, b.m12, b.m22);
    ScaledDot(s, a.m10, a.m11, a.m12, b.m00, b.m10, b.m20);
    ScaledDot(s, a.m10, a.m11, a.m12, b.m01, b.m11, b.m21);
    ScaledDot(s, a.m10, a.m11, a.m12, b.m02, b.m12, b.m22);
    ScaledDot(s, a.m20, a.m21, a.m22, b.m00, b.m10, b.m20);
    ScaledDot(s, a.m20, a.m21, a.m22, b.m01, b.m11, b.m21);
    ScaledDot(s, a.m20, a.m21, a.m22, b.m02, b.m12, b.m22);
  }

  lemma CancelFactor(s: real, x: real, y: real)
    requires s != 0.0 && Times(s, x) == Times(s, y)
    ensures x == y
  {
  }

  lemma CancelScale(s: real, a: Matrix3, b: Matrix3)
    requires s != 0.0 && a.Scale(s) == b.Scale(s)
    ensures a == b
  {
  }

  /** A row of cofactors against its own column, and against the two others. */
  lemma CofactorRow(a: real, b: real, c: real, d: real, e: real, f: real, g: real, h: real, i: real)
    ensures
      Dot3(Minor(e, f, h, i), Minor(h, i, b, c), Minor(b, c, e, f), a, d, g)
      == Dot3(a, b, c, Minor(e, f, h, i), Minor(f, d, i, g), Minor(d, e, g, h))
    ensures Dot3(Minor(e, f, h, i), Minor(h, i, b, c), Minor(b, c, e, f), b, e, h) == 0.0
    ensures Dot3(Minor(e, f, h, i), Minor(h, i, b, c), Minor(b, c, e, f), c, f, i) == 0.0
  {
    CofactorColumn(a, b, c, d, e, f, g, h, i);
    CofactorZeros(b, c, e, f, h, i);
    hide Dot3, Minor;
  }

  lemma CofactorColumn(a: real, b: real, c: real, d: real, e: real, f: real, g: real, h: real, i: real)
    ensures
      Dot3(Minor(e, f, h, i), Minor(h, i, b, c), Minor(b, c, e, f), a, d, g)
      == Dot3(a, b, c, Minor(e, f, h, i), Minor(f, d, i, g), Minor(d, e, g, h))
  {
  }

  lemma CofactorZeros(b: real, c: real, e: real, f: real, h: real, i: real)
    ensures Dot3(Minor(e, f, h, i), Minor(h, i, b, c), Minor(b, c, e, f), b, e, h) == 0.0
    ensures Dot3(Minor(e, f, h, i), Minor(h, i, b, c), Minor(b, c, e, f), c, f, i) == 0.0
  {
  }

  lemma Dot3Turned(a: real, b: real, c: real, x: real, y: real, z: real)
    ensures Dot3(b, c, a, y, z, x) == Dot3(a, b, c, x, y, z)
  {
  }

  /** Rows of cofactors against columns: the determinant on the diagonal, zero off it. */
  lemma AdjugateEntries(a: real, b: real, c: real, d: real, e: real, f: real, g: real, h: real, i: real)
    ensures
      var det := Dot3(a, b, c, Minor(e, f, h, i), Minor(f, d, i, g), Minor(d, e, g, h));
      && Dot3(Minor(e, f, h, i), Minor(h, i, b, c), Minor(b, c, e, f), a, d, g) == det
      && Dot3(Minor(e, f, h, i), Minor(h, i, b, c), Minor(b, c, e, f), b, e, h) == 0.0
      && Dot3(Minor(e, f, h, i), Minor(h, i, b, c), Minor(b, c, e, f), c, f, i) == 0.0
      && Dot3(Minor(f, d, i, g), Minor(i, g, c, a), Minor(c, a, f, d), a, d, g) == 0.0
      && Dot3(Minor(f, d, i, g), Minor(i, g, c, a), Minor(c, a, f, d), b, e, h) == det
      && Dot3(Minor(f, d, i, g), Minor(i, g, c, a), Minor(c, a, f, d), c, f, i) == 0.0
      && Dot3(Minor(d, e, g, h), Minor(g, h, a, b), Minor(a, b, d, e), a, d, g) == 0.0
      && Dot3(Minor(d, e, g, h), Minor(g, h, a, b), Minor(a, b, d, e), b, e, h) == 0.0
      && Dot3(Minor(d, e, g, h), Minor(g, h, a, b), Minor(a, b, d, e), c, f, i) == det
  {
    hide Dot3, Minor;
    CofactorRow(a, b, c, d, e, f, g, h, i);
    CofactorRow(b, c, a, e, f, d, h, i, g);
    CofactorRow(c, a, b, f, d, e, i, g, h);
    Dot3Turned(a, b, c, Minor(e, f, h, i), Minor(f, d, i, g), Minor(d, e, g, h));
    Dot3Turned(b, c, a, Minor(f, d, i, g), Minor(d, e, g, h), Minor(e, f, h, i));
  }

  lemma AdjugateInverts(m: Matrix3)
    ensures m.Adjugate().Mul(m) == IDENTITY.Scale(m.Determinant())
  {
    AdjugateEntries(m.m00, m.m01, m.m02, m.m10, m.m11, m.m12, m.m20, m.m21, m.m22);
  }

  function Quad(a: real, b: real, c: real, d: real): real {
    a * b * c * d
  }

  lemma ProductOfDots(a: real, b: real, c: real, k: real, l: real, m: real, d: real, e: real, f: real, n: real,
      o: real, p: real)
    ensures
      Times(Dot3(a, b, c, k, l, m), Dot3(d, e, f, n, o, p))
      == Quad(a, k, d, n) + Quad(a, k, e, o) + Quad(a, k, f, p) + Quad(b, l, d, n) + Quad(b, l, e, o) + Quad(b, l, f, p)
       + Quad(c, m, d, n) + Quad(c, m, e, o) + Quad(c, m, f, p)
  {
  }

  lemma ProductOfMinors(a: real, b: real, c: real, d: real, k: real, l: real, m: real, n: real)
    ensures Times(Minor(a, b, c, d), Minor(k, l, m, n))
        == Quad(k, a, n, d) - Quad(l, d, m, a) - Quad(k, b, n, c) + Quad(l, c, m, b)
  {
  }

  lemma MinorIsTimes(a: real, b: real, c: real, d: real)
    ensures Minor(a, b, c, d) == Times(a, d) - Times(b, c)
  {
  }

  lemma Dot3IsTimes(u0: real, u1: real, u2: real, v0: real, v1: real, v2: real)
    ensures Dot3(u0, u1, u2, v0, v1, v2) == Times(u0, v0) + Times(u1, v1) + Times(u2, v2)
  {
  }

  lemma QuadMatches(a: real, b: real, c: real, d: real)
    ensures Quad(a, c, b, d) == Quad(a, d, b, c)
  {
  }

  /** The 2x2 minors of a product, in the minors of its factors (the Cauchy-Binet formula). */
  lemma MinorOfProduct(
      d: real, e: real, f: real, g: real, h: real, i: real,
      p: real, q: real, r: real, s: real, t: real, u: real)
    ensures Minor(Dot3(d, e, f, p, r, t), Dot3(d, e, f, q, s, u), Dot3(g, h, i, p, r, t), Dot3(g, h, i, q, s, u))
         == Dot3(Minor(r, s, t, u), Minor(t, u, p, q), Minor(p, q, r, s), Minor(e, f, h, i), Minor(f, d, i, g),
             Minor(d, e, g, h))
  {
    hide Times, Dot3, Minor, Quad;
    MinorIsTimes(Dot3(d, e, f, p, r, t), Dot3(d, e, f, q, s, u), Dot3(g, h, i, p, r, t), Dot3(g, h, i, q, s, u));
    ProductOfDots(d, e, f, p, r, t, g, h, i, q, s, u);
    ProductOfDots(d, e, f, q, s, u, g, h, i, p, r, t);
    Dot3IsTimes(Minor(r, s, t, u), Minor(t, u, p, q), Minor(p, q, r, s), Minor(e, f, h, i), Minor(f, d, i, g),
        Minor(d, e, g, h));
    ProductOfMinors(r, s, t, u, e, f, h, i);
    ProductOfMinors(t, u, p, q, f, d, i, g);
    ProductOfMinors(p, q, r, s, d, e, g, h);
    QuadMatches(d, g, p, q);
    QuadMatches(e, h, r, s);
    QuadMatches(f, i, t, u);
  }

  lemma AdjugateOfProduct(a: Matrix3, b: Matrix3)
    ensures a.Mul(b).Adjugate() == b.Adjugate().Mul(a.Adjugate())
  {
    AdjugateRows(a.m10, a.m11, a.m12, a.m20, a.m21, a.m22, b);
    AdjugateRows(a.m20, a.m21, a.m22, a.m00, a.m01, a.m02, b);
    AdjugateRows(a.m00, a.m01, a.m02, a.m10, a.m11, a.m12, b);
  }

  lemma AdjugateRows(d: real, e: real, f: real, g: real, h: real, i: real, b: Matrix3)
    ensures
      var x0, x1, x2 := Dot3(d, e, f, b.m00, b.m10, b.m20), Dot3(d, e, f, b.m01, b.m11, b.m21),
          Dot3(d, e, f, b.m02, b.m12, b.m22);
      var y0, y1, y2 := Dot3(g, h, i, b.m00, b.m10, b.m20), Dot3(g, h, i, b.m01, b.m11, b.m21),
          Dot3(g, h, i, b.m02, b.m12, b.m22);
      var adj := b.Adjugate();
      var c0, c1, c2 := Minor(e, f, h, i), Minor(f, d, i, g), Minor(d, e, g, h);
      && Minor(x1, x2, y1, y2) == Dot3(adj.m00, adj.m01, adj.m02, c0, c1, c2)
      && Minor(x2, x0, y2, y0) == Dot3(adj.m10, adj.m11, adj.m12, c0, c1, c2)
      && Minor(x0, x1, y0, y1) == Dot3(adj.m20, adj.m21, adj.m22, c0, c1, c2)
  {
    MinorOfProduct(d, e, f, g, h, i, b.m01, b.m02, b.m11, b.m12, b.m21, b.m22);
    MinorOfProduct(d, e, f, g, h, i, b.m02, b.m00, b.m12, b.m10, b.m22, b.m20);
    MinorOfProduct(d, e, f, g, h, i, b.m00, b.m01, b.m10, b.m11, b.m20, b.m21);
  }

  lemma DiagonalEntry(s: real, t: real, u: real)
    requires IDENTITY.Scale(s) == IDENTITY.Scale(u).Scale(t)
    ensures s == t * u
  {
  }

  lemma DeterminantOfProduct(a: Matrix3, b: Matrix3)
    ensures a.Mul(b).Determinant() == a.Determinant() * b.Determinant()
  {
    var det := a.Determinant();
    hide *;
    AdjugateInverts(a.Mul(b));
    AdjugateOfProduct(a, b);
    MulAssociative(b.Adjugate(), a.Adjugate(), a.Mul(b));
    MulAssociative(a.Adjugate(), a, b);
    AdjugateInverts(a);
    ScaleMovesOut(det, IDENTITY, b);
    IdentityIsNeutral(b);
    ScaleMovesOut(det, b.Adjugate(), b);
    AdjugateInverts(b);
    assert IDENTITY.Scale(a.Mul(b).Determinant()) == IDENTITY.Scale(b.Determinant()).Scale(det);
    DiagonalEntry(a.Mul(b).Determinant(), det, b.Determinant());
  }

  /** A right inverse of a 3x3 matrix is a left inverse too: both are the adjugate over the determinant. */
  lemma RightInverseIsLeftInverse(a: Matrix3, b: Matrix3)
    requires a.Mul(b) == IDENTITY
    ensures a.Determinant() != 0.0
    ensures b.Scale(a.Determinant()) == a.Adjugate()
    ensures b.Mul(a) == IDENTITY
  {
    var det := a.Determinant();
    DeterminantOfProduct(a, b);
    assert IDENTITY.Determinant() == 1.0;
    MulAssociative(a.Adjugate(), a, b);
    AdjugateInverts(a);
    ScaleMovesOut(det, IDENTITY, b);
    IdentityIsNeutral(b);
    IdentityIsNeutral(a.Adjugate());
    ScaleMovesOut(det, b, a);
    CancelScale(det, b.Mul(a), IDENTITY);
  }

  /** The transpose of a rotation is its inverse on both sides, and its adjugate. */
  lemma RotationFacts(m: Matrix3)
    requires m.IsRotation()
    ensures m.Transpose() == m.Adjugate()
    ensures m.Transpose().Mul(m) == IDENTITY
  {
    RightInverseIsLeftInverse(m, m.Transpose());
    assert Times(1.0, m.m00) == m.m00;
    assert m.Transpose().Scale(1.0) == m.Transpose();
  }

  lemma OrthonormalCompose(a: Matrix3, b: Matrix3)
    requires a.IsOrthonormal() && b.IsOrthonormal()
    ensures a.Mul(b).IsOrthonormal()
  {
    TransposeOfProduct(a, b);
    MulAssociative(a, b, b.Transpose().Mul(a.Transpose()));
    MulAssociative(b, b.Transpose(), a.Transpose());
    IdentityIsNeutral(a.Transpose());
  }

  // --- The outer product hidden in a rotation matrix -----------------------------------

  /**
   Linear forms in the entries of `m` that, for the matrix of a unit quaternion q,
   equal 4 * q[i] * q[j]. The extraction divides column `Pivot(m)` of it.
   */
  function Outer(m: Matrix3, i: nat, j: nat): real
    requires i < 4 && j < 4
  {
    match (i, j)
    case (0, 0) => 1.0 + m.m00 - m.m11 - m.m22
    case (1, 1) => 1.0 + m.m11 - m.m00 - m.m22
    case (2, 2) => 1.0 + m.m22 - m.m00 - m.m11
    case (3, 3) => m.m00 + m.m11 + m.m22 + 1.0
    case (0, 1) => m.m01 + m.m10
    case (1, 0) => m.m01 + m.m10
    case (0, 2) => m.m02 + m.m20
    case (2, 0) => m.m02 + m.m20
    case (1, 2) => m.m12 + m.m21
    case (2, 1) => m.m12 + m.m21
    case (0, 3) => m.m21 - m.m12
    case (3, 0) => m.m21 - m.m12
    case (1, 3) => m.m02 - m.m20
    case (3, 1) => m.m02 - m.m20
    case _ => m.m10 - m.m01
  }

  /** All products of two entries in a column of a symmetric 4x4 form are those of a rank one form. */
  predicate RankOne(x2: real, y2: real, z2: real, w2: real, xy: real, xz: real, yz: real, xw: real, yw: real,
      zw: real) {
    && Times(xy, xy) == Times(y2, x2) && Times(xz, xz) == Times(z2, x2) && Times(xw, xw) == Times(w2, x2)
    && Times(yz, yz) == Times(z2, y2) && Times(yw, yw) == Times(w2, y2) && Times(zw, zw) == Times(w2, z2)
    && Times(xy, xz) == Times(yz, x2) && Times(xy, xw) == Times(yw, x2) && Times(xz, xw) == Times(zw, x2)
    && Times(xy, yz) == Times(xz, y2) && Times(xy, yw) == Times(xw, y2) && Times(yz, yw) == Times(zw, y2)
    && Times(xz, yz) == Times(xy, z2) && Times(xz, zw) == Times(xw, z2) && Times(yz, zw) == Times(yw, z2)
    && Times(xw, yw) == Times(xy, w2) && Times(xw, zw) == Times(xz, w2) && Times(yw, zw) == Times(yz, w2)
  }

  /** What orthonormal rows and columns and self-cofactors give: the form Outer has rank one. */
  lemma RankOneEntries(a: real, b: real, c: real, d: real, e: real, f: real, g: real, h: real, i: real)
    requires a * a + b * b + c * c == 1.0 && d * d + e * e + f * f == 1.0 && g * g + h * h + i * i == 1.0
    requires a * d + b * e + c * f == 0.0 && a * g + b * h + c * i == 0.0 && d * g + e * h + f * i == 0.0
    requires a * a + d * d + g * g == 1.0 && b * b + e * e + h * h == 1.0 && c * c + f * f + i * i == 1.0
    requires a * b + d * e + g * h == 0.0 && a * c + d * f + g * i == 0.0 && b * c + e * f + h * i == 0.0
    requires a == e * i - f * h && b == f * g - d * i && c == d * h - e * g
    requires d == h * c - i * b && e == i * a - g * c && f == g * b - h * a
    requires g == b * f - c * e && h == c * d - a * f && i == a * e - b * d
    ensures RankOne(1.0 + a - e - i, 1.0 + e - a - i, 1.0 + i - a - e, a + e + i + 1.0, b + d, c + g, f + h, h - f,
        c - g, d - b)
  {
  }

  /** `RankOneEntries` with the relations as they stand in matrix products and the adjugate. */
  lemma RankOneDots(a: real, b: real, c: real, d: real, e: real, f: real, g: real, h: real, i: real)
    requires Dot3(a, b, c, a, b, c) == 1.0 && Dot3(d, e, f, d, e, f) == 1.0 && Dot3(g, h, i, g, h, i) == 1.0
    requires Dot3(a, b, c, d, e, f) == 0.0 && Dot3(a, b, c, g, h, i) == 0.0 && Dot3(d, e, f, g, h, i) == 0.0
    requires Dot3(a, d, g, a, d, g) == 1.0 && Dot3(b, e, h, b, e, h) == 1.0 && Dot3(c, f, i, c, f, i) == 1.0
    requires Dot3(a, d, g, b, e, h) == 0.0 && Dot3(a, d, g, c, f, i) == 0.0 && Dot3(b, e, h, c, f, i) == 0.0
    requires a == Minor(e, f, h, i) && b == Minor(f, d, i, g) && c == Minor(d, e, g, h)
    requires d == Minor(h, i, b, c) && e == Minor(i, g, c, a) && f == Minor(g, h, a, b)
    requires g == Minor(b, c, e, f) && h == Minor(c, a, f, d) && i == Minor(a, b, d, e)
    ensures RankOne(1.0 + a - e - i, 1.0 + e - a - i, 1.0 + i - a - e, a + e + i + 1.0, b + d, c + g, f + h, h - f,
        c - g, d - b)
  {
    hide *;
    DotIs(a, b, c, a, b, c); DotIs(d, e, f, d, e, f); DotIs(g, h, i, g, h, i);
    DotIs(a, b, c, d, e, f); DotIs(a, b, c, g, h, i); DotIs(d, e, f, g, h, i);
    DotIs(a, d, g, a, d, g); DotIs(b, e, h, b, e, h); DotIs(c, f, i, c, f, i);
    DotIs(a, d, g, b, e, h); DotIs(a, d, g, c, f, i); DotIs(b, e, h, c, f, i);
    MinorIs(e, f, h, i); MinorIs(f, d, i, g); MinorIs(d, e, g, h);
    MinorIs(h, i, b, c); MinorIs(i, g, c, a); MinorIs(g, h, a, b);
    MinorIs(b, c, e, f); MinorIs(c, a, f, d); MinorIs(a, b, d, e);
    RankOneEntries(a, b, c, d, e, f, g, h, i);
  }

  lemma DotIs(u0: real, u1: real, u2: real, v0: real, v1: real, v2: real)
    ensures Dot3(u0, u1, u2, v0, v1, v2) == u0 * v0 + u1 * v1 + u2 * v2
  {
  }

  lemma MinorIs(a: real, b: real, c: real, d: real)
    ensures Minor(a, b, c, d) == a * d - b * c
  {
  }

  lemma TimesCommutes(x: real, y: real)
    ensures Times(x, y) == Times(y, x)
  {
  }

  /** `RankOneEntries` for the entries of a rotation. */
  lemma RotationRankOne(m: Matrix3)
    requires m.IsRotation()
    ensures RankOne(
      Outer(m, 0, 0), Outer(m, 1, 1), Outer(m, 2, 2), Outer(m, 3, 3),
      Outer(m, 0, 1), Outer(m, 0, 2), Outer(m, 1, 2), Outer(m, 0, 3), Outer(m, 1, 3), Outer(m, 2, 3))
  {
    hide Dot3, Minor, RankOne;
    RotationFacts(m);
    assert m.Mul(m.Transpose()) == IDENTITY;
    RankOneDots(m.m00, m.m01, m.m02, m.m10, m.m11, m.m12, m.m20, m.m21, m.m22);
  }

  /** For a rotation, column p of the form determines all of it. */
  lemma OuterHasRankOne(m: Matrix3, i: nat, j: nat, p: nat)
    requires m.IsRotation() && i < 4 && j < 4 && p < 4
    ensures Times(Outer(m, i, p), Outer(m, j, p)) == Times(Outer(m, i, j), Outer(m, p, p))
  {
    RotationRankOne(m);
    TimesCommutes(Outer(m, i, p), Outer(m, j, p));
    TimesCommutes(Outer(m, i, j), Outer(m, p, p));
  }

  // --- From quaternions to matrices ------------------------------------------------------

  /** The matrix entries of q, in products of its components. */
  lemma EntriesOf(q: Quaternion)
    ensures q.SquaredNorm() == Times(q.x, q.x) + Times(q.y, q.y) + Times(q.z, q.z) + Times(q.w, q.w)
    ensures RotationFromQuaternion(q) == Matrix3(
      1.0 - 2.0 * Times(q.y, q.y) - 2.0 * Times(q.z, q.z),
      2.0 * Times(q.x, q.y) - 2.0 * Times(q.z, q.w),
      2.0 * Times(q.x, q.z) + 2.0 * Times(q.y, q.w),
      2.0 * Times(q.x, q.y) + 2.0 * Times(q.z, q.w),
      1.0 - 2.0 * Times(q.x, q.x) - 2.0 * Times(q.z, q.z),
      2.0 * Times(q.y, q.z) - 2.0 * Times(q.x, q.w),
      2.0 * Times(q.x, q.z) - 2.0 * Times(q.y, q.w),
      2.0 * Times(q.y, q.z) + 2.0 * Times(q.x, q.w),
      1.0 - 2.0 * Times(q.x, q.x) - 2.0 * Times(q.y, q.y))
  {
    NormOf(q);
    Twice(q.x, q.x); Twice(q.y, q.x); Twice(q.z, q.x);
    Twice(q.y, q.y); Twice(q.z, q.y); Twice(q.z, q.z);
    Twice(q.x, q.w); Twice(q.y, q.w); Twice(q.z, q.w);
    hide Times, Quaternion.SquaredNorm;
  }

  lemma NormOf(q: Quaternion)
    ensures q.SquaredNorm() == Times(q.x, q.x) + Times(q.y, q.y) + Times(q.z, q.z) + Times(q.w, q.w)
  {
  }

  lemma Twice(x: real, y: real)
    ensures Times(2.0 * x, y) == 2.0 * Times(x, y) == 2.0 * Times(y, x)
  {
  }

  lemma OuterOfUnitQuaternion(q: Quaternion, i: nat, j: nat)
    requires q.IsUnit() && i < 4 && j < 4
    ensures Outer(RotationFromQuaternion(q), i, j) == 4.0 * Times(q.At(i), q.At(j))
  {
    EntriesOf(q);
    TimesCommutes(q.At(i), q.At(j));
    hide RotationFromQuaternion, Times, Quaternion.SquaredNorm;
  }

  /** Conversely, a quaternion whose products match the form of m is unit and has matrix m. */
  lemma MatrixFromOuter(q: Quaternion, m: Matrix3)
    requires forall i, j | 0 <= i < 4 && 0 <= j < 4 :: Outer(m, i, j) == 4.0 * Times(q.At(i), q.At(j))
    ensures q.IsUnit()
    ensures RotationFromQuaternion(q) == m
  {
    EntriesOf(q);
    hide RotationFromQuaternion, Times, Quaternion.SquaredNorm;
    assert Outer(m, 0, 0) == 4.0 * Times(q.x, q.x) && Outer(m, 1, 1) == 4.0 * Times(q.y, q.y);
    assert Outer(m, 2, 2) == 4.0 * Times(q.z, q.z) && Outer(m, 3, 3) == 4.0 * Times(q.w, q.w);
    assert Outer(m, 0, 1) == 4.0 * Times(q.x, q.y) && Outer(m, 0, 2) == 4.0 * Times(q.x, q.z);
    assert Outer(m, 1, 2) == 4.0 * Times(q.y, q.z) && Outer(m, 0, 3) == 4.0 * Times(q.x, q.w);
    assert Outer(m, 1, 3) == 4.0 * Times(q.y, q.w) && Outer(m, 2, 3) == 4.0 * Times(q.z, q.w);
  }

  // --- The round trips --------------------------------------------------------------------

  lemma Quotient(scale: real, x: real)
    requires scale > 0.0
    ensures Times(scale, x / scale) == x
  {
  }

  /** The four branches read one column of the form, each divided by the same scale. */
  lemma ExtractionReadsPivotColumn(m: Matrix3, root: real, i: nat)
    requires IsRoot(root, Radicand(m)) && i < 4
    ensures Radicand(m) == Outer(m, Pivot(m), Pivot(m))
    ensures Times(root * 2.0, QuaternionFromRotation(m, root).At(i)) == Outer(m, i, Pivot(m))
    ensures QuaternionFromRotation(m, root).At(Pivot(m)) == 0.5 * root
  {
    RadicandAtLeastOne(m, root);
    var scale := root * 2.0;
    Quotient(scale, m.m21 - m.m12);
    Quotient(scale, m.m02 - m.m20);
    Quotient(scale, m.m10 - m.m01);
    Quotient(scale, m.m01 + m.m10);
    Quotient(scale, m.m02 + m.m20);
    Quotient(scale, m.m12 + m.m21);
    assert Times(scale, 0.25 * scale) == root * root;
    hide Times;
  }

  /** Twice the scale times two components: what one column says about the whole form. */
  lemma PivotCancels(root: real, qi: real, qj: real, oi: real, oj: real, oij: real)
    requires root >= 1.0
    requires Times(root * 2.0, qi) == oi && Times(root * 2.0, qj) == oj
    requires Times(oi, oj) == Times(oij, root * root)
    ensures oij == 4.0 * Times(qi, qj)
  {
    assert oi * oj == (root * root) * (4.0 * (qi * qj));
    CancelFactor(root * root, oij, 4.0 * (qi * qj));
  }

  /**
   Main result: on SO(3) the extraction is a section of the matrix construction, in all
   four branches, and the quaternion in between has unit norm.
   */
  lemma RotationRoundTrip(m: Matrix3, root: real)
    requires m.IsRotation() && IsRoot(root, Radicand(m))
    ensures QuaternionFromRotation(m, root).IsUnit()
    ensures RotationFromQuaternion(QuaternionFromRotation(m, root)) == m
  {
    var q, p := QuaternionFromRotation(m, root), Pivot(m);
    RadicandAtLeastOne(m, root);
    forall i, j | 0 <= i < 4 && 0 <= j < 4 ensures Outer(m, i, j) == 4.0 * Times(q.At(i), q.At(j)) {
      hide *;
      ExtractionReadsPivotColumn(m, root, i);
      ExtractionReadsPivotColumn(m, root, j);
      OuterHasRankOne(m, i, j, p);
      PivotCancels(root, q.At(i), q.At(j), Outer(m, i, p), Outer(m, j, p), Outer(m, i, j));
    }
    hide *;
    MatrixFromOuter(q, m);
  }

  /**
   Main result: extracting from the matrix of a unit quaternion gives that quaternion or its
   negation, whichever has a positive pivot component; that component is at least 1/2.
   */
  lemma QuaternionRoundTrip(q: Quaternion, root: real)
    requires q.IsUnit() && IsRoot(root, Radicand(RotationFromQuaternion(q)))
    ensures
      var m := RotationFromQuaternion(q);
      var pivot := q.At(Pivot(m));
      && pivot != 0.0
      && QuaternionFromRotation(m, root) == (if pivot > 0.0 then q else q.Scale(-1.0))
      && QuaternionFromRotation(m, root).At(Pivot(m)) >= 0.5
  {
    var m := RotationFromQuaternion(q);
    var p := Pivot(m);
    RadicandAtLeastOne(m, root);
    forall i | 0 <= i < 4
      ensures q.At(p) != 0.0
      ensures QuaternionFromRotation(m, root).At(i) == if q.At(p) > 0.0 then q.At(i) else -q.At(i)
    {
      hide *;
      ExtractionReadsPivotColumn(m, root, p);
      ExtractionReadsPivotColumn(m, root, i);
      OuterOfUnitQuaternion(q, p, p);
      OuterOfUnitQuaternion(q, i, p);
      SignOfPivot(root, q.At(p), q.At(i), QuaternionFromRotation(m, root).At(i));
    }
    ExtractionReadsPivotColumn(m, root, p);
    hide RotationFromQuaternion, QuaternionFromRotation;
    assert forall i | 0 <= i < 4 :: q.Scale(-1.0).At(i) == -q.At(i);
    SameComponents(QuaternionFromRotation(m, root), if q.At(p) > 0.0 then q else q.Scale(-1.0));
  }

  lemma SameComponents(p: Quaternion, q: Quaternion)
    requires forall i | 0 <= i < 4 :: p.At(i) == q.At(i)
    ensures p == q
  {
    assert p.At(0) == p.x && p.At(1) == p.y && p.At(2) == p.z && p.At(3) == p.w;
    assert q.At(0) == q.x && q.At(1) == q.y && q.At(2) == q.z && q.At(3) == q.w;
  }

  lemma SignOfPivot(root: real, qp: real, qi: real, ri: real)
    requires root >= 1.0 && root * root == 4.0 * Times(qp, qp)
    requires Times(root * 2.0, ri) == 4.0 * Times(qi, qp)
    ensures qp != 0.0
    ensures ri == if qp > 0.0 then qi else -qi
  {
    assert (root - 2.0 * qp) * (root + 2.0 * qp) == 0.0;
    var a := if qp > 0.0 then 2.0 * qp else -2.0 * qp;
    assert a == root;
    CancelFactor(2.0 * root, ri, if qp > 0.0 then qi else -qi);
  }

  lemma RadicandIsPivotEntry(m: Matrix3)
    ensures Radicand(m) == Outer(m, Pivot(m), Pivot(m))
  {
  }

  lemma RootOfSquare(x: real) returns (root: real)
    ensures IsRoot(root, 4.0 * Times(x, x))
  {
    root := if x < 0.0 then -2.0 * x else 2.0 * x;
  }

  /** The root the extraction takes is rational in the quaternion, so it exists. */
  lemma RootOfUnitQuaternion(q: Quaternion) returns (root: real)
    requires q.IsUnit()
    ensures IsRoot(root, Radicand(RotationFromQuaternion(q)))
  {
    var m := RotationFromQuaternion(q);
    hide *;
    RadicandIsPivotEntry(m);
    OuterOfUnitQuaternion(q, Pivot(m), Pivot(m));
    root := RootOfSquare(q.At(Pivot(m)));
  }

  lemma NegatedTwice(q: Quaternion)
    ensures q.Scale(-1.0).Scale(-1.0) == q
  {
  }

  /** A quaternion and its negation have the same products of components, and so the same matrix. */
  lemma MatrixOfNegated(q: Quaternion)
    ensures RotationFromQuaternion(q.Scale(-1.0)) == RotationFromQuaternion(q)
  {
    var r := q.Scale(-1.0);
    EntriesOf(q);
    EntriesOf(r);
    ScaledProducts(q, -1.0, 1.0);
    TimesOne();
    hide RotationFromQuaternion, Quaternion.SquaredNorm, Quaternion.Scale, Times;
  }

  lemma TimesOne()
    ensures forall x :: Times(1.0, x) == x
  {
  }

  /** Main result: two unit quaternions have the same matrix exactly when they are equal up to sign. */
  lemma SameMatrixUpToSign(p: Quaternion, q: Quaternion)
    requires p.IsUnit() && q.IsUnit()
    ensures RotationFromQuaternion(p) == RotationFromQuaternion(q) <==> p == q || p == q.Scale(-1.0)
  {
    hide RotationFromQuaternion, QuaternionFromRotation, Quaternion.Scale, Quaternion.At, Quaternion.IsUnit;
    hide Quaternion.SquaredNorm, Pivot, Radicand, IsRoot;
    if RotationFromQuaternion(p) == RotationFromQuaternion(q) {
      var root := RootOfUnitQuaternion(p);
      QuaternionRoundTrip(p, root);
      QuaternionRoundTrip(q, root);
      NegatedTwice(p);
      NegatedTwice(q);
    }
    MatrixOfNegated(q);
  }

  // --- What the matrix of a non-unit quaternion is ----------------------------------------------

  /** [v]^2 for the vector part v of q, where [v] is the cross-product matrix. */
  function CrossSquared(q: Quaternion): Matrix3 {
    Matrix3(
      -(Times(q.y, q.y) + Times(q.z, q.z)), Times(q.x, q.y), Times(q.x, q.z),
      Times(q.x, q.y), -(Times(q.x, q.x) + Times(q.z, q.z)), Times(q.y, q.z),
      Times(q.x, q.z), Times(q.y, q.z), -(Times(q.x, q.x) + Times(q.y, q.y)))
  }

  /** The products of a row (a, b, c) of the matrix of q with itself. */
  lemma RowWithItself(x: real, y: real, z: real, w: real, excess: real, s00: real, a: real, b: real, c: real)
    requires excess == 4.0 * (1.0 - (Times(x, x) + Times(y, y) + Times(z, z) + Times(w, w)))
    requires s00 == -(Times(y, y) + Times(z, z))
    requires a == 1.0 - 2.0 * Times(y, y) - 2.0 * Times(z, z)
    requires b == 2.0 * Times(x, y) - 2.0 * Times(z, w)
    requires c == 2.0 * Times(x, z) + 2.0 * Times(y, w)
    ensures Dot3(a, b, c, a, b, c) == 1.0 + Times(excess, s00)
  {
  }

  /** The products of a row (a, b, c) of the matrix of q with the next row (d, e, f). */
  lemma RowWithNext(
      x: real, y: real, z: real, w: real, excess: real, s01: real,
      a: real, b: real, c: real, d: real, e: real, f: real)
    requires excess == 4.0 * (1.0 - (Times(x, x) + Times(y, y) + Times(z, z) + Times(w, w)))
    requires s01 == Times(x, y)
    requires a == 1.0 - 2.0 * Times(y, y) - 2.0 * Times(z, z)
    requires b == 2.0 * Times(x, y) - 2.0 * Times(z, w)
    requires c == 2.0 * Times(x, z) + 2.0 * Times(y, w)
    requires d == 2.0 * Times(x, y) + 2.0 * Times(z, w)
    requires e == 1.0 - 2.0 * Times(x, x) - 2.0 * Times(z, z)
    requires f == 2.0 * Times(y, z) - 2.0 * Times(x, w)
    ensures Dot3(a, b, c, d, e, f) == Times(excess, s01)
  {
  }

  lemma RotateDot(a: real, b: real, c: real, d: real, e: real, f: real)
    ensures Dot3(b, c, a, e, f, d) == Dot3(a, b, c, d, e, f) == Dot3(d, e, f, a, b, c)
  {
  }

  /** M(q) M(q)^T == I + 4 (1 - |q|^2) [v]^2. */
  lemma GramOfMatrix(q: Quaternion)
    ensures RotationFromQuaternion(q).Mul(RotationFromQuaternion(q).Transpose())
         == IDENTITY.Plus(CrossSquared(q).Scale(4.0 * (1.0 - q.SquaredNorm())))
  {
    var m, s, excess := RotationFromQuaternion(q), CrossSquared(q), 4.0 * (1.0 - q.SquaredNorm());
    EntriesOf(q);
    TimesCommutes(q.x, q.y); TimesCommutes(q.y, q.z); TimesCommutes(q.x, q.z);
    hide RotationFromQuaternion, Times, Dot3, Quaternion.SquaredNorm;
    RowWithItself(q.x, q.y, q.z, q.w, excess, s.m00, m.m00, m.m01, m.m02);
    RowWithNext(q.x, q.y, q.z, q.w, excess, s.m01, m.m00, m.m01, m.m02, m.m10, m.m11, m.m12);
    RowWithItself(q.y, q.z, q.x, q.w, excess, s.m11, m.m11, m.m12, m.m10);
    RowWithNext(q.y, q.z, q.x, q.w, excess, s.m12, m.m11, m.m12, m.m10, m.m21, m.m22, m.m20);
    RowWithItself(q.z, q.x, q.y, q.w, excess, s.m22, m.m22, m.m20, m.m21);
    RowWithNext(q.z, q.x, q.y, q.w, excess, s.m20, m.m22, m.m20, m.m21, m.m02, m.m00, m.m01);
    RotateDot(m.m00, m.m01, m.m02, m.m10, m.m11, m.m12);
    RotateDot(m.m10, m.m11, m.m12, m.m10, m.m11, m.m12);
    RotateDot(m.m10, m.m11, m.m12, m.m20, m.m21, m.m22);
    RotateDot(m.m20, m.m21, m.m22, m.m00, m.m01, m.m02);
    RotateDot(m.m22, m.m20, m.m21, m.m02, m.m00, m.m01);
    RotateDot(m.m22, m.m20, m.m21, m.m22, m.m20, m.m21);
  }

  /** M(s q) - I == s^2 (M(q) - I). */
  lemma MatrixOfScaled(q: Quaternion, s: real)
    ensures RotationFromQuaternion(q.Scale(s)).Plus(IDENTITY.Scale(-1.0))
         == RotationFromQuaternion(q).Plus(IDENTITY.Scale(-1.0)).Scale(s * s)
  {
    var r, t := q.Scale(s), s * s;
    EntriesOf(q);
    EntriesOf(r);
    ScaledProducts(q, s, t);
    NegatedIdentity();
    hide RotationFromQuaternion, Quaternion.SquaredNorm, Quaternion.Scale, Times;
    ScaledEntry(t, Times(q.y, q.y), Times(q.z, q.z));
    ScaledEntry(t, Times(q.x, q.x), Times(q.z, q.z));
    ScaledEntry(t, Times(q.x, q.x), Times(q.y, q.y));
    ScaledEntry(t, Times(q.x, q.y), Times(q.z, q.w));
    ScaledEntry(t, Times(q.x, q.z), Times(q.y, q.w));
    ScaledEntry(t, Times(q.y, q.z), Times(q.x, q.w));
  }

  lemma ScaledProducts(q: Quaternion, s: real, t: real)
    requires t == s * s
    ensures
      var r := q.Scale(s);
      && Times(r.x, r.x) == Times(t, Times(q.x, q.x)) && Times(r.x, r.y) == Times(t, Times(q.x, q.y))
      && Times(r.x, r.z) == Times(t, Times(q.x, q.z)) && Times(r.x, r.w) == Times(t, Times(q.x, q.w))
      && Times(r.y, r.y) == Times(t, Times(q.y, q.y)) && Times(r.y, r.z) == Times(t, Times(q.y, q.z))
      && Times(r.y, r.w) == Times(t, Times(q.y, q.w)) && Times(r.z, r.z) == Times(t, Times(q.z, q.z))
      && Times(r.z, r.w) == Times(t, Times(q.z, q.w))
  {
    var r := q.Scale(s);
    assert r == Quaternion(s * q.x, s * q.y, s * q.z, s * q.w);
    hide Times, Quaternion.Scale;
    ScaledProduct(s, t, q.x, q.x, r.x, r.x); ScaledProduct(s, t, q.x, q.y, r.x, r.y);
    ScaledProduct(s, t, q.x, q.z, r.x, r.z);
    ScaledProduct(s, t, q.x, q.w, r.x, r.w); ScaledProduct(s, t, q.y, q.y, r.y, r.y);
    ScaledProduct(s, t, q.y, q.z, r.y, r.z);
    ScaledProduct(s, t, q.y, q.w, r.y, r.w); ScaledProduct(s, t, q.z, q.z, r.z, r.z);
    ScaledProduct(s, t, q.z, q.w, r.z, r.w);
  }

  lemma ScaledProduct(s: real, t: real, x: real, y: real, sx: real, sy: real)
    requires t == s * s && sx == s * x && sy == s * y
    ensures Times(sx, sy) == Times(t, Times(x, y))
  {
  }

  lemma NegatedIdentity()
    ensures IDENTITY.Scale(-1.0) == Matrix3(-1.0, 0.0, 0.0, 0.0, -1.0, 0.0, 0.0, 0.0, -1.0)
  {
  }

  lemma ScaledTimes(s: real, x: real, y: real)
    ensures Times(s * x, s * y) == Times(s * s, Times(x, y))
  {
  }

  lemma ScaledEntry(t: real, u: real, v: real)
    ensures Times(t, -2.0 * u - 2.0 * v) == -2.0 * Times(t, u) - 2.0 * Times(t, v)
    ensures Times(t, 2.0 * u - 2.0 * v) == 2.0 * Times(t, u) - 2.0 * Times(t, v)
    ensures Times(t, 2.0 * u + 2.0 * v) == 2.0 * Times(t, u) + 2.0 * Times(t, v)
  {
  }

  /** Main result: the matrix of q is orthonormal exactly when q is unit or has no vector part. */
  lemma OrthonormalIff(q: Quaternion)
    ensures RotationFromQuaternion(q).IsOrthonormal() <==> q.IsUnit() || (q.x == 0.0 && q.y == 0.0 && q.z == 0.0)
  {
    var s, excess := CrossSquared(q), 4.0 * (1.0 - q.SquaredNorm());
    GramOfMatrix(q);
    hide RotationFromQuaternion, Quaternion.SquaredNorm, Matrix3.Mul, Times;
    assert RotationFromQuaternion(q).IsOrthonormal() <==> IDENTITY.Plus(s.Scale(excess)) == IDENTITY;
    if q.IsUnit() || (q.x == 0.0 && q.y == 0.0 && q.z == 0.0) {
      TimesZero(excess, s.m00); TimesZero(excess, s.m11); TimesZero(excess, s.m22);
      TimesZero(excess, s.m01); TimesZero(excess, s.m02); TimesZero(excess, s.m12);
      TimesZero(q.x, q.x); TimesZero(q.y, q.y); TimesZero(q.z, q.z);
      TimesZero(q.x, q.y); TimesZero(q.x, q.z); TimesZero(q.y, q.z);
    } else if IDENTITY.Plus(s.Scale(excess)) == IDENTITY {
      SumOfSquaresIsZero(excess, q.y, q.z);
      SumOfSquaresIsZero(excess, q.x, q.z);
    }
  }

  lemma TimesZero(x: real, y: real)
    ensures x == 0.0 || y == 0.0 ==> Times(x, y) == 0.0
  {
  }

  lemma SquaresSumToZero(u: real, v: real)
    requires Times(u, u) + Times(v, v) == 0.0
    ensures u == 0.0 && v == 0.0
  {
    SquarePositive(u);
    SquarePositive(v);
    hide Times;
  }

  lemma SquarePositive(u: real)
    ensures Times(u, u) >= 0.0 && (u != 0.0 ==> Times(u, u) > 0.0)
  {
    hide Times;
    TimesZero(u, u);
    if u > 0.0 {
      PositiveTimes(u, u);
    } else if u < 0.0 {
      PositiveTimes(-u, -u);
    }
  }

  lemma PositiveTimes(x: real, y: real)
    requires x > 0.0 && y > 0.0
    ensures Times(x, y) > 0.0 && Times(x, y) == Times(-x, -y)
  {
  }

  lemma SumOfSquaresIsZero(t: real, u: real, v: real)
    requires t != 0.0 && Times(t, -(Times(u, u) + Times(v, v))) == 0.0
    ensures u == 0.0 && v == 0.0
  {
    hide Times;
    TimesZero(t, 0.0);
    CancelFactor(t, -(Times(u, u) + Times(v, v)), 0.0);
    SquaresSumToZero(u, v);
  }

  /** A cofactor of the matrix of q differs from the entry it belongs to by 4 (1 - |q|^2) v v^T. */
  lemma CofactorEntries(
      x: real, y: real, z: real, w: real,
      b: real, c: real, d: real, e: real, f: real, g: real, h: real, i: real)
    requires Times(x, x) + Times(y, y) + Times(z, z) + Times(w, w) == 1.0
    requires b == 2.0 * Times(x, y) - 2.0 * Times(z, w) && c == 2.0 * Times(x, z) + 2.0 * Times(y, w)
    requires d == 2.0 * Times(x, y) + 2.0 * Times(z, w) && g == 2.0 * Times(x, z) - 2.0 * Times(y, w)
    requires e == 1.0 - 2.0 * Times(x, x) - 2.0 * Times(z, z) && i == 1.0 - 2.0 * Times(x, x) - 2.0 * Times(y, y)
    requires f == 2.0 * Times(y, z) - 2.0 * Times(x, w) && h == 2.0 * Times(y, z) + 2.0 * Times(x, w)
    ensures Minor(e, f, h, i) == 1.0 - 2.0 * Times(y, y) - 2.0 * Times(z, z)
    ensures Minor(f, d, i, g) == b
    ensures Minor(d, e, g, h) == c
  {
    DiagonalCofactor(x, y, z, w, e, f, h, i);
    NextCofactor(x, y, z, w, b, d, f, g, i);
    LastCofactor(x, y, z, w, c, d, e, g, h);
    hide Times, Minor;
  }

  lemma DiagonalCofactor(x: real, y: real, z: real, w: real, e: real, f: real, h: real, i: real)
    requires Times(x, x) + Times(y, y) + Times(z, z) + Times(w, w) == 1.0
    requires e == 1.0 - 2.0 * Times(x, x) - 2.0 * Times(z, z) && i == 1.0 - 2.0 * Times(x, x) - 2.0 * Times(y, y)
    requires f == 2.0 * Times(y, z) - 2.0 * Times(x, w) && h == 2.0 * Times(y, z) + 2.0 * Times(x, w)
    ensures Minor(e, f, h, i) == 1.0 - 2.0 * Times(y, y) - 2.0 * Times(z, z)
  {
    var spare := 1.0 - (x * x + y * y + z * z + w * w);
    assert (1.0 - 2.0 * x * x - 2.0 * z * z) * (1.0 - 2.0 * x * x - 2.0 * y * y)
        - (2.0 * y * z - 2.0 * x * w) * (2.0 * y * z + 2.0 * x * w)
        == 1.0 - 2.0 * y * y - 2.0 * z * z - 4.0 * spare * x * x;
  }

  lemma NextCofactor(x: real, y: real, z: real, w: real, b: real, d: real, f: real, g: real, i: real)
    requires Times(x, x) + Times(y, y) + Times(z, z) + Times(w, w) == 1.0
    requires b == 2.0 * Times(x, y) - 2.0 * Times(z, w) && d == 2.0 * Times(x, y) + 2.0 * Times(z, w)
    requires f == 2.0 * Times(y, z) - 2.0 * Times(x, w) && g == 2.0 * Times(x, z) - 2.0 * Times(y, w)
    requires i == 1.0 - 2.0 * Times(x, x) - 2.0 * Times(y, y)
    ensures Minor(f, d, i, g) == b
  {
    var spare := 1.0 - (x * x + y * y + z * z + w * w);
    assert (2.0 * y * z - 2.0 * x * w) * (2.0 * x * z - 2.0 * y * w)
        - (2.0 * x * y + 2.0 * z * w) * (1.0 - 2.0 * x * x - 2.0 * y * y)
        == 2.0 * x * y - 2.0 * z * w - 4.0 * x * y * spare;
  }

  lemma LastCofactor(x: real, y: real, z: real, w: real, c: real, d: real, e: real, g: real, h: real)
    requires Times(x, x) + Times(y, y) + Times(z, z) + Times(w, w) == 1.0
    requires c == 2.0 * Times(x, z) + 2.0 * Times(y, w) && d == 2.0 * Times(x, y) + 2.0 * Times(z, w)
    requires e == 1.0 - 2.0 * Times(x, x) - 2.0 * Times(z, z)
    requires g == 2.0 * Times(x, z) - 2.0 * Times(y, w) && h == 2.0 * Times(y, z) + 2.0 * Times(x, w)
    ensures Minor(d, e, g, h) == c
  {
    var spare := 1.0 - (x * x + y * y + z * z + w * w);
    assert (2.0 * x * y + 2.0 * z * w) * (2.0 * y * z + 2.0 * x * w)
        - (1.0 - 2.0 * x * x - 2.0 * z * z) * (2.0 * x * z - 2.0 * y * w)
        == 2.0 * x * z + 2.0 * y * w - 4.0 * x * z * spare;
  }

  /** The matrix of a unit quaternion is its own matrix of cofactors, and a rotation. */
  lemma UnitGivesRotation(q: Quaternion)
    requires q.IsUnit()
    ensures RotationFromQuaternion(q).IsRotation()
  {
    var m := RotationFromQuaternion(q);
    OrthonormalIff(q);
    EntriesOf(q);
    TimesCommutes(q.x, q.y); TimesCommutes(q.y, q.z); TimesCommutes(q.x, q.z);
    hide RotationFromQuaternion, Times, Dot3, Minor, Quaternion.SquaredNorm;
    CofactorEntries(q.x, q.y, q.z, q.w, m.m01, m.m02, m.m10, m.m11, m.m12, m.m20, m.m21, m.m22);
    assert m.Mul(m.Transpose()).m00 == 1.0;
  }

  /**
   The docstring says a non-unit quaternion gives the rotation scaled by the squared norm.
   For a unit q that holds of s q exactly when s is 1 or -1.
   */
  lemma ScaledBySquaredNormIff(q: Quaternion, s: real)
    requires q.IsUnit()
    ensures q.Scale(s).SquaredNorm() == s * s
    ensures RotationFromQuaternion(q.Scale(s)) == RotationFromQuaternion(q).Scale(s * s) <==> s == 1.0 || s == -1.0
  {
    var m, r, t := RotationFromQuaternion(q), RotationFromQuaternion(q.Scale(s)), s * s;
    EntriesOf(q);
    EntriesOf(q.Scale(s));
    ScaledTimes(s, q.x, q.x); ScaledTimes(s, q.y, q.y); ScaledTimes(s, q.z, q.z); ScaledTimes(s, q.w, q.w);
    MatrixOfScaled(q, s);
    assert q.SquaredNorm() == 1.0;
    hide *;
    assert q.Scale(s) == Quaternion(s * q.x, s * q.y, s * q.z, s * q.w) by {
      ScaleIs(q, s);
    }
    SumOfTimes(t, Times(q.x, q.x), Times(q.y, q.y), Times(q.z, q.z), Times(q.w, q.w));
    SquareIsOne(s);
    StretchIff(m, r, t);
  }

  lemma ScaleIs(q: Quaternion, s: real)
    ensures q.Scale(s) == Quaternion(s * q.x, s * q.y, s * q.z, s * q.w)
  {
  }

  lemma StretchIff(m: Matrix3, r: Matrix3, t: real)
    requires r.Plus(IDENTITY.Scale(-1.0)) == m.Plus(IDENTITY.Scale(-1.0)).Scale(t)
    ensures r == m.Scale(t) <==> t == 1.0
  {
    NegatedIdentity();
    StretchEntry(t, m.m00);
    StretchEntry(t, m.m11);
    StretchEntry(t, m.m22);
    hide Times;
  }

  lemma SumOfTimes(t: real, a: real, b: real, c: real, d: real)
    ensures Times(t, a) + Times(t, b) + Times(t, c) + Times(t, d) == Times(t, a + b + c + d)
    ensures Times(t, 1.0) == t
  {
  }

  lemma SquareIsOne(s: real)
    ensures s * s == 1.0 <==> s == 1.0 || s == -1.0
  {
    assert (s - 1.0) * (s + 1.0) == s * s - 1.0;
  }

  lemma StretchEntry(t: real, x: real)
    ensures Times(t, x - 1.0) + 1.0 == Times(t, x) <==> t == 1.0
  {
  }

  // --- What the matrix does to a vector, and the matrix of a product ---------------------------------

  function Pure(v: Vector3): Quaternion {
    Quaternion(v.a, v.b, v.c, 0.0)
  }

  function DiagonalForm(x: real, y: real, z: real, w: real): real {
    w * w + x * x - y * y - z * z
  }

  function MinusForm(x: real, y: real, z: real, w: real): real {
    2.0 * x * y - 2.0 * z * w
  }

  function PlusForm(x: real, y: real, z: real, w: real): real {
    2.0 * x * y + 2.0 * z * w
  }

  /** The matrix of q with 1 replaced by |q|^2: equal to the matrix of q when q is unit. */
  function Homogeneous(q: Quaternion): Matrix3 {
    Matrix3(
      DiagonalForm(q.x, q.y, q.z, q.w), MinusForm(q.x, q.y, q.z, q.w), PlusForm(q.z, q.x, q.y, q.w),
      PlusForm(q.x, q.y, q.z, q.w), DiagonalForm(q.y, q.z, q.x, q.w), MinusForm(q.y, q.z, q.x, q.w),
      MinusForm(q.z, q.x, q.y, q.w), PlusForm(q.y, q.z, q.x, q.w), DiagonalForm(q.z, q.x, q.y, q.w))
  }

  lemma FormsOf(x: real, y: real, z: real, w: real)
    ensures DiagonalForm(x, y, z, w) == Times(w, w) + Times(x, x) - Times(y, y) - Times(z, z)
    ensures MinusForm(x, y, z, w) == 2.0 * Times(x, y) - 2.0 * Times(z, w)
    ensures PlusForm(x, y, z, w) == 2.0 * Times(x, y) + 2.0 * Times(z, w)
  {
  }

  lemma HomogeneousOfUnit(q: Quaternion)
    requires q.IsUnit()
    ensures Homogeneous(q) == RotationFromQuaternion(q)
  {
    EntriesOf(q);
    FormsOf(q.x, q.y, q.z, q.w);
    FormsOf(q.y, q.z, q.x, q.w);
    FormsOf(q.z, q.x, q.y, q.w);
    TimesCommutes(q.x, q.z);
    hide RotationFromQuaternion, Times, Quaternion.SquaredNorm, DiagonalForm, MinusForm, PlusForm;
  }

  /** The x and w components of q v q*; y and z follow by renaming the axes. */
  lemma SandwichEntries(a: real, b: real, c: real, d: real, u: real, v: real, w: real)
    ensures
      var p := HamiltonX(a, b, c, d, u, v, w, 0.0);
      var q := HamiltonX(b, c, a, d, v, w, u, 0.0);
      var r := HamiltonX(c, a, b, d, w, u, v, 0.0);
      var s := HamiltonW(a, b, c, d, u, v, w, 0.0);
      && HamiltonX(p, q, r, s, -a, -b, -c, d)
          == Dot3(DiagonalForm(a, b, c, d), MinusForm(a, b, c, d), PlusForm(c, a, b, d), u, v, w)
      && HamiltonW(p, q, r, s, -a, -b, -c, d) == 0.0
  {
  }

  lemma RenamedW(a: real, b: real, c: real, d: real, x: real, y: real, z: real, w: real)
    ensures HamiltonW(a, b, c, d, x, y, z, w) == HamiltonW(b, c, a, d, y, z, x, w) == HamiltonW(c, a, b, d, z, x, y, w)
  {
  }

  lemma HamiltonXIsTimes(a: real, b: real, c: real, d: real, x: real, y: real, z: real, w: real)
    ensures HamiltonX(a, b, c, d, x, y, z, w) == Times(d, x) + Times(a, w) + Times(b, z) - Times(c, y)
  {
  }

  lemma HamiltonWIsTimes(a: real, b: real, c: real, d: real, x: real, y: real, z: real, w: real)
    ensures HamiltonW(a, b, c, d, x, y, z, w) == Times(d, w) - Times(a, x) - Times(b, y) - Times(c, z)
  {
  }

  lemma TimesX(a: real, b: real, c: real, d: real, x: real, y: real, z: real, w: real, k: real)
    ensures
      Times(HamiltonX(a, b, c, d, x, y, z, w), k)
      == Triple(d, x, k) + Triple(a, w, k) + Triple(b, z, k) - Triple(c, y, k)
    ensures
      Times(k, HamiltonX(a, b, c, d, x, y, z, w))
      == Triple(k, d, x) + Triple(k, a, w) + Triple(k, b, z) - Triple(k, c, y)
  {
  }

  lemma TimesW(a: real, b: real, c: real, d: real, x: real, y: real, z: real, w: real, k: real)
    ensures
      Times(HamiltonW(a, b, c, d, x, y, z, w), k)
      == Triple(d, w, k) - Triple(a, x, k) - Triple(b, y, k) - Triple(c, z, k)
    ensures
      Times(k, HamiltonW(a, b, c, d, x, y, z, w))
      == Triple(k, d, w) - Triple(k, a, x) - Triple(k, b, y) - Triple(k, c, z)
  {
  }

  /** The x component of the product of three quaternions, bracketed either way. */
  lemma AssociativeX(
      a: real, b: real, c: real, d: real, e: real, f: real, g: real, h: real, i: real, j: real, k: real, l: real)
    ensures
      HamiltonX(
        HamiltonX(a, b, c, d, e, f, g, h), HamiltonX(b, c, a, d, f, g, e, h), HamiltonX(c, a, b, d, g, e, f, h),
        HamiltonW(a, b, c, d, e, f, g, h), i, j, k, l)
      == HamiltonX(
        a, b, c, d,
        HamiltonX(e, f, g, h, i, j, k, l), HamiltonX(f, g, e, h, j, k, i, l), HamiltonX(g, e, f, h, k, i, j, l),
        HamiltonW(e, f, g, h, i, j, k, l))
  {
    hide HamiltonX, HamiltonW, Times, Triple;
    var x, y, z := HamiltonX(a, b, c, d, e, f, g, h), HamiltonX(b, c, a, d, f, g, e, h),
        HamiltonX(c, a, b, d, g, e, f, h);
    var w := HamiltonW(a, b, c, d, e, f, g, h);
    var s, t, u := HamiltonX(e, f, g, h, i, j, k, l), HamiltonX(f, g, e, h, j, k, i, l),
        HamiltonX(g, e, f, h, k, i, j, l);
    var v := HamiltonW(e, f, g, h, i, j, k, l);
    HamiltonXIsTimes(x, y, z, w, i, j, k, l);
    HamiltonXIsTimes(a, b, c, d, s, t, u, v);
    TimesX(a, b, c, d, e, f, g, h, l); TimesX(b, c, a, d, f, g, e, h, k);
    TimesX(c, a, b, d, g, e, f, h, j); TimesW(a, b, c, d, e, f, g, h, i);
    TimesX(e, f, g, h, i, j, k, l, d); TimesW(e, f, g, h, i, j, k, l, a);
    TimesX(g, e, f, h, k, i, j, l, b); TimesX(f, g, e, h, j, k, i, l, c);
  }

  lemma AssociativeW(
      a: real, b: real, c: real, d: real, e: real, f: real, g: real, h: real, i: real, j: real, k: real, l: real)
    ensures
      HamiltonW(
        HamiltonX(a, b, c, d, e, f, g, h), HamiltonX(b, c, a, d, f, g, e, h), HamiltonX(c, a, b, d, g, e, f, h),
        HamiltonW(a, b, c, d, e, f, g, h), i, j, k, l)
      == HamiltonW(
        a, b, c, d,
        HamiltonX(e, f, g, h, i, j, k, l), HamiltonX(f, g, e, h, j, k, i, l), HamiltonX(g, e, f, h, k, i, j, l),
        HamiltonW(e, f, g, h, i, j, k, l))
  {
    hide HamiltonX, HamiltonW, Times, Triple;
    var x, y, z := HamiltonX(a, b, c, d, e, f, g, h), HamiltonX(b, c, a, d, f, g, e, h),
        HamiltonX(c, a, b, d, g, e, f, h);
    var w := HamiltonW(a, b, c, d, e, f, g, h);
    var s, t, u := HamiltonX(e, f, g, h, i, j, k, l), HamiltonX(f, g, e, h, j, k, i, l),
        HamiltonX(g, e, f, h, k, i, j, l);
    var v := HamiltonW(e, f, g, h, i, j, k, l);
    HamiltonWIsTimes(x, y, z, w, i, j, k, l);
    HamiltonWIsTimes(a, b, c, d, s, t, u, v);
    TimesX(a, b, c, d, e, f, g, h, i); TimesX(b, c, a, d, f, g, e, h, j);
    TimesX(c, a, b, d, g, e, f, h, k); TimesW(a, b, c, d, e, f, g, h, l);
    TimesW(e, f, g, h, i, j, k, l, d); TimesX(e, f, g, h, i, j, k, l, a);
    TimesX(f, g, e, h, j, k, i, l, b); TimesX(g, e, f, h, k, i, j, l, c);
  }

  lemma HamiltonAssociative(p: Quaternion, q: Quaternion, r: Quaternion)
    ensures Hamilton(Hamilton(p, q), r) == Hamilton(p, Hamilton(q, r))
  {
    hide HamiltonX, HamiltonW;
    AssociativeX(p.x, p.y, p.z, p.w, q.x, q.y, q.z, q.w, r.x, r.y, r.z, r.w);
    AssociativeX(p.y, p.z, p.x, p.w, q.y, q.z, q.x, q.w, r.y, r.z, r.x, r.w);
    AssociativeX(p.z, p.x, p.y, p.w, q.z, q.x, q.y, q.w, r.z, r.x, r.y, r.w);
    AssociativeW(p.x, p.y, p.z, p.w, q.x, q.y, q.z, q.w, r.x, r.y, r.z, r.w);
    RenamedW(p.x, p.y, p.z, p.w, q.x, q.y, q.z, q.w);
    RenamedW(q.x, q.y, q.z, q.w, r.x, r.y, r.z, r.w);
  }

  lemma ConjugateOfProduct(p: Quaternion, q: Quaternion)
    ensures Hamilton(p, q).Conjugate() == Hamilton(q.Conjugate(), p.Conjugate())
  {
  }

  /** q v q* == H(q) v, with H the homogeneous matrix. */
  lemma Sandwich(q: Quaternion, v: Vector3)
    ensures Hamilton(Hamilton(q, Pure(v)), q.Conjugate()) == Pure(Homogeneous(q).Apply(v))
  {
    var m := Homogeneous(q);
    SandwichEntries(q.x, q.y, q.z, q.w, v.a, v.b, v.c);
    SandwichEntries(q.y, q.z, q.x, q.w, v.b, v.c, v.a);
    SandwichEntries(q.z, q.x, q.y, q.w, v.c, v.a, v.b);
    RenamedW(q.x, q.y, q.z, q.w, v.a, v.b, v.c, 0.0);
    hide HamiltonX, HamiltonW, Dot3, DiagonalForm, MinusForm, PlusForm;
    RotateDot(m.m10, m.m11, m.m12, v.a, v.b, v.c);
    RotateDot(m.m22, m.m20, m.m21, v.c, v.a, v.b);
  }

  /** Main result: the matrix of a unit quaternion sends v to the vector part of q v q*. */
  lemma MatrixActsAsSandwich(q: Quaternion, v: Vector3)
    requires q.IsUnit()
    ensures Hamilton(Hamilton(q, Pure(v)), q.Conjugate()) == Pure(RotationFromQuaternion(q).Apply(v))
  {
    Sandwich(q, v);
    HomogeneousOfUnit(q);
  }

  lemma HomogeneousOfProduct(p: Quaternion, q: Quaternion, v: Vector3)
    ensures Homogeneous(Hamilton(p, q)).Apply(v) == Homogeneous(p).Apply(Homogeneous(q).Apply(v))
  {
    var u := Homogeneous(q).Apply(v);
    var pure := Pure(v);
    hide Hamilton, Homogeneous, Matrix3.Apply, Quaternion.Conjugate;
    Sandwich(Hamilton(p, q), v);
    Sandwich(q, v);
    Sandwich(p, u);
    ConjugateOfProduct(p, q);
    HamiltonAssociative(p, q, pure);
    HamiltonAssociative(p, Hamilton(q, pure), Hamilton(q.Conjugate(), p.Conjugate()));
    HamiltonAssociative(Hamilton(q, pure), q.Conjugate(), p.Conjugate());
    HamiltonAssociative(p, Pure(u), p.Conjugate());
  }

  lemma SameAction(m: Matrix3, n: Matrix3)
    requires forall v :: m.Apply(v) == n.Apply(v)
    ensures m == n
  {
    var e0, e1, e2 := Vector3(1.0, 0.0, 0.0), Vector3(0.0, 1.0, 0.0), Vector3(0.0, 0.0, 1.0);
    assert m.Apply(e0) == Vector3(m.m00, m.m10, m.m20) && n.Apply(e0) == Vector3(n.m00, n.m10, n.m20);
    assert m.Apply(e1) == Vector3(m.m01, m.m11, m.m21) && n.Apply(e1) == Vector3(n.m01, n.m11, n.m21);
    assert m.Apply(e2) == Vector3(m.m02, m.m12, m.m22) && n.Apply(e2) == Vector3(n.m02, n.m12, n.m22);
  }

  /** Euler's four-square identity, for unit quaternions: q q* == 1 passes to products. */
  lemma UnitIff(q: Quaternion)
    ensures q.IsUnit() <==> Hamilton(q, q.Conjugate()) == Quaternion(0.0, 0.0, 0.0, 1.0)
  {
  }

  lemma UnitCompose(p: Quaternion, q: Quaternion)
    requires p.IsUnit() && q.IsUnit()
    ensures Hamilton(p, q).IsUnit()
  {
    hide Hamilton, Quaternion.Conjugate, Quaternion.IsUnit;
    UnitIff(p);
    UnitIff(q);
    UnitIff(Hamilton(p, q));
    ConjugateOfProduct(p, q);
    HamiltonAssociative(p, q, Hamilton(q.Conjugate(), p.Conjugate()));
    HamiltonAssociative(q, q.Conjugate(), p.Conjugate());
    OneIsNeutral(p.Conjugate());
  }

  lemma OneIsNeutral(q: Quaternion)
    ensures Hamilton(Quaternion(0.0, 0.0, 0.0, 1.0), q) == q
  {
  }

  /** Main result: the matrix of a Hamilton product of unit quaternions is the product of their matrices. */
  lemma MatrixOfProduct(p: Quaternion, q: Quaternion)
    requires p.IsUnit() && q.IsUnit()
    ensures Hamilton(p, q).IsUnit()
    ensures RotationFromQuaternion(Hamilton(p, q)) == RotationFromQuaternion(p).Mul(RotationFromQuaternion(q))
  {
    var r, m, n := RotationFromQuaternion(Hamilton(p, q)), RotationFromQuaternion(p), RotationFromQuaternion(q);
    hide *;
    UnitCompose(p, q);
    forall v ensures r.Apply(v) == m.Mul(n).Apply(v) {
      HomogeneousOfProduct(p, q, v);
      HomogeneousOfUnit(p);
      HomogeneousOfUnit(q);
      HomogeneousOfUnit(Hamilton(p, q));
      ApplyOfProduct(m, n, v);
    }
    SameAction(r, m.Mul(n));
  }
}
