/** The affine 4x3 matrices of the geometry library, over the reals.

    A `Matrix3H` holds three direction vectors x, y, z and a translation w; a point is mapped to
    x*p.x + y*p.y + z*p.z + w.  This module proves that the invertible ones form a group that acts
    on points, which is what the registration of several sensors relies on.  */
module Affine {

  datatype Vector3D = Vector3D(x: real, y: real, z: real)

  datatype Matrix3H = Matrix3H(x: Vector3D, y: Vector3D, z: Vector3D, w: Vector3D)

  const ORIGIN := Vector3D(0.0, 0.0, 0.0)

  const IDENTITY := Matrix3H(Vector3D(1.0, 0.0, 0.0), Vector3D(0.0, 1.0, 0.0), Vector3D(0.0, 0.0, 1.0), ORIGIN)

  /** The linear part of `m` applied to `v`. */
  function Rotate(m: Matrix3H, v: Vector3D): Vector3D {
    Vector3D(
      m.x.x * v.x + m.y.x * v.y + m.z.x * v.z,
      m.x.y * v.x + m.y.y * v.y + m.z.y * v.z,
      m.x.z * v.x + m.y.z * v.y + m.z.z * v.z)
  }

  function Add(a: Vector3D, b: Vector3D): Vector3D {
    Vector3D(a.x + b.x, a.y + b.y, a.z + b.z)
  }

  function Neg(a: Vector3D): Vector3D {
    Vector3D(-a.x, -a.y, -a.z)
  }

  /** The image of a point. */
  function Apply(m: Matrix3H, v: Vector3D): Vector3D {
    Add(Rotate(m, v), m.w)
  }

  /** The matrix product, with the shortcut the library takes when the right factor does not translate. */
  function Mul(a: Matrix3H, b: Matrix3H): Matrix3H {
    if b.w.x == 0.0 && b.w.y == 0.0 && b.w.z == 0.0
    then Matrix3H(Rotate(a, b.x), Rotate(a, b.y), Rotate(a, b.z), a.w)
    else Matrix3H(Rotate(a, b.x), Rotate(a, b.y), Rotate(a, b.z), Apply(a, b.w))
  }

  /** The determinant as the library computes it, which is minus the usual one. */
  function Det(m: Matrix3H): real {
    - m.x.x * (m.y.y * m.z.z - m.z.y * m.y.z)
    + m.x.y * (m.y.x * m.z.z - m.z.x * m.y.z)
    - m.x.z * (m.y.x * m.z.y - m.z.x * m.y.y)
  }

  /** A signed 2x2 minor of rows a and b over the determinant `det`; `even` is the parity of i+j. */
  function Elem(p: real, q: real, r: real, s: real, det: real, even: bool): real
    requires det != 0.0
  {
    (p * s - q * r) / det * (if even then -1.0 else 1.0)
  }

  function Inverse(m: Matrix3H): Matrix3H
    requires Det(m) != 0.0
  {
    var d := Det(m);
    var vx := Vector3D(
      Elem(m.y.y, m.y.z, m.z.y, m.z.z, d, true),
      Elem(m.x.y, m.x.z, m.z.y, m.z.z, d, false),
      Elem(m.x.y, m.x.z, m.y.y, m.y.z, d, true));
    var vy := Vector3D(
      Elem(m.y.x, m.y.z, m.z.x, m.z.z, d, false),
      Elem(m.x.x, m.x.z, m.z.x, m.z.z, d, true),
      Elem(m.x.x, m.x.z, m.y.x, m.y.z, d, false));
    var vz := Vector3D(
      Elem(m.y.x, m.y.y, m.z.x, m.z.y, d, true),
      Elem(m.x.x, m.x.y, m.z.x, m.z.y, d, false),
      Elem(m.x.x, m.x.y, m.y.x, m.y.y, d, true));
    var lin := Matrix3H(vx, vy, vz, ORIGIN);
    Matrix3H(vx, vy, vz, Neg(Rotate(lin, m.w)))
  }

  /** The product whether or not the shortcut is taken. */
  lemma MulIsGeneral(a: Matrix3H, b: Matrix3H)
    ensures Mul(a, b) == Matrix3H(Rotate(a, b.x), Rotate(a, b.y), Rotate(a, b.z), Apply(a, b.w))
  {
  }

  /** One row of the associativity argument, on plain numbers. */
  lemma RowTimesColumns(r: Vector3D, b: Matrix3H, v: Vector3D)
    ensures Dot(Vector3D(Dot(r, b.x), Dot(r, b.y), Dot(r, b.z)), v) == Dot(r, Rotate(b, v))
  {
    ScaleDot(r, b.x, v.x);
    ScaleDot(r, b.y, v.y);
    ScaleDot(r, b.z, v.z);
    DotSum(r, Scale(b.x, v.x), Scale(b.y, v.y), Scale(b.z, v.z));
  }

  function Dot(a: Vector3D, b: Vector3D): real {
    a.x * b.x + a.y * b.y + a.z * b.z
  }

  function Scale(a: Vector3D, c: real): Vector3D {
    Vector3D(a.x * c, a.y * c, a.z * c)
  }

  lemma ScaleDot(r: Vector3D, b: Vector3D, c: real)
    ensures Dot(r, b) * c == Dot(r, Scale(b, c))
  {
    assert r.x * b.x * c == r.x * (b.x * c);
    assert r.y * b.y * c == r.y * (b.y * c);
    assert r.z * b.z * c == r.z * (b.z * c);
  }

  lemma Spread(a: real, b: real, c: real)
    ensures a * (b + c) == a * b + a * c
  {
  }

  lemma DotAdd(r: Vector3D, a: Vector3D, b: Vector3D)
    ensures Dot(r, Add(a, b)) == Dot(r, a) + Dot(r, b)
  {
    Spread(r.x, a.x, b.x);
    Spread(r.y, a.y, b.y);
    Spread(r.z, a.z, b.z);
  }

  lemma DotSum(r: Vector3D, a: Vector3D, b: Vector3D, c: Vector3D)
    ensures Dot(r, Add(Add(a, b), c)) == Dot(r, a) + Dot(r, b) + Dot(r, c)
  {
    hide Dot, Add;
    DotAdd(r, a, b);
    DotAdd(r, Add(a, b), c);
  }

  lemma RotateMul(a: Matrix3H, b: Matrix3H, v: Vector3D)
    ensures Rotate(Mul(a, b), v) == Rotate(a, Rotate(b, v))
  {
    RowTimesColumns(Vector3D(a.x.x, a.y.x, a.z.x), b, v);
    RowTimesColumns(Vector3D(a.x.y, a.y.y, a.z.y), b, v);
    RowTimesColumns(Vector3D(a.x.z, a.y.z, a.z.z), b, v);
  }

  lemma RotateAdd(a: Matrix3H, u: Vector3D, v: Vector3D)
    ensures Rotate(a, Add(u, v)) == Add(Rotate(a, u), Rotate(a, v))
  {
    hide Rotate, Dot, Row1, Row2, Row3;
    RotateByRows(a, u);
    RotateByRows(a, v);
    RotateByRows(a, Add(u, v));
    DotAdd(Row1(a), u, v);
    DotAdd(Row2(a), u, v);
    DotAdd(Row3(a), u, v);
  }

  /** The product acts on points as composition. */
  lemma MulActs(a: Matrix3H, b: Matrix3H, v: Vector3D)
    ensures Apply(Mul(a, b), v) == Apply(a, Apply(b, v))
  {
    RotateMul(a, b, v);
    RotateAdd(a, Rotate(b, v), b.w);
    MulIsGeneral(a, b);
  }

  lemma MulAssociative(a: Matrix3H, b: Matrix3H, c: Matrix3H)
    ensures Mul(Mul(a, b), c) == Mul(a, Mul(b, c))
  {
    MulIsGeneral(Mul(a, b), c);
    MulIsGeneral(b, c);
    MulIsGeneral(a, Mul(b, c));
    RotateMul(a, b, c.x);
    RotateMul(a, b, c.y);
    RotateMul(a, b, c.z);
    MulActs(a, b, c.w);
  }

  lemma IdentityIsNeutral(m: Matrix3H)
    ensures Mul(IDENTITY, m) == m && Mul(m, IDENTITY) == m
  {
  }

  lemma IdentityActs(v: Vector3D)
    ensures Apply(IDENTITY, v) == v
  {
  }

  // ---- inverses ----

  function Row1(m: Matrix3H): Vector3D { Vector3D(m.x.x, m.y.x, m.z.x) }
  function Row2(m: Matrix3H): Vector3D { Vector3D(m.x.y, m.y.y, m.z.y) }
  function Row3(m: Matrix3H): Vector3D { Vector3D(m.x.z, m.y.z, m.z.z) }

  function Minor(p: real, q: real, r: real, s: real): real {
    p * s - q * r
  }

  lemma MinorSymmetry(p: real, q: real, r: real, s: real)
    ensures Minor(p, q, r, s) == Minor(p, r, q, s) == Minor(s, q, r, p) == Minor(s, r, q, p)
    ensures Minor(p, q, r, s) == -Minor(q, p, s, r) == -Minor(q, s, p, r) == -Minor(r, p, s, q) == -Minor(r, s, p, q)
  {
  }

  function Cross(u: Vector3D, v: Vector3D): Vector3D {
    Vector3D(Minor(u.y, u.z, v.y, v.z), Minor(u.z, u.x, v.z, v.x), Minor(u.x, u.y, v.x, v.y))
  }

  function Triple(u: Vector3D, v: Vector3D, w: Vector3D): real {
    Dot(u, Cross(v, w))
  }

  /** The cofactors of the linear part, signed like `Det`: the linear part of the inverse before the
      division by the determinant. */
  function Cofactors(m: Matrix3H): Matrix3H {
    Matrix3H(Neg(Cross(Row2(m), Row3(m))), Neg(Cross(Row3(m), Row1(m))), Neg(Cross(Row1(m), Row2(m))), ORIGIN)
  }

  /** An element of the inverse is a cofactor times the reciprocal of the determinant. */
  lemma ElemScales(p: real, q: real, r: real, s: real, det: real, even: bool, cof: real)
    requires det != 0.0
    requires cof == if even then -Minor(p, q, r, s) else Minor(p, q, r, s)
    ensures Elem(p, q, r, s, det, even) == cof * (1.0 / det)
  {
    var k := p * s - q * r;
    Quotient(k, det);
    assert (-k) * (1.0 / det) == -(k * (1.0 / det));
  }

  lemma Quotient(k: real, d: real)
    requires d != 0.0
    ensures k / d == k * (1.0 / d)
  {
  }

  lemma CofactorX(m: Matrix3H)
    ensures Cofactors(m).x.x == -Minor(m.y.y, m.y.z, m.z.y, m.z.z)
    ensures Cofactors(m).x.y == Minor(m.x.y, m.x.z, m.z.y, m.z.z)
    ensures Cofactors(m).x.z == -Minor(m.x.y, m.x.z, m.y.y, m.y.z)
  {
    hide Minor;
    MinorSymmetry(m.y.y, m.y.z, m.z.y, m.z.z);
    MinorSymmetry(m.x.y, m.x.z, m.z.y, m.z.z);
    MinorSymmetry(m.x.y, m.x.z, m.y.y, m.y.z);
  }

  lemma CofactorY(m: Matrix3H)
    ensures Cofactors(m).y.x == Minor(m.y.x, m.y.z, m.z.x, m.z.z)
    ensures Cofactors(m).y.y == -Minor(m.x.x, m.x.z, m.z.x, m.z.z)
    ensures Cofactors(m).y.z == Minor(m.x.x, m.x.z, m.y.x, m.y.z)
  {
    hide Minor;
    MinorSymmetry(m.y.x, m.y.z, m.z.x, m.z.z);
    MinorSymmetry(m.x.x, m.x.z, m.z.x, m.z.z);
    MinorSymmetry(m.x.x, m.x.z, m.y.x, m.y.z);
  }

  lemma CofactorZ(m: Matrix3H)
    ensures Cofactors(m).z.x == -Minor(m.y.x, m.y.y, m.z.x, m.z.y)
    ensures Cofactors(m).z.y == Minor(m.x.x, m.x.y, m.z.x, m.z.y)
    ensures Cofactors(m).z.z == -Minor(m.x.x, m.x.y, m.y.x, m.y.y)
  {
    hide Minor;
    MinorSymmetry(m.y.x, m.y.y, m.z.x, m.z.y);
    MinorSymmetry(m.x.x, m.x.y, m.z.x, m.z.y);
    MinorSymmetry(m.x.x, m.x.y, m.y.x, m.y.y);
  }

  lemma InverseScalesCofactors(m: Matrix3H)
    requires Det(m) != 0.0
    ensures Inverse(m).x == Scale(Cofactors(m).x, 1.0 / Det(m))
    ensures Inverse(m).y == Scale(Cofactors(m).y, 1.0 / Det(m))
    ensures Inverse(m).z == Scale(Cofactors(m).z, 1.0 / Det(m))
  {
    InverseScalesX(m, Cofactors(m).x, Det(m));
    InverseScalesY(m, Cofactors(m).y, Det(m));
    InverseScalesZ(m, Cofactors(m).z, Det(m));
  }

  lemma InverseScalesX(m: Matrix3H, c: Vector3D, d: real)
    requires d == Det(m) != 0.0 && c == Cofactors(m).x
    ensures Inverse(m).x == Scale(c, 1.0 / d)
  {
    hide Elem, Minor, Cofactors, Rotate, Det;
    CofactorX(m);
    ElemScales(m.y.y, m.y.z, m.z.y, m.z.z, d, true, c.x);
    ElemScales(m.x.y, m.x.z, m.z.y, m.z.z, d, false, c.y);
    ElemScales(m.x.y, m.x.z, m.y.y, m.y.z, d, true, c.z);
  }

  lemma InverseScalesY(m: Matrix3H, c: Vector3D, d: real)
    requires d == Det(m) != 0.0 && c == Cofactors(m).y
    ensures Inverse(m).y == Scale(c, 1.0 / d)
  {
    hide Elem, Minor, Cofactors, Rotate, Det;
    CofactorY(m);
    ElemScales(m.y.x, m.y.z, m.z.x, m.z.z, d, false, c.x);
    ElemScales(m.x.x, m.x.z, m.z.x, m.z.z, d, true, c.y);
    ElemScales(m.x.x, m.x.z, m.y.x, m.y.z, d, false, c.z);
  }

  lemma InverseScalesZ(m: Matrix3H, c: Vector3D, d: real)
    requires d == Det(m) != 0.0 && c == Cofactors(m).z
    ensures Inverse(m).z == Scale(c, 1.0 / d)
  {
    hide Elem, Minor, Cofactors, Rotate, Det;
    CofactorZ(m);
    ElemScales(m.y.x, m.y.y, m.z.x, m.z.y, d, true, c.x);
    ElemScales(m.x.x, m.x.y, m.z.x, m.z.y, d, false, c.y);
    ElemScales(m.x.x, m.x.y, m.y.x, m.y.y, d, true, c.z);
  }

  lemma Distribute(a: real, b: real, c: real, d: real, e: real)
    ensures a * (b * c - d * e) == a * b * c - a * d * e
  {
  }

  lemma TripleExpands(a: Vector3D, u: Vector3D, v: Vector3D)
    ensures Dot(a, Cross(u, v)) ==
      a.x * u.y * v.z - a.x * u.z * v.y + a.y * u.z * v.x - a.y * u.x * v.z + a.z * u.x * v.y - a.z * u.y * v.x
  {
    Distribute(a.x, u.y, v.z, u.z, v.y);
    Distribute(a.y, u.z, v.x, u.x, v.z);
    Distribute(a.z, u.x, v.y, u.y, v.x);
  }

  lemma TripleVanishes(u: Vector3D, v: Vector3D)
    ensures Dot(u, Cross(u, v)) == 0.0 && Dot(v, Cross(u, v)) == 0.0
  {
    TripleExpands(u, u, v);
    TripleExpands(v, u, v);
  }

  lemma TripleCycles(u: Vector3D, v: Vector3D, w: Vector3D)
    ensures Dot(u, Cross(v, w)) == Dot(v, Cross(w, u)) == Dot(w, Cross(u, v))
  {
    TripleExpands(u, v, w);
    TripleExpands(v, w, u);
    TripleExpands(w, u, v);
  }

  /** The determinant is minus the triple product of the columns, and of the rows. */
  lemma DetIsTriple(m: Matrix3H)
    ensures Det(m) == -Triple(m.x, m.y, m.z) == -Triple(Row1(m), Row2(m), Row3(m))
  {
    TripleExpands(m.x, m.y, m.z);
    TripleExpands(Row1(m), Row2(m), Row3(m));
    Distribute(m.x.x, m.y.y, m.z.z, m.z.y, m.y.z);
    Distribute(m.x.y, m.y.x, m.z.z, m.z.x, m.y.z);
    Distribute(m.x.z, m.y.x, m.z.y, m.z.x, m.y.y);
  }

  /** Seen by rows, the cofactors are cross products of the columns. */
  lemma CofactorRows(m: Matrix3H)
    ensures Row1(Cofactors(m)) == Neg(Cross(m.y, m.z))
    ensures Row2(Cofactors(m)) == Neg(Cross(m.z, m.x))
    ensures Row3(Cofactors(m)) == Neg(Cross(m.x, m.y))
  {
    hide Minor, Cofactors;
    CofactorX(m);
    CofactorY(m);
    CofactorZ(m);
    MinorSymmetry(m.y.x, m.y.z, m.z.x, m.z.z);
    MinorSymmetry(m.x.y, m.x.z, m.z.y, m.z.z);
    MinorSymmetry(m.x.x, m.x.z, m.y.x, m.y.z);
    MinorSymmetry(m.x.x, m.x.z, m.z.x, m.z.z);
    MinorSymmetry(m.x.x, m.x.y, m.z.x, m.z.y);
  }

  lemma RotateByRows(m: Matrix3H, v: Vector3D)
    ensures Rotate(m, v) == Vector3D(Dot(Row1(m), v), Dot(Row2(m), v), Dot(Row3(m), v))
  {
  }

  lemma DotNeg(a: Vector3D, b: Vector3D)
    ensures Dot(a, Neg(b)) == -Dot(a, b) && Dot(Neg(b), a) == -Dot(a, b)
  {
    hide Dot;
    assert Neg(b) == Scale(b, -1.0);
    ScaleDot(a, b, -1.0);
    ScaledDot(b, a, -1.0);
    DotCommutes(a, b);
  }

  lemma DotCommutes(a: Vector3D, b: Vector3D)
    ensures Dot(a, b) == Dot(b, a)
  {
  }

  /** A column of cofactors is carried to a multiple of a unit vector (Cramer's rule). */
  lemma CramerRight(m: Matrix3H)
    ensures Rotate(m, Cofactors(m).x) == Vector3D(Det(m), 0.0, 0.0)
    ensures Rotate(m, Cofactors(m).y) == Vector3D(0.0, Det(m), 0.0)
    ensures Rotate(m, Cofactors(m).z) == Vector3D(0.0, 0.0, Det(m))
  {
    var r1, r2, r3 := Row1(m), Row2(m), Row3(m);
    TripleTable(r1, r2, r3);
    DetIsTriple(m);
    RotateByRows(m, Neg(Cross(r2, r3)));
    RotateByRows(m, Neg(Cross(r3, r1)));
    RotateByRows(m, Neg(Cross(r1, r2)));
  }

  lemma CramerLeft(m: Matrix3H)
    ensures Rotate(Cofactors(m), m.x) == Vector3D(Det(m), 0.0, 0.0)
    ensures Rotate(Cofactors(m), m.y) == Vector3D(0.0, Det(m), 0.0)
    ensures Rotate(Cofactors(m), m.z) == Vector3D(0.0, 0.0, Det(m))
  {
    CofactorRows(m);
    TripleTable(m.x, m.y, m.z);
    DetIsTriple(m);
    RotateByRows(Cofactors(m), m.x);
    RotateByRows(Cofactors(m), m.y);
    RotateByRows(Cofactors(m), m.z);
  }

  /** Every product of one of three vectors with minus a cross product of two of them. */
  lemma TripleTable(a: Vector3D, b: Vector3D, c: Vector3D)
    ensures var d := -Dot(a, Cross(b, c));
      && Dot(a, Neg(Cross(b, c))) == d == Dot(Neg(Cross(b, c)), a)
      && Dot(b, Neg(Cross(c, a))) == d == Dot(Neg(Cross(c, a)), b)
      && Dot(c, Neg(Cross(a, b))) == d == Dot(Neg(Cross(a, b)), c)
    ensures Dot(b, Neg(Cross(b, c))) == 0.0 == Dot(Neg(Cross(b, c)), b)
    ensures Dot(c, Neg(Cross(b, c))) == 0.0 == Dot(Neg(Cross(b, c)), c)
    ensures Dot(c, Neg(Cross(c, a))) == 0.0 == Dot(Neg(Cross(c, a)), c)
    ensures Dot(a, Neg(Cross(c, a))) == 0.0 == Dot(Neg(Cross(c, a)), a)
    ensures Dot(a, Neg(Cross(a, b))) == 0.0 == Dot(Neg(Cross(a, b)), a)
    ensures Dot(b, Neg(Cross(a, b))) == 0.0 == Dot(Neg(Cross(a, b)), b)
  {
    TripleCycles(a, b, c);
    TripleVanishes(b, c);
    TripleVanishes(c, a);
    TripleVanishes(a, b);
    DotNeg(a, Cross(b, c)); DotNeg(b, Cross(b, c)); DotNeg(c, Cross(b, c));
    DotNeg(a, Cross(c, a)); DotNeg(b, Cross(c, a)); DotNeg(c, Cross(c, a));
    DotNeg(a, Cross(a, b)); DotNeg(b, Cross(a, b)); DotNeg(c, Cross(a, b));
  }

  lemma RotateScale(m: Matrix3H, v: Vector3D, c: real)
    ensures Rotate(m, Scale(v, c)) == Scale(Rotate(m, v), c)
  {
    ScaleDot(Vector3D(m.x.x, m.y.x, m.z.x), v, c);
    ScaleDot(Vector3D(m.x.y, m.y.y, m.z.y), v, c);
    ScaleDot(Vector3D(m.x.z, m.y.z, m.z.z), v, c);
  }

  lemma ScaledRotate(m: Matrix3H, s: Matrix3H, v: Vector3D, c: real)
    requires s.x == Scale(m.x, c) && s.y == Scale(m.y, c) && s.z == Scale(m.z, c)
    ensures Rotate(s, v) == Scale(Rotate(m, v), c)
  {
    hide Rotate, Dot, Scale, Row1, Row2, Row3;
    ScaledRows(m, s, c);
    RotateByRows(s, v);
    RotateByRows(m, v);
    ScaledDot(Row1(m), v, c);
    ScaledDot(Row2(m), v, c);
    ScaledDot(Row3(m), v, c);
    ScaleByComponents(Rotate(s, v), Rotate(m, v), c);
  }

  lemma ScaledRows(m: Matrix3H, s: Matrix3H, c: real)
    requires s.x == Scale(m.x, c) && s.y == Scale(m.y, c) && s.z == Scale(m.z, c)
    ensures Row1(s) == Scale(Row1(m), c) && Row2(s) == Scale(Row2(m), c) && Row3(s) == Scale(Row3(m), c)
  {
  }

  lemma ScaleByComponents(p: Vector3D, q: Vector3D, c: real)
    requires p.x == q.x * c && p.y == q.y * c && p.z == q.z * c
    ensures p == Scale(q, c)
  {
  }

  lemma ScaledDot(a: Vector3D, v: Vector3D, c: real)
    ensures Dot(Scale(a, c), v) == Dot(a, v) * c
  {
    ScaleDot(v, a, c);
  }

  /** If a matrix is carried to `d` times the identity by `m`, dividing by `d` gives an inverse. */
  lemma DividedByDet(m: Matrix3H, cof: Matrix3H, inv: Matrix3H, d: real, r: real)
    requires d * r == 1.0
    requires inv.x == Scale(cof.x, r) && inv.y == Scale(cof.y, r) && inv.z == Scale(cof.z, r)
    requires Rotate(m, cof.x) == Vector3D(d, 0.0, 0.0) == Rotate(cof, m.x)
    requires Rotate(m, cof.y) == Vector3D(0.0, d, 0.0) == Rotate(cof, m.y)
    requires Rotate(m, cof.z) == Vector3D(0.0, 0.0, d) == Rotate(cof, m.z)
    ensures Rotate(m, inv.x) == IDENTITY.x == Rotate(inv, m.x)
    ensures Rotate(m, inv.y) == IDENTITY.y == Rotate(inv, m.y)
    ensures Rotate(m, inv.z) == IDENTITY.z == Rotate(inv, m.z)
  {
    RotateScale(m, cof.x, r);
    RotateScale(m, cof.y, r);
    RotateScale(m, cof.z, r);
    ScaledRotate(cof, inv, m.x, r);
    ScaledRotate(cof, inv, m.y, r);
    ScaledRotate(cof, inv, m.z, r);
  }

  /** `Inverse` is a two-sided inverse whenever the determinant is nonzero. */
  lemma InverseIsTwoSided(m: Matrix3H)
    requires Det(m) != 0.0
    ensures Mul(m, Inverse(m)) == IDENTITY
    ensures Mul(Inverse(m), m) == IDENTITY
  {
    hide Mul, Rotate, Det, Cofactors;
    InverseScalesCofactors(m);
    CramerRight(m);
    CramerLeft(m);
    DividedByDet(m, Cofactors(m), Inverse(m), Det(m), 1.0 / Det(m));
    MulIsGeneral(m, Inverse(m));
    MulIsGeneral(Inverse(m), m);
    TranslationCancels(m, Inverse(m));
  }

  lemma TranslationCancels(m: Matrix3H, inv: Matrix3H)
    requires inv.w == Neg(Rotate(Matrix3H(inv.x, inv.y, inv.z, ORIGIN), m.w))
    requires Rotate(m, inv.x) == IDENTITY.x && Rotate(m, inv.y) == IDENTITY.y && Rotate(m, inv.z) == IDENTITY.z
    ensures Apply(m, inv.w) == ORIGIN && Apply(inv, m.w) == ORIGIN
  {
    var lin := Matrix3H(inv.x, inv.y, inv.z, ORIGIN);
    RotateMul(m, lin, m.w);
    RotateScale(m, Rotate(lin, m.w), -1.0);
  }

  // ---- determinants multiply, so the invertible matrices form a group ----

  function Combine(a: Vector3D, b: Vector3D, c: Vector3D, t: Vector3D): Vector3D {
    Add(Add(Scale(a, t.x), Scale(b, t.y)), Scale(c, t.z))
  }

  lemma DotIsLinear(a: Vector3D, b: Vector3D, c: Vector3D, t: Vector3D, n: Vector3D)
    ensures Dot(Combine(a, b, c, t), n) == t.x * Dot(a, n) + t.y * Dot(b, n) + t.z * Dot(c, n)
  {
    DotSum(n, Scale(a, t.x), Scale(b, t.y), Scale(c, t.z));
    ScaleDot(n, a, t.x);
    ScaleDot(n, b, t.y);
    ScaleDot(n, c, t.z);
  }

  /** A triple product of combinations of a, b, c, one slot fixed to a. */
  lemma TripleWithFirst(a: Vector3D, b: Vector3D, c: Vector3D, v: Vector3D, w: Vector3D, vol: real)
    requires vol == Triple(a, b, c)
    ensures Triple(a, Combine(a, b, c, v), Combine(a, b, c, w)) == (v.y * w.z - v.z * w.y) * vol
  {
    var p, q := Combine(a, b, c, v), Combine(a, b, c, w);
    TripleCycles(a, p, q);
    DotIsLinear(a, b, c, v, Cross(q, a));
    TripleVanishes(q, a);
    CrossWithFirst(a, b, c, w, q, vol);
    Collect(v, Dot(a, Cross(q, a)), Dot(b, Cross(q, a)), Dot(c, Cross(q, a)), w, vol);
  }

  lemma CrossWithFirst(a: Vector3D, b: Vector3D, c: Vector3D, w: Vector3D, q: Vector3D, vol: real)
    requires vol == Triple(a, b, c) && q == Combine(a, b, c, w)
    ensures Dot(b, Cross(q, a)) == w.z * vol && Dot(c, Cross(q, a)) == w.y * -vol
  {
    TripleCycles(b, q, a);
    TripleCycles(c, q, a);
    DotIsLinear(a, b, c, w, Cross(a, b));
    DotIsLinear(a, b, c, w, Cross(a, c));
    TripleVanishes(a, b);
    TripleVanishes(a, c);
    TripleCycles(a, b, c);
    TripleSwaps(b, a, c);
  }

  lemma TripleSwaps(u: Vector3D, v: Vector3D, w: Vector3D)
    ensures Triple(u, v, w) == -Triple(v, u, w)
  {
    TripleExpands(u, v, w);
    TripleExpands(v, u, w);
  }

  lemma Collect(v: Vector3D, d1: real, d2: real, d3: real, w: Vector3D, vol: real)
    requires d1 == 0.0 && d2 == w.z * vol && d3 == w.y * -vol
    ensures v.x * d1 + v.y * d2 + v.z * d3 == (v.y * w.z - v.z * w.y) * vol
  {
    assert v.y * (w.z * vol) == v.y * w.z * vol;
    assert v.z * (w.y * -vol) == -(v.z * w.y * vol);
  }

  lemma TripleMultiplies(a: Vector3D, b: Vector3D, c: Vector3D, u: Vector3D, v: Vector3D, w: Vector3D)
    ensures Triple(Combine(a, b, c, u), Combine(a, b, c, v), Combine(a, b, c, w)) == Triple(u, v, w) * Triple(a, b, c)
  {
    hide Combine, Dot, Cross;
    TripleSlots(a, b, c, v, w, Triple(a, b, c));
    CombineDot(a, b, c, u, Cross(Combine(a, b, c, v), Combine(a, b, c, w)), Cross(v, w), Triple(a, b, c));
  }

  lemma CombineDot(a: Vector3D, b: Vector3D, c: Vector3D, u: Vector3D, n: Vector3D, m: Vector3D, vol: real)
    requires Dot(a, n) == m.x * vol && Dot(b, n) == m.y * vol && Dot(c, n) == m.z * vol
    ensures Dot(Combine(a, b, c, u), n) == Dot(u, m) * vol
  {
    DotIsLinear(a, b, c, u, n);
    CollectDot(u, m, Dot(a, n), Dot(b, n), Dot(c, n), vol);
  }

  lemma TripleSlots(a: Vector3D, b: Vector3D, c: Vector3D, v: Vector3D, w: Vector3D, vol: real)
    requires vol == Triple(a, b, c)
    ensures Dot(a, Cross(Combine(a, b, c, v), Combine(a, b, c, w))) == Cross(v, w).x * vol
    ensures Dot(b, Cross(Combine(a, b, c, v), Combine(a, b, c, w))) == Cross(v, w).y * vol
    ensures Dot(c, Cross(Combine(a, b, c, v), Combine(a, b, c, w))) == Cross(v, w).z * vol
  {
    TripleCycles(a, b, c);
    TripleWithFirst(a, b, c, v, w, vol);
    TripleWithFirst(b, c, a, Vector3D(v.y, v.z, v.x), Vector3D(w.y, w.z, w.x), vol);
    TripleWithFirst(c, a, b, Vector3D(v.z, v.x, v.y), Vector3D(w.z, w.x, w.y), vol);
    CombineCycles(a, b, c, v);
    CombineCycles(a, b, c, w);
  }

  lemma CombineCycles(a: Vector3D, b: Vector3D, c: Vector3D, t: Vector3D)
    ensures Combine(b, c, a, Vector3D(t.y, t.z, t.x)) == Combine(a, b, c, t) ==
      Combine(c, a, b, Vector3D(t.z, t.x, t.y))
  {
  }

  lemma CollectDot(u: Vector3D, n: Vector3D, d1: real, d2: real, d3: real, vol: real)
    requires d1 == n.x * vol && d2 == n.y * vol && d3 == n.z * vol
    ensures u.x * d1 + u.y * d2 + u.z * d3 == Dot(u, n) * vol
  {
    assert u.x * (n.x * vol) == u.x * n.x * vol;
    assert u.y * (n.y * vol) == u.y * n.y * vol;
    assert u.z * (n.z * vol) == u.z * n.z * vol;
  }

  lemma RotateIsCombine(m: Matrix3H, v: Vector3D)
    ensures Rotate(m, v) == Combine(m.x, m.y, m.z, v)
  {
  }

  lemma DetMultiplies(a: Matrix3H, b: Matrix3H)
    ensures Det(Mul(a, b)) == - Det(a) * Det(b)
  {
    hide Det, Triple, Rotate, Combine, Dot, Cross;
    RotateIsCombine(a, b.x);
    RotateIsCombine(a, b.y);
    RotateIsCombine(a, b.z);
    TripleMultiplies(a.x, a.y, a.z, b.x, b.y, b.z);
    DetIsTriple(a);
    DetIsTriple(b);
    DetIsTriple(Mul(a, b));
    NegProduct(Triple(a.x, a.y, a.z), Triple(b.x, b.y, b.z), Det(a), Det(b));
  }

  lemma NegProduct(p: real, q: real, a: real, b: real)
    requires a == -p && b == -q
    ensures q * p == a * b && -(q * p) == -a * b
  {
  }

  ghost predicate Invertible(m: Matrix3H) {
    Det(m) != 0.0
  }

  /** The invertible matrices are closed under product and inverse; the inverse of a product is the
      product of the inverses in the other order. */
  lemma InvertiblesFormAGroup(a: Matrix3H, b: Matrix3H)
    requires Invertible(a) && Invertible(b)
    ensures Invertible(IDENTITY) && Inverse(IDENTITY) == IDENTITY
    ensures Invertible(Mul(a, b)) && Invertible(Inverse(a)) && Inverse(Inverse(a)) == a
    ensures Invertible(Inverse(b)) && Inverse(Mul(a, b)) == Mul(Inverse(b), Inverse(a))
  {
    hide Mul, Inverse, Det;
    IdentityIsOwnInverse();
    ProductNonZero(Det(a), Det(b));
    DetMultiplies(a, b);
    InverseIsInvertible(a);
    InverseIsInvertible(b);
    InverseIsTwoSided(a);
    InverseIsTwoSided(b);
    InverseIsUnique(Inverse(a), a);
    var p := Mul(Inverse(b), Inverse(a));
    MulAssociative(a, b, p);
    MulAssociative(b, Inverse(b), Inverse(a));
    IdentityIsNeutral(Inverse(a));
    InverseIsUnique(Mul(a, b), p);
  }

  lemma IdentityIsOwnInverse()
    ensures Invertible(IDENTITY) && Inverse(IDENTITY) == IDENTITY
  {
    assert Det(IDENTITY) == -1.0;
    IdentityIsNeutral(IDENTITY);
    InverseIsUnique(IDENTITY, IDENTITY);
  }

  lemma ProductNonZero(p: real, q: real)
    requires p != 0.0 && q != 0.0
    ensures -p * q != 0.0
  {
  }

  lemma InverseIsInvertible(m: Matrix3H)
    requires Invertible(m)
    ensures Invertible(Inverse(m))
  {
    InverseIsTwoSided(m);
    DetMultiplies(m, Inverse(m));
  }

  /** A right inverse is the inverse. */
  lemma InverseIsUnique(m: Matrix3H, n: Matrix3H)
    requires Invertible(m) && Mul(m, n) == IDENTITY
    ensures n == Inverse(m)
  {
    hide Mul, Inverse, Det;
    InverseIsTwoSided(m);
    MulAssociative(Inverse(m), m, n);
    IdentityIsNeutral(n);
    IdentityIsNeutral(Inverse(m));
  }
}
