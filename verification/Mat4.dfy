/** The 4x4 matrices of vmath.h, row by row, and points that they move. */
module Mat4 {
  import opened VMath

  datatype Matrix = Matrix(
    m0: real, m1: real, m2: real, m3: real,
    m4: real, m5: real, m6: real, m7: real,
    m8: real, m9: real, m10: real, m11: real,
    m12: real, m13: real, m14: real, m15: real)

  /** `hvect_t`. */
  datatype HVect = HVect(x: real, y: real, z: real, w: real)

  /** A row of a matrix times a column. */
  function Row(a: real, b: real, c: real, d: real, x: real, y: real, z: real, w: real): real
  {
    a * x + b * y + c * z + d * w
  }

  /** `MAT4X4PNT`. */
  function Mat4x4Pnt(m: Matrix, i: HVect): HVect
  {
    HVect(
      Row(m.m0, m.m1, m.m2, m.m3, i.x, i.y, i.z, i.w),
      Row(m.m4, m.m5, m.m6, m.m7, i.x, i.y, i.z, i.w),
      Row(m.m8, m.m9, m.m10, m.m11, i.x, i.y, i.z, i.w),
      Row(m.m12, m.m13, m.m14, m.m15, i.x, i.y, i.z, i.w))
  }

  /** What `MAT4X3PNT` divides by. */
  function Denominator(m: Matrix, i: Vec3): real
  {
    Row(m.m12, m.m13, m.m14, m.m15, i.x, i.y, i.z, 1.0)
  }

  /** `MAT4X3PNT`. */
  function Mat4x3Pnt(m: Matrix, i: Vec3): Vec3
    requires Denominator(m, i) != 0.0
  {
    var f := 1.0 / Denominator(m, i);
    Vec3(
      Row(m.m0, m.m1, m.m2, m.m3, i.x, i.y, i.z, 1.0) * f,
      Row(m.m4, m.m5, m.m6, m.m7, i.x, i.y, i.z, 1.0) * f,
      Row(m.m8, m.m9, m.m10, m.m11, i.x, i.y, i.z, 1.0) * f)
  }

  /** `MAT4X3VEC`. */
  function Mat4x3Vec(m: Matrix, i: Vec3): Vec3
    requires m.m15 != 0.0
  {
    var f := 1.0 / m.m15;
    Vec3(
      Row(m.m0, m.m1, m.m2, 0.0, i.x, i.y, i.z, 0.0) * f,
      Row(m.m4, m.m5, m.m6, 0.0, i.x, i.y, i.z, 0.0) * f,
      Row(m.m8, m.m9, m.m10, 0.0, i.x, i.y, i.z, 0.0) * f)
  }

  /** `PNT3X4MAT`. */
  function Pnt3x4Mat(i: Vec3, m: Matrix): Vec3
    requires Row(i.x, i.y, i.z, 1.0, m.m3, m.m7, m.m11, m.m15) != 0.0
  {
    var f := 1.0 / Row(i.x, i.y, i.z, 1.0, m.m3, m.m7, m.m11, m.m15);
    Vec3(
      Row(i.x, i.y, i.z, 1.0, m.m0, m.m4, m.m8, m.m12) * f,
      Row(i.x, i.y, i.z, 1.0, m.m1, m.m5, m.m9, m.m13) * f,
      Row(i.x, i.y, i.z, 1.0, m.m2, m.m6, m.m10, m.m14) * f)
  }

  /** `MAT_TRANSPOSE`. */
  function Transpose(m: Matrix): Matrix
  {
    Matrix(
      m.m0, m.m4, m.m8, m.m12,
      m.m1, m.m5, m.m9, m.m13,
      m.m2, m.m6, m.m10, m.m14,
      m.m3, m.m7, m.m11, m.m15)
  }

  /** `HDIVIDE`. */
  function HDivide(v: HVect): Vec3
    requires v.w != 0.0
  {
    Vec3(v.x / v.w, v.y / v.w, v.z / v.w)
  }

  /** A row vector times a matrix is the transpose times the column, and one of
      them is defined exactly when the other is. */
  lemma RowVectorIsTranspose(i: Vec3, m: Matrix)
    ensures Row(i.x, i.y, i.z, 1.0, m.m3, m.m7, m.m11, m.m15) == Denominator(Transpose(m), i)
    ensures Denominator(Transpose(m), i) != 0.0 ==> Pnt3x4Mat(i, m) == Mat4x3Pnt(Transpose(m), i)
    ensures Transpose(Transpose(m)) == m
  {
  }

  // --- dividing at every step, or once at the end

  lemma RowScales(
      a: real, b: real, c: real, d: real, x: real, y: real, z: real, w: real,
      s: real, px: real, py: real, pz: real, pw: real)
    requires x == px * s && y == py * s && z == pz * s && w == pw * s
    ensures Row(a, b, c, d, x, y, z, w) == Row(a, b, c, d, px, py, pz, pw) * s
  {
  }

  lemma Quotient(a: real, d: real, w: real, aw: real, dw: real, f: real)
    requires aw == a * w && dw == d * w && w != 0.0 && d != 0.0 && f == 1.0 / d
    ensures dw != 0.0 && aw / dw == a * f
  {
  }

  /** One step: the divided point stays the quotient of the undivided one, and
      their denominators vanish together. */
  lemma DivideAfter(m: Matrix, h: HVect, p: Vec3)
    requires h.w != 0.0 && p == HDivide(h)
    ensures Mat4x4Pnt(m, h).w == Denominator(m, p) * h.w
    ensures Mat4x4Pnt(m, h).w != 0.0 <==> Denominator(m, p) != 0.0
    ensures Denominator(m, p) != 0.0 ==> Mat4x3Pnt(m, p) == HDivide(Mat4x4Pnt(m, h))
  {
    hide Row;
    Divided(h, p);
    var g, d := Mat4x4Pnt(m, h), Denominator(m, p);
    RowScales(m.m0, m.m1, m.m2, m.m3, h.x, h.y, h.z, h.w, h.w, p.x, p.y, p.z, 1.0);
    RowScales(m.m4, m.m5, m.m6, m.m7, h.x, h.y, h.z, h.w, h.w, p.x, p.y, p.z, 1.0);
    RowScales(m.m8, m.m9, m.m10, m.m11, h.x, h.y, h.z, h.w, h.w, p.x, p.y, p.z, 1.0);
    RowScales(m.m12, m.m13, m.m14, m.m15, h.x, h.y, h.z, h.w, h.w, p.x, p.y, p.z, 1.0);
    NonZero(d, h.w);
    if d != 0.0 {
      Quotient(Row(m.m0, m.m1, m.m2, m.m3, p.x, p.y, p.z, 1.0), d, h.w, g.x, g.w, 1.0 / d);
      Quotient(Row(m.m4, m.m5, m.m6, m.m7, p.x, p.y, p.z, 1.0), d, h.w, g.y, g.w, 1.0 / d);
      Quotient(Row(m.m8, m.m9, m.m10, m.m11, p.x, p.y, p.z, 1.0), d, h.w, g.z, g.w, 1.0 / d);
    }
  }

  lemma Divided(h: HVect, p: Vec3)
    requires h.w != 0.0 && p == HDivide(h)
    ensures h.x == p.x * h.w && h.y == p.y * h.w && h.z == p.z * h.w && h.w == 1.0 * h.w
  {
  }

  lemma NonZero(d: real, w: real)
    requires w != 0.0
    ensures d * w != 0.0 <==> d != 0.0
  {
  }

  /** The point after each matrix in turn, if no denominator on the way is zero. */
  datatype Moved = Undefined | At(p: Vec3)

  function EachStep(ms: seq<Matrix>, p: Vec3): Moved
  {
    if ms == [] then At(p)
    else
      match EachStep(ms[..|ms| - 1], p)
      case Undefined => Undefined
      case At(q) =>
        if Denominator(ms[|ms| - 1], q) == 0.0 then Undefined else At(Mat4x3Pnt(ms[|ms| - 1], q))
  }

  function Homogeneous(ms: seq<Matrix>, h: HVect): HVect
  {
    if ms == [] then h else Mat4x4Pnt(ms[|ms| - 1], Homogeneous(ms[..|ms| - 1], h))
  }

  function Lift(p: Vec3): HVect
  {
    HVect(p.x, p.y, p.z, 1.0)
  }

  /** The homogeneous coordinate is zero neither at the start nor after any step. */
  predicate StaysFinite(ms: seq<Matrix>, h: HVect)
  {
    Homogeneous(ms, h).w != 0.0 && (ms == [] || StaysFinite(ms[..|ms| - 1], h))
  }

  /** Dividing at every step is dividing once at the end, and it is defined
      exactly when the homogeneous coordinate vanishes at no step. */
  lemma {:induction false} DivideOnce(ms: seq<Matrix>, p: Vec3)
    ensures EachStep(ms, p).At? <==> StaysFinite(ms, Lift(p))
    ensures EachStep(ms, p).At? ==> EachStep(ms, p).p == HDivide(Homogeneous(ms, Lift(p)))
  {
    hide Row, Mat4x3Pnt, Mat4x4Pnt, Denominator;
    if ms != [] {
      var before, m := ms[..|ms| - 1], ms[|ms| - 1];
      DivideOnce(before, p);
      if EachStep(before, p).At? {
        DivideAfter(m, Homogeneous(before, Lift(p)), EachStep(before, p).p);
      }
    }
  }

  /** One division at the end can be defined where dividing on the way is not:
      the second matrix brings back the point that the first one sent off. */
  lemma OneDivisionIsDefinedMoreOften(swap: Matrix, p: Vec3)
    requires swap == Matrix(0.0, 0.0, 0.0, 1.0, 0.0, 1.0, 0.0, 0.0, 0.0, 0.0, 1.0, 0.0, 1.0, 0.0, 0.0, 0.0)
    requires p == Vec3(0.0, 2.0, 3.0)
    ensures EachStep([swap, swap], p) == Undefined
    ensures Homogeneous([swap, swap], Lift(p)) == Lift(p)
  {
    assert [swap, swap][..1] == [swap] && [swap][..0] == [];
    assert EachStep([], p) == At(p) && Denominator(swap, p) == 0.0;
    assert EachStep([swap], p) == Undefined;
    assert Homogeneous([swap], Lift(p)) == HVect(1.0, 2.0, 3.0, 0.0);
  }

  // --- directions

  lemma RowsDiffer(
      a: real, b: real, c: real, d: real, x: real, y: real, z: real, u: real, v: real, w: real, f: real,
      px: real, py: real, pz: real)
    requires px == x + u && py == y + v && pz == z + w
    ensures Row(a, b, c, d, px, py, pz, 1.0) * f - Row(a, b, c, d, x, y, z, 1.0) * f
      == Row(a, b, c, 0.0, u, v, w, 0.0) * f
  {
  }

  lemma AffineDenominator(m: Matrix, p: Vec3)
    requires m.m12 == m.m13 == m.m14 == 0.0
    ensures Denominator(m, p) == m.m15
  {
  }

  /** A matrix that divides every point alike moves the direction from one point to
      another to the direction between the moved points. */
  lemma DirectionsMove(m: Matrix, p: Vec3, v: Vec3)
    requires m.m12 == m.m13 == m.m14 == 0.0 && m.m15 != 0.0
    ensures Denominator(m, p) == m.m15 == Denominator(m, Add(p, v))
    ensures Sub(Mat4x3Pnt(m, Add(p, v)), Mat4x3Pnt(m, p)) == Mat4x3Vec(m, v)
  {
    hide Row, Denominator;
    var q, f := Add(p, v), 1.0 / m.m15;
    AffineDenominator(m, p);
    AffineDenominator(m, q);
    RowsDiffer(m.m0, m.m1, m.m2, m.m3, p.x, p.y, p.z, v.x, v.y, v.z, f, q.x, q.y, q.z);
    RowsDiffer(m.m4, m.m5, m.m6, m.m7, p.x, p.y, p.z, v.x, v.y, v.z, f, q.x, q.y, q.z);
    RowsDiffer(m.m8, m.m9, m.m10, m.m11, p.x, p.y, p.z, v.x, v.y, v.z, f, q.x, q.y, q.z);
  }

  // --- several matrices as one

  /** `bn_mat_mul` of src/libbn/mat.c. */
  function Mul(a: Matrix, b: Matrix): Matrix
  {
    Matrix(
      Row(a.m0, a.m1, a.m2, a.m3, b.m0, b.m4, b.m8, b.m12),
      Row(a.m0, a.m1, a.m2, a.m3, b.m1, b.m5, b.m9, b.m13),
      Row(a.m0, a.m1, a.m2, a.m3, b.m2, b.m6, b.m10, b.m14),
      Row(a.m0, a.m1, a.m2, a.m3, b.m3, b.m7, b.m11, b.m15),
      Row(a.m4, a.m5, a.m6, a.m7, b.m0, b.m4, b.m8, b.m12),
      Row(a.m4, a.m5, a.m6, a.m7, b.m1, b.m5, b.m9, b.m13),
      Row(a.m4, a.m5, a.m6, a.m7, b.m2, b.m6, b.m10, b.m14),
      Row(a.m4, a.m5, a.m6, a.m7, b.m3, b.m7, b.m11, b.m15),
      Row(a.m8, a.m9, a.m10, a.m11, b.m0, b.m4, b.m8, b.m12),
      Row(a.m8, a.m9, a.m10, a.m11, b.m1, b.m5, b.m9, b.m13),
      Row(a.m8, a.m9, a.m10, a.m11, b.m2, b.m6, b.m10, b.m14),
      Row(a.m8, a.m9, a.m10, a.m11, b.m3, b.m7, b.m11, b.m15),
      Row(a.m12, a.m13, a.m14, a.m15, b.m0, b.m4, b.m8, b.m12),
      Row(a.m12, a.m13, a.m14, a.m15, b.m1, b.m5, b.m9, b.m13),
      Row(a.m12, a.m13, a.m14, a.m15, b.m2, b.m6, b.m10, b.m14),
      Row(a.m12, a.m13, a.m14, a.m15, b.m3, b.m7, b.m11, b.m15))
  }

  lemma RowIs(a: real, b: real, c: real, d: real, x: real, y: real, z: real, w: real)
    ensures Row(a, b, c, d, x, y, z, w) == a * x + b * y + c * z + d * w
  {
  }

  /** A row times a sum of four columns. */
  lemma RowAdds(
      a: real, c: real, d: real, e: real,
      p0: real, p1: real, p2: real, p3: real, q0: real, q1: real, q2: real, q3: real,
      t0: real, t1: real, t2: real, t3: real, v0: real, v1: real, v2: real, v3: real,
      s0: real, s1: real, s2: real, s3: real)
    requires s0 == p0 + p1 + p2 + p3 && s1 == q0 + q1 + q2 + q3 && s2 == t0 + t1 + t2 + t3 && s3 == v0 + v1 + v2 + v3
    ensures Row(a, c, d, e, s0, s1, s2, s3) == Row(a, c, d, e, p0, q0, t0, v0) + Row(a, c, d, e, p1, q1, t1, v1)
      + Row(a, c, d, e, p2, q2, t2, v2) + Row(a, c, d, e, p3, q3, t3, v3)
  {
  }

  /** A row times (matrix times column) is (row times matrix) times column. */
  lemma RowTwice(
      a: real, c: real, d: real, e: real, n: Matrix, x: real, y: real, z: real, w: real,
      r0: real, r1: real, r2: real, r3: real, s0: real, s1: real, s2: real, s3: real)
    requires r0 == Row(a, c, d, e, n.m0, n.m4, n.m8, n.m12) && r1 == Row(a, c, d, e, n.m1, n.m5, n.m9, n.m13)
    requires r2 == Row(a, c, d, e, n.m2, n.m6, n.m10, n.m14) && r3 == Row(a, c, d, e, n.m3, n.m7, n.m11, n.m15)
    requires s0 == Row(n.m0, n.m1, n.m2, n.m3, x, y, z, w) && s1 == Row(n.m4, n.m5, n.m6, n.m7, x, y, z, w)
    requires s2 == Row(n.m8, n.m9, n.m10, n.m11, x, y, z, w) && s3 == Row(n.m12, n.m13, n.m14, n.m15, x, y, z, w)
    ensures Row(r0, r1, r2, r3, x, y, z, w) == Row(a, c, d, e, s0, s1, s2, s3)
  {
    hide Row;
    RowIs(n.m0, n.m1, n.m2, n.m3, x, y, z, w);
    RowIs(n.m4, n.m5, n.m6, n.m7, x, y, z, w);
    RowIs(n.m8, n.m9, n.m10, n.m11, x, y, z, w);
    RowIs(n.m12, n.m13, n.m14, n.m15, x, y, z, w);
    RowAdds(
      a, c, d, e, n.m0 * x, n.m1 * y, n.m2 * z, n.m3 * w, n.m4 * x, n.m5 * y, n.m6 * z, n.m7 * w,
      n.m8 * x, n.m9 * y, n.m10 * z, n.m11 * w, n.m12 * x, n.m13 * y, n.m14 * z, n.m15 * w, s0, s1, s2, s3);
    RowScales(a, c, d, e, n.m0 * x, n.m4 * x, n.m8 * x, n.m12 * x, x, n.m0, n.m4, n.m8, n.m12);
    RowScales(a, c, d, e, n.m1 * y, n.m5 * y, n.m9 * y, n.m13 * y, y, n.m1, n.m5, n.m9, n.m13);
    RowScales(a, c, d, e, n.m2 * z, n.m6 * z, n.m10 * z, n.m14 * z, z, n.m2, n.m6, n.m10, n.m14);
    RowScales(a, c, d, e, n.m3 * w, n.m7 * w, n.m11 * w, n.m15 * w, w, n.m3, n.m7, n.m11, n.m15);
    RowIs(r0, r1, r2, r3, x, y, z, w);
  }

  /** Applying a product is applying its right factor, then its left one. */
  lemma MulComposes(a: Matrix, b: Matrix, h: HVect)
    ensures Mat4x4Pnt(Mul(a, b), h) == Mat4x4Pnt(a, Mat4x4Pnt(b, h))
  {
    hide Row;
    var c, g := Mul(a, b), Mat4x4Pnt(b, h);
    RowTwice(a.m0, a.m1, a.m2, a.m3, b, h.x, h.y, h.z, h.w, c.m0, c.m1, c.m2, c.m3, g.x, g.y, g.z, g.w);
    RowTwice(a.m4, a.m5, a.m6, a.m7, b, h.x, h.y, h.z, h.w, c.m4, c.m5, c.m6, c.m7, g.x, g.y, g.z, g.w);
    RowTwice(a.m8, a.m9, a.m10, a.m11, b, h.x, h.y, h.z, h.w, c.m8, c.m9, c.m10, c.m11, g.x, g.y, g.z, g.w);
    RowTwice(a.m12, a.m13, a.m14, a.m15, b, h.x, h.y, h.z, h.w, c.m12, c.m13, c.m14, c.m15, g.x, g.y, g.z, g.w);
  }

  /** The product of the matrices, the first to apply on the right. */
  function Combined(ms: seq<Matrix>): Matrix
    requires ms != []
  {
    if |ms| == 1 then ms[0] else Mul(ms[|ms| - 1], Combined(ms[..|ms| - 1]))
  }

  /** The whole pipeline is one matrix and one division. */
  lemma {:induction false} PipelineIsOneMatrix(ms: seq<Matrix>, p: Vec3)
    requires ms != []
    ensures Homogeneous(ms, Lift(p)) == Mat4x4Pnt(Combined(ms), Lift(p))
    ensures EachStep(ms, p).At? ==>
      Denominator(Combined(ms), p) != 0.0 && EachStep(ms, p).p == Mat4x3Pnt(Combined(ms), p)
  {
    hide Row, Mat4x3Pnt, Mat4x4Pnt, Denominator, Mul;
    DivideOnce(ms, p);
    if |ms| == 1 {
      assert ms[..0] == [];
    } else {
      PipelineIsOneMatrix(ms[..|ms| - 1], p);
      MulComposes(ms[|ms| - 1], Combined(ms[..|ms| - 1]), Lift(p));
    }
    LiftDivides(p);
    DivideAfter(Combined(ms), Lift(p), p);
  }

  lemma LiftDivides(p: Vec3)
    ensures p == HDivide(Lift(p))
  {
  }

  // --- arrays

  function MatrixIn(a: array<real>): Matrix
    requires a.Length == 16
    reads a
  {
    Matrix(a[0], a[1], a[2], a[3], a[4], a[5], a[6], a[7], a[8], a[9], a[10], a[11], a[12], a[13], a[14], a[15])
  }

  function PointIn(a: array<real>): Vec3
    requires a.Length >= 3
    reads a
  {
    Vec3(a[0], a[1], a[2])
  }

  /** `MAT_TRANSPOSE`, whose comment rules out transposing in place. */
  method TransposeInto(t: array<real>, m: array<real>)
    requires t.Length == m.Length == 16 && t != m
    modifies t
    ensures MatrixIn(t) == Transpose(MatrixIn(m))
    ensures forall r, c :: 0 <= r < 4 && 0 <= c < 4 ==> t[4 * r + c] == m[4 * c + r]
  {
    t[0] := m[0];
    t[4] := m[1];
    t[8] := m[2];
    t[12] := m[3];
    t[1] := m[4];
    t[5] := m[5];
    t[9] := m[6];
    t[13] := m[7];
    t[2] := m[8];
    t[6] := m[9];
    t[10] := m[10];
    t[14] := m[11];
    t[3] := m[12];
    t[7] := m[13];
    t[11] := m[14];
    t[15] := m[15];
  }

  lemma RowOver(a: real, b: real, c: real, e: real, x: real, y: real, z: real, d: real)
    requires d != 0.0
    ensures Row(a, b, c, e, x, y, z, 1.0) * (1.0 / d) * d == a * x + b * y + c * z + e
  {
    var f, r := 1.0 / d, a * x + b * y + c * z + e;
    assert f * d == 1.0;
    assert r * f * d == r * (f * d);
  }

  /** `MAT4X3PNT`; output and input are separate arrays, as its comment asks. */
  method Mat4x3PntInto(o: array<real>, m: array<real>, i: array<real>)
    requires o.Length == i.Length == 3 && m.Length == 16 && o != i
    requires Denominator(MatrixIn(m), PointIn(i)) != 0.0
    modifies o
    ensures PointIn(o) == Mat4x3Pnt(MatrixIn(m), PointIn(i))
    ensures var d := m[12] * i[0] + m[13] * i[1] + m[14] * i[2] + m[15];
      && o[0] * d == m[0] * i[0] + m[1] * i[1] + m[2] * i[2] + m[3]
      && o[1] * d == m[4] * i[0] + m[5] * i[1] + m[6] * i[2] + m[7]
      && o[2] * d == m[8] * i[0] + m[9] * i[1] + m[10] * i[2] + m[11]
  {
    hide Row;
    RowIs(m[12], m[13], m[14], m[15], i[0], i[1], i[2], 1.0);
    ghost var d := Row(m[12], m[13], m[14], m[15], i[0], i[1], i[2], 1.0);
    RowOver(m[0], m[1], m[2], m[3], i[0], i[1], i[2], d);
    RowOver(m[4], m[5], m[6], m[7], i[0], i[1], i[2], d);
    RowOver(m[8], m[9], m[10], m[11], i[0], i[1], i[2], d);
    var f := 1.0 / Row(m[12], m[13], m[14], m[15], i[0], i[1], i[2], 1.0);
    o[0] := Row(m[0], m[1], m[2], m[3], i[0], i[1], i[2], 1.0) * f;
    o[1] := Row(m[4], m[5], m[6], m[7], i[0], i[1], i[2], 1.0) * f;
    o[2] := Row(m[8], m[9], m[10], m[11], i[0], i[1], i[2], 1.0) * f;
  }
}
