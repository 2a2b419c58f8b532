/** The 3x3 matrices of bn/anim.h. */
module Mat3 {
  import opened VMath
  import Mat4

  datatype Matrix = Matrix(
    m0: real, m1: real, m2: real,
    m3: real, m4: real, m5: real,
    m6: real, m7: real, m8: real)

  const IDN := Matrix(1.0, 0.0, 0.0, 0.0, 1.0, 0.0, 0.0, 0.0, 1.0)

  function Row(a: real, b: real, c: real, x: real, y: real, z: real): real
  {
    a * x + b * y + c * z
  }

  /** `MAT3MUL`. */
  function Mul(a: Matrix, b: Matrix): Matrix
  {
    Matrix(
      Row(a.m0, a.m1, a.m2, b.m0, b.m3, b.m6), Row(a.m0, a.m1, a.m2, b.m1, b.m4, b.m7),
      Row(a.m0, a.m1, a.m2, b.m2, b.m5, b.m8),
      Row(a.m3, a.m4, a.m5, b.m0, b.m3, b.m6), Row(a.m3, a.m4, a.m5, b.m1, b.m4, b.m7),
      Row(a.m3, a.m4, a.m5, b.m2, b.m5, b.m8),
      Row(a.m6, a.m7, a.m8, b.m0, b.m3, b.m6), Row(a.m6, a.m7, a.m8, b.m1, b.m4, b.m7),
      Row(a.m6, a.m7, a.m8, b.m2, b.m5, b.m8))
  }

  /** `MAT3XVEC`. */
  function XVec(m: Matrix, v: Vec3): Vec3
  {
    Vec3(
      Row(m.m0, m.m1, m.m2, v.x, v.y, v.z),
      Row(m.m3, m.m4, m.m5, v.x, v.y, v.z),
      Row(m.m6, m.m7, m.m8, v.x, v.y, v.z))
  }

  /** `MAT3TO4`. */
  function To4(i: Matrix): Mat4.Matrix
  {
    Mat4.Matrix(i.m0, i.m1, i.m2, 0.0, i.m3, i.m4, i.m5, 0.0, i.m6, i.m7, i.m8, 0.0, 0.0, 0.0, 0.0, 1.0)
  }

  /** `MAT4TO3`. */
  function To3(i: Mat4.Matrix): Matrix
  {
    Matrix(i.m0, i.m1, i.m2, i.m4, i.m5, i.m6, i.m8, i.m9, i.m10)
  }

  /** `MAKE_TILDE`. */
  function Tilde(v: Vec3): Matrix
  {
    Matrix(0.0, -v.z, v.y, v.z, 0.0, -v.x, -v.y, v.x, 0.0)
  }

  lemma RowTwice(
      a: real, c: real, d: real, n: Matrix, x: real, y: real, z: real,
      r0: real, r1: real, r2: real, s0: real, s1: real, s2: real)
    requires r0 == Row(a, c, d, n.m0, n.m3, n.m6) && r1 == Row(a, c, d, n.m1, n.m4, n.m7)
    requires r2 == Row(a, c, d, n.m2, n.m5, n.m8) && s0 == Row(n.m0, n.m1, n.m2, x, y, z)
    requires s1 == Row(n.m3, n.m4, n.m5, x, y, z) && s2 == Row(n.m6, n.m7, n.m8, x, y, z)
    ensures Row(r0, r1, r2, x, y, z) == Row(a, c, d, s0, s1, s2)
  {
  }

  lemma MulAssociative(a: Matrix, b: Matrix, c: Matrix)
    ensures Mul(Mul(a, b), c) == Mul(a, Mul(b, c))
  {
    hide Row;
    var p, q := Mul(a, b), Mul(b, c);
    RowTwice(a.m0, a.m1, a.m2, b, c.m0, c.m3, c.m6, p.m0, p.m1, p.m2, q.m0, q.m3, q.m6);
    RowTwice(a.m0, a.m1, a.m2, b, c.m1, c.m4, c.m7, p.m0, p.m1, p.m2, q.m1, q.m4, q.m7);
    RowTwice(a.m0, a.m1, a.m2, b, c.m2, c.m5, c.m8, p.m0, p.m1, p.m2, q.m2, q.m5, q.m8);
    RowTwice(a.m3, a.m4, a.m5, b, c.m0, c.m3, c.m6, p.m3, p.m4, p.m5, q.m0, q.m3, q.m6);
    RowTwice(a.m3, a.m4, a.m5, b, c.m1, c.m4, c.m7, p.m3, p.m4, p.m5, q.m1, q.m4, q.m7);
    RowTwice(a.m3, a.m4, a.m5, b, c.m2, c.m5, c.m8, p.m3, p.m4, p.m5, q.m2, q.m5, q.m8);
    RowTwice(a.m6, a.m7, a.m8, b, c.m0, c.m3, c.m6, p.m6, p.m7, p.m8, q.m0, q.m3, q.m6);
    RowTwice(a.m6, a.m7, a.m8, b, c.m1, c.m4, c.m7, p.m6, p.m7, p.m8, q.m1, q.m4, q.m7);
    RowTwice(a.m6, a.m7, a.m8, b, c.m2, c.m5, c.m8, p.m6, p.m7, p.m8, q.m2, q.m5, q.m8);
  }

  /** Applying a product is applying its right factor, then its left one. */
  lemma MulComposes(a: Matrix, b: Matrix, v: Vec3)
    ensures XVec(Mul(a, b), v) == XVec(a, XVec(b, v))
  {
    hide Row;
    var p, u := Mul(a, b), XVec(b, v);
    RowTwice(a.m0, a.m1, a.m2, b, v.x, v.y, v.z, p.m0, p.m1, p.m2, u.x, u.y, u.z);
    RowTwice(a.m3, a.m4, a.m5, b, v.x, v.y, v.z, p.m3, p.m4, p.m5, u.x, u.y, u.z);
    RowTwice(a.m6, a.m7, a.m8, b, v.x, v.y, v.z, p.m6, p.m7, p.m8, u.x, u.y, u.z);
  }

  lemma IdentityMul(m: Matrix)
    ensures Mul(IDN, m) == m == Mul(m, IDN)
  {
  }

  /** The product of the matrices, the first to apply on the right. */
  function Product(ms: seq<Matrix>): Matrix
  {
    if ms == [] then IDN else Mul(ms[|ms| - 1], Product(ms[..|ms| - 1]))
  }

  function EachInTurn(ms: seq<Matrix>, v: Vec3): Vec3
  {
    if ms == [] then v else XVec(ms[|ms| - 1], EachInTurn(ms[..|ms| - 1], v))
  }

  lemma {:induction false} ProductApplies(ms: seq<Matrix>, v: Vec3)
    ensures XVec(Product(ms), v) == EachInTurn(ms, v)
  {
    hide Mul, XVec;
    if ms == [] {
      IdentityApplies(v);
    } else {
      ProductApplies(ms[..|ms| - 1], v);
      MulComposes(ms[|ms| - 1], Product(ms[..|ms| - 1]), v);
    }
  }

  lemma IdentityApplies(v: Vec3)
    ensures XVec(IDN, v) == v
  {
  }

  /** However a run of matrices is split in two, the products multiply. */
  lemma {:induction false} ProductSplits(ms: seq<Matrix>, ns: seq<Matrix>)
    ensures Product(ms + ns) == Mul(Product(ns), Product(ms))
  {
    hide Mul;
    if ns == [] {
      assert ms + ns == ms;
      IdentityMul(Product(ms));
    } else {
      var n := |ns| - 1;
      assert (ms + ns)[..|ms| + n] == ms + ns[..n];
      ProductSplits(ms, ns[..n]);
      MulAssociative(ns[n], Product(ns[..n]), Product(ms));
    }
  }

  lemma RowIn4(a: real, b: real, c: real, d: real, x: real, y: real, z: real, w: real)
    requires d == 0.0 || w == 0.0
    ensures Mat4.Row(a, b, c, d, x, y, z, w) == Row(a, b, c, x, y, z)
  {
  }

  /** The 4x4 form is faithful: it can be undone, it moves points and directions as
      the 3x3 form does, and it carries products to products. */
  lemma To4IsFaithful(m: Matrix, v: Vec3)
    ensures To3(To4(m)) == m
    ensures Mat4.Denominator(To4(m), v) == 1.0
    ensures Mat4.Mat4x3Pnt(To4(m), v) == XVec(m, v) == Mat4.Mat4x3Vec(To4(m), v)
  {
  }

  lemma RowUnscaled(a: real, b: real, c: real, x: real, y: real, z: real, d: real)
    requires d != 0.0
    ensures Mat4.Row(a, b, c, 0.0, x, y, z, 0.0) * (1.0 / d) * d == Row(a, b, c, x, y, z)
  {
    var f, r := 1.0 / d, Mat4.Row(a, b, c, 0.0, x, y, z, 0.0);
    assert f * d == 1.0;
    assert r * f * d == r * (f * d);
  }

  /** What `MAT4TO3` keeps of any 4x4 matrix is how it moves directions, up to its
      last element. */
  lemma To3MovesDirections(m: Mat4.Matrix, v: Vec3)
    requires m.m15 != 0.0
    ensures Scale(Mat4.Mat4x3Vec(m, v), m.m15) == XVec(To3(m), v)
  {
    hide Row, Mat4.Row;
    RowUnscaled(m.m0, m.m1, m.m2, v.x, v.y, v.z, m.m15);
    RowUnscaled(m.m4, m.m5, m.m6, v.x, v.y, v.z, m.m15);
    RowUnscaled(m.m8, m.m9, m.m10, v.x, v.y, v.z, m.m15);
  }

  /** Padding does not change a product: the 4x4 product of two padded matrices is
      their padded 3x3 product. */
  lemma To4Multiplies(a: Matrix, b: Matrix)
    ensures Mat4.Mul(To4(a), To4(b)) == To4(Mul(a, b))
  {
    hide Row, Mat4.Row;
    RowIn4(a.m0, a.m1, a.m2, 0.0, b.m0, b.m3, b.m6, 0.0);
    RowIn4(a.m0, a.m1, a.m2, 0.0, b.m1, b.m4, b.m7, 0.0);
    RowIn4(a.m0, a.m1, a.m2, 0.0, b.m2, b.m5, b.m8, 0.0);
    RowIn4(a.m3, a.m4, a.m5, 0.0, b.m0, b.m3, b.m6, 0.0);
    RowIn4(a.m3, a.m4, a.m5, 0.0, b.m1, b.m4, b.m7, 0.0);
    RowIn4(a.m3, a.m4, a.m5, 0.0, b.m2, b.m5, b.m8, 0.0);
    RowIn4(a.m6, a.m7, a.m8, 0.0, b.m0, b.m3, b.m6, 0.0);
    RowIn4(a.m6, a.m7, a.m8, 0.0, b.m1, b.m4, b.m7, 0.0);
    RowIn4(a.m6, a.m7, a.m8, 0.0, b.m2, b.m5, b.m8, 0.0);
    RowOfUnits(a.m0, a.m1, a.m2, 0.0);
    RowOfUnits(a.m3, a.m4, a.m5, 0.0);
    RowOfUnits(a.m6, a.m7, a.m8, 0.0);
    RowOfUnits(b.m0, b.m3, b.m6, 0.0);
    RowOfUnits(b.m1, b.m4, b.m7, 0.0);
    RowOfUnits(b.m2, b.m5, b.m8, 0.0);
    RowOfUnits(0.0, 0.0, 0.0, 1.0);
  }

  /** A row or column whose only nonzero element is a last 1 picks the last element. */
  lemma RowOfUnits(a: real, b: real, c: real, d: real)
    ensures Mat4.Row(a, b, c, d, 0.0, 0.0, 0.0, 1.0) == d == Mat4.Row(0.0, 0.0, 0.0, 1.0, a, b, c, d)
  {
  }

  /** The tilde matrix of `v` takes a vector to its cross product with `v`. */
  lemma TildeIsCross(v: Vec3, a: Vec3)
    ensures XVec(Tilde(v), a) == Cross(v, a)
  {
  }

  lemma TripleLane(
      vx: real, vy: real, vz: real, ax: real, ay: real, az: real, cx: real, cy: real, cz: real, va: real, vv: real)
    requires cx == vy * az - vz * ay && cy == vz * ax - vx * az && cz == vx * ay - vy * ax
    requires va == vx * ax + vy * ay + vz * az && vv == vx * vx + vy * vy + vz * vz
    ensures vy * cz - vz * cy == vx * va - ax * vv
  {
  }

  lemma TripleX(v: Vec3, a: Vec3, c: Vec3, va: real, vv: real)
    requires c == Cross(v, a) && va == Dot(v, a) && vv == Dot(v, v)
    ensures Cross(v, c).x == Sub(Scale(v, va), Scale(a, vv)).x
  {
    TripleLane(v.x, v.y, v.z, a.x, a.y, a.z, c.x, c.y, c.z, va, vv);
  }

  lemma TripleY(v: Vec3, a: Vec3, c: Vec3, va: real, vv: real)
    requires c == Cross(v, a) && va == Dot(v, a) && vv == Dot(v, v)
    ensures Cross(v, c).y == Sub(Scale(v, va), Scale(a, vv)).y
  {
    TripleLane(v.y, v.z, v.x, a.y, a.z, a.x, c.y, c.z, c.x, va, vv);
  }

  lemma TripleZ(v: Vec3, a: Vec3, c: Vec3, va: real, vv: real)
    requires c == Cross(v, a) && va == Dot(v, a) && vv == Dot(v, v)
    ensures Cross(v, c).z == Sub(Scale(v, va), Scale(a, vv)).z
  {
    TripleLane(v.z, v.x, v.y, a.z, a.x, a.y, c.z, c.x, c.y, va, vv);
  }

  /** So its square takes `a` to v x (v x a), which is (v.a) v - (v.v) a. */
  lemma TildeSquared(v: Vec3, a: Vec3)
    ensures XVec(Mul(Tilde(v), Tilde(v)), a) == Cross(v, Cross(v, a)) == Sub(Scale(v, Dot(v, a)), Scale(a, Dot(v, v)))
  {
    hide XVec, Mul, Tilde, Cross, Dot, Sub, Scale;
    var c := Cross(v, a);
    MulComposes(Tilde(v), Tilde(v), a);
    TildeIsCross(v, a);
    TildeIsCross(v, c);
    TripleX(v, a, c, Dot(v, a), Dot(v, v));
    TripleY(v, a, c, Dot(v, a), Dot(v, v));
    TripleZ(v, a, c, Dot(v, a), Dot(v, v));
  }

  // --- arrays

  function In(a: array<real>): Matrix
    requires a.Length == 9
    reads a
  {
    Matrix(a[0], a[1], a[2], a[3], a[4], a[5], a[6], a[7], a[8])
  }

  /** Three elements that are stored one after the other, each read by the next:
      a row of `MAT3MUL` written over its first operand. */
  function RowOver(x: real, y: real, z: real, b: Matrix): Vec3
  {
    var n0 := Row(x, y, z, b.m0, b.m3, b.m6);
    var n1 := Row(n0, y, z, b.m1, b.m4, b.m7);
    Vec3(n0, n1, Row(n0, n1, z, b.m2, b.m5, b.m8))
  }

  /** And a column of it written over its second operand. */
  function ColumnOver(a: Matrix, x: real, y: real, z: real): Vec3
  {
    var n0 := Row(a.m0, a.m1, a.m2, x, y, z);
    var n1 := Row(a.m3, a.m4, a.m5, n0, y, z);
    Vec3(n0, n1, Row(a.m6, a.m7, a.m8, n0, n1, z))
  }

  function FromRows(r: Vec3, s: Vec3, t: Vec3): Matrix
  {
    Matrix(r.x, r.y, r.z, s.x, s.y, s.z, t.x, t.y, t.z)
  }

  function FromColumns(r: Vec3, s: Vec3, t: Vec3): Matrix
  {
    Matrix(r.x, s.x, t.x, r.y, s.y, t.y, r.z, s.z, t.z)
  }

  /** What `MAT3MUL` leaves in its first operand, or in its second. */
  function MulOverLeft(a: Matrix, b: Matrix): Matrix
  {
    FromRows(RowOver(a.m0, a.m1, a.m2, b), RowOver(a.m3, a.m4, a.m5, b), RowOver(a.m6, a.m7, a.m8, b))
  }

  function MulOverRight(a: Matrix, b: Matrix): Matrix
  {
    FromColumns(ColumnOver(a, b.m0, b.m3, b.m6), ColumnOver(a, b.m1, b.m4, b.m7), ColumnOver(a, b.m2, b.m5, b.m8))
  }

  /** And what it leaves when it squares a matrix in place. */
  function SquareOver(a: Matrix): Matrix
  {
    var n0 := Row(a.m0, a.m1, a.m2, a.m0, a.m3, a.m6);
    var n1 := Row(n0, a.m1, a.m2, a.m1, a.m4, a.m7);
    var n2 := Row(n0, n1, a.m2, a.m2, a.m5, a.m8);
    var n3 := Row(a.m3, a.m4, a.m5, n0, a.m3, a.m6);
    var n4 := Row(n3, a.m4, a.m5, n1, a.m4, a.m7);
    var n5 := Row(n3, n4, a.m5, n2, a.m5, a.m8);
    var n6 := Row(a.m6, a.m7, a.m8, n0, n3, a.m6);
    var n7 := Row(n6, a.m7, a.m8, n1, n4, a.m7);
    Matrix(n0, n1, n2, n3, n4, n5, n6, n7, Row(n6, n7, a.m8, n2, n5, a.m8))
  }

  lemma RowShifts(a: real, b: real, c: real, x: real, y: real, z: real, d: real, e: real)
    ensures Row(d, b, c, x, y, z) == Row(a, b, c, x, y, z) + (d - a) * x
    ensures Row(d, e, c, x, y, z) == Row(d, b, c, x, y, z) + (e - b) * y
  {
  }

  lemma RowSwaps(a: real, b: real, c: real, x: real, y: real, z: real)
    ensures Row(a, b, c, x, y, z) == Row(x, y, z, a, b, c)
  {
  }

  /** Written over, the elements are right exactly if the changes before them cancel. */
  lemma OverIff(p0: real, p1: real, p2: real, n1: real, n2: real, x: real, y: real, b1: real, b2: real, b5: real)
    requires n1 == p1 + (p0 - x) * b1 && n2 == p2 + (p0 - x) * b2 + (n1 - y) * b5
    ensures n1 == p1 && n2 == p2 <==> (p0 - x) * b1 == 0.0 && (p0 - x) * b2 + (p1 - y) * b5 == 0.0
  {
    if n1 == p1 {
      assert (n1 - y) * b5 == (p1 - y) * b5;
    }
  }

  /** A row of the product cancels what its first two elements change. */
  predicate RowKeeps(x: real, y: real, z: real, b: Matrix)
  {
    var d0, d1 := Row(x, y, z, b.m0, b.m3, b.m6) - x, Row(x, y, z, b.m1, b.m4, b.m7) - y;
    d0 * b.m1 == 0.0 && d0 * b.m2 + d1 * b.m5 == 0.0
  }

  predicate ColumnKeeps(a: Matrix, x: real, y: real, z: real)
  {
    var d0, d1 := Row(a.m0, a.m1, a.m2, x, y, z) - x, Row(a.m3, a.m4, a.m5, x, y, z) - y;
    d0 * a.m3 == 0.0 && d0 * a.m6 + d1 * a.m7 == 0.0
  }

  lemma RowOverIff(x: real, y: real, z: real, b: Matrix)
    ensures RowOver(x, y, z, b).x == Row(x, y, z, b.m0, b.m3, b.m6)
    ensures RowKeeps(x, y, z, b) <==>
      RowOver(x, y, z, b).y == Row(x, y, z, b.m1, b.m4, b.m7) && RowOver(x, y, z, b).z == Row(x, y, z, b.m2, b.m5, b.m8)
  {
    hide Row;
    var p0, p1 := Row(x, y, z, b.m0, b.m3, b.m6), Row(x, y, z, b.m1, b.m4, b.m7);
    var p2, n := Row(x, y, z, b.m2, b.m5, b.m8), RowOver(x, y, z, b);
    RowShifts(x, y, z, b.m1, b.m4, b.m7, p0, y);
    RowShifts(x, y, z, b.m2, b.m5, b.m8, p0, n.y);
    OverIff(p0, p1, p2, n.y, n.z, x, y, b.m1, b.m2, b.m5);
  }

  lemma ColumnOverIff(a: Matrix, x: real, y: real, z: real)
    ensures ColumnOver(a, x, y, z).x == Row(a.m0, a.m1, a.m2, x, y, z)
    ensures ColumnKeeps(a, x, y, z) <==>
      ColumnOver(a, x, y, z).y == Row(a.m3, a.m4, a.m5, x, y, z)
      && ColumnOver(a, x, y, z).z == Row(a.m6, a.m7, a.m8, x, y, z)
  {
    hide Row;
    var p0, p1 := Row(a.m0, a.m1, a.m2, x, y, z), Row(a.m3, a.m4, a.m5, x, y, z);
    var p2, n := Row(a.m6, a.m7, a.m8, x, y, z), ColumnOver(a, x, y, z);
    RowSwaps(a.m3, a.m4, a.m5, x, y, z);
    RowSwaps(a.m3, a.m4, a.m5, p0, y, z);
    RowSwaps(a.m6, a.m7, a.m8, x, y, z);
    RowSwaps(a.m6, a.m7, a.m8, p0, n.y, z);
    RowShifts(x, y, z, a.m3, a.m4, a.m5, p0, y);
    RowShifts(x, y, z, a.m6, a.m7, a.m8, p0, n.y);
    OverIff(p0, p1, p2, n.y, n.z, x, y, a.m3, a.m6, a.m7);
  }

  /** Over its first operand it multiplies exactly if every row cancels its changes. */
  lemma MulOverLeftIff(a: Matrix, b: Matrix)
    ensures MulOverLeft(a, b) == Mul(a, b)
      <==> RowKeeps(a.m0, a.m1, a.m2, b) && RowKeeps(a.m3, a.m4, a.m5, b) && RowKeeps(a.m6, a.m7, a.m8, b)
  {
    hide Row, RowOver, RowKeeps;
    RowOverIff(a.m0, a.m1, a.m2, b);
    RowOverIff(a.m3, a.m4, a.m5, b);
    RowOverIff(a.m6, a.m7, a.m8, b);
  }

  /** Over its second operand exactly if every column does. */
  lemma MulOverRightIff(a: Matrix, b: Matrix)
    ensures MulOverRight(a, b) == Mul(a, b)
      <==> ColumnKeeps(a, b.m0, b.m3, b.m6) && ColumnKeeps(a, b.m1, b.m4, b.m7) && ColumnKeeps(a, b.m2, b.m5, b.m8)
  {
    hide Row, ColumnOver, ColumnKeeps;
    ColumnOverIff(a, b.m0, b.m3, b.m6);
    ColumnOverIff(a, b.m1, b.m4, b.m7);
    ColumnOverIff(a, b.m2, b.m5, b.m8);
  }

  /** What a product gains when its factors change from x and u to p and q. */
  function Gain(p: real, q: real, x: real, u: real): real
  {
    p * q - x * u
  }

  lemma GainIff(p: real, p': real, q: real, q': real, x: real, y: real, z: real, u: real, v: real, w: real)
    ensures Row(p, p', z, q, q', w) == Row(x, y, z, u, v, w) <==> Gain(p, q, x, u) + Gain(p', q', y, v) == 0.0
  {
  }

  lemma GainsNothing(x: real, u: real)
    ensures Gain(x, u, x, u) == 0.0
  {
  }

  /** What each element gains from the elements stored before it, when these are
      right, comes to nothing. */
  predicate SquareKeeps(a: Matrix)
  {
    var p := Mul(a, a);
    Gain(p.m0, a.m1, a.m0, a.m1) == 0.0
    && Gain(p.m0, a.m2, a.m0, a.m2) + Gain(p.m1, a.m5, a.m1, a.m5) == 0.0
    && Gain(a.m3, p.m0, a.m3, a.m0) == 0.0
    && Gain(p.m3, p.m1, a.m3, a.m1) == 0.0
    && Gain(p.m3, p.m2, a.m3, a.m2) + Gain(p.m4, a.m5, a.m4, a.m5) == 0.0
    && Gain(a.m6, p.m0, a.m6, a.m0) + Gain(a.m7, p.m3, a.m7, a.m3) == 0.0
    && Gain(p.m6, p.m1, a.m6, a.m1) + Gain(a.m7, p.m4, a.m7, a.m4) == 0.0
    && Gain(p.m6, p.m2, a.m6, a.m2) + Gain(p.m7, p.m5, a.m7, a.m5) == 0.0
  }

  /** In place it squares exactly if the gains of every element cancel. */
  lemma SquareOverIff(a: Matrix)
    ensures SquareOver(a) == Mul(a, a) <==> SquareKeeps(a)
  {
    hide Row, Gain;
    var p := Mul(a, a);
    GainsNothing(a.m1, a.m4);
    GainsNothing(a.m4, a.m3);
    GainsNothing(a.m4, a.m4);
    GainIff(p.m0, a.m1, a.m1, a.m4, a.m0, a.m1, a.m2, a.m1, a.m4, a.m7);
    GainIff(p.m0, p.m1, a.m2, a.m5, a.m0, a.m1, a.m2, a.m2, a.m5, a.m8);
    GainIff(a.m3, a.m4, p.m0, a.m3, a.m3, a.m4, a.m5, a.m0, a.m3, a.m6);
    GainIff(p.m3, a.m4, p.m1, a.m4, a.m3, a.m4, a.m5, a.m1, a.m4, a.m7);
    GainIff(p.m3, p.m4, p.m2, a.m5, a.m3, a.m4, a.m5, a.m2, a.m5, a.m8);
    GainIff(a.m6, a.m7, p.m0, p.m3, a.m6, a.m7, a.m8, a.m0, a.m3, a.m6);
    GainIff(p.m6, a.m7, p.m1, p.m4, a.m6, a.m7, a.m8, a.m1, a.m4, a.m7);
    GainIff(p.m6, p.m7, p.m2, p.m5, a.m6, a.m7, a.m8, a.m2, a.m5, a.m8);
  }

  lemma RowLost(b: Matrix)
    requires b.m0 == 0.0 && b.m1 == 1.0
    ensures !RowKeeps(1.0, 0.0, 0.0, b)
  {
    assert Row(1.0, 0.0, 0.0, b.m0, b.m3, b.m6) == 0.0;
  }

  lemma ColumnLost(a: Matrix)
    requires a.m0 == 0.0 && a.m3 == 1.0
    ensures !ColumnKeeps(a, 1.0, 0.0, 0.0)
  {
    assert Row(a.m0, a.m1, a.m2, 1.0, 0.0, 0.0) == 0.0;
  }

  lemma SquareLost(a: Matrix)
    requires a.m0 == a.m2 == 0.0 && a.m1 == a.m3 == 1.0
    ensures !SquareKeeps(a)
  {
    var p := Row(a.m0, a.m1, a.m2, a.m0, a.m3, a.m6);
    assert p == 1.0 == Mul(a, a).m0;
  }

  /** The identity times an exchange of two axes is lost over either, and so is the
      square of the exchange in place. */
  lemma MulOverDiffers(s: Matrix)
    requires s == Matrix(0.0, 1.0, 0.0, 1.0, 0.0, 0.0, 0.0, 0.0, 1.0)
    ensures MulOverLeft(IDN, s) != Mul(IDN, s)
    ensures MulOverRight(s, IDN) != Mul(s, IDN)
    ensures SquareOver(s) != Mul(s, s)
  {
    hide Mul, MulOverLeft, MulOverRight, SquareOver, RowKeeps, ColumnKeeps, SquareKeeps;
    RowLost(s);
    ColumnLost(s);
    SquareLost(s);
    MulOverLeftIff(IDN, s);
    MulOverRightIff(s, IDN);
    SquareOverIff(s);
  }

  /** `MAT3MUL`: the product if the result has an array of its own, and otherwise
      what the stores leave. */
  method MulInto(o: array<real>, a: array<real>, b: array<real>)
    requires o.Length == a.Length == b.Length == 9
    modifies o
    ensures o != a && o != b ==> In(o) == Mul(In(a), In(b))
    ensures o == a && o != b ==> In(o) == MulOverLeft(old(In(a)), In(b))
    ensures o != a && o == b ==> In(o) == MulOverRight(In(a), old(In(b)))
    ensures o == a == b ==> In(o) == SquareOver(old(In(a)))
  {
    hide Row;
    o[0] := Row(a[0], a[1], a[2], b[0], b[3], b[6]);
    o[1] := Row(a[0], a[1], a[2], b[1], b[4], b[7]);
    o[2] := Row(a[0], a[1], a[2], b[2], b[5], b[8]);
    o[3] := Row(a[3], a[4], a[5], b[0], b[3], b[6]);
    o[4] := Row(a[3], a[4], a[5], b[1], b[4], b[7]);
    o[5] := Row(a[3], a[4], a[5], b[2], b[5], b[8]);
    o[6] := Row(a[6], a[7], a[8], b[0], b[3], b[6]);
    o[7] := Row(a[6], a[7], a[8], b[1], b[4], b[7]);
    o[8] := Row(a[6], a[7], a[8], b[2], b[5], b[8]);
  }

  lemma TildeParts(v: Vec3)
    ensures Tilde(v) == Matrix(0.0, -v.z, v.y, v.z, 0.0, -v.x, -v.y, v.x, 0.0)
  {
  }

  /** `MAKE_TILDE`, with the clearing loop of `MAT3ZERO`. */
  method TildeInto(m: array<real>, v: array<real>)
    requires m.Length == 9 && v.Length == 3
    modifies m
    ensures In(m) == Tilde(Vec3(v[0], v[1], v[2]))
  {
    hide Tilde;
    for j := 0 to 9
      invariant forall k :: 0 <= k < j ==> m[k] == 0.0
    {
      m[j] := 0.0;
    }
    m[1] := -v[2];
    m[2] := v[1];
    m[3] := v[2];
    m[5] := -v[0];
    m[6] := -v[1];
    m[7] := v[0];
    TildeParts(Vec3(v[0], v[1], v[2]));
  }
}
