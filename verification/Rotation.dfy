/** Rotation matrices and the quaternions that `quat_mat2quat` of src/libbn/qmath.c
    makes of them. */
module Rotation {
  import opened VMath
  import opened Quaternion
  import opened QuatMat
  import Mat4

  predicate Orthonormal(r: Vec3, s: Vec3, t: Vec3)
  {
    && Dot(r, r) == 1.0 && Dot(s, s) == 1.0 && Dot(t, t) == 1.0
    && Dot(r, s) == 0.0 && Dot(s, t) == 0.0 && Dot(t, r) == 0.0
  }

  function Determinant(r: Vec3, s: Vec3, t: Vec3): real
  {
    Dot(r, Cross(s, t))
  }

  predicate IsRotation(m: Mat4.Matrix)
  {
    var r, s, t := Vec3(m.m0, m.m1, m.m2), Vec3(m.m4, m.m5, m.m6), Vec3(m.m8, m.m9, m.m10);
    && m.m3 == m.m7 == m.m11 == m.m12 == m.m13 == m.m14 == 0.0 && m.m15 == 1.0
    && Orthonormal(r, s, t) && Determinant(r, s, t) == 1.0
  }

  // --- rows, columns and cofactors

  /** The cross product of perpendicular unit vectors is one. */
  lemma CrossIsUnit(s: Vec3, t: Vec3)
    requires Dot(s, s) == 1.0 && Dot(t, t) == 1.0 && Dot(s, t) == 0.0
    ensures Dot(Cross(s, t), Cross(s, t)) == 1.0
  {
    Lagrange(s, t);
  }

  lemma Lagrange(s: Vec3, t: Vec3)
    ensures Dot(Cross(s, t), Cross(s, t)) == Dot(s, s) * Dot(t, t) - Dot(s, t) * Dot(s, t)
  {
  }

  lemma SameUnit(u: Vec3, v: Vec3)
    requires Dot(u, u) == 1.0 && Dot(v, v) == 1.0 && Dot(u, v) == 1.0
    ensures u == v
  {
    var x, y, z := u.x - v.x, u.y - v.y, u.z - v.z;
    var xx, yy, zz := x * x, y * y, z * z;
    Square(x, xx);
    Square(y, yy);
    Square(z, zz);
    assert xx + yy + zz == Dot(u, u) - 2.0 * Dot(u, v) + Dot(v, v);
  }

  lemma DeterminantCycles(r: Vec3, s: Vec3, t: Vec3)
    ensures Determinant(r, s, t) == Determinant(s, t, r)
  {
  }

  lemma FirstIsCross(r: Vec3, s: Vec3, t: Vec3)
    requires Orthonormal(r, s, t) && Determinant(r, s, t) == 1.0
    ensures r == Cross(s, t)
  {
    hide Dot, Cross;
    CrossIsUnit(s, t);
    SameUnit(r, Cross(s, t));
  }

  /** The elements of a rotation by rows: each is its own cofactor. */
  predicate Cofactors(a: real, b: real, c: real, d: real, e: real, f: real, g: real, h: real, k: real)
  {
    && a == e * k - f * h && b == f * g - d * k && c == d * h - e * g
    && d == h * c - k * b && e == k * a - g * c && f == g * b - h * a
    && g == b * f - c * e && h == c * d - a * f && k == a * e - b * d
  }

  predicate Rows(a: real, b: real, c: real, d: real, e: real, f: real, g: real, h: real, k: real)
  {
    && a * a + b * b + c * c == 1.0 && d * d + e * e + f * f == 1.0 && g * g + h * h + k * k == 1.0
    && a * d + b * e + c * f == 0.0 && d * g + e * h + f * k == 0.0 && g * a + h * b + k * c == 0.0
  }

  predicate Turns(a: real, b: real, c: real, d: real, e: real, f: real, g: real, h: real, k: real)
  {
    Cofactors(a, b, c, d, e, f, g, h, k) && Rows(a, b, c, d, e, f, g, h, k) && Rows(a, d, g, b, e, h, c, f, k)
  }

  lemma DotIs(u: Vec3, v: Vec3)
    ensures Dot(u, v) == u.x * v.x + u.y * v.y + u.z * v.z
  {
  }

  lemma RowsOf(r: Vec3, s: Vec3, t: Vec3)
    ensures Orthonormal(r, s, t) <==> Rows(r.x, r.y, r.z, s.x, s.y, s.z, t.x, t.y, t.z)
  {
    hide Dot;
    DotIs(r, r);
    DotIs(s, s);
    DotIs(t, t);
    DotIs(r, s);
    DotIs(s, t);
    DotIs(t, r);
  }

  lemma CrossIs(u: Vec3, v: Vec3, w: Vec3)
    requires u == Cross(v, w)
    ensures u.x == v.y * w.z - v.z * w.y && u.y == v.z * w.x - v.x * w.z && u.z == v.x * w.y - v.y * w.x
  {
  }

  lemma CofactorsOf(r: Vec3, s: Vec3, t: Vec3)
    requires r == Cross(s, t) && s == Cross(t, r) && t == Cross(r, s)
    ensures Cofactors(r.x, r.y, r.z, s.x, s.y, s.z, t.x, t.y, t.z)
  {
    hide Cross;
    CrossIs(r, s, t);
    CrossIs(s, t, r);
    CrossIs(t, r, s);
  }

  lemma OrthonormalCycles(r: Vec3, s: Vec3, t: Vec3)
    requires Orthonormal(r, s, t)
    ensures Orthonormal(s, t, r)
  {
    hide Dot;
  }

  /** Each row is the cross product of the others. */
  lemma RowsAreCrosses(r: Vec3, s: Vec3, t: Vec3)
    requires Orthonormal(r, s, t) && Determinant(r, s, t) == 1.0
    ensures r == Cross(s, t) && s == Cross(t, r) && t == Cross(r, s)
  {
    hide Orthonormal, Determinant, Cross;
    OrthonormalCycles(r, s, t);
    OrthonormalCycles(s, t, r);
    DeterminantCycles(r, s, t);
    DeterminantCycles(s, t, r);
    FirstIsCross(r, s, t);
    FirstIsCross(s, t, r);
    FirstIsCross(t, r, s);
  }

  /** A column is perpendicular to the next, since the cofactors of the one are
      those of a matrix that has the other twice. */
  lemma ColumnPair(a: real, b: real, c: real, d: real, e: real, f: real, g: real, h: real, k: real)
    requires b == f * g - d * k && e == k * a - g * c && h == c * d - a * f
    ensures a * b + d * e + g * h == 0.0
  {
  }

  lemma ColumnUnit(a: real, b: real, c: real, d: real, e: real, f: real, g: real, h: real, k: real)
    requires Cofactors(a, b, c, d, e, f, g, h, k) && a * a + b * b + c * c == 1.0
    ensures a * a + d * d + g * g == 1.0
  {
    assert b * b == f * g * b - d * k * b && c * c == d * h * c - e * g * c;
    assert d * d == h * c * d - k * b * d && g * g == b * f * g - c * e * g;
  }

  lemma ColumnsFollow(a: real, b: real, c: real, d: real, e: real, f: real, g: real, h: real, k: real)
    requires Cofactors(a, b, c, d, e, f, g, h, k) && Rows(a, b, c, d, e, f, g, h, k)
    ensures Turns(a, b, c, d, e, f, g, h, k)
  {
    ColumnUnit(a, b, c, d, e, f, g, h, k);
    ColumnUnit(e, f, d, h, k, g, b, c, a);
    ColumnUnit(k, g, h, c, a, b, f, d, e);
    ColumnPair(a, b, c, d, e, f, g, h, k);
    ColumnPair(b, c, a, e, f, d, h, k, g);
    ColumnPair(c, a, b, f, d, e, k, g, h);
  }

  lemma RotationTurns(m: Mat4.Matrix)
    requires IsRotation(m)
    ensures Turns(m.m0, m.m1, m.m2, m.m4, m.m5, m.m6, m.m8, m.m9, m.m10)
  {
    hide Orthonormal, Determinant, Cross, Rows, Cofactors, Turns;
    var r, s, t := Vec3(m.m0, m.m1, m.m2), Vec3(m.m4, m.m5, m.m6), Vec3(m.m8, m.m9, m.m10);
    RowsAreCrosses(r, s, t);
    RowsOf(r, s, t);
    CofactorsOf(r, s, t);
    ColumnsFollow(m.m0, m.m1, m.m2, m.m4, m.m5, m.m6, m.m8, m.m9, m.m10);
  }

  /** The same with the axes renamed. */
  lemma TurnsCycle(a: real, b: real, c: real, d: real, e: real, f: real, g: real, h: real, k: real)
    requires Turns(a, b, c, d, e, f, g, h, k)
    ensures Turns(e, f, d, h, k, g, b, c, a)
  {
  }

  // --- the products of the elements of the quaternion

  /** Two squares. */
  lemma SquareXY(a: real, b: real, c: real, d: real, e: real, f: real, k: real)
    requires k == a * e - b * d && a * a + b * b + c * c == 1.0 && d * d + e * e + f * f == 1.0
    requires c * c + f * f + k * k == 1.0
    ensures (b + d) * (b + d) == (1.0 + a - e - k) * (1.0 - a + e - k)
  {
  }

  lemma SquareXW(a: real, d: real, e: real, f: real, g: real, h: real, k: real)
    requires a == e * k - f * h && d * d + e * e + f * f == 1.0 && g * g + h * h + k * k == 1.0
    requires a * a + d * d + g * g == 1.0
    ensures (f - h) * (f - h) == (1.0 + a - e - k) * (1.0 + a + e + k)
  {
  }

  /** And the products of two elements other than the pivot, W or X. */
  lemma PairXYOverW(a: real, b: real, c: real, d: real, e: real, f: real, g: real, h: real, k: real)
    requires b == f * g - d * k && d == h * c - k * b
    requires a * d + b * e + c * f == 0.0 && a * b + d * e + g * h == 0.0
    ensures (f - h) * (g - c) == (b + d) * (1.0 + a + e + k)
  {
  }

  lemma PairYZOverX(a: real, b: real, c: real, d: real, e: real, f: real, g: real, h: real, k: real)
    requires f == g * b - h * a && h == c * d - a * f
    requires b * c + e * f + h * k == 0.0 && d * g + e * h + f * k == 0.0
    ensures (b + d) * (c + g) == (f + h) * (1.0 + a - e - k)
  {
  }

  lemma PairYWOverX(a: real, b: real, c: real, d: real, e: real, f: real, g: real, h: real, k: real)
    requires g == b * f - c * e && c == d * h - e * g
    requires g * a + h * b + k * c == 0.0 && c * a + f * d + k * g == 0.0
    ensures (b + d) * (f - h) == (g - c) * (1.0 + a - e - k)
  {
  }

  lemma PairZWOverX(a: real, b: real, c: real, d: real, e: real, f: real, g: real, h: real, k: real)
    requires b == f * g - d * k && d == h * c - k * b
    requires a * d + b * e + c * f == 0.0 && a * b + d * e + g * h == 0.0
    ensures (c + g) * (f - h) == (b - d) * (1.0 + a - e - k)
  {
  }

  /** All of these, by one of the axes. */
  lemma AboutX(a: real, b: real, c: real, d: real, e: real, f: real, g: real, h: real, k: real)
    requires Turns(a, b, c, d, e, f, g, h, k)
    ensures (b + d) * (b + d) == (1.0 + a - e - k) * (1.0 - a + e - k)
    ensures (f - h) * (f - h) == (1.0 + a - e - k) * (1.0 + a + e + k)
    ensures (f - h) * (g - c) == (b + d) * (1.0 + a + e + k)
    ensures (b + d) * (c + g) == (f + h) * (1.0 + a - e - k)
    ensures (b + d) * (f - h) == (g - c) * (1.0 + a - e - k)
    ensures (c + g) * (f - h) == (b - d) * (1.0 + a - e - k)
  {
    SquareXY(a, b, c, d, e, f, k);
    SquareXW(a, d, e, f, g, h, k);
    PairXYOverW(a, b, c, d, e, f, g, h, k);
    PairYZOverX(a, b, c, d, e, f, g, h, k);
    PairYWOverX(a, b, c, d, e, f, g, h, k);
    PairZWOverX(a, b, c, d, e, f, g, h, k);
  }

  /** Four times the products of the elements of the quaternion, if `m` is the
      matrix of one. */
  datatype Products = Products(
    xx: real, yy: real, zz: real, ww: real, xy: real, yz: real, zx: real, xw: real, yw: real, zw: real)

  function ProductsOf(m: Mat4.Matrix): Products
  {
    Products(
      1.0 + m.m0 - m.m5 - m.m10, 1.0 - m.m0 + m.m5 - m.m10, 1.0 - m.m0 - m.m5 + m.m10, 1.0 + m.m0 + m.m5 + m.m10,
      m.m1 + m.m4, m.m6 + m.m9, m.m8 + m.m2, m.m6 - m.m9, m.m8 - m.m2, m.m1 - m.m4)
  }

  /** They are products of four numbers. */
  predicate OfOne(xx: real, yy: real, ww: real, xy: real, yz: real, zx: real, xw: real, yw: real, zw: real)
  {
    && xy * xy == xx * yy && xw * xw == xx * ww && xw * yw == xy * ww
    && xy * zx == yz * xx && xy * xw == yw * xx && zx * xw == zw * xx
  }

  predicate RankOne(p: Products)
  {
    && OfOne(p.xx, p.yy, p.ww, p.xy, p.yz, p.zx, p.xw, p.yw, p.zw)
    && OfOne(p.yy, p.zz, p.ww, p.yz, p.zx, p.xy, p.yw, p.zw, p.xw)
    && OfOne(p.zz, p.xx, p.ww, p.zx, p.xy, p.yz, p.zw, p.xw, p.yw)
  }

  lemma AboutAxis(
      a: real, b: real, c: real, d: real, e: real, f: real, g: real, h: real, k: real,
      xx: real, yy: real, ww: real, xy: real, yz: real, zx: real, xw: real, yw: real, zw: real)
    requires Turns(a, b, c, d, e, f, g, h, k)
    requires xx == 1.0 + a - e - k && yy == 1.0 - a + e - k && ww == 1.0 + a + e + k
    requires xy == b + d && yz == f + h && zx == c + g && xw == f - h && yw == g - c && zw == b - d
    ensures OfOne(xx, yy, ww, xy, yz, zx, xw, yw, zw)
  {
    hide Turns;
    AboutX(a, b, c, d, e, f, g, h, k);
  }

  lemma RotationProducts(m: Mat4.Matrix)
    requires IsRotation(m)
    ensures RankOne(ProductsOf(m))
  {
    hide IsRotation, Turns, OfOne;
    var p := ProductsOf(m);
    RotationTurns(m);
    TurnsCycle(m.m0, m.m1, m.m2, m.m4, m.m5, m.m6, m.m8, m.m9, m.m10);
    TurnsCycle(m.m5, m.m6, m.m4, m.m9, m.m10, m.m8, m.m1, m.m2, m.m0);
    AboutAxis(
      m.m0, m.m1, m.m2, m.m4, m.m5, m.m6, m.m8, m.m9, m.m10,
      p.xx, p.yy, p.ww, p.xy, p.yz, p.zx, p.xw, p.yw, p.zw);
    AboutAxis(
      m.m5, m.m6, m.m4, m.m9, m.m10, m.m8, m.m1, m.m2, m.m0,
      p.yy, p.zz, p.ww, p.yz, p.zx, p.xy, p.yw, p.zw, p.xw);
    AboutAxis(
      m.m10, m.m8, m.m9, m.m2, m.m0, m.m1, m.m6, m.m4, m.m5,
      p.zz, p.xx, p.ww, p.zx, p.xy, p.yz, p.zw, p.xw, p.yw);
  }

  // --- the quaternion

  function Times(a: real, b: real): real
  {
    a * b
  }

  predicate AreProducts(q: Quat, p: Products)
  {
    && Times(q.x, q.x) == p.xx / 4.0 && Times(q.y, q.y) == p.yy / 4.0 && Times(q.z, q.z) == p.zz / 4.0
    && Times(q.w, q.w) == p.ww / 4.0
    && Times(q.x, q.y) == p.xy / 4.0 && Times(q.y, q.z) == p.yz / 4.0 && Times(q.z, q.x) == p.zx / 4.0
    && Times(q.x, q.w) == p.xw / 4.0 && Times(q.y, q.w) == p.yw / 4.0 && Times(q.z, q.w) == p.zw / 4.0
  }

  lemma Quarter(x: real, y: real, xy: real, r: real, rr: real)
    requires r != 0.0 && r * r == rr && x * y == xy * rr
    ensures Times(Over(x, r), Over(y, r)) == xy / 4.0
  {
    var h := 0.5 / r;
    assert h * r == 0.5;
    QuarterOf(x, y, xy, r, rr, h);
  }

  lemma QuarterOf(x: real, y: real, xy: real, r: real, rr: real, h: real)
    requires r * r == rr && x * y == xy * rr && h * r == 0.5
    ensures (x * h) * (y * h) == xy / 4.0
  {
    assert (x * h) * (y * h) == xy * (h * r) * (h * r);
  }

  lemma QuarterRoot(x: real, r: real)
    requires r != 0.0
    ensures Times(Over(x, r), r * 0.5) == x / 4.0 == Times(r * 0.5, Over(x, r))
  {
    var h := 0.5 / r;
    assert h * r == 0.5;
  }

  lemma QuarterSquare(r: real, rr: real)
    requires r * r == rr
    ensures Times(r * 0.5, r * 0.5) == rr / 4.0
  {
  }

  lemma TimesCommutes(a: real, b: real)
    ensures Times(a, b) == Times(b, a)
  {
  }

  lemma RadicandLarge(m: Mat4.Matrix)
    ensures Radicand(m) >= 1.0
    ensures Radicand(m) == match PivotOf(m)
      case PX => ProductsOf(m).xx case PY => ProductsOf(m).yy case PZ => ProductsOf(m).zz case PW => ProductsOf(m).ww
  {
  }

  /** For every matrix the element of the largest diagonal element, or the scalar part
      when the diagonal adds up to more than zero, comes out at a half or more. */
  lemma PivotAtLeastHalf(m: Mat4.Matrix, sqrt: Sqrt)
    requires IsRoot(sqrt, Radicand(m))
    ensures sqrt(Radicand(m)) != 0.0
    ensures var q := Mat2Quat(m, sqrt);
      if m.m0 + m.m5 + m.m10 > 0.0 then q.w >= 0.5
      else
        && (m.m0 >= m.m5 && m.m0 >= m.m10 ==> q.x >= 0.5)
        && (m.m5 > m.m0 && m.m5 >= m.m10 ==> q.y >= 0.5)
        && (m.m10 > m.m0 && m.m10 > m.m5 ==> q.z >= 0.5)
  {
    hide Over, Radicand;
    RadicandLarge(m);
    RootLarge(sqrt(Radicand(m)), Radicand(m));
  }

  lemma RootLarge(r: real, rr: real)
    requires 0.0 <= r && r * r == rr && 1.0 <= rr
    ensures 1.0 <= r
  {
    if r < 1.0 {
      BelowOne(r, rr);
    }
  }

  lemma BelowOne(r: real, rr: real)
    requires 0.0 <= r < 1.0 && r * r == rr
    ensures rr < 1.0
  {
    assert r * r <= r * 1.0;
  }

  /** The products of the three elements that are not the pivot. */
  predicate AreOver(
      x: real, y: real, z: real, xx: real, yy: real, zz: real, xy: real, yz: real, zx: real, rr: real)
  {
    && x * x == xx * rr && y * y == yy * rr && z * z == zz * rr
    && x * y == xy * rr && y * z == yz * rr && z * x == zx * rr
  }

  lemma OverEachPivot(p: Products)
    requires RankOne(p)
    ensures AreOver(p.xy, p.zx, p.xw, p.yy, p.zz, p.ww, p.yz, p.zw, p.yw, p.xx)
    ensures AreOver(p.yz, p.xy, p.yw, p.zz, p.xx, p.ww, p.zx, p.xw, p.zw, p.yy)
    ensures AreOver(p.zx, p.yz, p.zw, p.xx, p.yy, p.ww, p.xy, p.yw, p.xw, p.zz)
    ensures AreOver(p.xw, p.yw, p.zw, p.xx, p.yy, p.zz, p.xy, p.yz, p.zx, p.ww)
  {
  }

  lemma Quarters(
      x: real, y: real, z: real, xx: real, yy: real, zz: real, xy: real, yz: real, zx: real, r: real, rr: real)
    requires r != 0.0 && r * r == rr && AreOver(x, y, z, xx, yy, zz, xy, yz, zx, rr)
    ensures Times(Over(x, r), Over(x, r)) == xx / 4.0 && Times(Over(y, r), Over(y, r)) == yy / 4.0
    ensures Times(Over(z, r), Over(z, r)) == zz / 4.0
    ensures Times(Over(x, r), Over(y, r)) == xy / 4.0 == Times(Over(y, r), Over(x, r))
    ensures Times(Over(y, r), Over(z, r)) == yz / 4.0 == Times(Over(z, r), Over(y, r))
    ensures Times(Over(z, r), Over(x, r)) == zx / 4.0 == Times(Over(x, r), Over(z, r))
    ensures Times(r * 0.5, r * 0.5) == rr / 4.0
    ensures Times(Over(x, r), r * 0.5) == x / 4.0 == Times(r * 0.5, Over(x, r))
    ensures Times(Over(y, r), r * 0.5) == y / 4.0 == Times(r * 0.5, Over(y, r))
    ensures Times(Over(z, r), r * 0.5) == z / 4.0 == Times(r * 0.5, Over(z, r))
  {
    hide Times, Over;
    Quarter(x, x, xx, r, rr);
    Quarter(y, y, yy, r, rr);
    Quarter(z, z, zz, r, rr);
    Quarter(x, y, xy, r, rr);
    Quarter(y, z, yz, r, rr);
    Quarter(z, x, zx, r, rr);
    TimesCommutes(Over(x, r), Over(y, r));
    TimesCommutes(Over(y, r), Over(z, r));
    TimesCommutes(Over(z, r), Over(x, r));
    QuarterSquare(r, rr);
    QuarterRoot(x, r);
    QuarterRoot(y, r);
    QuarterRoot(z, r);
  }

  function FromPivot(p: Products, k: Pivot, r: real): Quat
    requires r != 0.0
  {
    match k
    case PX => Quat(r * 0.5, Over(p.xy, r), Over(p.zx, r), Over(p.xw, r))
    case PY => Quat(Over(p.xy, r), r * 0.5, Over(p.yz, r), Over(p.yw, r))
    case PZ => Quat(Over(p.zx, r), Over(p.yz, r), r * 0.5, Over(p.zw, r))
    case PW => Quat(Over(p.xw, r), Over(p.yw, r), Over(p.zw, r), r * 0.5)
  }

  lemma Mat2QuatIs(m: Mat4.Matrix, sqrt: Sqrt)
    requires sqrt(Radicand(m)) != 0.0
    ensures Mat2Quat(m, sqrt) == FromPivot(ProductsOf(m), PivotOf(m), sqrt(Radicand(m)))
  {
    hide Over, PivotOf, Radicand;
  }

  lemma PivotProducts(p: Products, k: Pivot, r: real, rr: real)
    requires RankOne(p) && r != 0.0 && r * r == rr
    requires rr == match k case PX => p.xx case PY => p.yy case PZ => p.zz case PW => p.ww
    ensures AreProducts(FromPivot(p, k, r), p)
  {
    hide Times, Over, RankOne, AreOver;
    OverEachPivot(p);
    match k
    case PX => Quarters(p.xy, p.zx, p.xw, p.yy, p.zz, p.ww, p.yz, p.zw, p.yw, r, rr);
    case PY => Quarters(p.yz, p.xy, p.yw, p.zz, p.xx, p.ww, p.zx, p.xw, p.zw, r, rr);
    case PZ => Quarters(p.zx, p.yz, p.zw, p.xx, p.yy, p.ww, p.xy, p.yw, p.xw, r, rr);
    case PW => Quarters(p.xw, p.yw, p.zw, p.xx, p.yy, p.zz, p.xy, p.yz, p.zx, r, rr);
  }

  lemma Mat2QuatProducts(m: Mat4.Matrix, sqrt: Sqrt)
    requires RankOne(ProductsOf(m)) && IsRoot(sqrt, Radicand(m))
    ensures sqrt(Radicand(m)) != 0.0 && AreProducts(Mat2Quat(m, sqrt), ProductsOf(m))
  {
    hide RankOne, AreProducts, FromPivot, ProductsOf, PivotOf, Radicand;
    RadicandLarge(m);
    Mat2QuatIs(m, sqrt);
    PivotProducts(ProductsOf(m), PivotOf(m), sqrt(Radicand(m)), Radicand(m));
  }

  lemma ProductsGiveUnit(q: Quat, m: Mat4.Matrix)
    requires AreProducts(q, ProductsOf(m))
    ensures QMagSq(q) == 1.0
  {
  }

  lemma DiagonalOf(y: real, z: real)
    ensures Diagonal(y, z) == 1.0 - 2.0 * Times(y, y) - 2.0 * Times(z, z)
  {
  }

  lemma PairOf(x: real, y: real, z: real, w: real)
    ensures PlusPair(x, y, z, w) == 2.0 * Times(x, y) + 2.0 * Times(z, w)
    ensures PlusPair(x, y, z, w) == 2.0 * Times(y, x) + 2.0 * Times(z, w)
    ensures MinusPair(x, y, z, w) == 2.0 * Times(x, y) - 2.0 * Times(z, w)
    ensures MinusPair(x, y, z, w) == 2.0 * Times(y, x) - 2.0 * Times(z, w)
  {
  }

  lemma ProductsGiveMat(q: Quat, m: Mat4.Matrix)
    requires m.m3 == m.m7 == m.m11 == m.m12 == m.m13 == m.m14 == 0.0 && m.m15 == 1.0
    requires AreProducts(q, ProductsOf(m))
    ensures Mat(q) == m
  {
    hide Times, Diagonal, PlusPair, MinusPair;
    DiagonalOf(q.y, q.z);
    DiagonalOf(q.x, q.z);
    DiagonalOf(q.x, q.y);
    PairOf(q.x, q.y, q.z, q.w);
    PairOf(q.y, q.z, q.x, q.w);
    PairOf(q.x, q.z, q.y, q.w);
  }

  /** `quat_mat2quat` makes of any rotation a unit quaternion whose matrix it is. */
  lemma Mat2QuatOfRotation(m: Mat4.Matrix, sqrt: Sqrt)
    requires IsRotation(m) && IsRoot(sqrt, Radicand(m))
    ensures sqrt(Radicand(m)) != 0.0
    ensures QMagSq(Mat2Quat(m, sqrt)) == 1.0 && Mat(Mat2Quat(m, sqrt)) == m
  {
    hide RankOne, AreProducts, QMagSq, Mat, Mat2Quat, Orthonormal, Determinant, Radicand;
    RotationProducts(m);
    Mat2QuatProducts(m, sqrt);
    ProductsGiveUnit(Mat2Quat(m, sqrt), m);
    ProductsGiveMat(Mat2Quat(m, sqrt), m);
  }

  // --- and the other way round

  lemma CrossOf(u: Vec3, v: Vec3, w: Vec3)
    requires u.x == v.y * w.z - v.z * w.y && u.y == v.z * w.x - v.x * w.z && u.z == v.x * w.y - v.y * w.x
    ensures u == Cross(v, w)
  {
  }

  lemma TurnsTransposed(a: real, b: real, c: real, d: real, e: real, f: real, g: real, h: real, k: real)
    requires Turns(a, d, g, b, e, h, c, f, k)
    ensures Turns(a, b, c, d, e, f, g, h, k)
  {
    hide Rows;
  }

  predicate RightHanded(r: Vec3, s: Vec3, t: Vec3)
  {
    Orthonormal(r, s, t) && r == Cross(s, t) && s == Cross(t, r) && t == Cross(r, s)
  }

  lemma AxisTimes(v: Vec3)
    ensures var x, y, z := Vec3(1.0, 0.0, 0.0), Vec3(0.0, 1.0, 0.0), Vec3(0.0, 0.0, 1.0);
      && Dot(x, v) == v.x && Dot(y, v) == v.y && Dot(z, v) == v.z
      && Cross(x, v) == Vec3(0.0, -v.z, v.y) && Cross(y, v) == Vec3(v.z, 0.0, -v.x)
      && Cross(z, v) == Vec3(-v.y, v.x, 0.0)
  {
  }

  lemma AxesRightHanded()
    ensures RightHanded(Vec3(1.0, 0.0, 0.0), Vec3(0.0, 1.0, 0.0), Vec3(0.0, 0.0, 1.0))
  {
    hide Dot, Cross;
    AxisTimes(Vec3(1.0, 0.0, 0.0));
    AxisTimes(Vec3(0.0, 1.0, 0.0));
    AxisTimes(Vec3(0.0, 0.0, 1.0));
  }

  lemma RotatedAxes(q: Quat, x: Vec3, y: Vec3, z: Vec3, tol: Tolerance)
    requires QMagSq(q) >= tol && RightHanded(x, y, z)
    ensures RightHanded(Rotated(q, x, tol), Rotated(q, y, tol), Rotated(q, z, tol))
  {
    hide QMagSq, Rotated, Dot, Cross;
    RotatedKeeps(q, x, x, tol);
    RotatedKeeps(q, y, y, tol);
    RotatedKeeps(q, z, z, tol);
    RotatedKeeps(q, x, y, tol);
    RotatedKeeps(q, y, z, tol);
    RotatedKeeps(q, z, x, tol);
  }

  lemma MatAffine(q: Quat)
    ensures var m := Mat(q); m.m3 == m.m7 == m.m11 == m.m12 == m.m13 == m.m14 == 0.0 && m.m15 == 1.0
  {
  }

  /** The columns are where the axes go. */
  lemma ColumnIs(q: Quat, p: Vec3, tol: Tolerance)
    requires QMagSq(q) == 1.0
    ensures var m := Mat(q);
      Rotated(q, p, tol) == Vec3(
        m.m0 * p.x + m.m1 * p.y + m.m2 * p.z,
        m.m4 * p.x + m.m5 * p.y + m.m6 * p.z,
        m.m8 * p.x + m.m9 * p.y + m.m10 * p.z)
  {
    hide QMagSq, Mat, Mat4.Mat4x3Pnt, Rotated;
    MatAffine(q);
    MatRotates(q, p, tol);
    AffineRows(Mat(q), p);
  }

  lemma ColumnsOfMat(q: Quat)
    requires QMagSq(q) == 1.0
    ensures var m := Mat(q);
      RightHanded(Vec3(m.m0, m.m4, m.m8), Vec3(m.m1, m.m5, m.m9), Vec3(m.m2, m.m6, m.m10))
  {
    hide QMagSq, Mat, Rotated, RightHanded;
    var tol: Tolerance, m := 0.5, Mat(q);
    var x, y, z := Vec3(1.0, 0.0, 0.0), Vec3(0.0, 1.0, 0.0), Vec3(0.0, 0.0, 1.0);
    AxesRightHanded();
    RotatedAxes(q, x, y, z, tol);
    ColumnIs(q, x, tol);
    ColumnIs(q, y, tol);
    ColumnIs(q, z, tol);
  }

  lemma MatIsRotation(q: Quat)
    requires QMagSq(q) == 1.0
    ensures IsRotation(Mat(q))
  {
    hide Orthonormal, Cofactors, Rows, Turns, Cross, Dot, Diagonal, PlusPair, MinusPair;
    var m := Mat(q);
    ColumnsOfMat(q);
    var x, y, z := Vec3(m.m0, m.m4, m.m8), Vec3(m.m1, m.m5, m.m9), Vec3(m.m2, m.m6, m.m10);
    RowsOf(x, y, z);
    CofactorsOf(x, y, z);
    ColumnsFollow(m.m0, m.m4, m.m8, m.m1, m.m5, m.m9, m.m2, m.m6, m.m10);
    TurnsTransposed(m.m0, m.m1, m.m2, m.m4, m.m5, m.m6, m.m8, m.m9, m.m10);
    TurnsRotate(Vec3(m.m0, m.m1, m.m2), Vec3(m.m4, m.m5, m.m6), Vec3(m.m8, m.m9, m.m10));
  }

  lemma TurnsRotate(r: Vec3, s: Vec3, t: Vec3)
    requires Turns(r.x, r.y, r.z, s.x, s.y, s.z, t.x, t.y, t.z)
    ensures Orthonormal(r, s, t) && Determinant(r, s, t) == 1.0
  {
    hide Rows, Cross, Dot;
    RowsOf(r, s, t);
    CrossOf(r, s, t);
  }

  lemma RootNotZero(m: Mat4.Matrix, sqrt: Sqrt)
    requires IsRoot(sqrt, Radicand(m))
    ensures sqrt(Radicand(m)) != 0.0
  {
    hide Radicand;
    RadicandLarge(m);
  }

  /** The result is unit and gives the matrix back exactly for rotations. */
  lemma Mat2QuatIff(m: Mat4.Matrix, sqrt: Sqrt)
    requires IsRoot(sqrt, Radicand(m))
    ensures sqrt(Radicand(m)) != 0.0
    ensures IsRotation(m) <==> QMagSq(Mat2Quat(m, sqrt)) == 1.0 && Mat(Mat2Quat(m, sqrt)) == m
  {
    hide IsRotation, QMagSq, Mat, Mat2Quat, Radicand;
    RootNotZero(m, sqrt);
    if IsRotation(m) {
      Mat2QuatOfRotation(m, sqrt);
    }
    if QMagSq(Mat2Quat(m, sqrt)) == 1.0 {
      MatIsRotation(Mat2Quat(m, sqrt));
    }
  }

  /** So rotations are the matrices of unit quaternions. */
  lemma RotationIff(m: Mat4.Matrix, sqrt: Sqrt)
    requires IsRoot(sqrt, Radicand(m))
    ensures IsRotation(m) <==> exists q :: QMagSq(q) == 1.0 && Mat(q) == m
  {
    hide IsRotation, QMagSq, Mat, Mat2Quat, Radicand;
    Mat2QuatIff(m, sqrt);
    var r := Mat2Quat(m, sqrt);
    if q :| QMagSq(q) == 1.0 && Mat(q) == m {
      MatIsRotation(q);
    }
    if IsRotation(m) {
      assert QMagSq(r) == 1.0 && Mat(r) == m;
    }
  }
}
