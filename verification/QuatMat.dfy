/** Quaternions and rotation matrices: src/libbn/qmath.c. */
module QuatMat {
  import opened VMath
  import opened Quaternion
  import Mat4

  /** `QUNITIZE`. */
  function QUnitize(q: Quat, tol: Tolerance, sqrt: Sqrt): Quat
  {
    var f := sqrt(QMagSq(q));
    QScale(q, if f < tol then 0.0 else 1.0 / f)
  }

  lemma QUnitizeIsUnit(q: Quat, tol: Tolerance, sqrt: Sqrt)
    requires IsRoot(sqrt, QMagSq(q)) && sqrt(QMagSq(q)) >= tol
    ensures QMagSq(QUnitize(q, tol, sqrt)) == 1.0
  {
  }

  /** It points the same way: its multiple by the magnitude is the quaternion. Below
      the tolerance it is zero. */
  lemma QUnitizeScales(q: Quat, tol: Tolerance, sqrt: Sqrt)
    requires IsRoot(sqrt, QMagSq(q))
    ensures var f := sqrt(QMagSq(q));
      if f < tol then QUnitize(q, tol, sqrt) == Quat(0.0, 0.0, 0.0, 0.0)
      else f > 0.0 && QScale(QUnitize(q, tol, sqrt), f) == q
  {
    hide QMagSq;
    var f := sqrt(QMagSq(q));
    if f >= tol {
      BackAgain(q.x, f);
      BackAgain(q.y, f);
      BackAgain(q.z, f);
      BackAgain(q.w, f);
    }
  }

  lemma BackAgain(x: real, f: real)
    requires f != 0.0
    ensures x * (1.0 / f) * f == x
  {
    var y := 1.0 / f;
    assert y * f == 1.0;
    assert x * y * f == x * (y * f);
  }

  /** The elements of a rotation matrix, each for the axes named first. */
  function Diagonal(y: real, z: real): real
  {
    1.0 - 2.0 * y * y - 2.0 * z * z
  }

  function PlusPair(x: real, y: real, z: real, w: real): real
  {
    2.0 * x * y + 2.0 * w * z
  }

  function MinusPair(x: real, z: real, y: real, w: real): real
  {
    2.0 * x * z - 2.0 * w * y
  }

  /** The matrix that `quat_quat2mat` makes of a unit quaternion. */
  function Mat(q: Quat): Mat4.Matrix
  {
    Mat4.Matrix(
      Diagonal(q.y, q.z), PlusPair(q.x, q.y, q.z, q.w), MinusPair(q.x, q.z, q.y, q.w), 0.0,
      MinusPair(q.x, q.y, q.z, q.w), Diagonal(q.x, q.z), PlusPair(q.y, q.z, q.x, q.w), 0.0,
      PlusPair(q.x, q.z, q.y, q.w), MinusPair(q.y, q.z, q.x, q.w), Diagonal(q.x, q.y), 0.0,
      0.0, 0.0, 0.0, 1.0)
  }

  /** `quat_quat2mat`. */
  function Quat2Mat(q: Quat, tol: Tolerance, sqrt: Sqrt): Mat4.Matrix
  {
    Mat(QUnitize(q, tol, sqrt))
  }

  lemma RotationSum(
      x: real, y: real, z: real, w: real, px: real, py: real, pz: real,
      ix: real, iy: real, iz: real, tx: real, ty: real, tz: real, tw: real, m0: real, m1: real, m2: real)
    requires w * w == 1.0 - x * x - y * y - z * z
    requires ix == -x && iy == -y && iz == -z
    requires tx == w * px + iy * pz - iz * py && ty == w * py + iz * px - ix * pz
    requires tz == w * pz + ix * py - iy * px && tw == -ix * px - iy * py - iz * pz
    requires m0 == w * w + x * x - y * y - z * z
    requires m1 == 2.0 * x * y + 2.0 * w * z && m2 == 2.0 * x * z - 2.0 * w * y
    ensures tw * x + tx * w + ty * z - tz * y == m0 * px + m1 * py + m2 * pz
  {
  }

  lemma DiagonalIs(y: real, z: real)
    ensures Diagonal(y, z) == 1.0 - 2.0 * (y * y) - 2.0 * (z * z) == Diagonal(z, y)
  {
  }

  /** One lane of a rotation by a unit quaternion, and the row of its matrix. */
  lemma RotationLane(
      x: real, y: real, z: real, w: real, px: real, py: real, pz: real,
      ix: real, iy: real, iz: real, tx: real, ty: real, tz: real, tw: real)
    requires w * w == 1.0 - x * x - y * y - z * z
    requires ix == -x && iy == -y && iz == -z
    requires tx == Lane(ix, iy, iz, w, px, py, pz, 0.0) && ty == Lane(iy, iz, ix, w, py, pz, px, 0.0)
    requires tz == Lane(iz, ix, iy, w, pz, px, py, 0.0) && tw == RealLane(ix, iy, iz, w, px, py, pz, 0.0)
    ensures Lane(tx, ty, tz, tw, x, y, z, w)
      == Diagonal(y, z) * px + PlusPair(x, y, z, w) * py + MinusPair(x, z, y, w) * pz
  {
    hide Diagonal;
    DiagonalIs(y, z);
    RotationSum(
      x, y, z, w, px, py, pz, ix, iy, iz, tx, ty, tz, tw, Diagonal(y, z), PlusPair(x, y, z, w), MinusPair(x, z, y, w));
  }

  lemma UnitParts(q: Quat)
    requires QMagSq(q) == 1.0
    ensures q.w * q.w == 1.0 - q.x * q.x - q.y * q.y - q.z * q.z
    ensures q.w * q.w == 1.0 - q.y * q.y - q.z * q.z - q.x * q.x
    ensures q.w * q.w == 1.0 - q.z * q.z - q.x * q.x - q.y * q.y
  {
  }

  lemma RealLaneTurns(ax: real, ay: real, az: real, aw: real, cx: real, cy: real, cz: real, cw: real)
    ensures RealLane(ax, ay, az, aw, cx, cy, cz, cw) == RealLane(ay, az, ax, aw, cy, cz, cx, cw)
    ensures RealLane(ax, ay, az, aw, cx, cy, cz, cw) == RealLane(az, ax, ay, aw, cz, cx, cy, cw)
  {
  }

  lemma PairsCommute(x: real, y: real, z: real, w: real)
    ensures MinusPair(x, y, z, w) == MinusPair(y, x, z, w) && PlusPair(x, y, z, w) == PlusPair(y, x, z, w)
  {
  }

  /** The lanes of the rotated point, for a unit quaternion. */
  lemma RotationRows(q: Quat, p: Vec3)
    requires QMagSq(q) == 1.0
    ensures var r := QMul(QMul(QConjugate(q), Pure(p)), q);
      var m := Mat(q);
      && r.x == m.m0 * p.x + m.m1 * p.y + m.m2 * p.z
      && r.y == m.m4 * p.x + m.m5 * p.y + m.m6 * p.z
      && r.z == m.m8 * p.x + m.m9 * p.y + m.m10 * p.z
  {
    hide Lane, RealLane, Diagonal, PlusPair, MinusPair, QMagSq;
    var i := QConjugate(q);
    var t := QMul(i, Pure(p));
    UnitParts(q);
    RealLaneTurns(i.x, i.y, i.z, i.w, p.x, p.y, p.z, 0.0);
    RotationLane(q.x, q.y, q.z, q.w, p.x, p.y, p.z, i.x, i.y, i.z, t.x, t.y, t.z, t.w);
    RotationLane(q.y, q.z, q.x, q.w, p.y, p.z, p.x, i.y, i.z, i.x, t.y, t.z, t.x, t.w);
    RotationLane(q.z, q.x, q.y, q.w, p.z, p.x, p.y, i.z, i.x, i.y, t.z, t.x, t.y, t.w);
    PairsCommute(q.x, q.y, q.z, q.w);
    PairsCommute(q.y, q.z, q.x, q.w);
    PairsCommute(q.x, q.z, q.y, q.w);
    DiagonalIs(q.x, q.z);
  }

  lemma UnitInverse(q: Quat, tol: Tolerance)
    requires QMagSq(q) == 1.0
    ensures QInverse(q, tol) == QConjugate(q)
  {
  }

  /** What `MAT4X3PNT` does with a matrix whose last row and column are those of
      the identity. */
  lemma AffineRows(m: Mat4.Matrix, p: Vec3)
    requires m.m3 == m.m7 == m.m11 == m.m12 == m.m13 == m.m14 == 0.0 && m.m15 == 1.0
    ensures Mat4.Denominator(m, p) == 1.0
    ensures Mat4.Mat4x3Pnt(m, p) == Vec3(
      m.m0 * p.x + m.m1 * p.y + m.m2 * p.z, m.m4 * p.x + m.m5 * p.y + m.m6 * p.z, m.m8 * p.x + m.m9 * p.y + m.m10 * p.z)
    ensures Mat4.Mat4x3Vec(m, p) == Mat4.Mat4x3Pnt(m, p)
  {
  }

  /** The matrix of a unit quaternion moves points and directions exactly as the
      quaternion rotates them. */
  lemma MatRotates(q: Quat, p: Vec3, tol: Tolerance)
    requires QMagSq(q) == 1.0
    ensures Mat4.Denominator(Mat(q), p) == 1.0
    ensures Mat4.Mat4x3Pnt(Mat(q), p) == Rotated(q, p, tol) == Mat4.Mat4x3Vec(Mat(q), p)
  {
    hide QMul, QMagSq, QInverse, Mat4.Mat4x3Pnt, Mat4.Mat4x3Vec, Diagonal, PlusPair, MinusPair;
    UnitInverse(q, tol);
    RotationRows(q, p);
    AffineRows(Mat(q), p);
  }

  /** So it is for `quat_quat2mat` of any quaternion with an inverse, which it
      makes unit first. */
  lemma Quat2MatRotates(q: Quat, p: Vec3, tol: Tolerance, sqrt: Sqrt)
    requires IsRoot(sqrt, QMagSq(q)) && QMagSq(q) >= tol
    ensures Mat4.Denominator(Quat2Mat(q, tol, sqrt), p) == 1.0
    ensures Mat4.Mat4x3Pnt(Quat2Mat(q, tol, sqrt), p) == Rotated(q, p, tol)
  {
    hide QMagSq, Rotated, Mat, Mat4.Denominator, Mat4.Mat4x3Pnt;
    var f := sqrt(QMagSq(q));
    assert f >= tol by {
      if f < tol {
        SmallSquare(f, tol);
      }
    }
    QUnitizeIsUnit(q, tol, sqrt);
    var u := QUnitize(q, tol, sqrt);
    MatRotates(u, p, tol);
    ScaledRotates(q, 1.0 / f, p, tol);
  }

  lemma SmallSquare(f: real, tol: Tolerance)
    requires 0.0 <= f < tol
    ensures f * f < tol
  {
    assert f * f <= f * 1.0;
  }

  /** Of a quaternion that is too short it makes the identity. */
  lemma Quat2MatOfShort(q: Quat, tol: Tolerance, sqrt: Sqrt)
    requires IsRoot(sqrt, QMagSq(q)) && sqrt(QMagSq(q)) < tol
    ensures Quat2Mat(q, tol, sqrt) == Mat4.Matrix(
      1.0, 0.0, 0.0, 0.0, 0.0, 1.0, 0.0, 0.0, 0.0, 0.0, 1.0, 0.0, 0.0, 0.0, 0.0, 1.0)
  {
    hide QMagSq;
    QUnitizeScales(q, tol, sqrt);
  }

  // --- and back

  datatype Pivot = PX | PY | PZ | PW

  /** Which element `quat_mat2quat` takes the root for. */
  function PivotOf(m: Mat4.Matrix): Pivot
  {
    if m.m0 + m.m5 + m.m10 > 0.0 then PW
    else if m.m5 > m.m0 then if m.m10 > m.m5 then PZ else PY
    else if m.m10 > m.m0 then PZ else PX
  }

  /** What it takes the root of. */
  function Radicand(m: Mat4.Matrix): real
  {
    match PivotOf(m)
    case PW => m.m0 + m.m5 + m.m10 + 1.0
    case PZ => m.m10 - (m.m0 + m.m5) + 1.0
    case PY => m.m5 - (m.m10 + m.m0) + 1.0
    case PX => m.m0 - (m.m5 + m.m10) + 1.0
  }

  /** An element of the quaternion from its multiple by four times the pivot,
      whose root is `r`. */
  function Over(d: real, r: real): real
    requires r != 0.0
  {
    d * (0.5 / r)
  }

  /** `quat_mat2quat`. */
  function Mat2Quat(m: Mat4.Matrix, sqrt: Sqrt): Quat
    requires sqrt(Radicand(m)) != 0.0
  {
    var r := sqrt(Radicand(m));
    match PivotOf(m)
    case PW => Quat(Over(m.m6 - m.m9, r), Over(m.m8 - m.m2, r), Over(m.m1 - m.m4, r), r * 0.5)
    case PZ => Quat(Over(m.m8 + m.m2, r), Over(m.m9 + m.m6, r), r * 0.5, Over(m.m1 - m.m4, r))
    case PY => Quat(Over(m.m4 + m.m1, r), r * 0.5, Over(m.m6 + m.m9, r), Over(m.m8 - m.m2, r))
    case PX => Quat(r * 0.5, Over(m.m1 + m.m4, r), Over(m.m2 + m.m8, r), Over(m.m6 - m.m9, r))
  }

  function Component(q: Quat, k: Pivot): real
  {
    match k
    case PX => q.x
    case PY => q.y
    case PZ => q.z
    case PW => q.w
  }

  /** The pivot is never zero: with `a`, `b`, `c`, `d` the squares of x, y, z, w,
      the root is taken of four times the square of an element that is not. */
  lemma PivotPositive(m: Mat4.Matrix, a: real, b: real, c: real, d: real)
    requires a >= 0.0 && b >= 0.0 && c >= 0.0 && d >= 0.0 && a + b + c + d == 1.0
    requires m.m0 == 1.0 - 2.0 * b - 2.0 * c && m.m5 == 1.0 - 2.0 * a - 2.0 * c && m.m10 == 1.0 - 2.0 * a - 2.0 * b
    ensures 0.0 < Radicand(m) == 4.0 * match PivotOf(m) case PX => a case PY => b case PZ => c case PW => d
  {
  }

  lemma Squares(q: Quat)
    ensures QMagSq(q) == q.x * q.x + q.y * q.y + q.z * q.z + q.w * q.w
    ensures q.x * q.x >= 0.0 && q.y * q.y >= 0.0 && q.z * q.z >= 0.0 && q.w * q.w >= 0.0
    ensures Mat(q).m0 == 1.0 - 2.0 * (q.y * q.y) - 2.0 * (q.z * q.z)
    ensures Mat(q).m5 == 1.0 - 2.0 * (q.x * q.x) - 2.0 * (q.z * q.z)
    ensures Mat(q).m10 == 1.0 - 2.0 * (q.x * q.x) - 2.0 * (q.y * q.y)
  {
    hide Diagonal, PlusPair, MinusPair;
    DiagonalIs(q.y, q.z);
    DiagonalIs(q.x, q.z);
    DiagonalIs(q.x, q.y);
    Square(q.x, q.x * q.x);
    Square(q.y, q.y * q.y);
    Square(q.z, q.z * q.z);
    Square(q.w, q.w * q.w);
  }

  lemma RadicandOfMat(q: Quat)
    requires QMagSq(q) == 1.0
    ensures var c := Component(q, PivotOf(Mat(q)));
      Radicand(Mat(q)) == 4.0 * (c * c) && c != 0.0
  {
    hide PivotOf, Radicand, Mat, QMagSq;
    Squares(q);
    var a, b, c, d := q.x * q.x, q.y * q.y, q.z * q.z, q.w * q.w;
    PivotPositive(Mat(q), a, b, c, d);
  }

  lemma ZeroProduct(a: real, b: real)
    requires a * b == 0.0
    ensures a == 0.0 || b == 0.0
  {
  }

  lemma RootOfSquare(r: real, c: real)
    requires r >= 0.0 && r * r == 4.0 * (c * c) && c != 0.0
    ensures r == if c > 0.0 then 2.0 * c else -2.0 * c
  {
    ZeroProduct(r - 2.0 * c, r + 2.0 * c);
  }

  lemma Recovered(r: real, c: real, v: real, d: real)
    requires c != 0.0 && r == (if c > 0.0 then 2.0 * c else -2.0 * c) && d == 4.0 * (c * v)
    ensures Over(d, r) == if c > 0.0 then v else -v
  {
  }

  /** Round trip: the quaternion comes back from its matrix, with the sign that
      makes the pivot element positive. */
  lemma Mat2QuatInverts(q: Quat, sqrt: Sqrt)
    requires QMagSq(q) == 1.0 && IsRoot(sqrt, Radicand(Mat(q)))
    ensures sqrt(Radicand(Mat(q))) != 0.0
    ensures Mat2Quat(Mat(q), sqrt) ==
      if Component(q, PivotOf(Mat(q))) > 0.0 then q else Quat(-q.x, -q.y, -q.z, -q.w)
  {
    hide Over, QMagSq, PivotOf, Radicand;
    RadicandOfMat(q);
    var m, k := Mat(q), PivotOf(Mat(q));
    var c := Component(q, k);
    var r := sqrt(Radicand(m));
    RootOfSquare(r, c);
    match k
    case PW =>
      Recovered(r, c, q.x, m.m6 - m.m9);
      Recovered(r, c, q.y, m.m8 - m.m2);
      Recovered(r, c, q.z, m.m1 - m.m4);
    case PZ =>
      Recovered(r, c, q.x, m.m8 + m.m2);
      Recovered(r, c, q.y, m.m9 + m.m6);
      Recovered(r, c, q.w, m.m1 - m.m4);
    case PY =>
      Recovered(r, c, q.x, m.m4 + m.m1);
      Recovered(r, c, q.z, m.m6 + m.m9);
      Recovered(r, c, q.w, m.m8 - m.m2);
    case PX =>
      Recovered(r, c, q.y, m.m1 + m.m4);
      Recovered(r, c, q.z, m.m2 + m.m8);
      Recovered(r, c, q.w, m.m6 - m.m9);
  }
}
