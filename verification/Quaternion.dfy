/** The quaternion macros of vmath.h. */
module Quaternion {
  import opened VMath

  datatype Quat = Quat(x: real, y: real, z: real, w: real)

  const ONE := Quat(0.0, 0.0, 0.0, 1.0)

  function Vec(q: Quat): Vec3
  {
    Vec3(q.x, q.y, q.z)
  }

  /** [0, p]. */
  function Pure(p: Vec3): Quat
  {
    Quat(p.x, p.y, p.z, 0.0)
  }

  /** One vector lane of `QMUL`; the others are the same with x, y, z rotated. */
  function Lane(ax: real, ay: real, az: real, aw: real, cx: real, cy: real, cz: real, cw: real): real
  {
    aw * cx + ax * cw + ay * cz - az * cy
  }

  /** The scalar lane of `QMUL`. */
  function RealLane(ax: real, ay: real, az: real, aw: real, cx: real, cy: real, cz: real, cw: real): real
  {
    aw * cw - ax * cx - ay * cy - az * cz
  }

  function QMul(b: Quat, c: Quat): Quat
  {
    Quat(
      Lane(b.x, b.y, b.z, b.w, c.x, c.y, c.z, c.w),
      Lane(b.y, b.z, b.x, b.w, c.y, c.z, c.x, c.w),
      Lane(b.z, b.x, b.y, b.w, c.z, c.x, c.y, c.w),
      RealLane(b.x, b.y, b.z, b.w, c.x, c.y, c.z, c.w))
  }

  function QScale(b: Quat, c: real): Quat
  {
    Quat(b.x * c, b.y * c, b.z * c, b.w * c)
  }

  function QAdd(b: Quat, c: Quat): Quat
  {
    Quat(b.x + c.x, b.y + c.y, b.z + c.z, b.w + c.w)
  }

  function QConjugate(b: Quat): Quat
  {
    Quat(-b.x, -b.y, -b.z, b.w)
  }

  function QMagSq(a: Quat): real
  {
    a.x * a.x + a.y * a.y + a.z * a.z + a.w * a.w
  }

  function QInverse(b: Quat, tol: Tolerance): Quat
  {
    var f := if QMagSq(b) < tol then 0.0 else 1.0 / QMagSq(b);
    Quat(-b.x * f, -b.y * f, -b.z * f, b.w * f)
  }

  /** `VCROSS` of the operands, then `VJOIN2`. */
  function Join(b: Vec3, c: Vec3, sb: real, sc: real): Vec3
  {
    Add(Add(Cross(b, c), Scale(c, sb)), Scale(b, sc))
  }

  lemma RealLaneIs(ax: real, ay: real, az: real, aw: real, cx: real, cy: real, cz: real, cw: real)
    ensures RealLane(ax, ay, az, aw, cx, cy, cz, cw) == aw * cw - (ax * cx + ay * cy + az * cz)
  {
  }

  /** The product as the comment on `QMUL` puts it, from `VDOT`, `VCROSS` and
      `VJOIN2` of the vector parts. */
  lemma QMulIsVectorForm(b: Quat, c: Quat)
    ensures QMul(b, c).w == b.w * c.w - Dot(Vec(b), Vec(c))
    ensures Vec(QMul(b, c)) == Join(Vec(b), Vec(c), b.w, c.w)
  {
    hide Lane, RealLane, Dot, Cross, Add, Scale;
    RealLaneIs(b.x, b.y, b.z, b.w, c.x, c.y, c.z, c.w);
    JoinX(Vec(b), Vec(c), b.w, c.w);
    JoinY(Vec(b), Vec(c), b.w, c.w);
    JoinZ(Vec(b), Vec(c), b.w, c.w);
    DotIs(Vec(b), Vec(c));
  }

  lemma DotIs(b: Vec3, c: Vec3)
    ensures Dot(b, c) == b.x * c.x + b.y * c.y + b.z * c.z
  {
  }

  lemma JoinX(b: Vec3, c: Vec3, sb: real, sc: real)
    ensures Join(b, c, sb, sc).x == Lane(b.x, b.y, b.z, sb, c.x, c.y, c.z, sc)
  {
  }

  lemma JoinY(b: Vec3, c: Vec3, sb: real, sc: real)
    ensures Join(b, c, sb, sc).y == Lane(b.y, b.z, b.x, sb, c.y, c.z, c.x, sc)
  {
  }

  lemma JoinZ(b: Vec3, c: Vec3, sb: real, sc: real)
    ensures Join(b, c, sb, sc).z == Lane(b.z, b.x, b.y, sb, c.z, c.x, c.y, sc)
  {
  }

  predicate IsProduct(p: Quat, b: Quat, c: Quat)
  {
    && p.x == b.w * c.x + b.x * c.w + b.y * c.z - b.z * c.y
    && p.y == b.w * c.y + b.y * c.w + b.z * c.x - b.x * c.z
    && p.z == b.w * c.z + b.z * c.w + b.x * c.y - b.y * c.x
    && p.w == b.w * c.w - b.x * c.x - b.y * c.y - b.z * c.z
  }

  lemma ProductParts(b: Quat, c: Quat)
    ensures IsProduct(QMul(b, c), b, c)
  {
  }

  // --- the algebra, one lane at a time
  //
  // Lanes x, y and z of a product are the same up to rotating the names x, y, z, so
  // one lemma about numbers serves all three.

  lemma AssociativeLane(
      ax: real, ay: real, az: real, aw: real, ex: real, ey: real, ez: real, ew: real,
      cx: real, cy: real, cz: real, cw: real,
      px: real, py: real, pz: real, pw: real, qx: real, qy: real, qz: real, qw: real)
    requires px == aw * ex + ax * ew + ay * ez - az * ey && py == aw * ey + ay * ew + az * ex - ax * ez
    requires pz == aw * ez + az * ew + ax * ey - ay * ex && pw == aw * ew - ax * ex - ay * ey - az * ez
    requires qx == ew * cx + ex * cw + ey * cz - ez * cy && qy == ew * cy + ey * cw + ez * cx - ex * cz
    requires qz == ew * cz + ez * cw + ex * cy - ey * cx && qw == ew * cw - ex * cx - ey * cy - ez * cz
    ensures pw * cx + px * cw + py * cz - pz * cy == aw * qx + ax * qw + ay * qz - az * qy
  {
  }

  lemma AssociativeReal(
      ax: real, ay: real, az: real, aw: real, ex: real, ey: real, ez: real, ew: real,
      cx: real, cy: real, cz: real, cw: real,
      px: real, py: real, pz: real, pw: real, qx: real, qy: real, qz: real, qw: real)
    requires px == aw * ex + ax * ew + ay * ez - az * ey && py == aw * ey + ay * ew + az * ex - ax * ez
    requires pz == aw * ez + az * ew + ax * ey - ay * ex && pw == aw * ew - ax * ex - ay * ey - az * ez
    requires qx == ew * cx + ex * cw + ey * cz - ez * cy && qy == ew * cy + ey * cw + ez * cx - ex * cz
    requires qz == ew * cz + ez * cw + ex * cy - ey * cx && qw == ew * cw - ex * cx - ey * cy - ez * cz
    ensures pw * cw - px * cx - py * cy - pz * cz == aw * qw - ax * qx - ay * qy - az * qz
  {
  }

  lemma AssociativeX(a: Quat, b: Quat, c: Quat, p: Quat, q: Quat, l: Quat, r: Quat)
    requires IsProduct(p, a, b) && IsProduct(q, b, c) && IsProduct(l, p, c) && IsProduct(r, a, q)
    ensures l.x == r.x
  {
    AssociativeLane(a.x, a.y, a.z, a.w, b.x, b.y, b.z, b.w, c.x, c.y, c.z, c.w, p.x, p.y, p.z, p.w, q.x, q.y, q.z, q.w);
  }

  lemma AssociativeY(a: Quat, b: Quat, c: Quat, p: Quat, q: Quat, l: Quat, r: Quat)
    requires IsProduct(p, a, b) && IsProduct(q, b, c) && IsProduct(l, p, c) && IsProduct(r, a, q)
    ensures l.y == r.y
  {
    AssociativeLane(a.y, a.z, a.x, a.w, b.y, b.z, b.x, b.w, c.y, c.z, c.x, c.w, p.y, p.z, p.x, p.w, q.y, q.z, q.x, q.w);
  }

  lemma AssociativeZ(a: Quat, b: Quat, c: Quat, p: Quat, q: Quat, l: Quat, r: Quat)
    requires IsProduct(p, a, b) && IsProduct(q, b, c) && IsProduct(l, p, c) && IsProduct(r, a, q)
    ensures l.z == r.z
  {
    AssociativeLane(a.z, a.x, a.y, a.w, b.z, b.x, b.y, b.w, c.z, c.x, c.y, c.w, p.z, p.x, p.y, p.w, q.z, q.x, q.y, q.w);
  }

  lemma AssociativeW(a: Quat, b: Quat, c: Quat, p: Quat, q: Quat, l: Quat, r: Quat)
    requires IsProduct(p, a, b) && IsProduct(q, b, c) && IsProduct(l, p, c) && IsProduct(r, a, q)
    ensures l.w == r.w
  {
    AssociativeReal(a.x, a.y, a.z, a.w, b.x, b.y, b.z, b.w, c.x, c.y, c.z, c.w, p.x, p.y, p.z, p.w, q.x, q.y, q.z, q.w);
  }

  lemma QMulAssociative(a: Quat, b: Quat, c: Quat)
    ensures QMul(QMul(a, b), c) == QMul(a, QMul(b, c))
  {
    hide IsProduct, QMul;
    var p, q := QMul(a, b), QMul(b, c);
    ProductParts(a, b);
    ProductParts(b, c);
    ProductParts(p, c);
    ProductParts(a, q);
    AssociativeX(a, b, c, p, q, QMul(p, c), QMul(a, q));
    AssociativeY(a, b, c, p, q, QMul(p, c), QMul(a, q));
    AssociativeZ(a, b, c, p, q, QMul(p, c), QMul(a, q));
    AssociativeW(a, b, c, p, q, QMul(p, c), QMul(a, q));
  }

  lemma FourSquares(
      ax: real, ay: real, az: real, aw: real, ex: real, ey: real, ez: real, ew: real,
      px: real, py: real, pz: real, pw: real, m: real, n: real)
    requires px == aw * ex + ax * ew + ay * ez - az * ey && py == aw * ey + ay * ew + az * ex - ax * ez
    requires pz == aw * ez + az * ew + ax * ey - ay * ex && pw == aw * ew - ax * ex - ay * ey - az * ez
    requires m == ax * ax + ay * ay + az * az + aw * aw && n == ex * ex + ey * ey + ez * ez + ew * ew
    ensures px * px + py * py + pz * pz + pw * pw == m * n
  {
  }

  lemma MagSqParts(a: Quat, b: Quat, p: Quat)
    requires IsProduct(p, a, b)
    ensures QMagSq(p) == QMagSq(a) * QMagSq(b)
  {
    FourSquares(a.x, a.y, a.z, a.w, b.x, b.y, b.z, b.w, p.x, p.y, p.z, p.w, QMagSq(a), QMagSq(b));
  }

  /** Euler's four-square identity: magnitudes multiply. */
  lemma QMagSqMultiplies(a: Quat, b: Quat)
    ensures QMagSq(QMul(a, b)) == QMagSq(a) * QMagSq(b)
  {
    hide QMagSq, QMul, IsProduct;
    ProductParts(a, b);
    MagSqParts(a, b, QMul(a, b));
  }

  lemma QConjugateReverses(a: Quat, b: Quat)
    ensures QConjugate(QMul(a, b)) == QMul(QConjugate(b), QConjugate(a))
  {
  }

  /** A quaternion times its conjugate is its squared magnitude. */
  lemma TimesConjugate(a: Quat)
    ensures QMul(a, QConjugate(a)) == Quat(0.0, 0.0, 0.0, QMagSq(a)) == QMul(QConjugate(a), a)
  {
  }

  /** A real number, as a quaternion. */
  function Real(c: real): Quat
  {
    Quat(0.0, 0.0, 0.0, c)
  }

  lemma RealTimes(a: Quat, c: real)
    ensures QMul(Real(c), a) == QScale(a, c) == QMul(a, Real(c))
  {
  }

  lemma ScaleSlides(a: Quat, b: Quat, c: real)
    ensures QMul(QScale(a, c), b) == QScale(QMul(a, b), c) == QMul(a, QScale(b, c))
  {
    hide QMul, QScale;
    RealTimes(a, c);
    RealTimes(b, c);
    RealTimes(QMul(a, b), c);
    QMulAssociative(Real(c), a, b);
    QMulAssociative(a, b, Real(c));
  }

  lemma OneIsUnit(q: Quat)
    ensures QMul(ONE, q) == q == QMul(q, ONE)
  {
  }

  /** `QINVERSE` is a two-sided inverse exactly when it did not meet its guard. */
  lemma QInverseIff(q: Quat, tol: Tolerance)
    ensures QMagSq(q) >= tol <==> QMul(QInverse(q, tol), q) == ONE
    ensures QMagSq(q) >= tol <==> QMul(q, QInverse(q, tol)) == ONE
    ensures QMagSq(q) < tol <==> QInverse(q, tol) == Quat(0.0, 0.0, 0.0, 0.0)
  {
  }

  // --- rotating a vector

  lemma DistributeLeft(a: Quat, b: Quat, c: Quat)
    ensures QMul(a, QAdd(b, c)) == QAdd(QMul(a, b), QMul(a, c))
  {
  }

  lemma DistributeRight(a: Quat, b: Quat, c: Quat)
    ensures QMul(QAdd(b, c), a) == QAdd(QMul(b, a), QMul(c, a))
  {
  }

  /** [0, P'] = Q^-1 [0, P] Q, with any quaternion for [0, P]. */
  function Turned(i: Quat, p: Quat, q: Quat): Quat
  {
    QMul(QMul(i, p), q)
  }

  lemma TurnedTimes(i: Quat, q: Quat, p: Quat, r: Quat)
    requires QMul(q, i) == ONE
    ensures QMul(Turned(i, p, q), Turned(i, r, q)) == Turned(i, QMul(p, r), q)
  {
    hide QMul;
    var ip := QMul(i, p);
    QMulAssociative(ip, q, Turned(i, r, q));
    QMulAssociative(q, QMul(i, r), q);
    QMulAssociative(q, i, r);
    OneIsUnit(r);
    QMulAssociative(ip, r, q);
    QMulAssociative(i, p, r);
  }

  lemma TurnedSum(i: Quat, q: Quat, p: Quat, c: real)
    requires QMul(i, q) == ONE
    ensures Turned(i, QAdd(p, Real(c)), q) == QAdd(Turned(i, p, q), Real(c))
  {
    hide QMul;
    DistributeLeft(i, p, Real(c));
    DistributeRight(q, QMul(i, p), QMul(i, Real(c)));
    RealTimes(i, c);
    ScaleSlides(i, q, c);
    assert QScale(ONE, c) == Real(c);
  }

  /** The point P rotated by quaternion Q, as bn/qmath.h defines it. */
  function Rotated(q: Quat, p: Vec3, tol: Tolerance): Vec3
  {
    Vec(Turned(QInverse(q, tol), Pure(p), q))
  }

  lemma PureTimesPure(p: Vec3, r: Vec3)
    ensures QMul(Pure(p), Pure(r)) == QAdd(Pure(Cross(p, r)), Real(-Dot(p, r)))
  {
  }

  lemma SumParts(p: Vec3, r: Vec3, c: real, d: real)
    requires QAdd(Pure(p), Real(c)) == QAdd(Pure(r), Real(d))
    ensures p == r && c == d
  {
  }

  lemma TurnedReal(i: Quat, q: Quat, p: Quat)
    requires QMul(q, i) == ONE
    ensures Turned(i, p, q).w == p.w
  {
    hide QMul;
    RealPartSwaps(QMul(i, p), q);
    QMulAssociative(q, i, p);
    OneIsUnit(p);
  }

  lemma RealPartSwaps(a: Quat, b: Quat)
    ensures QMul(a, b).w == QMul(b, a).w
  {
  }

  /** The rotated point has no scalar part. */
  lemma RotatedIsPure(q: Quat, p: Vec3, tol: Tolerance)
    requires QMagSq(q) >= tol
    ensures Turned(QInverse(q, tol), Pure(p), q) == Pure(Rotated(q, p, tol))
  {
    hide QMul, QInverse;
    QInverseIff(q, tol);
    TurnedReal(QInverse(q, tol), q, Pure(p));
  }

  /** Rotation keeps dot products and cross products, so lengths, angles and
      handedness, for every quaternion that has an inverse. */
  lemma RotatedKeeps(q: Quat, p: Vec3, r: Vec3, tol: Tolerance)
    requires QMagSq(q) >= tol
    ensures Dot(Rotated(q, p, tol), Rotated(q, r, tol)) == Dot(p, r)
    ensures Cross(Rotated(q, p, tol), Rotated(q, r, tol)) == Rotated(q, Cross(p, r), tol)
  {
    hide QMul, QInverse, QMagSq, Dot, Cross, Turned, Rotated;
    var i := QInverse(q, tol);
    var p', r' := Rotated(q, p, tol), Rotated(q, r, tol);
    QInverseIff(q, tol);
    RotatedIsPure(q, p, tol);
    RotatedIsPure(q, r, tol);
    RotatedIsPure(q, Cross(p, r), tol);
    TurnedTimes(i, q, Pure(p), Pure(r));
    PureTimesPure(p, r);
    PureTimesPure(p', r');
    TurnedSum(i, q, Pure(Cross(p, r)), -Dot(p, r));
    SumParts(Cross(p', r'), Rotated(q, Cross(p, r), tol), -Dot(p', r'), -Dot(p, r));
  }

  // --- rotating in several turns

  lemma InverseOfProduct(a: Quat, b: Quat, tol: Tolerance)
    requires QMagSq(a) >= tol && QMagSq(b) >= tol && QMagSq(QMul(a, b)) >= tol
    ensures QInverse(QMul(a, b), tol) == QMul(QInverse(b, tol), QInverse(a, tol))
  {
    hide QMul, QInverse, QMagSq;
    var ab, x, ia, ib := QMul(a, b), QInverse(QMul(a, b), tol), QInverse(a, tol), QInverse(b, tol);
    QInverseIff(a, tol);
    QInverseIff(b, tol);
    QInverseIff(ab, tol);
    var y := QMul(ib, ia);
    // ab * y == 1, so x == x * (ab * y) == (x * ab) * y == y
    QMulAssociative(a, b, y);
    QMulAssociative(b, ib, ia);
    OneIsUnit(ia);
    QMulAssociative(x, ab, y);
    OneIsUnit(x);
    OneIsUnit(y);
  }

  /** Two turns are one turn by the product, the first turn on its left. */
  lemma TwoTurns(a: Quat, b: Quat, p: Vec3, tol: Tolerance)
    requires QMagSq(a) >= tol && QMagSq(b) >= tol && QMagSq(QMul(a, b)) >= tol
    ensures Rotated(QMul(a, b), p, tol) == Rotated(b, Rotated(a, p, tol), tol)
  {
    hide QMul, QInverse, QMagSq;
    var ia, ib := QInverse(a, tol), QInverse(b, tol);
    InverseOfProduct(a, b, tol);
    RotatedIsPure(a, p, tol);
    // (ib ia) P (a b) == ib (ia P a) b
    QMulAssociative(ib, ia, Pure(p));
    QMulAssociative(QMul(ib, QMul(ia, Pure(p))), a, b);
    QMulAssociative(ib, QMul(ia, Pure(p)), a);
  }

  /** The product of the quaternions, the first turn on the left. */
  function Composed(qs: seq<Quat>): Quat
  {
    if qs == [] then ONE else QMul(Composed(qs[..|qs| - 1]), qs[|qs| - 1])
  }

  /** The point turned by each quaternion in turn. */
  function RotatedByAll(qs: seq<Quat>, p: Vec3, tol: Tolerance): Vec3
  {
    if qs == [] then p else Rotated(qs[|qs| - 1], RotatedByAll(qs[..|qs| - 1], p, tol), tol)
  }

  /** No quaternion and no partial product meets the guard of `QINVERSE`. */
  predicate Invertible(qs: seq<Quat>, tol: Tolerance)
  {
    qs == [] ||
    (Invertible(qs[..|qs| - 1], tol) && QMagSq(qs[|qs| - 1]) >= tol && QMagSq(Composed(qs)) >= tol)
  }

  /** Turning by each quaternion in turn is turning once by their product. */
  lemma {:induction false} RotatedByProduct(qs: seq<Quat>, p: Vec3, tol: Tolerance)
    requires Invertible(qs, tol)
    ensures Rotated(Composed(qs), p, tol) == RotatedByAll(qs, p, tol)
    ensures QMagSq(Composed(qs)) >= tol
  {
    hide QMul, QInverse, Rotated;
    if qs == [] {
      ByOne(p, tol);
    } else {
      var before, q := qs[..|qs| - 1], qs[|qs| - 1];
      RotatedByProduct(before, p, tol);
      TwoTurns(Composed(before), q, p, tol);
    }
  }

  lemma ByOne(p: Vec3, tol: Tolerance)
    ensures Rotated(ONE, p, tol) == p && QMagSq(ONE) == 1.0
  {
  }

  /** Products of unit quaternions stay unit, so any sequence of them composes. */
  lemma {:induction false} UnitsCompose(qs: seq<Quat>, tol: Tolerance)
    requires forall k :: 0 <= k < |qs| ==> QMagSq(qs[k]) == 1.0
    ensures QMagSq(Composed(qs)) == 1.0
    ensures Invertible(qs, tol)
  {
    hide QMul, QMagSq;
    if qs == [] {
      ByOne(Vec3(0.0, 0.0, 0.0), tol);
    } else {
      var before := qs[..|qs| - 1];
      UnitsCompose(before, tol);
      QMagSqMultiplies(Composed(before), qs[|qs| - 1]);
    }
  }

  /** A quaternion and any multiple of it make the same rotation. */
  lemma ScaledRotates(q: Quat, f: real, p: Vec3, tol: Tolerance)
    requires QMagSq(q) >= tol && QMagSq(QScale(q, f)) >= tol
    ensures Rotated(QScale(q, f), p, tol) == Rotated(q, p, tol)
  {
    hide QMul, QInverse, QMagSq, QScale;
    var u, i, j := QScale(q, f), QInverse(q, tol), QInverse(QScale(q, f), tol);
    QInverseIff(q, tol);
    QInverseIff(u, tol);
    // j f == i, since (j f) q == j u == 1
    ScaleSlides(j, q, f);
    QMulAssociative(QScale(j, f), q, i);
    OneIsUnit(i);
    OneIsUnit(QScale(j, f));
    assert QScale(j, f) == i;
    ScaleSlides(j, Pure(p), f);
    ScaleSlides(QMul(j, Pure(p)), q, f);
  }

  // --- arrays

  function At(a: array<real>): Quat
    requires a.Length == 4
    reads a
  {
    Quat(a[0], a[1], a[2], a[3])
  }

  /** What `QMUL` leaves when it is written over its first operand: each lane
      reads the lanes that were stored before it. */
  function QMulOverLeft(b: Quat, c: Quat): Quat
  {
    var w := RealLane(b.x, b.y, b.z, b.w, c.x, c.y, c.z, c.w);
    var x := Lane(b.x, b.y, b.z, w, c.x, c.y, c.z, c.w);
    var y := Lane(b.y, b.z, x, w, c.y, c.z, c.x, c.w);
    var z := Lane(b.z, x, y, w, c.z, c.x, c.y, c.w);
    Quat(x, y, z, w)
  }

  /** Over its second operand. */
  function QMulOverRight(b: Quat, c: Quat): Quat
  {
    var w := RealLane(b.x, b.y, b.z, b.w, c.x, c.y, c.z, c.w);
    var x := Lane(b.x, b.y, b.z, b.w, c.x, c.y, c.z, w);
    var y := Lane(b.y, b.z, b.x, b.w, c.y, c.z, x, w);
    var z := Lane(b.z, b.x, b.y, b.w, c.z, x, y, w);
    Quat(x, y, z, w)
  }

  /** Over both, squaring in place. */
  function QMulOverBoth(q: Quat): Quat
  {
    var w := RealLane(q.x, q.y, q.z, q.w, q.x, q.y, q.z, q.w);
    var x := Lane(q.x, q.y, q.z, w, q.x, q.y, q.z, w);
    var y := Lane(q.y, q.z, x, w, q.y, q.z, x, w);
    var z := Lane(q.z, x, y, w, q.z, x, y, w);
    Quat(x, y, z, w)
  }

  /** What a product with `x` changes by when its other factor changes from `a` to `e`. */
  function Change(e: real, a: real, x: real): real
  {
    (e - a) * x
  }

  /** How a lane moves when the last elements of the first operand change. */
  lemma LaneShiftsLeft(ax: real, ay: real, az: real, aw: real, cx: real, cy: real, cz: real, cw: real,
                       ey: real, ez: real, ew: real)
    ensures Lane(ax, ay, az, ew, cx, cy, cz, cw) == Lane(ax, ay, az, aw, cx, cy, cz, cw) + Change(ew, aw, cx)
    ensures Lane(ax, ay, ez, ew, cx, cy, cz, cw) == Lane(ax, ay, az, ew, cx, cy, cz, cw) - Change(ez, az, cy)
    ensures Lane(ax, ey, ez, ew, cx, cy, cz, cw) == Lane(ax, ay, ez, ew, cx, cy, cz, cw) + Change(ey, ay, cz)
  {
  }

  /** And of the second. */
  lemma LaneShiftsRight(ax: real, ay: real, az: real, aw: real, cx: real, cy: real, cz: real, cw: real,
                        ey: real, ez: real, ew: real)
    ensures Lane(ax, ay, az, aw, cx, cy, cz, ew) == Lane(ax, ay, az, aw, cx, cy, cz, cw) + Change(ew, cw, ax)
    ensures Lane(ax, ay, az, aw, cx, cy, ez, ew) == Lane(ax, ay, az, aw, cx, cy, cz, ew) + Change(ez, cz, ay)
    ensures Lane(ax, ay, az, aw, cx, ey, ez, ew) == Lane(ax, ay, az, aw, cx, cy, ez, ew) - Change(ey, cy, az)
  {
  }

  lemma LaneOfSquare(x: real, y: real, z: real, w: real)
    ensures Lane(x, y, z, w, x, y, z, w) == 2.0 * (w * x)
  {
  }

  lemma ZeroTimes(a: real, x: real, b: real)
    ensures 2.0 * (a * x) == 2.0 * (b * x) <==> a == b || x == 0.0
  {
    if a * x == b * x && x != 0.0 {
      CancelFactor(a, b, x);
    }
  }

  /** Over its first operand it multiplies exactly if the elements that the product
      changes cancel in each later lane. */
  lemma QMulOverLeftIff(b: Quat, c: Quat)
    ensures var p := QMul(b, c);
      QMulOverLeft(b, c) == p <==>
        Change(p.w, b.w, c.x) == 0.0
        && Change(p.w, b.w, c.y) == Change(p.x, b.x, c.z)
        && Change(p.w, b.w, c.z) + Change(p.x, b.x, c.y) == Change(p.y, b.y, c.x)
  {
    hide Lane, RealLane, Change;
    var o := QMulOverLeft(b, c);
    LaneShiftsLeft(b.x, b.y, b.z, b.w, c.x, c.y, c.z, c.w, b.y, b.z, o.w);
    LaneShiftsLeft(b.y, b.z, b.x, b.w, c.y, c.z, c.x, c.w, b.z, o.x, o.w);
    LaneShiftsLeft(b.z, b.x, b.y, b.w, c.z, c.x, c.y, c.w, o.x, o.y, o.w);
  }

  /** Over its second operand likewise. */
  lemma QMulOverRightIff(b: Quat, c: Quat)
    ensures var p := QMul(b, c);
      QMulOverRight(b, c) == p <==>
        Change(p.w, c.w, b.x) == 0.0
        && Change(p.w, c.w, b.y) + Change(p.x, c.x, b.z) == 0.0
        && Change(p.w, c.w, b.z) + Change(p.y, c.y, b.x) == Change(p.x, c.x, b.y)
  {
    hide Lane, RealLane, Change;
    var o := QMulOverRight(b, c);
    LaneShiftsRight(b.x, b.y, b.z, b.w, c.x, c.y, c.z, c.w, c.y, c.z, o.w);
    LaneShiftsRight(b.y, b.z, b.x, b.w, c.y, c.z, c.x, c.w, c.z, o.x, o.w);
    LaneShiftsRight(b.z, b.x, b.y, b.w, c.z, c.x, c.y, c.w, o.x, o.y, o.w);
  }

  /** Over both it squares exactly if the number is real or its square has the real
      part that was there before. */
  lemma QMulOverBothIff(q: Quat)
    ensures QMulOverBoth(q) == QMul(q, q) <==> QMul(q, q).w == q.w || Vec(q) == Vec3(0.0, 0.0, 0.0)
  {
    hide Lane, RealLane;
    var p, o := QMul(q, q), QMulOverBoth(q);
    LaneOfSquare(q.x, q.y, q.z, q.w);
    LaneOfSquare(q.y, q.z, q.x, q.w);
    LaneOfSquare(q.z, q.x, q.y, q.w);
    LaneOfSquare(q.x, q.y, q.z, o.w);
    LaneOfSquare(q.y, q.z, o.x, o.w);
    LaneOfSquare(q.z, o.x, o.y, o.w);
    ZeroTimes(o.w, q.x, q.w);
    ZeroTimes(o.w, q.y, q.w);
    ZeroTimes(o.w, q.z, q.w);
  }

  lemma LeftLost(b: Quat, c: Quat)
    requires QMul(b, c).w != b.w && c.x == 1.0
    ensures QMulOverLeft(b, c) != QMul(b, c)
  {
    hide QMul, QMulOverLeft;
    QMulOverLeftIff(b, c);
  }

  lemma RightLost(b: Quat, c: Quat)
    requires QMul(b, c).w != c.w && b.x == 1.0
    ensures QMulOverRight(b, c) != QMul(b, c)
  {
    hide QMul, QMulOverRight;
    QMulOverRightIff(b, c);
  }

  lemma RealPart(b: Quat, c: Quat)
    requires b.y == b.z == 0.0 && b.x == c.x == 1.0
    ensures QMul(b, c).w == b.w * c.w - 1.0
  {
  }

  /** For instance 1 + i times i is -1 + i, and over the first operand -1 - i; over
      the second, i times 1 + i goes wrong, and in place the square of 1 + i. */
  lemma QMulOverDiffers(b: Quat, c: Quat)
    requires b == Quat(1.0, 0.0, 0.0, 1.0) && c == Quat(1.0, 0.0, 0.0, 0.0)
    ensures QMulOverLeft(b, c) != QMul(b, c)
    ensures QMulOverRight(c, b) != QMul(c, b)
    ensures QMulOverBoth(b) != QMul(b, b)
  {
    hide QMul, QMulOverLeft, QMulOverRight, QMulOverBoth;
    RealPart(b, c);
    RealPart(c, b);
    RealPart(b, b);
    LeftLost(b, c);
    RightLost(c, b);
    QMulOverBothIff(b);
  }

  /** `QMUL`, which the header allows on any arrays: the product if the result has
      an array of its own, and otherwise what the stores leave. */
  method QMulInto(a: array<real>, b: array<real>, c: array<real>)
    requires a.Length == b.Length == c.Length == 4
    modifies a
    ensures a != b && a != c ==> At(a) == QMul(At(b), At(c))
    ensures a == b && a != c ==> At(a) == QMulOverLeft(old(At(b)), At(c))
    ensures a != b && a == c ==> At(a) == QMulOverRight(At(b), old(At(c)))
    ensures a == b == c ==> At(a) == QMulOverBoth(old(At(b)))
  {
    hide Lane, RealLane;
    a[3] := RealLane(b[0], b[1], b[2], b[3], c[0], c[1], c[2], c[3]);
    a[0] := Lane(b[0], b[1], b[2], b[3], c[0], c[1], c[2], c[3]);
    a[1] := Lane(b[1], b[2], b[0], b[3], c[1], c[2], c[0], c[3]);
    a[2] := Lane(b[2], b[0], b[1], b[3], c[2], c[0], c[1], c[3]);
  }

  /** `QCONJUGATE`, also in place. */
  method QConjugateInto(a: array<real>, b: array<real>)
    requires a.Length == b.Length == 4
    modifies a
    ensures At(a) == old(QConjugate(At(b)))
  {
    a[0] := -b[0];
    a[1] := -b[1];
    a[2] := -b[2];
    a[3] := b[3];
  }

  /** `QINVERSE`, also in place. */
  method QInverseInto(a: array<real>, b: array<real>, tol: Tolerance)
    requires a.Length == b.Length == 4
    modifies a
    ensures At(a) == old(QInverse(At(b), tol))
  {
    var f := QMagSq(At(b));
    if f < tol {
      f := 0.0;
    } else {
      f := 1.0 / f;
    }
    a[0] := -b[0] * f;
    a[1] := -b[1] * f;
    a[2] := -b[2] * f;
    a[3] := b[3] * f;
  }
}
