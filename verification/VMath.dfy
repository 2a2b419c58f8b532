/** Vectors and scalars of vmath.h in exact arithmetic. */
module VMath {

  datatype Vec3 = Vec3(x: real, y: real, z: real)

  /** A positive tolerance, such as VDIVIDE_TOL or VUNITIZE_TOL, which the header
      sets differently from one platform to the next. */
  type Tolerance = t: real | 0.0 < t < 1.0 witness 0.5

  predicate NearZero(val: real, epsilon: real)
  {
    -epsilon < val < epsilon
  }

  /** The square is less than the square of the tolerance. */
  lemma NearZeroIff(val: real, epsilon: real)
    requires 0.0 < epsilon
    ensures NearZero(val, epsilon) <==> val * val < epsilon * epsilon
  {
    SquareBelow(if val < 0.0 then -val else val, epsilon, val * val, epsilon * epsilon);
  }

  lemma SquareBelow(a: real, b: real, aa: real, bb: real)
    requires 0.0 <= a && 0.0 < b && aa == a * a && bb == b * b
    ensures a < b <==> aa < bb
  {
    var less, more := b - a, b + a;
    assert less * more == bb - aa;
    if a < b {
      ProductPositive(less, more);
    } else if b < a {
      ProductPositive(-less, more);
    }
  }

  /** `fabs`. */
  function Abs(x: real): real
  {
    if x < 0.0 then -x else x
  }

  /** Any function that takes square roots of numbers that are not negative. */
  type Sqrt = real -> real

  predicate IsRoot(sqrt: Sqrt, x: real)
  {
    sqrt(x) >= 0.0 && sqrt(x) * sqrt(x) == x
  }

  function Dot(a: Vec3, b: Vec3): real
  {
    a.x * b.x + a.y * b.y + a.z * b.z
  }

  function Cross(a: Vec3, b: Vec3): Vec3
  {
    Vec3(a.y * b.z - a.z * b.y, a.z * b.x - a.x * b.z, a.x * b.y - a.y * b.x)
  }

  function Add(a: Vec3, b: Vec3): Vec3
  {
    Vec3(a.x + b.x, a.y + b.y, a.z + b.z)
  }

  function Sub(a: Vec3, b: Vec3): Vec3
  {
    Vec3(a.x - b.x, a.y - b.y, a.z - b.z)
  }

  function Scale(a: Vec3, s: real): Vec3
  {
    Vec3(a.x * s, a.y * s, a.z * s)
  }

  /** A cast from double to int: it drops the fraction. */
  function Truncate(r: real): (n: int)
    ensures 0.0 <= r ==> n as real <= r < n as real + 1.0
    ensures r <= 0.0 ==> n as real - 1.0 < r <= n as real
  {
    if 0.0 <= r then r.Floor else -(-r).Floor
  }

  lemma TruncateMonotone(a: real, b: real)
    requires a <= b
    ensures Truncate(a) <= Truncate(b)
  {
  }

  lemma TruncateOdd(a: real)
    ensures Truncate(-a) == -Truncate(a)
  {
  }

  /** The number that truncates to `n`, when it is not negative. */
  lemma TruncateIs(r: real, n: int)
    requires 0 <= n && n as real <= r < n as real + 1.0
    ensures Truncate(r) == n
  {
  }

  // --- products

  lemma Square(x: real, xx: real)
    requires xx == x * x
    ensures 0.0 <= xx
    ensures xx == 0.0 ==> x == 0.0
  {
    if x != 0.0 {
      assert xx / x == x;
    }
  }

  lemma ProductPositive(a: real, b: real)
    requires 0.0 < a && 0.0 < b
    ensures 0.0 < a * b
  {
  }

  lemma CancelFactor(a: real, b: real, c: real)
    requires a * c == b * c && c != 0.0
    ensures a == b
  {
  }
}
