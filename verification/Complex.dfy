/** Complex numbers: include/bn/complex.h and src/libbn/complex.c, in exact
    arithmetic. */
module Complex {
  import opened VMath

  /** The value of a complex number. */
  datatype Z = Z(re: real, im: real)

  function Times(a: Z, b: Z): Z
  {
    Z(a.re * b.re - a.im * b.im, a.re * b.im + a.im * b.re)
  }

  function Plus(a: Z, b: Z): Z
  {
    Z(a.re + b.re, a.im + b.im)
  }

  function Conj(a: Z): Z
  {
    Z(a.re, -a.im)
  }

  /** `bn_cx_amplsq`. */
  function AmplSq(a: Z): real
  {
    a.re * a.re + a.im * a.im
  }

  /** `bn_complex_t`. */
  class Cx {
    var re: real
    var im: real

    function Val(): Z
      reads this
    {
      Z(re, im)
    }
  }

  // --- products

  /** `bn_cx_mul`: the operands may be the same object. */
  method Mul(ap: Cx, bp: Cx)
    modifies ap
    ensures ap.Val() == old(Times(ap.Val(), bp.Val()))
  {
    var aRe, bRe := ap.re, bp.re;
    ap.re := aRe * bRe - ap.im * bp.im;
    ap.im := aRe * bp.im + ap.im * bRe;
  }

  /** What the second assignment of `bn_cx_mul2` stores, given the real part that
      `bp` and `cp` have by then. */
  function Mul2Im(b: Z, c: Z, bRe: real, cRe: real): real
  {
    cRe * b.im + c.im * bRe
  }

  /** `bn_cx_mul2`, for any operands. */
  method Mul2(ap: Cx, bp: Cx, cp: Cx)
    modifies ap
    ensures var b, c := old(bp.Val()), old(cp.Val());
      ap.Val() == Z(Times(c, b).re,
                    Mul2Im(b, c, if ap == bp then Times(c, b).re else b.re, if ap == cp then Times(c, b).re else c.re))
  {
    ap.re := cp.re * bp.re - cp.im * bp.im;
    ap.im := cp.re * bp.im + cp.im * bp.re;
  }

  /** With a result object of its own, `bn_cx_mul2` multiplies. */
  lemma Mul2Multiplies(b: Z, c: Z)
    ensures Mul2Im(b, c, b.re, c.re) == Times(c, b).im
    ensures Times(c, b) == Times(b, c)
  {
  }

  /** Written over its first operand it multiplies only if the second is real or
      the product has the real part that was there before. */
  lemma Mul2OverFirstIff(b: Z, c: Z)
    ensures Mul2Im(b, c, Times(c, b).re, c.re) == Times(c, b).im <==> c.im == 0.0 || Times(c, b).re == b.re
  {
  }

  /** Over its second operand likewise. */
  lemma Mul2OverSecondIff(b: Z, c: Z)
    ensures Mul2Im(b, c, b.re, Times(c, b).re) == Times(c, b).im <==> b.im == 0.0 || Times(c, b).re == c.re
  {
  }

  /** Squaring in place it is right exactly for a real number, or one whose square
      has the real part that was there before. */
  lemma Mul2OverBothIff(z: Z)
    ensures Mul2Im(z, z, Times(z, z).re, Times(z, z).re) == Times(z, z).im <==> z.im == 0.0 || Times(z, z).re == z.re
  {
    hide Times;
    DoubledIff(Times(z, z).re, z.im, z.re);
    TimesParts(z, z);
  }

  lemma TimesParts(a: Z, b: Z)
    ensures Times(a, b).re == a.re * b.re - a.im * b.im
    ensures Times(a, b).im == a.re * b.im + a.im * b.re
  {
  }

  /** So not for i. */
  lemma Mul2SquaresI(i: Z)
    requires i == Z(0.0, 1.0)
    ensures Times(i, i) == Z(-1.0, 0.0)
    ensures Mul2Im(i, i, Times(i, i).re, Times(i, i).re) != Times(i, i).im
  {
    hide Times;
    TimesParts(i, i);
    assert i.re * i.re == 0.0 && i.im * i.im == 1.0 && i.re * i.im == 0.0;
    Mul2OverBothIff(i);
  }

  lemma DoubledIff(a: real, x: real, b: real)
    ensures a * x + x * a == b * x + x * b <==> x == 0.0 || a == b
  {
    if a * x == b * x && x != 0.0 {
      CancelFactor(a, b, x);
    }
  }

  lemma TimesAssociative(a: Z, b: Z, c: Z)
    ensures Times(Times(a, b), c) == Times(a, Times(b, c))
  {
  }

  lemma TimesDistributes(a: Z, b: Z, c: Z)
    ensures Times(Plus(a, b), c) == Plus(Times(a, c), Times(b, c))
  {
  }

  /** The squared amplitude of a product is the product of them. */
  lemma AmplSqMultiplies(a: Z, b: Z)
    ensures AmplSq(Times(a, b)) == AmplSq(a) * AmplSq(b)
  {
  }

  lemma ConjugateGivesAmplSq(a: Z)
    ensures Times(a, Conj(a)) == Z(AmplSq(a), 0.0)
    ensures Conj(Conj(a)) == a
  {
  }

  // --- quotients

  /** The denominator is not zero: times `r` it is a sum of squares. */
  lemma Denominator(r: real, s: real)
    requires r != 0.0
    ensures r + (s / r) * s != 0.0
  {
    var rho := s / r;
    assert rho * r == s;
    var d, rr, ss := r + rho * s, r * r, s * s;
    Square(r, rr);
    Square(s, ss);
    DenominatorSquares(r, s, rho, d, rr, ss);
  }

  lemma DenominatorSquares(r: real, s: real, rho: real, d: real, rr: real, ss: real)
    requires rho * r == s && d == r + rho * s && rr == r * r && ss == s * s
    ensures d * r == rr + ss
  {
  }

  /** `x` over `r` and `y` over `s`, with the smaller part of the divisor scaled. */
  lemma Numerators(x: real, y: real, r: real, s: real, rho: real, d: real, n1: real, n2: real)
    requires rho * r == s && d == r + rho * s
    requires n1 == x + y * rho && n2 == y - x * rho
    ensures n1 * r - n2 * s == x * d
    ensures n1 * s + n2 * r == y * d
  {
  }

  lemma Scaled(n1: real, n2: real, r: real, s: real, sigma: real, d: real, x: real, y: real, p: real, q: real)
    requires n1 * r - n2 * s == x * d && n1 * s + n2 * r == y * d && sigma * d == 1.0
    requires p == n1 * sigma && q == n2 * sigma
    ensures p * r - q * s == x
    ensures p * s + q * r == y
  {
  }

  function Ratio(a: real, b: real): real
    requires b != 0.0
  {
    a / b
  }

  function Reciprocal(a: real, b: real, c: real): real
    requires a + b * c != 0.0
  {
    1.0 / (a + b * c)
  }

  function SumTimes(a: real, b: real, c: real, scale: real): real
  {
    (a + b * c) * scale
  }

  function LessTimes(a: real, b: real, c: real, scale: real): real
  {
    (a - b * c) * scale
  }

  lemma QuotientByRe(a: Z, b: Z)
    requires b.re != 0.0
    ensures var rho := Ratio(b.im, b.re);
      b.re + rho * b.im != 0.0
      && var sigma := Reciprocal(b.re, rho, b.im);
        Times(Z(SumTimes(a.re, a.im, rho, sigma), LessTimes(a.im, a.re, rho, sigma)), b) == a
  {
    Denominator(b.re, b.im);
    var rho := b.im / b.re;
    var d := b.re + rho * b.im;
    var sigma := 1.0 / d;
    var n1, n2 := a.re + a.im * rho, a.im - a.re * rho;
    Numerators(a.re, a.im, b.re, b.im, rho, d, n1, n2);
    Scaled(n1, n2, b.re, b.im, sigma, d, a.re, a.im, n1 * sigma, n2 * sigma);
  }

  /** With the parts of both numbers exchanged, `i` times the conjugate, the other
      branch is the same computation. */
  lemma QuotientByIm(a: Z, b: Z)
    requires b.im != 0.0
    ensures var rho := Ratio(b.re, b.im);
      b.im + rho * b.re != 0.0
      && var sigma := Reciprocal(b.im, rho, b.re);
        Times(Z(SumTimes(a.im, a.re, rho, sigma), -LessTimes(a.re, a.im, rho, sigma)), b) == a
  {
    Denominator(b.im, b.re);
    var rho := b.re / b.im;
    var d := b.im + rho * b.re;
    var sigma := 1.0 / d;
    var n1, n2 := a.im + a.re * rho, a.re - a.im * rho;
    Numerators(a.im, a.re, b.im, b.re, rho, d, n1, n2);
    Scaled(n1, n2, b.im, b.re, sigma, d, a.im, a.re, n1 * sigma, n2 * sigma);
    assert (-(n2 * sigma)) * b.im == -(n2 * sigma * b.im) && (-(n2 * sigma)) * b.re == -(n2 * sigma * b.re);
  }

  /** `bn_cx_div`: the operands may be the same object. */
  method Div(ap: Cx, bp: Cx, small: Tolerance)
    modifies ap
    ensures var a, b := old(ap.Val()), old(bp.Val());
      if NearZero(b.re, small) && NearZero(b.im, small) then ap.Val() == Z(1.0e20, 1.0e20)
      else Times(ap.Val(), b) == a
  {
    hide Times, Ratio, Reciprocal, SumTimes, LessTimes;
    ghost var a, b := ap.Val(), bp.Val();
    var apRe := ap.re;
    var r, s := bp.re, bp.im;
    if Abs(r) >= Abs(s) {
      if NearZero(r, small) {
        ap.re, ap.im := 1.0e20, 1.0e20;
        return;
      }
      QuotientByRe(a, b);
      r := Ratio(s, r);
      s := Reciprocal(bp.re, r, s);
      ap.re := SumTimes(ap.re, ap.im, r, s);
      ap.im := LessTimes(ap.im, apRe, r, s);
    } else {
      if NearZero(s, small) {
        ap.re, ap.im := 1.0e20, 1.0e20;
        return;
      }
      QuotientByIm(a, b);
      r := Ratio(r, s);
      s := Reciprocal(s, r, bp.re);
      ap.re := SumTimes(ap.im, ap.re, r, s);
      ap.im := -LessTimes(apRe, ap.im, r, s);
    }
  }

  /** Division undoes multiplication. */
  lemma QuotientOnly(q: Z, a: Z, b: Z)
    requires b != Z(0.0, 0.0) && Times(q, b) == Times(a, b)
    ensures q == a
  {
    hide Times;
    var u, v, rr, ss := q.re - a.re, q.im - a.im, b.re * b.re, b.im * b.im;
    Square(b.re, rr);
    Square(b.im, ss);
    Differences(q, a, b, u, v);
    NoKernel(u, v, b.re, b.im, rr + ss);
    CancelFactor(u, 0.0, rr + ss);
    CancelFactor(v, 0.0, rr + ss);
  }

  lemma Differences(q: Z, a: Z, b: Z, u: real, v: real)
    requires Times(q, b) == Times(a, b) && u == q.re - a.re && v == q.im - a.im
    ensures u * b.re - v * b.im == 0.0 && u * b.im + v * b.re == 0.0
  {
  }

  lemma NoKernel(u: real, v: real, r: real, s: real, m: real)
    requires u * r - v * s == 0.0 && u * s + v * r == 0.0 && m == r * r + s * s
    ensures u * m == 0.0 && v * m == 0.0
  {
  }

  // --- square roots

  /** The root in the upper half plane, and on the real line the one that is not
      negative. */
  predicate IsSquareRoot(root: Z, z: Z)
  {
    Times(root, root) == z && 0.0 <= root.im && (root.im == 0.0 ==> 0.0 <= root.re)
  }

  /** There is no other such root. */
  lemma OneRoot(r: Z, s: Z, z: Z)
    requires IsSquareRoot(r, z) && IsSquareRoot(s, z)
    ensures r == s
  {
    var u, v, p, q := r.re - s.re, r.im - s.im, r.re + s.re, r.im + s.im;
    SquaresDiffer(r.re, r.im, s.re, s.im, u, v, p, q);
    if u != 0.0 || v != 0.0 {
      var pp, qq := p * p, q * q;
      Square(p, pp);
      Square(q, qq);
      NoKernel(u, v, p, q, pp + qq);
      if u != 0.0 {
        CancelFactor(pp + qq, 0.0, u);
      } else {
        CancelFactor(pp + qq, 0.0, v);
      }
    }
  }

  lemma SquaresDiffer(a: real, b: real, c: real, d: real, u: real, v: real, p: real, q: real)
    requires a * a - b * b == c * c - d * d && a * b + b * a == c * d + d * c
    requires u == a - c && v == b - d && p == a + c && q == b + d
    ensures u * p - v * q == 0.0 && u * q + v * p == 0.0
  {
  }

  /** `bn_cx_sqrt`, which takes a part that is near zero for zero, with `hypot` as the
      root of a sum of squares. The operands may
      be the same object. The tests for negative numbers guard against rounding,
      and in exact arithmetic they always fail. */
  method SqrtOf(op: Cx, ip: Cx, sqrt: Sqrt, small: Tolerance)
    requires forall x :: 0.0 <= x ==> IsRoot(sqrt, x)
    modifies op
    ensures var z := old(ip.Val());
      IsSquareRoot(
        op.Val(),
        Z(if NearZero(z.re, small) then 0.0 else z.re, if NearZero(z.im, small) then 0.0 else z.im))
  {
    hide IsSquareRoot, IsRoot, Amplitude;
    var re, im := ip.re, ip.im;
    if NearZero(re, small) {
      if NearZero(im, small) {
        op.re, op.im := 0.0, 0.0;
        RootOfZero();
      } else if im > 0.0 {
        op.im := sqrt(im * 0.5);
        op.re := op.im;
        RootUpwards(sqrt, im);
      } else {
        op.im := sqrt(im * -0.5);
        op.re := -op.im;
        RootDownwards(sqrt, im);
      }
    } else if NearZero(im, small) {
      if re > 0.0 {
        op.re := sqrt(re);
        op.im := 0.0;
        RootOfReal(sqrt, re);
      } else {
        op.im := sqrt(-re);
        op.re := 0.0;
        RootOfNegative(sqrt, re);
      }
    } else {
      var ampl := Amplitude(re, im, sqrt);
      AmplitudeSquared(re, im, sqrt);
      AmplIsLarger(re, im, ampl);
      var temp := (ampl - re) * 0.5;
      op.im := if temp < 0.0 then 0.0 else sqrt(temp);
      temp := (ampl + re) * 0.5;
      op.re := if temp < 0.0 then 0.0 else if im > 0.0 then sqrt(temp) else -sqrt(temp);
      RootOf(re, im, ampl, sqrt);
    }
  }

  /** `hypot`. */
  function Amplitude(re: real, im: real, sqrt: Sqrt): real
  {
    sqrt(re * re + im * im)
  }

  lemma AmplitudeSquared(re: real, im: real, sqrt: Sqrt)
    requires forall x :: 0.0 <= x ==> IsRoot(sqrt, x)
    ensures var ampl := Amplitude(re, im, sqrt);
      0.0 <= ampl && ampl * ampl == re * re + im * im
  {
    Square(re, re * re);
    Square(im, im * im);
    assert IsRoot(sqrt, re * re + im * im);
  }

  lemma RootOfZero()
    ensures IsSquareRoot(Z(0.0, 0.0), Z(0.0, 0.0))
  {
  }

  lemma RootUpwards(sqrt: Sqrt, im: real)
    requires 0.0 < im && forall x :: 0.0 <= x ==> IsRoot(sqrt, x)
    ensures var y := sqrt(im * 0.5);
      IsSquareRoot(Z(y, y), Z(0.0, im))
  {
    assert IsRoot(sqrt, im * 0.5);
  }

  lemma RootDownwards(sqrt: Sqrt, im: real)
    requires im < 0.0 && forall x :: 0.0 <= x ==> IsRoot(sqrt, x)
    ensures var y := sqrt(im * -0.5);
      IsSquareRoot(Z(-y, y), Z(0.0, im))
  {
    assert IsRoot(sqrt, im * -0.5);
    var y := sqrt(im * -0.5);
    assert (-y) * (-y) == y * y && (-y) * y == -(y * y) && y * (-y) == -(y * y);
  }

  lemma RootOfReal(sqrt: Sqrt, re: real)
    requires 0.0 < re && forall x :: 0.0 <= x ==> IsRoot(sqrt, x)
    ensures IsSquareRoot(Z(sqrt(re), 0.0), Z(re, 0.0))
  {
    assert IsRoot(sqrt, re);
  }

  lemma RootOfNegative(sqrt: Sqrt, re: real)
    requires re < 0.0 && forall x :: 0.0 <= x ==> IsRoot(sqrt, x)
    ensures IsSquareRoot(Z(0.0, sqrt(-re)), Z(re, 0.0))
  {
    assert IsRoot(sqrt, -re);
  }

  lemma AmplIsLarger(re: real, im: real, ampl: real)
    requires 0.0 <= ampl && ampl * ampl == re * re + im * im
    ensures -ampl <= re <= ampl
  {
    Square(im, im * im);
    RootsOrdered(re, ampl);
    NegatedSquare(re);
    RootsOrdered(-re, ampl);
  }

  lemma NegatedSquare(x: real)
    ensures (-x) * (-x) == x * x
  {
  }

  lemma RootsOrdered(x: real, y: real)
    requires x * x <= y * y && 0.0 <= y
    ensures x <= y
  {
    if y < x {
      GreaterSquare(x, y, x * x, y * y, x - y, x + y);
    }
  }

  lemma GreaterSquare(x: real, y: real, xx: real, yy: real, less: real, more: real)
    requires 0.0 <= y < x && xx == x * x && yy == y * y && less == x - y && more == x + y
    ensures yy < xx
  {
    assert less * more == xx - yy;
    assert 0.0 < less * more;
  }

  lemma RootOf(re: real, im: real, ampl: real, sqrt: Sqrt)
    requires forall x :: 0.0 <= x ==> IsRoot(sqrt, x)
    requires im != 0.0 && -ampl <= re <= ampl && ampl * ampl == re * re + im * im
    ensures var x, y := sqrt((ampl + re) * 0.5), sqrt((ampl - re) * 0.5);
      IsSquareRoot(Z(if im > 0.0 then x else -x, y), Z(re, im))
  {
    assert IsRoot(sqrt, (ampl + re) * 0.5) && IsRoot(sqrt, (ampl - re) * 0.5);
    var x, y := sqrt((ampl + re) * 0.5), sqrt((ampl - re) * 0.5);
    var s, t := (ampl + re) * 0.5, (ampl - re) * 0.5;
    var p, half := x * y, (if im > 0.0 then im else -im) * 0.5;
    assert 0.0 <= p;
    SquareOfProduct(x, y, s, t, p);
    assert s * t == half * half by { ProductOfParts(ampl, re, im, s, t, half); }
    SameSquare(p, half);
    if im <= 0.0 {
      NegatedSquare(x);
      assert (-x) * y == -p && y * (-x) == -p;
    }
  }

  lemma SquareOfProduct(x: real, y: real, s: real, t: real, p: real)
    requires x * x == s && y * y == t && p == x * y
    ensures p * p == s * t
  {
  }

  lemma ProductOfParts(ampl: real, re: real, im: real, s: real, t: real, half: real)
    requires ampl * ampl == re * re + im * im
    requires s == (ampl + re) * 0.5 && t == (ampl - re) * 0.5
    requires half == im * 0.5 || half == -im * 0.5
    ensures s * t == half * half
  {
  }

  lemma SameSquare(a: real, b: real)
    requires 0.0 <= a && 0.0 <= b && a * a == b * b
    ensures a == b
  {
    RootsOrdered(a, b);
    RootsOrdered(b, a);
  }
}
