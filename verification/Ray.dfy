/** ON_Ray of include/brep/ray.h: the closest point of a ray, and the crossing of
    two rays in the plane. */
module Ray {
  import opened VMath

  class ONRay {
    var origin: Vec3
    var dir: Vec3

    constructor (origin: Vec3, dir: Vec3)
      ensures this.origin == origin && this.dir == dir
    {
      this.origin, this.dir := origin, dir;
    }

    /** `operator=`. */
    method Assign(r: ONRay)
      modifies this
      ensures origin == old(r.origin) && dir == old(r.dir)
    {
      origin := r.origin;
      dir := r.dir;
    }

    function PointAt(t: real): Vec3
      reads this
    {
      OnLine(origin, dir, t)
    }

    /** `DistanceTo`: the distance to the closest point of the ray, which is at `t`.
        `sqrt` is any square root; `t` is `*out_t`, which is left
        alone when the origin is the closest point. */
    method DistanceTo(pt: Vec3, sqrt: Sqrt, wasT: real) returns (d: real, t: real)
      requires forall x :: 0.0 <= x ==> IsRoot(sqrt, x)
      ensures var found := if Dot(Sub(pt, origin), dir) <= 0.0 then 0.0 else t;
        0.0 <= d && 0.0 <= found && d * d == DistSq(pt, PointAt(found))
      ensures forall s :: 0.0 <= s ==> d * d <= DistSq(pt, PointAt(s))
      ensures Dot(Sub(pt, origin), dir) <= 0.0 ==> t == wasT
    {
      hide Foot, DistSq, Dot, Sub, Add, Scale;
      t := wasT;
      NoneCloserAtAll(pt, origin, dir);
      ClosestIsMet(pt, origin, dir);
      var w := Sub(pt, origin);
      var c1 := Dot(w, dir);
      if c1 <= 0.0 {
        DistSqNotNegative(pt, origin);
        assert IsRoot(sqrt, DistSq(pt, origin));
        d := sqrt(DistSq(pt, origin));
        return;
      }
      var b := Foot(pt, origin, dir);
      var p := Add(Scale(dir, b), origin);
      t := b;
      DistSqNotNegative(p, pt);
      assert IsRoot(sqrt, DistSq(p, pt));
      d := sqrt(DistSq(p, pt));
      Symmetric(p, pt);
      AddCommutes(Scale(dir, b), origin);
    }

    /** `IntersectRay`; `isect` is unchanged when the verdict is false. */
    method IntersectRay(v: ONRay, small: Tolerance, wasIsect: Vec3) returns (crosses: bool, isect: Vec3)
      ensures crosses <==> SaysTheyCross(origin, dir, v.origin, v.dir, small)
      ensures crosses ==> isect == OnLine(origin, dir, Along(origin, dir, v.origin, v.dir))
      ensures crosses ==> Same2d(isect, OnLine(v.origin, v.dir, Across(origin, dir, v.origin, v.dir)))
      ensures !crosses ==> isect == wasIsect
    {
      isect := wasIsect;
      var uxv := V2Cross(dir, v.dir);
      if NearZero(uxv, small) {
        return false, isect;
      }
      var qPxv := V2Cross(Sub(v.origin, origin), v.dir);
      if NearZero(qPxv, small) {
        return false, isect;
      }
      CrossingOnBoth(origin, dir, v.origin, v.dir);
      return true, PointAt(qPxv / uxv);
    }
  }

  function OnLine(origin: Vec3, dir: Vec3, t: real): Vec3
  {
    Add(origin, Scale(dir, t))
  }

  function DistSq(a: Vec3, b: Vec3): real
  {
    Dot(Sub(a, b), Sub(a, b))
  }

  lemma InCoordinates(a: Vec3, b: Vec3, t: real)
    ensures OnLine(a, b, t) == Vec3(a.x + b.x * t, a.y + b.y * t, a.z + b.z * t)
    ensures DistSq(a, b) == (a.x - b.x) * (a.x - b.x) + (a.y - b.y) * (a.y - b.y) + (a.z - b.z) * (a.z - b.z)
  {
  }

  // --- the closest point

  /** Where the perpendicular from the point meets the ray. */
  function Foot(pt: Vec3, origin: Vec3, dir: Vec3): real
    requires Dot(Sub(pt, origin), dir) > 0.0
  {
    DirectionIsLong(Sub(pt, origin), dir);
    Dot(Sub(pt, origin), dir) / Dot(dir, dir)
  }

  /** The squared distance found. */
  function Closest(pt: Vec3, origin: Vec3, dir: Vec3): real
  {
    if Dot(Sub(pt, origin), dir) <= 0.0 then DistSq(pt, origin)
    else DistSq(pt, OnLine(origin, dir, Foot(pt, origin, dir)))
  }

  lemma SquaresNotNegative(a: Vec3)
    ensures 0.0 <= Dot(a, a)
  {
  }

  lemma DistSqNotNegative(a: Vec3, b: Vec3)
    ensures 0.0 <= DistSq(a, b)
  {
  }

  lemma AddCommutes(a: Vec3, b: Vec3)
    ensures Add(a, b) == Add(b, a)
  {
  }

  lemma Symmetric(a: Vec3, b: Vec3)
    ensures DistSq(a, b) == DistSq(b, a)
  {
  }

  lemma ZeroDirection(w: Vec3, dir: Vec3)
    requires dir == Vec3(0.0, 0.0, 0.0)
    ensures Dot(w, dir) == 0.0
  {
  }

  /** A direction that is not square to something is not zero. */
  lemma DirectionIsLong(w: Vec3, dir: Vec3)
    requires Dot(w, dir) != 0.0
    ensures Dot(dir, dir) > 0.0
  {
    var xx, yy, zz := dir.x * dir.x, dir.y * dir.y, dir.z * dir.z;
    Square(dir.x, xx);
    Square(dir.y, yy);
    Square(dir.z, zz);
    if dir == Vec3(0.0, 0.0, 0.0) {
      ZeroDirection(w, dir);
    }
  }

  /** Along the line the squared distance is a parabola. */
  lemma Parabola(pt: Vec3, origin: Vec3, dir: Vec3, t: real)
    ensures DistSq(pt, OnLine(origin, dir, t))
      == DistSq(pt, origin) - 2.0 * t * Dot(Sub(pt, origin), dir) + t * t * Dot(dir, dir)
  {
  }

  /** No point of the ray is closer, whatever the length of its direction. */
  lemma NoneCloser(pt: Vec3, origin: Vec3, dir: Vec3, t: real)
    requires 0.0 <= t
    ensures Closest(pt, origin, dir) <= DistSq(pt, OnLine(origin, dir, t))
  {
    hide DistSq, OnLine, Dot, Sub;
    var c1, c2 := Dot(Sub(pt, origin), dir), Dot(dir, dir);
    Parabola(pt, origin, dir, t);
    if c1 <= 0.0 {
      SquaresNotNegative(dir);
      Rises(c1, c2, t);
    } else {
      DirectionIsLong(Sub(pt, origin), dir);
      var b := Foot(pt, origin, dir);
      Parabola(pt, origin, dir, b);
      Bottom(c1, c2, b, t);
    }
  }

  lemma NoneCloserAtAll(pt: Vec3, origin: Vec3, dir: Vec3)
    ensures forall s :: 0.0 <= s ==> Closest(pt, origin, dir) <= DistSq(pt, OnLine(origin, dir, s))
  {
    hide Closest, DistSq, OnLine;
    forall s | 0.0 <= s
      ensures Closest(pt, origin, dir) <= DistSq(pt, OnLine(origin, dir, s))
    {
      NoneCloser(pt, origin, dir, s);
    }
  }

  /** And one point of the ray is that close. */
  lemma ClosestIsMet(pt: Vec3, origin: Vec3, dir: Vec3)
    ensures var s := if Dot(Sub(pt, origin), dir) <= 0.0 then 0.0 else Foot(pt, origin, dir);
      0.0 <= s && Closest(pt, origin, dir) == DistSq(pt, OnLine(origin, dir, s))
  {
    hide DistSq, Dot, Sub;
    if Dot(Sub(pt, origin), dir) <= 0.0 {
      assert OnLine(origin, dir, 0.0) == origin;
    } else {
      DirectionIsLong(Sub(pt, origin), dir);
      FootAhead(Dot(Sub(pt, origin), dir), Dot(dir, dir));
    }
  }

  lemma FootAhead(c1: real, c2: real)
    requires 0.0 < c1 && 0.0 < c2
    ensures 0.0 <= c1 / c2
  {
  }

  lemma Rises(c1: real, c2: real, t: real)
    requires c1 <= 0.0 && 0.0 <= c2 && 0.0 <= t
    ensures 0.0 <= -2.0 * t * c1 + t * t * c2
  {
  }

  /** The bottom of a parabola. */
  lemma Bottom(c1: real, c2: real, b: real, t: real)
    requires 0.0 < c2 && b * c2 == c1
    ensures -2.0 * b * c1 + b * b * c2 <= -2.0 * t * c1 + t * t * c2
    ensures -2.0 * b * c1 + b * b * c2 == -2.0 * t * c1 + t * t * c2 ==> t == b
  {
    var apart := t - b;
    var gap := apart * apart;
    Square(apart, gap);
    BottomGap(c1, c2, b, t, gap, gap * c2);
    if t != b {
      ProductPositive(gap, c2);
    }
  }

  lemma BottomGap(c1: real, c2: real, b: real, t: real, gap: real, lift: real)
    requires b * c2 == c1 && gap == (t - b) * (t - b) && lift == gap * c2
    ensures (-2.0 * t * c1 + t * t * c2) - (-2.0 * b * c1 + b * b * c2) == lift
  {
  }

  // --- the crossing

  function V2Cross(a: Vec3, b: Vec3): real
  {
    a.x * b.y - a.y * b.x
  }

  /** A point in the plane; the crossing is worked out on x and y alone. */
  predicate Same2d(a: Vec3, b: Vec3)
  {
    a.x == b.x && a.y == b.y
  }

  predicate MeetAt(o1: Vec3, d1: Vec3, o2: Vec3, d2: Vec3, t: real, s: real)
  {
    Same2d(OnLine(o1, d1, t), OnLine(o2, d2, s))
  }

  /** Where the crossing is on this line, and on the other. */
  function Along(o1: Vec3, d1: Vec3, o2: Vec3, d2: Vec3): real
    requires V2Cross(d1, d2) != 0.0
  {
    V2Cross(Sub(o2, o1), d2) / V2Cross(d1, d2)
  }

  function Across(o1: Vec3, d1: Vec3, o2: Vec3, d2: Vec3): real
    requires V2Cross(d1, d2) != 0.0
  {
    V2Cross(Sub(o2, o1), d1) / V2Cross(d1, d2)
  }

  /** Lines whose directions are not parallel meet at the crossing ... */
  lemma CrossingOnBoth(o1: Vec3, d1: Vec3, o2: Vec3, d2: Vec3)
    requires V2Cross(d1, d2) != 0.0
    ensures MeetAt(o1, d1, o2, d2, Along(o1, d1, o2, d2), Across(o1, d1, o2, d2))
  {
  }

  /** ... and nowhere else. */
  lemma CrossingOnly(o1: Vec3, d1: Vec3, o2: Vec3, d2: Vec3, t: real, s: real)
    requires V2Cross(d1, d2) != 0.0 && MeetAt(o1, d1, o2, d2, t, s)
    ensures t == Along(o1, d1, o2, d2)
  {
    var det, q := V2Cross(d1, d2), V2Cross(Sub(o2, o1), d2);
    Eliminate(o1, d1, o2, d2, t, s);
    assert q / det * det == q;
    CancelFactor(t, q / det, det);
  }

  lemma Eliminate(o1: Vec3, d1: Vec3, o2: Vec3, d2: Vec3, t: real, s: real)
    requires MeetAt(o1, d1, o2, d2, t, s)
    ensures t * V2Cross(d1, d2) == V2Cross(Sub(o2, o1), d2)
  {
  }

  /** Lines that meet do so in a single point exactly if the cross product of their
      directions is not zero. */
  lemma SinglePointIff(o1: Vec3, d1: Vec3, o2: Vec3, d2: Vec3, t: real, s: real)
    requires (d1.x != 0.0 || d1.y != 0.0) && (d2.x != 0.0 || d2.y != 0.0) && MeetAt(o1, d1, o2, d2, t, s)
    ensures V2Cross(d1, d2) != 0.0 <==> forall t', s' :: MeetAt(o1, d1, o2, d2, t', s') ==> t' == t
  {
    if V2Cross(d1, d2) != 0.0 {
      forall t', s' | MeetAt(o1, d1, o2, d2, t', s')
        ensures t' == t
      {
        CrossingOnly(o1, d1, o2, d2, t', s');
        CrossingOnly(o1, d1, o2, d2, t, s);
      }
    } else {
      var s' := MeetsAgain(o1, d1, o2, d2, t, s);
      assert MeetAt(o1, d1, o2, d2, t + 1.0, s') && t + 1.0 != t;
    }
  }

  /** Parallel lines that meet are one line. */
  lemma MeetsAgain(o1: Vec3, d1: Vec3, o2: Vec3, d2: Vec3, t: real, s: real) returns (s': real)
    requires (d2.x != 0.0 || d2.y != 0.0) && V2Cross(d1, d2) == 0.0 && MeetAt(o1, d1, o2, d2, t, s)
    ensures MeetAt(o1, d1, o2, d2, t + 1.0, s')
  {
    hide MeetAt, V2Cross;
    MeetIs(o1, d1, o2, d2, t, s);
    CrossZero(d1, d2);
    var k := Multiple(d1.x, d1.y, d2.x, d2.y);
    s' := s + k;
    OneFurther(o1.x, d1.x, t, o2.x, d2.x, s, k);
    OneFurther(o1.y, d1.y, t, o2.y, d2.y, s, k);
    MeetIs(o1, d1, o2, d2, t + 1.0, s');
  }

  lemma MeetIs(o1: Vec3, d1: Vec3, o2: Vec3, d2: Vec3, t: real, s: real)
    ensures MeetAt(o1, d1, o2, d2, t, s)
      <==> o1.x + d1.x * t == o2.x + d2.x * s && o1.y + d1.y * t == o2.y + d2.y * s
  {
    var a, b := OnLine(o1, d1, t), OnLine(o2, d2, s);
    assert a.x == o1.x + d1.x * t && a.y == o1.y + d1.y * t;
    assert b.x == o2.x + d2.x * s && b.y == o2.y + d2.y * s;
  }

  lemma CrossZero(a: Vec3, b: Vec3)
    requires V2Cross(a, b) == 0.0
    ensures a.x * b.y == a.y * b.x
  {
  }

  lemma OneFurther(a: real, u: real, t: real, b: real, v: real, s: real, k: real)
    requires a + u * t == b + v * s && u == v * k
    ensures a + u * (t + 1.0) == b + v * (s + k)
  {
  }

  lemma Multiple(ux: real, uy: real, vx: real, vy: real) returns (k: real)
    requires ux * vy == uy * vx && (vx != 0.0 || vy != 0.0)
    ensures ux == vx * k && uy == vy * k
  {
    if vx != 0.0 {
      k := ux / vx;
      assert ux == vx * k;
      assert vx * uy == vx * (vy * k);
      CancelFactor(uy, vy * k, vx);
    } else {
      k := uy / vy;
      assert ux * vy == 0.0 * vy;
      CancelFactor(ux, 0.0, vy);
    }
  }

  /** The verdict of `IntersectRay`. */
  predicate SaysTheyCross(o1: Vec3, d1: Vec3, o2: Vec3, d2: Vec3, small: Tolerance)
  {
    !NearZero(V2Cross(d1, d2), small) && !NearZero(V2Cross(Sub(o2, o1), d2), small)
  }

  /** For all lines that meet: they are turned down exactly if they are next to
      parallel or the point where they meet is next to this ray's own origin, its
      parameter being less than `small` over the cross product. */
  lemma TurnedDownIff(o1: Vec3, d1: Vec3, o2: Vec3, d2: Vec3, small: Tolerance, t: real, s: real)
    requires MeetAt(o1, d1, o2, d2, t, s)
    ensures !SaysTheyCross(o1, d1, o2, d2, small)
      <==> NearZero(V2Cross(d1, d2), small) || NearZero(t * V2Cross(d1, d2), small)
  {
    Eliminate(o1, d1, o2, d2, t, s);
  }

  /** In particular a ray that starts on the other line is said not to cross it. */
  lemma StartingOnTheOtherLine(o1: Vec3, d1: Vec3, o2: Vec3, d2: Vec3, small: Tolerance, s: real)
    requires Same2d(o1, OnLine(o2, d2, s))
    ensures !SaysTheyCross(o1, d1, o2, d2, small)
  {
  }

  /** And a line that passes behind the start of the ray is said to cross it. */
  lemma BehindTheStart(o1: Vec3, d1: Vec3, o2: Vec3, d2: Vec3, small: Tolerance)
    requires o1 == Vec3(0.0, 0.0, 0.0) && d1 == Vec3(1.0, 0.0, 0.0)
    requires o2 == Vec3(-1.0, 0.0, 0.0) && d2 == Vec3(0.0, 1.0, 0.0)
    ensures SaysTheyCross(o1, d1, o2, d2, small) && Along(o1, d1, o2, d2) == -1.0
  {
  }
}
