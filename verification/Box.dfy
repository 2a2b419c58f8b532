/** The axis-aligned boxes ("RPPs") of vmath.h. */
module Box {
  import opened VMath

  /** A box, as the pair of points that the macros take. */
  datatype Rpp = Rpp(lo: Vec3, hi: Vec3)

  predicate AllLe(a: Vec3, b: Vec3)
  {
    a.x <= b.x && a.y <= b.y && a.z <= b.z
  }

  predicate WellFormed(b: Rpp)
  {
    AllLe(b.lo, b.hi)
  }

  /** `V3PNT_IN_RPP`. */
  predicate PointIn(p: Vec3, b: Rpp)
  {
    && p.x >= b.lo.x && p.x <= b.hi.x
    && p.y >= b.lo.y && p.y <= b.hi.y
    && p.z >= b.lo.z && p.z <= b.hi.z
  }

  /** `V3PNT_IN_RPP_TOL`. */
  predicate PointInTol(p: Vec3, b: Rpp, t: real)
  {
    && p.x >= b.lo.x - t && p.x <= b.hi.x + t
    && p.y >= b.lo.y - t && p.y <= b.hi.y + t
    && p.z >= b.lo.z - t && p.z <= b.hi.z + t
  }

  /** `V3PNT_OUT_RPP_TOL`. */
  predicate PointOutTol(p: Vec3, b: Rpp, t: real)
  {
    || p.x < b.lo.x - t || p.x > b.hi.x + t
    || p.y < b.lo.y - t || p.y > b.hi.y + t
    || p.z < b.lo.z - t || p.z > b.hi.z + t
  }

  /** `V3RPP_DISJOINT_TOL`; `V3RPP_DISJOINT` is the same at tolerance 0. */
  predicate DisjointTol(a: Rpp, b: Rpp, t: real)
  {
    || a.lo.x > b.hi.x + t || a.lo.y > b.hi.y + t || a.lo.z > b.hi.z + t
    || b.lo.x > a.hi.x + t || b.lo.y > a.hi.y + t || b.lo.z > a.hi.z + t
  }

  /** `V3RPP_DISJOINT`. */
  predicate Disjoint(a: Rpp, b: Rpp)
  {
    || a.lo.x > b.hi.x || a.lo.y > b.hi.y || a.lo.z > b.hi.z
    || b.lo.x > a.hi.x || b.lo.y > a.hi.y || b.lo.z > a.hi.z
  }

  /** `V3RPP_OVERLAP`. */
  predicate Overlap(a: Rpp, b: Rpp)
  {
    !(a.lo.x > b.hi.x || a.lo.y > b.hi.y || a.lo.z > b.hi.z ||
      b.lo.x > a.hi.x || b.lo.y > a.hi.y || b.lo.z > a.hi.z)
  }

  /** `V3RPP_OVERLAP_TOL`. */
  predicate OverlapTol(a: Rpp, b: Rpp, t: real)
  {
    !(a.lo.x > b.hi.x + t || a.lo.y > b.hi.y + t || a.lo.z > b.hi.z + t ||
      b.lo.x > a.hi.x + t || b.lo.y > a.hi.y + t || b.lo.z > a.hi.z + t)
  }

  /** `V3RPP1_IN_RPP2`. */
  predicate Within(a: Rpp, b: Rpp)
  {
    && a.lo.x >= b.lo.x && a.hi.x <= b.hi.x
    && a.lo.y >= b.lo.y && a.hi.y <= b.hi.y
    && a.lo.z >= b.lo.z && a.hi.z <= b.hi.z
  }

  /** Two points no further than `t` apart along any axis. */
  predicate Touching(p: Vec3, q: Vec3, t: real)
  {
    -t <= p.x - q.x <= t && -t <= p.y - q.y <= t && -t <= p.z - q.z <= t
  }

  function Max(a: real, b: real): real
  {
    if a < b then b else a
  }

  function Min(a: real, b: real): real
  {
    if a > b then b else a
  }

  /** The point of a well-formed box that is nearest to `p`. */
  function Clamp(p: Vec3, b: Rpp): Vec3
  {
    Vec3(Min(Max(p.x, b.lo.x), b.hi.x), Min(Max(p.y, b.lo.y), b.hi.y), Min(Max(p.z, b.lo.z), b.hi.z))
  }

  /** For all boxes and tolerances: two boxes hold points that close exactly when
      both are well formed, the tolerance is not negative and the test says that
      they overlap. So for well-formed boxes a disjoint verdict never drops a
      contact. */
  lemma TouchingIff(a: Rpp, b: Rpp, t: real)
    ensures (exists p, q :: PointIn(p, a) && PointIn(q, b) && Touching(p, q, t))
      <==> WellFormed(a) && WellFormed(b) && 0.0 <= t && OverlapTol(a, b, t)
    ensures OverlapTol(a, b, t) <==> !DisjointTol(a, b, t)
  {
    if WellFormed(a) && WellFormed(b) && 0.0 <= t && OverlapTol(a, b, t) {
      var p := Clamp(b.lo, a);
      var q := Clamp(p, b);
      assert PointIn(p, a) && PointIn(q, b) && Touching(p, q, t);
    }
  }

  /** For all boxes: two share a point exactly when both are well formed and the
      test says that they overlap. */
  lemma CommonPointIff(a: Rpp, b: Rpp)
    ensures (exists p :: PointIn(p, a) && PointIn(p, b)) <==> WellFormed(a) && WellFormed(b) && Overlap(a, b)
    ensures Overlap(a, b) <==> !Disjoint(a, b)
  {
    if WellFormed(a) && WellFormed(b) && Overlap(a, b) {
      var p := Clamp(b.lo, a);
      assert PointIn(p, a) && PointIn(p, b);
    }
  }

  /** So the test means a common point exactly unless it says overlap of a box that
      is not well formed, as it does for these two. */
  lemma OverlapIsRightIff(a: Rpp, b: Rpp)
    ensures (Overlap(a, b) <==> exists p :: PointIn(p, a) && PointIn(p, b))
      <==> !Overlap(a, b) || (WellFormed(a) && WellFormed(b))
    ensures var empty := Rpp(Vec3(1.0, 0.0, 0.0), Vec3(0.0, 0.0, 0.0));
      var box := Rpp(Vec3(0.0, 0.0, 0.0), Vec3(1.0, 0.0, 0.0));
      Overlap(empty, box) && !WellFormed(empty)
  {
    CommonPointIff(a, b);
  }

  /** For all boxes: every point of one is in the other exactly when it is inside
      by the test, or has no points. */
  lemma WithinIffPoints(a: Rpp, b: Rpp)
    ensures (forall p :: PointIn(p, a) ==> PointIn(p, b)) <==> Within(a, b) || !WellFormed(a)
  {
    if WellFormed(a) {
      assert PointIn(a.lo, a) && PointIn(a.hi, a);
    }
  }

  /** For all boxes and tolerances: some point of the box is within the tolerance
      of `p` exactly when the box is well formed, the tolerance is not negative and
      `p` is inside by it; the two tests are opposites. */
  lemma NearIff(p: Vec3, b: Rpp, t: real)
    ensures PointOutTol(p, b, t) <==> !PointInTol(p, b, t)
    ensures (exists q :: PointIn(q, b) && Touching(p, q, t)) <==> WellFormed(b) && 0.0 <= t && PointInTol(p, b, t)
  {
    if WellFormed(b) && 0.0 <= t && PointInTol(p, b, t) {
      var q := Clamp(p, b);
      assert PointIn(q, b) && Touching(p, q, t);
    }
  }

  // --- growing a box

  function MinOf(r: Vec3, s: Vec3): Vec3
  {
    Vec3(Min(r.x, s.x), Min(r.y, s.y), Min(r.z, s.z))
  }

  function MaxOf(r: Vec3, s: Vec3): Vec3
  {
    Vec3(Max(r.x, s.x), Max(r.y, s.y), Max(r.z, s.z))
  }

  /** A box grown by `VMINMAX` with each point in turn. */
  function Grown(b: Rpp, ps: seq<Vec3>): Rpp
  {
    if ps == [] then b
    else
      var g := Grown(b, ps[..|ps| - 1]);
      Rpp(MinOf(g.lo, ps[|ps| - 1]), MaxOf(g.hi, ps[|ps| - 1]))
  }

  /** The grown box is the least one that has every point and the box it grew
      from, well formed or not. */
  lemma {:induction false} GrownIsLeast(b: Rpp, ps: seq<Vec3>, c: Rpp)
    ensures Within(Grown(b, ps), c) <==> Within(b, c) && forall i :: 0 <= i < |ps| ==> PointIn(ps[i], c)
  {
    if ps != [] {
      GrownIsLeast(b, ps[..|ps| - 1], c);
      assert forall i :: 0 <= i < |ps| - 1 ==> ps[..|ps| - 1][i] == ps[i];
    }
  }

  /** The order of the points, and how often each comes, do not matter. */
  lemma GrownAnyOrder(b: Rpp, ps: seq<Vec3>, qs: seq<Vec3>)
    requires forall p :: p in ps <==> p in qs
    ensures Grown(b, ps) == Grown(b, qs)
  {
    GrownIsLeast(b, ps, Grown(b, qs));
    GrownIsLeast(b, qs, Grown(b, qs));
    GrownIsLeast(b, qs, Grown(b, ps));
    GrownIsLeast(b, ps, Grown(b, ps));
    forall i | 0 <= i < |ps|
      ensures PointIn(ps[i], Grown(b, qs))
    {
      assert ps[i] in qs;
    }
    forall i | 0 <= i < |qs|
      ensures PointIn(qs[i], Grown(b, ps))
    {
      assert qs[i] in ps;
    }
  }

  /** Started at a point, as a box that holds nothing else, it is well formed and
      is the least box of the points. */
  lemma BoundingBox(p: Vec3, ps: seq<Vec3>, c: Rpp)
    ensures WellFormed(Grown(Rpp(p, p), ps))
    ensures Within(Grown(Rpp(p, p), ps), c) <==> forall q :: q in [p] + ps ==> PointIn(q, c)
  {
    GrownIsLeast(Rpp(p, p), ps, c);
    GrownIsLeast(Rpp(p, p), ps, Grown(Rpp(p, p), ps));
    assert p in [p] + ps;
  }

  /** `VMINMAX` on the arrays that hold the corners, each lane in turn. The point
      may be one of the corners. */
  method VMinMax(min: array<real>, max: array<real>, pt: array<real>)
    requires min.Length == max.Length == pt.Length == 3
    requires min != max
    modifies min, max
    ensures var was := old(Rpp(Vec3(min[0], min[1], min[2]), Vec3(max[0], max[1], max[2])));
      var b := Grown(was, [old(Vec3(pt[0], pt[1], pt[2]))]);
      Vec3(min[0], min[1], min[2]) == b.lo && Vec3(max[0], max[1], max[2]) == b.hi
  {
    if min[0] > pt[0] { min[0] := pt[0]; }
    if min[1] > pt[1] { min[1] := pt[1]; }
    if min[2] > pt[2] { min[2] := pt[2]; }
    if max[0] < pt[0] { max[0] := pt[0]; }
    if max[1] < pt[1] { max[1] := pt[1]; }
    if max[2] < pt[2] { max[2] := pt[2]; }
  }
}
