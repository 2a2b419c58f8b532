/** The 2x2 matrices that bn/dvec.h builds on `dvec`. */
module Mat2d {
  import opened VMath
  import opened Dvec
  import opened DvecPrograms

  /** `mat2d_t`, row by row. */
  datatype M2 = M2(a: real, b: real, c: real, d: real)

  /** `pt2d_t`. */
  datatype P2 = P2(x: real, y: real)

  function Det(m: M2): real
  {
    SubOp(MulOp(m.a, m.d), MulOp(m.b, m.c))
  }

  function Times(m: M2, p: P2): P2
  {
    P2(AddOp(MulOp(m.a, p.x), MulOp(m.b, p.y)), AddOp(MulOp(m.c, p.x), MulOp(m.d, p.y)))
  }

  /** The adjugate over the determinant. */
  function Inverse(m: M2): M2
    requires Det(m) != 0.0
  {
    var s := 1.0 / Det(m);
    M2(MulOp(m.d, s), MulOp(-m.b, s), MulOp(-m.c, s), MulOp(m.a, s))
  }

  /** `i` is `m` inverted with the scale `s`, and `q` is `m` times `p`. */
  predicate Parts(i: M2, m: M2, s: real, t: M2, p: P2, q: P2)
  {
    && i.a == m.d * s && i.b == -m.b * s && i.c == -m.c * s && i.d == m.a * s
    && q.x == t.a * p.x + t.b * p.y && q.y == t.c * p.x + t.d * p.y
  }

  lemma LeftParts(m: M2, i: M2, s: real, det: real, p: P2, q: P2, r: P2)
    requires det == m.a * m.d - m.b * m.c && det * s == 1.0
    requires Parts(i, m, s, m, p, q) && Parts(i, m, s, i, q, r)
    ensures r == p
  {
  }

  lemma RightParts(m: M2, i: M2, s: real, det: real, p: P2, q: P2, r: P2)
    requires det == m.a * m.d - m.b * m.c && det * s == 1.0
    requires Parts(i, m, s, i, p, q) && Parts(i, m, s, m, q, r)
    ensures r == p
  {
  }

  lemma HasParts(m: M2, t: M2, p: P2)
    requires Det(m) != 0.0
    ensures Parts(Inverse(m), m, 1.0 / Det(m), t, p, Times(t, p))
    ensures Det(m) == m.a * m.d - m.b * m.c && Det(m) * (1.0 / Det(m)) == 1.0
  {
  }

  /** The inverse undoes the matrix, and the matrix undoes the inverse. */
  lemma InverseUndoes(m: M2, p: P2)
    requires Det(m) != 0.0
    ensures Times(Inverse(m), Times(m, p)) == p
    ensures Times(m, Times(Inverse(m), p)) == p
  {
    hide Det, Inverse, Times, Parts;
    var i, s, det := Inverse(m), 1.0 / Det(m), Det(m);
    var q, r := Times(m, p), Times(i, p);
    HasParts(m, m, p);
    HasParts(m, i, q);
    HasParts(m, i, p);
    HasParts(m, m, r);
    LeftParts(m, i, s, det, p, q, Times(i, q));
    RightParts(m, i, s, det, p, r, Times(m, r));
  }

  /** A singular matrix has no inverse at all, so `mat2d_inverse` is right to fail:
      it sends a point that is not the origin to the origin. */
  lemma SingularLosesPoints(m: M2)
    requires Det(m) == 0.0
    ensures exists p :: p != P2(0.0, 0.0) && Times(m, p) == P2(0.0, 0.0)
  {
    var p :=
      if m.a != 0.0 || m.b != 0.0 then P2(-m.b, m.a)
      else if m.c != 0.0 || m.d != 0.0 then P2(-m.d, m.c)
      else P2(1.0, 0.0);
    assert Times(m, p) == P2(0.0, 0.0);
  }

  function MatIn(m: array<real>): M2
    requires m.Length == 4
    reads m
  {
    M2(m[0], m[1], m[2], m[3])
  }

  function PtIn(p: array<real>): P2
    requires p.Length == 2
    reads p
  {
    P2(p[0], p[1])
  }

  lemma FoldOfTwo(s: seq<real>)
    requires |s| == 2
    ensures Foldr(s[..2], 0.0, SubOp) == SubOp(s[0], s[1])
  {
    assert s[..2] == [s[0], s[1]];
    FoldsOfSub(s[0], s[1]);
  }

  lemma Lanes2(op: Op, a: real, b: real, c: real, d: real)
    ensures Lanes(op, [a, b], [c, d]) == [op(a, c), op(b, d)]
  {
  }

  lemma Lanes4(a: real, b: real, c: real, d: real, s: real)
    ensures Lanes(MulOp, [a, b, c, d], Same(s, 4)) == [MulOp(a, s), MulOp(b, s), MulOp(c, s), MulOp(d, s)]
  {
  }

  lemma DetIs(m: M2)
    ensures Det(m) == m.a * m.d - m.b * m.c
  {
  }

  lemma TimesIs(m: M2, p: P2)
    ensures Times(m, p) == P2(m.a * p.x + m.b * p.y, m.c * p.x + m.d * p.y)
  {
  }

  lemma UndoesAll(m: M2)
    requires Det(m) != 0.0
    ensures forall p :: Times(m, Times(Inverse(m), p)) == p && Times(Inverse(m), Times(m, p)) == p
  {
    hide Det, Inverse, Times;
    forall p
      ensures Times(m, Times(Inverse(m), p)) == p && Times(Inverse(m), Times(m, p)) == p
    {
      InverseUndoes(m, p);
    }
  }

  /** The first half of `mat2d_inverse`: the determinant, by `foldr` with `sub`. */
  method Determinant(be: BackEnd, m: array<real>) returns (det: real)
    requires m.Length == 4
    ensures det == Det(MatIn(m)) == m[0] * m[3] - m[1] * m[2]
  {
    hide MulOp, Lanes;
    DetIs(MatIn(m));
    var a, b := [m[0], m[1]], [m[3], m[2]];
    var c := Binary(MulOp, Load(a), Load(b));
    Lanes2(MulOp, m[0], m[1], m[3], m[2]);
    assert a[..2] == a && b[..2] == b;
    assert Eval(c, 2, 2) == [MulOp(m[0], m[3]), MulOp(m[1], m[2])];
    FoldOfTwo(Eval(c, 2, 2));
    det := FoldOf(be, c, 2, 0.0, SubOp, 2);
  }

  /** The second half: the scaled adjugate, stored last. */
  method StoreAdjugate(be: BackEnd, inv: array<real>, m: array<real>, scale: real)
    requires inv.Length == m.Length == 4
    modifies inv
    ensures MatIn(inv) == old(M2(MulOp(m[3], scale), MulOp(-m[1], scale), MulOp(-m[2], scale), MulOp(m[0], scale)))
  {
    hide MulOp, Lanes, Same;
    var tmp := [m[3], -m[1], -m[2], m[0]];
    var r := Binary(MulOp, Load(tmp), Splat(scale));
    Lanes4(m[3], -m[1], -m[2], m[0], scale);
    assert tmp[..4] == tmp;
    assert Eval(r, 4, 4) == Lanes(MulOp, tmp, Same(scale, 4));
    StoreOf(be, r, inv);
    assert inv[0] == inv[..][0] && inv[1] == inv[..][1] && inv[2] == inv[..][2] && inv[3] == inv[..][3];
  }

  /** `mat2d_inverse`, with `dvec` on either back end: false, and nothing stored,
      exactly when the determinant is within the tolerance of zero. `inv` and `m` may
      be the same array. */
  method Mat2dInverse(be: BackEnd, inv: array<real>, m: array<real>, tol: Tolerance) returns (ok: bool)
    requires inv.Length == m.Length == 4
    modifies inv
    ensures ok <==> !NearZero(old(m[0] * m[3] - m[1] * m[2]), tol)
    ensures ok ==> MatIn(inv) == old(Inverse(MatIn(m)))
    ensures ok ==> forall p ::
      Times(old(MatIn(m)), Times(MatIn(inv), p)) == p == Times(MatIn(inv), Times(old(MatIn(m)), p))
    ensures !ok ==> inv[..] == old(inv[..])
  {
    hide MulOp, Det, Times;
    DetIs(MatIn(m));
    var det := Determinant(be, m);
    if NearZero(det, tol) {
      return false;
    }
    UndoesAll(MatIn(m));
    StoreAdjugate(be, inv, m, 1.0 / det);
    ok := true;
  }

  /** `mat2d_pt2d_mul`, with `dvec` on either back end. `r` and `p` may be the same
      array. */
  method Mat2dPt2dMul(be: BackEnd, r: array<real>, m: array<real>, p: array<real>)
    requires r.Length == p.Length == 2 && m.Length == 4
    modifies r
    ensures PtIn(r) == old(Times(MatIn(m), PtIn(p)))
    ensures r[0] == old(m[0] * p[0] + m[1] * p[1]) && r[1] == old(m[2] * p[0] + m[3] * p[1])
  {
    hide MulOp, AddOp, Lanes, Same;
    TimesIs(MatIn(m), PtIn(p));
    var a, b := [m[0], m[2]], [m[1], m[3]];
    var aTimesX := Binary(MulOp, Load(a), Splat(p[0]));
    var bTimesY := Binary(MulOp, Load(b), Splat(p[1]));
    assert a[..2] == a && b[..2] == b;
    Same2(p[0]);
    Same2(p[1]);
    Lanes2(MulOp, m[0], m[2], p[0], p[0]);
    Lanes2(MulOp, m[1], m[3], p[1], p[1]);
    Lanes2(AddOp, MulOp(m[0], p[0]), MulOp(m[2], p[0]), MulOp(m[1], p[1]), MulOp(m[3], p[1]));
    assert Eval(aTimesX, 2, 2) == [MulOp(m[0], p[0]), MulOp(m[2], p[0])];
    assert Eval(bTimesY, 2, 2) == [MulOp(m[1], p[1]), MulOp(m[3], p[1])];
    StoreOf(be, Binary(AddOp, aTimesX, bTimesY), r);
    assert r[0] == r[..][0] && r[1] == r[..][1];
  }

  lemma Same2(s: real)
    ensures Same(s, 2) == [s, s]
  {
  }
}
