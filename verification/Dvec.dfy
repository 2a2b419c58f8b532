/** The vector class `dvec<LEN>` of bn/dvec.h and its two implementations. */
module Dvec {

  type Op = (real, real) -> real
  type UnOp = real -> real

  // --- what both implementations compute, on the sequence of lanes

  function Lanes(op: Op, a: seq<real>, b: seq<real>): (r: seq<real>)
    requires |a| == |b|
    ensures |r| == |a|
  {
    seq(|a|, i requires 0 <= i < |a| => op(a[i], b[i]))
  }

  function Madd1(a: real, s: real, b: real): real
  {
    a * s + b
  }

  function MaddLanes(a: seq<real>, s: seq<real>, b: seq<real>): (r: seq<real>)
    requires |a| == |b| == |s|
    ensures |r| == |a|
  {
    seq(|a|, i requires 0 <= i < |a| => Madd1(a[i], s[i], b[i]))
  }

  function Same(s: real, len: nat): (r: seq<real>)
    ensures |r| == len
  {
    seq(len, _ => s)
  }

  /** Each lane is multiplied by its own lane, or by the scalar, and added to. */
  lemma MaddAt(a: seq<real>, s: seq<real>, b: seq<real>)
    requires |a| == |b| == |s|
    ensures forall i :: 0 <= i < |a| ==> MaddLanes(a, s, b)[i] == a[i] * s[i] + b[i]
  {
  }

  lemma MaddSame(a: seq<real>, s: real, b: seq<real>)
    requires |a| == |b|
    ensures forall i :: 0 <= i < |a| ==> MaddLanes(a, Same(s, |a|), b)[i] == a[i] * s + b[i]
  {
    MaddAt(a, Same(s, |a|), b);
  }

  function Foldr(a: seq<real>, e: real, op: Op): real
  {
    if a == [] then e else op(a[0], Foldr(a[1..], e, op))
  }

  function Foldl(a: seq<real>, e: real, op: Op): real
  {
    if a == [] then e else op(Foldl(a[..|a| - 1], e, op), a[|a| - 1])
  }

  /** An associative operation with `e` as its unit. */
  ghost predicate Monoid(e: real, op: Op)
  {
    && (forall x, y, z :: op(op(x, y), z) == op(x, op(y, z)))
    && (forall x :: op(e, x) == x == op(x, e))
  }

  lemma MonoidAt(e: real, op: Op, x: real, y: real, z: real)
    requires Monoid(e, op)
    ensures op(op(x, y), z) == op(x, op(y, z)) && op(e, x) == x == op(x, e)
  {
  }

  /** The two folds agree where the order of operations cannot matter. */
  lemma {:induction false} FoldsAgree(a: seq<real>, e: real, op: Op)
    requires Monoid(e, op)
    ensures Foldl(a, e, op) == Foldr(a, e, op)
  {
    hide Monoid;
    if a != [] {
      var n := |a| - 1;
      FoldsAgree(a[..n], e, op);
      FoldrLast(a[..n], a[n], e, op);
      assert a == a[..n] + [a[n]];
    }
  }

  lemma {:induction false} FoldrLast(a: seq<real>, x: real, e: real, op: Op)
    requires Monoid(e, op)
    ensures Foldr(a + [x], e, op) == op(Foldr(a, e, op), x)
  {
    hide Monoid;
    if a == [] {
      assert (a + [x])[1..] == [];
      MonoidAt(e, op, x, x, x);
    } else {
      FoldrLast(a[1..], x, e, op);
      assert (a + [x])[1..] == a[1..] + [x];
      MonoidAt(e, op, a[0], Foldr(a[1..], e, op), x);
    }
  }

  /** The operations `dvec::mul`, `dvec::add` and `dvec::sub`. */
  function MulOp(a: real, b: real): real
  {
    a * b
  }

  function AddOp(a: real, b: real): real
  {
    a + b
  }

  function SubOp(a: real, b: real): real
  {
    a - b
  }

  /** Either fold can stop and go on: the right fold from the right, the left fold
      from the left. With the two ends this says what they are. */
  lemma FoldsSplit(a: seq<real>, b: seq<real>, x: real, e: real, op: Op)
    ensures Foldr([], e, op) == e == Foldl([], e, op)
    ensures Foldr([x], e, op) == op(x, e) && Foldl([x], e, op) == op(e, x)
    ensures Foldr(a + b, e, op) == Foldr(a, Foldr(b, e, op), op)
    ensures Foldl(a + b, e, op) == Foldl(b, Foldl(a, e, op), op)
  {
    assert Foldr([x][1..], e, op) == e == Foldl([x][..0], e, op);
    FoldrSplits(a, b, e, op);
    FoldlSplits(a, b, e, op);
  }

  lemma {:induction false} FoldrSplits(a: seq<real>, b: seq<real>, e: real, op: Op)
    ensures Foldr(a + b, e, op) == Foldr(a, Foldr(b, e, op), op)
  {
    if a == [] {
      assert a + b == b;
    } else {
      FoldrSplits(a[1..], b, e, op);
      assert (a + b)[1..] == a[1..] + b;
    }
  }

  lemma {:induction false} FoldlSplits(a: seq<real>, b: seq<real>, e: real, op: Op)
    ensures Foldl(a + b, e, op) == Foldl(b, Foldl(a, e, op), op)
  {
    if b == [] {
      assert a + b == a;
    } else {
      var n := |b| - 1;
      FoldlSplits(a, b[..n], e, op);
      assert (a + b)[..|a| + n] == a + b[..n];
    }
  }

  /** With subtraction they do not: the inverse of a 2x2 matrix needs `foldr`. */
  lemma FoldsOfSub(x: real, y: real)
    ensures Foldr([x, y], 0.0, SubOp) == x - y
    ensures Foldl([x, y], 0.0, SubOp) == -x - y
  {
    assert [x, y][1..] == [y] && [y][1..] == [] && [x, y][..1] == [x] && [x][..0] == [];
    assert Foldr([y], 0.0, SubOp) == y;
    assert Foldl([x], 0.0, SubOp) == -x;
  }

  // --- bn/vector_fpu.h

  class FpuVec {
    const v: array<real>

    function Value(): seq<real>
      reads v
    {
      v[..]
    }

    constructor FromArray(vals: array<real>)
      ensures Value() == vals[..] && fresh(v)
    {
      var r := new real[vals.Length];
      for i := 0 to vals.Length
        invariant r[..i] == vals[..i]
      {
        r[i] := vals[i];
      }
      v := r;
    }

    constructor FromScalar(s: real, len: nat)
      ensures Value() == Same(s, len) && fresh(v)
    {
      var r := new real[len];
      for i := 0 to len
        invariant r[..i] == Same(s, i)
      {
        r[i] := s;
      }
      v := r;
    }

    /** The copy of an internal array that every operator returns. */
    constructor Take(r: array<real>)
      ensures v == r
    {
      v := r;
    }

    /** `a_store`. */
    method Store(arr: array<real>)
      requires arr.Length == v.Length
      modifies arr
      ensures arr[..] == old(Value())
    {
      for i := 0 to v.Length
        invariant v[..] == old(v[..]) && arr[..i] == v[..i]
      {
        arr[i] := v[i];
      }
    }

    /** `operator==`. */
    method Equals(b: FpuVec, tol: real) returns (same: bool)
      requires b.v.Length == v.Length
      ensures same <==> forall i :: 0 <= i < |Value()| ==> -tol <= Value()[i] - b.Value()[i] <= tol
    {
      for i := 0 to v.Length
        invariant forall k :: 0 <= k < i ==> -tol <= v[k] - b.v[k] <= tol
      {
        if v[i] - b.v[i] > tol || v[i] - b.v[i] < -tol {
          assert !(-tol <= Value()[i] - b.Value()[i] <= tol);
          return false;
        }
      }
      same := true;
    }

    /** The operators `+`, `-`, `*` and `/`. */
    method Apply(op: Op, b: FpuVec) returns (r: FpuVec)
      requires b.v.Length == v.Length
      ensures fresh(r.v) && r.Value() == Lanes(op, Value(), b.Value())
      ensures forall i :: 0 <= i < |Value()| ==> r.Value()[i] == op(Value()[i], b.Value()[i])
    {
      var t := new real[v.Length];
      for i := 0 to v.Length
        invariant t[..i] == Lanes(op, Value(), b.Value())[..i]
      {
        t[i] := op(v[i], b.v[i]);
      }
      r := new FpuVec.Take(t);
    }

    method Madd(s: FpuVec, b: FpuVec) returns (r: FpuVec)
      requires s.v.Length == b.v.Length == v.Length
      ensures fresh(r.v) && r.Value() == MaddLanes(Value(), s.Value(), b.Value())
    {
      hide Madd1;
      var t := new real[v.Length];
      for i := 0 to v.Length
        invariant t[..i] == MaddLanes(Value(), s.Value(), b.Value())[..i]
      {
        t[i] := Madd1(v[i], s.v[i], b.v[i]);
      }
      r := new FpuVec.Take(t);
    }

    method MaddScalar(s: real, b: FpuVec) returns (r: FpuVec)
      requires b.v.Length == v.Length
      ensures fresh(r.v) && r.Value() == MaddLanes(Value(), Same(s, v.Length), b.Value())
    {
      hide Madd1;
      var t := new real[v.Length];
      for i := 0 to v.Length
        invariant t[..i] == MaddLanes(Value(), Same(s, v.Length), b.Value())[..i]
      {
        t[i] := Madd1(v[i], s, b.v[i]);
      }
      r := new FpuVec.Take(t);
    }

    method FoldR(e: real, op: Op, limit: nat) returns (val: real)
      requires limit <= v.Length
      ensures val == Foldr(Value()[..limit], e, op)
    {
      val := e;
      for i := limit downto 0
        invariant val == Foldr(Value()[i..limit], e, op)
      {
        val := op(v[i], val);
        assert Value()[i..limit][1..] == Value()[i + 1..limit];
      }
    }

    method FoldL(e: real, op: Op, limit: nat) returns (val: real)
      requires limit <= v.Length
      ensures val == Foldl(Value()[..limit], e, op)
    {
      val := e;
      for i := 0 to limit
        invariant val == Foldl(Value()[..i], e, op)
      {
        val := op(val, v[i]);
        assert Value()[..i + 1][..i] == Value()[..i];
      }
    }

    /** `map`: the lanes at and after `limit` of the result are never written. */
    method Map(op: UnOp, limit: nat) returns (r: FpuVec)
      requires limit <= v.Length
      ensures fresh(r.v) && r.v.Length == v.Length
      ensures forall i :: 0 <= i < limit ==> r.Value()[i] == op(Value()[i])
    {
      var t := new real[v.Length];
      for i := 0 to limit
        invariant forall k :: 0 <= k < i ==> t[k] == op(v[k])
      {
        t[i] := op(v[i]);
      }
      r := new FpuVec.Take(t);
    }
  }

  // --- bn/vector_x86.h

  /** A register that holds two lanes. */
  datatype Pair = Pair(lo: real, hi: real)

  /** The lanes of the registers, in order. */
  function Unpacked(p: seq<Pair>): (a: seq<real>)
    ensures |a| == 2 * |p|
  {
    seq(2 * |p|, i requires 0 <= i < 2 * |p| => if i % 2 == 0 then p[i / 2].lo else p[i / 2].hi)
  }

  /** The registers loaded from an array: an odd last element is dropped. */
  function Packed(a: seq<real>): (p: seq<Pair>)
    ensures |p| == |a| / 2
  {
    seq(|a| / 2, i requires 0 <= i < |a| / 2 => Pair(a[2 * i], a[2 * i + 1]))
  }

  /** Loading and storing loses nothing for an even length, and just the last lane
      for an odd one. */
  lemma PackedKeeps(a: seq<real>)
    ensures Unpacked(Packed(a)) == a[..2 * (|a| / 2)]
    ensures |a| % 2 == 0 ==> Unpacked(Packed(a)) == a
    ensures |a| % 2 == 1 ==> Unpacked(Packed(a)) == a[..|a| - 1]
  {
  }

  function ApplyPair(op: Op, a: Pair, b: Pair): Pair
  {
    Pair(op(a.lo, b.lo), op(a.hi, b.hi))
  }

  function MaddPair(a: Pair, s: Pair, b: Pair): Pair
  {
    Pair(Madd1(a.lo, s.lo, b.lo), Madd1(a.hi, s.hi, b.hi))
  }

  lemma ApplyPairs(op: Op, p: seq<Pair>, q: seq<Pair>, r: seq<Pair>)
    requires |p| == |q| == |r|
    requires forall i :: 0 <= i < |r| ==> r[i] == ApplyPair(op, p[i], q[i])
    ensures Unpacked(r) == Lanes(op, Unpacked(p), Unpacked(q))
  {
  }

  lemma MaddPairs(p: seq<Pair>, s: seq<Pair>, q: seq<Pair>, r: seq<Pair>)
    requires |p| == |s| == |q| == |r|
    requires forall i :: 0 <= i < |r| ==> r[i] == MaddPair(p[i], s[i], q[i])
    ensures Unpacked(r) == MaddLanes(Unpacked(p), Unpacked(s), Unpacked(q))
  {
  }

  /** For an even length the operators on registers give the same lanes as those on
      elements; for an odd one they give all but the last. */
  lemma BackEndsAgree(op: Op, a: seq<real>, b: seq<real>, s: seq<real>)
    requires |a| == |b| == |s|
    ensures var n := 2 * (|a| / 2);
      Lanes(op, Unpacked(Packed(a)), Unpacked(Packed(b))) == Lanes(op, a, b)[..n]
    ensures var n := 2 * (|a| / 2);
      MaddLanes(Unpacked(Packed(a)), Unpacked(Packed(s)), Unpacked(Packed(b))) == MaddLanes(a, s, b)[..n]
    ensures 2 * (|a| / 2) == if |a| % 2 == 0 then |a| else |a| - 1
  {
  }

  lemma MulThenAdd(a: Pair, s: Pair, b: Pair)
    ensures ApplyPair(AddOp, ApplyPair(MulOp, a, s), b) == MaddPair(a, s, b)
  {
  }

  class X86Vec {
    const v: array<Pair>

    function Value(): seq<real>
      reads v
    {
      Unpacked(v[..])
    }

    constructor FromArray(vals: array<real>)
      ensures v[..] == Packed(vals[..]) && fresh(v)
      ensures Value() == vals[..2 * (vals.Length / 2)]
    {
      hide Unpacked;
      var r := new Pair[vals.Length / 2];
      for i := 0 to vals.Length / 2
        invariant forall k :: 0 <= k < i ==> r[k] == Pair(vals[2 * k], vals[2 * k + 1])
      {
        r[i] := Pair(vals[i * 2], vals[i * 2 + 1]);
      }
      v := r;
      new;
      PackedKeeps(vals[..]);
      assert v[..] == Packed(vals[..]);
    }

    constructor FromScalar(s: real, len: nat)
      ensures Value() == Same(s, 2 * (len / 2)) && fresh(v)
    {
      var t := new real[len];
      var r := new Pair[len / 2];
      for i := 0 to len / 2
        invariant forall k :: 0 <= k < i ==> r[k] == Pair(s, s)
      {
        t[i * 2] := s;
        t[i * 2 + 1] := s;
        r[i] := Pair(t[i * 2], t[i * 2 + 1]);
      }
      v := r;
    }

    /** The copy of an internal array that every operator returns. */
    constructor Take(r: array<Pair>)
      ensures v == r
    {
      v := r;
    }

    /** `a_store`. */
    method Store(arr: array<real>)
      requires arr.Length == 2 * v.Length
      modifies arr
      ensures arr[..] == Value()
    {
      for i := 0 to v.Length
        invariant forall k :: 0 <= k < i ==> arr[2 * k] == v[k].lo && arr[2 * k + 1] == v[k].hi
      {
        arr[i * 2] := v[i].lo;
        arr[i * 2 + 1] := v[i].hi;
      }
      forall k | 0 <= k < arr.Length
        ensures arr[k] == Value()[k]
      {
        assert k == 2 * (k / 2) + k % 2;
      }
    }

    /** `operator[]`. */
    method Get(index: nat) returns (x: real)
      requires index < 2 * v.Length
      ensures x == Value()[index]
    {
      var t := v[index / 2];
      x := if index % 2 == 0 then t.lo else t.hi;
    }

    /** `operator==`. */
    method Equals(b: X86Vec, tol: real) returns (same: bool)
      requires b.v.Length == v.Length
      ensures same <==> forall i :: 0 <= i < |Value()| ==> -tol <= Value()[i] - b.Value()[i] <= tol
    {
      var ta := new real[2 * v.Length];
      var tb := new real[2 * v.Length];
      Store(ta);
      b.Store(tb);
      assert ta[..] == Value() && tb[..] == b.Value();
      for i := 0 to ta.Length
        invariant forall k :: 0 <= k < i ==> -tol <= ta[k] - tb[k] <= tol
      {
        if ta[i] - tb[i] > tol || ta[i] - tb[i] < -tol {
          assert !(-tol <= ta[..][i] - tb[..][i] <= tol);
          return false;
        }
      }
      same := true;
    }

    /** The operators `+`, `-`, `*` and `/`, two lanes at a time. */
    method Apply(op: Op, b: X86Vec) returns (r: X86Vec)
      requires b.v.Length == v.Length
      ensures fresh(r.v) && r.Value() == Lanes(op, Value(), b.Value())
      ensures forall i :: 0 <= i < |Value()| ==> r.Value()[i] == op(Value()[i], b.Value()[i])
    {
      var t := new Pair[v.Length];
      for i := 0 to v.Length
        invariant forall k :: 0 <= k < i ==> t[k] == ApplyPair(op, v[k], b.v[k])
      {
        t[i] := ApplyPair(op, v[i], b.v[i]);
      }
      ApplyPairs(op, v[..], b.v[..], t[..]);
      r := new X86Vec.Take(t);
    }

    /** `madd`: all the products, then all the sums. */
    method Madd(s: X86Vec, b: X86Vec) returns (r: X86Vec)
      requires s.v.Length == b.v.Length == v.Length
      ensures fresh(r.v) && r.Value() == MaddLanes(Value(), s.Value(), b.Value())
    {
      hide ApplyPair, MaddPair, Unpacked;
      var t := new Pair[v.Length];
      for i := 0 to v.Length
        invariant forall k :: 0 <= k < i ==> t[k] == ApplyPair(MulOp, v[k], s.v[k])
      {
        t[i] := ApplyPair(MulOp, v[i], s.v[i]);
      }
      for i := 0 to v.Length
        invariant forall k :: 0 <= k < i ==> t[k] == MaddPair(v[k], s.v[k], b.v[k])
        invariant forall k :: i <= k < v.Length ==> t[k] == ApplyPair(MulOp, v[k], s.v[k])
      {
        MulThenAdd(v[i], s.v[i], b.v[i]);
        t[i] := ApplyPair(AddOp, t[i], b.v[i]);
      }
      MaddPairs(v[..], s.v[..], b.v[..], t[..]);
      r := new X86Vec.Take(t);
    }

    method MaddScalar(s: real, b: X86Vec) returns (r: X86Vec)
      requires b.v.Length == v.Length
      ensures fresh(r.v) && r.Value() == MaddLanes(Value(), Same(s, 2 * v.Length), b.Value())
    {
      var a := new real[2 * v.Length];
      for i := 0 to a.Length
        invariant forall k :: 0 <= k < i ==> a[k] == s
      {
        a[i] := s;
      }
      assert a[..] == Same(s, 2 * v.Length);
      var t := new X86Vec.FromArray(a);
      r := Madd(t, b);
    }

    method FoldR(e: real, op: Op, limit: nat) returns (val: real)
      requires limit <= 2 * v.Length
      ensures val == Foldr(Value()[..limit], e, op)
    {
      var t := new real[2 * v.Length];
      Store(t);
      val := e;
      for i := limit downto 0
        invariant val == Foldr(t[i..limit], e, op)
      {
        val := op(t[i], val);
        assert t[i..limit][1..] == t[i + 1..limit];
      }
      assert t[..][..limit] == t[0..limit];
    }

    method FoldL(e: real, op: Op, limit: nat) returns (val: real)
      requires limit <= 2 * v.Length
      ensures val == Foldl(Value()[..limit], e, op)
    {
      var t := new real[2 * v.Length];
      Store(t);
      val := e;
      for i := 0 to limit
        invariant val == Foldl(t[..i], e, op)
      {
        val := op(val, t[i]);
        assert t[..i + 1][..i] == t[..i];
      }
      assert t[..][..limit] == t[..limit];
    }

    /** `map`: here the lanes at and after `limit` keep their values. */
    method Map(op: UnOp, limit: nat) returns (r: X86Vec)
      requires limit <= 2 * v.Length
      ensures fresh(r.v) && |r.Value()| == |Value()|
      ensures forall i :: 0 <= i < limit ==> r.Value()[i] == op(Value()[i])
      ensures forall i :: limit <= i < |Value()| ==> r.Value()[i] == Value()[i]
    {
      hide Unpacked;
      var t := new real[2 * v.Length];
      Store(t);
      ghost var was := t[..];
      for i := 0 to limit
        invariant forall k :: 0 <= k < i ==> t[k] == op(was[k])
        invariant forall k :: i <= k < t.Length ==> t[k] == was[k]
      {
        t[i] := op(t[i]);
      }
      r := new X86Vec.FromArray(t);
      assert r.Value() == t[..];
    }
  }
}
