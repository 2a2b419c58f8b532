/** Whole computations with `dvec`, on either of its back ends. */
module DvecPrograms {
  import opened Dvec

  /** An expression over vectors of one length: loads, and the operations of the
      class on their results. */
  datatype Expr =
    | Load(vals: seq<real>)
    | Splat(s: real)
    | Binary(op: Op, l: Expr, r: Expr)
    | MaddOf(l: Expr, m: Expr, r: Expr)
    | MaddBy(l: Expr, s: real, r: Expr)
    | MapOf(f: UnOp, l: Expr)

  /** Every load reads `len` numbers, as the template parameter says. */
  predicate Sized(e: Expr, len: nat)
  {
    match e
    case Load(vals) => |vals| == len
    case Splat(_) => true
    case Binary(_, l, r) => Sized(l, len) && Sized(r, len)
    case MaddOf(l, m, r) => Sized(l, len) && Sized(m, len) && Sized(r, len)
    case MaddBy(l, _, r) => Sized(l, len) && Sized(r, len)
    case MapOf(_, l) => Sized(l, len)
  }

  function Mapped(f: UnOp, a: seq<real>): (r: seq<real>)
    ensures |r| == |a|
  {
    seq(|a|, i requires 0 <= i < |a| => f(a[i]))
  }

  /** The value, lane by lane, when the first `n` lanes are kept of each load. */
  function Eval(e: Expr, n: nat, len: nat): (a: seq<real>)
    requires Sized(e, len) && n <= len
    ensures |a| == n
  {
    match e
    case Load(vals) => vals[..n]
    case Splat(s) => Same(s, n)
    case Binary(op, l, r) => Lanes(op, Eval(l, n, len), Eval(r, n, len))
    case MaddOf(l, m, r) => MaddLanes(Eval(l, n, len), Eval(m, n, len), Eval(r, n, len))
    case MaddBy(l, s, r) => MaddLanes(Eval(l, n, len), Same(s, n), Eval(r, n, len))
    case MapOf(f, l) => Mapped(f, Eval(l, n, len))
  }

  /** Lane `i` of an expression, from lane `i` of its parts. */
  lemma LaneOf(e: Expr, n: nat, len: nat, i: nat)
    requires Sized(e, len) && i < n <= len
    ensures Eval(e, n, len)[i] ==
      match e
      case Load(vals) => vals[i]
      case Splat(s) => s
      case Binary(op, l, r) => op(Eval(l, n, len)[i], Eval(r, n, len)[i])
      case MaddOf(l, m, r) => Eval(l, n, len)[i] * Eval(m, n, len)[i] + Eval(r, n, len)[i]
      case MaddBy(l, s, r) => Eval(l, n, len)[i] * s + Eval(r, n, len)[i]
      case MapOf(f, l) => f(Eval(l, n, len)[i])
  {
  }

  /** The lanes that the x86 back end has. */
  function Paired(len: nat): nat
  {
    2 * (len / 2)
  }

  /** No lane depends on another, so dropping a lane of every load drops it from
      the result. */
  lemma {:induction false} LanesAreApart(e: Expr, n: nat, len: nat)
    requires Sized(e, len) && n <= len
    ensures Eval(e, n, len) == Eval(e, len, len)[..n]
  {
    hide Madd1;
    match e
    case Load(_) =>
    case Splat(_) =>
    case Binary(_, l, r) =>
      LanesAreApart(l, n, len);
      LanesAreApart(r, n, len);
    case MaddOf(l, m, r) =>
      LanesAreApart(l, n, len);
      LanesAreApart(m, n, len);
      LanesAreApart(r, n, len);
    case MaddBy(l, _, r) =>
      LanesAreApart(l, n, len);
      LanesAreApart(r, n, len);
    case MapOf(_, l) =>
      LanesAreApart(l, n, len);
  }

  method LoadFpu(vals: seq<real>) returns (v: FpuVec)
    ensures fresh(v.v) && v.Value() == vals
  {
    var a := new real[|vals|](i requires 0 <= i < |vals| => vals[i]);
    v := new FpuVec.FromArray(a);
  }

  method SplatFpu(s: real, len: nat) returns (v: FpuVec)
    ensures fresh(v.v) && v.Value() == Same(s, len)
  {
    v := new FpuVec.FromScalar(s, len);
  }

  method LoadX86(vals: seq<real>) returns (v: X86Vec)
    ensures fresh(v.v) && v.v.Length == |vals| / 2 && v.Value() == vals[..Paired(|vals|)]
  {
    var a := new real[|vals|](i requires 0 <= i < |vals| => vals[i]);
    v := new X86Vec.FromArray(a);
    assert a[..] == vals;
  }

  method SplatX86(s: real, len: nat) returns (v: X86Vec)
    ensures fresh(v.v) && v.v.Length == len / 2 && v.Value() == Same(s, Paired(len))
  {
    v := new X86Vec.FromScalar(s, len);
  }

  /** The computation on the element-wise back end. */
  method RunFpu(e: Expr, len: nat) returns (v: FpuVec)
    requires Sized(e, len)
    ensures fresh(v.v) && v.Value() == Eval(e, len, len)
    decreases e
  {
    match e
    case Load(vals) =>
      v := LoadFpu(vals);
    case Splat(s) =>
      v := SplatFpu(s, len);
    case Binary(op, l, r) =>
      var x := RunFpu(l, len);
      var y := RunFpu(r, len);
      v := x.Apply(op, y);
    case MaddOf(l, m, r) =>
      var x := RunFpu(l, len);
      var y := RunFpu(m, len);
      var z := RunFpu(r, len);
      v := x.Madd(y, z);
    case MaddBy(l, s, r) =>
      var x := RunFpu(l, len);
      var z := RunFpu(r, len);
      v := x.MaddScalar(s, z);
    case MapOf(f, l) =>
      var x := RunFpu(l, len);
      v := x.Map(f, len);
      assert v.Value() == Mapped(f, x.Value());
  }

  /** The same computation on the lane-paired back end gives the same lanes, but
      for the last one of an odd length. */
  method RunX86(e: Expr, len: nat) returns (v: X86Vec)
    requires Sized(e, len)
    ensures fresh(v.v) && v.Value() == Eval(e, len, len)[..Paired(len)]
    ensures len % 2 == 0 ==> v.Value() == Eval(e, len, len)
  {
    v := PairedRun(e, len);
    LanesAreApart(e, Paired(len), len);
  }

  method PairedRun(e: Expr, len: nat) returns (v: X86Vec)
    requires Sized(e, len)
    ensures fresh(v.v) && v.v.Length == len / 2 && v.Value() == Eval(e, Paired(len), len)
    decreases e
  {
    hide Unpacked;
    match e
    case Load(vals) =>
      v := LoadX86(vals);
    case Splat(s) =>
      v := SplatX86(s, len);
    case Binary(op, l, r) =>
      var x := PairedRun(l, len);
      var y := PairedRun(r, len);
      v := x.Apply(op, y);
    case MaddOf(l, m, r) =>
      var x := PairedRun(l, len);
      var y := PairedRun(m, len);
      var z := PairedRun(r, len);
      v := x.Madd(y, z);
    case MaddBy(l, s, r) =>
      var x := PairedRun(l, len);
      var z := PairedRun(r, len);
      v := x.MaddScalar(s, z);
    case MapOf(f, l) =>
      var x := PairedRun(l, len);
      v := x.Map(f, Paired(len));
      assert v.Value() == Mapped(f, x.Value());
  }

  /** Which header the class is compiled with. */
  datatype BackEnd = Fpu | X86

  /** The fold of an expression, on either back end. */
  method FoldOf(be: BackEnd, e: Expr, len: nat, start: real, op: Op, limit: nat) returns (val: real)
    requires Sized(e, len) && limit <= Paired(len)
    ensures val == Foldr(Eval(e, len, len)[..limit], start, op)
  {
    match be
    case Fpu =>
      var a := RunFpu(e, len);
      val := a.FoldR(start, op, limit);
    case X86 =>
      var b := RunX86(e, len);
      assert b.Value()[..limit] == Eval(e, len, len)[..limit];
      val := b.FoldR(start, op, limit);
  }

  /** Stores an expression of even length, on either back end. */
  method StoreOf(be: BackEnd, e: Expr, arr: array<real>)
    requires Sized(e, arr.Length) && arr.Length % 2 == 0
    modifies arr
    ensures arr[..] == Eval(e, arr.Length, arr.Length)
  {
    match be
    case Fpu =>
      var a := RunFpu(e, arr.Length);
      a.Store(arr);
    case X86 =>
      var b := RunX86(e, arr.Length);
      b.Store(arr);
  }

  /** And then the folds of the results are equal, in either order, as far as
      both back ends have lanes. */
  method FoldBoth(e: Expr, len: nat, start: real, op: Op, limit: nat)
    returns (fpuR: real, x86R: real, fpuL: real, x86L: real)
    requires Sized(e, len) && limit <= Paired(len)
    ensures fpuR == x86R == Foldr(Eval(e, len, len)[..limit], start, op)
    ensures fpuL == x86L == Foldl(Eval(e, len, len)[..limit], start, op)
  {
    var a := RunFpu(e, len);
    var b := RunX86(e, len);
    assert b.Value()[..limit] == a.Value()[..limit];
    fpuR := a.FoldR(start, op, limit);
    x86R := b.FoldR(start, op, limit);
    fpuL := a.FoldL(start, op, limit);
    x86L := b.FoldL(start, op, limit);
  }
}
