/** `bn_mat_inverse` of src/libbn/mat.c: Gauss-Jordan inversion in place, with
    columns exchanged for the largest pivot of each row. */
module MatInverse {
  import opened VMath
  import Mat4

  /** A 4x4 matrix row by row, and a vector. */
  type Mat = a: seq<real> | |a| == 16 witness seq(16, _ => 0.0)
  type Vec = v: seq<real> | |v| == 4 witness seq(4, _ => 0.0)

  type Index = i: int | 0 <= i < 4

  function El(a: Mat, r: Index, c: Index): real
  {
    a[4 * r + c]
  }

  function Term(a: real, u: real): real
  {
    a * u
  }

  /** Row `r` times a vector. */
  function RowDot(a: Mat, r: Index, u: Vec): real
  {
    Term(El(a, r, 0), u[0]) + Term(El(a, r, 1), u[1]) + Term(El(a, r, 2), u[2]) + Term(El(a, r, 3), u[3])
  }

  /** The matrix takes `u` to `v`. */
  ghost predicate Sends(a: Mat, u: Vec, v: Vec)
  {
    forall r: Index :: RowDot(a, r, u) == v[r]
  }

  // --- what the working matrix means
  //
  // The working matrix takes a mixture of x and y to the rest of x and y: each step
  // exchanges one element of the one for one of the other, and turns both signs.

  function Input(i: nat, z: seq<Index>, x: Vec, y: Vec): Vec
    requires |z| == 4
  {
    seq(4, j requires 0 <= j < 4 => if j < i then -y[j] else x[z[j]])
  }

  function Output(i: nat, z: seq<Index>, x: Vec, y: Vec): Vec
    requires |z| == 4
  {
    seq(4, j requires 0 <= j < 4 => if j < i then -x[z[j]] else y[j])
  }

  /** After `i` steps, for all x and y. */
  ghost predicate Stands(a: Mat, c: Mat, z: seq<Index>, i: nat)
    requires |z| == 4
  {
    forall x: Vec, y: Vec :: Sends(a, x, y) <==> Sends(c, Input(i, z, x, y), Output(i, z, x, y))
  }

  lemma StandsAtFirst(a: Mat, z: seq<Index>)
    requires z == [0, 1, 2, 3]
    ensures Stands(a, a, z, 0)
  {
    forall x: Vec, y: Vec
      ensures Sends(a, x, y) <==> Sends(a, Input(0, z, x, y), Output(0, z, x, y))
    {
      assert Input(0, z, x, y) == x && Output(0, z, x, y) == y;
    }
  }

  // --- exchanging columns

  function Swap<T>(s: seq<T>, i: nat, k: nat): seq<T>
    requires i < |s| && k < |s|
  {
    s[i := s[k]][k := s[i]]
  }

  /** The matrix with columns `i` and `k` exchanged. */
  function SwapColumns(a: Mat, i: Index, k: Index): (b: Mat)
  {
    seq(16, n requires 0 <= n < 16 =>
      if n % 4 == i then a[n - i + k] else if n % 4 == k then a[n - k + i] else a[n])
  }

  lemma SwapColumnsEl(a: Mat, i: Index, k: Index, r: Index, c: Index)
    ensures El(SwapColumns(a, i, k), r, c) == El(a, r, if c == i then k else if c == k then i else c)
  {
  }

  lemma SwapKeepsRow(a: Mat, i: Index, k: Index, r: Index, u: Vec)
    ensures RowDot(SwapColumns(a, i, k), r, Swap(u, i, k)) == RowDot(a, r, u)
  {
    hide SwapColumns, El, Term;
    SwapColumnsEl(a, i, k, r, 0);
    SwapColumnsEl(a, i, k, r, 1);
    SwapColumnsEl(a, i, k, r, 2);
    SwapColumnsEl(a, i, k, r, 3);
  }

  lemma StandsSwapped(a: Mat, c: Mat, z: seq<Index>, i: Index, k: Index)
    requires |z| == 4 && i <= k && Stands(a, c, z, i)
    ensures Stands(a, SwapColumns(c, i, k), Swap(z, i, k), i)
  {
    hide SwapColumns, RowDot;
    var d, w := SwapColumns(c, i, k), Swap(z, i, k);
    forall x: Vec, y: Vec
      ensures Sends(a, x, y) <==> Sends(d, Input(i, w, x, y), Output(i, w, x, y))
    {
      var u := Input(i, z, x, y);
      assert Input(i, w, x, y) == Swap(u, i, k);
      assert Output(i, w, x, y) == Output(i, z, x, y);
      forall r: Index
        ensures RowDot(d, r, Swap(u, i, k)) == RowDot(c, r, u)
      {
        SwapKeepsRow(c, i, k, r, u);
      }
    }
  }

  // --- one exchange step

  function Scaled(a: real, y: real): real
  {
    a * y
  }

  function NegScaled(a: real, y: real): real
  {
    -a * y
  }

  function Minus(a: real, b: real, c: real): real
  {
    a - b * c
  }

  /** An element of the matrix after the step at `i`, with `y` one over the pivot. */
  function Exchanged(a: Mat, i: Index, y: real, r: Index, c: Index): real
  {
    if r == i then if c == i then y else Scaled(El(a, i, c), y)
    else if c == i then NegScaled(El(a, r, i), y)
    else Minus(El(a, r, c), Scaled(El(a, i, c), y), El(a, r, i))
  }

  function Exchange(a: Mat, i: Index, y: real): (b: Mat)
  {
    seq(16, n requires 0 <= n < 16 => Exchanged(a, i, y, n / 4, n % 4))
  }

  lemma ExchangeEl(a: Mat, i: Index, y: real, r: Index, c: Index)
    ensures El(Exchange(a, i, y), r, c) == Exchanged(a, i, y, r, c)
  {
    assert (4 * r + c) / 4 == r && (4 * r + c) % 4 == c;
  }

  /** Row `r` times a vector, but for column `i`. */
  function Rest(a: Mat, r: Index, i: Index, u: Vec): real
  {
    Part(a, r, i, u, 0) + Part(a, r, i, u, 1) + Part(a, r, i, u, 2) + Part(a, r, i, u, 3)
  }

  function Part(a: Mat, r: Index, i: Index, u: Vec, j: Index): real
  {
    if j == i then 0.0 else Term(El(a, r, j), u[j])
  }

  lemma RowIsRest(a: Mat, r: Index, i: Index, u: Vec)
    ensures RowDot(a, r, u) == Rest(a, r, i, u) + Term(El(a, r, i), u[i])
  {
    hide Term, El;
  }

  lemma PartOfPivotRow(a: Mat, i: Index, y: real, u: Vec, v: real, j: Index)
    ensures Part(Exchange(a, i, y), i, i, u[i := v], j) == Part(a, i, i, u, j) * y
  {
    hide Exchange, El;
    ExchangeEl(a, i, y, i, j);
    TermScaled(El(a, i, j), u[j], y);
  }

  lemma TermScaled(a: real, u: real, y: real)
    ensures (a * y) * u == (a * u) * y
  {
  }

  lemma PartOfOtherRow(a: Mat, i: Index, y: real, u: Vec, v: real, r: Index, j: Index)
    requires r != i
    ensures Part(Exchange(a, i, y), r, i, u[i := v], j) == Part(a, r, i, u, j) - Part(a, i, i, u, j) * (El(a, r, i) * y)
  {
    hide Exchange, El;
    ExchangeEl(a, i, y, r, j);
    TermLess(El(a, r, j), El(a, i, j), El(a, r, i), u[j], y, El(a, r, i) * y);
  }

  lemma TermLess(a: real, b: real, q: real, u: real, y: real, qy: real)
    requires qy == q * y
    ensures (a - (b * y) * q) * u == a * u - (b * u) * qy
  {
  }

  lemma SumTimes(a: real, b: real, c: real, d: real, s: real)
    ensures (a + b + c + d) * s == a * s + b * s + c * s + d * s
  {
  }

  lemma RestOfPivotRow(a: Mat, i: Index, y: real, u: Vec, v: real)
    ensures Rest(Exchange(a, i, y), i, i, u[i := v]) == Rest(a, i, i, u) * y
  {
    hide Exchange, Part;
    PartOfPivotRow(a, i, y, u, v, 0);
    PartOfPivotRow(a, i, y, u, v, 1);
    PartOfPivotRow(a, i, y, u, v, 2);
    PartOfPivotRow(a, i, y, u, v, 3);
    SumTimes(Part(a, i, i, u, 0), Part(a, i, i, u, 1), Part(a, i, i, u, 2), Part(a, i, i, u, 3), y);
  }

  lemma RestOfOtherRow(a: Mat, i: Index, y: real, u: Vec, v: real, r: Index)
    requires r != i
    ensures Rest(Exchange(a, i, y), r, i, u[i := v]) == Rest(a, r, i, u) - Rest(a, i, i, u) * (El(a, r, i) * y)
  {
    hide Exchange, Part, El;
    PartOfOtherRow(a, i, y, u, v, r, 0);
    PartOfOtherRow(a, i, y, u, v, r, 1);
    PartOfOtherRow(a, i, y, u, v, r, 2);
    PartOfOtherRow(a, i, y, u, v, r, 3);
    SumTimes(Part(a, i, i, u, 0), Part(a, i, i, u, 1), Part(a, i, i, u, 2), Part(a, i, i, u, 3), El(a, r, i) * y);
  }

  /** The equation of the pivot row, solved for the element that is exchanged. */
  lemma PivotRow(rest: real, p: real, y: real, u: real, v: real)
    requires p * y == 1.0
    ensures rest + p * u == v <==> rest * y + y * (-v) == -u
  {
    var s, t := rest + p * u - v, rest * y + y * (-v) + u;
    PivotBoth(rest, p, y, u, v, s, t);
    if t == 0.0 {
      assert s == t * p;
    }
    if s == 0.0 {
      assert t == s * y;
    }
  }

  lemma PivotBoth(rest: real, p: real, y: real, u: real, v: real, s: real, t: real)
    requires p * y == 1.0
    requires s == rest + p * u - v && t == rest * y + y * (-v) + u
    ensures t == s * y && s == t * p
  {
    assert s * y == rest * y + (p * y) * u - v * y;
    assert t * p == rest * (p * y) + (p * y) * (-v) + u * p;
  }

  /** Another row, with the pivot row solved and put in. */
  lemma OtherRow(rest: real, pivotRest: real, q: real, p: real, y: real, u: real, v: real)
    requires p * y == 1.0 && pivotRest + p * u == v
    ensures (rest - pivotRest * (q * y)) + (-q * y) * (-v) == rest + q * u
  {
    assert (-q * y) * (-v) == (q * y) * v;
    assert (q * y) * (pivotRest + p * u) == pivotRest * (q * y) + (p * y) * (q * u);
  }

  lemma RowsExchanged(a: Mat, i: Index, y: real, u: Vec, v: Vec)
    requires El(a, i, i) * y == 1.0
    ensures Sends(a, u, v) <==> Sends(Exchange(a, i, y), u[i := -v[i]], v[i := -u[i]])
  {
    hide RowDot, Exchange, El;
    var b, u', v' := Exchange(a, i, y), u[i := -v[i]], v[i := -u[i]];
    PivotRowExchanged(a, i, y, u, v);
    if RowDot(a, i, u) == v[i] {
      forall r: Index | r != i
        ensures RowDot(b, r, u') == RowDot(a, r, u)
      {
        OtherRowExchanged(a, i, y, u, v, r);
      }
    }
  }

  lemma PivotRowExchanged(a: Mat, i: Index, y: real, u: Vec, v: Vec)
    requires El(a, i, i) * y == 1.0
    ensures RowDot(a, i, u) == v[i] <==> RowDot(Exchange(a, i, y), i, u[i := -v[i]]) == -u[i]
  {
    hide RowDot, Exchange, El, Rest;
    RowIsRest(a, i, i, u);
    RowIsRest(Exchange(a, i, y), i, i, u[i := -v[i]]);
    RestOfPivotRow(a, i, y, u, -v[i]);
    ExchangeEl(a, i, y, i, i);
    PivotRow(Rest(a, i, i, u), El(a, i, i), y, u[i], v[i]);
  }

  lemma OtherRowExchanged(a: Mat, i: Index, y: real, u: Vec, v: Vec, r: Index)
    requires El(a, i, i) * y == 1.0 && r != i && RowDot(a, i, u) == v[i]
    ensures RowDot(Exchange(a, i, y), r, u[i := -v[i]]) == RowDot(a, r, u)
  {
    hide RowDot, Exchange, El, Rest;
    RowIsRest(a, i, i, u);
    RowIsRest(a, r, i, u);
    RowIsRest(Exchange(a, i, y), r, i, u[i := -v[i]]);
    RestOfOtherRow(a, i, y, u, -v[i], r);
    ExchangeEl(a, i, y, r, i);
    OtherRow(Rest(a, r, i, u), Rest(a, i, i, u), El(a, r, i), El(a, i, i), y, u[i], v[i]);
  }

  lemma StandsExchanged(a: Mat, c: Mat, z: seq<Index>, i: Index, y: real)
    requires |z| == 4 && Stands(a, c, z, i) && El(c, i, i) * y == 1.0
    ensures Stands(a, Exchange(c, i, y), z, i + 1)
  {
    hide RowDot, Exchange, El, Sends;
    forall x: Vec, y': Vec
      ensures Sends(a, x, y') <==> Sends(Exchange(c, i, y), Input(i + 1, z, x, y'), Output(i + 1, z, x, y'))
    {
      var u, v := Input(i, z, x, y'), Output(i, z, x, y');
      RowsExchanged(c, i, y, u, v);
      assert Input(i + 1, z, x, y') == u[i := -v[i]];
      assert Output(i + 1, z, x, y') == v[i := -u[i]];
    }
  }

  // --- the main loop

  /** Where the first of the largest elements of row `i` is, from the diagonal up to
      column `n`. */
  function Best(c: Mat, i: Index, n: nat): (k: Index)
    requires i < n <= 4
    ensures i <= k < n
  {
    if n == i + 1 then i
    else
      var k := Best(c, i, n - 1);
      if Abs(El(c, i, n - 1)) > Abs(El(c, i, k)) then n - 1 else k
  }

  lemma {:induction false} BestLargest(c: Mat, i: Index, n: nat)
    requires i < n <= 4
    ensures forall j: Index :: i <= j < n ==> Abs(El(c, i, j)) <= Abs(El(c, i, Best(c, i, n)))
    ensures forall j: Index :: i <= j < Best(c, i, n) ==> Abs(El(c, i, j)) < Abs(El(c, i, Best(c, i, n)))
  {
    if n > i + 1 {
      BestLargest(c, i, n - 1);
    }
  }

  /** It is the only place with no larger element after it, nor one as large before. */
  lemma BestIff(c: Mat, i: Index, k: Index)
    ensures k == Best(c, i, 4) <==>
      i <= k
      && (forall j: Index :: i <= j ==> Abs(El(c, i, j)) <= Abs(El(c, i, k)))
      && (forall j: Index :: i <= j < k ==> Abs(El(c, i, j)) < Abs(El(c, i, k)))
  {
    hide El;
    BestLargest(c, i, 4);
  }

  method FindPivot(output: array<real>, i: Index) returns (k: Index, y: real)
    requires output.Length == 16
    ensures k == Best(output[..], i, 4) && y == El(output[..], i, k)
  {
    k, y := i, output[i * 4 + i];
    for j := i + 1 to 4
      invariant k == Best(output[..], i, j) && y == El(output[..], i, k)
    {
      var w := output[i * 4 + j];
      assert w == El(output[..], i, j);
      if Abs(w) > Abs(y) {
        k, y := j, w;
      }
    }
  }

  /** The element that step `i` divides by, and the matrix after that step: the
      pivot comes to the diagonal and is exchanged. */
  function Pivot(c: Mat, i: Index): real
  {
    El(c, i, Best(c, i, 4))
  }

  function Step(c: Mat, i: Index): Mat
  {
    var y := Pivot(c, i);
    if y == 0.0 then c else Exchange(SwapColumns(c, i, Best(c, i, 4)), i, 1.0 / y)
  }

  /** The matrix after `i` steps, the columns that its rows stand for, and the pivot
      that comes next. */
  function Steps(a: Mat, i: nat): Mat
    requires i <= 4
  {
    if i == 0 then a else Step(Steps(a, i - 1), i - 1)
  }

  function Order(a: Mat, i: nat): (z: seq<Index>)
    requires i <= 4
    ensures |z| == 4
  {
    if i == 0 then [0, 1, 2, 3] else Swap(Order(a, i - 1), i - 1, Best(Steps(a, i - 1), i - 1, 4))
  }

  function PivotAt(a: Mat, i: Index): real
  {
    Pivot(Steps(a, i), i)
  }

  lemma StepStands(a: Mat, c: Mat, z: seq<Index>, i: Index)
    requires |z| == 4 && Stands(a, c, z, i) && Pivot(c, i) != 0.0
    ensures Stands(a, Step(c, i), Swap(z, i, Best(c, i, 4)), i + 1)
  {
    hide Stands, SwapColumns, Exchange, El;
    var k, y := Best(c, i, 4), Pivot(c, i);
    StandsSwapped(a, c, z, i, k);
    SwapColumnsEl(c, i, k, i, i);
    Reciprocal(y);
    StandsExchanged(a, SwapColumns(c, i, k), Swap(z, i, k), i, 1.0 / y);
  }

  lemma Reciprocal(y: real)
    requires y != 0.0
    ensures y * (1.0 / y) == 1.0
  {
  }

  lemma SwapPermutes(z: seq<Index>, i: Index, k: Index)
    requires IsPermutation(z)
    ensures IsPermutation(Swap(z, i, k))
  {
  }

  lemma {:induction false} OrderPermutes(a: Mat, i: nat)
    requires i <= 4
    ensures IsPermutation(Order(a, i))
  {
    if i > 0 {
      OrderPermutes(a, i - 1);
      SwapPermutes(Order(a, i - 1), i - 1, Best(Steps(a, i - 1), i - 1, 4));
    }
  }

  /** As long as no pivot is zero the matrix keeps its meaning. */
  lemma {:induction false} StepsStand(a: Mat, i: nat)
    requires i <= 4 && forall j: Index :: j < i ==> PivotAt(a, j) != 0.0
    ensures Stands(a, Steps(a, i), Order(a, i), i)
    ensures Order(a, i) ==
      if i == 0 then [0, 1, 2, 3]
      else
        var z, k := Order(a, i - 1), Best(Steps(a, i - 1), i - 1, 4);
        z[i - 1 := z[k]][k := z[i - 1]]
  {
    hide Stands, Step, Pivot;
    if i == 0 {
      StandsAtFirst(a, [0, 1, 2, 3]);
    } else {
      StepsStand(a, i - 1);
      assert PivotAt(a, i - 1) != 0.0;
      StepStands(a, Steps(a, i - 1), Order(a, i - 1), i - 1);
    }
  }

  /** An element of the matrix after `j` turns of the loop that moves columns, but
      for the pivot's place, which is stored after it. */
  function Moving(a: Mat, i: Index, k: Index, y: real, j: int, r: Index, c: Index): real
  {
    var b := SwapColumns(a, i, k);
    if r == i then
      var e := if i < j then El(b, i, c) else El(a, i, c);
      if c < j then Scaled(e, y) else e
    else if r < j then
      if c == i then NegScaled(El(b, r, i), y) else El(b, r, c)
    else El(a, r, c)
  }

  function Set(a: Mat, r: Index, c: Index, x: real): Mat
  {
    a[4 * r + c := x]
  }

  lemma SetEl(a: Mat, r: Index, c: Index, x: real, r': Index, c': Index)
    ensures El(Set(a, r, c, x), r', c') == if r' == r && c' == c then x else El(a, r', c')
  {
  }

  /** What the stores of turn `j` leave, up to the last one, and after it. */
  function HalfTurn(a: Mat, i: Index, k: Index, y: real, j: Index): Mat
  {
    Set(Set(a, j, k, El(a, j, i)), j, i, NegScaled(El(a, j, k), y))
  }

  function Turn(a: Mat, i: Index, k: Index, y: real, j: Index): Mat
  {
    var h := HalfTurn(a, i, k, y, j);
    Set(h, i, j, Scaled(El(h, i, j), y))
  }

  lemma HalfTurnEl(a: Mat, i: Index, k: Index, y: real, j: Index, r: Index, c: Index)
    ensures El(HalfTurn(a, i, k, y, j), r, c)
      == if r == j && c == i then NegScaled(El(a, j, k), y) else if r == j && c == k then El(a, j, i) else El(a, r, c)
  {
    hide Set, El;
    SetEl(a, j, k, El(a, j, i), r, c);
    SetEl(Set(a, j, k, El(a, j, i)), j, i, NegScaled(El(a, j, k), y), r, c);
  }

  /** The matrix after `j` turns. */
  ghost predicate MovedTo(a: Mat, m: Mat, i: Index, k: Index, y: real, j: int)
  {
    forall r: Index, c: Index :: (r == i && c == i ==> j <= i) ==> El(m, r, c) == Moving(a, i, k, y, j, r, c)
  }

  lemma TurnMoves(a: Mat, m: Mat, i: Index, k: Index, y: real, j: Index)
    requires i <= k && MovedTo(a, m, i, k, y, j)
    ensures MovedTo(a, Turn(m, i, k, y, j), i, k, y, j + 1)
    ensures El(m, j, k) == El(SwapColumns(a, i, k), j, i)
    ensures j != i ==> El(HalfTurn(m, i, k, y, j), i, j) == El(SwapColumns(a, i, k), i, j)
  {
    hide Set, El, HalfTurn, SwapColumns, Scaled, NegScaled;
    forall r: Index, c: Index
      ensures El(SwapColumns(a, i, k), r, c) == El(a, r, if c == i then k else if c == k then i else c)
    {
      SwapColumnsEl(a, i, k, r, c);
    }
    var h := HalfTurn(m, i, k, y, j);
    forall r: Index, c: Index
      ensures El(h, r, c)
        == if r == j && c == i then NegScaled(El(m, j, k), y) else if r == j && c == k then El(m, j, i) else El(m, r, c)
    {
      HalfTurnEl(m, i, k, y, j, r, c);
    }
    forall r: Index, c: Index | r == i && c == i ==> j + 1 <= i
      ensures El(Turn(m, i, k, y, j), r, c) == Moving(a, i, k, y, j + 1, r, c)
    {
      SetEl(h, i, j, Scaled(El(h, i, j), y), r, c);
    }
  }

  /** The loop that moves columns `i` and `k` and scales row and column `i`. */
  method MoveColumns(output: array<real>, b: array<real>, c: array<real>, i: Index, k: Index, y: real)
    requires output.Length == 16 && b.Length == c.Length == 4 && i <= k
    requires output != b && output != c && b != c
    modifies output, b, c
    ensures MovedTo(old(output[..]), output[..], i, k, y, 4)
    ensures var w := SwapColumns(old(output[..]), i, k);
      && (forall e: Index :: e != i ==> b[e] == Scaled(El(w, i, e), y))
      && (forall r: Index :: c[r] == El(w, r, i))
  {
    hide Scaled, NegScaled, MovedTo, SwapColumns;
    ghost var a := output[..];
    ghost var w := SwapColumns(a, i, k);
    NotMoved(a, i, k, y);
    for j := 0 to 4
      invariant MovedTo(a, output[..], i, k, y, j)
      invariant forall e: Index :: e != i && e < j ==> b[e] == Scaled(El(w, i, e), y)
      invariant forall r: Index :: r < j ==> c[r] == El(w, r, i)
    {
      ghost var m := output[..];
      TurnMoves(a, m, i, k, y, j);
      c[j] := output[j * 4 + k];
      output[j * 4 + k] := output[j * 4 + i];
      output[j * 4 + i] := NegScaled(c[j], y);
      assert output[..] == HalfTurn(m, i, k, y, j);
      var temp := Scaled(output[i * 4 + j], y);
      b[j] := temp;
      output[i * 4 + j] := temp;
      assert output[..] == Turn(m, i, k, y, j);
    }
  }

  lemma NotMoved(a: Mat, i: Index, k: Index, y: real)
    ensures MovedTo(a, a, i, k, y, 0)
  {
  }

  /** The loop over the elements of one row, but for column `i`. */
  method ClearRow(output: array<real>, b: array<real>, x: real, i: Index, r: Index)
    requires output.Length == 16 && b.Length == 4 && output != b
    modifies output
    ensures forall r': Index, c: Index ::
      El(output[..], r', c) ==
      if r' == r && c != i then Minus(old(El(output[..], r', c)), b[c], x) else old(El(output[..], r', c))
  {
    hide Minus;
    ghost var a := output[..];
    for j := 0 to 4
      invariant forall r': Index, c: Index ::
        El(output[..], r', c) ==
        if r' == r && c != i && c < j then Minus(El(a, r', c), b[c], x) else El(a, r', c)
    {
      if j == i {
        continue;
      }
      ghost var m := output[..];
      output[r * 4 + j] := Minus(output[r * 4 + j], b[j], x);
      assert output[..] == Set(m, r, j, Minus(El(m, r, j), b[j], x));
      forall r': Index, c: Index
        ensures El(output[..], r', c) == if r' == r && c == j then Minus(El(m, r, j), b[j], x) else El(m, r', c)
      {
        SetEl(m, r, j, Minus(El(m, r, j), b[j], x), r', c);
      }
    }
  }

  lemma SameByEl(a: Mat, b: Mat)
    requires forall r: Index, c: Index :: El(a, r, c) == El(b, r, c)
    ensures a == b
  {
    forall n | 0 <= n < 16
      ensures a[n] == b[n]
    {
      assert El(a, n / 4, n % 4) == El(b, n / 4, n % 4);
    }
  }

  /** The matrix when the rows before `r0` are cleared, and row `i` in any case. */
  ghost predicate ClearedTo(w: Mat, m: Mat, i: Index, y: real, r0: int)
  {
    forall r: Index, c: Index ::
      El(m, r, c) == if r == i || c == i || r < r0 then Exchanged(w, i, y, r, c) else El(w, r, c)
  }

  lemma MovedThenPivot(a: Mat, m: Mat, i: Index, k: Index, y: real)
    requires MovedTo(a, m, i, k, y, 4)
    ensures ClearedTo(SwapColumns(a, i, k), Set(m, i, i, y), i, y, 0)
  {
    hide Set, El, SwapColumns, Scaled, NegScaled, Minus;
    forall r: Index, c: Index
      ensures El(Set(m, i, i, y), r, c) == if r == i && c == i then y else El(m, r, c)
    {
      SetEl(m, i, i, y, r, c);
    }
  }

  lemma AllCleared(w: Mat, m: Mat, i: Index, y: real)
    requires ClearedTo(w, m, i, y, 4)
    ensures m == Exchange(w, i, y)
  {
    hide Exchange, Exchanged, El;
    forall r: Index, c: Index
      ensures El(m, r, c) == El(Exchange(w, i, y), r, c)
    {
      ExchangeEl(w, i, y, r, c);
    }
    SameByEl(m, Exchange(w, i, y));
  }

  /** One turn of the main loop, once the pivot is found. */
  method PivotStep(output: array<real>, b: array<real>, c: array<real>, i: Index, k: Index, y: real)
    requires output.Length == 16 && b.Length == c.Length == 4 && i <= k
    requires output != b && output != c && b != c
    modifies output, b, c
    ensures output[..] == Exchange(SwapColumns(old(output[..]), i, k), i, y)
  {
    hide MovedTo, ClearedTo, SwapColumns, Exchange, Scaled, Minus;
    ghost var a := output[..];
    ghost var w := SwapColumns(a, i, k);
    MoveColumns(output, b, c, i, k, y);
    ghost var m := output[..];
    output[i * 4 + i] := y;
    assert output[..] == Set(m, i, i, y);
    MovedThenPivot(a, m, i, k, y);
    for r := 0 to 4
      invariant ClearedTo(w, output[..], i, y, r)
      invariant forall e: Index :: e != i ==> b[e] == Scaled(El(w, i, e), y)
      invariant forall e: Index :: c[e] == El(w, e, i)
    {
      m := output[..];
      if r == i {
        ClearedPivot(w, m, i, y);
        continue;
      }
      ClearRow(output, b, c[r], i, r);
      ClearedRow(w, m, output[..], i, y, r);
    }
    AllCleared(w, output[..], i, y);
  }

  lemma ClearedPivot(w: Mat, m: Mat, i: Index, y: real)
    requires ClearedTo(w, m, i, y, i)
    ensures ClearedTo(w, m, i, y, i + 1)
  {
  }

  lemma ClearedRow(w: Mat, m: Mat, n: Mat, i: Index, y: real, r: Index)
    requires r != i && ClearedTo(w, m, i, y, r)
    requires forall r': Index, c: Index ::
      El(n, r', c) ==
      if r' == r && c != i then Minus(El(m, r', c), Scaled(El(w, i, c), y), El(w, r, i)) else El(m, r', c)
    ensures ClearedTo(w, n, i, y, r + 1)
  {
    hide El, Scaled, NegScaled, Minus;
  }

  // --- the second loop

  /** Row `r` of the matrix takes y to element z[r] of x. */
  ghost predicate Solves(m: Mat, z: seq<Index>, x: Vec, y: Vec)
    requires |z| == 4
  {
    forall r: Index :: RowDot(m, r, y) == x[z[r]]
  }

  /** The rows of the matrix give x from y, in the order z. */
  ghost predicate Ends(a: Mat, m: Mat, z: seq<Index>)
    requires |z| == 4
  {
    forall x: Vec, y: Vec :: Sends(a, x, y) <==> Solves(m, z, x, y)
  }

  lemma NegatedRow(m: Mat, r: Index, y: Vec, n: Vec)
    requires forall j: Index :: n[j] == -y[j]
    ensures RowDot(m, r, n) == -RowDot(m, r, y)
  {
    hide El;
    assert n[0] == -y[0] && n[1] == -y[1] && n[2] == -y[2] && n[3] == -y[3];
    NegatedTerm(El(m, r, 0), y[0], n[0]);
    NegatedTerm(El(m, r, 1), y[1], n[1]);
    NegatedTerm(El(m, r, 2), y[2], n[2]);
    NegatedTerm(El(m, r, 3), y[3], n[3]);
  }

  lemma NegatedTerm(a: real, u: real, n: real)
    requires n == -u
    ensures Term(a, n) == -Term(a, u)
  {
  }

  lemma StandsEnds(a: Mat, m: Mat, z: seq<Index>)
    requires |z| == 4 && Stands(a, m, z, 4)
    ensures Ends(a, m, z)
  {
    hide RowDot;
    forall x: Vec, y: Vec
      ensures Sends(a, x, y) <==> Solves(m, z, x, y)
    {
      var u, v := Input(4, z, x, y), Output(4, z, x, y);
      assert Sends(a, x, y) <==> Sends(m, u, v);
      forall r: Index
        ensures RowDot(m, r, u) == -RowDot(m, r, y) && v[r] == -x[z[r]]
      {
        NegatedRow(m, r, y, u);
      }
    }
  }

  /** The row that takes the place of row `r`. */
  function Other(i: Index, k: Index, r: Index): Index
  {
    if r == i then k else if r == k then i else r
  }

  function SwapRows(a: Mat, i: Index, k: Index): (b: Mat)
  {
    seq(16, n requires 0 <= n < 16 =>
      if n / 4 == i then a[n % 4 + 4 * k] else if n / 4 == k then a[n % 4 + 4 * i] else a[n])
  }

  lemma SwapRowsDot(a: Mat, i: Index, k: Index, r: Index, u: Vec)
    ensures RowDot(SwapRows(a, i, k), r, u) == RowDot(a, Other(i, k, r), u)
  {
    hide Term;
    SwapRowsEl(a, i, k, r, 0);
    SwapRowsEl(a, i, k, r, 1);
    SwapRowsEl(a, i, k, r, 2);
    SwapRowsEl(a, i, k, r, 3);
  }

  lemma SwapRowsEl(a: Mat, i: Index, k: Index, r: Index, c: Index)
    ensures El(SwapRows(a, i, k), r, c) == El(a, Other(i, k, r), c)
  {
    assert (4 * r + c) / 4 == r && (4 * r + c) % 4 == c;
  }

  lemma EndsSwapped(a: Mat, m: Mat, z: seq<Index>, i: Index, k: Index)
    requires |z| == 4 && Ends(a, m, z)
    ensures Ends(a, SwapRows(m, i, k), Swap(z, i, k))
  {
    hide RowDot, SwapRows;
    var n, w := SwapRows(m, i, k), Swap(z, i, k);
    forall x: Vec, y: Vec
      ensures Sends(a, x, y) <==> Solves(n, w, x, y)
    {
      assert Sends(a, x, y) <==> Solves(m, z, x, y);
      forall r: Index
        ensures RowDot(n, r, y) == RowDot(m, Other(i, k, r), y)
      {
        SwapRowsDot(m, i, k, r, y);
      }
      if Solves(n, w, x, y) {
        forall r: Index
          ensures RowDot(m, r, y) == x[z[r]]
        {
          var r' := Other(i, k, r);
          assert RowDot(n, r', y) == x[w[r']];
        }
      }
    }
  }

  ghost predicate IsPermutation(z: seq<Index>)
  {
    |z| == 4 && forall i, j :: 0 <= i < j < 4 ==> z[i] != z[j]
  }

  function Settled(z: seq<Index>): (n: nat)
    requires |z| == 4
    ensures n <= 4
  {
    (if z[0] == 0 then 1 else 0) + (if z[1] == 1 then 1 else 0)
      + (if z[2] == 2 then 1 else 0) + (if z[3] == 3 then 1 else 0)
  }

  lemma SettlesMore(z: seq<Index>, i: Index)
    requires IsPermutation(z) && z[i] != i && forall r: Index :: r < i ==> z[r] == r
    ensures IsPermutation(Swap(z, i, z[i])) && Settled(z) < Settled(Swap(z, i, z[i]))
    ensures forall r: Index :: r < i ==> Swap(z, i, z[i])[r] == r
  {
  }

  /** The inner loops that exchange two rows. */
  method ExchangeRows(output: array<real>, i: Index, k: Index)
    requires output.Length == 16
    modifies output
    ensures output[..] == SwapRows(old(output[..]), i, k)
  {
    hide SwapRows;
    ghost var a := output[..];
    for j := 0 to 4
      invariant RowsSwapped(a, output[..], i, k, j)
    {
      ghost var m := output[..];
      var w := output[i * 4 + j];
      output[i * 4 + j] := output[k * 4 + j];
      output[k * 4 + j] := w;
      assert output[..] == Set(Set(m, i, j, El(m, k, j)), k, j, El(m, i, j));
      SwapTurn(a, m, i, k, j);
    }
    AllSwapped(a, output[..], i, k);
  }

  ghost predicate RowsSwapped(a: Mat, m: Mat, i: Index, k: Index, j: int)
  {
    forall r: Index, c: Index :: El(m, r, c) == El(a, if c < j then Other(i, k, r) else r, c)
  }

  lemma SwapTurn(a: Mat, m: Mat, i: Index, k: Index, j: Index)
    requires RowsSwapped(a, m, i, k, j)
    ensures RowsSwapped(a, Set(Set(m, i, j, El(m, k, j)), k, j, El(m, i, j)), i, k, j + 1)
  {
    hide Set, El;
    var h := Set(m, i, j, El(m, k, j));
    forall r: Index, c: Index
      ensures El(Set(h, k, j, El(m, i, j)), r, c)
        == if r == k && c == j then El(m, i, j) else if r == i && c == j then El(m, k, j) else El(m, r, c)
    {
      SetEl(m, i, j, El(m, k, j), r, c);
      SetEl(h, k, j, El(m, i, j), r, c);
    }
  }

  lemma AllSwapped(a: Mat, m: Mat, i: Index, k: Index)
    requires RowsSwapped(a, m, i, k, 4)
    ensures m == SwapRows(a, i, k)
  {
    hide SwapRows, El;
    forall r: Index, c: Index
      ensures El(m, r, c) == El(SwapRows(a, i, k), r, c)
    {
      SwapRowsEl(a, i, k, r, c);
    }
    SameByEl(m, SwapRows(a, i, k));
  }

  /** Puts the rows in order. */
  method Reorder(output: array<real>, z: array<Index>, ghost a: Mat)
    requires output.Length == 16 && z.Length == 4
    requires IsPermutation(z[..]) && Ends(a, output[..], z[..])
    modifies output, z
    ensures Ends(a, output[..], [0, 1, 2, 3])
  {
    hide Ends, SwapRows, Settled;
    for i := 0 to 4
      invariant IsPermutation(z[..]) && Ends(a, output[..], z[..])
      invariant forall r: Index :: r < i ==> z[r] == r
    {
      while z[i] != i
        invariant IsPermutation(z[..]) && Ends(a, output[..], z[..])
        invariant forall r: Index :: r < i ==> z[r] == r
        decreases 4 - Settled(z[..])
      {
        var k := z[i];
        ghost var was := z[..];
        EndsSwapped(a, output[..], was, i, k);
        SettlesMore(was, i);
        ExchangeRows(output, i, k);
        var p := z[i];
        z[i] := z[k];
        z[k] := p;
        assert z[..] == Swap(was, i, k);
      }
    }
    assert z[0] == 0 && z[1] == 1 && z[2] == 2 && z[3] == 3;
    assert z[..] == [0, 1, 2, 3];
  }

  /** The row that gives element `t` of x. */
  function Place(z: seq<Index>, t: Index): Index
    requires |z| == 4
  {
    if z[0] == t then 0 else if z[1] == t then 1 else if z[2] == t then 2 else 3
  }

  function InOrder(m: Mat, z: seq<Index>): Mat
    requires |z| == 4
  {
    seq(16, n requires 0 <= n < 16 => m[4 * Place(z, n / 4) + n % 4])
  }

  lemma PlaceOf(z: seq<Index>, r: Index)
    requires IsPermutation(z)
    ensures Place(z, z[r]) == r && z[Place(z, r)] == r
  {
  }

  lemma InOrderEl(m: Mat, z: seq<Index>, r: Index, c: Index)
    requires |z| == 4
    ensures El(InOrder(m, z), r, c) == El(m, Place(z, r), c)
  {
    assert (4 * r + c) / 4 == r && (4 * r + c) % 4 == c;
  }

  lemma InOrderDot(m: Mat, z: seq<Index>, r: Index, u: Vec)
    requires |z| == 4
    ensures RowDot(InOrder(m, z), r, u) == RowDot(m, Place(z, r), u)
  {
    hide El, InOrder, Place, Term;
    InOrderEl(m, z, r, 0);
    InOrderEl(m, z, r, 1);
    InOrderEl(m, z, r, 2);
    InOrderEl(m, z, r, 3);
  }

  // --- the inverse

  /** Each undoes the other, on all vectors. */
  ghost predicate Undo(a: Mat, b: Mat)
  {
    forall x: Vec, y: Vec :: Sends(a, x, y) <==> Sends(b, y, x)
  }

  lemma EndsUndo(a: Mat, m: Mat)
    requires Ends(a, m, [0, 1, 2, 3])
    ensures Undo(a, m)
  {
    hide RowDot;
    forall x: Vec, y: Vec
      ensures Sends(a, x, y) <==> Sends(m, y, x)
    {
      assert Sends(a, x, y) <==> Solves(m, [0, 1, 2, 3], x, y);
    }
  }

  lemma InOrderUndoes(a: Mat, m: Mat, z: seq<Index>)
    requires |z| == 4 && IsPermutation(z) && Ends(a, m, z)
    ensures Undo(a, InOrder(m, z))
  {
    hide RowDot, InOrder, Place, IsPermutation;
    forall x: Vec, y: Vec
      ensures Sends(a, x, y) <==> Sends(InOrder(m, z), y, x)
    {
      assert Sends(a, x, y) <==> Solves(m, z, x, y);
      forall r: Index
        ensures RowDot(InOrder(m, z), r, y) == RowDot(m, Place(z, r), y)
        ensures Place(z, z[r]) == r && z[Place(z, r)] == r
      {
        InOrderDot(m, z, r, y);
        PlaceOf(z, r);
      }
      if Solves(m, z, x, y) {
        forall r: Index
          ensures RowDot(InOrder(m, z), r, y) == x[r]
        {
          assert RowDot(m, Place(z, r), y) == x[z[Place(z, r)]];
        }
      }
      if Sends(InOrder(m, z), y, x) {
        forall r: Index
          ensures RowDot(m, r, y) == x[z[r]]
        {
          assert RowDot(InOrder(m, z), z[r], y) == x[z[r]];
        }
      }
    }
  }

  /** Where the elements from the diagonal on are zero the matrix has no inverse. */
  lemma NoPivotAtAll(a: Mat, c: Mat, z: seq<Index>, i: Index, b: Mat)
    requires |z| == 4 && Stands(a, c, z, i) && forall j: Index :: i <= j ==> El(c, i, j) == 0.0
    ensures !Undo(a, b)
  {
    hide RowDot, El;
    if Undo(a, b) {
      var y: Vec := seq(4, j => if j == i then 1.0 else 0.0);
      var x: Vec := [RowDot(b, 0, y), RowDot(b, 1, y), RowDot(b, 2, y), RowDot(b, 3, y)];
      FourRows(b, y, x);
      assert Sends(a, x, y) <==> Sends(b, y, x);
      assert Sends(a, x, y) <==> Sends(c, Input(i, z, x, y), Output(i, z, x, y));
      var u := Input(i, z, x, y);
      assert RowDot(c, i, u) == Output(i, z, x, y)[i] == 1.0;
      ZeroRow(c, i, u);
    }
  }

  lemma FourRows(b: Mat, y: Vec, x: Vec)
    requires x == [RowDot(b, 0, y), RowDot(b, 1, y), RowDot(b, 2, y), RowDot(b, 3, y)]
    ensures Sends(b, y, x)
  {
    hide RowDot;
    forall r: Index
      ensures RowDot(b, r, y) == x[r]
    {
      assert r == 0 || r == 1 || r == 2 || r == 3;
    }
  }

  lemma ZeroRow(c: Mat, i: Index, u: Vec)
    requires forall j: Index :: El(c, i, j) == 0.0 || u[j] == 0.0
    ensures RowDot(c, i, u) == 0.0
  {
    hide El;
    ZeroTerm(El(c, i, 0), u[0]);
    ZeroTerm(El(c, i, 1), u[1]);
    ZeroTerm(El(c, i, 2), u[2]);
    ZeroTerm(El(c, i, 3), u[3]);
  }

  lemma ZeroTerm(a: real, u: real)
    requires a == 0.0 || u == 0.0
    ensures Term(a, u) == 0.0
  {
  }

  lemma {:induction false} UndonePivots(a: Mat, b: Mat, n: nat)
    requires Undo(a, b) && n <= 4
    ensures forall i: Index :: i < n ==> PivotAt(a, i) != 0.0
  {
    hide Undo, Stands, Steps, El;
    if n > 0 {
      var i := n - 1;
      UndonePivots(a, b, i);
      StepsStand(a, i);
      if PivotAt(a, i) == 0.0 {
        BestLargest(Steps(a, i), i, 4);
        NoPivotAtAll(a, Steps(a, i), Order(a, i), i, b);
      }
    }
  }

  /** A pivot is the first of the largest elements of its row from the diagonal on, of
      the matrix after the steps before. */
  lemma PivotAtIs(a: Mat, i: Index, k: Index)
    requires i <= k
    requires forall j: Index :: i <= j ==> Abs(El(Steps(a, i), i, j)) <= Abs(El(Steps(a, i), i, k))
    requires forall j: Index :: i <= j < k ==> Abs(El(Steps(a, i), i, j)) < Abs(El(Steps(a, i), i, k))
    ensures PivotAt(a, i) == El(Steps(a, i), i, k)
  {
    hide El, Steps;
    BestIff(Steps(a, i), i, k);
  }

  /** A matrix has an inverse exactly if none of its pivots is zero. */
  lemma InvertibleIff(a: Mat)
    ensures (exists b: Mat :: Undo(a, b)) <==> forall i: Index :: PivotAt(a, i) != 0.0
  {
    hide Undo, Stands, Ends, PivotAt;
    if b: Mat :| Undo(a, b) {
      UndonePivots(a, b, 4);
    }
    if forall i: Index :: PivotAt(a, i) != 0.0 {
      StepsStand(a, 4);
      OrderPermutes(a, 4);
      StandsEnds(a, Steps(a, 4), Order(a, 4));
      InOrderUndoes(a, Steps(a, 4), Order(a, 4));
    }
  }

  function Diagonal(d: real): Mat
  {
    [d, 0.0, 0.0, 0.0, 0.0, 1.0, 0.0, 0.0, 0.0, 0.0, 1.0, 0.0, 0.0, 0.0, 0.0, 1.0]
  }

  /** Whatever the tolerance, some matrix with an inverse has a pivot within it. */
  lemma SmallPivot(small: Tolerance)
    ensures Undo(Diagonal(small / 2.0), Diagonal(2.0 / small))
    ensures NearZero(PivotAt(Diagonal(small / 2.0), 0), small)
  {
    hide Undo, Diagonal, PivotAt;
    assert (small / 2.0) * (2.0 / small) == 1.0;
    DiagonalUndone(small / 2.0, 2.0 / small);
    DiagonalPivot(small / 2.0);
  }

  lemma DiagonalPivot(d: real)
    requires d != 0.0
    ensures PivotAt(Diagonal(d), 0) == d
  {
    assert Best(Diagonal(d), 0, 4) == 0 by {
      hide Best;
      BestIff(Diagonal(d), 0, 0);
    }
  }

  lemma DiagonalUndone(d: real, e: real)
    requires d * e == 1.0
    ensures Undo(Diagonal(d), Diagonal(e))
  {
    hide Sends, Diagonal, Term;
    forall x: Vec, y: Vec
      ensures Sends(Diagonal(d), x, y) <==> Sends(Diagonal(e), y, x)
    {
      DiagonalSends(d, x, y);
      DiagonalSends(e, y, x);
      Undone(d, e, x[0], y[0]);
    }
  }

  lemma DiagonalSends(d: real, x: Vec, y: Vec)
    ensures Sends(Diagonal(d), x, y) <==> Term(d, x[0]) == y[0] && x[1] == y[1] && x[2] == y[2] && x[3] == y[3]
  {
  }

  lemma Undone(d: real, e: real, x: real, y: real)
    requires d * e == 1.0
    ensures Term(d, x) == y <==> Term(e, y) == x
  {
    if d * x == y {
      assert e * y == (d * e) * x;
    }
    if e * y == x {
      assert d * x == (d * e) * y;
    }
  }

  /** `bn_mat_inverse`: it returns 1 exactly if no pivot is near zero, and then the
      matrices undo each other. They may be the same array. */
  method Inverse(output: array<real>, input: array<real>, small: Tolerance) returns (ok: bool)
    requires output.Length == input.Length == 16
    modifies output
    ensures ok <==> forall i: Index :: !NearZero(PivotAt(old(input[..]), i), small)
    ensures ok ==> Undo(old(input[..]), output[..])
  {
    hide Stands, Ends, Undo, SwapColumns, Exchange, El, IsPermutation, Swap, Best, NearZero;
    ghost var a := input[..];
    for n := 0 to 16
      invariant output[..n] == a[..n] && (output != input ==> input[..] == a) && (output == input ==> output[..] == a)
    {
      output[n] := input[n];
    }
    assert output[..] == a;
    var z := new Index[4](j => j);
    var b, c := new real[4], new real[4];
    assert z[..] == [0, 1, 2, 3] && output[..] == a;
    for i := 0 to 4
      invariant output[..] == Steps(a, i) && z[..] == Order(a, i)
      invariant forall r: Index :: r < i ==> !NearZero(PivotAt(a, r), small)
    {
      var k, y := FindPivot(output, i);
      assert y == PivotAt(a, i);
      if NearZero(y, small) {
        return false;
      }
      NotZero(y, small);
      ghost var was := z[..];
      PivotStep(output, b, c, i, k, 1.0 / y);
      assert output[..] == Steps(a, i + 1);
      var j := z[i];
      z[i] := z[k];
      z[k] := j;
      SwapStored(was, z[..], i, k);
    }
    forall i: Index
      ensures PivotAt(a, i) != 0.0
    {
      NotZero(PivotAt(a, i), small);
    }
    StepsStand(a, 4);
    OrderPermutes(a, 4);
    StandsEnds(a, output[..], z[..]);
    Reorder(output, z, a);
    EndsUndo(a, output[..]);
    ok := true;
  }

  lemma NotZero(y: real, small: Tolerance)
    requires !NearZero(y, small)
    ensures y != 0.0
  {
  }

  lemma SwapStored(was: seq<Index>, z: seq<Index>, i: Index, k: Index)
    requires |was| == 4 && z == was[i := was[k]][k := was[i]]
    ensures z == Swap(was, i, k)
  {
  }

  // --- as products of matrices

  function ToMatrix(a: Mat): Mat4.Matrix
  {
    Mat4.Matrix(
      a[0], a[1], a[2], a[3], a[4], a[5], a[6], a[7], a[8], a[9], a[10], a[11], a[12], a[13], a[14], a[15])
  }

  function ToVec(h: Mat4.HVect): Vec
  {
    [h.x, h.y, h.z, h.w]
  }

  const IDN := Mat4.Matrix(1.0, 0.0, 0.0, 0.0, 0.0, 1.0, 0.0, 0.0, 0.0, 0.0, 1.0, 0.0, 0.0, 0.0, 0.0, 1.0)

  lemma SendsIs(a: Mat, h: Mat4.HVect, g: Mat4.HVect)
    ensures Sends(a, ToVec(h), ToVec(g)) <==> Mat4.Mat4x4Pnt(ToMatrix(a), h) == g
  {
    var u, p := ToVec(h), Mat4.Mat4x4Pnt(ToMatrix(a), h);
    RowDotIs(a, 0, h);
    RowDotIs(a, 1, h);
    RowDotIs(a, 2, h);
    RowDotIs(a, 3, h);
    assert Sends(a, u, ToVec(g))
      <==> RowDot(a, 0, u) == g.x && RowDot(a, 1, u) == g.y && RowDot(a, 2, u) == g.z && RowDot(a, 3, u) == g.w by {
      hide RowDot;
      var v := ToVec(g);
      assert v[0] == g.x && v[1] == g.y && v[2] == g.z && v[3] == g.w;
    }
  }

  lemma RowDotIs(a: Mat, r: Index, h: Mat4.HVect)
    ensures RowDot(a, r, ToVec(h)) == Mat4.Row(a[4 * r], a[4 * r + 1], a[4 * r + 2], a[4 * r + 3], h.x, h.y, h.z, h.w)
  {
  }

  /** A matrix that keeps the four unit vectors is the identity. */
  lemma KeepsUnits(m: Mat4.Matrix)
    requires Mat4.Mat4x4Pnt(m, Mat4.HVect(1.0, 0.0, 0.0, 0.0)) == Mat4.HVect(1.0, 0.0, 0.0, 0.0)
    requires Mat4.Mat4x4Pnt(m, Mat4.HVect(0.0, 1.0, 0.0, 0.0)) == Mat4.HVect(0.0, 1.0, 0.0, 0.0)
    requires Mat4.Mat4x4Pnt(m, Mat4.HVect(0.0, 0.0, 1.0, 0.0)) == Mat4.HVect(0.0, 0.0, 1.0, 0.0)
    requires Mat4.Mat4x4Pnt(m, Mat4.HVect(0.0, 0.0, 0.0, 1.0)) == Mat4.HVect(0.0, 0.0, 0.0, 1.0)
    ensures m == IDN
  {
  }

  lemma UndoneOn(a: Mat, b: Mat, h: Mat4.HVect)
    requires Undo(a, b)
    ensures Mat4.Mat4x4Pnt(Mat4.Mul(ToMatrix(b), ToMatrix(a)), h) == h
  {
    hide Mat4.Mat4x4Pnt, Mat4.Mul, Sends, ToMatrix;
    var g := Mat4.Mat4x4Pnt(ToMatrix(a), h);
    SendsIs(a, h, g);
    assert Sends(a, ToVec(h), ToVec(g)) <==> Sends(b, ToVec(g), ToVec(h));
    SendsIs(b, g, h);
    Mat4.MulComposes(ToMatrix(b), ToMatrix(a), h);
  }

  lemma UndoBack(a: Mat, b: Mat)
    requires Undo(a, b)
    ensures Undo(b, a)
  {
    hide Sends;
  }

  /** So each is the inverse of the other, on either side. */
  lemma UndoIsInverse(a: Mat, b: Mat)
    requires Undo(a, b)
    ensures Mat4.Mul(ToMatrix(a), ToMatrix(b)) == IDN == Mat4.Mul(ToMatrix(b), ToMatrix(a))
  {
    UndoBack(a, b);
    LeftInverse(a, b);
    LeftInverse(b, a);
  }

  lemma LeftInverse(a: Mat, b: Mat)
    requires Undo(a, b)
    ensures Mat4.Mul(ToMatrix(b), ToMatrix(a)) == IDN
  {
    hide Mat4.Mat4x4Pnt, Mat4.Mul, Undo, ToMatrix;
    UndoneOn(a, b, Mat4.HVect(1.0, 0.0, 0.0, 0.0));
    UndoneOn(a, b, Mat4.HVect(0.0, 1.0, 0.0, 0.0));
    UndoneOn(a, b, Mat4.HVect(0.0, 0.0, 1.0, 0.0));
    UndoneOn(a, b, Mat4.HVect(0.0, 0.0, 0.0, 1.0));
    KeepsUnits(Mat4.Mul(ToMatrix(b), ToMatrix(a)));
  }
}
