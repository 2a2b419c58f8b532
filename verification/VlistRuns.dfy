/** Whole runs of the bn/vlist.h macros on several lists that share a free list. */
module VlistRuns {
  import opened BuList
  import opened ListWorld
  import opened VMath
  import opened Vlist

  /** One use of a macro on destination list `h`. */
  datatype Op =
    | Add(h: nat, pnt: Vec3, draw: int)
    | DispMat(h: nat, refPt: Vec3)
    | ModelMatrix(h: nat)
    | PointSize(h: nat, size: real)
    | LineWidth(h: nat, width: real)
    | Free(h: nat)

  /** The command that an operation appends: an ADD keeps its whole point, but for
      the codes of the commands that have less than a point. */
  function Says(op: Op): Command
    requires !op.Free?
  {
    match op
    case Add(_, _, 16) => ModelMat
    case Add(_, pnt, 13) => Scalar(13, pnt.x)
    case Add(_, pnt, 14) => Scalar(14, pnt.x)
    case Add(_, pnt, draw) => Located(draw, pnt)
    case DispMat(_, refPt) => Located(15, refPt)
    case ModelMatrix(_) => ModelMat
    case PointSize(_, size) => Scalar(13, size)
    case LineWidth(_, width) => Scalar(14, width)
  }

  /** The commands that the operations on list `h` append, in order. */
  function Said(ops: seq<Op>, h: nat): seq<Command>
  {
    if ops == [] then []
    else
      var last := ops[|ops| - 1];
      Said(ops[..|ops| - 1], h) + if last.h == h && !last.Free? then [Says(last)] else []
  }

  /** The place after the last FREE of list `h`, or the start of the run. */
  function LastFreed(ops: seq<Op>, h: nat): (at: nat)
    ensures at <= |ops| && (at == 0 || ops[at - 1] == Free(h))
    ensures forall i :: at <= i < |ops| ==> ops[i] != Free(h)
  {
    if ops == [] then 0
    else if ops[|ops| - 1] == Free(h) then |ops|
    else LastFreed(ops[..|ops| - 1], h)
  }

  /** What list `h` says after the run, if it said `base` before. */
  function Denotes(base: seq<Command>, ops: seq<Op>, h: nat): seq<Command>
  {
    var at := LastFreed(ops, h);
    (if at == 0 then base else []) + Said(ops[at..], h)
  }

  lemma DenotesLast(base: seq<Command>, ops: seq<Op>, h: nat)
    ensures ops == [] ==> Denotes(base, ops, h) == base
    ensures ops != [] ==>
      var before, op := Denotes(base, ops[..|ops| - 1], h), ops[|ops| - 1];
      Denotes(base, ops, h) == if op == Free(h) then [] else if op.h == h then before + [Says(op)] else before
  {
    if ops != [] {
      var before, op := ops[..|ops| - 1], ops[|ops| - 1];
      if op != Free(h) {
        var at := LastFreed(before, h);
        assert LastFreed(ops, h) == at;
        assert ops[at..] == before[at..] + [op];
        SaidMore(before[at..], op, h);
      } else {
        assert ops[|ops|..] == [];
      }
    }
  }

  lemma SaidMore(ops: seq<Op>, op: Op, h: nat)
    ensures Said(ops + [op], h) == Said(ops, h) + if op.h == h && !op.Free? then [Says(op)] else []
  {
    assert (ops + [op])[..|ops|] == ops;
  }

  /** One chunk more, if an ADD or SET found neither room nor a free chunk, and
      otherwise the same chunks. */
  twostate predicate Allocated(w: Pool, hd: VLink, op: Op)
    reads w, w.lists.Keys, w.owner.Keys
    requires old(w.Valid()) && w.Valid() && old(hd in w.lists)
  {
    if !op.Free? && old(NeedsChunk(w.lists[hd]) && w.lists[w.freeHd] == [])
    then exists vp :: vp in w.owner && fresh(vp) && w.owner.Keys == old(w.owner.Keys) + {vp}
    else w.owner.Keys == old(w.owner.Keys)
  }

  /** It is what a reader takes from a slot that the operation wrote, whatever the
      components were that it did not write. */
  lemma SaysMeans(op: Op, slot: Vec3)
    requires !op.Free?
    ensures Says(op) == Meaning(
      match op
      case Add(_, pnt, draw) => Entry(draw, pnt)
      case DispMat(_, refPt) => Entry(15, refPt)
      case ModelMatrix(_) => Entry(16, slot)
      case PointSize(_, size) => Entry(13, Vec3(size, slot.y, slot.z))
      case LineWidth(_, width) => Entry(14, Vec3(width, slot.y, slot.z)))
  {
  }

  /** Performs one operation with its macro. */
  method Perform(w: Pool, heads: seq<VLink>, op: Op)
    requires w.Valid() && op.h < |heads| && heads[op.h] in w.lists && heads[op.h] != w.freeHd
    modifies w, w.lists.Keys`forw, w.lists.Keys`back, w.owner.Keys`forw, w.owner.Keys`back, w.owner.Keys`data
    ensures w.Valid() && w.lists.Keys == old(w.lists.Keys)
    ensures var d, hd := old(Commands(Drawing(w))), heads[op.h];
      Commands(Drawing(w)) == d[hd := if op.Free? then [] else d[hd] + [Says(op)]]
    ensures op.Add? ==> forall x :: x in w.lists && x != w.freeHd ==>
      Drawing(w)[x] == old(Drawing(w)[x]) + if x == heads[op.h] then [Entry(op.draw, op.pnt)] else []
    ensures forall h :: h in w.lists && h != w.freeHd ==> (old(PackedOwned(w, h, false)) ==> PackedOwned(w, h, false))
    ensures old(w.owner.Keys) <= w.owner.Keys && fresh(w.owner.Keys - old(w.owner.Keys))
    ensures Allocated(w, heads[op.h], op)
  {
    hide Ring, Owned, Drawing, Commands, PackedOwned, Layout, NeedsChunk;
    ghost var d, hd := Drawing(w), heads[op.h];
    assert hd in d by { DrawingKeys(w); }
    match op
    case Add(h, pnt, draw) =>
      AddVlist(w, heads[h], pnt, draw);
      CommandsAppend(d, hd, Entry(draw, pnt));
    case DispMat(h, refPt) => SetDispMat(w, heads[h], refPt);
    case ModelMatrix(h) => SetModelMat(w, heads[h]);
    case PointSize(h, size) => SetPointSize(w, heads[h], size);
    case LineWidth(h, width) => SetLineWidth(w, heads[h], width);
    case Free(h) =>
      FreeVlist(w, heads[h]);
      CommandsFree(d, hd);
  }

  /** Every list says what was appended to it since it was last freed, where list
      `k` said `bases[k]` before the run. */
  ghost predicate Told(w: Pool, heads: seq<VLink>, bases: seq<seq<Command>>, ops: seq<Op>)
    reads w, w.lists.Keys, w.owner.Keys
    requires w.Valid() && |bases| == |heads|
    requires forall k :: 0 <= k < |heads| ==> heads[k] in w.lists && heads[k] != w.freeHd
  {
    forall k :: 0 <= k < |heads| ==> Commands(Drawing(w))[heads[k]] == Denotes(bases[k], ops, k)
  }

  lemma OneMoreChunk(before: set<VLink>, after: set<VLink>, vp: VLink)
    requires after == before + {vp} && vp !in before
    ensures |after| == |before| + 1
  {
  }

  /** One operation, and how many chunks there are then. */
  method PerformCounted(w: Pool, heads: seq<VLink>, op: Op)
    requires w.Valid() && op.h < |heads| && heads[op.h] in w.lists && heads[op.h] != w.freeHd
    modifies w, w.lists.Keys`forw, w.lists.Keys`back, w.owner.Keys`forw, w.owner.Keys`back, w.owner.Keys`data
    ensures w.Valid() && w.lists.Keys == old(w.lists.Keys)
    ensures var d, hd := old(Commands(Drawing(w))), heads[op.h];
      Commands(Drawing(w)) == d[hd := if op.Free? then [] else d[hd] + [Says(op)]]
    ensures forall h :: h in w.lists && h != w.freeHd ==> (old(PackedOwned(w, h, false)) ==> PackedOwned(w, h, false))
    ensures old(w.owner.Keys) <= w.owner.Keys && fresh(w.owner.Keys - old(w.owner.Keys))
    ensures var more := if !op.Free? && old(NeedsChunk(w.lists[heads[op.h]]) && w.lists[w.freeHd] == []) then 1 else 0;
      |w.owner.Keys| == old(|w.owner.Keys|) + more
  {
    hide Ring, Owned, Drawing, Commands, PackedOwned, NeedsChunk, Says;
    DrawingKeys(w);
    ghost var was := w.owner.Keys;
    ghost var more := !op.Free? && NeedsChunk(w.lists[heads[op.h]]) && w.lists[w.freeHd] == [];
    Perform(w, heads, op);
    if more {
      ghost var vp :| vp in w.owner && fresh(vp) && w.owner.Keys == was + {vp};
      OneMoreChunk(was, w.owner.Keys, vp);
    }
  }

  /** What one more operation makes of what the lists say. */
  lemma ToldMore(w: Pool, heads: seq<VLink>, bases: seq<seq<Command>>, ops: seq<Op>, op: Op,
                 d: map<VLink, seq<Command>>)
    requires w.Valid() && Distinct(heads) && |bases| == |heads| && op.h < |heads|
    requires forall k :: 0 <= k < |heads| ==> heads[k] in w.lists && heads[k] != w.freeHd && heads[k] in d
    requires forall k :: 0 <= k < |heads| ==> d[heads[k]] == Denotes(bases[k], ops, k)
    requires Commands(Drawing(w)) == d[heads[op.h] := if op.Free? then [] else d[heads[op.h]] + [Says(op)]]
    ensures Told(w, heads, bases, ops + [op])
  {
    hide Ring, Owned, Drawing, Commands, Denotes, Says;
    assert (ops + [op])[..|ops|] == ops;
    forall k | 0 <= k < |heads|
      ensures Commands(Drawing(w))[heads[k]] == Denotes(bases[k], ops + [op], k)
    {
      DenotesLast(bases[k], ops + [op], k);
    }
  }

  /** One operation of a run. */
  method RunStep(w: Pool, heads: seq<VLink>, ghost bases: seq<seq<Command>>, ghost ops: seq<Op>, op: Op)
    requires w.Valid() && Distinct(heads) && |bases| == |heads| && op.h < |heads|
    requires forall k :: 0 <= k < |heads| ==> heads[k] in w.lists && heads[k] != w.freeHd
    requires Told(w, heads, bases, ops)
    modifies w, w.lists.Keys`forw, w.lists.Keys`back, w.owner.Keys`forw, w.owner.Keys`back, w.owner.Keys`data
    ensures w.Valid() && w.lists.Keys == old(w.lists.Keys)
    ensures Told(w, heads, bases, ops + [op])
    ensures forall h :: h in w.lists && h != w.freeHd ==> (old(PackedOwned(w, h, false)) ==> PackedOwned(w, h, false))
    ensures old(w.owner.Keys) <= w.owner.Keys && fresh(w.owner.Keys - old(w.owner.Keys))
    ensures var more := if !op.Free? && old(NeedsChunk(w.lists[heads[op.h]]) && w.lists[w.freeHd] == []) then 1 else 0;
      |w.owner.Keys| == old(|w.owner.Keys|) + more
  {
    hide Ring, Owned, Drawing, Commands, PackedOwned, Denotes, NeedsChunk, Says;
    DrawingKeys(w);
    ghost var d := Commands(Drawing(w));
    PerformCounted(w, heads, op);
    ToldMore(w, heads, bases, ops, op, d);
  }

  lemma NothingTold(w: Pool, heads: seq<VLink>, bases: seq<seq<Command>>)
    requires w.Valid() && |bases| == |heads|
    requires forall k :: 0 <= k < |heads| ==> heads[k] in w.lists && heads[k] != w.freeHd
    requires forall k :: 0 <= k < |heads| ==> Commands(Drawing(w))[heads[k]] == bases[k]
    ensures Told(w, heads, bases, [])
  {
    hide Drawing, Commands, Denotes;
    forall k | 0 <= k < |heads|
      ensures Denotes(bases[k], [], k) == bases[k]
    {
      DenotesLast(bases[k], [], k);
    }
  }

  /** Performs the operations in turn. Every list says what was appended to it
      since it was last freed, whatever the recycled chunks held; every new chunk
      is on one of the lists, and no chunk is ever lost. */
  method Run(w: Pool, heads: seq<VLink>, ghost bases: seq<seq<Command>>, ops: seq<Op>)
    requires w.Valid() && Distinct(heads) && |bases| == |heads|
    requires forall k :: 0 <= k < |heads| ==> heads[k] in w.lists && heads[k] != w.freeHd
    requires forall k :: 0 <= k < |heads| ==> Commands(Drawing(w))[heads[k]] == bases[k]
    requires forall i :: 0 <= i < |ops| ==> ops[i].h < |heads|
    modifies w, w.lists.Keys`forw, w.lists.Keys`back, w.owner.Keys`forw, w.owner.Keys`back, w.owner.Keys`data
    decreases |ops|
    ensures w.Valid() && w.lists.Keys == old(w.lists.Keys)
    ensures Told(w, heads, bases, ops)
    ensures forall k :: 0 <= k < |heads| ==> Commands(Drawing(w))[heads[k]] == Denotes(bases[k], ops, k)
    ensures forall h :: h in w.lists && h != w.freeHd ==> (old(PackedOwned(w, h, false)) ==> PackedOwned(w, h, false))
    ensures old(w.owner.Keys) <= w.owner.Keys && fresh(w.owner.Keys - old(w.owner.Keys))
  {
    hide Ring, Owned, Drawing, Commands, PackedOwned, Denotes;
    if ops == [] {
      NothingTold(w, heads, bases);
    } else {
      var before, last := ops[..|ops| - 1], ops[|ops| - 1];
      assert before + [last] == ops;
      Run(w, heads, bases, before);
      RunStep(w, heads, bases, before, last);
    }
  }

  // --- how many chunks a run needs

  /** The chunks that the first `n` lists need for what they say after the run. */
  function Chunks(bases: seq<seq<Command>>, ops: seq<Op>, n: nat): nat
    requires n <= |bases|
  {
    if n == 0 then 0 else Chunks(bases, ops, n - 1) + ChunksFor(|Denotes(bases[n - 1], ops, n - 1)|)
  }

  /** The most that were ever needed at once. */
  function Peak(bases: seq<seq<Command>>, ops: seq<Op>): nat
  {
    var now := Chunks(bases, ops, |bases|);
    if ops == [] then now
    else
      var before := Peak(bases, ops[..|ops| - 1]);
      if before < now then now else before
  }

  /** It is needed at some point of the run, and never more. */
  lemma {:induction false} PeakIsLargest(bases: seq<seq<Command>>, ops: seq<Op>)
    ensures forall n :: 0 <= n <= |ops| ==> Chunks(bases, ops[..n], |bases|) <= Peak(bases, ops)
    ensures exists n :: 0 <= n <= |ops| && Chunks(bases, ops[..n], |bases|) == Peak(bases, ops)
  {
    hide Chunks;
    assert ops[..|ops|] == ops;
    if ops != [] {
      var before := ops[..|ops| - 1];
      PeakIsLargest(bases, before);
      assert forall n :: 0 <= n <= |before| ==> before[..n] == ops[..n];
      var m :| 0 <= m <= |before| && Chunks(bases, before[..m], |bases|) == Peak(bases, before);
      assert Chunks(bases, ops[..m], |bases|) == Peak(bases, before);
      assert Chunks(bases, ops[..|ops|], |bases|) == Chunks(bases, ops, |bases|);
    }
  }

  function Max(a: nat, b: nat): nat
  {
    if a < b then b else a
  }

  /** One more operation: a FREE needs no more chunks, and an ADD or SET one more
      exactly if all the chunks of its list are full. */
  lemma {:induction false} ChunksStep(bases: seq<seq<Command>>, ops: seq<Op>, op: Op, n: nat)
    requires n <= |bases| && op.h < |bases|
    ensures op.Free? ==> Chunks(bases, ops + [op], n) <= Chunks(bases, ops, n)
    ensures !op.Free? ==>
      var more := if op.h < n && |Denotes(bases[op.h], ops, op.h)| % BN_VLIST_CHUNK == 0 then 1 else 0;
      Chunks(bases, ops + [op], n) == Chunks(bases, ops, n) + more
  {
    hide Denotes, ChunksFor;
    if n > 0 {
      ChunksStep(bases, ops, op, n - 1);
      assert (ops + [op])[..|ops|] == ops;
      DenotesLast(bases[n - 1], ops + [op], n - 1);
      ChunksForMore(|Denotes(bases[n - 1], ops, n - 1)|);
    }
  }

  lemma ChunksForMore(n: nat)
    ensures ChunksFor(0) == 0
    ensures ChunksFor(n + 1) == ChunksFor(n) + if n % BN_VLIST_CHUNK == 0 then 1 else 0
  {
  }

  /** A packed list has room exactly if its commands do not fill its chunks. */
  lemma NeedsIff(w: Pool, h: VLink)
    requires w.Valid() && h in w.lists && h != w.freeHd && PackedOwned(w, h, false)
    ensures NeedsChunk(w.lists[h]) <==> |Commands(Drawing(w))[h]| % BN_VLIST_CHUNK == 0
    ensures |w.lists[h]| == ChunksFor(|Commands(Drawing(w))[h]|)
  {
    var s := w.lists[h];
    PackedIsShortest(s, s);
    if s != [] {
      VisitBounded(s[..|s| - 1]);
    }
  }

  lemma {:induction false} ChunksNow(w: Pool, heads: seq<VLink>, bases: seq<seq<Command>>, ops: seq<Op>, n: nat)
    requires w.Valid() && |bases| == |heads| && n <= |heads|
    requires forall k :: 0 <= k < |heads| ==> heads[k] in w.lists && heads[k] != w.freeHd
    requires forall k :: 0 <= k < |heads| ==> PackedOwned(w, heads[k], false)
    requires Told(w, heads, bases, ops)
    ensures Total(w.lists, heads[..n]) == Chunks(bases, ops, n)
  {
    hide Drawing, Commands, PackedOwned, Denotes, Ring, Owned;
    if n > 0 {
      ChunksNow(w, heads, bases, ops, n - 1);
      NeedsIff(w, heads[n - 1]);
      assert heads[..n][..n - 1] == heads[..n - 1];
    }
  }

  /** Every list is packed, and there are no others. */
  ghost predicate AllPacked(w: Pool, heads: seq<VLink>)
    reads w, w.lists.Keys, w.owner.Keys
    requires w.Valid()
  {
    && Distinct(heads) && w.freeHd !in heads
    && w.lists.Keys == (set h | h in heads) + {w.freeHd}
    && forall k :: 0 <= k < |heads| ==> PackedOwned(w, heads[k], false)
  }

  /** The chunks of all lists and the free ones are all there are. */
  lemma Counted(w: Pool, heads: seq<VLink>, bases: seq<seq<Command>>, ops: seq<Op>)
    requires w.Valid() && |bases| == |heads| && AllPacked(w, heads)
    requires Told(w, heads, bases, ops)
    ensures |w.owner.Keys| == |w.lists[w.freeHd]| + Chunks(bases, ops, |heads|)
  {
    hide Told, PackedOwned, Chunks, Ring, Owned;
    ChunksNow(w, heads, bases, ops, |heads|);
    var all := heads + [w.freeHd];
    assert heads[..|heads|] == heads && all[..|heads|] == heads;
    AllDistinct(w);
    Conserved(w.lists, w.owner, all);
    assert |w.owner| == |w.owner.Keys|;
  }

  lemma AllDistinct(w: Pool)
    requires w.Valid()
    ensures forall h :: h in w.lists ==> Distinct(w.lists[h])
  {
    forall h | h in w.lists
      ensures Distinct(w.lists[h])
    {
      w.Known(h);
    }
  }

  /** The count of chunks follows the peak of what is needed. */
  lemma PeakStep(bases: seq<seq<Command>>, ops: seq<Op>, op: Op, start: nat, all: nat, free: nat, more: nat)
    requires op.h < |bases|
    requires all == Max(start, Peak(bases, ops)) == free + Chunks(bases, ops, |bases|)
    requires more == all
      + if !op.Free? && free == 0 && |Denotes(bases[op.h], ops, op.h)| % BN_VLIST_CHUNK == 0 then 1 else 0
    ensures more == Max(start, Peak(bases, ops + [op]))
  {
    hide Denotes, Chunks;
    ChunksStep(bases, ops, op, |bases|);
    assert (ops + [op])[..|ops|] == ops;
  }

  /** One operation of a run on packed lists. */
  method PackedStep(w: Pool, heads: seq<VLink>, ghost bases: seq<seq<Command>>, ghost ops: seq<Op>, op: Op,
                    ghost start: nat)
    requires w.Valid() && |bases| == |heads| && op.h < |heads| && AllPacked(w, heads)
    requires Told(w, heads, bases, ops) && |w.owner.Keys| == Max(start, Peak(bases, ops))
    modifies w, w.lists.Keys`forw, w.lists.Keys`back, w.owner.Keys`forw, w.owner.Keys`back, w.owner.Keys`data
    ensures w.Valid() && AllPacked(w, heads) && w.lists.Keys == old(w.lists.Keys)
    ensures Told(w, heads, bases, ops + [op]) && |w.owner.Keys| == Max(start, Peak(bases, ops + [op]))
    ensures fresh(w.owner.Keys - old(w.owner.Keys))
  {
    hide Ring, Owned, Drawing, Commands, PackedOwned, Denotes, NeedsChunk, Peak, Chunks;
    ghost var hd, was, free := heads[op.h], w.owner.Keys, w.lists[w.freeHd];
    NeedsIff(w, hd);
    Counted(w, heads, bases, ops);
    RunStep(w, heads, bases, ops, op);
    PeakStep(bases, ops, op, start, |was|, |free|, |w.owner.Keys|);
  }

  /** Performs the operations on packed lists that, with the free list, have all the
      chunks. A chunk is allocated only when neither room nor a free chunk is left,
      so the number of chunks in the end is the one at the start or the most that
      the lists ever needed at once, whichever is more. */
  method RunPacked(w: Pool, heads: seq<VLink>, ghost bases: seq<seq<Command>>, ops: seq<Op>)
    requires w.Valid() && |bases| == |heads| && AllPacked(w, heads)
    requires forall k :: 0 <= k < |heads| ==> Commands(Drawing(w))[heads[k]] == bases[k]
    requires forall i :: 0 <= i < |ops| ==> ops[i].h < |heads|
    modifies w, w.lists.Keys`forw, w.lists.Keys`back, w.owner.Keys`forw, w.owner.Keys`back, w.owner.Keys`data
    decreases |ops|
    ensures w.Valid() && AllPacked(w, heads) && w.lists.Keys == old(w.lists.Keys)
    ensures Told(w, heads, bases, ops)
    ensures forall k :: 0 <= k < |heads| ==> Commands(Drawing(w))[heads[k]] == Denotes(bases[k], ops, k)
    ensures var start, peak := old(|w.owner.Keys|), Peak(bases, ops);
      |w.owner.Keys| == if start < peak then peak else start
    ensures fresh(w.owner.Keys - old(w.owner.Keys))
  {
    hide Ring, Owned, Drawing, Commands, PackedOwned, Denotes, Chunks;
    if ops == [] {
      NothingTold(w, heads, bases);
      Counted(w, heads, bases, []);
    } else {
      hide Peak;
      var before, last := ops[..|ops| - 1], ops[|ops| - 1];
      assert before + [last] == ops;
      RunPacked(w, heads, bases, before);
      PackedStep(w, heads, bases, before, last, old(|w.owner.Keys|));
    }
  }
}
