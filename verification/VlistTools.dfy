/** The loops over vector lists of src/libbn/vlist.c. */
module VlistTools {
  import opened BuList
  import opened ListWorld
  import opened VMath
  import opened Vlist

  lemma VisitNext(s: seq<VLink>, k: nat)
    requires k < |s|
    ensures Visit(s[..k + 1]) == Visit(s[..k]) + Used(s[k].data)
  {
    assert s[..k + 1] == s[..k] + [s[k]];
    VisitMore(s[..k], s[k]);
  }

  /** Every command is on the list, and is counted once: `bn_vlist_cmd_cnt`. A null
      pointer counts as no list. */
  method CmdCnt(w: Pool, h: Link?<Chunk>) returns (count: nat)
    requires w.Valid() && (h != null ==> h in w.lists)
    ensures count == if h == null then 0 else |Visit(w.lists[h])|
  {
    if h == null {
      return 0;
    }
    ghost var s, k := w.lists[h], 0;
    w.Known(h);
    count := 0;
    var vp := h.forw;
    while vp != h
      invariant 0 <= k <= |s| && vp == At(h, s, k)
      invariant count == |Visit(s[..k])|
      decreases |s| - k
    {
      assert Joined(h, s, k);
      VisitNext(s, k);
      count := count + vp.data.nused;
      vp := vp.forw;
      k := k + 1;
    }
    assert s[..k] == s;
  }

  lemma TakeNext<T>(a: seq<T>, s: seq<T>, i: nat)
    requires i < |s|
    ensures a + s[..i + 1] == a + s[..i] + [s[i]]
  {
  }

  /** `BN_ADD_VLIST`, and what it means for another list. */
  method AddBeside(w: Pool, dest: VLink, pnt: Vec3, draw: int, ghost src: VLink)
    requires w.Valid() && dest in w.lists && src in w.lists
    requires dest != w.freeHd && src != w.freeHd
    modifies w, w.lists.Keys`forw, w.lists.Keys`back, w.owner.Keys`forw, w.owner.Keys`back, w.owner.Keys`data
    ensures w.Valid() && w.lists.Keys == old(w.lists.Keys)
    ensures Drawing(w) == old(Drawing(w))[dest := old(Drawing(w)[dest]) + [Entry(draw, pnt)]]
    ensures dest != src ==> Layout(w, src) == old(Layout(w, src))
    ensures old(PackedOwned(w, dest, false)) ==> PackedOwned(w, dest, false)
    ensures fresh(w.owner.Keys - old(w.owner.Keys))
  {
    hide Ring, Owned, Drawing, PackedOwned, Layout, NeedsChunk;
    AddVlist(w, dest, pnt, draw);
  }

  /** The inner loop of `bn_vlist_copy`: the entries of one chunk are added. */
  method CopyChunk(w: Pool, dest: VLink, c: Chunk, ghost src: VLink)
    requires w.Valid() && dest in w.lists && src in w.lists
    requires dest != src && dest != w.freeHd && src != w.freeHd
    modifies w, w.lists.Keys`forw, w.lists.Keys`back, w.owner.Keys`forw, w.owner.Keys`back, w.owner.Keys`data
    ensures w.Valid() && w.lists.Keys == old(w.lists.Keys)
    ensures Drawing(w) == old(Drawing(w))[dest := old(Drawing(w)[dest]) + Used(c)]
    ensures Layout(w, src) == old(Layout(w, src))
    ensures old(PackedOwned(w, dest, false)) ==> PackedOwned(w, dest, false)
    ensures fresh(w.owner.Keys - old(w.owner.Keys))
  {
    hide Ring, Owned, Drawing, PackedOwned, Layout, NeedsChunk;
    DrawingKeys(w);
    ghost var d, es := Drawing(w), Used(c);
    assert d[dest] + es[..0] == d[dest];
    ghost var done := d[dest];
    for i := 0 to c.nused
      invariant w.Valid() && w.lists.Keys == old(w.lists.Keys)
      invariant done == d[dest] + es[..i] && Drawing(w) == d[dest := done]
      invariant Layout(w, src) == old(Layout(w, src))
      invariant old(PackedOwned(w, dest, false)) ==> PackedOwned(w, dest, false)
      invariant fresh(w.owner.Keys - old(w.owner.Keys))
    {
      TakeNext(d[dest], es, i);
      Overwrite(d, dest, done, done + [es[i]]);
      done := done + [es[i]];
      AddBeside(w, dest, c.pt[i], c.cmd[i], src);
    }
    assert es[..c.nused] == es;
  }

  ghost function Visited(layout: seq<(VLink, Chunk)>): seq<Entry>
  {
    if layout == [] then [] else Visited(layout[..|layout| - 1]) + Used(layout[|layout| - 1].1)
  }

  /** The snapshot of a list says which links are on it and what they hold. */
  lemma {:induction false} SnapshotVisited(s: seq<VLink>)
    ensures Visited(Snapshot(s)) == Visit(s)
  {
    if s != [] {
      SnapshotVisited(s[..|s| - 1]);
      assert Snapshot(s)[..|s| - 1] == Snapshot(s[..|s| - 1]);
    }
  }

  lemma Overwrite<K, V>(m: map<K, V>, k: K, a: V, b: V)
    ensures m[k := a][k := b] == m[k := b]
  {
  }

  lemma VisitedNone(a: seq<Entry>, layout: seq<(VLink, Chunk)>)
    ensures a + Visited(layout[..0]) == a
  {
  }

  lemma VisitedNext(a: seq<Entry>, layout: seq<(VLink, Chunk)>, k: nat)
    requires k < |layout|
    ensures a + Visited(layout[..k + 1]) == a + Visited(layout[..k]) + Used(layout[k].1)
  {
    assert layout[..k + 1][..k] == layout[..k];
  }

  lemma EmptyPacked(w: Pool, h: VLink)
    requires w.Valid() && h in w.lists && h != w.freeHd && w.lists[h] == []
    ensures PackedOwned(w, h, false) && Drawing(w)[h] == []
  {
  }

  /** A packed list has no more chunks than any list that says as much. */
  lemma Densest(w: Pool, h: VLink, g: VLink)
    requires w.Valid() && h in w.lists && g in w.lists && h != w.freeHd && g != w.freeHd
    requires PackedOwned(w, h, false) && |Drawing(w)[h]| == |Drawing(w)[g]|
    ensures |w.lists[h]| == ChunksFor(|Drawing(w)[h]|) <= |w.lists[g]|
  {
    PackedIsShortest(w.lists[h], w.lists[g]);
  }

  /** Link `k` of a list with this layout, where the head ends the list. */
  ghost function Place(h: VLink, layout: seq<(VLink, Chunk)>, k: int): VLink
  {
    if 0 <= k < |layout| then layout[k].0 else h
  }

  /** The layout of a list determines the walk along its links, and what it tells. */
  lemma Walk(w: Pool, h: VLink, layout: seq<(VLink, Chunk)>)
    requires w.Valid() && h in w.lists && Layout(w, h) == layout
    ensures h.forw == Place(h, layout, 0)
    ensures forall k :: 0 <= k < |layout| ==>
      layout[k].0 != h && layout[k].0 in w.owner && layout[k].0.data == layout[k].1
      && layout[k].0.forw == Place(h, layout, k + 1)
    ensures h != w.freeHd ==> h in Drawing(w) && Drawing(w)[h] == Visited(layout)
  {
    hide Ring, Owned, Visit, Visited, Snapshot;
    w.Forward(h);
    SnapshotVisited(w.lists[h]);
  }

  /** One step of that walk. */
  lemma Here(w: Pool, h: VLink, layout: seq<(VLink, Chunk)>, k: nat)
    requires w.Valid() && h in w.lists && Layout(w, h) == layout && k <= |layout|
    ensures var vp := Place(h, layout, k);
      && (vp == h <==> k == |layout|)
      && (k < |layout| ==> vp in w.owner && vp.data == layout[k].1 && vp.forw == Place(h, layout, k + 1))
  {
    hide Ring, Owned, Visited, Drawing, Layout;
    Walk(w, h, layout);
  }

  /** The outer loop of `bn_vlist_copy`. */
  method CopyAll(w: Pool, dest: VLink, src: VLink)
    requires w.Valid() && dest in w.lists && src in w.lists
    requires dest != src && dest != w.freeHd && src != w.freeHd
    modifies w, w.lists.Keys`forw, w.lists.Keys`back, w.owner.Keys`forw, w.owner.Keys`back, w.owner.Keys`data
    ensures w.Valid() && w.lists.Keys == old(w.lists.Keys)
    ensures Drawing(w) == old(Drawing(w))[dest := old(Drawing(w)[dest]) + old(Drawing(w)[src])]
    ensures Layout(w, src) == old(Layout(w, src))
    ensures old(PackedOwned(w, dest, false)) ==> PackedOwned(w, dest, false)
  {
    hide Ring, Owned, Drawing, PackedOwned, Layout, NeedsChunk, Used, Visited, Place;
    DrawingKeys(w);
    ghost var d, layout, k := Drawing(w), Layout(w, src), 0;
    ghost var done := d[dest];
    Walk(w, src, layout);
    Here(w, src, layout, 0);
    VisitedNone(d[dest], layout);
    var vp := src.forw;
    while vp != src
      invariant w.Valid() && w.lists.Keys == old(w.lists.Keys)
      invariant k <= |layout| && vp == Place(src, layout, k) && (vp == src <==> k == |layout|)
      invariant done == d[dest] + Visited(layout[..k]) && Drawing(w) == d[dest := done]
      invariant Layout(w, src) == layout
      invariant old(PackedOwned(w, dest, false)) ==> PackedOwned(w, dest, false)
      invariant fresh(w.owner.Keys - old(w.owner.Keys))
      decreases |layout| - k
    {
      Here(w, src, layout, k);
      VisitedNext(d[dest], layout, k);
      Overwrite(d, dest, done, done + Used(vp.data));
      done := done + Used(vp.data);
      CopyChunk(w, dest, vp.data, src);
      Here(w, src, layout, k);
      vp := vp.forw;
      k := k + 1;
      Here(w, src, layout, k);
    }
    assert layout[..k] == layout;
  }

  /** `bn_vlist_copy`: the entries of `src` are added to `dest`; `src` keeps its
      links and all that they hold, and no other list changes. A copy onto an
      empty list is packed, so it never has more chunks than its source. */
  method Copy(w: Pool, dest: VLink, src: VLink)
    requires w.Valid() && dest in w.lists && src in w.lists
    requires dest != src && dest != w.freeHd && src != w.freeHd
    modifies w, w.lists.Keys`forw, w.lists.Keys`back, w.owner.Keys`forw, w.owner.Keys`back, w.owner.Keys`data
    ensures w.Valid() && w.lists.Keys == old(w.lists.Keys)
    ensures Drawing(w) == old(Drawing(w))[dest := old(Drawing(w)[dest]) + old(Drawing(w)[src])]
    ensures Layout(w, src) == old(Layout(w, src))
    ensures old(w.lists[dest]) == [] ==> |w.lists[dest]| == ChunksFor(|old(Drawing(w)[src])|) <= |w.lists[src]|
  {
    hide Ring, Owned, Drawing, PackedOwned, Layout, NeedsChunk;
    DrawingKeys(w);
    ghost var d := Drawing(w);
    if w.lists[dest] == [] {
      EmptyPacked(w, dest);
    }
    CopyAll(w, dest, src);
    if old(w.lists[dest]) == [] {
      assert d[dest] + d[src] == d[src];
      Densest(w, dest, src);
    }
  }
}
