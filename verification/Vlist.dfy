/** The chunked vector lists of bn/vlist.h over a shared free list. */
module Vlist {
  import opened BuList
  import opened ListWorld
  import opened VMath

  const BN_VLIST_CHUNK := 35

  const BN_VLIST_POINT_SIZE := 13
  const BN_VLIST_LINE_WIDTH := 14
  const BN_VLIST_DISPLAY_MAT := 15
  const BN_VLIST_MODEL_MAT := 16

  /** `struct bn_vlist`, without the link that threads it. The slots at and
      after `nused` hold whatever the chunk held before it was recycled. */
  datatype ChunkData = Chunk(nused: nat, cmd: seq<int>, pt: seq<Vec3>)

  const NEW_CHUNK := Chunk(0, seq(BN_VLIST_CHUNK, _ => 0), seq(BN_VLIST_CHUNK, _ => Vec3(0.0, 0.0, 0.0)))

  type Chunk = c: ChunkData | c.nused <= |c.cmd| == |c.pt| == BN_VLIST_CHUNK witness NEW_CHUNK

  type VLink = Link<Chunk>
  type Pool = World<Chunk>

  /** One used slot of a chunk. */
  datatype Entry = Entry(cmd: int, pt: Vec3)

  /** What a reader takes from a slot: `MODEL_MAT` has no operand, the two sizes
      have a scalar in component 0, and every other command has a point. */
  datatype Command = ModelMat | Scalar(cmd: int, value: real) | Located(cmd: int, pt: Vec3)

  function Meaning(e: Entry): Command
  {
    if e.cmd == BN_VLIST_MODEL_MAT then ModelMat
    else if e.cmd == BN_VLIST_POINT_SIZE || e.cmd == BN_VLIST_LINE_WIDTH then Scalar(e.cmd, e.pt.x)
    else Located(e.cmd, e.pt)
  }

  /** Two slots mean the same exactly if they have one command, and what it takes
      from the point agrees: all of it, component 0 or nothing. */
  lemma MeaningIff(e: Entry, f: Entry)
    ensures Meaning(e) == Meaning(f) <==>
      e.cmd == f.cmd && (e.cmd !in {13, 14, 16} ==> e.pt == f.pt) && (e.cmd != 16 ==> e.pt.x == f.pt.x)
  {
  }

  function Meanings(es: seq<Entry>): (r: seq<Command>)
    ensures |r| == |es|
  {
    seq(|es|, i requires 0 <= i < |es| => Meaning(es[i]))
  }

  lemma MeaningsAppend(a: seq<Entry>, b: seq<Entry>)
    ensures Meanings(a + b) == Meanings(a) + Meanings(b)
  {
  }

  /** The used slots of a chunk. */
  function Used(c: Chunk): (es: seq<Entry>)
    ensures |es| == c.nused
  {
    seq(c.nused, i requires 0 <= i < c.nused => Entry(c.cmd[i], c.pt[i]))
  }

  /** Slot `nused` with these contents, and counted. */
  function WriteSlot(c: Chunk, cmd: int, pt: Vec3): (d: Chunk)
    requires c.nused < BN_VLIST_CHUNK
    ensures Used(d) == Used(c) + [Entry(cmd, pt)]
  {
    Chunk(c.nused + 1, c.cmd[c.nused := cmd], c.pt[c.nused := pt])
  }

  /** The entries that the visit loop of bn/vlist.h meets, in order. */
  ghost function Visit(s: seq<VLink>): seq<Entry>
    reads s`data
  {
    if s == [] then [] else Visit(s[..|s| - 1]) + Used(s[|s| - 1].data)
  }

  lemma VisitNone()
    ensures Visit([]) == [] && Filled([])
  {
  }

  lemma VisitMore(s: seq<VLink>, p: VLink)
    ensures Visit(s + [p]) == Visit(s) + Used(p.data)
  {
  }

  /** Every chunk but the last is full. */
  ghost predicate Filled(s: seq<VLink>)
    reads s`data
  {
    forall i :: 0 <= i < |s| - 1 ==> s[i].data.nused == BN_VLIST_CHUNK
  }

  ghost predicate AllFull(s: seq<VLink>)
    reads s`data
  {
    forall i :: 0 <= i < |s| ==> s[i].data.nused == BN_VLIST_CHUNK
  }

  lemma FilledIff(s: seq<VLink>)
    requires s != []
    ensures Filled(s) <==> AllFull(s[..|s| - 1])
  {
  }

  /** Every chunk but the last is full, and the last is not empty. */
  ghost predicate Packed(s: seq<VLink>)
    reads s`data
  {
    Filled(s) && (s != [] ==> 0 < s[|s| - 1].data.nused)
  }

  function ChunksFor(n: nat): nat
  {
    (n + BN_VLIST_CHUNK - 1) / BN_VLIST_CHUNK
  }

  lemma {:induction false} VisitBounded(s: seq<VLink>)
    ensures |Visit(s)| <= BN_VLIST_CHUNK * |s|
    ensures (forall i :: 0 <= i < |s| ==> s[i].data.nused == BN_VLIST_CHUNK) ==> |Visit(s)| == BN_VLIST_CHUNK * |s|
  {
    if s != [] {
      VisitBounded(s[..|s| - 1]);
    }
  }

  /** A packed list is as short as any list of as many entries can be. */
  lemma PackedIsShortest(s: seq<VLink>, t: seq<VLink>)
    requires Packed(s) && |Visit(s)| == |Visit(t)|
    ensures |s| == ChunksFor(|Visit(s)|) <= |t|
  {
    VisitBounded(t);
    if s != [] {
      VisitBounded(s[..|s| - 1]);
    }
  }

  /** What every list but the free list holds. */
  ghost function Drawing(w: Pool): map<VLink, seq<Entry>>
    reads w`lists, w.owner.Keys`data, w`owner
    requires Owned(w.lists, w.owner)
  {
    map h | h in w.lists && h != w.freeHd :: VisitOwned(w, h)
  }

  ghost function VisitOwned(w: Pool, h: VLink): seq<Entry>
    reads w`lists, w.owner.Keys`data, w`owner
    requires Owned(w.lists, w.owner) && h in w.lists
  {
    Apart(w.lists, w.owner, h, h);
    Visit(w.lists[h])
  }

  ghost function Snapshot(s: seq<VLink>): (r: seq<(VLink, Chunk)>)
    reads s`data
    ensures |r| == |s|
    ensures forall i :: 0 <= i < |s| ==> r[i] == (s[i], s[i].data)
  {
    if s == [] then [] else Snapshot(s[..|s| - 1]) + [(s[|s| - 1], s[|s| - 1].data)]
  }

  /** The links on a list and all that their chunks hold, used or not. */
  ghost function Layout(w: Pool, h: VLink): seq<(VLink, Chunk)>
    reads w`lists, w`owner, w.owner.Keys`data
    requires Owned(w.lists, w.owner) && h in w.lists
  {
    Apart(w.lists, w.owner, h, h);
    Snapshot(w.lists[h])
  }

  /** The list is packed, except that the last chunk of an open list may be empty. */
  ghost predicate PackedOwned(w: Pool, h: VLink, open: bool)
    reads w`lists, w.owner.Keys`data, w`owner
    requires Owned(w.lists, w.owner) && h in w.lists
  {
    Apart(w.lists, w.owner, h, h);
    if open then Filled(w.lists[h]) else Packed(w.lists[h])
  }

  /** `BN_GET_VLIST`: an empty chunk, recycled if the free list has one. */
  method GetVlist(w: Pool) returns (p: VLink)
    requires w.Valid()
    modifies w, w.freeHd`forw, w.freeHd`back, w.owner.Keys`forw, w.owner.Keys`back, w.owner.Keys`data
    ensures w.Valid() && w.Loose(p) && p.data.nused == 0
    ensures old(w.lists[w.freeHd]) == [] ==>
      fresh(p) && w.lists == old(w.lists) && w.owner == old(w.owner)
    ensures var free := old(w.lists[w.freeHd]);
      free != [] ==>
      p == free[0] && w.lists == old(w.lists)[w.freeHd := free[1..]] && w.owner == old(w.owner) - {p}
    ensures forall n :: n in old(w.owner) && n != p ==> n.data == old(n.data)
  {
    hide Ring, Owned;
    var link := w.Recycle();
    if link == null {
      p := new Link(NEW_CHUNK);
    } else {
      p := link;
    }
    p.data := p.data.(nused := 0);
  }

  /** The chunk that the next command goes to is missing or full. */
  ghost predicate NeedsChunk(s: seq<VLink>)
    reads s`data
  {
    s == [] || s[|s| - 1].data.nused >= BN_VLIST_CHUNK
  }

  /** The chunk-adding branch of the ADD and SET macros: a new, empty, last chunk. */
  method AddChunk(w: Pool, dest: VLink) returns (vp: VLink)
    requires w.Valid() && dest in w.lists && dest != w.freeHd
    modifies w, w.lists.Keys`forw, w.lists.Keys`back, w.owner.Keys`forw, w.owner.Keys`back, w.owner.Keys`data
    ensures w.Valid() && w.lists.Keys == old(w.lists.Keys)
    ensures forall h :: h in w.lists && h != w.freeHd ==> VisitOwned(w, h) == old(VisitOwned(w, h))
    ensures forall h :: h in w.lists && h != w.freeHd && h != dest ==> w.lists[h] == old(w.lists[h])
    ensures forall n :: n in old(w.owner) && n != vp ==> n.data == old(n.data)
    ensures forall h :: h in w.lists && h != w.freeHd ==> vp !in old(w.lists[h])
    ensures vp.data.nused == 0 && w.lists[dest] == old(w.lists[dest]) + [vp]
    ensures vp in w.owner
    ensures if old(w.lists[w.freeHd]) == [] then fresh(vp) && w.owner == old(w.owner)[vp := dest]
            else vp == old(w.lists[w.freeHd][0]) && w.owner.Keys == old(w.owner.Keys)
  {
    hide Ring, Owned, Visit, Used;
    w.Known(dest);
    w.Known(w.freeHd);
    ghost var was, owned := w.lists, w.owner;
    vp := GetVlist(w);
    w.PutLast(dest, vp);
    forall h | h in was && h != w.freeHd
      ensures vp !in was[h] && VisitOwned(w, h) == old(VisitOwned(w, h))
    {
      Apart(was, owned, h, w.freeHd);
      assert Visit(was[h]) == old(Visit(was[h]));
      if h == dest {
        VisitMore(was[h], vp);
      }
    }
  }

  /** The common start of the ADD and SET macros: a last chunk with room. */
  method NextSlot(w: Pool, dest: VLink) returns (vp: VLink)
    requires w.Valid() && dest in w.lists && dest != w.freeHd
    modifies w, w.lists.Keys`forw, w.lists.Keys`back, w.owner.Keys`forw, w.owner.Keys`back, w.owner.Keys`data
    ensures w.Valid() && w.lists.Keys == old(w.lists.Keys)
    ensures Drawing(w) == old(Drawing(w))
    ensures w.lists[dest] != [] && vp == w.lists[dest][|w.lists[dest]| - 1] && vp.data.nused < BN_VLIST_CHUNK
    ensures vp in w.owner
    ensures forall h :: h in w.lists && h != w.freeHd ==>
      (old(PackedOwned(w, h, false)) ==> PackedOwned(w, h, h == dest))
    ensures forall h :: h in w.lists && h != w.freeHd && h != dest ==> Layout(w, h) == old(Layout(w, h))
    ensures if old(NeedsChunk(w.lists[dest]) && w.lists[w.freeHd] == [])
            then fresh(vp) && w.owner.Keys == old(w.owner.Keys) + {vp}
            else w.owner.Keys == old(w.owner.Keys)
  {
    hide Ring, Owned, VisitOwned, Snapshot;
    w.Known(dest);
    vp := dest.back;
    if vp == dest || vp.data.nused >= BN_VLIST_CHUNK {
      ghost var was, owned := w.lists, w.owner;
      vp := AddChunk(w, dest);
      forall h | h in was && h != w.freeHd
        ensures old(PackedOwned(w, h, false)) ==> PackedOwned(w, h, h == dest)
        ensures h != dest ==> Layout(w, h) == old(Layout(w, h))
      {
        Apart(was, owned, h, h);
        assert Snapshot(was[h]) == old(Snapshot(was[h]));
      }
    } else {
      assert vp in w.owner;
    }
  }

  /** The end of the ADD and SET macros: the writes to slot `nused` of the last
      chunk, which become one more entry of its list and of no other. */
  method Store(w: Pool, dest: VLink, vp: VLink, c: Chunk, ghost e: Entry)
    requires w.Valid() && dest in w.lists && dest != w.freeHd
    requires w.lists[dest] != [] && vp == w.lists[dest][|w.lists[dest]| - 1]
    requires Used(c) == Used(vp.data) + [e]
    modifies vp`data
    ensures w.Valid()
    ensures Drawing(w) == old(Drawing(w))[dest := old(Drawing(w)[dest]) + [e]]
    ensures forall h :: h in w.lists && h != w.freeHd ==>
      (old(PackedOwned(w, h, h == dest)) ==> PackedOwned(w, h, false))
    ensures forall h :: h in w.lists && h != w.freeHd && h != dest ==> Layout(w, h) == old(Layout(w, h))
  {
    hide Ring, Owned, Used, Visit, Snapshot, Filled, AllFull;
    ghost var s := w.lists[dest];
    w.Known(dest);
    assert s == s[..|s| - 1] + [vp];
    VisitMore(s[..|s| - 1], vp);
    FilledIff(s);
    vp.data := c;
    VisitMore(s[..|s| - 1], vp);
    FilledIff(s);
    forall h | h in w.lists && h != w.freeHd && h != dest
      ensures VisitOwned(w, h) == old(VisitOwned(w, h)) && Layout(w, h) == old(Layout(w, h))
      ensures old(PackedOwned(w, h, false)) ==> PackedOwned(w, h, false)
    {
      Apart(w.lists, w.owner, h, dest);
      assert vp !in w.lists[h];
      assert Snapshot(w.lists[h]) == old(Snapshot(w.lists[h]));
    }
    assert VisitOwned(w, dest) == old(VisitOwned(w, dest)) + [e];
    assert old(PackedOwned(w, dest, true)) ==> PackedOwned(w, dest, false);
  }

  /** What a reader of each list but the free list is told. */
  ghost function Commands(d: map<VLink, seq<Entry>>): map<VLink, seq<Command>>
  {
    map h | h in d :: Meanings(d[h])
  }

  lemma DrawingKeys(w: Pool)
    requires w.Valid()
    ensures Drawing(w).Keys == Commands(Drawing(w)).Keys == w.lists.Keys - {w.freeHd}
  {
  }

  lemma CommandsFree(d: map<VLink, seq<Entry>>, h: VLink)
    requires h in d
    ensures Commands(d[h := []]) == Commands(d)[h := []]
  {
  }

  lemma CommandsAppend(d: map<VLink, seq<Entry>>, h: VLink, e: Entry)
    requires h in d
    ensures Commands(d[h := d[h] + [e]]) == Commands(d)[h := Commands(d)[h] + [Meaning(e)]]
  {
    MeaningsAppend(d[h], [e]);
    assert Meanings([e]) == [Meaning(e)];
  }

  /** What every ADD and SET macro keeps: the other destinations, the packing, and
      the chunks, but for one new chunk if there was neither room nor a free one. */
  twostate predicate OneMore(w: Pool, dest: VLink)
    reads w, w.lists.Keys, w.owner.Keys
    requires old(w.Valid()) && w.Valid() && old(dest in w.lists)
  {
    && w.lists.Keys == old(w.lists.Keys)
    && (forall h :: h in w.lists && h != w.freeHd && h != dest ==> Layout(w, h) == old(Layout(w, h)))
    && (forall h :: h in w.lists && h != w.freeHd ==> (old(PackedOwned(w, h, false)) ==> PackedOwned(w, h, false)))
    && w.lists[dest] != []
    && var vp := w.lists[dest][|w.lists[dest]| - 1];
      if old(NeedsChunk(w.lists[dest]) && w.lists[w.freeHd] == [])
      then fresh(vp) && w.owner.Keys == old(w.owner.Keys) + {vp}
      else w.owner.Keys == old(w.owner.Keys)
  }

  /** What the ADD and SET macros have in common: a slot with room gets the command,
      and its point is written over, in part or not at all. */
  method AddEntry(w: Pool, dest: VLink, cmd: int, write: Vec3 -> Vec3) returns (ghost slot: Vec3)
    requires w.Valid() && dest in w.lists && dest != w.freeHd
    modifies w, w.lists.Keys`forw, w.lists.Keys`back, w.owner.Keys`forw, w.owner.Keys`back, w.owner.Keys`data
    ensures w.Valid() && OneMore(w, dest)
    ensures Drawing(w) == old(Drawing(w))[dest := old(Drawing(w)[dest]) + [Entry(cmd, write(slot))]]
  {
    hide Ring, Owned, Drawing, Commands, PackedOwned, Layout, NeedsChunk, Used, WriteSlot;
    DrawingKeys(w);
    var vp := NextSlot(w, dest);
    var pt := vp.data.pt[vp.data.nused];
    slot := pt;
    Store(w, dest, vp, WriteSlot(vp.data, cmd, write(pt)), Entry(cmd, write(pt)));
  }

  /** `BN_ADD_VLIST`. */
  method AddVlist(w: Pool, dest: VLink, pnt: Vec3, draw: int)
    requires w.Valid() && dest in w.lists && dest != w.freeHd
    modifies w, w.lists.Keys`forw, w.lists.Keys`back, w.owner.Keys`forw, w.owner.Keys`back, w.owner.Keys`data
    ensures w.Valid() && OneMore(w, dest)
    ensures Drawing(w) == old(Drawing(w))[dest := old(Drawing(w)[dest]) + [Entry(draw, pnt)]]
  {
    hide Ring, Owned, Drawing, OneMore;
    ghost var slot := AddEntry(w, dest, draw, _ => pnt);
  }

  /** `BN_VLIST_SET_DISP_MAT`. */
  method SetDispMat(w: Pool, dest: VLink, refPt: Vec3)
    requires w.Valid() && dest in w.lists && dest != w.freeHd
    modifies w, w.lists.Keys`forw, w.lists.Keys`back, w.owner.Keys`forw, w.owner.Keys`back, w.owner.Keys`data
    ensures w.Valid() && OneMore(w, dest)
    ensures var said := old(Commands(Drawing(w)));
      Commands(Drawing(w)) == said[dest := said[dest] + [Located(BN_VLIST_DISPLAY_MAT, refPt)]]
  {
    hide Ring, Owned, Drawing, Commands, OneMore;
    DrawingKeys(w);
    ghost var d := Drawing(w);
    ghost var slot := AddEntry(w, dest, BN_VLIST_DISPLAY_MAT, _ => refPt);
    CommandsAppend(d, dest, Entry(BN_VLIST_DISPLAY_MAT, (_ => refPt)(slot)));
  }

  /** `BN_VLIST_SET_MODEL_MAT`, which leaves an old point in its slot. */
  method SetModelMat(w: Pool, dest: VLink)
    requires w.Valid() && dest in w.lists && dest != w.freeHd
    modifies w, w.lists.Keys`forw, w.lists.Keys`back, w.owner.Keys`forw, w.owner.Keys`back, w.owner.Keys`data
    ensures w.Valid() && OneMore(w, dest)
    ensures var said := old(Commands(Drawing(w)));
      Commands(Drawing(w)) == said[dest := said[dest] + [ModelMat]]
  {
    hide Ring, Owned, Drawing, Commands, OneMore;
    DrawingKeys(w);
    ghost var d := Drawing(w);
    ghost var slot := AddEntry(w, dest, BN_VLIST_MODEL_MAT, pt => pt);
    CommandsAppend(d, dest, Entry(BN_VLIST_MODEL_MAT, (pt => pt)(slot)));
  }

  /** `BN_VLIST_SET_POINT_SIZE`, which leaves two old components in its slot. */
  method SetPointSize(w: Pool, dest: VLink, size: real)
    requires w.Valid() && dest in w.lists && dest != w.freeHd
    modifies w, w.lists.Keys`forw, w.lists.Keys`back, w.owner.Keys`forw, w.owner.Keys`back, w.owner.Keys`data
    ensures w.Valid() && OneMore(w, dest)
    ensures var said := old(Commands(Drawing(w)));
      Commands(Drawing(w)) == said[dest := said[dest] + [Scalar(BN_VLIST_POINT_SIZE, size)]]
  {
    hide Ring, Owned, Drawing, Commands, OneMore;
    DrawingKeys(w);
    ghost var d := Drawing(w);
    ghost var slot := AddEntry(w, dest, BN_VLIST_POINT_SIZE, (pt: Vec3) => pt.(x := size));
    CommandsAppend(d, dest, Entry(BN_VLIST_POINT_SIZE, ((pt: Vec3) => pt.(x := size))(slot)));
  }

  /** `BN_VLIST_SET_LINE_WIDTH`, which leaves two old components in its slot. */
  method SetLineWidth(w: Pool, dest: VLink, width: real)
    requires w.Valid() && dest in w.lists && dest != w.freeHd
    modifies w, w.lists.Keys`forw, w.lists.Keys`back, w.owner.Keys`forw, w.owner.Keys`back, w.owner.Keys`data
    ensures w.Valid() && OneMore(w, dest)
    ensures var said := old(Commands(Drawing(w)));
      Commands(Drawing(w)) == said[dest := said[dest] + [Scalar(BN_VLIST_LINE_WIDTH, width)]]
  {
    hide Ring, Owned, Drawing, Commands, OneMore;
    DrawingKeys(w);
    ghost var d := Drawing(w);
    ghost var slot := AddEntry(w, dest, BN_VLIST_LINE_WIDTH, (pt: Vec3) => pt.(x := width));
    CommandsAppend(d, dest, Entry(BN_VLIST_LINE_WIDTH, ((pt: Vec3) => pt.(x := width))(slot)));
  }

  /** `BN_FREE_VLIST`: the whole list goes to the end of the free list. */
  method FreeVlist(w: Pool, hd: VLink)
    requires w.Valid() && hd in w.lists && hd != w.freeHd
    modifies w, w.lists.Keys`forw, w.lists.Keys`back, w.owner.Keys`forw, w.owner.Keys`back
    ensures w.Valid() && w.owner.Keys == old(w.owner.Keys)
    ensures w.lists == old(w.lists)[w.freeHd := old(w.lists[w.freeHd] + w.lists[hd])][hd := []]
    ensures Drawing(w) == old(Drawing(w))[hd := []]
    ensures forall h :: h in w.lists && h != w.freeHd ==> (old(PackedOwned(w, h, false)) ==> PackedOwned(w, h, false))
  {
    hide Ring, Owned, Visit, Filled;
    ghost var was, owned := w.lists, w.owner;
    w.Splice(w.freeHd, hd);
    forall h | h in w.lists && h != w.freeHd && h != hd
      ensures VisitOwned(w, h) == old(VisitOwned(w, h))
      ensures old(PackedOwned(w, h, false)) ==> PackedOwned(w, h, false)
    {
      assert w.lists[h] == was[h];
    }
    assert VisitOwned(w, hd) == [] && PackedOwned(w, hd, false) by {
      VisitNone();
    }
  }
}
