/** The loops of `bn_vlist_export` and `bn_vlist_import` in src/libbn/vlist.c. */
module VlistExport {
  import opened BuList
  import opened Bytes
  import opened ListWorld
  import opened VMath
  import opened Vlist
  import opened VlistTools
  import opened VlistWire

  // --- export

  /** Stores bytes from place `bp` on. */
  method Put(buf: array<byte>, bp: nat, bytes: seq<byte>)
    requires bp + |bytes| <= buf.Length
    modifies buf
    ensures buf[..bp + |bytes|] == old(buf[..bp]) + bytes
  {
    for i := 0 to |bytes|
      invariant buf[..bp + i] == old(buf[..bp]) + bytes[..i]
    {
      buf[bp + i] := bytes[i];
    }
  }

  lemma Regroup<T>(a: seq<T>, b: seq<T>, c: seq<T>)
    ensures a + b + c == a + (b + c)
  {
  }

  lemma CmdBytesAppend(a: seq<Entry>, b: seq<Entry>)
    ensures CmdBytes(a + b) == CmdBytes(a) + CmdBytes(b)
  {
  }

  lemma {:induction false} PointsBytesAppend(c: Codec, a: seq<Entry>, b: seq<Entry>)
    ensures PointsBytes(c, a + b) == PointsBytes(c, a) + PointsBytes(c, b)
  {
    if b == [] {
      assert a + b == a;
    } else {
      PointsBytesAppend(c, a, b[..|b| - 1]);
      assert (a + b)[..|a + b| - 1] == a + b[..|b| - 1];
    }
  }

  /** The commands of one chunk. */
  method PutCmds(buf: array<byte>, bp: nat, chunk: Chunk)
    requires bp + chunk.nused <= buf.Length
    modifies buf
    ensures buf[..bp + chunk.nused] == old(buf[..bp]) + CmdBytes(Used(chunk))
  {
    for i := 0 to chunk.nused
      invariant buf[..bp + i] == old(buf[..bp]) + CmdBytes(Used(chunk))[..i]
    {
      buf[bp + i] := chunk.cmd[i] % 256;
    }
  }

  /** The points of one chunk. */
  method PutPoints(c: Codec, buf: array<byte>, bp: nat, chunk: Chunk)
    requires bp + 24 * chunk.nused <= buf.Length
    modifies buf
    ensures buf[..bp + 24 * chunk.nused] == old(buf[..bp]) + PointsBytes(c, Used(chunk))
  {
    hide PointBytes;
    ghost var es := Used(chunk);
    for i := 0 to chunk.nused
      invariant buf[..bp + 24 * i] == old(buf[..bp]) + PointsBytes(c, es[..i])
    {
      assert es[..i + 1][..i] == es[..i];
      Put(buf, bp + 24 * i, PointBytes(c, chunk.pt[i]));
    }
    assert es[..chunk.nused] == es;
  }

  lemma VisitBound(s: seq<VLink>, k: nat)
    requires k <= |s|
    ensures |Visit(s[..k])| <= |Visit(s)|
    decreases |s| - k
  {
    if k < |s| {
      VisitNext(s, k);
      VisitBound(s, k + 1);
    } else {
      assert s[..k] == s;
    }
  }

  /** All commands of the list, as bytes. */
  method PutAllCmds(w: Pool, h: VLink, buf: array<byte>, bp: nat)
    requires w.Valid() && h in w.lists
    requires bp + |Visit(w.lists[h])| <= buf.Length
    modifies buf
    ensures w.Valid() && w.lists == old(w.lists) && Visit(w.lists[h]) == old(Visit(w.lists[h]))
    ensures buf[..bp + |Visit(w.lists[h])|] == old(buf[..bp]) + CmdBytes(Visit(w.lists[h]))
  {
    hide Ring, Owned, Used, CmdBytes, Visit;
    ghost var s, k, was := w.lists[h], 0, buf[..bp];
    w.Forward(h);
    CmdBytesNone();
    VisitNone();
    VisitBound(s, 0);
    var vp, at := h.forw, bp;
    while vp != h
      invariant 0 <= k <= |s| && vp == At(h, s, k)
      invariant at == bp + |Visit(s[..k])| <= buf.Length
      invariant buf[..at] == was + CmdBytes(Visit(s[..k]))
      decreases |s| - k
    {
      VisitNext(s, k);
      VisitBound(s, k + 1);
      CmdBytesAppend(Visit(s[..k]), Used(vp.data));
      Regroup(was, CmdBytes(Visit(s[..k])), CmdBytes(Used(vp.data)));
      PutCmds(buf, at, vp.data);
      at := at + vp.data.nused;
      vp := vp.forw;
      k := k + 1;
    }
    assert s[..k] == s;
  }

  lemma CmdBytesNone()
    ensures CmdBytes([]) == []
  {
  }

  /** All points of the list, as three network doubles each. */
  method PutAllPoints(c: Codec, w: Pool, h: VLink, buf: array<byte>, bp: nat)
    requires w.Valid() && h in w.lists
    requires bp + 24 * |Visit(w.lists[h])| <= buf.Length
    modifies buf
    ensures w.Valid() && w.lists == old(w.lists) && Visit(w.lists[h]) == old(Visit(w.lists[h]))
    ensures buf[..bp + 24 * |Visit(w.lists[h])|] == old(buf[..bp]) + PointsBytes(c, Visit(w.lists[h]))
  {
    hide Ring, Owned, Used, PointsBytes, Visit;
    ghost var s, k, was := w.lists[h], 0, buf[..bp];
    w.Forward(h);
    PointsBytesNone(c);
    VisitNone();
    VisitBound(s, 0);
    var vp, at := h.forw, bp;
    while vp != h
      invariant 0 <= k <= |s| && vp == At(h, s, k)
      invariant at == bp + 24 * |Visit(s[..k])| <= buf.Length
      invariant buf[..at] == was + PointsBytes(c, Visit(s[..k]))
      decreases |s| - k
    {
      VisitNext(s, k);
      VisitBound(s, k + 1);
      PointsBytesAppend(c, Visit(s[..k]), Used(vp.data));
      Regroup(was, PointsBytes(c, Visit(s[..k])), PointsBytes(c, Used(vp.data)));
      PutPoints(c, buf, at, vp.data);
      at := at + 24 * vp.data.nused;
      vp := vp.forw;
      k := k + 1;
    }
    assert s[..k] == s;
  }

  lemma PointsBytesNone(c: Codec)
    ensures PointsBytes(c, []) == []
  {
  }

  /** `bn_vlist_export`. The buffer has two bytes more than it needs. */
  method Export(c: Codec, w: Pool, h: VLink, name: seq<byte>) returns (buf: array<byte>)
    requires w.Valid() && h in w.lists && 0 !in name
    ensures fresh(buf) && w.Valid()
    ensures buf.Length == |Wire(c, Visit(w.lists[h]), name)| + 2
    ensures buf[..buf.Length - 2] == Wire(c, Visit(w.lists[h]), name)
  {
    hide Ring, Owned, CmdBytes, PointsBytes, Htonl, Visit;
    var nelem := CmdCnt(w, h);
    var namelen := |name| + 1;
    var nbytes := namelen + 4 + nelem * 25 + 2;
    buf := new byte[nbytes];
    Put(buf, 0, Htonl(nelem));
    Put(buf, 4, name + [0]);
    var bp := 4 + namelen;
    PutAllCmds(w, h, buf, bp);
    PutAllPoints(c, w, h, buf, bp + nelem);
  }

  // --- import

  /** `bn_vlist_import`. */
  method Import(c: Codec, w: Pool, hp: VLink, buf: array<byte>) returns (name: seq<byte>)
    requires w.Valid() && hp in w.lists && hp != w.freeHd
    requires Importable(buf[..])
    modifies w, w.lists.Keys`forw, w.lists.Keys`back, w.owner.Keys`forw, w.owner.Keys`back, w.owner.Keys`data
    ensures w.Valid() && w.lists.Keys == old(w.lists.Keys)
    ensures name == ImportedName(buf[..])
    ensures Drawing(w) == old(Drawing(w))[hp := old(Drawing(w)[hp]) + Imported(c, buf[..])]
    ensures old(PackedOwned(w, hp, false)) ==> PackedOwned(w, hp, false)
  {
    hide Ring, Owned, Drawing, PackedOwned, Layout, NeedsChunk, PointOf, Ntohl, Strlen;
    DrawingKeys(w);
    var nelem := Ntohl(buf[..4]);
    var namelen := Strlen(buf[4..]) + 1;
    assert buf[..][4..] == buf[4..] && buf[..][..4] == buf[..4];
    name := buf[4..4 + namelen - 1];
    var bp := 4 + namelen;
    var pp := bp + nelem;
    ghost var bytes, d := buf[..], Drawing(w);
    ghost var es := Imported(c, bytes);
    ghost var done := d[hp];
    assert d[hp] + es[..0] == d[hp];
    for i := 0 to nelem
      invariant w.Valid() && w.lists.Keys == old(w.lists.Keys)
      invariant buf[..] == bytes && bp == CmdStart(bytes) + i && pp == CmdStart(bytes) + nelem + 24 * i
      invariant done == d[hp] + es[..i] && Drawing(w) == d[hp := done]
      invariant old(PackedOwned(w, hp, false)) ==> PackedOwned(w, hp, false)
      invariant fresh(w.owner.Keys - old(w.owner.Keys))
    {
      var cmd := buf[bp];
      bp := bp + 1;
      assert buf[pp..pp + 24] == bytes[pp..pp + 24];
      var point := PointOf(c, buf[pp..pp + 24]);
      pp := pp + 24;
      assert es[i] == Entry(cmd, point);
      TakeNext(d[hp], es, i);
      Overwrite(d, hp, done, done + [es[i]]);
      done := done + [es[i]];
      AddBeside(w, hp, point, cmd, hp);
    }
    assert es[..nelem] == es;
  }

  // --- both

  lemma CommandsMore(d: map<VLink, seq<Entry>>, h: VLink, es: seq<Entry>)
    requires h in d
    ensures Commands(d[h := d[h] + es]) == Commands(d)[h := Commands(d)[h] + Meanings(es)]
  {
    MeaningsAppend(d[h], es);
  }

  lemma TailEqual<T>(a: seq<T>, b: seq<T>, c: seq<T>)
    ensures a + b == a + c <==> b == c
  {
    assert (a + b)[|a|..] == b && (a + c)[|a|..] == c;
  }

  /** Sends a drawing through its binary form to the end of another list. The other
      list then says what it said and what the drawing says exactly if each command
      fits the form, whatever the components were that a command does not write,
      although the form carries those too. */
  method Ship(c: Codec, w: Pool, src: VLink, dest: VLink, name: seq<byte>) returns (got: seq<byte>)
    requires w.Valid() && src in w.lists && dest in w.lists && src != w.freeHd && dest != w.freeHd
    requires 0 !in name
    modifies w, w.lists.Keys`forw, w.lists.Keys`back, w.owner.Keys`forw, w.owner.Keys`back, w.owner.Keys`data
    ensures w.Valid() && w.lists.Keys == old(w.lists.Keys)
    ensures got == name
    ensures var said := old(Commands(Drawing(w)));
      Commands(Drawing(w)) == said[dest := said[dest] + said[src]]
      <==> |said[src]| < UNSIGNED && forall i :: 0 <= i < |said[src]| ==> CommandFits(c, said[src][i])
  {
    hide Ring, Owned, PackedOwned, Importable, Wire, CommandFits, Imported, ImportedName, Visit, Meanings;
    hide Drawing, Commands;
    DrawingKeys(w);
    ghost var d := Drawing(w);
    ghost var es := DrawnOn(w, src);
    var buf := Export(c, w, src, name);
    ghost var pad := buf[buf.Length - 2..];
    assert buf[..] == Wire(c, es, name) + pad;
    WireParts(c, es, name, pad);
    CommandsTripIff(c, es, name, pad);
    got := Import(c, w, dest, buf);
    CommandsMore(d, dest, Imported(c, buf[..]));
    TailEqual(Commands(d)[dest], Meanings(Imported(c, buf[..])), Commands(d)[src]);
    SameAt(Commands(d), dest, Commands(d)[dest] + Meanings(Imported(c, buf[..])), Commands(d)[dest] + Commands(d)[src]);
  }

  lemma SameAt<K, V>(m: map<K, V>, k: K, a: V, b: V)
    ensures m[k := a] == m[k := b] <==> a == b
  {
    assert m[k := a][k] == a && m[k := b][k] == b;
  }

  lemma DrawnOn(w: Pool, h: VLink) returns (es: seq<Entry>)
    requires w.Valid() && h in w.lists && h != w.freeHd
    ensures h in Drawing(w) && es == Drawing(w)[h] == Visit(w.lists[h])
    ensures h in Commands(Drawing(w)) && Commands(Drawing(w))[h] == Meanings(es)
  {
    es := Visit(w.lists[h]);
  }
}
