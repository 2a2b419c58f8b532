/** The binary form of a vector list: `bn_vlist_export` and `bn_vlist_import` of
    src/libbn/vlist.c. */
module VlistWire {
  import opened BuList
  import opened Bytes
  import opened ListWorld
  import opened VMath
  import opened Vlist
  import VlistTools

  type Octets = s: seq<byte> | |s| == 8 witness [0, 0, 0, 0, 0, 0, 0, 0]

  /** `bu_cv_htond` and `bu_cv_ntohd` on one number. A number that does not fit a
      network double comes back as another. */
  datatype Codec = Codec(encode: real -> Octets, decode: Octets -> real)

  function Carried(c: Codec, x: real): real
  {
    c.decode(c.encode(x))
  }

  function PointBytes(c: Codec, p: Vec3): (bytes: seq<byte>)
    ensures |bytes| == 24
  {
    c.encode(p.x) + c.encode(p.y) + c.encode(p.z)
  }

  function PointOf(c: Codec, bytes: seq<byte>): Vec3
    requires |bytes| == 24
  {
    Vec3(c.decode(bytes[..8]), c.decode(bytes[8..16]), c.decode(bytes[16..]))
  }

  lemma PointCarried(c: Codec, p: Vec3)
    ensures PointOf(c, PointBytes(c, p)) == Vec3(Carried(c, p.x), Carried(c, p.y), Carried(c, p.z))
  {
    var bytes := PointBytes(c, p);
    assert bytes[..8] == c.encode(p.x) && bytes[8..16] == c.encode(p.y) && bytes[16..] == c.encode(p.z);
  }

  // --- what is exported

  /** A command is cut down to a byte. */
  function CmdBytes(es: seq<Entry>): (bytes: seq<byte>)
    ensures |bytes| == |es|
  {
    seq(|es|, i requires 0 <= i < |es| => es[i].cmd % 256)
  }

  function PointsBytes(c: Codec, es: seq<Entry>): (bytes: seq<byte>)
    ensures |bytes| == 24 * |es|
  {
    if es == [] then [] else PointsBytes(c, es[..|es| - 1]) + PointBytes(c, es[|es| - 1].pt)
  }

  /** The number of entries, the name, all the commands and then all the points. */
  function Wire(c: Codec, es: seq<Entry>, name: seq<byte>): (bytes: seq<byte>)
    ensures |bytes| == |name| + 5 + 25 * |es|
  {
    Htonl(|es|) + (name + [0]) + CmdBytes(es) + PointsBytes(c, es)
  }

  lemma {:induction false} PointsBytesAt(c: Codec, es: seq<Entry>, i: nat)
    requires i < |es|
    ensures PointsBytes(c, es)[24 * i..24 * i + 24] == PointBytes(c, es[i].pt)
  {
    var n := |es| - 1;
    var before := PointsBytes(c, es[..n]);
    if i < n {
      PointsBytesAt(c, es[..n], i);
      assert PointsBytes(c, es)[24 * i..24 * i + 24] == before[24 * i..24 * i + 24];
    }
  }

  lemma WirePieces(c: Codec, es: seq<Entry>, name: seq<byte>, pad: seq<byte>, i: nat)
    requires i < |es|
    ensures var buf := Wire(c, es, name) + pad;
      var start := |name| + 5;
      var pp := start + |es| + 24 * i;
      buf[start + i] == es[i].cmd % 256 && buf[pp..pp + 24] == PointsBytes(c, es)[24 * i..24 * i + 24]
  {
  }

  /** Where everything is: the count, the name with its zero byte, a byte for each
      command, and eight bytes for each coordinate. */
  lemma WireLayout(c: Codec, es: seq<Entry>, name: seq<byte>, i: nat)
    ensures var buf, n := Wire(c, es, name), |name|;
      && buf[..4] == Htonl(|es|) && buf[4..4 + n] == name && buf[4 + n] == 0
      && (i < |es| ==>
        var pp := n + 5 + |es| + 24 * i;
        && buf[n + 5 + i] == es[i].cmd % 256
        && buf[pp..pp + 8] == c.encode(es[i].pt.x)
        && buf[pp + 8..pp + 16] == c.encode(es[i].pt.y)
        && buf[pp + 16..pp + 24] == c.encode(es[i].pt.z))
  {
    hide PointsBytes, Htonl;
    if i < |es| {
      var buf, pp := Wire(c, es, name), |name| + 5 + |es| + 24 * i;
      assert buf + [] == buf;
      WirePieces(c, es, name, [], i);
      PointsBytesAt(c, es, i);
      assert buf[pp..pp + 24] == PointBytes(c, es[i].pt);
      Thirds(buf, pp, c.encode(es[i].pt.x), c.encode(es[i].pt.y), c.encode(es[i].pt.z));
    }
  }

  lemma Thirds(buf: seq<byte>, p: nat, x: Octets, y: Octets, z: Octets)
    requires p + 24 <= |buf| && buf[p..p + 24] == x + y + z
    ensures buf[p..p + 8] == x && buf[p + 8..p + 16] == y && buf[p + 16..p + 24] == z
  {
    var b := x + y + z;
    assert b[0..8] == x && b[8..16] == y && b[16..24] == z;
    SliceOfSlice(buf, p, 0);
    SliceOfSlice(buf, p, 8);
    SliceOfSlice(buf, p, 16);
  }

  lemma SliceOfSlice(buf: seq<byte>, p: nat, a: nat)
    requires p + 24 <= |buf| && a + 8 <= 24
    ensures buf[p..p + 24][a..a + 8] == buf[p + a..p + a + 8]
  {
    var u, v := buf[p..p + 24][a..a + 8], buf[p + a..p + a + 8];
    assert |u| == |v| && forall k :: 0 <= k < 8 ==> u[k] == v[k];
  }

  /** Commands that agree modulo 256, and points with the same bytes. */
  predicate SameBytes(c: Codec, e: Entry, f: Entry)
  {
    e.cmd % 256 == f.cmd % 256 && PointBytes(c, e.pt) == PointBytes(c, f.pt)
  }

  lemma {:induction false} SamePoints(c: Codec, es: seq<Entry>, fs: seq<Entry>)
    requires |es| == |fs| && forall i :: 0 <= i < |es| ==> SameBytes(c, es[i], fs[i])
    ensures PointsBytes(c, es) == PointsBytes(c, fs)
  {
    if es != [] {
      SamePoints(c, es[..|es| - 1], fs[..|fs| - 1]);
    }
  }

  /** Two drawings have one binary form exactly if their slots have the same bytes,
      the components that the commands do not write included. */
  lemma WireSameIff(c: Codec, es: seq<Entry>, fs: seq<Entry>, name: seq<byte>)
    ensures Wire(c, es, name) == Wire(c, fs, name)
      <==> |es| == |fs| && forall i :: 0 <= i < |es| ==> SameBytes(c, es[i], fs[i])
  {
    hide Wire, PointBytes;
    if |es| == |fs| && forall i :: 0 <= i < |es| ==> SameBytes(c, es[i], fs[i]) {
      SamePoints(c, es, fs);
      assert CmdBytes(es) == CmdBytes(fs);
      WireOf(c, es, name);
      WireOf(c, fs, name);
    }
    if Wire(c, es, name) == Wire(c, fs, name) {
      forall i | 0 <= i < |es|
        ensures SameBytes(c, es[i], fs[i])
      {
        WirePieces(c, es, name, [], i);
        WirePieces(c, fs, name, [], i);
        PointsBytesAt(c, es, i);
        PointsBytesAt(c, fs, i);
      }
    }
  }

  lemma WireOf(c: Codec, es: seq<Entry>, name: seq<byte>)
    ensures Wire(c, es, name) == Htonl(|es|) + (name + [0]) + CmdBytes(es) + PointsBytes(c, es)
  {
  }

  /** So lists that say the same, one MODEL_MAT, can have different bytes. */
  lemma SameCommandsOtherBytes(c: Codec, p: Vec3, q: Vec3, name: seq<byte>)
    requires PointBytes(c, p) != PointBytes(c, q)
    ensures var es, fs := [Entry(BN_VLIST_MODEL_MAT, p)], [Entry(BN_VLIST_MODEL_MAT, q)];
      Meanings(es) == Meanings(fs) && Wire(c, es, name) != Wire(c, fs, name)
  {
    var es, fs := [Entry(BN_VLIST_MODEL_MAT, p)], [Entry(BN_VLIST_MODEL_MAT, q)];
    WireSameIff(c, es, fs, name);
    assert !SameBytes(c, es[0], fs[0]);
  }

  // --- what is imported

  /** Where the commands start, and the count that is read. */
  function CmdStart(buf: seq<byte>): nat
    requires 4 <= |buf| && 0 in buf[4..]
  {
    4 + Strlen(buf[4..]) + 1
  }

  function Nelem(buf: seq<byte>): nat
    requires 4 <= |buf|
  {
    Ntohl(buf[..4])
  }

  /** What the importer relies on, since it is not told how long its buffer is. */
  predicate Importable(buf: seq<byte>)
  {
    4 <= |buf| && 0 in buf[4..] && CmdStart(buf) + 25 * Nelem(buf) <= |buf|
  }

  function ImportedName(buf: seq<byte>): seq<byte>
    requires Importable(buf)
  {
    buf[4..4 + Strlen(buf[4..])]
  }

  function ImportedEntry(c: Codec, buf: seq<byte>, i: nat): Entry
    requires Importable(buf) && i < Nelem(buf)
  {
    var start := CmdStart(buf);
    var pp := start + Nelem(buf) + 24 * i;
    Entry(buf[start + i], PointOf(c, buf[pp..pp + 24]))
  }

  function Imported(c: Codec, buf: seq<byte>): (es: seq<Entry>)
    requires Importable(buf)
    ensures |es| == Nelem(buf)
  {
    seq(Nelem(buf), i requires 0 <= i < Nelem(buf) => ImportedEntry(c, buf, i))
  }

  /** What is read of entry `i`: a byte after the zero byte that ends the name, and
      after all these bytes three groups of eight. */
  lemma ImportedAt(c: Codec, buf: seq<byte>, i: nat, n: nat)
    requires Importable(buf) && i < |Imported(c, buf)|
    requires 4 + n < |buf| && buf[4 + n] == 0 && 0 !in buf[4..4 + n]
    ensures |Imported(c, buf)| == Ntohl(buf[..4]) && ImportedName(buf) == buf[4..4 + n]
    ensures var pp := n + 5 + |Imported(c, buf)| + 24 * i;
      pp + 24 <= |buf|
      && Imported(c, buf)[i] == Entry(
        buf[n + 5 + i],
        Vec3(c.decode(buf[pp..pp + 8]), c.decode(buf[pp + 8..pp + 16]), c.decode(buf[pp + 16..pp + 24])))
  {
    hide Ntohl;
    FirstZero(buf[4..], n);
    var pp := n + 5 + |Imported(c, buf)| + 24 * i;
    var bytes := buf[pp..pp + 24];
    SliceOfSlice(buf, pp, 0);
    SliceOfSlice(buf, pp, 8);
    SliceOfSlice(buf, pp, 16);
    assert bytes[..8] == bytes[0..8] && bytes[16..] == bytes[16..24];
  }

  lemma FirstZero(s: seq<byte>, n: nat)
    requires n < |s| && s[n] == 0 && 0 !in s[..n]
    ensures 0 in s && Strlen(s) == n
  {
    var m := Strlen(s);
    if m < n {
      ZeroIn(s, n, m);
    } else if n < m {
      ZeroIn(s, m, n);
    }
  }

  lemma ZeroIn(s: seq<byte>, n: int, m: int)
    requires 0 <= m < n <= |s| && s[m] == 0
    ensures 0 in s[..n]
  {
    assert s[..n][m] == 0;
  }

  // --- the round trip

  function Shipped(c: Codec, e: Entry): Entry
  {
    Entry(e.cmd % 256, Vec3(Carried(c, e.pt.x), Carried(c, e.pt.y), Carried(c, e.pt.z)))
  }

  /** An exported buffer, whatever follows it, reads back as the same name and the
      same number of entries modulo 2^32. */
  lemma WireParts(c: Codec, es: seq<Entry>, name: seq<byte>, pad: seq<byte>)
    requires 0 !in name
    ensures var buf := Wire(c, es, name) + pad;
      && 4 <= |buf| && 0 in buf[4..] && Nelem(buf) == |es| % UNSIGNED
      && CmdStart(buf) == |name| + 5
      && Importable(buf)
      && ImportedName(buf) == name
  {
    var buf := Wire(c, es, name) + pad;
    var rest := CmdBytes(es) + PointsBytes(c, es) + pad;
    assert buf[..4] == Htonl(|es|);
    NtohlHtonl(|es|);
    assert buf[4..] == name + [0] + rest;
    StrlenIs(name, rest);
    assert buf[4..4 + |name|] == name;
  }

  lemma WireEntry(c: Codec, es: seq<Entry>, name: seq<byte>, pad: seq<byte>, i: nat)
    requires 0 !in name && |es| < UNSIGNED && i < |es|
    requires Importable(Wire(c, es, name) + pad) && Nelem(Wire(c, es, name) + pad) == |es|
    ensures ImportedEntry(c, Wire(c, es, name) + pad, i) == Shipped(c, es[i])
  {
    hide Importable, Strlen, Htonl, PointOf, PointBytes, Shipped, Nelem;
    var buf := Wire(c, es, name) + pad;
    WireParts(c, es, name, pad);
    WirePieces(c, es, name, pad, i);
    PointsBytesAt(c, es, i);
    PointCarried(c, es[i].pt);
    ShippedIs(c, es[i]);
  }

  lemma ShippedIs(c: Codec, e: Entry)
    ensures Shipped(c, e) == Entry(e.cmd % 256, PointOf(c, PointBytes(c, e.pt)))
  {
    PointCarried(c, e.pt);
  }

  /** Fewer than 2^32 entries come back one by one. */
  lemma RoundTrip(c: Codec, es: seq<Entry>, name: seq<byte>, pad: seq<byte>)
    requires 0 !in name && |es| < UNSIGNED
    ensures var buf := Wire(c, es, name) + pad;
      && Importable(buf) && ImportedName(buf) == name
      && Imported(c, buf) == seq(|es|, i requires 0 <= i < |es| => Shipped(c, es[i]))
  {
    var buf := Wire(c, es, name) + pad;
    WireParts(c, es, name, pad);
    forall i | 0 <= i < |es|
      ensures ImportedEntry(c, buf, i) == Shipped(c, es[i])
    {
      WireEntry(c, es, name, pad, i);
    }
  }

  /** The command fits a byte and the coordinates fit a network double. */
  predicate EntryFits(c: Codec, e: Entry)
  {
    && 0 <= e.cmd < 256
    && Carried(c, e.pt.x) == e.pt.x && Carried(c, e.pt.y) == e.pt.y && Carried(c, e.pt.z) == e.pt.z
  }

  lemma EntryFitsIff(c: Codec, e: Entry)
    ensures EntryFits(c, e) <==> Shipped(c, e) == e
  {
  }

  /** A drawing survives the trip exactly when it has fewer than 2^32 entries and
      each of them fits. */
  lemma RoundTripIff(c: Codec, es: seq<Entry>, name: seq<byte>, pad: seq<byte>)
    requires 0 !in name
    ensures var buf := Wire(c, es, name) + pad;
      Importable(buf)
      && (Imported(c, buf) == es <==> |es| < UNSIGNED && forall i :: 0 <= i < |es| ==> EntryFits(c, es[i]))
  {
    hide Importable, Wire, EntryFits, Shipped, ImportedEntry, Nelem;
    var buf := Wire(c, es, name) + pad;
    WireParts(c, es, name, pad);
    if |es| < UNSIGNED {
      RoundTrip(c, es, name, pad);
      forall i | 0 <= i < |es|
        ensures Imported(c, buf)[i] == es[i] <==> EntryFits(c, es[i])
      {
        EntryFitsIff(c, es[i]);
      }
    }
  }

  /** The same of what a reader takes from an entry: the components that the command
      does not write may be anything. */
  predicate CommandFits(c: Codec, cmd: Command)
  {
    match cmd
    case ModelMat => true
    case Scalar(_, value) => Carried(c, value) == value
    case Located(code, pt) =>
      0 <= code < 256 && Carried(c, pt.x) == pt.x && Carried(c, pt.y) == pt.y && Carried(c, pt.z) == pt.z
  }

  lemma CommandFitsIff(c: Codec, e: Entry)
    ensures CommandFits(c, Meaning(e)) <==> Meaning(Shipped(c, e)) == Meaning(e)
  {
  }

  /** What the drawing says survives the trip exactly when it has fewer than 2^32
      commands and each of them fits. */
  lemma CommandsTripIff(c: Codec, es: seq<Entry>, name: seq<byte>, pad: seq<byte>)
    requires 0 !in name
    ensures var buf := Wire(c, es, name) + pad;
      Importable(buf)
      && (Meanings(Imported(c, buf)) == Meanings(es)
          <==> |es| < UNSIGNED && forall i :: 0 <= i < |es| ==> CommandFits(c, Meanings(es)[i]))
  {
    hide Importable, Wire, CommandFits, Shipped, ImportedEntry, Nelem, Meaning;
    var buf := Wire(c, es, name) + pad;
    WireParts(c, es, name, pad);
    if |es| < UNSIGNED {
      RoundTrip(c, es, name, pad);
      forall i | 0 <= i < |es|
        ensures Meanings(Imported(c, buf))[i] == Meanings(es)[i] <==> CommandFits(c, Meanings(es)[i])
      {
        CommandFitsIff(c, es[i]);
      }
    }
  }
}
