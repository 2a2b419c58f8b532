/** `bn_vlist_bbox` of src/libbn/vlist.c: the bounding box of a vector list. */
module VlistBox {
  import opened BuList
  import opened ListWorld
  import opened VMath
  import opened Vlist
  import opened VlistTools
  import Box

  /** Commands that carry an attribute and not a location. */
  predicate IsAttribute(cmd: int)
  {
    cmd == 2 || cmd == 6 || cmd == 7 || cmd == 11
    || cmd == BN_VLIST_POINT_SIZE || cmd == BN_VLIST_LINE_WIDTH || cmd == BN_VLIST_MODEL_MAT
  }

  /** Commands whose point is a location in model space. */
  predicate IsLocation(cmd: int)
  {
    0 <= cmd <= 1 || 3 <= cmd <= 5 || 8 <= cmd <= 10
  }

  const BN_VLIST_POINT_DRAW := 12

  /** `corners` are the points that the box has to hold so far, `display` says
      that the commands are in display space, and `bad` is the first unknown
      command, or 0. */
  datatype Scan = Scan(corners: seq<Vec3>, display: bool, bad: int)

  function Shifted(p: Vec3, d: real): Vec3
  {
    Vec3(p.x + d, p.y + d, p.z + d)
  }

  /** One turn of the inner loop. */
  function Look(s: Scan, c: Command): Scan
  {
    if s.bad != 0 || (s.display && !c.ModelMat?) then s
    else
      match c
      case ModelMat => s.(display := false)
      case Scalar(_, _) => s.(display := false)
      case Located(cmd, pt) =>
        if IsAttribute(cmd) then s.(display := false)
        else if IsLocation(cmd) then s.(display := false, corners := s.corners + [pt])
        else if cmd == BN_VLIST_DISPLAY_MAT || cmd == BN_VLIST_POINT_DRAW then
          Scan(s.corners + [Shifted(pt, -1.0), Shifted(pt, 1.0)], cmd == BN_VLIST_DISPLAY_MAT, 0)
        else s.(display := false, bad := cmd)
  }

  function LookAll(cs: seq<Command>): Scan
  {
    if cs == [] then Scan([], false, 0) else Look(LookAll(cs[..|cs| - 1]), cs[|cs| - 1])
  }

  /** A display matrix came before place `i`, and no model matrix after it. */
  predicate InDisplay(cs: seq<Command>, i: nat)
    requires i <= |cs|
  {
    exists j :: 0 <= j < i && IsDisplayMat(cs[j]) && forall k :: j < k < i ==> !cs[k].ModelMat?
  }

  predicate IsDisplayMat(c: Command)
  {
    c.Located? && c.cmd == 15
  }

  /** `p` is a corner of what command `c` draws: its point, or the ends of a box
      that reaches 1 beyond it along each axis. */
  predicate Draws(c: Command, p: Vec3)
  {
    c.Located?
    && ((c.cmd in {0, 1, 3, 4, 5, 8, 9, 10} && p == c.pt)
      || (c.cmd in {12, 15}
        && (p == Vec3(c.pt.x - 1.0, c.pt.y - 1.0, c.pt.z - 1.0)
          || p == Vec3(c.pt.x + 1.0, c.pt.y + 1.0, c.pt.z + 1.0))))
  }

  lemma {:induction false} DisplayIff(cs: seq<Command>)
    requires LookAll(cs).bad == 0
    ensures LookAll(cs).display <==> InDisplay(cs, |cs|)
    ensures LookAll(cs).display <==>
      exists j :: 0 <= j < |cs| && cs[j].Located? && cs[j].cmd == 15 && forall k :: j < k < |cs| ==> !cs[k].ModelMat?
  {
    if cs != [] {
      var n := |cs| - 1;
      var before := cs[..n];
      DisplayIff(before);
      if j :| 0 <= j < n && IsDisplayMat(before[j])
              && forall k :: j < k < n ==> !before[k].ModelMat? {
        assert cs[n].ModelMat?
          || (IsDisplayMat(cs[j]) && forall k :: j < k < n + 1 ==> k == n || cs[k] == before[k]);
      }
      if j :| 0 <= j < n + 1 && IsDisplayMat(cs[j])
              && forall k :: j < k < n + 1 ==> !cs[k].ModelMat? {
        assert j == n || (IsDisplayMat(before[j]) && forall k :: j < k < n ==> before[k] == cs[k]);
      }
    }
  }

  lemma InDisplayPrefix(cs: seq<Command>, i: nat)
    requires i < |cs|
    ensures InDisplay(cs, i) <==> InDisplay(cs[..|cs| - 1], i)
  {
  }

  lemma {:induction false} BadStays(cs: seq<Command>, more: seq<Command>)
    requires LookAll(cs).bad != 0
    ensures LookAll(cs + more) == LookAll(cs)
  {
    if more == [] {
      assert cs + more == cs;
    } else {
      var n := |more| - 1;
      BadStays(cs, more[..n]);
      assert (cs + more)[..|cs| + n] == cs + more[..n];
    }
  }

  // --- where the scan stops

  /** The commands are numbered from 0 to 16. */
  predicate Unknown(c: Command)
  {
    c.Located? && !(0 <= c.cmd <= 16)
  }

  predicate Stops(cs: seq<Command>, i: nat)
    requires i < |cs|
  {
    Unknown(cs[i]) && !InDisplay(cs, i)
  }

  /** No command stops the scan before place `n`. */
  predicate NoStop(cs: seq<Command>, n: nat)
    requires n <= |cs|
  {
    forall i :: 0 <= i < n ==> !Stops(cs, i)
  }

  predicate StopsFirst(cs: seq<Command>, i: nat)
    requires i < |cs|
  {
    Stops(cs, i) && NoStop(cs, i)
  }

  /** The command at place `i` is looked at in model space, if the scan comes to it. */
  predicate Looked(cs: seq<Command>, i: nat)
    requires i < |cs|
  {
    NoStop(cs, i) && !InDisplay(cs, i)
  }

  /** That is: it is not in display space, and all unknown commands before it are. */
  lemma LookedIff(cs: seq<Command>, i: nat)
    requires i < |cs|
    ensures Looked(cs, i) <==>
      !InDisplay(cs, i)
      && forall k :: 0 <= k < i && cs[k].Located? && !(0 <= cs[k].cmd <= 16) ==> InDisplay(cs, k)
  {
    hide InDisplay;
    assert forall k :: 0 <= k < i ==> (Stops(cs, k) <==> Unknown(cs[k]) && !InDisplay(cs, k));
  }

  lemma {:induction false} FirstStop(cs: seq<Command>, n: nat)
    requires n <= |cs| && !NoStop(cs, n)
    ensures exists i :: 0 <= i < n && StopsFirst(cs, i)
  {
    hide Stops;
    if n > 0 && !NoStop(cs, n - 1) {
      FirstStop(cs, n - 1);
    } else {
      assert StopsFirst(cs, n - 1);
    }
  }

  lemma Prefix(cs: seq<Command>)
    requires cs != []
    ensures var n := |cs| - 1;
      && (NoStop(cs, n + 1) <==> NoStop(cs[..n], n) && !Stops(cs, n))
      && (NoStop(cs, n) <==> NoStop(cs[..n], n))
      && (InDisplay(cs, n) <==> InDisplay(cs[..n], n))
      && (forall i :: 0 <= i < n ==> (StopsFirst(cs, i) <==> StopsFirst(cs[..n], i)))
      && (forall i :: 0 <= i < n ==> (Looked(cs, i) <==> Looked(cs[..n], i)))
  {
    hide InDisplay;
    var n := |cs| - 1;
    forall i | 0 <= i <= n
      ensures InDisplay(cs, i) <==> InDisplay(cs[..n], i)
      ensures i < n ==> (Stops(cs, i) <==> Stops(cs[..n], i))
    {
      InDisplayPrefix(cs, i);
    }
    assert forall i :: 0 <= i <= n ==> (NoStop(cs, i) <==> NoStop(cs[..n], i)) by { hide Stops; }
  }

  lemma LookStops(s: Scan, c: Command)
    requires s.bad == 0
    ensures Look(s, c).bad == if Unknown(c) && !s.display then c.cmd else 0
    ensures Unknown(c) ==> c.cmd != 0
  {
  }

  /** The last command stops the scan, or leaves it as it was. */
  lemma StopsLast(cs: seq<Command>)
    requires cs != [] && LookAll(cs[..|cs| - 1]).bad == 0
    ensures var c := cs[|cs| - 1];
      if Stops(cs, |cs| - 1) then LookAll(cs).bad == c.cmd != 0 else LookAll(cs).bad == 0
  {
    hide Unknown, InDisplay, Look;
    var n := |cs| - 1;
    DisplayIff(cs[..n]);
    InDisplayPrefix(cs, n);
    LookStops(LookAll(cs[..n]), cs[n]);
  }

  lemma LookedOn(cs: seq<Command>)
    requires cs != []
    ensures var n := |cs| - 1;
      LookAll(cs[..n]).bad != 0 ==> LookAll(cs) == LookAll(cs[..n])
  {
  }

  lemma {:induction false} KnownIff(cs: seq<Command>)
    ensures LookAll(cs).bad == 0 <==> NoStop(cs, |cs|)
  {
    if cs == [] {
      NothingLooked();
    } else {
      hide Stops, NoStop, StopsFirst, Looked, InDisplay, LookAll;
      var n := |cs| - 1;
      KnownIff(cs[..n]);
      Prefix(cs);
      LookedOn(cs);
      if LookAll(cs[..n]).bad == 0 {
        StopsLast(cs);
      }
    }
  }

  lemma StopsUpTo(cs: seq<Command>, i: nat, k: nat)
    requires k <= i < |cs|
    ensures Stops(cs, k) <==> Stops(cs[..i + 1], k)
  {
  }

  /** The scan gives the first unknown command in model space, or 0 if there is none. */
  lemma StopsIff(cs: seq<Command>)
    ensures LookAll(cs).bad == 0 <==> NoStop(cs, |cs|)
    ensures forall i :: 0 <= i < |cs| && StopsFirst(cs, i) ==> cs[i].Located? && LookAll(cs).bad == cs[i].cmd
  {
    KnownIff(cs);
    forall i | 0 <= i < |cs| && StopsFirst(cs, i)
      ensures cs[i].Located? && LookAll(cs).bad == cs[i].cmd
    {
      FirstIs(cs, i);
    }
  }

  lemma FirstIs(cs: seq<Command>, i: nat)
    requires i < |cs| && StopsFirst(cs, i)
    ensures cs[i].Located? && LookAll(cs).bad == cs[i].cmd
  {
    hide InDisplay, LookAll;
    var upTo := cs[..i + 1];
    forall k | 0 <= k <= i
      ensures Stops(cs, k) <==> Stops(upTo, k)
    {
      StopsUpTo(cs, i, k);
    }
    Prefix(upTo);
    KnownIff(upTo[..i]);
    StopsLast(upTo);
    BadStays(upTo, cs[i + 1..]);
    assert upTo + cs[i + 1..] == cs;
  }

  lemma NothingLooked()
    ensures LookAll([]) == Scan([], false, 0)
  {
  }

  // --- the corners and the box

  lemma LookCorners(s: Scan, c: Command, p: Vec3)
    requires s.bad == 0
    ensures p in Look(s, c).corners <==> p in s.corners || (Draws(c, p) && !s.display)
  {
    if c.Located? && !s.display {
      if IsLocation(c.cmd) {
        assert Look(s, c).corners == s.corners + [c.pt];
      } else if c.cmd == BN_VLIST_DISPLAY_MAT || c.cmd == BN_VLIST_POINT_DRAW {
        assert Look(s, c).corners == s.corners + [Shifted(c.pt, -1.0), Shifted(c.pt, 1.0)];
      }
    }
  }

  predicate DrawsInModel(cs: seq<Command>, i: nat, p: Vec3)
    requires i < |cs|
  {
    Looked(cs, i) && Draws(cs[i], p)
  }

  lemma CornersStep(cs: seq<Command>, p: Vec3)
    requires cs != []
    ensures var n := |cs| - 1;
      p in LookAll(cs).corners <==> p in LookAll(cs[..n]).corners || DrawsInModel(cs, n, p)
  {
    hide Draws, InDisplay, NoStop;
    var n := |cs| - 1;
    StopsIff(cs[..n]);
    Prefix(cs);
    if LookAll(cs[..n]).bad == 0 {
      hide Look;
      LookCorners(LookAll(cs[..n]), cs[n], p);
      DisplayIff(cs[..n]);
    }
  }

  /** The corners are those of what is drawn in model space up to the first unknown
      command, and of nothing else. */
  lemma {:induction false} CornersIff(cs: seq<Command>, p: Vec3)
    ensures p in LookAll(cs).corners <==> exists i :: 0 <= i < |cs| && DrawsInModel(cs, i, p)
  {
    if cs == [] {
      NothingLooked();
    } else {
      hide LookAll, Draws, Looked, NoStop, InDisplay, StopsFirst;
      var n := |cs| - 1;
      CornersStep(cs, p);
      CornersIff(cs[..n], p);
      Prefix(cs);
      assert forall i :: 0 <= i < n ==> (DrawsInModel(cs, i, p) <==> DrawsInModel(cs[..n], i, p));
    }
  }

  /** A box has what the command draws: its point, or all that is within 1 of it. */
  ghost predicate Has(c: Box.Rpp, d: Command)
  {
    d.Located?
    ==>
      && (d.cmd in {0, 1, 3, 4, 5, 8, 9, 10} ==> Box.PointIn(d.pt, c))
      && (d.cmd in {12, 15} ==> forall q :: Box.Touching(q, d.pt, 1.0) ==> Box.PointIn(q, c))
  }

  lemma HasIff(c: Box.Rpp, d: Command)
    ensures Has(c, d) <==> forall p :: Draws(d, p) ==> Box.PointIn(p, c)
  {
    if d.Located? {
      var p := d.pt;
      var lo, hi := Vec3(p.x - 1.0, p.y - 1.0, p.z - 1.0), Vec3(p.x + 1.0, p.y + 1.0, p.z + 1.0);
      assert Draws(d, p) <==> d.cmd in {0, 1, 3, 4, 5, 8, 9, 10};
      assert d.cmd in {12, 15} ==> Draws(d, lo) && Draws(d, hi);
      assert Box.Touching(lo, p, 1.0) && Box.Touching(hi, p, 1.0);
    }
  }

  /** A box has all that is drawn in model space up to the first unknown command. */
  ghost predicate HasAll(c: Box.Rpp, cs: seq<Command>)
  {
    forall i :: 0 <= i < |cs| && Looked(cs, i) ==> Has(c, cs[i])
  }

  /** The grown box is within another exactly if that has the first box and all
      that is drawn. */
  lemma BoxIff(b: Box.Rpp, cs: seq<Command>, c: Box.Rpp)
    ensures Box.Within(Box.Grown(b, LookAll(cs).corners), c) <==> Box.Within(b, c) && HasAll(c, cs)
  {
    hide Box.Grown, Box.Within, LookAll, Looked, Has, Draws, Box.PointIn;
    var ps := LookAll(cs).corners;
    Box.GrownIsLeast(b, ps, c);
    forall p
      ensures p in ps <==> exists i :: 0 <= i < |cs| && DrawsInModel(cs, i, p)
    {
      CornersIff(cs, p);
    }
    forall i | 0 <= i < |cs|
      ensures Has(c, cs[i]) <==> forall p :: Draws(cs[i], p) ==> Box.PointIn(p, c)
    {
      HasIff(c, cs[i]);
    }
    if HasAll(c, cs) {
      forall k | 0 <= k < |ps|
        ensures Box.PointIn(ps[k], c)
      {
        assert ps[k] in ps;
        var i :| 0 <= i < |cs| && DrawsInModel(cs, i, ps[k]);
      }
    }
    if forall k :: 0 <= k < |ps| ==> Box.PointIn(ps[k], c) {
      forall i, p | 0 <= i < |cs| && Looked(cs, i) && Draws(cs[i], p)
        ensures Box.PointIn(p, c)
      {
        assert DrawsInModel(cs, i, p);
        assert p in ps;
      }
    }
  }

  /** `V_MIN` and `V_MAX` with one point, or two opposite corners. */
  function Grow(b: Box.Rpp, p: Vec3, q: Vec3): (r: Box.Rpp)
  {
    Box.Rpp(Box.MinOf(b.lo, p), Box.MaxOf(b.hi, q))
  }

  lemma GrowCorners(b: Box.Rpp, ps: seq<Vec3>, p: Vec3)
    ensures Box.Grown(b, ps + [p]) == Grow(Box.Grown(b, ps), p, p)
    ensures Box.Grown(b, ps + [Shifted(p, -1.0), Shifted(p, 1.0)])
      == Grow(Box.Grown(b, ps), Shifted(p, -1.0), Shifted(p, 1.0))
  {
    var lo, hi := Shifted(p, -1.0), Shifted(p, 1.0);
    assert (ps + [p])[..|ps|] == ps;
    assert (ps + [lo, hi])[..|ps| + 1] == ps + [lo];
    assert (ps + [lo])[..|ps|] == ps;
  }

  /** What has been looked at so far, and the box grown from `start` by it. */
  ghost predicate Seen(cs: seq<Command>, start: Box.Rpp, cmd: int, b: Box.Rpp, display: bool)
  {
    var scan := LookAll(cs);
    cmd == scan.bad && b == Box.Grown(start, scan.corners) && display == scan.display
  }

  predicate AllKnown(cs: seq<Command>)
  {
    NoStop(cs, |cs|)
  }

  /** What was asked for: `cmd` is the first unknown command or 0, and `b` is the
      least box that has `b0` and all that is drawn before it. */
  ghost predicate Bounded(cs: seq<Command>, b0: Box.Rpp, cmd: int, b: Box.Rpp)
  {
    && (cmd == 0 <==>
      forall i :: 0 <= i < |cs| && Looked(cs, i) && cs[i].Located? ==> 0 <= cs[i].cmd <= 16)
    && (cmd != 0 ==>
      exists i :: 0 <= i < |cs| && Looked(cs, i) && cs[i].Located? && cmd == cs[i].cmd && !(0 <= cmd <= 16))
    && (forall c :: Box.Within(b, c) <==> Box.Within(b0, c) && HasAll(c, cs))
  }

  lemma CmdIs(cs: seq<Command>, cmd: int)
    requires cmd == LookAll(cs).bad
    ensures cmd == 0 <==> AllKnown(cs)
    ensures cmd == 0 <==> forall i :: 0 <= i < |cs| && Looked(cs, i) && cs[i].Located? ==> 0 <= cs[i].cmd <= 16
    ensures cmd != 0 ==>
      exists i :: 0 <= i < |cs| && Looked(cs, i) && cs[i].Located? && cmd == cs[i].cmd && !(0 <= cmd <= 16)
  {
    hide LookAll, InDisplay;
    StopsIff(cs);
    if cmd != 0 {
      FirstStop(cs, |cs|);
      var i :| 0 <= i < |cs| && StopsFirst(cs, i);
      assert Looked(cs, i);
    }
  }

  lemma SeenBounds(cs: seq<Command>, b0: Box.Rpp, cmd: int, b: Box.Rpp, display: bool)
    requires Seen(cs, b0, cmd, b, display)
    ensures Bounded(cs, b0, cmd, b)
    ensures cmd == 0 <==> AllKnown(cs)
  {
    hide Box.Within, HasAll, LookAll, Box.Grown, NoStop, StopsFirst, Looked, AllKnown;
    CmdIs(cs, cmd);
    forall c
      ensures Box.Within(b, c) <==> Box.Within(b0, c) && HasAll(c, cs)
    {
      BoxIff(b0, cs, c);
    }
  }

  lemma SpelledOut(cs: seq<Command>, b0: Box.Rpp, cmd: int, b: Box.Rpp)
    requires Bounded(cs, b0, cmd, b)
    ensures forall c :: Box.Within(b, c) <==>
      && Box.Within(b0, c)
      && forall i :: 0 <= i < |cs| && Looked(cs, i) && cs[i].Located? ==>
        && (cs[i].cmd in {0, 1, 3, 4, 5, 8, 9, 10} ==> Box.PointIn(cs[i].pt, c))
        && (cs[i].cmd in {12, 15} ==> forall q :: Box.Touching(q, cs[i].pt, 1.0) ==> Box.PointIn(q, c))
  {
    hide Box.Within, Box.Touching, Box.PointIn, Looked;
  }

  lemma SeenMore(cs: seq<Command>, e: Entry, start: Box.Rpp, b: Box.Rpp, display: bool)
    requires Seen(cs, start, 0, b, display)
    ensures var (code, pt, more) := (e.cmd, e.pt, cs + [Meaning(e)]);
      if display && code != BN_VLIST_MODEL_MAT then Seen(more, start, 0, b, display)
      else if IsAttribute(code) then Seen(more, start, 0, b, false)
      else if IsLocation(code) then Seen(more, start, 0, Grow(b, pt, pt), false)
      else if code == BN_VLIST_DISPLAY_MAT || code == BN_VLIST_POINT_DRAW then
        Seen(more, start, 0, Grow(b, Shifted(pt, -1.0), Shifted(pt, 1.0)), code == BN_VLIST_DISPLAY_MAT)
      else Seen(more, start, code, b, false)
  {
    hide Box.Grown;
    assert (cs + [Meaning(e)])[..|cs|] == cs;
    GrowCorners(start, LookAll(cs).corners, e.pt);
  }

  lemma SeenBad(cs: seq<Command>, more: seq<Command>, start: Box.Rpp, cmd: int, b: Box.Rpp, display: bool)
    requires Seen(cs, start, cmd, b, display) && cmd != 0
    ensures Seen(cs + more, start, cmd, b, display)
  {
    BadStays(cs, more);
  }

  /** `bn_vlist_bbox_internal`: the box after one more chunk. */
  method BboxInternal(c: Chunk, b0: Box.Rpp, display0: bool, ghost before: seq<Command>, ghost start: Box.Rpp)
    returns (cmd: int, b: Box.Rpp, display: bool)
    requires Seen(before, start, 0, b0, display0)
    ensures Seen(before + Meanings(Used(c)), start, cmd, b, display)
  {
    hide Seen;
    ghost var cs := Meanings(Used(c));
    b, display := b0, display0;
    assert before + cs[..0] == before;
    for i := 0 to c.nused
      invariant Seen(before + cs[..i], start, 0, b, display)
    {
      var code, pt := c.cmd[i], c.pt[i];
      TakeNext(before, cs, i);
      SeenMore(before + cs[..i], Entry(code, pt), start, b, display);
      if display && code != BN_VLIST_MODEL_MAT {
        continue;
      }
      display := false;
      if IsAttribute(code) {
      } else if IsLocation(code) {
        b := Grow(b, pt, pt);
      } else if code == BN_VLIST_DISPLAY_MAT || code == BN_VLIST_POINT_DRAW {
        display := code == BN_VLIST_DISPLAY_MAT;
        b := Grow(b, Shifted(pt, -1.0), Shifted(pt, 1.0));
      } else {
        SeenBad(before + cs[..i + 1], cs[i + 1..], start, code, b, false);
        assert before + cs[..i + 1] + cs[i + 1..] == before + cs;
        return code, b, display;
      }
    }
    assert cs[..c.nused] == cs;
    cmd := 0;
  }

  lemma {:induction false} VisitSplit(s: seq<VLink>, k: nat)
    requires k <= |s|
    ensures Visit(s) == Visit(s[..k]) + Visit(s[k..])
  {
    if k == |s| {
      assert s[..k] == s;
    } else {
      var n := |s| - 1;
      VisitSplit(s[..n], k);
      assert s[..n][..k] == s[..k] && s[..n][k..] == s[k..][..n - k];
    }
  }

  /** The walk along `s` ended after its first `k` chunks, which hold `length`
      commands: at the end of the list, or before the first unknown command. */
  ghost predicate StoppedAt(s: seq<VLink>, k: nat, length: nat)
    reads s`data
  {
    && k <= |s| && length == |Visit(s[..k])|
    && AllKnown(Meanings(Visit(s[..k])))
    && (k < |s| ==> !AllKnown(Meanings(Visit(s[..k + 1]))))
  }

  /** The loop over the chunks. */
  method BboxChunks(w: Pool, h: VLink, b0: Box.Rpp) returns (cmd: int, b: Box.Rpp, length: nat)
    requires w.Valid() && h in w.lists
    ensures Bounded(Meanings(Visit(w.lists[h])), b0, cmd, b)
    ensures exists k :: StoppedAt(w.lists[h], k, length)
  {
    hide Ring, Owned, LookAll, Visit, Meanings, Used, Bounded, AllKnown, Seen;
    ghost var s, k := w.lists[h], 0;
    w.Forward(h);
    NothingSeen(b0);
    var display := false;
    cmd, b, length := 0, b0, 0;
    var vp := h.forw;
    while vp != h
      invariant 0 <= k <= |s| && vp == At(h, s, k)
      invariant length == |Visit(s[..k])|
      invariant Seen(Meanings(Visit(s[..k])), b0, cmd, b, display)
      invariant cmd == 0
      decreases |s| - k
    {
      VisitNext(s, k);
      MeaningsAppend(Visit(s[..k]), Used(vp.data));
      ghost var start, shown := b, display;
      cmd, b, display := BboxInternal(vp.data, b, display, Meanings(Visit(s[..k])), b0);
      if cmd != 0 {
        VisitSplit(s, k + 1);
        MeaningsAppend(Visit(s[..k + 1]), Visit(s[k + 1..]));
        SeenBad(Meanings(Visit(s[..k + 1])), Meanings(Visit(s[k + 1..])), b0, cmd, b, display);
        SeenBounds(Meanings(Visit(s[..k])), b0, 0, start, shown);
        SeenBounds(Meanings(Visit(s[..k + 1])), b0, cmd, b, display);
        SeenBounds(Meanings(Visit(s)), b0, cmd, b, display);
        assert StoppedAt(s, k, length);
        return;
      }
      length := length + vp.data.nused;
      vp := vp.forw;
      k := k + 1;
    }
    assert s[..k] == s;
    SeenBounds(Meanings(Visit(s)), b0, cmd, b, display);
    assert StoppedAt(s, k, length);
  }

  /** `bn_vlist_bbox`: the least box of the given one and what is drawn in model
      space, with the number of commands looked at, or the first unknown command,
      with the number of commands on the chunks before its chunk. */
  method Bbox(w: Pool, h: VLink, b0: Box.Rpp) returns (cmd: int, b: Box.Rpp, length: nat)
    requires w.Valid() && h in w.lists
    ensures var cs := Meanings(Visit(w.lists[h]));
      && (cmd == 0 <==> forall i :: 0 <= i < |cs| && Looked(cs, i) && cs[i].Located? ==> 0 <= cs[i].cmd <= 16)
      && (cmd != 0 ==>
        exists i :: 0 <= i < |cs| && Looked(cs, i) && cs[i].Located? && cmd == cs[i].cmd && !(0 <= cmd <= 16))
      && (forall c :: Box.Within(b, c) <==>
        && Box.Within(b0, c)
        && forall i :: 0 <= i < |cs| && Looked(cs, i) && cs[i].Located? ==>
          && (cs[i].cmd in {0, 1, 3, 4, 5, 8, 9, 10} ==> Box.PointIn(cs[i].pt, c))
          && (cs[i].cmd in {12, 15} ==> forall q :: Box.Touching(q, cs[i].pt, 1.0) ==> Box.PointIn(q, c)))
    ensures var s := w.lists[h];
      exists k :: 0 <= k <= |s| && length == |Visit(s[..k])| && AllKnown(Meanings(Visit(s[..k])))
        && (k < |s| ==> !AllKnown(Meanings(Visit(s[..k + 1]))))
  {
    hide Ring, Owned, Visit, Meanings, AllKnown, HasAll, Looked, Box.Within, Box.PointIn;
    cmd, b, length := BboxChunks(w, h, b0);
    SpelledOut(Meanings(Visit(w.lists[h])), b0, cmd, b);
    assert exists k :: StoppedAt(w.lists[h], k, length);
  }

  lemma NothingSeen(b: Box.Rpp)
    ensures Visit([]) == [] && Seen(Meanings([]), b, 0, b, false)
  {
  }
}
