/** The comparison loop and exit status of bench/pixcmp.c. */
module Pixcmp {

  import opened Bytes

  const EOF := -1

  const FILE_ERROR := 126
  const OFF_BY_NONE := 0
  const OFF_BY_ONE := 1
  const OFF_BY_MANY := 2

  /** A regular file open for reading, on which no read fails. */
  class Stream {
    const data: seq<byte>
    var pos: nat
    var eof: bool

    constructor (data: seq<byte>)
      ensures this.data == data && pos == 0 && !eof
    {
      this.data, pos, eof := data, 0, false;
    }

    /** What is left to read. */
    function Rest(): seq<byte>
      reads this
    {
      if pos <= |data| then data[pos..] else []
    }

    /** `bu_fseek` from the start, which may go past the end. */
    method Seek(offset: nat)
      modifies this
      ensures pos == offset && !eof
    {
      pos, eof := offset, false;
    }

    /** `fgetc`. */
    method Getc() returns (c: int)
      modifies this
      ensures old(Rest()) == [] ==> c == EOF && eof && pos == old(pos)
      ensures old(Rest()) != [] ==> c == old(Rest()[0]) && eof == old(eof) && Rest() == old(Rest()[1..])
    {
      if pos < |data| {
        c := data[pos];
        pos := pos + 1;
      } else {
        c := EOF;
        eof := true;
      }
    }
  }

  // --- what the counts mean

  function Gap(r1: int, r2: int): nat
  {
    if r1 > r2 then r1 - r2 else r2 - r1
  }

  /** How far apart two units are, summed over their channels. */
  function Distance(u: seq<byte>, v: seq<byte>): nat
    requires |u| == |v|
  {
    if u == [] then 0 else Gap(u[0], v[0]) + Distance(u[1..], v[1..])
  }

  datatype Counts = Counts(matching: nat, off1: nat, offmany: nat)

  /** A unit that differs by 1 in all is off by one, and by more, off by many. */
  function Tallied(c: Counts, d: nat): Counts
  {
    if d == 0 then c.(matching := c.matching + 1)
    else if d == 1 then c.(off1 := c.off1 + 1)
    else c.(offmany := c.offmany + 1)
  }

  /** Where unit `n` starts: units are bytes or pixels of three. */
  function Start(n: nat, byBytes: bool): nat
  {
    if byBytes then n else 3 * n
  }

  /** Unit `n` of a stream. */
  function UnitAt(s: seq<byte>, n: nat, byBytes: bool): seq<byte>
    requires Start(n + 1, byBytes) <= |s|
  {
    s[Start(n, byBytes)..Start(n + 1, byBytes)]
  }

  /** The first `n` units of each stream, compared. */
  function Tally(s: seq<byte>, t: seq<byte>, byBytes: bool, n: nat): Counts
    requires Start(n, byBytes) <= |s| && Start(n, byBytes) <= |t|
  {
    if n == 0 then Counts(0, 0, 0)
    else Tallied(Tally(s, t, byBytes, n - 1), Distance(UnitAt(s, n - 1, byBytes), UnitAt(t, n - 1, byBytes)))
  }

  /** How many whole units both streams have. */
  function Units(s: seq<byte>, t: seq<byte>, byBytes: bool): (n: nat)
    ensures Start(n, byBytes) <= |s| && Start(n, byBytes) <= |t|
    ensures Start(n + 1, byBytes) > |s| || Start(n + 1, byBytes) > |t|
  {
    var n := if |s| < |t| then |s| else |t|;
    if byBytes then n else n / 3
  }

  function Compared(s: seq<byte>, t: seq<byte>, byBytes: bool): Counts
  {
    Tally(s, t, byBytes, Units(s, t, byBytes))
  }

  /** How bad counts are, as the exit status says it. */
  function Worst(c: Counts): int
  {
    if c.offmany > 0 then OFF_BY_MANY else if c.off1 > 0 then OFF_BY_ONE else OFF_BY_NONE
  }

  function Status(s: seq<byte>, t: seq<byte>, byBytes: bool): int
  {
    if |s| != |t| then FILE_ERROR else Worst(Compared(s, t, byBytes))
  }

  // --- laws of the counts

  lemma NothingTallied(s: seq<byte>, t: seq<byte>)
    ensures Tally(s, t, true, 0) == Tally(s, t, false, 0) == Counts(0, 0, 0)
  {
  }

  /** Every whole unit is counted once. */
  lemma {:induction false} EveryUnitCounted(s: seq<byte>, t: seq<byte>, byBytes: bool, n: nat)
    requires Start(n, byBytes) <= |s| && Start(n, byBytes) <= |t|
    ensures var c := Tally(s, t, byBytes, n);
      c.matching + c.off1 + c.offmany == n
  {
    if n > 0 {
      EveryUnitCounted(s, t, byBytes, n - 1);
    }
  }

  lemma {:induction false} DistanceZero(u: seq<byte>, v: seq<byte>)
    requires |u| == |v|
    ensures Distance(u, v) == 0 <==> u == v
    ensures Distance(u, v) == Distance(v, u)
  {
    if u != [] {
      DistanceZero(u[1..], v[1..]);
      assert u == [u[0]] + u[1..] && v == [v[0]] + v[1..];
    }
  }

  /** Swapping the files changes no count, and so not the status. */
  lemma {:induction false} TallySwaps(s: seq<byte>, t: seq<byte>, byBytes: bool, n: nat)
    requires Start(n, byBytes) <= |s| && Start(n, byBytes) <= |t|
    ensures Tally(s, t, byBytes, n) == Tally(t, s, byBytes, n)
  {
    if n > 0 {
      TallySwaps(s, t, byBytes, n - 1);
      DistanceZero(UnitAt(s, n - 1, byBytes), UnitAt(t, n - 1, byBytes));
    }
  }

  lemma StatusSwaps(s: seq<byte>, t: seq<byte>, byBytes: bool)
    ensures Compared(s, t, byBytes) == Compared(t, s, byBytes)
    ensures Status(s, t, byBytes) == Status(t, s, byBytes)
  {
    TallySwaps(s, t, byBytes, Units(s, t, byBytes));
  }

  /** Equality of two prefixes that grow by one unit. */
  lemma PrefixGrows(s: seq<byte>, t: seq<byte>, a: nat, b: nat)
    requires a <= b <= |s| && b <= |t|
    ensures s[..b] == t[..b] <==> s[..a] == t[..a] && s[a..b] == t[a..b]
  {
  }

  lemma {:induction false} AllMatch(s: seq<byte>, t: seq<byte>, byBytes: bool, n: nat)
    requires Start(n, byBytes) <= |s| && Start(n, byBytes) <= |t|
    ensures Tally(s, t, byBytes, n).matching == n <==> s[..Start(n, byBytes)] == t[..Start(n, byBytes)]
  {
    hide Distance;
    if n > 0 {
      var a, b := Start(n - 1, byBytes), Start(n, byBytes);
      AllMatch(s, t, byBytes, n - 1);
      EveryUnitCounted(s, t, byBytes, n - 1);
      DistanceZero(s[a..b], t[a..b]);
      PrefixGrows(s, t, a, b);
    }
  }

  /** Success means equal lengths and equal whole units, and nothing more. */
  lemma SuccessIff(s: seq<byte>, t: seq<byte>, byBytes: bool)
    ensures var whole := Start(Units(s, t, byBytes), byBytes);
      Status(s, t, byBytes) == OFF_BY_NONE <==> |s| == |t| && s[..whole] == t[..whole]
  {
    var n := Units(s, t, byBytes);
    AllMatch(s, t, byBytes, n);
    EveryUnitCounted(s, t, byBytes, n);
  }

  /** So bytes that are left over after the last whole pixel are never compared. */
  lemma TrailingBytesUnseen()
    ensures Status([1, 2, 3, 4], [1, 2, 3, 200], false) == OFF_BY_NONE
    ensures Status([1, 2, 3, 4], [1, 2, 3, 200], true) == OFF_BY_MANY
  {
    SuccessIff([1, 2, 3, 4], [1, 2, 3, 200], false);
    var s, t: seq<byte> := [1, 2, 3, 4], [1, 2, 3, 200];
    assert Distance(s[3..4], t[3..4]) == 196 by {
      assert s[3..4][1..] == [] && t[3..4][1..] == [];
    }
    assert Tally(s, t, true, 4) == Tallied(Tally(s, t, true, 3), Distance(UnitAt(s, 3, true), UnitAt(t, 3, true)));
  }

  function WorstOf(d: nat): int
  {
    if d == 0 then OFF_BY_NONE else if d == 1 then OFF_BY_ONE else OFF_BY_MANY
  }

  function Max(a: int, b: int): int
  {
    if a < b then b else a
  }

  lemma WorstTallied(c: Counts, d: nat)
    ensures Worst(Tallied(c, d)) == Max(Worst(c), WorstOf(d))
    ensures 0 <= Worst(c)
  {
  }

  function GapAt(s: seq<byte>, t: seq<byte>, k: nat): nat
    requires k < |s| && k < |t|
  {
    Gap(s[k], t[k])
  }

  lemma DistanceStep(u: seq<byte>, v: seq<byte>)
    requires |u| == |v| > 0
    ensures Distance(u, v) == GapAt(u, v, 0) + Distance(u[1..], v[1..])
  {
  }

  lemma OneByte(s: seq<byte>, t: seq<byte>, k: nat)
    requires k < |s| && k < |t|
    ensures Tally(s, t, true, k + 1) == Tallied(Tally(s, t, true, k), GapAt(s, t, k))
  {
    hide Tallied;
    DistanceStep(s[k..k + 1], t[k..k + 1]);
    assert s[k..k + 1][1..] == [] && t[k..k + 1][1..] == [];
    assert Tally(s, t, true, k + 1) == Tallied(Tally(s, t, true, k), Distance(s[k..k + 1], t[k..k + 1]));
  }

  lemma PixelDistance(s: seq<byte>, t: seq<byte>, k: nat)
    requires k + 3 <= |s| && k + 3 <= |t|
    ensures Distance(s[k..k + 3], t[k..k + 3]) == GapAt(s, t, k) + GapAt(s, t, k + 1) + GapAt(s, t, k + 2)
  {
    hide Distance;
    DistanceStep(s[k..k + 3], t[k..k + 3]);
    assert s[k..k + 3][1..] == s[k + 1..k + 3] && t[k..k + 3][1..] == t[k + 1..k + 3];
    DistanceStep(s[k + 1..k + 3], t[k + 1..k + 3]);
    assert s[k + 1..k + 3][1..] == s[k + 2..k + 3] && t[k + 1..k + 3][1..] == t[k + 2..k + 3];
    DistanceStep(s[k + 2..k + 3], t[k + 2..k + 3]);
    assert s[k + 2..k + 3][1..] == [] && t[k + 2..k + 3][1..] == [];
    DistanceZero([], []);
  }

  lemma OnePixel(s: seq<byte>, t: seq<byte>, n: nat)
    requires 3 * n + 3 <= |s| && 3 * n + 3 <= |t|
    ensures var k := 3 * n;
      Tally(s, t, false, n + 1)
        == Tallied(Tally(s, t, false, n), GapAt(s, t, k) + GapAt(s, t, k + 1) + GapAt(s, t, k + 2))
  {
    hide Tallied, Distance, GapAt;
    PixelDistance(s, t, 3 * n);
    assert Tally(s, t, false, n + 1)
      == Tallied(Tally(s, t, false, n), Distance(s[3 * n..3 * n + 3], t[3 * n..3 * n + 3]));
  }

  /** What three bytes add to the worst of the byte counts. */
  lemma ThreeBytes(s: seq<byte>, t: seq<byte>, k: nat)
    requires k + 3 <= |s| && k + 3 <= |t|
    ensures Worst(Tally(s, t, true, k + 3))
      == Max(Max(Max(Worst(Tally(s, t, true, k)), WorstOf(GapAt(s, t, k))), WorstOf(GapAt(s, t, k + 1))),
             WorstOf(GapAt(s, t, k + 2)))
    ensures 0 <= Worst(Tally(s, t, true, k))
  {
    hide Tally, Tallied, Worst, WorstOf, GapAt, Max;
    OneByte(s, t, k);
    OneByte(s, t, k + 1);
    OneByte(s, t, k + 2);
    WorstTallied(Tally(s, t, true, k), GapAt(s, t, k));
    WorstTallied(Tally(s, t, true, k + 1), GapAt(s, t, k + 1));
    WorstTallied(Tally(s, t, true, k + 2), GapAt(s, t, k + 2));
  }

  /** Pixel by pixel, a comparison by bytes is at most as bad, and both are good
      together. */
  lemma {:induction false} BytesAgainstPixels(s: seq<byte>, t: seq<byte>, n: nat)
    requires 3 * n <= |s| && 3 * n <= |t|
    ensures Worst(Tally(s, t, true, 3 * n)) <= Worst(Tally(s, t, false, n))
    ensures Worst(Tally(s, t, true, 3 * n)) == 0 <==> Worst(Tally(s, t, false, n)) == 0
  {
    hide Tally, Tallied, Worst, GapAt;
    if n == 0 {
      NothingTallied(s, t);
    } else {
      BytesAgainstPixels(s, t, n - 1);
      var k := 3 * (n - 1);
      ThreeBytes(s, t, k);
      OnePixel(s, t, n - 1);
      WorstTallied(Tally(s, t, false, n - 1), GapAt(s, t, k) + GapAt(s, t, k + 1) + GapAt(s, t, k + 2));
      assert k + 3 == 3 * n;
    }
  }

  /** On streams of equal length that are whole pixels, the byte mode succeeds
      exactly when the pixel mode does, and its status is never worse. */
  lemma ByteModeIsMilder(s: seq<byte>, t: seq<byte>)
    requires |s| == |t| && |s| % 3 == 0
    ensures Status(s, t, true) == OFF_BY_NONE <==> Status(s, t, false) == OFF_BY_NONE
    ensures Status(s, t, true) <= Status(s, t, false)
  {
    BytesAgainstPixels(s, t, |s| / 3);
  }

  // --- what the counts and the status say about the bytes

  function Width(byBytes: bool): nat
  {
    if byBytes then 1 else 3
  }

  /** Two units of `w` bytes at place `p`: all their bytes are equal. */
  predicate SameAt(s: seq<byte>, t: seq<byte>, p: nat, w: nat)
    requires p + w <= |s| && p + w <= |t|
  {
    forall i :: p <= i < p + w ==> s[i] == t[i]
  }

  /** One byte is off by one, and the others are equal. */
  predicate OneOffAt(s: seq<byte>, t: seq<byte>, p: nat, w: nat)
    requires p + w <= |s| && p + w <= |t|
  {
    exists j :: p <= j < p + w && OneOff(s[j], t[j]) && forall i :: p <= i < p + w && i != j ==> s[i] == t[i]
  }

  predicate OneOff(a: byte, b: byte)
  {
    a - b == 1 || b - a == 1
  }

  /** On a single byte. */
  lemma ByteAt(s: seq<byte>, t: seq<byte>, p: nat)
    requires p < |s| && p < |t|
    ensures SameAt(s, t, p, 1) <==> s[p] == t[p]
    ensures OneOffAt(s, t, p, 1) <==> s[p] as int - t[p] as int in {-1, 1}
  {
  }

  lemma GapIs(s: seq<byte>, t: seq<byte>, k: nat)
    requires k < |s| && k < |t|
    ensures GapAt(s, t, k) == 0 <==> s[k] == t[k]
    ensures GapAt(s, t, k) == 1 <==> OneOff(s[k], t[k])
  {
  }

  /** On the three channels of a pixel. */
  lemma PixelAt(s: seq<byte>, t: seq<byte>, p: nat)
    requires p + 3 <= |s| && p + 3 <= |t|
    ensures SameAt(s, t, p, 3) <==> s[p] == t[p] && s[p + 1] == t[p + 1] && s[p + 2] == t[p + 2]
    ensures OneOffAt(s, t, p, 3) <==>
      var r: int, g: int, b: int := s[p] as int - t[p], s[p + 1] as int - t[p + 1], s[p + 2] as int - t[p + 2];
      (r in {-1, 1} && g == b == 0) || (g in {-1, 1} && r == b == 0) || (b in {-1, 1} && r == g == 0)
  {
    if OneOffAt(s, t, p, 3) {
      var j :| p <= j < p + 3 && OneOff(s[j], t[j]) && forall i :: p <= i < p + 3 && i != j ==> s[i] == t[i];
      assert j == p || j == p + 1 || j == p + 2;
    }
  }

  /** How far apart unit `n` of both streams is. */
  function UnitGap(s: seq<byte>, t: seq<byte>, byBytes: bool, n: nat): nat
    requires Start(n + 1, byBytes) <= |s| && Start(n + 1, byBytes) <= |t|
  {
    Distance(UnitAt(s, n, byBytes), UnitAt(t, n, byBytes))
  }

  lemma UnitGapIs(s: seq<byte>, t: seq<byte>, byBytes: bool, n: nat)
    requires Start(n + 1, byBytes) <= |s| && Start(n + 1, byBytes) <= |t|
    ensures UnitGap(s, t, byBytes, n) == 0 <==> SameAt(s, t, Start(n, byBytes), Width(byBytes))
    ensures UnitGap(s, t, byBytes, n) == 1 <==> OneOffAt(s, t, Start(n, byBytes), Width(byBytes))
  {
    hide Distance, GapAt, OneOff;
    var p := Start(n, byBytes);
    GapIs(s, t, p);
    if byBytes {
      DistanceStep(s[p..p + 1], t[p..p + 1]);
      DistanceZero([], []);
      assert s[p..p + 1][1..] == [] && t[p..p + 1][1..] == [];
      GapIs(s[p..p + 1], t[p..p + 1], 0);
    } else {
      PixelDistance(s, t, p);
      GapIs(s, t, p + 1);
      GapIs(s, t, p + 2);
      PixelAt(s, t, p);
    }
  }

  function SameUnits(s: seq<byte>, t: seq<byte>, byBytes: bool, n: nat): set<nat>
    requires Start(n, byBytes) <= |s| && Start(n, byBytes) <= |t|
  {
    set u: nat | u < n && SameAt(s, t, Start(u, byBytes), Width(byBytes))
  }

  function OneOffUnits(s: seq<byte>, t: seq<byte>, byBytes: bool, n: nat): set<nat>
    requires Start(n, byBytes) <= |s| && Start(n, byBytes) <= |t|
  {
    set u: nat | u < n && OneOffAt(s, t, Start(u, byBytes), Width(byBytes))
  }

  lemma UnitsGrow(s: seq<byte>, t: seq<byte>, byBytes: bool, n: nat)
    requires Start(n + 1, byBytes) <= |s| && Start(n + 1, byBytes) <= |t|
    ensures var d := UnitGap(s, t, byBytes, n);
      && SameUnits(s, t, byBytes, n + 1) == SameUnits(s, t, byBytes, n) + (if d == 0 then {n} else {})
      && OneOffUnits(s, t, byBytes, n + 1) == OneOffUnits(s, t, byBytes, n) + (if d == 1 then {n} else {})
      && n !in SameUnits(s, t, byBytes, n) && n !in OneOffUnits(s, t, byBytes, n)
  {
    hide SameAt, OneOffAt, UnitGap;
    UnitGapIs(s, t, byBytes, n);
  }

  lemma NoUnits(s: seq<byte>, t: seq<byte>, byBytes: bool)
    ensures SameUnits(s, t, byBytes, 0) == {} == OneOffUnits(s, t, byBytes, 0)
    ensures Tally(s, t, byBytes, 0) == Counts(0, 0, 0)
  {
  }

  lemma TallyStep(s: seq<byte>, t: seq<byte>, byBytes: bool, n: nat)
    requires Start(n + 1, byBytes) <= |s| && Start(n + 1, byBytes) <= |t|
    ensures Tally(s, t, byBytes, n + 1) == Tallied(Tally(s, t, byBytes, n), UnitGap(s, t, byBytes, n))
  {
    hide Distance;
  }

  /** The counts are the numbers of units that are equal, off by one, and others. */
  lemma {:induction false} CountsAre(s: seq<byte>, t: seq<byte>, byBytes: bool, n: nat)
    requires Start(n, byBytes) <= |s| && Start(n, byBytes) <= |t|
    ensures var c := Tally(s, t, byBytes, n);
      && c.matching == |SameUnits(s, t, byBytes, n)|
      && c.off1 == |OneOffUnits(s, t, byBytes, n)|
      && c.offmany == n - c.matching - c.off1
  {
    hide Tally, SameUnits, OneOffUnits, UnitGap;
    if n == 0 {
      NoUnits(s, t, byBytes);
    } else {
      CountsAre(s, t, byBytes, n - 1);
      TallyStep(s, t, byBytes, n - 1);
      UnitsGrow(s, t, byBytes, n - 1);
    }
  }

  /** The worst unit decides. */
  lemma {:induction false} WorstIff(s: seq<byte>, t: seq<byte>, byBytes: bool, n: nat)
    requires Start(n, byBytes) <= |s| && Start(n, byBytes) <= |t|
    ensures var c := Tally(s, t, byBytes, n);
      && (c.offmany > 0 <==> exists u: nat :: u < n && UnitGap(s, t, byBytes, u) > 1)
      && (c.off1 > 0 <==> exists u: nat :: u < n && UnitGap(s, t, byBytes, u) == 1)
  {
    hide Tally, UnitGap;
    if n == 0 {
      NoUnits(s, t, byBytes);
    } else {
      WorstIff(s, t, byBytes, n - 1);
      TallyStep(s, t, byBytes, n - 1);
    }
  }

  // --- the comparison loop

  /** The cascade that sorts one unit, given its channels in both files. */
  method Tabulate(r1: int, r2: int, g1: int, g2: int, b1: int, b2: int, was: Counts) returns (c: Counts)
    ensures c == Tallied(was, Gap(r1, r2) + Gap(g1, g2) + Gap(b1, b2))
  {
    c := was;
    if r1 == r2 && g1 == g2 && b1 == b2 {
      c := c.(matching := c.matching + 1);
      return;
    }
    if (r1 != r2 && g1 == g2 && b1 == b2)
      || (r1 == r2 && g1 != g2 && b1 == b2)
      || (r1 == r2 && g1 == g2 && b1 != b2) {
      if r1 != r2 {
        if (if r1 > r2 then r1 - r2 else r2 - r1) > 1 {
          c := c.(offmany := c.offmany + 1);
        } else {
          c := c.(off1 := c.off1 + 1);
        }
      } else if g1 != g2 {
        if (if g1 > g2 then g1 - g2 else g2 - g1) > 1 {
          c := c.(offmany := c.offmany + 1);
        } else {
          c := c.(off1 := c.off1 + 1);
        }
      } else if b1 != b2 {
        if (if b1 > b2 then b1 - b2 else b2 - b1) > 1 {
          c := c.(offmany := c.offmany + 1);
        } else {
          c := c.(off1 := c.off1 + 1);
        }
      }
    } else {
      c := c.(offmany := c.offmany + 1);
    }
  }

  /** What the loop holds once a unit has been read: in byte mode the unread
      channels are still -1. */
  lemma OneUnit(s: seq<byte>, t: seq<byte>, byBytes: bool, n: nat,
                r1: int, r2: int, g1: int, g2: int, b1: int, b2: int)
    requires Start(n + 1, byBytes) <= |s| && Start(n + 1, byBytes) <= |t|
    requires var k := Start(n, byBytes);
      && r1 == s[k] && r2 == t[k]
      && (if byBytes then g1 == g2 && b1 == b2
          else g1 == s[k + 1] && g2 == t[k + 1] && b1 == s[k + 2] && b2 == t[k + 2])
    ensures Tally(s, t, byBytes, n + 1) == Tallied(Tally(s, t, byBytes, n), Gap(r1, r2) + Gap(g1, g2) + Gap(b1, b2))
  {
    hide Tally, Tallied;
    if byBytes {
      OneByte(s, t, n);
    } else {
      OnePixel(s, t, n);
    }
  }

  lemma AllUnits(s: seq<byte>, t: seq<byte>, byBytes: bool, n: nat, bytes: nat)
    requires bytes == (if |s| < |t| then |s| else |t|)
    requires Start(n, byBytes) <= bytes < Start(n + 1, byBytes)
    ensures n == Units(s, t, byBytes)
  {
  }

  /** One `fgetc` on each stream, and the test that ends the loop. */
  method GetBoth(f1: Stream, f2: Stream, ghost s: seq<byte>, ghost t: seq<byte>, ghost p: nat)
    returns (c1: int, c2: int, ended: bool)
    requires f1 != f2 && !f1.eof && !f2.eof
    requires p <= |s| && p <= |t| && f1.Rest() == s[p..] && f2.Rest() == t[p..]
    modifies f1, f2
    ensures ended == (f1.eof || f2.eof) == (p == |s| || p == |t|)
    ensures ended ==> (f1.eof == f2.eof <==> |s| == |t|)
    ensures !ended ==> c1 == s[p] && c2 == t[p]
    ensures !ended ==> f1.Rest() == s[p + 1..] && f2.Rest() == t[p + 1..]
  {
    c1 := f1.Getc();
    c2 := f2.Getc();
    ended := f1.eof || f2.eof;
  }

  /** The bytes of one unit from each stream, one channel at a time; the loop
      ends as soon as either stream does, wherever in the unit that is. */
  method GetUnit(f1: Stream, f2: Stream, printBytes: bool, was: nat,
                 ghost s: seq<byte>, ghost t: seq<byte>, ghost n: nat)
    returns (r1: int, r2: int, g1: int, g2: int, b1: int, b2: int, bytes: nat, ended: bool)
    requires f1 != f2 && !f1.eof && !f2.eof
    requires was == Start(n, printBytes) <= |s| && was <= |t|
    requires f1.Rest() == s[was..] && f2.Rest() == t[was..]
    modifies f1, f2
    ensures ended == (f1.eof || f2.eof)
    ensures ended ==> (f1.eof == f2.eof <==> |s| == |t|)
    ensures ended ==> was <= bytes < Start(n + 1, printBytes) && bytes == (if |s| < |t| then |s| else |t|)
    ensures !ended ==> bytes == Start(n + 1, printBytes) <= |s| && bytes <= |t|
    ensures !ended ==> f1.Rest() == s[bytes..] && f2.Rest() == t[bytes..]
    ensures !ended ==> r1 == s[was] && r2 == t[was]
    ensures !ended && printBytes ==> g1 == g2 && b1 == b2
    ensures !ended && !printBytes ==> g1 == s[was + 1] && g2 == t[was + 1] && b1 == s[was + 2] && b2 == t[was + 2]
  {
    bytes := was;
    r1, r2, g1, g2, b1, b2 := -1, -1, -1, -1, -1, -1;
    r1, r2, ended := GetBoth(f1, f2, s, t, was);
    if ended { return; }
    bytes := bytes + 1;
    if !printBytes {
      g1, g2, ended := GetBoth(f1, f2, s, t, was + 1);
      if ended { return; }
      bytes := bytes + 1;
      b1, b2, ended := GetBoth(f1, f2, s, t, was + 2);
      if ended { return; }
      bytes := bytes + 1;
    }
  }

  /** Compares what is left of two files. `bytes` is how many bytes were read
      from both. */
  method Compare(f1: Stream, f2: Stream, printBytes: bool) returns (c: Counts, bytes: nat, status: int)
    requires f1 != f2 && !f1.eof && !f2.eof
    modifies f1, f2
    ensures var s, t := old(f1.Rest()), old(f2.Rest());
      c == Compared(s, t, printBytes)
      && c.matching + c.off1 + c.offmany == Units(s, t, printBytes)
      && bytes == (if |s| < |t| then |s| else |t|)
      && status == Status(s, t, printBytes)
  {
    hide Tally, Tallied, Distance, Gap, Units;
    ghost var s, t := f1.Rest(), f2.Rest();
    ghost var n: nat := 0;
    c := Counts(0, 0, 0);
    bytes := 0;
    NothingTallied(s, t);
    while !f1.eof && !f2.eof
      invariant !f1.eof && !f2.eof
      invariant bytes == Start(n, printBytes) <= |s| && bytes <= |t|
      invariant f1.Rest() == s[bytes..] && f2.Rest() == t[bytes..]
      invariant c == Tally(s, t, printBytes, n)
      decreases |s| - bytes
    {
      var r1, r2, g1, g2, b1, b2, ended;
      r1, r2, g1, g2, b1, b2, bytes, ended := GetUnit(f1, f2, printBytes, bytes, s, t, n);
      if ended { break; }
      OneUnit(s, t, printBytes, n, r1, r2, g1, g2, b1, b2);
      c := Tabulate(r1, r2, g1, g2, b1, b2, c);
      n := n + 1;
    }
    AllUnits(s, t, printBytes, n, bytes);
    EveryUnitCounted(s, t, printBytes, n);
    if f1.eof != f2.eof {
      return c, bytes, FILE_ERROR;
    }
    if c.offmany > 0 {
      return c, bytes, OFF_BY_MANY;
    }
    if c.off1 > 0 {
      return c, bytes, OFF_BY_ONE;
    }
    return c, bytes, OFF_BY_NONE;
  }

  // --- the whole command on two regular files

  function Skipped(data: seq<byte>, skip: nat): seq<byte>
  {
    if skip <= |data| then data[skip..] else []
  }

  function Least(a: nat, b: nat): nat
  {
    if a < b then a else b
  }

  /** The exit status for two files, skipping units of the mode at hand. */
  function ExitStatus(data1: seq<byte>, data2: seq<byte>, skip1: nat, skip2: nat, printBytes: bool): int
  {
    if |data1| != |data2| then FILE_ERROR
    else Status(Skipped(data1, Start(skip1, printBytes)), Skipped(data2, Start(skip2, printBytes)), printBytes)
  }

  /** A whole unit of a file starts at `p`, counted from place `k` on. */
  predicate UnitStarts(data: seq<byte>, k: nat, p: nat, byBytes: bool)
  {
    k <= p && if byBytes then p + 1 <= |data| else p + 3 <= |data| && (p - k) % 3 == 0
  }

  /** The status for two files of one size that are both compared from place `k` on. */
  ghost predicate Judges(status: int, data1: seq<byte>, data2: seq<byte>, k: nat, byBytes: bool)
    requires |data1| == |data2|
  {
    var w := Width(byBytes);
    && (status == 0 <==> forall p :: UnitStarts(data1, k, p, byBytes) ==> SameAt(data1, data2, p, w))
    && (status == 1 <==>
      (exists p :: UnitStarts(data1, k, p, byBytes) && OneOffAt(data1, data2, p, w))
      && forall p :: UnitStarts(data1, k, p, byBytes) ==> SameAt(data1, data2, p, w) || OneOffAt(data1, data2, p, w))
    && (status == 2 <==>
      exists p :: UnitStarts(data1, k, p, byBytes) && !SameAt(data1, data2, p, w) && !OneOffAt(data1, data2, p, w))
  }

  /** Where comparing starts: past the skipped units, or at the end. */
  function SkipTo(data: seq<byte>, skip: nat, byBytes: bool): nat
  {
    Least(if byBytes then skip else 3 * skip, |data|)
  }

  lemma UnitMoved(data1: seq<byte>, data2: seq<byte>, k: nat, p: nat, w: nat)
    requires k + p + w <= |data1| && k + p + w <= |data2|
    ensures SameAt(data1[k..], data2[k..], p, w) <==> SameAt(data1, data2, k + p, w)
    ensures OneOffAt(data1[k..], data2[k..], p, w) <==> OneOffAt(data1, data2, k + p, w)
  {
    hide OneOff;
    var s, t := data1[k..], data2[k..];
    assert forall i :: 0 <= i < |s| ==> s[i] == data1[k + i];
    assert forall i :: 0 <= i < |t| ==> t[i] == data2[k + i];
    assert forall i :: k <= i < |data1| ==> data1[i] == s[i - k];
    assert forall i :: k <= i < |data2| ==> data2[i] == t[i - k];
  }

  /** Which unit starts at `p`, and where unit `u` starts. */
  function UnitOf(k: nat, p: int, byBytes: bool): int
  {
    if byBytes then p - k else (p - k) / 3
  }

  function PlaceOf(k: nat, u: nat, byBytes: bool): nat
  {
    k + Start(u, byBytes)
  }

  lemma UnitAtPlace(data1: seq<byte>, data2: seq<byte>, k: nat, byBytes: bool, u: nat)
    requires k <= |data1| == |data2| && u < Units(data1[k..], data2[k..], byBytes)
    ensures var s, t, p := data1[k..], data2[k..], PlaceOf(k, u, byBytes);
      && UnitStarts(data1, k, p, byBytes) && p + Width(byBytes) <= |data1|
      && (UnitGap(s, t, byBytes, u) == 0 <==> SameAt(data1, data2, p, Width(byBytes)))
      && (UnitGap(s, t, byBytes, u) == 1 <==> OneOffAt(data1, data2, p, Width(byBytes)))
  {
    hide UnitGap, SameAt, OneOffAt;
    UnitGapIs(data1[k..], data2[k..], byBytes, u);
    UnitMoved(data1, data2, k, Start(u, byBytes), Width(byBytes));
  }

  lemma PlaceIsUnit(data1: seq<byte>, data2: seq<byte>, k: nat, byBytes: bool, p: nat)
    requires k <= |data1| == |data2| && UnitStarts(data1, k, p, byBytes)
    ensures 0 <= UnitOf(k, p, byBytes) < Units(data1[k..], data2[k..], byBytes)
    ensures PlaceOf(k, UnitOf(k, p, byBytes), byBytes) == p
  {
  }

  lemma RestJudged(data1: seq<byte>, data2: seq<byte>, k: nat, byBytes: bool)
    requires k <= |data1| == |data2|
    ensures Judges(Status(data1[k..], data2[k..], byBytes), data1, data2, k, byBytes)
  {
    hide UnitStarts, SameAt, OneOffAt, UnitGap, Tally, UnitOf, PlaceOf, Units;
    var s, t, w := data1[k..], data2[k..], Width(byBytes);
    var n := Units(s, t, byBytes);
    WorstIff(s, t, byBytes, n);
    forall u: nat | u < n
      ensures var p := PlaceOf(k, u, byBytes);
        && UnitStarts(data1, k, p, byBytes) && p + w <= |data1|
        && (UnitGap(s, t, byBytes, u) == 0 <==> SameAt(data1, data2, p, w))
        && (UnitGap(s, t, byBytes, u) == 1 <==> OneOffAt(data1, data2, p, w))
    {
      UnitAtPlace(data1, data2, k, byBytes, u);
    }
    forall p: nat | UnitStarts(data1, k, p, byBytes)
      ensures 0 <= UnitOf(k, p, byBytes) < n && PlaceOf(k, UnitOf(k, p, byBytes), byBytes) == p
    {
      PlaceIsUnit(data1, data2, k, byBytes, p);
    }
  }

  lemma StatusJudges(data1: seq<byte>, data2: seq<byte>, skip1: nat, skip2: nat, byBytes: bool)
    ensures var k1, k2 := SkipTo(data1, skip1, byBytes), SkipTo(data2, skip2, byBytes);
      var status := ExitStatus(data1, data2, skip1, skip2, byBytes);
      if |data1| != |data2| || k1 != k2 then status == 126 else Judges(status, data1, data2, k1, byBytes)
  {
    hide Judges;
    var k1, k2 := SkipTo(data1, skip1, byBytes), SkipTo(data2, skip2, byBytes);
    assert Skipped(data1, Start(skip1, byBytes)) == data1[k1..];
    assert Skipped(data2, Start(skip2, byBytes)) == data2[k2..];
    if |data1| == |data2| && k1 == k2 {
      RestJudged(data1, data2, k1, byBytes);
    }
  }

  /** Success, byte by byte: from where comparing starts to the end of the last whole
      unit the files are equal. */
  lemma SucceedsIff(data1: seq<byte>, data2: seq<byte>, skip1: nat, skip2: nat, byBytes: bool)
    ensures var k1, k2 := SkipTo(data1, skip1, byBytes), SkipTo(data2, skip2, byBytes);
      var end := if byBytes then |data1| else |data1| - (|data1| - k1) % 3;
      ExitStatus(data1, data2, skip1, skip2, byBytes) == 0 <==>
        |data1| == |data2| && k1 == k2 && forall i :: k1 <= i < end ==> data1[i] == data2[i]
  {
    hide Status;
    var k1, k2 := SkipTo(data1, skip1, byBytes), SkipTo(data2, skip2, byBytes);
    assert Skipped(data1, Start(skip1, byBytes)) == data1[k1..];
    assert Skipped(data2, Start(skip2, byBytes)) == data2[k2..];
    if |data1| == |data2| {
      RestSucceeds(data1, data2, k1, k2, byBytes);
    }
  }

  lemma RestSucceeds(data1: seq<byte>, data2: seq<byte>, k1: nat, k2: nat, byBytes: bool)
    requires k1 <= |data1| == |data2| && k2 <= |data2|
    ensures var end := if byBytes then |data1| else |data1| - (|data1| - k1) % 3;
      Status(data1[k1..], data2[k2..], byBytes) == 0 <==>
        k1 == k2 && forall i :: k1 <= i < end ==> data1[i] == data2[i]
  {
    hide Status;
    var s, t := data1[k1..], data2[k2..];
    SuccessIff(s, t, byBytes);
    if k1 == k2 {
      var whole := Start(Units(s, t, byBytes), byBytes);
      assert s[..whole] == data1[k1..k1 + whole] && t[..whole] == data2[k1..k1 + whole];
      SameSlices(data1, data2, k1, k1 + whole);
    }
  }

  lemma SameSlices(s: seq<byte>, t: seq<byte>, a: nat, b: nat)
    requires a <= b <= |s| && b <= |t|
    ensures s[a..b] == t[a..b] <==> forall i :: a <= i < b ==> s[i] == t[i]
  {
    if s[a..b] == t[a..b] {
      forall i | a <= i < b
        ensures s[i] == t[i]
      {
        assert s[a..b][i - a] == t[a..b][i - a];
      }
    }
  }

  method Command(data1: seq<byte>, data2: seq<byte>, skip1: nat, skip2: nat, printBytes: bool)
    returns (status: int)
    ensures status == ExitStatus(data1, data2, skip1, skip2, printBytes)
    ensures var k1, k2 := SkipTo(data1, skip1, printBytes), SkipTo(data2, skip2, printBytes);
      if |data1| != |data2| || k1 != k2 then status == 126
      else
        var w := if printBytes then 1 else 3;
        && (status == 0 <==> forall p :: UnitStarts(data1, k1, p, printBytes) ==> SameAt(data1, data2, p, w))
        && (status == 1 <==>
          (exists p :: UnitStarts(data1, k1, p, printBytes) && OneOffAt(data1, data2, p, w))
          && forall p :: UnitStarts(data1, k1, p, printBytes) ==>
            SameAt(data1, data2, p, w) || OneOffAt(data1, data2, p, w))
        && (status == 2 <==>
          exists p :: UnitStarts(data1, k1, p, printBytes)
            && !SameAt(data1, data2, p, w) && !OneOffAt(data1, data2, p, w))
  {
    hide Status, UnitStarts, SameAt, OneOffAt;
    StatusJudges(data1, data2, skip1, skip2, printBytes);
    var f1 := new Stream(data1);
    var f2 := new Stream(data2);
    if |data1| != |data2| {
      return FILE_ERROR;
    }
    var f1Skip, f2Skip := skip1, skip2;
    if !printBytes {
      f1Skip := f1Skip * 3;
      f2Skip := f2Skip * 3;
    }
    if f1Skip != 0 {
      f1.Seek(f1Skip);
    }
    if f2Skip != 0 {
      f2.Seek(f2Skip);
    }
    var c, bytes;
    c, bytes, status := Compare(f1, f2, printBytes);
  }

  /** Files of one size are refused exactly when the skips, cut off at that
      size, leave different amounts to read. */
  lemma RefusedIff(data1: seq<byte>, data2: seq<byte>, skip1: nat, skip2: nat, printBytes: bool)
    ensures ExitStatus(data1, data2, skip1, skip2, printBytes) == FILE_ERROR
      <==> (|data1| != |data2|
        || Least(Start(skip1, printBytes), |data1|) != Least(Start(skip2, printBytes), |data2|))
  {
  }

  /** So different skips can succeed: both beyond the end leave nothing to
      compare. */
  lemma SkippingEverythingSucceeds(data: seq<byte>, other: seq<byte>, skip1: nat, skip2: nat, printBytes: bool)
    requires |data| == |other| <= Start(skip1, printBytes) && |data| <= Start(skip2, printBytes)
    ensures ExitStatus(data, other, skip1, skip2, printBytes) == OFF_BY_NONE
  {
  }
}
