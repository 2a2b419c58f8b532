/** The conversions of include/dm.h between view coordinates, -2048 to 2047, and
    the pixels of a window, in exact arithmetic. */
module Display {
  import opened VMath

  const GED_MIN := -2048
  const GED_MAX := 2047
  const GED_RANGE := 4095.0
  const INV_4096 := 0.000244140625

  function DivBy4096(v: int): real
  {
    v as real * INV_4096
  }

  /** A fraction of a window in pixels, and a pixel as a fraction of a window. */
  function Across(fraction: real, size: nat): real
  {
    fraction * size as real
  }

  function Part(p: int, size: nat): real
    requires 0 < size
  {
    p as real / size as real
  }

  function GedToXx(width: nat, v: int): int
  {
    Truncate(Across(DivBy4096(v) + 0.5, width))
  }

  function GedToXy(height: nat, v: int): int
  {
    Truncate(Across(0.5 - DivBy4096(v), height))
  }

  function XxToGed(width: nat, p: int): int
    requires 0 < width
  {
    Truncate((Part(p, width) - 0.5) * GED_RANGE)
  }

  function XyToGed(height: nat, p: int): int
    requires 0 < height
  {
    Truncate((0.5 - Part(p, height)) * GED_RANGE)
  }

  // --- the same in whole numbers

  lemma DivParts(n: nat, d: nat)
    requires 0 < d
    ensures n == n / d * d + n % d
  {
  }

  /** A number that lies between two multiples. */
  lemma Bracket(r: real, q: real, d: real, n: real)
    requires 0.0 < d && r * d == n && q * d <= n < q * d + d
    ensures q <= r < q + 1.0
  {
    FactorLe(q, r, d);
    OneMore(q, d);
    FactorLt(r, q + 1.0, d);
  }

  lemma OneMore(q: real, d: real)
    ensures (q + 1.0) * d == q * d + d
  {
  }

  /** A number whose product with `d` is `n` truncates to `n` divided by `d`. */
  lemma TruncateQuotient(r: real, n: nat, d: nat)
    requires 0 < d && r * d as real == n as real
    ensures Truncate(r) == n / d
  {
    hide Truncate;
    var q := n / d;
    DivParts(n, d);
    AsReal(q, d);
    Bracket(r, q as real, d as real, n as real);
    TruncateIs(r, q);
  }

  lemma AsReal(a: int, b: int)
    ensures (a * b) as real == a as real * b as real
  {
  }

  lemma FactorLe(a: real, b: real, d: real)
    requires a * d <= b * d && 0.0 < d
    ensures a <= b
  {
    if b < a {
      ProductPositive(a - b, d);
    }
  }

  lemma FactorLt(a: real, b: real, d: real)
    requires a * d < b * d && 0.0 < d
    ensures a < b
  {
    if b < a {
      ProductPositive(a - b, d);
    }
  }

  /** From the view, for coordinates that are in it or above. */
  lemma GedToXxIs(width: nat, v: int)
    requires GED_MIN <= v
    ensures GedToXx(width, v) == (v - GED_MIN) * width / 4096
  {
    var f, w := DivBy4096(v) + 0.5, width as real;
    AsReal(v - GED_MIN, width);
    Reassociate(f, w, 4096.0);
    NatProduct(v - GED_MIN, width);
    TruncateQuotient(Across(f, width), (v - GED_MIN) * width, 4096);
  }

  lemma Reassociate(a: real, b: real, c: real)
    ensures (a * b) * c == (a * c) * b
  {
  }

  lemma NatProduct(a: int, b: int)
    requires 0 <= a && 0 <= b
    ensures 0 <= a * b
  {
  }

  /** How far a pixel is from the middle, in half pixels. */
  function FromMiddle(width: nat, p: int): nat
  {
    if 2 * p <= width then width - 2 * p else 2 * p - width
  }

  /** The whole view coordinates that this makes, and what is left over. */
  function Steps(width: nat, p: int): nat
    requires 0 < width
  {
    4095 * FromMiddle(width, p) / (2 * width)
  }

  function Lost(width: nat, p: int): nat
    requires 0 < width
  {
    4095 * FromMiddle(width, p) % (2 * width)
  }

  lemma StepsAndLost(width: nat, p: int)
    requires 0 < width
    ensures 4095 * FromMiddle(width, p) == Steps(width, p) * (2 * width) + Lost(width, p)
    ensures Lost(width, p) < 2 * width
  {
    DivParts(4095 * FromMiddle(width, p), 2 * width);
  }

  /** To the view, for any pixel. */
  lemma XxToGedIs(width: nat, p: int)
    requires 0 < width
    ensures XxToGed(width, p) ==
      if 2 * p < width then -(4095 * (width - 2 * p) / (2 * width)) else 4095 * (2 * p - width) / (2 * width)
    ensures XxToGed(width, p) == if 2 * p < width then 0 - Steps(width, p) else Steps(width, p)
  {
    hide Truncate, Part;
    var u, w := Part(p, width) - 0.5, width as real;
    var r := u * GED_RANGE;
    PartBack(p, width);
    MiddleOffset(Part(p, width), w, p as real, r);
    assert r * (2 * width) as real == (4095 * (2 * p - width)) as real;
    if 2 * p < width {
      Negated(r, (2 * width) as real);
      TruncateQuotient(-r, 4095 * FromMiddle(width, p), 2 * width);
      TruncateOdd(r);
    } else {
      TruncateQuotient(r, 4095 * FromMiddle(width, p), 2 * width);
    }
  }

  lemma PartBack(p: int, size: nat)
    requires 0 < size
    ensures Part(p, size) * size as real == p as real
  {
  }

  lemma MiddleOffset(part: real, w: real, p: real, r: real)
    requires part * w == p && r == (part - 0.5) * GED_RANGE
    ensures r * (2.0 * w) == GED_RANGE * (2.0 * p - w)
  {
  }

  lemma Negated(a: real, b: real)
    ensures (-a) * b == -(a * b)
  {
  }

  // --- y is x upside down

  lemma YMirrorsX(height: nat, v: int, p: int)
    requires 0 < height
    ensures GedToXy(height, v) == GedToXx(height, -v)
    ensures XyToGed(height, p) == -XxToGed(height, p)
  {
    hide Truncate, Part;
    TruncateOdd((Part(p, height) - 0.5) * GED_RANGE);
    assert DivBy4096(-v) == -DivBy4096(v);
    assert (0.5 - Part(p, height)) * GED_RANGE == -((Part(p, height) - 0.5) * GED_RANGE);
  }

  // --- the range of pixels

  lemma ProductLe(a: int, b: int, c: nat)
    requires a <= b
    ensures a * c <= b * c
    ensures a < b && 0 < c ==> a * c < b * c
  {
    var d: nat := b - a;
    NatProduct(d, c);
    assert b * c == a * c + d * c;
    assert 0 < d && 0 < c ==> 0 < d * c;
  }

  /** Every view coordinate lands on a pixel column. On rows one coordinate lands
      just past the last: the lowest, and only it. */
  lemma ViewOntoScreen(width: nat, v: int)
    requires 1 <= width && GED_MIN <= v <= GED_MAX
    ensures 0 <= GedToXx(width, v) < width
    ensures 0 <= GedToXy(width, v) <= width
    ensures GedToXy(width, v) == width <==> v == GED_MIN
  {
    hide GedToXx, GedToXy;
    GedToXxIs(width, v);
    GedToXxIs(width, -v);
    YMirrorsX(width, v, 0);
    ProductLe(0, v + 2048, width);
    ProductLe(v + 2048, 4095, width);
    ProductLe(0, 2048 - v, width);
    ProductLe(2048 - v, if v == GED_MIN then 4096 else 4095, width);
  }

  lemma AcrossMonotone(x: real, y: real, size: nat)
    requires x <= y
    ensures Across(x, size) <= Across(y, size)
  {
    if x < y && 0 < size {
      ProductPositive(y - x, size as real);
    }
  }

  /** Both directions keep the order of columns. */
  lemma OrderIsKept(width: nat, a: int, b: int)
    requires 1 <= width && a <= b
    ensures GedToXx(width, a) <= GedToXx(width, b)
    ensures XxToGed(width, a) <= XxToGed(width, b)
  {
    hide Across, Part, Truncate;
    AcrossMonotone(DivBy4096(a) + 0.5, DivBy4096(b) + 0.5, width);
    TruncateMonotone(Across(DivBy4096(a) + 0.5, width), Across(DivBy4096(b) + 0.5, width));
    PartBack(a, width);
    PartBack(b, width);
    FactorLe(Part(a, width), Part(b, width), width as real);
    TruncateMonotone((Part(a, width) - 0.5) * GED_RANGE, (Part(b, width) - 0.5) * GED_RANGE);
  }

  /** In a window of at most 4096 columns no column is out of reach. */
  lemma EveryColumnReached(width: nat, p: nat) returns (v: int)
    requires 1 <= width <= 4096 && p < width
    ensures GED_MIN <= v <= GED_MAX && GedToXx(width, v) == p
  {
    hide GedToXx;
    var c := CeilingOf(4096 * p, width, 4096);
    v := c + GED_MIN;
    GedToXxIs(width, v);
  }

  lemma CeilingOf(n: nat, d: nat, most: nat) returns (c: nat)
    requires 0 < d && n + d <= most * d
    ensures n <= c * d < n + d && c < most
  {
    c := if n == 0 then 0 else 1 + (n - 1) / d;
    if most <= c {
      ProductLe(most, c, d);
    }
  }

  // --- from a pixel to the view and back

  lemma InView(k: nat, w: nat, q: nat, r: nat)
    requires 0 < w && k <= w && 4095 * k == q * (2 * w) + r
    ensures q <= 2047
  {
    if 2048 <= q {
      ProductLe(2048, q, 2 * w);
    }
  }

  /** What a pixel slips on its way to the view and back. */
  function Slip(width: nat, p: int): nat
    requires 0 < width
  {
    FromMiddle(width, p) + Lost(width, p)
  }

  /** The pixel that comes back, for every width: truncation moves the view
      coordinate towards the middle, and the slip is counted in steps of 8192. */
  lemma ReturnedPixel(width: nat, p: nat)
    requires 1 <= width && p <= width
    ensures GedToXx(width, XxToGed(width, p))
      == if 2 * p <= width then p + Slip(width, p) / 8192 else p - (Slip(width, p) + 8191) / 8192
  {
    hide GedToXx, XxToGed, Steps, Lost;
    StepsAndLost(width, p);
    XxToGedIs(width, p);
    InView(FromMiddle(width, p), width, Steps(width, p), Lost(width, p));
    ReturnedFrom(width, p, FromMiddle(width, p), Steps(width, p), Lost(width, p));
    if 2 * p == width {
      NoSteps(width, p);
    }
  }

  lemma NoSteps(width: nat, p: nat)
    requires 0 < width && 2 * p == width
    ensures Steps(width, p) == 0
  {
    assert 4095 * FromMiddle(width, p) == 0;
  }

  lemma ReturnedFrom(width: nat, p: nat, k: nat, q: nat, r: nat)
    requires 4095 * k == q * (2 * width) + r && q <= 2047
    requires k == FromMiddle(width, p)
    ensures 2 * p <= width ==> GedToXx(width, 0 - q) == p + (k + r) / 8192
    ensures 2 * p >= width ==> GedToXx(width, q) == p - (k + r + 8191) / 8192
  {
    hide GedToXx;
    GedToXxIs(width, 0 - q);
    GedToXxIs(width, q);
    if 2 * p <= width {
      SlipOfLeft(width, p, k, q, r);
    }
    if 2 * p >= width {
      SlipOfRight(width, p, k, q, r);
    }
  }

  lemma SlipOfLeft(w: nat, p: nat, k: nat, q: nat, r: nat)
    requires k == w - 2 * p && 4095 * k == q * (2 * w) + r
    ensures (2048 - q) * w / 4096 == p + (k + r) / 8192
  {
    var n := (2048 - q) * w;
    assert n == 2048 * w - q * w;
    assert 2 * n == 8192 * p + (k + r);
  }

  lemma SlipOfRight(w: nat, p: nat, k: nat, q: nat, r: nat)
    requires k == 2 * p - w && 4095 * k == q * (2 * w) + r
    ensures (2048 + q) * w / 4096 == p - (k + r + 8191) / 8192
  {
    var n := (2048 + q) * w;
    assert n == 2048 * w + q * w;
    assert 2 * n == 8192 * p - (k + r);
  }

  /** A column of the left half comes back exactly if its slip is less than 8192,
      and one of the right half comes back one to the left exactly if its slip is
      no more; no column of the right half comes back as it was. */
  lemma ColumnReturnsIff(width: nat, p: nat)
    requires 1 <= width && p <= width
    ensures 2 * p <= width ==> (GedToXx(width, XxToGed(width, p)) == p <==> Slip(width, p) < 8192)
    ensures 2 * p > width ==> (GedToXx(width, XxToGed(width, p)) == p - 1 <==> Slip(width, p) <= 8192)
    ensures 2 * p > width ==> GedToXx(width, XxToGed(width, p)) < p
  {
    hide GedToXx, XxToGed, Lost;
    ReturnedPixel(width, p);
  }

  /** So up to a width of 2730 the left half and the middle come back exactly, and
      the right half one pixel to the left. */
  lemma ColumnsReturn(width: nat, p: nat)
    requires 1 <= width <= 2730 && p <= width
    ensures GedToXx(width, XxToGed(width, p)) == if 2 * p <= width then p else p - 1
  {
    hide GedToXx, XxToGed, Steps, Lost;
    ColumnReturnsIff(width, p);
    StepsAndLost(width, p);
  }

  /** Rows do as columns do, at any height. */
  lemma RowsReturn(height: nat, p: nat)
    requires 1 <= height && p <= height
    ensures GedToXy(height, XyToGed(height, p)) == GedToXx(height, XxToGed(height, p))
    ensures height <= 2730 ==> GedToXy(height, XyToGed(height, p)) == if 2 * p <= height then p else p - 1
  {
    hide GedToXx, XxToGed, GedToXy, XyToGed;
    YMirrorsX(height, XyToGed(height, p), p);
    if height <= 2730 {
      ColumnsReturn(height, p);
    }
  }

  /** Column 34 of a window of width 2757 comes back one to the right; its slip is
      2689 + 5511. */
  lemma WiderColumnsMove()
    ensures Slip(2757, 34) == 8200 && GedToXx(2757, XxToGed(2757, 34)) == 35
  {
    hide GedToXx, XxToGed;
    ReturnedPixel(2757, 34);
  }
}
