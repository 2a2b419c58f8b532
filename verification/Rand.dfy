/** The cyclic tables of include/bn/rand.h. */
module Rand {
  import opened Bytes
  import opened VMath

  const BN_RAND_TABSIZE := 4096
  const BN_RANDHALFTABSIZE := 16535
  const BN_SINTABSIZE := 2048

  type Index = i: int | 0 <= i < UNSIGNED

  /** `n` steps round a table of `size` entries: how both tables are walked. */
  function Walk(i: nat, n: nat, size: nat): nat
    requires 0 < size
  {
    (i + n) % size
  }

  // --- remainders

  lemma MulLe(a: int, b: int, c: nat)
    requires a <= b
    ensures a * c <= b * c
  {
  }

  lemma RemainderIs(q: int, m: nat, size: nat)
    requires m < size
    ensures (q * size + m) % size == m
  {
    var n := q * size + m;
    var q1, m1 := n / size, n % size;
    assert n == q1 * size + m1;
    Parted(q, m, q1, m1, size);
  }

  lemma Parted(q: int, m: nat, q1: int, m1: nat, size: nat)
    requires m < size && m1 < size
    requires q * size + m == q1 * size + m1
    ensures m == m1
  {
    if q1 < q {
      MulLe(q1 + 1, q, size);
    } else if q < q1 {
      MulLe(q + 1, q1, size);
    }
  }

  lemma RemainderShifts(r: int, k: int, size: nat)
    requires 0 < size
    ensures (r + k * size) % size == r % size
  {
    var q, m := r / size, r % size;
    assert r + k * size == (q + k) * size + m;
    RemainderIs(q + k, m, size);
  }

  // --- walks

  lemma WalkOn(i: nat, n: nat, m: nat, size: nat)
    requires 0 < size
    ensures Walk(Walk(i, n, size), m, size) == Walk(i, n + m, size)
  {
    var q, r := (i + n) / size, (i + n) % size;
    RemainderShifts(r + m, q, size);
    assert r + m + q * size == i + (n + m);
  }

  /** Two steps of a walk meet the same entry exactly when they are a multiple
      of the table size apart: this is the period, and no shorter one is. */
  lemma SameEntryIff(i: nat, m: nat, k: nat, size: nat)
    requires 0 < size
    ensures Walk(i, m, size) == Walk(i, k, size) <==> (m - k) % size == 0
  {
    var q, r := (i + k) / size, (i + k) % size;
    var p, t := (m - k) / size, (m - k) % size;
    assert i + m == (r + t) + (q + p) * size;
    RemainderShifts(r + t, q + p, size);
    if r + t < size {
      RemainderIs(0, r + t, size);
    } else {
      RemainderIs(1, r + t - size, size);
    }
  }

  /** In any window of `size` steps each entry is met... */
  lemma EachMet(i: nat, size: nat, entry: nat) returns (k: nat)
    requires entry < size
    ensures k < size && Walk(i, k, size) == entry
  {
    k := (entry - i) % size;
    var q := (entry - i) / size;
    assert i + k == entry + (-q) * size;
    RemainderShifts(entry, -q, size);
    RemainderIs(0, entry, size);
  }

  /** ... and met once. */
  lemma MetOnce(i: nat, size: nat, from: nat, k: nat, m: nat)
    requires from <= k < from + size && from <= m < from + size
    requires Walk(i, k, size) == Walk(i, m, size)
    ensures k == m
  {
    SameEntryIff(i, k, m, size);
    if m < k {
      RemainderIs(0, k - m, size);
    } else if k < m {
      RemainderIs(-1, size - (m - k), size);
    }
  }

  // --- the small table, walked by an unsigned index

  /** BN_RANDSEED: the seed is cast to unsigned first. */
  function Seeded(seed: int): Index
  {
    (seed % UNSIGNED) % BN_RAND_TABSIZE
  }

  /** The seed picks its place in the table by its residue, also when it is
      negative or too wide. */
  lemma SeededIsResidue(seed: int)
    ensures Seeded(seed) == seed % BN_RAND_TABSIZE
  {
  }

  class Small {
    var i: Index

    /** BN_RANDOM, from any index, also one that was never seeded and is about to
        wrap. */
    method Random(table: array<real>) returns (r: real)
      requires table.Length == BN_RAND_TABSIZE
      modifies this
      ensures i == Walk(old(i), 1, BN_RAND_TABSIZE) && r == table[i]
    {
      i := (i + 1) % UNSIGNED % BN_RAND_TABSIZE;
      r := table[i];
    }

    method RandomN(table: array<real>, n: nat) returns (drawn: seq<real>)
      requires table.Length == BN_RAND_TABSIZE
      modifies this
      ensures |drawn| == n
      ensures forall k :: 0 <= k < n ==> drawn[k] == table[(old(i) + 1 + k) % 4096]
    {
      drawn := [];
      if n == 0 {
        return;
      }
      var r := Random(table);
      drawn := [r];
      while |drawn| < n
        invariant 1 <= |drawn| <= n
        invariant i == Walk(old(i) + 1, |drawn| - 1, BN_RAND_TABSIZE)
        invariant forall k :: 0 <= k < |drawn| ==> drawn[k] == table[Walk(old(i) + 1, k, BN_RAND_TABSIZE)]
      {
        WalkOn(old(i) + 1, |drawn| - 1, 1, BN_RAND_TABSIZE);
        r := Random(table);
        drawn := drawn + [r];
      }
    }
  }

  // --- the large table, walked by a pointer

  /** Where `bn_rand_half` leaves the pointer, given as an offset into the table.
      A pointer that is not into the table goes back to its start. */
  function HalfNext(p: int): (q: nat)
    ensures q < BN_RANDHALFTABSIZE
  {
    if p + 1 >= BN_RANDHALFTABSIZE || p + 1 < 0 then 0 else p + 1
  }

  lemma HalfNextWalks(p: nat)
    requires p < BN_RANDHALFTABSIZE
    ensures HalfNext(p) == Walk(p, 1, BN_RANDHALFTABSIZE)
  {
  }

  class Large {
    var p: int

    /** `bn_rand_init`; the table holds numbers from -0.5 to 0.5, so the pointer
        lands in it. */
    method RandInit(table: array<real>, seed: nat)
      requires table.Length == BN_RANDHALFTABSIZE
      requires forall k :: 0 <= k < table.Length ==> -0.5 <= table[k] <= 0.5
      modifies this
      ensures 0 <= p < BN_RANDHALFTABSIZE
      ensures var x := table[seed % BN_RANDHALFTABSIZE];
        p as real <= (x + 0.5) * 16534.0 < p as real + 1.0
    {
      p := Truncate((table[seed % BN_RANDHALFTABSIZE] + 0.5) * (BN_RANDHALFTABSIZE - 1) as real);
    }

    /** `bn_rand_half`. */
    method RandHalf(table: array<real>) returns (r: real)
      requires table.Length == BN_RANDHALFTABSIZE
      modifies this
      ensures p == HalfNext(old(p)) && r == table[p]
    {
      p := p + 1;
      if p >= BN_RANDHALFTABSIZE || p < 0 {
        p := 0;
        r := table[p];
      } else {
        r := table[p];
      }
    }

    method RandHalfN(table: array<real>, n: nat) returns (drawn: seq<real>)
      requires table.Length == BN_RANDHALFTABSIZE
      modifies this
      ensures |drawn| == n
      ensures var first := if 0 <= old(p) + 1 < 16535 then old(p) + 1 else 0;
        forall k :: 0 <= k < n ==> drawn[k] == table[(first + k) % 16535]
    {
      drawn := [];
      if n == 0 {
        return;
      }
      var r := RandHalf(table);
      drawn := [r];
      while |drawn| < n
        invariant 1 <= |drawn| <= n
        invariant p == Walk(HalfNext(old(p)), |drawn| - 1, BN_RANDHALFTABSIZE)
        invariant forall k :: 0 <= k < |drawn| ==> drawn[k] == table[Walk(HalfNext(old(p)), k, BN_RANDHALFTABSIZE)]
      {
        WalkOn(HalfNext(old(p)), |drawn| - 1, 1, BN_RANDHALFTABSIZE);
        HalfNextWalks(p);
        r := RandHalf(table);
        drawn := drawn + [r];
      }
    }
  }

  // --- the sine table

  type SinTable = t: seq<real> | |t| == BN_SINTABSIZE witness seq(BN_SINTABSIZE, i => 0.0)

  /** The table entry nearest to `samples` steps; the mask keeps the low bits. */
  function Entry(samples: real): nat
    requires 0.0 <= samples
  {
    Truncate(0.5 + samples) % BN_SINTABSIZE
  }

  /** `bn_tab_sin`, for an angle given in table steps: 2048 to a full turn. */
  function TabSin(samples: real, table: SinTable): real
  {
    if samples > 0.0 then table[Entry(samples)] else -table[Entry(-samples)]
  }

  /** It is the table at the nearest whole number of steps, halves rounded away from
      zero, and for an angle that is not positive the opposite of that. */
  lemma TabSinIs(samples: real, table: SinTable, n: nat)
    requires samples >= 0.0 && n as real - 0.5 <= samples < n as real + 0.5
    ensures TabSin(samples, table) == if samples == 0.0 then -table[0] else table[n % 2048]
    ensures TabSin(-samples, table) == -table[n % 2048]
  {
    TruncateIs(0.5 + samples, n);
  }

  /** Odd away from zero, where it is odd exactly if the table starts at zero. */
  lemma TabSinOdd(samples: real, table: SinTable)
    ensures TabSin(-samples, table) == -TabSin(samples, table) <==> samples != 0.0 || table[0] == 0.0
  {
  }

  /** Each full turn further from zero gives the same value. */
  lemma TabSinPeriodic(samples: real, table: SinTable, turns: nat)
    ensures samples > 0.0 ==> TabSin(samples + (turns * BN_SINTABSIZE) as real, table) == TabSin(samples, table)
    ensures samples < 0.0 ==> TabSin(samples - (turns * BN_SINTABSIZE) as real, table) == TabSin(samples, table)
  {
    if samples > 0.0 {
      EntryPeriodic(samples, turns);
    } else if samples < 0.0 {
      EntryPeriodic(-samples, turns);
    }
  }

  lemma EntryPeriodic(samples: real, turns: nat)
    requires 0.0 <= samples
    ensures Entry(samples + (turns * BN_SINTABSIZE) as real) == Entry(samples)
  {
    var n := Truncate(0.5 + samples);
    TruncateIs(0.5 + samples + (turns * BN_SINTABSIZE) as real, n + turns * BN_SINTABSIZE);
    RemainderShifts(n, turns, BN_SINTABSIZE);
  }
}
