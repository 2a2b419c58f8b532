/** Structure indices and the tables subscripted by them, of nmg.h. */
module NmgIndex {

  /** Any of the structures that carry an `index`. */
  class Item {
    var index: int

    constructor ()
    {
      index := 0;
    }
  }

  /** `struct model`, which numbers its structures. */
  class Model {
    var maxindex: nat

    /** Every structure ever numbered, freed or not, in order. */
    ghost var numbered: seq<Item>

    /** The indices of all structures ever numbered are the numbers below
        `maxindex`, each used once. */
    ghost predicate Valid()
      reads this, numbered
    {
      && |numbered| == maxindex
      && forall k :: 0 <= k < maxindex ==> numbered[k].index == k
    }

    constructor ()
      ensures Valid() && numbered == []
    {
      maxindex := 0;
      numbered := [];
    }

    /** A `GET_*` macro: `NMG_GETSTRUCT`, then `NMG_INCR_INDEX`. */
    method Get() returns (p: Item)
      requires Valid()
      modifies this
      ensures Valid() && fresh(p)
      ensures numbered == old(numbered) + [p]
    {
      p := new Item();
      p.index := maxindex;
      maxindex := maxindex + 1;
      numbered := numbered + [p];
    }

    /** Two structures are the same exactly when their indices are, and every
        index is a subscript of a table of `maxindex` entries. */
    lemma SameIndexSameItem(p: Item, q: Item)
      requires Valid() && p in numbered && q in numbered
      ensures p == q <==> p.index == q.index
      ensures 0 <= p.index < maxindex
    {
    }
  }

  /** A step of a run: some structure is got, or a live one is freed, which
      returns its storage and leaves the counter alone. */
  datatype Step = GetOne | FreeOne(at: nat)

  /** How many structures the steps got. */
  function Gets(steps: seq<Step>): nat
  {
    if steps == [] then 0
    else Gets(steps[..|steps| - 1]) + if steps[|steps| - 1].GetOne? then 1 else 0
  }

  /** The structures that are live after the steps, each known by how many were
      got before it; a step that frees nothing changes nothing. */
  function Held(steps: seq<Step>): (held: seq<nat>)
    ensures forall k :: 0 <= k < |held| ==> held[k] < Gets(steps)
    ensures forall i, j :: 0 <= i < j < |held| ==> held[i] != held[j]
  {
    if steps == [] then []
    else
      var before := Held(steps[..|steps| - 1]);
      match steps[|steps| - 1]
      case GetOne => before + [Gets(steps) - 1]
      case FreeOne(at) => if at < |before| then before[..at] + before[at + 1..] else before
  }

  lemma NothingHeld(steps: seq<Step>)
    ensures Gets(steps[..0]) == 0 && Held(steps[..0]) == []
  {
  }

  lemma OneStep(steps: seq<Step>, n: nat)
    requires n < |steps|
    ensures Gets(steps[..n + 1]) == Gets(steps[..n]) + if steps[n].GetOne? then 1 else 0
    ensures var before := Held(steps[..n]);
      Held(steps[..n + 1]) ==
      match steps[n]
      case GetOne => before + [Gets(steps[..n])]
      case FreeOne(at) => if at < |before| then before[..at] + before[at + 1..] else before
  {
    assert steps[..n + 1][..n] == steps[..n];
  }

  /** Each live structure has the index that it got, counted from `base`. */
  ghost predicate Agrees(m: Model, live: seq<Item>, base: nat, held: seq<nat>)
    reads m, live
  {
    && |live| == |held|
    && forall k :: 0 <= k < |live| ==> live[k] in m.numbered && live[k].index == base + held[k]
  }

  /** One step of a run. */
  method RunStep(m: Model, step: Step, live: seq<Item>, ghost base: nat, ghost held: seq<nat>)
    returns (now: seq<Item>, handed: seq<int>)
    requires m.Valid() && base <= m.maxindex && Agrees(m, live, base, held)
    modifies m
    ensures m.Valid()
    ensures step.GetOne? ==> m.maxindex == old(m.maxindex) + 1 && handed == [old(m.maxindex)]
    ensures step.FreeOne? ==> m.maxindex == old(m.maxindex) && handed == []
    ensures Agrees(m, now, base,
      match step
      case GetOne => held + [old(m.maxindex) - base]
      case FreeOne(at) => if at < |held| then held[..at] + held[at + 1..] else held)
  {
    match step
    case GetOne =>
      var p := m.Get();
      assert m.numbered[m.maxindex - 1] == p;
      now, handed := live + [p], [p.index];
    case FreeOne(at) =>
      now, handed := live, [];
      if at < |live| {
        now := live[..at] + live[at + 1..];
      }
  }

  /** Makes the steps. The indices handed out count up from `maxindex`, so that no
      index is handed out twice, not even after its first holder was freed. */
  method Run(m: Model, steps: seq<Step>) returns (live: seq<Item>, handed: seq<int>)
    requires m.Valid()
    modifies m
    ensures m.Valid() && m.maxindex == old(m.maxindex) + Gets(steps)
    ensures |handed| == Gets(steps)
    ensures forall k :: 0 <= k < |handed| ==> handed[k] == old(m.maxindex) + k
    ensures Agrees(m, live, old(m.maxindex), Held(steps))
  {
    hide Gets, Held, Agrees;
    ghost var base := m.maxindex;
    live, handed := [], [];
    NothingHeld(steps);
    NothingLive(m, base);
    for n := 0 to |steps|
      invariant m.Valid() && m.maxindex == base + Gets(steps[..n])
      invariant |handed| == Gets(steps[..n])
      invariant forall k :: 0 <= k < |handed| ==> handed[k] == base + k
      invariant Agrees(m, live, base, Held(steps[..n]))
    {
      OneStep(steps, n);
      var more;
      live, more := RunStep(m, steps[n], live, base, Held(steps[..n]));
      handed := handed + more;
    }
    assert steps[..|steps|] == steps;
  }

  lemma NothingLive(m: Model, base: nat)
    ensures Agrees(m, [], base, [])
  {
  }

  /** So no two live structures have the same index. */
  lemma LiveApart(m: Model, live: seq<Item>, base: nat, steps: seq<Step>, i: nat, j: nat)
    requires Agrees(m, live, base, Held(steps)) && i < j < |live|
    ensures live[i].index != live[j].index && base <= live[i].index < base + Gets(steps)
  {
  }

  /** `NMG_INDEX_SET`. */
  method Set(tab: array<int>, p: Item)
    requires 0 <= p.index < tab.Length
    modifies tab
    ensures tab[..] == old(tab[..])[p.index := 1]
  {
    tab[p.index] := 1;
  }

  /** `NMG_INDEX_CLEAR`. */
  method Clear(tab: array<int>, p: Item)
    requires 0 <= p.index < tab.Length
    modifies tab
    ensures tab[..] == old(tab[..])[p.index := 0]
  {
    tab[p.index] := 0;
  }

  /** `NMG_INDEX_TEST_AND_SET`, also called `NMG_INDEX_FIRST_TIME`. */
  method FirstTime(tab: array<int>, p: Item) returns (first: bool)
    requires 0 <= p.index < tab.Length
    modifies tab
    ensures first <==> old(tab[p.index]) == 0
    ensures tab[..] == if first then old(tab[..])[p.index := 1] else old(tab[..])
  {
    if tab[p.index] == 0 {
      tab[p.index] := 1;
      first := true;
    } else {
      first := false;
    }
  }

  ghost function Indices(items: seq<Item>): (idx: seq<int>)
    reads items
    ensures |idx| == |items|
    ensures forall k :: 0 <= k < |items| ==> idx[k] == items[k].index
  {
    if items == [] then [] else [items[0].index] + Indices(items[1..])
  }

  ghost function Elements<T>(s: seq<T>): set<T>
  {
    set p | p in s
  }

  lemma NoElements()
    ensures Elements<Item>([]) == {} && Elements<int>([]) == {}
  {
  }

  /** Item `k` is not among those before it. */
  predicate IsFirst(items: seq<Item>, k: nat)
    requires k < |items|
  {
    items[k] !in items[..k]
  }

  /** An item is a new one exactly when its index is new. */
  lemma FirstIff(m: Model, items: seq<Item>, idx: seq<int>, n: nat)
    requires m.Valid() && n < |items| == |idx|
    requires forall k :: 0 <= k < |items| ==> items[k] in m.numbered && idx[k] == items[k].index
    ensures idx[n] !in idx[..n] <==> IsFirst(items, n)
  {
    if items[n] in items[..n] {
      var k :| 0 <= k < n && items[k] == items[n];
      assert idx[..n][k] == idx[n];
    }
    if idx[n] in idx[..n] {
      var k :| 0 <= k < n && idx[k] == idx[n];
      m.SameIndexSameItem(items[k], items[n]);
      assert items[..n][k] == items[n];
    }
  }

  /** What one more item makes of the sets. */
  lemma OneMore(items: seq<Item>, idx: seq<int>, n: nat)
    requires n < |items| == |idx|
    ensures Elements(idx[..n + 1]) == Elements(idx[..n]) + {idx[n]}
    ensures |Elements(items[..n + 1])| == |Elements(items[..n])| + if IsFirst(items, n) then 1 else 0
    ensures idx[n] in Elements(idx[..n]) <==> idx[n] in idx[..n]
  {
    assert items[..n + 1] == items[..n] + [items[n]];
    assert idx[..n + 1] == idx[..n] + [idx[n]];
    OneElement(items[..n], items[n]);
  }

  lemma OneElement(items: seq<Item>, p: Item)
    ensures Elements(items + [p]) == Elements(items) + {p}
    ensures |Elements(items + [p])| == |Elements(items)| + if p in items then 0 else 1
  {
    assert Elements(items + [p]) == Elements(items) + {p};
    if p in items {
      assert Elements(items) + {p} == Elements(items);
    }
  }

  /** The entries that are set are those of the first `n` indices. */
  ghost predicate Marked(tab: seq<int>, idx: seq<int>, n: nat)
    requires n <= |idx|
  {
    forall i :: 0 <= i < |tab| ==> (tab[i] != 0 <==> i in Elements(idx[..n]))
  }

  lemma MarkedMore(tab: seq<int>, now: seq<int>, idx: seq<int>, n: nat, first: bool)
    requires n < |idx| && 0 <= idx[n] < |tab| && Marked(tab, idx, n)
    requires first <==> tab[idx[n]] == 0
    requires now == if first then tab[idx[n] := 1] else tab
    requires Elements(idx[..n + 1]) == Elements(idx[..n]) + {idx[n]}
    ensures Marked(now, idx, n + 1) && (first <==> idx[n] !in Elements(idx[..n]))
  {
    hide Elements;
  }

  lemma NothingMarked(tab: seq<int>, idx: seq<int>)
    requires forall i :: 0 <= i < |tab| ==> tab[i] == 0
    ensures Marked(tab, idx, 0)
  {
    assert idx[..0] == [];
  }

  /** Asks `NMG_INDEX_FIRST_TIME` of each item, on a cleared table. It says yes
      exactly at the first occurrence of each, so as often as there are items. */
  method FirstTimes(m: Model, tab: array<int>, items: seq<Item>) returns (flags: seq<bool>, count: nat)
    requires m.Valid() && tab.Length >= m.maxindex
    requires forall i :: 0 <= i < tab.Length ==> tab[i] == 0
    requires forall k :: 0 <= k < |items| ==> items[k] in m.numbered
    modifies tab
    ensures |flags| == |items|
    ensures forall k :: 0 <= k < |items| ==> (flags[k] <==> items[k] !in items[..k])
    ensures count == |set p | p in items|
  {
    hide Elements, Indices, IsFirst, Marked;
    flags, count := [], 0;
    NoElements();
    ghost var idx := Indices(items);
    NothingMarked(tab[..], idx);
    for n := 0 to |items|
      invariant |flags| == n && count == |Elements(items[..n])|
      invariant forall k :: 0 <= k < n ==> (flags[k] <==> IsFirst(items, k))
      invariant Marked(tab[..], idx, n)
    {
      m.SameIndexSameItem(items[n], items[n]);
      FirstIff(m, items, idx, n);
      OneMore(items, idx, n);
      ghost var was := tab[..];
      var first := FirstTime(tab, items[n]);
      MarkedMore(was, tab[..], idx, n, first);
      if first {
        count := count + 1;
      }
      flags := flags + [first];
    }
    assert items[..|items|] == items;
    SpelledOut(items, flags);
  }

  lemma SpelledOut(items: seq<Item>, flags: seq<bool>)
    requires |flags| == |items| && forall k :: 0 <= k < |items| ==> (flags[k] <==> IsFirst(items, k))
    ensures forall k :: 0 <= k < |items| ==> (flags[k] <==> items[k] !in items[..k])
    ensures Elements(items) == set p | p in items
  {
  }
}
