/** The pool of hit and miss records of nmg.h. */
module Hitmiss {
  import opened BuList
  import opened ListWorld

  /** `struct nmg_hitmiss` without its link: the macros never look inside, so a
      record is known by what its last user wrote. */
  type Record = int

  type HitPool = World<Record>

  /** `NMG_GET_HITMISS`: the first record of the free list `re_nmgfree`, as its
      last user left it, or a new one if there is none. */
  method GetHitmiss(w: HitPool) returns (p: Link<Record>)
    requires w.Valid()
    modifies w, w.freeHd`forw, w.freeHd`back, w.owner.Keys`forw, w.owner.Keys`back
    ensures w.Valid() && w.Loose(p)
    ensures var free := old(w.lists[w.freeHd]);
      if free == [] then fresh(p) && w.lists == old(w.lists) && w.owner == old(w.owner)
      else p == free[0] && w.lists == old(w.lists)[w.freeHd := free[1..]] && w.owner == old(w.owner) - {p}
  {
    hide Ring, Owned;
    var link := w.Recycle();
    if link == null {
      p := new Link(0);
    } else {
      p := link;
    }
  }

  /** The free list once a record was taken. */
  ghost function Taken(free: seq<Link<Record>>): seq<Link<Record>>
  {
    if free == [] then [] else free[1..]
  }

  /** A record is got, and put at the end of the list of `hd`. It was on no list
      but the free one. */
  method AddHit(w: HitPool, hd: Link<Record>) returns (p: Link<Record>)
    requires w.Valid() && hd in w.lists && hd != w.freeHd
    modifies w, w.lists.Keys`forw, w.lists.Keys`back, w.owner.Keys`forw, w.owner.Keys`back
    ensures w.Valid()
    ensures w.lists == old(w.lists)[w.freeHd := Taken(old(w.lists[w.freeHd]))][hd := old(w.lists[hd]) + [p]]
    ensures forall h :: h in old(w.lists) && h != w.freeHd ==> p !in old(w.lists[h])
    ensures w.owner.Keys == old(w.owner.Keys) + {p}
    ensures if old(w.lists[w.freeHd]) == [] then fresh(p) else p in old(w.owner)
  {
    hide Ring, Owned;
    w.Known(w.freeHd);
    ghost var was, owned := w.lists, w.owner;
    p := GetHitmiss(w);
    forall h | h in was && h != w.freeHd
      ensures p !in was[h]
    {
      Apart(was, owned, h, w.freeHd);
    }
    w.PutLast(hd, p);
  }

  /** `NMG_FREE_HITLIST`. */
  method FreeHitlist(w: HitPool, hd: Link<Record>)
    requires w.Valid() && hd in w.lists && hd != w.freeHd
    modifies w, w.lists.Keys`forw, w.lists.Keys`back, w.owner.Keys`forw, w.owner.Keys`back
    ensures w.Valid() && w.owner.Keys == old(w.owner.Keys)
    ensures w.lists == old(w.lists)[w.freeHd := old(w.lists[w.freeHd] + w.lists[hd])][hd := []]
  {
    hide Ring, Owned;
    w.Splice(w.freeHd, hd);
  }

  /** A step of a run: a record is got and put at the end of list `h`, as the ray
      code does with every record it gets, or list `h` is freed. */
  datatype Step = Hit(h: nat) | FreeAll(h: nat)

  /** How many records each list holds after the run, the free list aside. */
  function Live(steps: seq<Step>, h: nat): nat
  {
    if steps == [] then 0
    else
      var last := steps[|steps| - 1];
      if last == FreeAll(h) then 0
      else Live(steps[..|steps| - 1], h) + if last == Hit(h) then 1 else 0
  }

  /** How many records are live after the run, on lists 0 to `n` - 1. */
  function LiveTotal(steps: seq<Step>, n: nat): nat
  {
    if n == 0 then 0 else LiveTotal(steps, n - 1) + Live(steps, n - 1)
  }

  /** The most that were ever live at once, which is what gets allocated. */
  function Peak(steps: seq<Step>, n: nat): nat
  {
    if steps == [] then 0
    else
      var p, live := Peak(steps[..|steps| - 1], n), LiveTotal(steps, n);
      if p < live then live else p
  }

  lemma {:induction false} LiveStep(steps: seq<Step>, n: nat)
    requires steps != []
    ensures var before, last := LiveTotal(steps[..|steps| - 1], n), steps[|steps| - 1];
      if last.Hit? then LiveTotal(steps, n) == before + if last.h < n then 1 else 0
      else LiveTotal(steps, n) <= before
  {
    if n > 0 {
      LiveStep(steps, n - 1);
    }
  }

  lemma {:induction false} NoneLive(n: nat)
    ensures LiveTotal([], n) == 0
  {
    if n > 0 {
      NoneLive(n - 1);
    }
  }

  lemma {:induction false} LiveSum(lists: Lists<Record>, heads: seq<Link<Record>>, steps: seq<Step>)
    requires forall k :: 0 <= k < |heads| ==> heads[k] in lists && |lists[heads[k]]| == Live(steps, k)
    ensures Total(lists, heads) == LiveTotal(steps, |heads|)
  {
    if heads != [] {
      LiveSum(lists, heads[..|heads| - 1], steps);
    }
  }

  /** Free and live records together are all that were ever allocated. */
  lemma FreePlusLive(w: HitPool, heads: seq<Link<Record>>, steps: seq<Step>)
    requires w.Valid() && Distinct(heads) && w.freeHd !in heads
    requires w.lists.Keys == (set h | h in heads) + {w.freeHd}
    requires forall k :: 0 <= k < |heads| ==> |w.lists[heads[k]]| == Live(steps, k)
    ensures |w.owner.Keys| == |w.lists[w.freeHd]| + LiveTotal(steps, |heads|)
  {
    var all := heads + [w.freeHd];
    Conserved(w.lists, w.owner, all);
    LiveSum(w.lists, heads, steps);
    assert all[..|heads|] == heads && |w.owner| == |w.owner.Keys|;
  }

  /** What a step gave: the record that was got, or none. */
  datatype Outcome = Got(p: Link<Record>) | Freed

  /** The records on list `h` after the run: those got for it since it was last
      freed, in order. */
  function Held(steps: seq<Step>, outs: seq<Outcome>, h: nat): seq<Link<Record>>
    requires |outs| == |steps|
  {
    if steps == [] then []
    else
      var n := |steps| - 1;
      if steps[n] == FreeAll(h) then []
      else Held(steps[..n], outs[..n], h) + if steps[n] == Hit(h) && outs[n].Got? then [outs[n].p] else []
  }

  /** At each step that got a record, the record was on none of the first `n` lists. */
  ghost predicate NeverLive(steps: seq<Step>, outs: seq<Outcome>, n: nat)
    requires |outs| == |steps|
  {
    forall i :: 0 <= i < |steps| ==> NotLiveAt(steps, outs, n, i)
  }

  ghost predicate NotLiveAt(steps: seq<Step>, outs: seq<Outcome>, n: nat, i: nat)
    requires |outs| == |steps| && i < |steps|
  {
    (steps[i].Hit? <==> outs[i].Got?)
    && (outs[i].Got? ==> forall k :: 0 <= k < n ==> outs[i].p !in Held(steps[..i], outs[..i], k))
  }

  lemma NeverLiveMore(steps: seq<Step>, outs: seq<Outcome>, n: nat)
    requires |outs| == |steps| > 0
    requires NeverLive(steps[..|steps| - 1], outs[..|steps| - 1], n) && NotLiveAt(steps, outs, n, |steps| - 1)
    ensures NeverLive(steps, outs, n)
  {
    var m := |steps| - 1;
    forall i | 0 <= i < m
      ensures NotLiveAt(steps, outs, n, i)
    {
      assert NotLiveAt(steps[..m], outs[..m], n, i);
      assert steps[..m][..i] == steps[..i] && outs[..m][..i] == outs[..i];
    }
  }

  /** What one more step does to the lists, and to what is known of them. */
  lemma Extended(steps: seq<Step>, outs: seq<Outcome>, out: Outcome, heads: seq<Link<Record>>,
                 was: Lists<Record>, now: Lists<Record>)
    requires |steps| == |outs| + 1 && NeverLive(steps[..|outs|], outs, |heads|)
    requires forall k :: 0 <= k < |heads| ==> heads[k] in was && heads[k] in now
    requires forall k :: 0 <= k < |heads| ==> was[heads[k]] == Held(steps[..|outs|], outs, k)
    requires steps[|outs|].Hit? <==> out.Got?
    requires out.Got? ==> forall k :: 0 <= k < |heads| ==> out.p !in was[heads[k]]
    requires forall k :: 0 <= k < |heads| ==>
      now[heads[k]] ==
      if k != steps[|outs|].h then was[heads[k]] else if out.Got? then was[heads[k]] + [out.p] else []
    ensures NeverLive(steps, outs + [out], |heads|)
    ensures forall k :: 0 <= k < |heads| ==> now[heads[k]] == Held(steps, outs + [out], k)
  {
    hide NeverLive;
    var more := outs + [out];
    assert more[..|outs|] == outs;
    NeverLiveMore(steps, more, |heads|);
  }

  /** A list holds as many records as were got for it since it was last freed. */
  lemma {:induction false} HeldLive(steps: seq<Step>, outs: seq<Outcome>, h: nat)
    requires |outs| == |steps| && forall i :: 0 <= i < |steps| ==> (steps[i].Hit? <==> outs[i].Got?)
    ensures |Held(steps, outs, h)| == Live(steps, h)
  {
    if steps != [] {
      HeldLive(steps[..|steps| - 1], outs[..|steps| - 1], h);
    }
  }

  /** A list holds a record exactly if it was got for the list and the list was not
      freed after that. */
  lemma {:induction false} HeldIff(steps: seq<Step>, outs: seq<Outcome>, h: nat, p: Link<Record>)
    requires |outs| == |steps|
    ensures p in Held(steps, outs, h) <==> exists i :: 0 <= i < |steps| && KeptFrom(steps, outs, h, p, i)
  {
    if steps != [] {
      var n := |steps| - 1;
      HeldIff(steps[..n], outs[..n], h, p);
      KeptLast(steps, outs, h, p);
      forall i | 0 <= i < n
        ensures KeptFrom(steps, outs, h, p, i)
          <==> KeptFrom(steps[..n], outs[..n], h, p, i) && steps[n] != FreeAll(h)
      {
        KeptOn(steps, outs, h, p, i);
      }
      hide KeptFrom;
      assert p in Held(steps, outs, h)
        <==> (p in Held(steps[..n], outs[..n], h) && steps[n] != FreeAll(h)) || KeptFrom(steps, outs, h, p, n);
    }
  }

  lemma KeptLast(steps: seq<Step>, outs: seq<Outcome>, h: nat, p: Link<Record>)
    requires |outs| == |steps| > 0
    ensures var n := |steps| - 1;
      KeptFrom(steps, outs, h, p, n) <==> steps[n] == Hit(h) && outs[n] == Got(p)
  {
  }

  lemma KeptOn(steps: seq<Step>, outs: seq<Outcome>, h: nat, p: Link<Record>, i: nat)
    requires i < |steps| - 1 && |outs| == |steps|
    ensures var n := |steps| - 1;
      KeptFrom(steps, outs, h, p, i) <==> KeptFrom(steps[..n], outs[..n], h, p, i) && steps[n] != FreeAll(h)
  {
  }

  predicate KeptFrom(steps: seq<Step>, outs: seq<Outcome>, h: nat, p: Link<Record>, i: nat)
    requires i < |outs| == |steps|
  {
    steps[i] == Hit(h) && outs[i] == Got(p) && forall j :: i < j < |steps| ==> steps[j] != FreeAll(h)
  }

  /** The peak is reached at some point of the run, and never passed. */
  lemma {:induction false} PeakIsLargest(steps: seq<Step>, n: nat)
    ensures forall m :: 0 <= m <= |steps| ==> LiveTotal(steps[..m], n) <= Peak(steps, n)
    ensures exists m :: 0 <= m <= |steps| && LiveTotal(steps[..m], n) == Peak(steps, n)
  {
    hide LiveTotal;
    assert steps[..|steps|] == steps;
    if steps == [] {
      NoneLive(n);
      assert LiveTotal(steps[..0], n) == Peak(steps, n);
    } else {
      var before := steps[..|steps| - 1];
      PeakIsLargest(before, n);
      assert forall m :: 0 <= m <= |before| ==> before[..m] == steps[..m];
      var m :| 0 <= m <= |before| && LiveTotal(before[..m], n) == Peak(before, n);
      assert LiveTotal(steps[..m], n) == Peak(before, n);
      assert LiveTotal(steps[..|steps|], n) == LiveTotal(steps, n);
    }
  }

  /** Performs one step. */
  method Perform(w: HitPool, heads: seq<Link<Record>>, step: Step) returns (out: Outcome)
    requires w.Valid() && Distinct(heads) && w.freeHd !in heads && step.h < |heads|
    requires forall k :: 0 <= k < |heads| ==> heads[k] in w.lists
    modifies w, w.lists.Keys`forw, w.lists.Keys`back, w.owner.Keys`forw, w.owner.Keys`back
    ensures w.Valid() && w.lists.Keys == old(w.lists.Keys)
    ensures step.Hit? <==> out.Got?
    ensures out.Got? ==> forall k :: 0 <= k < |heads| ==> out.p !in old(w.lists[heads[k]])
    ensures forall k :: 0 <= k < |heads| ==>
      w.lists[heads[k]] ==
      if k != step.h then old(w.lists[heads[k]]) else if out.Got? then old(w.lists[heads[k]]) + [out.p] else []
    ensures w.owner.Keys == old(w.owner.Keys) + if out.Got? then {out.p} else {}
    ensures out.Got? ==> (out.p !in old(w.owner) <==> old(w.lists[w.freeHd]) == [])
    ensures fresh(w.owner.Keys - old(w.owner.Keys))
  {
    hide Ring, Owned;
    var hd := heads[step.h];
    assert forall k :: 0 <= k < |heads| && k != step.h ==> heads[k] != hd;
    assert forall k :: 0 <= k < |heads| ==> heads[k] != w.freeHd;
    if step.Hit? {
      var p := AddHit(w, hd);
      out := Got(p);
    } else {
      FreeHitlist(w, hd);
      out := Freed;
    }
  }

  lemma OneElement<T>(s: set<T>, p: T)
    ensures |s + {p}| == |s| + if p in s then 0 else 1
  {
    if p in s {
      assert s + {p} == s;
    }
  }

  /** How many records there are after one more step. */
  lemma Grown(before: set<Link<Record>>, after: set<Link<Record>>, out: Outcome)
    requires after == before + if out.Got? then {out.p} else {}
    ensures |after| == |before| + if out.Got? && out.p !in before then 1 else 0
  {
    if out.Got? {
      OneElement(before, out.p);
    } else {
      assert after == before;
    }
  }

  lemma PeakStep(steps: seq<Step>, n: nat, free: nat, isNew: bool)
    requires steps != [] && steps[|steps| - 1].h < n
    requires Peak(steps[..|steps| - 1], n) == free + LiveTotal(steps[..|steps| - 1], n)
    requires isNew <==> steps[|steps| - 1].Hit? && free == 0
    ensures Peak(steps, n) == Peak(steps[..|steps| - 1], n) + if isNew then 1 else 0
  {
    hide LiveTotal;
    LiveStep(steps, n);
  }

  /** What is known of a pool that started with nothing: each list holds the records
      got for it since it was last freed, no record was handed out that was on one of
      the lists, and no more is allocated than was live at once. */
  ghost predicate After(w: HitPool, heads: seq<Link<Record>>, steps: seq<Step>, outs: seq<Outcome>)
    reads w`lists, w`owner
    requires |outs| == |steps|
  {
    && w.lists.Keys == (set h | h in heads) + {w.freeHd}
    && NeverLive(steps, outs, |heads|)
    && (forall k :: 0 <= k < |heads| ==> w.lists[heads[k]] == Held(steps, outs, k))
    && |w.owner.Keys| == Peak(steps, |heads|)
  }

  /** One step of a run. */
  method RunStep(w: HitPool, heads: seq<Link<Record>>, ghost steps: seq<Step>, step: Step, ghost outs: seq<Outcome>)
    returns (out: Outcome)
    requires w.Valid() && Distinct(heads) && w.freeHd !in heads && step.h < |heads|
    requires |outs| == |steps| && w.lists.Keys == (set h | h in heads) + {w.freeHd} && After(w, heads, steps, outs)
    modifies w, w.lists.Keys`forw, w.lists.Keys`back, w.owner.Keys`forw, w.owner.Keys`back
    ensures w.Valid() && w.lists.Keys == old(w.lists.Keys)
    ensures After(w, heads, steps + [step], outs + [out])
    ensures fresh(w.owner.Keys - old(w.owner.Keys))
  {
    hide Ring, Owned, LiveTotal, NeverLive, Peak, Held, Total, Live, After;
    AfterIs(w, heads, steps, outs);
    ghost var was, lists, free := w.owner.Keys, w.lists, w.lists[w.freeHd];
    ghost var more := steps + [step];
    assert more[..|steps|] == steps;
    Counted(w, heads, steps, outs);
    out := Perform(w, heads, step);
    Grown(was, w.owner.Keys, out);
    PeakStep(more, |heads|, |free|, out.Got? && out.p !in was);
    Extended(more, outs, out, heads, lists, w.lists);
    AfterIs(w, heads, more, outs + [out]);
  }

  lemma AfterIs(w: HitPool, heads: seq<Link<Record>>, steps: seq<Step>, outs: seq<Outcome>)
    requires |outs| == |steps| && w.lists.Keys == (set h | h in heads) + {w.freeHd}
    ensures After(w, heads, steps, outs) <==>
      NeverLive(steps, outs, |heads|)
      && (forall k :: 0 <= k < |heads| ==> w.lists[heads[k]] == Held(steps, outs, k))
      && |w.owner.Keys| == Peak(steps, |heads|)
  {
  }

  /** Performs the steps, from a pool in which nothing was ever allocated. */
  method Run(w: HitPool, heads: seq<Link<Record>>, steps: seq<Step>) returns (outs: seq<Outcome>)
    requires w.Valid() && Distinct(heads) && w.freeHd !in heads && w.owner == map[]
    requires w.lists.Keys == (set h | h in heads) + {w.freeHd}
    requires forall i :: 0 <= i < |steps| ==> steps[i].h < |heads|
    modifies w, w.lists.Keys`forw, w.lists.Keys`back
    decreases |steps|
    ensures w.Valid() && w.lists.Keys == old(w.lists.Keys)
    ensures |outs| == |steps| && After(w, heads, steps, outs)
    ensures forall k :: 0 <= k < |heads| ==> w.lists[heads[k]] == Held(steps, outs, k)
    ensures forall i :: 0 <= i < |steps| ==> (steps[i].Hit? <==> outs[i].Got?)
    ensures forall i, k :: 0 <= i < |steps| && outs[i].Got? && 0 <= k < |heads| ==>
      outs[i].p !in Held(steps[..i], outs[..i], k)
    ensures |w.owner.Keys| == Peak(steps, |heads|)
    ensures fresh(w.owner.Keys)
  {
    hide Ring, Owned, LiveTotal, NeverLive, Peak, Held, Live;
    if steps == [] {
      outs := [];
      NoLinks(w);
      NothingYet(|heads|);
    } else {
      var before, last := steps[..|steps| - 1], steps[|steps| - 1];
      assert before + [last] == steps;
      outs := Run(w, heads, before);
      var out := RunStep(w, heads, before, last, outs);
      outs := outs + [out];
    }
    SpelledOut(steps, outs, |heads|);
  }

  lemma SpelledOut(steps: seq<Step>, outs: seq<Outcome>, n: nat)
    requires |outs| == |steps| && NeverLive(steps, outs, n)
    ensures forall i :: 0 <= i < |steps| ==> (steps[i].Hit? <==> outs[i].Got?)
    ensures forall i, k :: 0 <= i < |steps| && outs[i].Got? && 0 <= k < n ==>
      outs[i].p !in Held(steps[..i], outs[..i], k)
  {
    hide Held;
    forall i | 0 <= i < |steps|
      ensures (steps[i].Hit? <==> outs[i].Got?)
      ensures outs[i].Got? ==> forall k :: 0 <= k < n ==> outs[i].p !in Held(steps[..i], outs[..i], k)
    {
      assert NotLiveAt(steps, outs, n, i);
    }
  }

  /** What the pool holds, in numbers. */
  lemma Counted(w: HitPool, heads: seq<Link<Record>>, steps: seq<Step>, outs: seq<Outcome>)
    requires w.Valid() && Distinct(heads) && w.freeHd !in heads
    requires w.lists.Keys == (set h | h in heads) + {w.freeHd}
    requires |outs| == |steps| && NeverLive(steps, outs, |heads|)
    requires forall k :: 0 <= k < |heads| ==> w.lists[heads[k]] == Held(steps, outs, k)
    ensures |w.owner.Keys| == |w.lists[w.freeHd]| + LiveTotal(steps, |heads|)
  {
    hide LiveTotal, Ring, Owned, Live, Held;
    forall i | 0 <= i < |steps|
      ensures steps[i].Hit? <==> outs[i].Got?
    {
      assert NotLiveAt(steps, outs, |heads|, i);
    }
    forall k | 0 <= k < |heads|
      ensures |w.lists[heads[k]]| == Live(steps, k)
    {
      HeldLive(steps, outs, k);
    }
    FreePlusLive(w, heads, steps);
  }

  lemma NothingYet(n: nat)
    ensures Peak([], n) == 0 && NeverLive([], [], n) && forall k :: 0 <= k < n ==> Held([], [], k) == []
  {
  }

  lemma NoLinks(w: HitPool)
    requires w.Valid() && w.owner == map[]
    ensures forall h :: h in w.lists ==> w.lists[h] == []
  {
    forall h | h in w.lists
      ensures w.lists[h] == []
    {
      w.Known(h);
    }
  }
}
