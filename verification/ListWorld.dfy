/** All the lists that are threaded through one kind of structure, with the free
    list that they share.  Every structure is on exactly one of the lists. */
module ListWorld {
  import opened BuList

  type Lists<!T> = map<Link<T>, seq<Link<T>>>
  type Owners<!T> = map<Link<T>, Link<T>>

  /** `owner` sends every link to the head of the one list that it is on. */
  ghost predicate Owned<T>(lists: Lists<T>, owner: Owners<T>)
  {
    && lists.Keys !! owner.Keys
    && (forall h, i :: h in lists && 0 <= i < |lists[h]| ==> lists[h][i] in owner && owner[lists[h][i]] == h)
    && (forall n :: n in owner ==> owner[n] in lists && n in lists[owner[n]])
  }

  /** Owned lists are disjoint: a link is on one list, and once. */
  lemma OnOneList<T>(lists: Lists<T>, owner: Owners<T>, n: Link<T>)
    requires Owned(lists, owner)
    requires forall h :: h in lists ==> Distinct(lists[h])
    ensures n in owner <==> exists h, i :: h in lists && 0 <= i < |lists[h]| && lists[h][i] == n
    ensures forall g, i, h, j ::
      g in lists && h in lists && 0 <= i < |lists[g]| && 0 <= j < |lists[h]| && lists[g][i] == n && lists[h][j] == n
      ==> g == h && i == j
  {
  }

  /** Links and heads of different lists are different. */
  lemma Apart<T>(lists: Lists<T>, owner: Owners<T>, g: Link<T>, h: Link<T>)
    requires Owned(lists, owner)
    requires g in lists && h in lists
    ensures g !in lists[h] && h !in lists[g]
    ensures g != h ==> forall i, j :: 0 <= i < |lists[g]| && 0 <= j < |lists[h]| ==> lists[g][i] != lists[h][j]
    ensures forall i :: 0 <= i < |lists[g]| ==> lists[g][i] in owner
    ensures forall i :: 0 <= i < |lists[h]| ==> lists[h][i] in owner
  {
  }

  lemma TakeOwned<T>(lists: Lists<T>, owner: Owners<T>, h: Link<T>)
    requires Owned(lists, owner)
    requires h in lists && lists[h] != [] && Distinct(lists[h])
    ensures Owned(lists[h := lists[h][1..]], owner - {lists[h][0]})
    ensures lists[h][0] !in lists
  {
  }

  lemma PutOwned<T>(lists: Lists<T>, owner: Owners<T>, h: Link<T>, p: Link<T>)
    requires Owned(lists, owner)
    requires h in lists && p !in lists && p !in owner
    ensures Owned(lists[h := lists[h] + [p]], owner[p := h])
  {
  }

  ghost function Reowned<T>(owner: Owners<T>, s: seq<Link<T>>, dest: Link<T>): Owners<T>
  {
    map n | n in owner :: if n in s then dest else owner[n]
  }

  lemma SpliceOwned<T>(lists: Lists<T>, owner: Owners<T>, dest: Link<T>, src: Link<T>)
    requires Owned(lists, owner)
    requires dest in lists && src in lists && dest != src
    ensures Owned(lists[dest := lists[dest] + lists[src]][src := []], Reowned(owner, lists[src], dest))
  {
  }

  /** How many links are on the lists of these heads. */
  ghost function Total<T>(lists: Lists<T>, heads: seq<Link<T>>): nat
    requires forall k :: 0 <= k < |heads| ==> heads[k] in lists
  {
    if heads == [] then 0 else Total(lists, heads[..|heads| - 1]) + |lists[heads[|heads| - 1]]|
  }

  lemma {:induction false} DistinctSize<T>(s: seq<T>)
    requires Distinct(s)
    ensures |set i | 0 <= i < |s| :: s[i]| == |s|
  {
    if s != [] {
      var t := s[..|s| - 1];
      DistinctSize(t);
      assert (set i | 0 <= i < |s| :: s[i]) == (set i | 0 <= i < |t| :: t[i]) + {s[|s| - 1]};
    }
  }

  ghost function OwnedBy<T>(owner: Owners<T>, heads: set<Link<T>>): set<Link<T>>
  {
    set n | n in owner && owner[n] in heads
  }

  lemma OneList<T>(lists: Lists<T>, owner: Owners<T>, h: Link<T>)
    requires Owned(lists, owner) && h in lists && Distinct(lists[h])
    ensures |OwnedBy(owner, {h})| == |lists[h]|
  {
    DistinctSize(lists[h]);
    assert OwnedBy(owner, {h}) == set i | 0 <= i < |lists[h]| :: lists[h][i];
  }

  lemma {:induction false} TotalOf<T>(lists: Lists<T>, owner: Owners<T>, heads: seq<Link<T>>)
    requires Owned(lists, owner) && Distinct(heads)
    requires forall h :: h in lists ==> Distinct(lists[h])
    requires forall k :: 0 <= k < |heads| ==> heads[k] in lists
    ensures Total(lists, heads) == |OwnedBy(owner, set k | 0 <= k < |heads| :: heads[k])|
  {
    hide Owned;
    var all := set k | 0 <= k < |heads| :: heads[k];
    if heads == [] {
      assert OwnedBy(owner, all) == {};
    } else {
      var before, h := heads[..|heads| - 1], heads[|heads| - 1];
      var rest := set k | 0 <= k < |before| :: before[k];
      TotalOf(lists, owner, before);
      OneList(lists, owner, h);
      assert all == rest + {h};
      assert OwnedBy(owner, all) == OwnedBy(owner, rest) + OwnedBy(owner, {h});
    }
  }

  /** Nothing is lost and nothing is counted twice: the lists together are as
      long as there are links in all. */
  lemma Conserved<T>(lists: Lists<T>, owner: Owners<T>, heads: seq<Link<T>>)
    requires Owned(lists, owner) && Distinct(heads)
    requires forall h :: h in lists ==> Distinct(lists[h])
    requires forall h :: h in lists <==> h in heads
    ensures Total(lists, heads) == |owner|
  {
    TotalOf(lists, owner, heads);
    assert OwnedBy(owner, set k | 0 <= k < |heads| :: heads[k]) == owner.Keys;
  }

  class World<T> {
    const freeHd: Link<T>

    /** The links on the list of each head, the free list included. */
    ghost var lists: Lists<T>

    /** The list of each link. */
    ghost var owner: Owners<T>

    ghost predicate Valid()
      reads this`lists, this`owner, lists.Keys`forw, lists.Keys`back, owner.Keys`forw, owner.Keys`back
    {
      && freeHd in lists
      && Owned(lists, owner)
      && (forall h :: h in lists ==> Ring(h, lists[h]))
    }

    /** A link that is neither a head nor on any list. */
    ghost predicate Loose(p: Link<T>)
      reads this`lists, this`owner
    {
      p !in owner && p !in lists
    }

    /** What a list says about its head, and about who owns its links. */
    lemma Known(h: Link<T>)
      requires Valid() && h in lists
      ensures freeHd in lists && lists.Keys !! owner.Keys
      ensures h.forw == At(h, lists[h], 0) && h.back == At(h, lists[h], |lists[h]| - 1)
      ensures h !in lists[h] && Distinct(lists[h])
      ensures forall i :: 0 <= i < |lists[h]| ==> lists[h][i] in owner && owner[lists[h][i]] == h
    {
      Ends(h, lists[h]);
    }

    /** The links of a list, followed from its head, are its sequence. */
    lemma Forward(h: Link<T>)
      requires Valid() && h in lists
      ensures h.forw == At(h, lists[h], 0) && h !in lists[h]
      ensures forall k :: 0 <= k < |lists[h]| ==> lists[h][k] in owner && lists[h][k].forw == At(h, lists[h], k + 1)
    {
      Known(h);
      forall k | 0 <= k < |lists[h]|
        ensures lists[h][k].forw == At(h, lists[h], k + 1)
      {
        assert Joined(h, lists[h], k);
      }
    }

    constructor (freeHd: Link<T>)
      modifies freeHd`forw, freeHd`back
      ensures Valid() && this.freeHd == freeHd
      ensures lists == map[freeHd := []] && owner == map[]
    {
      this.freeHd := freeHd;
      lists := map[freeHd := []];
      owner := map[];
      new;
      Init(freeHd);
    }

    /** `BU_LIST_INIT` on a new head. */
    method NewList(h: Link<T>)
      requires Valid() && Loose(h)
      modifies this`lists, h`forw, h`back
      ensures Valid()
      ensures lists == old(lists)[h := []]
    {
      Init(h);
      lists := lists[h := []];
      forall g | g in lists && g != h
        ensures Ring(g, lists[g])
      {
        assert old(Ring(g, lists[g]));
      }
    }

    /** Takes the first link off the list of `h`. */
    method TakeFirst(h: Link<T>) returns (p: Link<T>)
      requires Valid() && h in lists && lists[h] != []
      modifies this`lists, this`owner, h`forw, h`back, owner.Keys`forw, owner.Keys`back
      ensures Valid() && Loose(p)
      ensures p == old(lists[h][0])
      ensures lists == old(lists)[h := old(lists[h])[1..]]
      ensures owner == old(owner) - {p}
    {
      hide Ring, Owned;
      ghost var s, was := lists[h], lists;
      Apart(lists, owner, h, h);
      Ends(h, s);
      TakeOwned(lists, owner, h);
      p := h.forw;
      lists, owner := lists[h := s[1..]], owner - {p};
      Dequeue(p, h, s, 0);
      assert s[..0] + s[1..] == s[1..];
      forall g | g in lists
        ensures Ring(g, lists[g])
      {
        if g != h {
          Apart(was, old(owner), g, h);
          assert old(Ring(g, was[g]));
        }
      }
    }

    /** The first half of a GET macro: a link off the free list, or `null`. */
    method Recycle() returns (p: Link?<T>)
      requires Valid()
      modifies this`lists, this`owner, freeHd`forw, freeHd`back, owner.Keys`forw, owner.Keys`back
      ensures Valid()
      ensures p == null <==> old(lists[freeHd]) == []
      ensures p == null ==> lists == old(lists) && owner == old(owner)
      ensures p != null ==> p == old(lists[freeHd][0]) && p in old(owner) && Loose(p)
      ensures p != null ==> lists == old(lists)[freeHd := old(lists[freeHd])[1..]]
      ensures p != null ==> owner == old(owner) - {p}
    {
      hide Ring, Owned;
      Known(freeHd);
      if freeHd.forw == freeHd {
        p := null;
      } else {
        p := TakeFirst(freeHd);
      }
    }

    /** Puts the loose link `p` at the end of the list of `h`. */
    method PutLast(h: Link<T>, p: Link<T>)
      requires Valid() && h in lists && Loose(p)
      modifies this`lists, this`owner, h`forw, h`back, owner.Keys`forw, owner.Keys`back, p`forw, p`back
      ensures Valid()
      ensures lists == old(lists)[h := old(lists[h]) + [p]]
      ensures owner == old(owner)[p := h]
    {
      hide Ring, Owned;
      ghost var s, was := lists[h], lists;
      Apart(lists, owner, h, h);
      PutOwned(lists, owner, h, p);
      lists, owner := lists[h := s + [p]], owner[p := h];
      Insert(h, p, h, s, |s|);
      assert s[..|s|] + [p] + s[|s|..] == s + [p];
      forall g | g in lists
        ensures Ring(g, lists[g])
      {
        if g != h {
          Apart(was, old(owner), g, h);
          Apart(was, old(owner), g, g);
          assert old(Ring(g, was[g]));
        }
      }
    }

    /** `BU_LIST_APPEND_LIST`: the whole list `src` goes to the end of `dest`. */
    method Splice(dest: Link<T>, src: Link<T>)
      requires Valid() && dest in lists && src in lists && dest != src
      modifies this`lists, this`owner, dest`forw, dest`back, src`forw, src`back, owner.Keys`forw, owner.Keys`back
      ensures Valid()
      ensures lists == old(lists)[dest := old(lists[dest]) + old(lists[src])][src := []]
      ensures owner.Keys == old(owner.Keys)
    {
      hide Ring, Owned;
      ghost var d, s, was := lists[dest], lists[src], lists;
      Apart(lists, owner, dest, src);
      SpliceOwned(lists, owner, dest, src);
      lists, owner := lists[dest := d + s][src := []], Reowned(owner, s, dest);
      AppendList(dest, src, d, s);
      forall g | g in lists
        ensures Ring(g, lists[g])
      {
        if g != dest && g != src {
          Apart(was, old(owner), g, dest);
          Apart(was, old(owner), g, src);
          assert old(Ring(g, was[g]));
        }
      }
    }
  }
}
