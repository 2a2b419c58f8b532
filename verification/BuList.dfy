/** The intrusive circular doubly linked list of bu/list.h.

    A list is a ring of links closed through a head.  Every operation takes the
    sequence that the ring denotes as a ghost argument and says which sequence it
    denotes afterwards. */
module BuList {

  /** `struct bu_list`, as the first member of the structure that it threads:
      `data` is the rest of that structure, which has no storage of its own.  The
      storage that a head may carry is ignored. */
  class Link<T> {
    var forw: Link?<T>
    var back: Link?<T>
    var data: T

    constructor (data: T)
      ensures this.data == data
      ensures forw == null && back == null
    {
      this.data := data;
      forw, back := null, null;
    }
  }

  /** Link `k` of the ring through head `h`, where position |s| is the head itself. */
  function At<T>(h: Link<T>, s: seq<Link<T>>, k: int): Link<T>
  {
    if 0 <= k < |s| then s[k] else h
  }

  /** Links `k` and `k + 1` of the ring point at each other. */
  ghost predicate Joined<T>(h: Link<T>, s: seq<Link<T>>, k: int)
    reads h`forw, h`back, s`forw, s`back
  {
    At(h, s, k).forw == At(h, s, k + 1) && At(h, s, k + 1).back == At(h, s, k)
  }

  ghost predicate Distinct<T>(s: seq<T>)
  {
    forall i, j :: 0 <= i < j < |s| ==> s[i] != s[j]
  }

  /** The ring through `h` visits exactly the links of `s`, in order, both ways. */
  ghost predicate Ring<T>(h: Link<T>, s: seq<Link<T>>)
    reads h`forw, h`back, s`forw, s`back
  {
    && h !in s
    && Distinct(s)
    && (forall k :: -1 <= k < |s| ==> Joined(h, s, k))
  }

  /** What the two ends of the head point at. */
  lemma Ends<T>(h: Link<T>, s: seq<Link<T>>)
    requires Ring(h, s)
    ensures Distinct(s)
    ensures h.forw == At(h, s, 0) && h.back == At(h, s, |s| - 1)
    ensures s == [] <==> h.forw == h
    ensures s == [] <==> h.back == h
  {
    assert Joined(h, s, -1) && Joined(h, s, |s| - 1);
  }

  /** Makes a link the head of an empty list. */
  method Init<T>(h: Link<T>)
    modifies h`forw, h`back
    ensures Ring(h, [])
  {
    h.forw := h;
    h.back := h;
  }

  /** Inserts `nw` in front of `cur`, which is link `k` of the ring or its head. */
  method Insert<T>(cur: Link<T>, nw: Link<T>, ghost h: Link<T>, ghost s: seq<Link<T>>, ghost k: nat)
    requires Ring(h, s)
    requires k <= |s| && cur == At(h, s, k)
    requires nw != h && nw !in s
    modifies cur`back, At(h, s, k - 1)`forw, nw`forw, nw`back
    ensures Ring(h, s[..k] + [nw] + s[k..])
  {
    assert Joined(h, s, k - 1);
    nw.back := cur.back;
    cur.back := nw;
    nw.forw := cur;
    nw.back.forw := nw;
    ghost var t := s[..k] + [nw] + s[k..];
    forall e | -1 <= e < |t|
      ensures Joined(h, t, e)
    {
      if e < k - 1 {
        assert old(Joined(h, s, e));
      } else if e > k {
        assert old(Joined(h, s, e - 1));
      }
    }
  }

  /** Unlinks `cur`, which is link `k` of the ring, and clears its pointers. */
  method Dequeue<T>(cur: Link<T>, ghost h: Link<T>, ghost s: seq<Link<T>>, ghost k: nat)
    requires Ring(h, s)
    requires k < |s| && cur == s[k]
    modifies cur`forw, cur`back, At(h, s, k - 1)`forw, At(h, s, k + 1)`back
    ensures Ring(h, s[..k] + s[k + 1..])
    ensures cur.forw == null && cur.back == null
  {
    assert Joined(h, s, k - 1) && Joined(h, s, k);
    if cur.forw != null {
      cur.forw.back := cur.back;
    }
    if cur.back != null {
      cur.back.forw := cur.forw;
    }
    cur.forw := null;
    cur.back := null;
    ghost var t := s[..k] + s[k + 1..];
    forall e | -1 <= e < |t|
      ensures Joined(h, t, e)
    {
      if e < k - 1 {
        assert old(Joined(h, s, e));
      } else if e > k - 1 {
        assert old(Joined(h, s, e + 1));
      }
    }
  }

  /** Moves every link of the list `src` to the end of the list `dest`, and
      leaves `src` empty, touching the two heads and the two ends only. */
  method AppendList<T>(dest: Link<T>, src: Link<T>, ghost d: seq<Link<T>>, ghost s: seq<Link<T>>)
    requires Ring(dest, d) && Ring(src, s)
    requires dest != src && dest !in s && src !in d
    requires forall i, j :: 0 <= i < |d| && 0 <= j < |s| ==> d[i] != s[j]
    modifies dest`back, src`forw, src`back
    modifies At(dest, d, |d| - 1)`forw, At(src, s, 0)`back, At(src, s, |s| - 1)`forw
    ensures Ring(dest, d + s)
    ensures Ring(src, [])
  {
    assert Joined(src, s, -1) && Joined(src, s, |s| - 1) && Joined(dest, d, |d| - 1);
    if src.forw != src {
      var first := src.forw;
      var last := src.back;
      first.back := dest.back;
      dest.back.forw := first;
      dest.back := last;
      last.forw := dest;
      src.forw := src;
      src.back := src;
      ghost var t := d + s;
      forall e | -1 <= e < |t|
        ensures Joined(dest, t, e)
      {
        if e < |d| - 1 {
          assert old(Joined(dest, d, e));
        } else if |d| <= e {
          assert old(Joined(src, s, e - |d|));
        }
      }
    } else {
      assert s == [];
      assert d + s == d;
    }
  }
}
