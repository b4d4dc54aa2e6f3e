/** The intrusive doubly linked ring of rtservice.h. Nodes are addresses; the two link fields of
    every node are looked up by address, and the operations rewrite them in place. */
module RtList {
  import opened Sequences

  type Links = map<int, int>

  /** n follows p, in both directions. */
  predicate Edge(nx: Links, pv: Links, p: int, n: int) {
    p in nx && nx[p] == n && n in pv && pv[n] == p
  }

  /** Following `next` from p visits xs and then arrives at n; `prev` leads back. */
  ghost predicate Seg(nx: Links, pv: Links, xs: seq<int>, p: int, n: int) {
    if xs == [] then Edge(nx, pv, p, n)
    else Edge(nx, pv, p, xs[0]) && Seg(nx, pv, xs[1..], xs[0], n)
  }

  /** The ring at `head` holds exactly the nodes xs, in this order. */
  ghost predicate Ring(nx: Links, pv: Links, head: int, xs: seq<int>) {
    Seg(nx, pv, xs, head, head) && Distinct(xs) && head !in xs
  }

  function Last(xs: seq<int>, p: int): int {
    if xs == [] then p else xs[|xs| - 1]
  }

  function First(xs: seq<int>, n: int): int {
    if xs == [] then n else xs[0]
  }

  function WithAt(xs: seq<int>, k: nat, x: int): seq<int>
    requires k <= |xs|
  {
    xs[..k] + [x] + xs[k..]
  }

  function WithoutAt(xs: seq<int>, k: nat): seq<int>
    requires k < |xs|
  {
    xs[..k] + xs[k + 1..]
  }

  // ----- segments -----

  lemma {:induction false} SegFrame(nx: Links, pv: Links, nx': Links, pv': Links, xs: seq<int>, p: int, n: int)
    requires Seg(nx, pv, xs, p, n)
    requires forall a :: (a == p || a in xs) && a in nx ==> a in nx' && nx'[a] == nx[a]
    requires forall a :: (a == n || a in xs) && a in pv ==> a in pv' && pv'[a] == pv[a]
    ensures Seg(nx', pv', xs, p, n)
  {
    if xs != [] {
      SegFrame(nx, pv, nx', pv', xs[1..], xs[0], n);
    }
  }

  lemma {:induction false} SegJoin(nx: Links, pv: Links, a: seq<int>, x: int, b: seq<int>, p: int, n: int)
    requires Seg(nx, pv, a, p, x) && Seg(nx, pv, b, x, n)
    ensures Seg(nx, pv, a + [x] + b, p, n)
  {
    if a == [] {
      assert (a + [x] + b)[1..] == b;
    } else {
      SegJoin(nx, pv, a[1..], x, b, a[0], n);
      assert (a + [x] + b)[1..] == a[1..] + [x] + b;
    }
  }

  lemma {:induction false} SegCut(nx: Links, pv: Links, xs: seq<int>, k: nat, p: int, n: int)
    requires Seg(nx, pv, xs, p, n) && k < |xs|
    ensures Seg(nx, pv, xs[..k], p, xs[k]) && Seg(nx, pv, xs[k + 1..], xs[k], n)
  {
    if k > 0 {
      SegCut(nx, pv, xs[1..], k - 1, xs[0], n);
      assert xs[..k][1..] == xs[1..][..k - 1] && xs[1..][k..] == xs[k + 1..];
    }
  }

  /** What the last and the first link of a segment say. */
  lemma {:induction false} SegEnds(nx: Links, pv: Links, xs: seq<int>, p: int, n: int)
    requires Seg(nx, pv, xs, p, n)
    ensures p in nx && nx[p] == First(xs, n) && n in pv && pv[n] == Last(xs, p)
    ensures Last(xs, p) in nx && nx[Last(xs, p)] == n && First(xs, n) in pv && pv[First(xs, n)] == p
  {
    if xs != [] {
      SegEnds(nx, pv, xs[1..], xs[0], n);
    }
  }

  /** Redirecting the last link of a segment makes it end at z instead. */
  lemma {:induction false} SegRedirect(nx: Links, pv: Links, nx': Links, pv': Links, xs: seq<int>, p: int, n: int, z: int)
    requires Seg(nx, pv, xs, p, n) && Distinct(xs) && p !in xs
    requires Last(xs, p) in nx' && nx'[Last(xs, p)] == z && z in pv' && pv'[z] == Last(xs, p)
    requires forall a :: (a == p || a in xs) && a != Last(xs, p) && a in nx ==> a in nx' && nx'[a] == nx[a]
    requires forall a :: a in xs && a in pv ==> a in pv' && pv'[a] == pv[a]
    ensures Seg(nx', pv', xs, p, z)
  {
    if xs != [] {
      assert xs[0] !in xs[1..];
      SegRedirect(nx, pv, nx', pv', xs[1..], xs[0], n, z);
    }
  }

  /** The neighbours of position k in a ring. */
  lemma RingAround(nx: Links, pv: Links, head: int, xs: seq<int>, k: nat)
    requires Ring(nx, pv, head, xs) && k < |xs|
    ensures xs[k] in nx && nx[xs[k]] == First(xs[k + 1..], head)
    ensures xs[k] in pv && pv[xs[k]] == Last(xs[..k], head)
    ensures First(xs[k + 1..], head) in pv && Last(xs[..k], head) in nx
  {
    SegCut(nx, pv, xs, k, head, head);
    SegEnds(nx, pv, xs[..k], head, xs[k]);
    SegEnds(nx, pv, xs[k + 1..], xs[k], head);
  }

  lemma DistinctParts(xs: seq<int>, k: nat)
    requires Distinct(xs) && k < |xs|
    ensures Distinct(xs[..k]) && Distinct(xs[k + 1..]) && Distinct(WithoutAt(xs, k))
    ensures xs[k] !in xs[..k] && xs[k] !in xs[k + 1..]
    ensures forall a :: a in xs[..k] ==> a !in xs[k + 1..]
    ensures forall a :: a in WithoutAt(xs, k) <==> a in xs && a != xs[k]
  {
    var ys := WithoutAt(xs, k);
    forall a | a in xs && a != xs[k] ensures a in ys {
      var i :| 0 <= i < |xs| && xs[i] == a;
      assert a == if i < k then ys[i] else ys[i - 1];
    }
  }

  /** Bypassing position k unlinks exactly that node. */
  lemma RingUnlink(nx: Links, pv: Links, nx': Links, pv': Links, head: int, xs: seq<int>, k: nat)
    requires Ring(nx, pv, head, xs) && k < |xs|
    requires var y, z := Last(xs[..k], head), First(xs[k + 1..], head);
      && y in nx' && nx'[y] == z && z in pv' && pv'[z] == y
      && (forall a :: a in nx && a != y && a != xs[k] ==> a in nx' && nx'[a] == nx[a])
      && (forall a :: a in pv && a != z && a != xs[k] ==> a in pv' && pv'[a] == pv[a])
    ensures Ring(nx', pv', head, WithoutAt(xs, k))
  {
    var a, b := xs[..k], xs[k + 1..];
    var z := First(b, head);
    DistinctParts(xs, k);
    SegCut(nx, pv, xs, k, head, head);
    SegRedirect(nx, pv, nx', pv', a, head, xs[k], z);
    if b == [] {
      assert WithoutAt(xs, k) == a;
    } else {
      assert z !in b[1..];
      SegFrame(nx, pv, nx', pv', b[1..], z, head);
      SegJoin(nx', pv', a, z, b[1..], head, head);
      assert WithoutAt(xs, k) == a + [z] + b[1..];
    }
  }

  /** Linking a new node between positions k - 1 and k. */
  lemma RingLink(nx: Links, pv: Links, nx': Links, pv': Links, head: int, xs: seq<int>, k: nat, x: int)
    requires Ring(nx, pv, head, xs) && k <= |xs| && x !in xs && x != head
    requires var y, z := Last(xs[..k], head), First(xs[k..], head);
      && Edge(nx', pv', y, x) && Edge(nx', pv', x, z)
      && (forall a :: a in nx && a != y && a != x ==> a in nx' && nx'[a] == nx[a])
      && (forall a :: a in pv && a != z && a != x ==> a in pv' && pv'[a] == pv[a])
    ensures Ring(nx', pv', head, WithAt(xs, k, x))
  {
    if k < |xs| {
      LinkInside(nx, pv, nx', pv', head, xs, k, x);
      DistinctParts(xs, k);
    } else {
      assert xs[..k] == xs;
      SegRedirect(nx, pv, nx', pv', xs, head, head, x);
      SegJoin(nx', pv', xs, x, [], head, head);
      assert WithAt(xs, k, x) == xs + [x] + [];
    }
  }

  lemma LinkInside(nx: Links, pv: Links, nx': Links, pv': Links, head: int, xs: seq<int>, k: nat, x: int)
    requires Ring(nx, pv, head, xs) && k < |xs| && x !in xs && x != head
    requires var y, z := Last(xs[..k], head), First(xs[k..], head);
      && Edge(nx', pv', y, x) && Edge(nx', pv', x, z)
      && (forall a :: a in nx && a != y && a != x ==> a in nx' && nx'[a] == nx[a])
      && (forall a :: a in pv && a != z && a != x ==> a in pv' && pv'[a] == pv[a])
    ensures Seg(nx', pv', WithAt(xs, k, x), head, head)
  {
    var a, z, b := xs[..k], xs[k], xs[k + 1..];
    DistinctParts(xs, k);
    SegCut(nx, pv, xs, k, head, head);
    SegRedirect(nx, pv, nx', pv', a, head, z, x);
    SegFrame(nx, pv, nx', pv', b, z, head);
    SegJoin(nx', pv', a, x, [], head, z);
    assert a + [x] + [] == a + [x];
    SegJoin(nx', pv', a + [x], z, b, head, head);
    assert xs[k..] == [z] + b;
    assert WithAt(xs, k, x) == a + [x] + ([z] + b) == a + [x] + [z] + b;
  }

  /** The memory that holds the `next` and `prev` fields of all nodes. */
  class Nodes {
    var next: Links
    var prev: Links

    constructor ()
      ensures next == map[] && prev == map[]
    {
      next, prev := map[], map[];
    }

    ghost predicate Holds(head: int, xs: seq<int>)
      reads this
    {
      Ring(next, prev, head, xs)
    }

    /** rt_list_init */
    method Init(l: int)
      modifies this
      ensures Holds(l, [])
      ensures forall h, ys :: l != h && l !in ys && old(Holds(h, ys)) ==> Holds(h, ys)
    {
      next, prev := next[l := l], prev[l := l];
      Frames(old(next), old(prev), next, prev, {l});
    }

    /** rt_list_insert_after, at position k of the ring: l is the node before it. */
    method InsertAfter(l: int, n: int, ghost head: int, ghost xs: seq<int>, ghost k: nat)
      requires Holds(head, xs) && k <= |xs| && l == Last(xs[..k], head) && n !in xs && n != head
      modifies this
      ensures Holds(head, WithAt(xs, k, n))
      ensures forall h, ys :: Apart(h, ys, head, xs, n) && old(Holds(h, ys)) ==> Holds(h, ys)
    {
      LenStep(next, prev, head, xs, k);
      var m := next[l];
      prev := prev[m := n];
      next := next[n := m];
      next := next[l := n];
      prev := prev[n := l];
      RingLink(old(next), old(prev), next, prev, head, xs, k, n);
      Frames(old(next), old(prev), next, prev, {l, m, n});
      LastIn(xs, k, head);
    }

    /** rt_list_insert_before, at position k of the ring: l is the node at it. */
    method InsertBefore(l: int, n: int, ghost head: int, ghost xs: seq<int>, ghost k: nat)
      requires Holds(head, xs) && k <= |xs| && l == First(xs[k..], head) && n !in xs && n != head
      modifies this
      ensures Holds(head, WithAt(xs, k, n))
      ensures forall h, ys :: Apart(h, ys, head, xs, n) && old(Holds(h, ys)) ==> Holds(h, ys)
    {
      LenStep(next, prev, head, xs, k);
      var m := prev[l];
      next := next[m := n];
      prev := prev[n := m];
      prev := prev[l := n];
      next := next[n := l];
      RingLink(old(next), old(prev), next, prev, head, xs, k, n);
      Frames(old(next), old(prev), next, prev, {l, m, n});
      LastIn(xs, k, head);
    }

    /** rt_list_remove: the node leaves the ring and becomes a ring of its own. */
    method Remove(n: int, ghost head: int, ghost xs: seq<int>, ghost k: nat)
      requires Holds(head, xs) && k < |xs| && xs[k] == n
      modifies this
      ensures Holds(head, WithoutAt(xs, k)) && Holds(n, [])
      ensures forall h, ys :: Apart(h, ys, head, xs, n) && old(Holds(h, ys)) ==> Holds(h, ys)
    {
      RingAround(next, prev, head, xs, k);
      DistinctParts(xs, k);
      var m, p := next[n], prev[n];
      prev := prev[m := p];
      next := next[p := m];
      next, prev := next[n := n], prev[n := n];
      RingUnlink(old(next), old(prev), next, prev, head, xs, k);
      Frames(old(next), old(prev), next, prev, {p, m, n});
      LastIn(xs, k, head);
      LastIn(xs, k + 1, head);
    }

    /** rt_list_isempty */
    method IsEmpty(l: int, ghost xs: seq<int>) returns (empty: bool)
      requires Holds(l, xs)
      ensures empty <==> xs == []
    {
      SegEnds(next, prev, xs, l, l);
      empty := next[l] == l;
    }

    /** rt_list_len */
    method Len(l: int, ghost xs: seq<int>) returns (len: nat)
      requires Holds(l, xs)
      ensures len == |xs|
    {
      len := 0;
      var p := l;
      LenStep(next, prev, l, xs, 0);
      while next[p] != l
        invariant len <= |xs| && p == Last(xs[..len], l) && p in next && next[p] == First(xs[len..], l)
        decreases |xs| - len
      {
        p := next[p];
        len := len + 1;
        LenStep(next, prev, l, xs, len);
      }
    }
  }

  /** A ring that shares no node with another one and does not hold n. */
  ghost predicate Apart(h: int, ys: seq<int>, head: int, xs: seq<int>, n: int) {
    h != head && h !in xs && h != n && n !in ys && head !in ys && forall a :: a in ys ==> a !in xs
  }

  lemma LenStep(nx: Links, pv: Links, head: int, xs: seq<int>, k: nat)
    requires Ring(nx, pv, head, xs) && k <= |xs|
    ensures Last(xs[..k], head) in nx && nx[Last(xs[..k], head)] == First(xs[k..], head)
    ensures First(xs[k..], head) in pv && pv[First(xs[k..], head)] == Last(xs[..k], head)
  {
    if k < |xs| {
      SegCut(nx, pv, xs, k, head, head);
      SegEnds(nx, pv, xs[..k], head, xs[k]);
    } else {
      assert xs[..k] == xs;
      SegEnds(nx, pv, xs, head, head);
    }
  }

  lemma LastIn(xs: seq<int>, k: nat, head: int)
    requires k <= |xs|
    ensures Last(xs[..k], head) == head || Last(xs[..k], head) in xs
    ensures First(xs[k..], head) == head || First(xs[k..], head) in xs
  {
  }

  /** Links of nodes outside `changed` carry every other ring along. */
  lemma Frames(nx: Links, pv: Links, nx': Links, pv': Links, changed: set<int>)
    requires forall a :: a !in changed && a in nx ==> a in nx' && nx'[a] == nx[a]
    requires forall a :: a !in changed && a in pv ==> a in pv' && pv'[a] == pv[a]
    ensures forall h, ys :: Ring(nx, pv, h, ys) && h !in changed && (forall a :: a in ys ==> a !in changed) ==> Ring(nx', pv', h, ys)
  {
    forall h, ys | Ring(nx, pv, h, ys) && h !in changed && (forall a :: a in ys ==> a !in changed)
      ensures Ring(nx', pv', h, ys)
    {
      SegFrame(nx, pv, nx', pv', ys, h, h);
    }
  }
}
