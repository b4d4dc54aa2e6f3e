/** Heap blocks as an address-ordered list: the structure both allocators keep in their headers. */
module BlockList {
  /** SIZEOF_STRUCT_MEM on a 32-bit target: the header of mem.c, and a lower bound for that of
      memheap.c. No two headers are closer than this. */
  const HDR: int := 12

  /** One header of the chain: its offset, its `next` link and its used flag. */
  datatype Block = Block(off: int, next: int, used: bool) {
    /** The user data size of the block. */
    function Payload(): int { next - off - HDR }
  }

  /** The blocks cover [start, end) in address order, without gap or overlap: each `next` is the
      offset of the following block, and the last one is `end`. */
  ghost predicate Chain(bs: seq<Block>, start: int, end: int) {
    if bs == [] then start == end
    else
      && bs[0].off == start && start + HDR <= bs[0].next && bs[0].next % 4 == 0
      && Chain(bs[1..], bs[0].next, end)
  }

  ghost predicate NoFreeNeighbours(bs: seq<Block>) {
    |bs| > 1 ==> (bs[0].used || bs[1].used) && NoFreeNeighbours(bs[1..])
  }

  /** Two lists may meet without bringing two free blocks together. */
  ghost predicate Meet(a: seq<Block>, b: seq<Block>) {
    a == [] || b == [] || a[|a| - 1].used || b[0].used
  }

  /** Index of the first free block; |bs| if every block is used. */
  function FirstFree(bs: seq<Block>): (k: nat)
    ensures k <= |bs| && (k < |bs| ==> !bs[k].used)
    ensures forall i :: 0 <= i < k ==> bs[i].used
  {
    if bs == [] || !bs[0].used then 0 else
      var k := FirstFree(bs[1..]);
      assert forall i :: 0 < i < k + 1 ==> bs[i] == bs[1..][i - 1];
      k + 1
  }

  /** The offset the scan has at index k: a block, or the end header after the last one. */
  function OffAt(bs: seq<Block>, k: nat, end: int): int
    requires k <= |bs|
  {
    if k == |bs| then end else bs[k].off
  }

  /** The value of `lfree`: the lowest free block, or the end header. */
  function LowestFree(bs: seq<Block>, end: int): int {
    OffAt(bs, FirstFree(bs), end)
  }

  /** The extents (header included) of the used blocks. */
  function UsedSum(bs: seq<Block>): int {
    if bs == [] then 0 else (if bs[0].used then bs[0].next - bs[0].off else 0) + UsedSum(bs[1..])
  }

  /** Index of the block at an offset; |bs| if there is none. */
  function Find(bs: seq<Block>, off: int): (k: nat)
    ensures k <= |bs|
    ensures k < |bs| ==> bs[k].off == off
    ensures forall i :: 0 <= i < k ==> bs[i].off != off
  {
    if bs == [] then 0 else if bs[0].off == off then 0 else
      var k := Find(bs[1..], off);
      assert forall i :: 0 < i < k + 1 ==> bs[i] == bs[1..][i - 1];
      k + 1
  }

  /** What the callers of the heap see: the blocks in use. */
  ghost function Allocated(bs: seq<Block>): set<Block> {
    set b | b in bs && b.used
  }

  /** Block k is cut at p: the lower part is used, the upper part free. */
  function Split(bs: seq<Block>, k: nat, p: int): seq<Block>
    requires k < |bs|
  {
    bs[..k] + [Block(bs[k].off, p, true), Block(p, bs[k].next, false)] + bs[k + 1..]
  }

  function SetUsed(bs: seq<Block>, k: nat, used: bool): seq<Block>
    requires k < |bs|
  {
    bs[k := bs[k].(used := used)]
  }

  /** Blocks k and k + 1 become one block with the flag of block k. */
  function Join(bs: seq<Block>, k: nat): seq<Block>
    requires k + 1 < |bs|
  {
    bs[..k] + [bs[k].(next := bs[k + 1].next)] + bs[k + 2..]
  }

  function PlugForward(bs: seq<Block>, k: nat): seq<Block>
    requires k < |bs|
  {
    if k + 1 < |bs| && !bs[k + 1].used then Join(bs, k) else bs
  }

  function PlugBackward(bs: seq<Block>, k: nat): seq<Block>
    requires k < |bs|
  {
    if k > 0 && !bs[k - 1].used then Join(bs, k - 1) else bs
  }

  function Plug(bs: seq<Block>, k: nat): seq<Block>
    requires k < |bs|
  {
    PlugBackward(PlugForward(bs, k), k)
  }

  function FreeAt(bs: seq<Block>, k: nat): seq<Block>
    requires k < |bs|
  {
    Plug(SetUsed(bs, k, false), k)
  }

  // ----- lists in pieces -----

  lemma {:induction false} ChainAppend(a: seq<Block>, b: seq<Block>, start: int, mid: int, end: int)
    requires Chain(a, start, mid) && Chain(b, mid, end)
    ensures Chain(a + b, start, end)
  {
    if a == [] {
      assert a + b == b;
    } else {
      ChainAppend(a[1..], b, a[0].next, mid, end);
      assert (a + b)[1..] == a[1..] + b;
    }
  }

  lemma {:induction false} ChainCut(bs: seq<Block>, start: int, end: int, k: nat)
    requires Chain(bs, start, end) && k <= |bs|
    ensures Chain(bs[..k], start, OffAt(bs, k, end)) && Chain(bs[k..], OffAt(bs, k, end), end)
  {
    if k > 0 {
      ChainCut(bs[1..], bs[0].next, end, k - 1);
      assert bs[..k][1..] == bs[1..][..k - 1];
      assert bs[1..][k - 1..] == bs[k..];
    } else {
      assert bs[k..] == bs;
    }
  }

  lemma {:induction false} NoFreeNeighboursAppend(a: seq<Block>, b: seq<Block>)
    ensures NoFreeNeighbours(a + b) <==> NoFreeNeighbours(a) && NoFreeNeighbours(b) && Meet(a, b)
  {
    if a == [] {
      assert a + b == b;
    } else {
      NoFreeNeighboursAppend(a[1..], b);
      assert (a + b)[1..] == a[1..] + b;
    }
  }

  lemma {:induction false} UsedSumAppend(a: seq<Block>, b: seq<Block>)
    ensures UsedSum(a + b) == UsedSum(a) + UsedSum(b)
  {
    if a == [] {
      assert a + b == b;
    } else {
      UsedSumAppend(a[1..], b);
      assert (a + b)[1..] == a[1..] + b;
    }
  }

  /** A stretch of the list may be exchanged for another one over the same range. */
  lemma Exchange(bs: seq<Block>, k: nat, m: nat, mid: seq<Block>, end: int)
    requires Chain(bs, 0, end) && k <= m <= |bs|
    requires Chain(mid, OffAt(bs, k, end), OffAt(bs, m, end))
    ensures Chain(bs[..k] + mid + bs[m..], 0, end)
    ensures UsedSum(bs[..k] + mid + bs[m..]) == UsedSum(bs) - UsedSum(bs[k..m]) + UsedSum(mid)
  {
    ChainCut(bs, 0, end, k);
    ChainCut(bs, 0, end, m);
    ChainAppend(bs[..k], mid, 0, OffAt(bs, k, end), OffAt(bs, m, end));
    ChainAppend(bs[..k] + mid, bs[m..], 0, OffAt(bs, m, end), end);
    UsedSumExchange(bs, k, m, mid);
  }

  lemma UsedSumExchange(bs: seq<Block>, k: nat, m: nat, mid: seq<Block>)
    requires k <= m <= |bs|
    ensures UsedSum(bs[..k] + mid + bs[m..]) == UsedSum(bs) - UsedSum(bs[k..m]) + UsedSum(mid)
  {
    UsedSumAppend(bs[..k] + mid, bs[m..]);
    UsedSumAppend(bs[..k], mid);
    UsedSumAppend(bs[..k] + bs[k..m], bs[m..]);
    UsedSumAppend(bs[..k], bs[k..m]);
    assert bs == bs[..k] + bs[k..m] + bs[m..];
  }

  /** The same for the absence of free neighbours: only the seams matter. */
  lemma ExchangeNeighbours(bs: seq<Block>, k: nat, m: nat, mid: seq<Block>)
    requires k <= m <= |bs| && mid != [] && NoFreeNeighbours(mid)
    requires NoFreeNeighbours(bs[..k]) && NoFreeNeighbours(bs[m..])
    requires k > 0 ==> bs[k - 1].used || mid[0].used
    requires m < |bs| ==> bs[m].used || mid[|mid| - 1].used
    ensures NoFreeNeighbours(bs[..k] + mid + bs[m..])
  {
    NoFreeNeighboursAppend(bs[..k], mid);
    NoFreeNeighboursAppend(bs[..k] + mid, bs[m..]);
  }

  lemma CutNeighbours(bs: seq<Block>, k: nat)
    requires NoFreeNeighbours(bs) && k <= |bs|
    ensures NoFreeNeighbours(bs[..k]) && NoFreeNeighbours(bs[k..])
    ensures 0 < k < |bs| ==> bs[k - 1].used || bs[k].used
  {
    NoFreeNeighboursAppend(bs[..k], bs[k..]);
    assert bs == bs[..k] + bs[k..];
  }

  lemma Pair(a: Block, b: Block)
    ensures UsedSum([a]) == if a.used then a.next - a.off else 0
    ensures UsedSum([a, b]) == UsedSum([a]) + UsedSum([b])
    ensures forall s, e :: Chain([a], s, e) <==> a.off == s && s + HDR <= a.next && e == a.next && a.next % 4 == 0
    ensures forall s, e :: Chain([a, b], s, e) <==> Chain([a], s, a.next) && Chain([b], a.next, e)
    ensures NoFreeNeighbours([a]) && (NoFreeNeighbours([a, b]) <==> a.used || b.used)
  {
    assert [a][1..] == [] && [a, b][1..] == [b] && [b][1..] == [];
  }

  lemma BlockInChain(bs: seq<Block>, k: nat, end: int)
    requires Chain(bs, 0, end) && k < |bs|
    ensures bs[k].off % 4 == 0 && bs[k].next % 4 == 0 && 0 <= bs[k].off && bs[k].off + HDR <= bs[k].next <= end
    ensures bs[k].next == OffAt(bs, k + 1, end)
  {
    ChainCut(bs, 0, end, k);
    ChainRange(bs, k, end);
    if k > 0 {
      ChainRange(bs, k - 1, end);
    }
  }

  lemma ChainRange(bs: seq<Block>, k: nat, end: int)
    requires Chain(bs, 0, end) && k < |bs|
    ensures bs[k].next % 4 == 0 && 0 <= bs[k].off && bs[k].off + HDR <= bs[k].next <= end
    ensures bs[k].next == OffAt(bs, k + 1, end)
  {
    ChainCut(bs, 0, end, k);
    ChainCut(bs[k..], bs[k].off, end, 1);
    assert bs[k..][1..] == bs[k + 1..];
    ChainOrder(bs[..k], 0, bs[k].off);
    ChainOrder(bs[k + 1..], bs[k].next, end);
  }

  lemma {:induction false} ChainOrder(bs: seq<Block>, start: int, end: int)
    requires Chain(bs, start, end)
    ensures start <= end
  {
    if bs != [] {
      ChainOrder(bs[1..], bs[0].next, end);
    }
  }

  // ----- the operations keep the structure -----

  lemma SplitKeeps(bs: seq<Block>, end: int, k: nat, p: int)
    requires Chain(bs, 0, end) && k < |bs|
    requires bs[k].off + HDR <= p && p + HDR <= bs[k].next && p % 4 == 0
    ensures Chain(Split(bs, k, p), 0, end)
    ensures UsedSum(Split(bs, k, p)) == UsedSum(bs) + (p - bs[k].off) - (if bs[k].used then bs[k].next - bs[k].off else 0)
  {
    var lo, hi := Block(bs[k].off, p, true), Block(p, bs[k].next, false);
    BlockInChain(bs, k, end);
    Pair(lo, hi);
    Pair(bs[k], hi);
    assert bs[k..k + 1] == [bs[k]];
    Exchange(bs, k, k + 1, [lo, hi], end);
  }

  lemma SetUsedKeeps(bs: seq<Block>, end: int, k: nat, used: bool)
    requires Chain(bs, 0, end) && k < |bs|
    ensures Chain(SetUsed(bs, k, used), 0, end)
    ensures used && !bs[k].used ==> UsedSum(SetUsed(bs, k, used)) == UsedSum(bs) + (bs[k].next - bs[k].off)
    ensures !used && bs[k].used ==> UsedSum(SetUsed(bs, k, used)) == UsedSum(bs) - (bs[k].next - bs[k].off)
  {
    var b := bs[k].(used := used);
    BlockInChain(bs, k, end);
    Pair(b, b);
    Pair(bs[k], b);
    assert bs[k..k + 1] == [bs[k]];
    Exchange(bs, k, k + 1, [b], end);
    assert SetUsed(bs, k, used) == bs[..k] + [b] + bs[k + 1..];
  }

  lemma JoinChain(bs: seq<Block>, end: int, k: nat)
    requires Chain(bs, 0, end) && k + 1 < |bs|
    ensures Chain(Join(bs, k), 0, end)
  {
    var b := bs[k].(next := bs[k + 1].next);
    BlockInChain(bs, k, end);
    BlockInChain(bs, k + 1, end);
    Pair(b, b);
    Exchange(bs, k, k + 2, [b], end);
  }

  /** Joining two free blocks keeps the chain, the used sum and the lowest free offset. */
  lemma JoinKeeps(bs: seq<Block>, end: int, k: nat)
    requires Chain(bs, 0, end) && k + 1 < |bs| && !bs[k].used && !bs[k + 1].used
    ensures Chain(Join(bs, k), 0, end)
    ensures UsedSum(Join(bs, k)) == UsedSum(bs)
    ensures LowestFree(Join(bs, k), end) == LowestFree(bs, end)
  {
    var b := bs[k].(next := bs[k + 1].next);
    BlockInChain(bs, k, end);
    BlockInChain(bs, k + 1, end);
    Pair(b, b);
    Pair(bs[k], bs[k + 1]);
    Pair(bs[k + 1], b);
    assert bs[k..k + 2] == [bs[k], bs[k + 1]];
    Exchange(bs, k, k + 2, [b], end);
    FirstFreeIs(Join(bs, k), FirstFree(bs));
  }

  lemma FirstFreeIs(bs: seq<Block>, k: nat)
    requires k < |bs| && !bs[k].used && forall i :: 0 <= i < k ==> bs[i].used
    ensures FirstFree(bs) == k
  {
  }

  /** Plugging the holes around a free block whose two sides are in order. */
  lemma PlugKeeps(bs: seq<Block>, end: int, k: nat)
    requires Chain(bs, 0, end) && k < |bs| && !bs[k].used
    requires NoFreeNeighbours(bs[..k]) && NoFreeNeighbours(bs[k + 1..])
    ensures Chain(Plug(bs, k), 0, end) && NoFreeNeighbours(Plug(bs, k))
    ensures UsedSum(Plug(bs, k)) == UsedSum(bs)
    ensures LowestFree(Plug(bs, k), end) == LowestFree(bs, end)
  {
    PlugForwardKeeps(bs, end, k);
    PlugBackwardKeeps(PlugForward(bs, k), end, k);
  }

  lemma PlugForwardKeeps(bs: seq<Block>, end: int, k: nat)
    requires Chain(bs, 0, end) && k < |bs| && !bs[k].used && NoFreeNeighbours(bs[k + 1..])
    ensures var fs := PlugForward(bs, k);
      && k < |fs| && !fs[k].used && fs[..k] == bs[..k] && Chain(fs, 0, end) && NoFreeNeighbours(fs[k..])
      && UsedSum(fs) == UsedSum(bs) && LowestFree(fs, end) == LowestFree(bs, end)
  {
    var fs := PlugForward(bs, k);
    if k + 1 < |bs| && !bs[k + 1].used {
      JoinKeeps(bs, end, k);
      CutNeighbours(bs[k + 1..], 1);
      assert bs[k + 1..][1..] == bs[k + 2..];
    }
    assert fs[k..] == [fs[k]] + fs[k + 1..];
    Pair(fs[k], fs[k]);
    NoFreeNeighboursAppend([fs[k]], fs[k + 1..]);
  }

  lemma PlugBackwardKeeps(bs: seq<Block>, end: int, k: nat)
    requires Chain(bs, 0, end) && k < |bs| && !bs[k].used && NoFreeNeighbours(bs[..k]) && NoFreeNeighbours(bs[k..])
    ensures var fs := PlugBackward(bs, k);
      && Chain(fs, 0, end) && NoFreeNeighbours(fs)
      && UsedSum(fs) == UsedSum(bs) && LowestFree(fs, end) == LowestFree(bs, end)
  {
    if k > 0 && !bs[k - 1].used {
      JoinKeeps(bs, end, k - 1);
      CutNeighbours(bs[..k], k - 1);
      assert bs[..k][..k - 1] == bs[..k - 1];
      CutNeighbours(bs[k..], 1);
      assert bs[k..][1..] == bs[k + 1..];
      Pair(bs[k - 1].(next := bs[k].next), bs[k]);
      ExchangeNeighbours(bs, k - 1, k + 1, [bs[k - 1].(next := bs[k].next)]);
    } else {
      NoFreeNeighboursAppend(bs[..k], bs[k..]);
      assert bs == bs[..k] + bs[k..];
    }
  }

  lemma Sum4(off: int, size: int)
    requires off % 4 == 0 && size % 4 == 0
    ensures (off + HDR + size) % 4 == 0
  {
  }

  /** A free block may become one used block, or a used and a free one. */
  lemma ReplacedNeighbours(bs: seq<Block>, k: nat, mid: seq<Block>)
    requires NoFreeNeighbours(bs) && k < |bs| && !bs[k].used
    requires 1 <= |mid| <= 2 && mid[0].used
    ensures NoFreeNeighbours(bs[..k] + mid + bs[k + 1..])
  {
    CutNeighbours(bs, k);
    CutNeighbours(bs, k + 1);
    Pair(mid[0], mid[|mid| - 1]);
    assert mid == if |mid| == 1 then [mid[0]] else [mid[0], mid[1]];
    ExchangeNeighbours(bs, k, k + 1, mid);
  }

  lemma FreeAtKeeps(bs: seq<Block>, end: int, k: nat)
    requires Chain(bs, 0, end) && NoFreeNeighbours(bs) && k < |bs| && bs[k].used
    ensures Chain(FreeAt(bs, k), 0, end) && NoFreeNeighbours(FreeAt(bs, k))
    ensures UsedSum(FreeAt(bs, k)) == UsedSum(bs) - (bs[k].next - bs[k].off)
  {
    SetUsedKeeps(bs, end, k, false);
    CutNeighbours(bs, k);
    CutNeighbours(bs, k + 1);
    var fs := SetUsed(bs, k, false);
    assert fs[..k] == bs[..k] && fs[k + 1..] == bs[k + 1..];
    PlugKeeps(fs, end, k);
  }

  /** After a cut of a used block, both sides of the new free block are in order. */
  lemma CutSides(bs: seq<Block>, k: nat, p: int)
    requires NoFreeNeighbours(bs) && k < |bs| && bs[k].used
    ensures NoFreeNeighbours(Split(bs, k, p)[..k + 1]) && NoFreeNeighbours(Split(bs, k, p)[k + 2..])
  {
    var fs := Split(bs, k, p);
    var lo := Block(bs[k].off, p, true);
    CutNeighbours(bs, k);
    CutNeighbours(bs, k + 1);
    assert fs[..k + 1] == bs[..k] + [lo] && fs[k + 2..] == bs[k + 1..];
    Pair(lo, lo);
    NoFreeNeighboursAppend(bs[..k], [lo]);
  }

  // ----- order of the chain -----

  lemma {:induction false} ChainAbove(bs: seq<Block>, start: int, end: int, j: nat)
    requires Chain(bs, start, end) && j < |bs|
    ensures start <= bs[j].off && bs[j].next <= end && bs[j].off + HDR <= bs[j].next
  {
    if j > 0 {
      ChainAbove(bs[1..], bs[0].next, end, j - 1);
    } else {
      ChainOrder(bs[1..], bs[0].next, end);
    }
  }

  /** Distinct blocks do not overlap. */
  lemma BlocksApart(bs: seq<Block>, end: int, i: nat, j: nat)
    requires Chain(bs, 0, end) && i < j < |bs|
    ensures bs[i].next <= bs[j].off
  {
    BlockInChain(bs, i, end);
    ChainCut(bs, 0, end, i + 1);
    ChainAbove(bs[i + 1..], bs[i].next, end, j - i - 1);
  }

  lemma FindBlock(bs: seq<Block>, end: int, k: nat)
    requires Chain(bs, 0, end) && k < |bs|
    ensures Find(bs, bs[k].off) == k
  {
    var f := Find(bs, bs[k].off);
    if f < k {
      BlocksApart(bs, end, f, k);
      BlockInChain(bs, f, end);
    }
  }

  lemma FreeAtAllocated(bs: seq<Block>, end: int, k: nat)
    requires Chain(bs, 0, end) && k < |bs|
    ensures Allocated(FreeAt(bs, k)) == Allocated(bs) - {bs[k]}
  {
    SetUsedAllocated(bs, end, k, false);
    SetUsedKeeps(bs, end, k, false);
    PlugAllocated(SetUsed(bs, k, false), end, k);
  }

  /** Exchanging a stretch of the list exchanges its used blocks. */
  lemma AllocatedExchange(bs: seq<Block>, end: int, k: nat, m: nat, mid: seq<Block>)
    requires Chain(bs, 0, end) && k <= m <= |bs|
    ensures Allocated(bs[..k] + mid + bs[m..]) == Allocated(bs) - Allocated(bs[k..m]) + Allocated(mid)
  {
    AllocatedParts(bs, k, m, mid);
    AllocatedParts(bs, k, m, bs[k..m]);
    assert bs == bs[..k] + bs[k..m] + bs[m..];
    forall b | b in Allocated(bs[k..m]) ensures b !in bs[..k] && b !in bs[m..] {
      var i :| k <= i < m && bs[i] == b;
      OnceInChain(bs, end, i);
    }
  }

  lemma AllocatedParts(bs: seq<Block>, k: nat, m: nat, mid: seq<Block>)
    requires k <= m <= |bs|
    ensures Allocated(bs[..k] + mid + bs[m..]) == Allocated(bs[..k]) + Allocated(mid) + Allocated(bs[m..])
  {
  }

  lemma OnceInChain(bs: seq<Block>, end: int, i: nat)
    requires Chain(bs, 0, end) && i < |bs|
    ensures forall j :: 0 <= j < |bs| && bs[j] == bs[i] ==> j == i
  {
    forall j | 0 <= j < |bs| && bs[j] == bs[i] ensures j == i {
      FindBlock(bs, end, i);
      FindBlock(bs, end, j);
    }
  }

  lemma AllocatedOfOne(a: Block)
    ensures Allocated([a]) == if a.used then {a} else {}
    ensures forall b :: Allocated([a, b]) == Allocated([a]) + if b.used then {b} else {}
  {
  }

  lemma JoinAllocated(bs: seq<Block>, end: int, k: nat)
    requires Chain(bs, 0, end) && k + 1 < |bs| && !bs[k].used && !bs[k + 1].used
    ensures Allocated(Join(bs, k)) == Allocated(bs)
  {
    var b := bs[k].(next := bs[k + 1].next);
    AllocatedExchange(bs, end, k, k + 2, [b]);
    assert bs[k..k + 2] == [bs[k], bs[k + 1]];
    AllocatedOfOne(bs[k]);
    AllocatedOfOne(b);
  }

  lemma SplitAllocated(bs: seq<Block>, end: int, k: nat, p: int)
    requires Chain(bs, 0, end) && k < |bs|
    ensures Allocated(Split(bs, k, p)) == Allocated(bs) - {bs[k]} + {Block(bs[k].off, p, true)}
  {
    var lo, hi := Block(bs[k].off, p, true), Block(p, bs[k].next, false);
    AllocatedExchange(bs, end, k, k + 1, [lo, hi]);
    AllocatedOfOne(lo);
    AllocatedOfOne(bs[k]);
    assert bs[k..k + 1] == [bs[k]];
  }

  lemma SetUsedAllocated(bs: seq<Block>, end: int, k: nat, used: bool)
    requires Chain(bs, 0, end) && k < |bs|
    ensures Allocated(SetUsed(bs, k, used)) == Allocated(bs) - {bs[k]} + if used then {bs[k].(used := true)} else {}
  {
    var b := bs[k].(used := used);
    AllocatedExchange(bs, end, k, k + 1, [b]);
    AllocatedOfOne(b);
    AllocatedOfOne(bs[k]);
    assert bs[k..k + 1] == [bs[k]];
    assert SetUsed(bs, k, used) == bs[..k] + [b] + bs[k + 1..];
  }

  lemma PlugAllocated(bs: seq<Block>, end: int, k: nat)
    requires Chain(bs, 0, end) && k < |bs| && !bs[k].used
    ensures Allocated(Plug(bs, k)) == Allocated(bs)
  {
    if k + 1 < |bs| && !bs[k + 1].used {
      JoinAllocated(bs, end, k);
      JoinKeeps(bs, end, k);
    }
    var fs := PlugForward(bs, k);
    if k > 0 && !fs[k - 1].used {
      JoinAllocated(fs, end, k - 1);
    }
  }
}
