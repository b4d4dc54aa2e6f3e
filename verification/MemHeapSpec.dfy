/** The memheap allocator (memheap.c): its operations on the ring of blocks and on the free list. */
module MemHeapSpec {
  import opened RtDef
  import opened BlockList
  import opened Sequences

  /** RT_MEMHEAP_SIZE (six words) and RT_MEMHEAP_MINIALLOC. */
  const ITEM: int := 24
  const MINI: int := 12

  /** MEMITEM_SIZE */
  function Size(b: Block): int {
    b.next - b.off - ITEM
  }

  /** The payload bytes of the free blocks. */
  function FreeBytes(bs: seq<Block>): int {
    if bs == [] then 0 else (if bs[0].used then 0 else Size(bs[0])) + FreeBytes(bs[1..])
  }

  ghost function FreeOffs(bs: seq<Block>): set<int> {
    set b | b in bs && !b.used :: b.off
  }

  ghost predicate Roomy(bs: seq<Block>) {
    forall b :: b in bs ==> MINI <= Size(b)
  }

  /** The blocks tile the pool up to the tailer, each with room for a minimum payload, and no two
      free ones touch. */
  ghost predicate Sound(bs: seq<Block>, end: int) {
    bs != [] && Chain(bs, 0, end) && NoFreeNeighbours(bs) && Roomy(bs)
  }

  /** The free list holds exactly the free blocks. */
  ghost predicate Listed(free: seq<int>, bs: seq<Block>) {
    Distinct(free) && forall o :: o in free <==> o in FreeOffs(bs)
  }

  /** The pool: its blocks up to the tailer, the free list in search order, and the high-water
      mark. `available_size` is a function of the blocks. */
  datatype Pool = Pool(size: int, blocks: seq<Block>, free: seq<int>, maxUsed: int) {
    function Tailer(): int { size - ITEM }

    function Avail(): int { FreeBytes(blocks) }

    ghost predicate Inv() {
      && size < WORD_RANGE
      && Sound(blocks, Tailer()) && Listed(free, blocks)
      && size - Avail() <= maxUsed
    }

    function With(bs: seq<Block>, fs: seq<int>): Pool {
      Pool(size, bs, fs, Max(maxUsed, size - FreeBytes(bs)))
    }

    /** p is the payload address of a used block. */
    ghost predicate Live(p: int) {
      exists k :: 0 <= k < |blocks| && blocks[k].used && blocks[k].off + ITEM == p
    }
  }

  function Initial(size: int): Pool {
    Pool(size, [Block(0, size - ITEM, false)], [0], 2 * ITEM)
  }

  function Rounded(request: USize): int {
    Max(AlignUp(request), MINI)
  }

  /** The search of rt_memheap_alloc: the first block of the free list that is large enough. */
  function Pick(bs: seq<Block>, free: seq<int>, size: int): (i: nat)
    ensures i <= |free|
  {
    if free == [] then 0
    else
      var k := Find(bs, free[0]);
      if k < |bs| && size <= Size(bs[k]) then 0 else 1 + Pick(bs, free[1..], size)
  }

  /** Block k serves a request, cut when the rest can hold a minimum block. */
  function TakeBlocks(bs: seq<Block>, k: nat, size: int): seq<Block>
    requires k < |bs|
  {
    if Size(bs[k]) >= size + ITEM + MINI then Split(bs, k, bs[k].off + ITEM + size) else SetUsed(bs, k, true)
  }

  function TakeFree(bs: seq<Block>, free: seq<int>, k: nat, size: int): seq<int>
    requires k < |bs|
  {
    var rest := Unlinked(free, bs[k].off);
    if Size(bs[k]) >= size + ITEM + MINI then [bs[k].off + ITEM + size] + rest else rest
  }

  function Alloc(p: Pool, request: USize): (Pool, Ptr) {
    var size := Rounded(request);
    if size >= p.Avail() then (p, Null)
    else
      var i := Pick(p.blocks, p.free, size);
      if i == |p.free| then (p, Null)
      else
        var k := Find(p.blocks, p.free[i]);
        if k == |p.blocks| then (p, Null)
        else (p.With(TakeBlocks(p.blocks, k, size), TakeFree(p.blocks, p.free, k, size)), At(p.blocks[k].off + ITEM))
  }

  /** The free list once a free right neighbour of block k has left it. */
  function WithoutRight(bs: seq<Block>, free: seq<int>, k: nat): seq<int>
    requires k < |bs|
  {
    if k + 1 < |bs| && !bs[k + 1].used then Unlinked(free, bs[k + 1].off) else free
  }

  /** A freed block joins its left and its right neighbour when they are free. A right neighbour
      leaves the free list; the block enters it at the head unless the left one carries it. */
  function FreeList(bs: seq<Block>, free: seq<int>, k: nat): seq<int>
    requires k < |bs|
  {
    var rest := WithoutRight(bs, free, k);
    if k > 0 && !bs[k - 1].used then rest else [bs[k].off] + rest
  }

  function Free(p: Pool, ptr: Ptr): Pool {
    if ptr == Null then p
    else
      var k := Find(p.blocks, ptr.off - ITEM);
      if k == |p.blocks| then p
      else p.(blocks := FreeAt(p.blocks, k), free := FreeList(p.blocks, p.free, k))
  }

  /** The boundary between used block k and the free block after it moves up to p. */
  function Extend(bs: seq<Block>, k: nat, p: int): seq<Block>
    requires k + 1 < |bs|
  {
    bs[..k] + [Block(bs[k].off, p, true), Block(p, bs[k + 1].next, false)] + bs[k + 2..]
  }

  /** The guard of the in-place growth, in the 32-bit arithmetic of the source. */
  predicate CanExtend(bs: seq<Block>, k: nat, size: USize)
    requires k < |bs|
  {
    k + 1 < |bs| && !bs[k + 1].used && Size(bs[k + 1]) + Size(bs[k]) > Wrap(size + MINI)
  }

  function Grow(p: Pool, k: nat, size: USize): Pool
    requires k + 1 < |p.blocks|
  {
    GrowAt(p, k, p.blocks[k].off + ITEM + size)
  }

  /** Block k ends at q and the free block to its right begins there. */
  function GrowAt(p: Pool, k: nat, q: int): Pool
    requires k + 1 < |p.blocks|
  {
    p.With(Extend(p.blocks, k, q), [q] + Unlinked(p.free, p.blocks[k + 1].off))
  }

  function Shrink(p: Pool, k: nat, size: USize): Pool
    requires k < |p.blocks|
  {
    CutAt(p, k, p.blocks[k].off + ITEM + size)
  }

  /** Block k ends at q; the rest is free and joins a free right neighbour. */
  function CutAt(p: Pool, k: nat, q: int): Pool
    requires k < |p.blocks|
  {
    p.(blocks := PlugForward(Split(p.blocks, k, q), k + 1), free := [q] + WithoutRight(p.blocks, p.free, k))
  }

  function Move(p: Pool, ptr: int, size: USize): (Pool, Ptr) {
    var (p', q) := Alloc(p, size);
    if q == Null then (p', Null) else (Free(p', At(ptr)), q)
  }

  /** rt_memheap_realloc on block k, for a rounded size. */
  function Resize(p: Pool, k: nat, size: USize): (Pool, Ptr)
    requires k < |p.blocks|
  {
    var ptr := p.blocks[k].off + ITEM;
    if size > Size(p.blocks[k]) then
      if CanExtend(p.blocks, k, size) then (Grow(p, k, size), At(ptr)) else Move(p, ptr, size)
    else if size + ITEM + MINI >= Size(p.blocks[k]) then (p, At(ptr))
    else (Shrink(p, k, size), At(ptr))
  }

  /** Block k is not grown in place on a guard that has wrapped. */
  predicate GrowthFits(p: Pool, k: nat, size: USize)
    requires k < |p.blocks|
  {
    size > Size(p.blocks[k]) && CanExtend(p.blocks, k, size) ==> size + MINI < WORD_RANGE
  }

  /** The same for a call of rt_memheap_realloc. */
  predicate ReallocFits(p: Pool, ptr: Ptr, newsize: USize) {
    newsize != 0 && ptr.At? && Find(p.blocks, ptr.off - ITEM) < |p.blocks| ==>
      GrowthFits(p, Find(p.blocks, ptr.off - ITEM), Rounded(newsize))
  }

  function Realloc(p: Pool, ptr: Ptr, newsize: USize): (Pool, Ptr) {
    if newsize == 0 then (Free(p, ptr), Null)
    else
      var size := Rounded(newsize);
      if ptr == Null then Alloc(p, size)
      else
        var k := Find(p.blocks, ptr.off - ITEM);
        if k == |p.blocks| then (p, ptr) else Resize(p, k, size)
  }
}

/** What the memheap promises: every operation keeps the ring, the free list and the accounting. */
module MemHeapLaws {
  import opened RtDef
  import opened BlockList
  import opened RtList
  import opened Sequences
  import opened MemHeapSpec

  // ----- the free list as a sequence without duplicates -----

  lemma {:induction false} UnlinkedAt(xs: seq<int>, i: nat)
    requires Distinct(xs) && i < |xs|
    ensures Unlinked(xs, xs[i]) == WithoutAt(xs, i)
  {
    if i > 0 {
      UnlinkedAt(xs[1..], i - 1);
      assert WithoutAt(xs, i) == [xs[0]] + WithoutAt(xs[1..], i - 1);
    }
  }

  // ----- blocks in pieces -----

  lemma {:induction false} FreeBytesAppend(a: seq<Block>, b: seq<Block>)
    ensures FreeBytes(a + b) == FreeBytes(a) + FreeBytes(b)
  {
    if a == [] {
      assert a + b == b;
    } else {
      FreeBytesAppend(a[1..], b);
      assert (a + b)[1..] == a[1..] + b;
    }
  }

  lemma FreeBytesExchange(bs: seq<Block>, k: nat, m: nat, mid: seq<Block>)
    requires k <= m <= |bs|
    ensures FreeBytes(bs[..k] + mid + bs[m..]) == FreeBytes(bs) - FreeBytes(bs[k..m]) + FreeBytes(mid)
  {
    FreeBytesAppend(bs[..k] + mid, bs[m..]);
    FreeBytesAppend(bs[..k], mid);
    FreeBytesAppend(bs[..k] + bs[k..m], bs[m..]);
    FreeBytesAppend(bs[..k], bs[k..m]);
    assert bs == bs[..k] + bs[k..m] + bs[m..];
  }

  lemma FreeOffsParts(bs: seq<Block>, k: nat, m: nat, mid: seq<Block>)
    requires k <= m <= |bs|
    ensures FreeOffs(bs[..k] + mid + bs[m..]) == FreeOffs(bs[..k]) + FreeOffs(mid) + FreeOffs(bs[m..])
  {
    var r := bs[..k] + mid + bs[m..];
    forall o | o in FreeOffs(bs[..k]) + FreeOffs(mid) + FreeOffs(bs[m..]) ensures o in FreeOffs(r) {
      if o in FreeOffs(bs[..k]) {
        var b :| b in bs[..k] && !b.used && b.off == o;
        assert b in r;
      } else if o in FreeOffs(mid) {
        var b :| b in mid && !b.used && b.off == o;
        assert b in r;
      } else {
        var b :| b in bs[m..] && !b.used && b.off == o;
        assert b in r;
      }
    }
  }

  lemma FreeOffsExchange(bs: seq<Block>, end: int, k: nat, m: nat, mid: seq<Block>)
    requires Chain(bs, 0, end) && k <= m <= |bs|
    ensures FreeOffs(bs[..k] + mid + bs[m..]) == FreeOffs(bs) - FreeOffs(bs[k..m]) + FreeOffs(mid)
  {
    FreeOffsParts(bs, k, m, mid);
    FreeOffsParts(bs, k, m, bs[k..m]);
    assert bs == bs[..k] + bs[k..m] + bs[m..];
    forall o | o in FreeOffs(bs[k..m]) ensures o !in FreeOffs(bs[..k]) && o !in FreeOffs(bs[m..]) {
      var i :| k <= i < m && bs[i].off == o;
      forall j | 0 <= j < |bs| && bs[j].off == o ensures i == j {
        FindBlock(bs, end, i);
        FindBlock(bs, end, j);
      }
    }
  }

  lemma RoomyExchange(bs: seq<Block>, k: nat, m: nat, mid: seq<Block>)
    requires k <= m <= |bs| && Roomy(bs) && Roomy(mid)
    ensures Roomy(bs[..k] + mid + bs[m..])
  {
  }

  lemma One(a: Block)
    ensures FreeBytes([a]) == (if a.used then 0 else Size(a)) && FreeOffs([a]) == (if a.used then {} else {a.off})
  {
    if !a.used { assert a in [a]; }
  }

  lemma Two(a: Block, b: Block)
    ensures FreeBytes([a, b]) == (if a.used then 0 else Size(a)) + (if b.used then 0 else Size(b))
    ensures FreeOffs([a, b]) == (if a.used then {} else {a.off}) + (if b.used then {} else {b.off})
  {
    assert [a, b][1..] == [b];
    One(b);
    if !a.used { assert a in [a, b]; }
    if !b.used { assert b in [a, b]; }
  }

  lemma SplitPool(bs: seq<Block>, end: int, k: nat, p: int)
    requires Chain(bs, 0, end) && Roomy(bs) && k < |bs| && p % 4 == 0
    requires bs[k].off + ITEM + MINI <= p && p + ITEM + MINI <= bs[k].next
    ensures Chain(Split(bs, k, p), 0, end) && Roomy(Split(bs, k, p))
    ensures FreeBytes(Split(bs, k, p)) == FreeBytes(bs) - (if bs[k].used then 0 else Size(bs[k])) + (bs[k].next - p - ITEM)
    ensures FreeOffs(Split(bs, k, p)) == FreeOffs(bs) - (if bs[k].used then {} else {bs[k].off}) + {p}
  {
    var lo, hi := Block(bs[k].off, p, true), Block(p, bs[k].next, false);
    SplitKeeps(bs, end, k, p);
    Two(lo, hi);
    One(bs[k]);
    assert bs[k..k + 1] == [bs[k]];
    FreeBytesExchange(bs, k, k + 1, [lo, hi]);
    FreeOffsExchange(bs, end, k, k + 1, [lo, hi]);
    RoomyExchange(bs, k, k + 1, [lo, hi]);
  }

  lemma SetUsedPool(bs: seq<Block>, end: int, k: nat, used: bool)
    requires Chain(bs, 0, end) && Roomy(bs) && k < |bs| && bs[k].used != used
    ensures Chain(SetUsed(bs, k, used), 0, end) && Roomy(SetUsed(bs, k, used))
    ensures FreeBytes(SetUsed(bs, k, used)) == FreeBytes(bs) + (if used then -Size(bs[k]) else Size(bs[k]))
    ensures FreeOffs(SetUsed(bs, k, used)) == if used then FreeOffs(bs) - {bs[k].off} else FreeOffs(bs) + {bs[k].off}
  {
    var b := bs[k].(used := used);
    SetUsedKeeps(bs, end, k, used);
    One(b);
    One(bs[k]);
    assert bs[k..k + 1] == [bs[k]];
    FreeBytesExchange(bs, k, k + 1, [b]);
    FreeOffsExchange(bs, end, k, k + 1, [b]);
    RoomyExchange(bs, k, k + 1, [b]);
    assert SetUsed(bs, k, used) == bs[..k] + [b] + bs[k + 1..];
  }

  /** A merge gives one header back to the payload and takes the upper offset off the free set. */
  lemma JoinPool(bs: seq<Block>, end: int, k: nat)
    requires Chain(bs, 0, end) && Roomy(bs) && k + 1 < |bs| && !bs[k].used && !bs[k + 1].used
    ensures Chain(Join(bs, k), 0, end) && Roomy(Join(bs, k))
    ensures FreeBytes(Join(bs, k)) == FreeBytes(bs) + ITEM
    ensures FreeOffs(Join(bs, k)) == FreeOffs(bs) - {bs[k + 1].off}
  {
    var b := bs[k].(next := bs[k + 1].next);
    JoinKeeps(bs, end, k);
    BlockInChain(bs, k, end);
    BlockInChain(bs, k + 1, end);
    assert bs[k] in bs && bs[k].off in FreeOffs(bs);
    JoinParts(bs, k, b);
    FreeBytesExchange(bs, k, k + 2, [b]);
    FreeOffsExchange(bs, end, k, k + 2, [b]);
    RoomyExchange(bs, k, k + 2, [b]);
  }

  lemma JoinParts(bs: seq<Block>, k: nat, b: Block)
    requires k + 1 < |bs| && !bs[k].used && !bs[k + 1].used && !b.used
    ensures FreeBytes(bs[k..k + 2]) == Size(bs[k]) + Size(bs[k + 1]) && FreeBytes([b]) == Size(b)
    ensures FreeOffs(bs[k..k + 2]) == {bs[k].off, bs[k + 1].off} && FreeOffs([b]) == {b.off}
  {
    One(b);
    Two(bs[k], bs[k + 1]);
    assert bs[k..k + 2] == [bs[k], bs[k + 1]];
  }

  /** Moving the boundary between a used and a free block. */
  lemma ExtendPool(bs: seq<Block>, end: int, k: nat, p: int)
    requires Chain(bs, 0, end) && Roomy(bs) && NoFreeNeighbours(bs) && k + 1 < |bs| && bs[k].used && !bs[k + 1].used
    requires bs[k].off + ITEM + MINI <= p && p + ITEM + MINI <= bs[k + 1].next && p % 4 == 0
    ensures Sound(Extend(bs, k, p), end)
    ensures FreeBytes(Extend(bs, k, p)) == FreeBytes(bs) - (p - bs[k].next)
    ensures FreeOffs(Extend(bs, k, p)) == FreeOffs(bs) - {bs[k + 1].off} + {p}
    ensures Allocated(Extend(bs, k, p)) == Allocated(bs) - {bs[k]} + {Block(bs[k].off, p, true)}
  {
    var lo, hi := Block(bs[k].off, p, true), Block(p, bs[k + 1].next, false);
    ExtendChain(bs, end, k, p);
    Two(lo, hi);
    Two(bs[k], bs[k + 1]);
    assert bs[k..k + 2] == [bs[k], bs[k + 1]];
    FreeBytesExchange(bs, k, k + 2, [lo, hi]);
    FreeOffsExchange(bs, end, k, k + 2, [lo, hi]);
    RoomyExchange(bs, k, k + 2, [lo, hi]);
  }

  lemma ExtendChain(bs: seq<Block>, end: int, k: nat, p: int)
    requires Chain(bs, 0, end) && NoFreeNeighbours(bs) && k + 1 < |bs| && bs[k].used && !bs[k + 1].used
    requires bs[k].off + ITEM + MINI <= p && p + ITEM + MINI <= bs[k + 1].next && p % 4 == 0
    ensures Chain(Extend(bs, k, p), 0, end) && NoFreeNeighbours(Extend(bs, k, p))
    ensures Allocated(Extend(bs, k, p)) == Allocated(bs) - {bs[k]} + {Block(bs[k].off, p, true)}
    ensures bs[k + 1].off == bs[k].next
  {
    var lo, hi := Block(bs[k].off, p, true), Block(p, bs[k + 1].next, false);
    BlockInChain(bs, k, end);
    BlockInChain(bs, k + 1, end);
    Pair(lo, hi);
    Pair(hi, hi);
    Exchange(bs, k, k + 2, [lo, hi], end);
    CutNeighbours(bs, k);
    CutNeighbours(bs, k + 2);
    ExchangeNeighbours(bs, k, k + 2, [lo, hi]);
    AllocatedExchange(bs, end, k, k + 2, [lo, hi]);
    AllocatedOfOne(lo);
    AllocatedOfOne(bs[k]);
    assert bs[k..k + 2] == [bs[k], bs[k + 1]];
  }

  lemma PlugForwardPool(bs: seq<Block>, end: int, k: nat)
    requires Chain(bs, 0, end) && Roomy(bs) && k < |bs| && !bs[k].used
    ensures var fs := PlugForward(bs, k); var joins := k + 1 < |bs| && !bs[k + 1].used;
      && Chain(fs, 0, end) && Roomy(fs)
      && FreeBytes(fs) == FreeBytes(bs) + (if joins then ITEM else 0)
      && FreeOffs(fs) == FreeOffs(bs) - (if joins then {bs[k + 1].off} else {})
      && k < |fs| && fs[k].off == bs[k].off && !fs[k].used && (k > 0 ==> fs[k - 1] == bs[k - 1])
  {
    if k + 1 < |bs| && !bs[k + 1].used {
      JoinPool(bs, end, k);
    }
  }

  lemma PlugBackwardPool(bs: seq<Block>, end: int, k: nat)
    requires Chain(bs, 0, end) && Roomy(bs) && k < |bs| && !bs[k].used
    ensures var fs := PlugBackward(bs, k); var joins := k > 0 && !bs[k - 1].used;
      && Chain(fs, 0, end) && Roomy(fs)
      && FreeBytes(fs) == FreeBytes(bs) + (if joins then ITEM else 0)
      && FreeOffs(fs) == FreeOffs(bs) - (if joins then {bs[k].off} else {})
  {
    if k > 0 && !bs[k - 1].used {
      JoinPool(bs, end, k - 1);
    }
  }

  // ----- the operations -----

  lemma PushListed(free: seq<int>, bs: seq<Block>, x: int, gone: int, bs': seq<Block>)
    requires Listed(free, bs)
    ensures FreeOffs(bs') == FreeOffs(bs) - {gone} ==> Listed(Unlinked(free, gone), bs')
    ensures x !in FreeOffs(bs) && FreeOffs(bs') == FreeOffs(bs) - {gone} + {x} ==> Listed([x] + Unlinked(free, gone), bs')
    ensures x !in FreeOffs(bs) && FreeOffs(bs') == FreeOffs(bs) + {x} ==> Listed([x] + free, bs')
  {
    UnlinkedMeaning(free, gone);
  }

  lemma NotFreeInside(bs: seq<Block>, end: int, k: nat, p: int)
    requires Chain(bs, 0, end) && k < |bs| && bs[k].off < p < bs[k].next
    ensures p !in FreeOffs(bs)
  {
    if p in FreeOffs(bs) {
      var j :| 0 <= j < |bs| && bs[j].off == p;
      BlockInChain(bs, j, end);
      if j < k {
        BlocksApart(bs, end, j, k);
      } else if k < j {
        BlocksApart(bs, end, k, j);
      }
    }
  }

  lemma NotFreeAt(bs: seq<Block>, end: int, k: nat)
    requires Chain(bs, 0, end) && k < |bs| && bs[k].used
    ensures bs[k].off !in FreeOffs(bs)
  {
    if bs[k].off in FreeOffs(bs) {
      var j :| 0 <= j < |bs| && bs[j].off == bs[k].off && !bs[j].used;
      FindBlock(bs, end, j);
      FindBlock(bs, end, k);
    }
  }

  /** Serving a request from a free block that is large enough. */
  lemma TakeKeeps(p: Pool, k: nat, size: int)
    requires p.Inv() && k < |p.blocks| && !p.blocks[k].used && MINI <= size <= Size(p.blocks[k]) && size % 4 == 0
    ensures p.With(TakeBlocks(p.blocks, k, size), TakeFree(p.blocks, p.free, k, size)).Inv()
    ensures FreeBytes(TakeBlocks(p.blocks, k, size)) < p.Avail()
    ensures var c := TakeBlocks(p.blocks, k, size)[k];
      c.used && c.off == p.blocks[k].off && size <= Size(c) < size + ITEM + MINI
      && Allocated(TakeBlocks(p.blocks, k, size)) == Allocated(p.blocks) + {c} && c !in Allocated(p.blocks)
  {
    var bs, end := p.blocks, p.Tailer();
    BlockInChain(bs, k, end);
    NewBlock(bs, end, k, TakeBlocks(bs, k, size)[k]);
    if Size(bs[k]) >= size + ITEM + MINI {
      TakeSplit(p, k, bs[k].off + ITEM + size);
    } else {
      TakeWhole(p, k);
    }
  }

  lemma NewBlock(bs: seq<Block>, end: int, k: nat, c: Block)
    requires Chain(bs, 0, end) && k < |bs| && !bs[k].used && c.off == bs[k].off && c.used
    ensures c !in Allocated(bs)
  {
    if c in bs {
      var j :| 0 <= j < |bs| && bs[j] == c;
      FindBlock(bs, end, j);
      FindBlock(bs, end, k);
    }
  }

  lemma TakeSplit(p: Pool, k: nat, q: int)
    requires p.Inv() && k < |p.blocks| && !p.blocks[k].used && q % 4 == 0
    requires p.blocks[k].off + ITEM + MINI <= q && q + ITEM + MINI <= p.blocks[k].next
    ensures p.With(Split(p.blocks, k, q), [q] + Unlinked(p.free, p.blocks[k].off)).Inv()
    ensures FreeBytes(Split(p.blocks, k, q)) == p.Avail() - (q - p.blocks[k].off)
    ensures Allocated(Split(p.blocks, k, q)) == Allocated(p.blocks) + {Block(p.blocks[k].off, q, true)}
  {
    var bs, end := p.blocks, p.Tailer();
    SplitPool(bs, end, k, q);
    ReplacedNeighbours(bs, k, [Block(bs[k].off, q, true), Block(q, bs[k].next, false)]);
    SplitAllocated(bs, end, k, q);
    NotFreeInside(bs, end, k, q);
    PushListed(p.free, bs, q, bs[k].off, Split(bs, k, q));
  }

  lemma TakeWhole(p: Pool, k: nat)
    requires p.Inv() && k < |p.blocks| && !p.blocks[k].used
    ensures p.With(SetUsed(p.blocks, k, true), Unlinked(p.free, p.blocks[k].off)).Inv()
    ensures FreeBytes(SetUsed(p.blocks, k, true)) == p.Avail() - Size(p.blocks[k])
    ensures Allocated(SetUsed(p.blocks, k, true)) == Allocated(p.blocks) + {p.blocks[k].(used := true)}
  {
    var bs, end := p.blocks, p.Tailer();
    SetUsedPool(bs, end, k, true);
    ReplacedNeighbours(bs, k, [bs[k].(used := true)]);
    assert SetUsed(bs, k, true) == bs[..k] + [bs[k].(used := true)] + bs[k + 1..];
    SetUsedAllocated(bs, end, k, true);
    PushListed(p.free, bs, 0, bs[k].off, SetUsed(bs, k, true));
  }

  /** rt_memheap_free, on the block that is given back. */
  lemma FreeKeeps(p: Pool, k: nat)
    requires p.Inv() && k < |p.blocks| && p.blocks[k].used
    ensures p.(blocks := FreeAt(p.blocks, k), free := FreeList(p.blocks, p.free, k)).Inv()
    ensures p.Avail() < FreeBytes(FreeAt(p.blocks, k))
    ensures Allocated(FreeAt(p.blocks, k)) == Allocated(p.blocks) - {p.blocks[k]}
  {
    var bs, end := p.blocks, p.Tailer();
    var fs := SetUsed(bs, k, false);
    assert bs[k] in bs;
    SetUsedPool(bs, end, k, false);
    PlugForwardPool(fs, end, k);
    PlugBackwardPool(PlugForward(fs, k), end, k);
    FreeAtKeeps(bs, end, k);
    FreeAtAllocated(bs, end, k);
    FreeListed(p, k);
  }

  lemma FreeListed(p: Pool, k: nat)
    requires p.Inv() && k < |p.blocks| && p.blocks[k].used
    ensures Listed(FreeList(p.blocks, p.free, k), FreeAt(p.blocks, k))
  {
    var bs, end := p.blocks, p.Tailer();
    FreedOffs(bs, end, k);
    assert bs[k].off !in p.free by { NotFreeAt(bs, end, k); }
    if k + 1 < |bs| {
      UnlinkedMeaning(p.free, bs[k + 1].off);
      BlocksApart(bs, end, k, k + 1);
      BlockInChain(bs, k, end);
    }
  }

  lemma FreedOffs(bs: seq<Block>, end: int, k: nat)
    requires Chain(bs, 0, end) && Roomy(bs) && k < |bs| && bs[k].used
    ensures FreeOffs(FreeAt(bs, k)) == FreeOffs(bs) + {bs[k].off}
      - (if k + 1 < |bs| && !bs[k + 1].used then {bs[k + 1].off} else {})
      - (if k > 0 && !bs[k - 1].used then {bs[k].off} else {})
  {
    SetUsedPool(bs, end, k, false);
    PlugForwardPool(SetUsed(bs, k, false), end, k);
    PlugBackwardPool(PlugForward(SetUsed(bs, k, false), k), end, k);
  }

  // ----- the search -----

  /** The first entry of the free list that is large enough, if there is one. */
  lemma {:induction false} PickMeaning(bs: seq<Block>, end: int, free: seq<int>, size: int)
    requires Chain(bs, 0, end) && forall o :: o in free ==> o in FreeOffs(bs)
    ensures var i := Pick(bs, free, size);
      && (i < |free| ==> Find(bs, free[i]) < |bs| && !bs[Find(bs, free[i])].used && size <= Size(bs[Find(bs, free[i])]))
      && (forall j :: 0 <= j < i ==> Find(bs, free[j]) < |bs| && Size(bs[Find(bs, free[j])]) < size)
  {
    if free != [] {
      FreeFound(bs, end, free[0]);
      PickMeaning(bs, end, free[1..], size);
      var i := Pick(bs, free[1..], size);
      forall j | 0 <= j < Pick(bs, free, size) ensures Find(bs, free[j]) < |bs| && Size(bs[Find(bs, free[j])]) < size {
        if j > 0 {
          assert free[j] == free[1..][j - 1];
        }
      }
    }
  }

  lemma FreeFound(bs: seq<Block>, end: int, o: int)
    requires Chain(bs, 0, end) && o in FreeOffs(bs)
    ensures Find(bs, o) < |bs| && !bs[Find(bs, o)].used
  {
    var j :| 0 <= j < |bs| && bs[j].off == o && !bs[j].used;
    FindBlock(bs, end, j);
  }

  /** rt_memheap_alloc fails exactly when no free block is large enough or the request is not
      strictly below the available bytes: a pool whose one free block fits exactly still refuses. */
  lemma AllocFails(p: Pool, request: USize)
    requires p.Inv()
    ensures Alloc(p, request).1 == Null <==>
      p.Avail() <= Rounded(request) || forall b :: b in p.blocks && !b.used ==> Size(b) < Rounded(request)
  {
    var bs, size := p.blocks, Rounded(request);
    var i := Pick(bs, p.free, size);
    PickMeaning(bs, p.Tailer(), p.free, size);
    if i == |p.free| {
      forall b | b in bs && !b.used ensures Size(b) < size {
        assert b.off in FreeOffs(bs);
        var j :| 0 <= j < |p.free| && p.free[j] == b.off;
        var k :| 0 <= k < |bs| && bs[k] == b;
        FindBlock(bs, p.Tailer(), k);
      }
    } else {
      assert bs[Find(bs, p.free[i])] in bs;
    }
  }

  /** A pool of 60 bytes, just initialised: its one free block holds twelve bytes, and a request for
      twelve is refused. */
  lemma ExactFitIsRefused()
    ensures Initial(60).Inv() && Initial(60).blocks == [Block(0, 36, false)]
    ensures Size(Block(0, 36, false)) == Rounded(12) == 12 && Alloc(Initial(60), 12).1 == Null
  {
    InitialInv(60);
    var bs := Initial(60).blocks;
    assert FreeBytes(bs) == 12 + FreeBytes(bs[1..]);
    AllocFails(Initial(60), 12);
  }

  ghost predicate Added(p: Pool, p': Pool, c: Block) {
    c !in Allocated(p.blocks) && Allocated(p'.blocks) == Allocated(p.blocks) + {c}
  }

  /** A successful allocation adds one block of at least the rounded size to the allocated ones. */
  lemma AllocKeeps(p: Pool, request: USize) returns (c: Block)
    requires p.Inv()
    ensures var (p', q) := Alloc(p, request);
      && p'.Inv() && p'.size == p.size && p'.maxUsed == Max(p.maxUsed, p.size - p'.Avail()) && p'.Avail() <= p.Avail()
      && (q == Null ==> p' == p)
      && (q.At? ==> Added(p, p', c) && q.off == c.off + ITEM && Rounded(request) <= Size(c))
  {
    var bs, size := p.blocks, Rounded(request);
    var i := Pick(bs, p.free, size);
    PickMeaning(bs, p.Tailer(), p.free, size);
    AlignUpMeaning(request);
    if Alloc(p, request).1.At? {
      var k := Find(bs, p.free[i]);
      TakeKeeps(p, k, size);
      c := TakeBlocks(bs, k, size)[k];
    } else {
      c := Block(0, 0, false);
    }
  }

  /** The block handed out is large enough for every request that RT_ALIGN can represent, and for no
      other: a request in the last three bytes of the type gets a minimum block. */
  lemma AllocServes(p: Pool, request: USize) returns (c: Block)
    requires p.Inv() && Alloc(p, request).1.At?
    ensures c !in Allocated(p.blocks) && c in Allocated(Alloc(p, request).0.blocks) && Alloc(p, request).1.off == c.off + ITEM
    ensures request <= Size(c) <==> request <= WORD_RANGE - RT_ALIGN_SIZE
  {
    c := AllocKeeps(p, request);
    AlignUpMeaning(request);
    BlockInside(Alloc(p, request).0, c);
  }

  lemma BlockInside(p: Pool, c: Block)
    requires p.Inv() && c in Allocated(p.blocks)
    ensures Size(c) < WORD_RANGE - RT_ALIGN_SIZE
  {
    var k: nat :| k < |p.blocks| && p.blocks[k] == c;
    BlockInChain(p.blocks, k, p.Tailer());
  }

  /** A pool of 132 bytes, just initialised, and a request for 2^32 - 1: a block of twelve is handed
      out. */
  lemma LastSizeGetsMinimum()
    ensures Initial(132).Inv() && Alloc(Initial(132), WORD_RANGE - 1).1 == At(ITEM)
    ensures Allocated(Alloc(Initial(132), WORD_RANGE - 1).0.blocks) == {Block(0, 36, true)} && Size(Block(0, 36, true)) == MINI
  {
    GrowWrapsPool();
    assert Rounded(WORD_RANGE - 1) == Rounded(12) by { AlignUpMeaning(WORD_RANGE - 1); }
    assert Alloc(Initial(132), WORD_RANGE - 1) == Alloc(Initial(132), 12);
    InitialInv(132);
    var c := AllocKeeps(Initial(132), 12);
    assert Initial(132).blocks == [Block(0, 108, false)];
    assert c in [Block(0, 36, true), Block(36, 108, false)];
  }

  lemma RoundedIsAligned(request: USize)
    ensures Rounded(request) % 4 == 0 && MINI <= Rounded(request)
  {
    AlignUpMeaning(request);
  }

  // ----- realloc -----

  /** The guard of the in-place growth says what it means exactly when `newsize + MINI` does not
      wrap; a request above that would pass the guard without fitting. */
  lemma GrowGuard(bs: seq<Block>, k: nat, size: USize)
    requires k + 1 < |bs| && !bs[k + 1].used && MINI <= Size(bs[k]) && MINI <= Size(bs[k + 1])
    requires Size(bs[k]) + Size(bs[k + 1]) < WORD_RANGE
    ensures (CanExtend(bs, k, size) <==> size + MINI < Size(bs[k]) + Size(bs[k + 1])) <==> size + MINI < WORD_RANGE
  {
  }

  lemma GrowKeeps(p: Pool, k: nat, size: USize)
    requires p.Inv() && k < |p.blocks| && p.blocks[k].used && size % 4 == 0 && size + MINI < WORD_RANGE
    requires Size(p.blocks[k]) < size && CanExtend(p.blocks, k, size)
    ensures Grow(p, k, size).Inv() && FreeBytes(Grow(p, k, size).blocks) <= p.Avail()
    ensures Allocated(Grow(p, k, size).blocks)
      == Allocated(p.blocks) - {p.blocks[k]} + {Block(p.blocks[k].off, p.blocks[k].off + ITEM + size, true)}
  {
    var q := p.blocks[k].off + ITEM + size;
    assert Extends(p.blocks, k, q) by { GrowExtends(p, k, size); }
    assert Grow(p, k, size) == GrowAt(p, k, q);
    GrowAtKeeps(p, k, q);
  }

  /** Address q leaves block k more than it has and its free right neighbour a minimum block. */
  predicate Extends(bs: seq<Block>, k: nat, q: int) {
    && k + 1 < |bs| && bs[k].used && !bs[k + 1].used && q % 4 == 0 && 0 <= bs[k].off && bs[k].next == bs[k + 1].off
    && bs[k].off + ITEM + MINI <= q && bs[k + 1].off < q && q + ITEM + MINI <= bs[k + 1].next
  }

  lemma GrowExtends(p: Pool, k: nat, size: USize)
    requires p.Inv() && k < |p.blocks| && p.blocks[k].used && size % 4 == 0 && size + MINI < WORD_RANGE
    requires Size(p.blocks[k]) < size && CanExtend(p.blocks, k, size)
    ensures Extends(p.blocks, k, p.blocks[k].off + ITEM + size)
  {
    BlockInChain(p.blocks, k, p.Tailer());
    BlockInChain(p.blocks, k + 1, p.Tailer());
    assert p.blocks[k] in p.blocks;
    Sum8(p.blocks[k].off, size);
  }

  lemma GrowAtKeeps(p: Pool, k: nat, q: int)
    requires p.Inv() && Extends(p.blocks, k, q)
    ensures GrowAt(p, k, q).Inv() && FreeBytes(GrowAt(p, k, q).blocks) <= p.Avail()
    ensures Allocated(GrowAt(p, k, q).blocks) == Allocated(p.blocks) - {p.blocks[k]} + {Block(p.blocks[k].off, q, true)}
  {
    ExtendPool(p.blocks, p.Tailer(), k, q);
    assert Listed(GrowAt(p, k, q).free, Extend(p.blocks, k, q)) by { GrowListed(p, k, q); }
  }

  lemma GrowListed(p: Pool, k: nat, q: int)
    requires p.Inv() && Extends(p.blocks, k, q)
    requires FreeOffs(Extend(p.blocks, k, q)) == FreeOffs(p.blocks) - {p.blocks[k + 1].off} + {q}
    ensures Listed([q] + Unlinked(p.free, p.blocks[k + 1].off), Extend(p.blocks, k, q))
  {
    NotFreeInside(p.blocks, p.Tailer(), k + 1, q);
    PushListed(p.free, p.blocks, q, p.blocks[k + 1].off, Extend(p.blocks, k, q));
  }

  /** For a size that the guard lets through, growing in place is sound exactly when the guard did
      not wrap: otherwise the block would run past the end of the pool. */
  lemma GrowIsSound(p: Pool, k: nat, size: USize)
    requires p.Inv() && k < |p.blocks| && p.blocks[k].used && size % 4 == 0
    requires Size(p.blocks[k]) < size && CanExtend(p.blocks, k, size)
    ensures Grow(p, k, size).Inv() <==> size + MINI < WORD_RANGE
  {
    if size + MINI < WORD_RANGE {
      GrowKeeps(p, k, size);
    } else if Grow(p, k, size).Inv() {
      BlockInChain(p.blocks, k, p.Tailer());
      GrownPastEnd(p, k, size);
    }
  }

  lemma GrownPastEnd(p: Pool, k: nat, size: USize)
    requires k + 1 < |p.blocks| && Grow(p, k, size).Inv()
    ensures p.blocks[k].off + ITEM + size <= p.Tailer()
  {
    var bs := Grow(p, k, size).blocks;
    assert bs[k] == Block(p.blocks[k].off, p.blocks[k].off + ITEM + size, true);
    BlockInChain(bs, k, p.Tailer());
  }

  lemma Sum8(off: int, size: int)
    requires off % 4 == 0 && size % 4 == 0
    ensures (off + ITEM + size) % 4 == 0
  {
  }

  lemma ShrinkKeeps(p: Pool, k: nat, size: USize)
    requires p.Inv() && k < |p.blocks| && p.blocks[k].used && size % 4 == 0 && MINI <= size
    requires size + ITEM + MINI < Size(p.blocks[k])
    ensures Shrink(p, k, size).Inv() && p.Avail() <= FreeBytes(Shrink(p, k, size).blocks)
    ensures Allocated(Shrink(p, k, size).blocks)
      == Allocated(p.blocks) - {p.blocks[k]} + {Block(p.blocks[k].off, p.blocks[k].off + ITEM + size, true)}
  {
    var q := p.blocks[k].off + ITEM + size;
    assert Cuts(p.blocks, k, q) by { ShrinkCuts(p, k, size); }
    assert Shrink(p, k, size) == CutAt(p, k, q);
    CutKeeps(p, k, q);
  }

  /** Both parts of block k hold at least a minimum block. */
  predicate Cuts(bs: seq<Block>, k: nat, q: int) {
    k < |bs| && bs[k].used && q % 4 == 0 && 0 <= bs[k].off && bs[k].off + ITEM + MINI <= q && q + ITEM + MINI <= bs[k].next
  }

  lemma ShrinkCuts(p: Pool, k: nat, size: USize)
    requires p.Inv() && k < |p.blocks| && p.blocks[k].used && size % 4 == 0 && MINI <= size
    requires size + ITEM + MINI < Size(p.blocks[k])
    ensures Cuts(p.blocks, k, p.blocks[k].off + ITEM + size)
  {
    BlockInChain(p.blocks, k, p.Tailer());
    Sum8(p.blocks[k].off, size);
  }

  lemma CutKeeps(p: Pool, k: nat, q: int)
    requires p.Inv() && Cuts(p.blocks, k, q)
    ensures CutAt(p, k, q).Inv() && p.Avail() <= FreeBytes(CutAt(p, k, q).blocks)
    ensures Allocated(CutAt(p, k, q).blocks) == Allocated(p.blocks) - {p.blocks[k]} + {Block(p.blocks[k].off, q, true)}
  {
    assert Sound(CutAt(p, k, q).blocks, p.Tailer()) && p.Avail() <= FreeBytes(CutAt(p, k, q).blocks) by {
      SplitPool(p.blocks, p.Tailer(), k, q);
      ShrinkPlug(p, k, q);
    }
    assert Listed(CutAt(p, k, q).free, CutAt(p, k, q).blocks) by {
      SplitPool(p.blocks, p.Tailer(), k, q);
      ShrinkListed(p, k, q);
    }
    CutAllocated(p, k, q);
  }

  lemma CutAllocated(p: Pool, k: nat, q: int)
    requires p.Inv() && Cuts(p.blocks, k, q)
    ensures Allocated(CutAt(p, k, q).blocks) == Allocated(p.blocks) - {p.blocks[k]} + {Block(p.blocks[k].off, q, true)}
  {
    SplitPool(p.blocks, p.Tailer(), k, q);
    ShrinkPlug(p, k, q);
    SplitAllocated(p.blocks, p.Tailer(), k, q);
  }

  lemma ShrinkPlug(p: Pool, k: nat, q: int)
    requires p.Inv() && k < |p.blocks| && p.blocks[k].used && Chain(Split(p.blocks, k, q), 0, p.Tailer()) && Roomy(Split(p.blocks, k, q))
    ensures var fs := PlugForward(Split(p.blocks, k, q), k + 1);
      && Sound(fs, p.Tailer())
      && FreeBytes(Split(p.blocks, k, q)) <= FreeBytes(fs) && Allocated(fs) == Allocated(Split(p.blocks, k, q))
  {
    var fs := Split(p.blocks, k, q);
    CutSides(p.blocks, k, q);
    PlugForwardPool(fs, p.Tailer(), k + 1);
    PlugForwardKeeps(fs, p.Tailer(), k + 1);
    if k + 2 < |fs| && !fs[k + 2].used {
      JoinAllocated(fs, p.Tailer(), k + 1);
    }
    AppendSides(PlugForward(fs, k + 1), k + 1);
  }

  /** Two stretches without free neighbours, the first of which ends in a used block. */
  lemma AppendSides(bs: seq<Block>, k: nat)
    requires 0 < k < |bs| && bs[k - 1].used && NoFreeNeighbours(bs[..k]) && NoFreeNeighbours(bs[k..])
    ensures NoFreeNeighbours(bs)
  {
    NoFreeNeighboursAppend(bs[..k], bs[k..]);
    assert bs == bs[..k] + bs[k..];
  }

  lemma ShrinkListed(p: Pool, k: nat, q: int)
    requires p.Inv() && k < |p.blocks| && p.blocks[k].used && Chain(Split(p.blocks, k, q), 0, p.Tailer()) && Roomy(Split(p.blocks, k, q))
    requires p.blocks[k].off < q < p.blocks[k].next && FreeOffs(Split(p.blocks, k, q)) == FreeOffs(p.blocks) + {q}
    ensures Listed([q] + WithoutRight(p.blocks, p.free, k), PlugForward(Split(p.blocks, k, q), k + 1))
  {
    var bs, fs := p.blocks, Split(p.blocks, k, q);
    PlugForwardPool(fs, p.Tailer(), k + 1);
    NotFreeInside(bs, p.Tailer(), k, q);
    if k + 1 < |bs| && !bs[k + 1].used {
      assert fs[k + 2] == bs[k + 1];
      BlocksApart(bs, p.Tailer(), k, k + 1);
      PushListed(p.free, bs, q, bs[k + 1].off, PlugForward(fs, k + 1));
    } else {
      PushListed(p.free, bs, q, 0, PlugForward(fs, k + 1));
    }
  }

  /** A live address is the payload address of exactly one used block. */
  lemma LiveIndex(p: Pool, ptr: int) returns (k: nat)
    requires p.Inv() && p.Live(ptr)
    ensures k < |p.blocks| && k == Find(p.blocks, ptr - ITEM) && p.blocks[k].used && p.blocks[k].off + ITEM == ptr
    ensures p.blocks[k] in Allocated(p.blocks)
  {
    k :| 0 <= k < |p.blocks| && p.blocks[k].used && p.blocks[k].off + ITEM == ptr;
    FindBlock(p.blocks, p.Tailer(), k);
    assert p.blocks[k] in Allocated(p.blocks);
  }

  /** Block b gave way to block c: resized at its address, or a block that was not in use. */
  ghost predicate Replaced(p: Pool, p': Pool, b: Block, c: Block) {
    && Allocated(p'.blocks) == Allocated(p.blocks) - {b} + {c}
    && (c.off != b.off ==> c !in Allocated(p.blocks))
  }

  /** Block b gave way to a block at address q that holds the size. */
  ghost predicate ReplacedAt(p: Pool, p': Pool, b: Block, q: int, size: int) {
    exists c :: Replaced(p, p', b, c) && q == c.off + ITEM && size <= Size(c)
  }

  lemma ReplacedBy(p: Pool, p': Pool, b: Block, c: Block, size: int)
    requires Replaced(p, p', b, c) && size <= Size(c)
    ensures ReplacedAt(p, p', b, c.off + ITEM, size)
  {
  }

  /** The pool meets its invariant; block k has stayed with everything else, or has given way to one
      that holds the size. The high-water mark counts the moment between a move's alloc and free. */
  ghost predicate Resized(p: Pool, k: nat, size: USize, r: (Pool, Ptr))
    requires k < |p.blocks|
  {
    && r.0.Inv() && r.0.size == p.size
    && (r.1 == Null ==> r.0 == p)
    && (r.1.At? ==> ReplacedAt(p, r.0, p.blocks[k], r.1.off, size))
    && r.0.maxUsed == (if r.1.At? && r.1.off != p.blocks[k].off + ITEM then Alloc(p, size).0.maxUsed
                       else Max(p.maxUsed, p.size - r.0.Avail()))
  }

  /** rt_memheap_realloc on a live block keeps the invariant; it either fails and changes nothing,
      or replaces the block by one that holds the size. */
  lemma ResizeKeeps(p: Pool, k: nat, size: USize)
    requires p.Inv() && k < |p.blocks| && p.blocks[k].used && size % 4 == 0 && MINI <= size && GrowthFits(p, k, size)
    ensures Resized(p, k, size, Resize(p, k, size))
  {
    if size > Size(p.blocks[k]) {
      if CanExtend(p.blocks, k, size) {
        assert Resize(p, k, size) == (Grow(p, k, size), At(p.blocks[k].off + ITEM));
        GrowResizes(p, k, size);
      } else {
        assert Resize(p, k, size) == Move(p, p.blocks[k].off + ITEM, size);
        MoveKeeps(p, k, size);
      }
    } else if size + ITEM + MINI >= Size(p.blocks[k]) {
      assert Resize(p, k, size) == (p, At(p.blocks[k].off + ITEM));
      SameResizes(p, k, size);
    } else {
      assert Resize(p, k, size) == (Shrink(p, k, size), At(p.blocks[k].off + ITEM));
      ShrinkResizes(p, k, size);
    }
  }

  lemma SameResizes(p: Pool, k: nat, size: USize)
    requires p.Inv() && k < |p.blocks| && p.blocks[k].used && size <= Size(p.blocks[k])
    ensures Resized(p, k, size, (p, At(p.blocks[k].off + ITEM)))
  {
    assert p.blocks[k] in Allocated(p.blocks);
    ReplacedBy(p, p, p.blocks[k], p.blocks[k], size);
  }

  lemma GrowResizes(p: Pool, k: nat, size: USize)
    requires p.Inv() && k < |p.blocks| && p.blocks[k].used && size % 4 == 0 && size + MINI < WORD_RANGE
    requires Size(p.blocks[k]) < size && CanExtend(p.blocks, k, size)
    ensures Resized(p, k, size, (Grow(p, k, size), At(p.blocks[k].off + ITEM)))
  {
    var b := p.blocks[k];
    GrowKeeps(p, k, size);
    ReplacedBy(p, Grow(p, k, size), b, Block(b.off, b.off + ITEM + size, true), size);
  }

  lemma ShrinkResizes(p: Pool, k: nat, size: USize)
    requires p.Inv() && k < |p.blocks| && p.blocks[k].used && size % 4 == 0 && MINI <= size
    requires size + ITEM + MINI < Size(p.blocks[k])
    ensures Resized(p, k, size, (Shrink(p, k, size), At(p.blocks[k].off + ITEM)))
  {
    var b := p.blocks[k];
    ShrinkKeeps(p, k, size);
    ReplacedBy(p, Shrink(p, k, size), b, Block(b.off, b.off + ITEM + size, true), size);
  }

  lemma MoveKeeps(p: Pool, k: nat, size: USize)
    requires p.Inv() && k < |p.blocks| && p.blocks[k].used && size % 4 == 0 && MINI <= size
    ensures Resized(p, k, size, Move(p, p.blocks[k].off + ITEM, size))
  {
    if Alloc(p, size).1.At? {
      var c := Moved(p, k, size);
      ReplacedBy(p, Move(p, p.blocks[k].off + ITEM, size).0, p.blocks[k], c, size);
    } else {
      var c := AllocKeeps(p, size);
    }
  }

  lemma Moved(p: Pool, k: nat, size: USize) returns (c: Block)
    requires p.Inv() && k < |p.blocks| && p.blocks[k].used && size % 4 == 0 && MINI <= size && Alloc(p, size).1.At?
    ensures var p' := Free(Alloc(p, size).0, At(p.blocks[k].off + ITEM)); p'.Inv() && p'.size == p.size && Replaced(p, p', p.blocks[k], c)
    ensures Free(Alloc(p, size).0, At(p.blocks[k].off + ITEM)).maxUsed == Alloc(p, size).0.maxUsed
    ensures Alloc(p, size).1.off == c.off + ITEM && size <= Size(c) && c.off != p.blocks[k].off
  {
    c := AllocAdds(p, size);
    InUse(p.blocks, k);
    MoveFrees(p, Alloc(p, size).0, p.blocks[k], c);
  }

  lemma InUse(bs: seq<Block>, k: nat)
    requires k < |bs| && bs[k].used
    ensures bs[k] in Allocated(bs)
  {
  }

  lemma AllocAdds(p: Pool, size: USize) returns (c: Block)
    requires p.Inv() && size % 4 == 0 && MINI <= size && Alloc(p, size).1.At?
    ensures Alloc(p, size).0.Inv() && Alloc(p, size).0.size == p.size && Added(p, Alloc(p, size).0, c)
    ensures Alloc(p, size).1.off == c.off + ITEM && size <= Size(c)
  {
    c := AllocKeeps(p, size);
    AlignUpMeaning(size);
  }

  lemma MoveFrees(p: Pool, p1: Pool, b: Block, c: Block)
    requires p1.Inv() && b in Allocated(p.blocks) && Added(p, p1, c)
    ensures var p' := Free(p1, At(b.off + ITEM));
      p'.Inv() && p'.size == p1.size && p'.maxUsed == p1.maxUsed && Replaced(p, p', b, c)
    ensures c.off != b.off
  {
    assert b in Allocated(p1.blocks) && c in Allocated(p1.blocks);
    assert p1.Live(b.off + ITEM);
    var j := LiveIndex(p1, b.off + ITEM);
    SameBlock(p1, j, b);
    FreeKeeps(p1, j);
    if c.off == b.off {
      SameBlock(p1, j, c);
    }
  }

  lemma SameBlock(p: Pool, k: nat, b: Block)
    requires p.Inv() && k < |p.blocks| && b in p.blocks && b.off == p.blocks[k].off
    ensures p.blocks[k] == b
  {
    var i :| 0 <= i < |p.blocks| && p.blocks[i] == b;
    FindBlock(p.blocks, p.Tailer(), i);
    FindBlock(p.blocks, p.Tailer(), k);
  }

  // ----- runs -----

  datatype Op = DoAlloc(size: USize) | DoFree(ptr: Ptr) | DoRealloc(ptr: Ptr, newsize: USize)

  /** Callers give back what they own, and rt_memheap_realloc does not grow a block on a wrapped guard. */
  ghost predicate Allowed(p: Pool, op: Op) {
    match op
    case DoAlloc(_) => true
    case DoFree(ptr) => ptr.At? ==> p.Live(ptr.off)
    case DoRealloc(ptr, n) => (ptr.At? ==> p.Live(ptr.off)) && ReallocFits(p, ptr, n)
  }

  function Step(p: Pool, op: Op): Pool {
    match op
    case DoAlloc(n) => Alloc(p, n).0
    case DoFree(ptr) => Free(p, ptr)
    case DoRealloc(ptr, n) => Realloc(p, ptr, n).0
  }

  /** The most that is in use (pool size minus available bytes) at any moment of one operation; a
      realloc that moves a block is at its fullest between its alloc and its free. */
  function Fullest(p: Pool, op: Op): int {
    if op.DoRealloc? && op.ptr.At? && Realloc(p, op.ptr, op.newsize).1.At? && Realloc(p, op.ptr, op.newsize).1 != op.ptr then
      p.size - Alloc(p, Rounded(op.newsize)).0.Avail()
    else Max(p.size - p.Avail(), p.size - Step(p, op).Avail())
  }

  lemma StepKeeps(p: Pool, op: Op)
    requires p.Inv() && Allowed(p, op)
    ensures Step(p, op).Inv() && Step(p, op).size == p.size
    ensures Step(p, op).maxUsed == Max(p.maxUsed, Fullest(p, op))
  {
    match op
    case DoAlloc(n) =>
      var c := AllocKeeps(p, n);
    case DoFree(ptr) =>
      FreePtrKeeps(p, ptr);
    case DoRealloc(ptr, n) =>
      RoundedIsAligned(n);
      if n == 0 {
        FreePtrKeeps(p, ptr);
      } else if ptr == Null {
        var c := AllocKeeps(p, Rounded(n));
      } else {
        ReallocPeak(p, ptr.off, n);
      }
  }

  lemma ReallocPeak(p: Pool, ptr: int, n: USize)
    requires p.Inv() && p.Live(ptr) && n != 0 && ReallocFits(p, At(ptr), n)
    ensures var (p', q) := Realloc(p, At(ptr), n);
      && p'.Inv() && p'.size == p.size
      && p'.maxUsed == Max(p.maxUsed, if q.At? && q.off != ptr then p.size - Alloc(p, Rounded(n)).0.Avail() else p.size - p'.Avail())
  {
    var k := LiveIndex(p, ptr);
    var size := Rounded(n);
    RoundedIsAligned(n);
    assert Realloc(p, At(ptr), n) == Resize(p, k, size);
    ResizePeak(p, k, size);
  }

  lemma ResizePeak(p: Pool, k: nat, size: USize)
    requires p.Inv() && k < |p.blocks| && p.blocks[k].used && size % 4 == 0 && MINI <= size && GrowthFits(p, k, size)
    ensures var (p', q) := Resize(p, k, size);
      && p'.Inv() && p'.size == p.size
      && p'.maxUsed == Max(p.maxUsed, if q.At? && q.off != p.blocks[k].off + ITEM then p.size - Alloc(p, size).0.Avail() else p.size - p'.Avail())
  {
    ResizeKeeps(p, k, size);
    var c := AllocKeeps(p, size);
  }

  lemma FreePtrKeeps(p: Pool, ptr: Ptr)
    requires p.Inv() && (ptr.At? ==> p.Live(ptr.off))
    ensures Free(p, ptr).Inv() && Free(p, ptr).size == p.size
    ensures Free(p, ptr).maxUsed == p.maxUsed && p.Avail() <= Free(p, ptr).Avail()
  {
    if ptr.At? {
      var k := LiveIndex(p, ptr.off);
      FreeKeeps(p, k);
    }
  }

  /** rt_memheap_realloc on a live address keeps the pool sound exactly when it does not grow a block
      in place on a wrapped guard. */
  lemma ReallocIsSound(p: Pool, ptr: int, n: USize)
    requires p.Inv() && p.Live(ptr)
    ensures Realloc(p, At(ptr), n).0.Inv() <==> ReallocFits(p, At(ptr), n)
  {
    if n == 0 {
      FreePtrKeeps(p, At(ptr));
    } else {
      var k := LiveIndex(p, ptr);
      RoundedIsAligned(n);
      if ReallocFits(p, At(ptr), n) {
        ReallocPeak(p, ptr, n);
      } else {
        GrowIsSound(p, k, Rounded(n));
      }
    }
  }

  /** A pool of 132 bytes with one block of 12 allocated, which is asked to grow to 2^32 - 12 bytes:
      the guard wraps to zero, and the block would run past the pool. */
  lemma GrowWraps() returns (p: Pool, n: USize)
    ensures p == Step(Initial(132), DoAlloc(12)) && p.Inv() && p.Live(ITEM) && n == WORD_RANGE - MINI
    ensures !ReallocFits(p, At(ITEM), n) && !Realloc(p, At(ITEM), n).0.Inv()
  {
    GrowWrapsPool();
    p, n := Step(Initial(132), DoAlloc(12)), WORD_RANGE - MINI;
    GrowWrapsGuard(p, n);
    ReallocIsSound(p, ITEM, n);
  }

  lemma GrowWrapsGuard(p: Pool, n: USize)
    requires p.blocks == [Block(0, 36, true), Block(36, 108, false)] && n == WORD_RANGE - MINI
    ensures p.Live(ITEM) && !ReallocFits(p, At(ITEM), n)
  {
    assert p.blocks[0].used && p.blocks[0].off + ITEM == ITEM;
    assert Find(p.blocks, 0) == 0;
    assert Rounded(n) == n && Wrap(n + MINI) == 0;
  }

  lemma GrowWrapsPool()
    ensures Step(Initial(132), DoAlloc(12)).blocks == [Block(0, 36, true), Block(36, 108, false)]
    ensures Step(Initial(132), DoAlloc(12)).Inv()
  {
    InitialInv(132);
    var c := AllocKeeps(Initial(132), 12);
    var bs := Initial(132).blocks;
    assert bs == [Block(0, 108, false)] && Find(bs, 0) == 0;
    assert Pick(bs, [0], 12) == 0;
    assert FreeBytes(bs) == 84 + FreeBytes(bs[1..]);
  }

  ghost predicate AllowedRun(p: Pool, ops: seq<Op>)
    decreases |ops|
  {
    ops != [] ==> Allowed(p, ops[0]) && AllowedRun(Step(p, ops[0]), ops[1..])
  }

  function Run(p: Pool, ops: seq<Op>): Pool
    decreases |ops|
  {
    if ops == [] then p else Run(Step(p, ops[0]), ops[1..])
  }

  function Peak(p: Pool, ops: seq<Op>): int
    decreases |ops|
  {
    if ops == [] then p.size - p.Avail() else Max(Fullest(p, ops[0]), Peak(Step(p, ops[0]), ops[1..]))
  }

  /** rt_memheap_init establishes the invariant exactly when the pool has room for two headers and
      one minimum block. */
  lemma InitialInv(size: int)
    requires 0 <= size < WORD_RANGE && size % 4 == 0
    ensures Initial(size).Inv() <==> 2 * ITEM + MINI <= size
  {
    var b := Block(0, size - ITEM, false);
    Pair(b, b);
    One(b);
    assert b in [b];
  }

  /** Every run keeps the ring, the free list and the accounting, and max_used_size is the true
      high-water mark of the pool size minus the available bytes. */
  lemma {:induction false} RunKeeps(p: Pool, ops: seq<Op>)
    requires p.Inv() && AllowedRun(p, ops)
    ensures Run(p, ops).Inv() && Run(p, ops).size == p.size
    ensures Run(p, ops).maxUsed == Max(p.maxUsed, Peak(p, ops))
    decreases |ops|
  {
    if ops != [] {
      StepKeeps(p, ops[0]);
      RunKeeps(Step(p, ops[0]), ops[1..]);
    }
  }
}
