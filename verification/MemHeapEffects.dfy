/** What each operation of the memheap does to the blocks, the free list and the available bytes,
    exactly. */
module MemHeapEffects {
  import opened RtDef
  import opened BlockList
  import opened BlockListExact
  import opened RtList
  import opened Sequences
  import opened MemHeapSpec
  import opened MemHeapLaws

  /** What a request comes to: the next multiple of four, at least twelve. */
  function Need(n: USize): int {
    if AlignUp(n) < 12 then 12 else AlignUp(n)
  }

  /** The payload bytes behind the header. */
  function Room(b: Block): int {
    b.next - b.off - 24
  }

  // ----- rt_memheap_alloc -----

  /** The free block at offset o, if it holds r bytes. */
  predicate ServesAt(bs: seq<Block>, o: int, r: int) {
    exists k :: 0 <= k < |bs| && bs[k].off == o && !bs[k].used && r <= Room(bs[k])
  }

  /** Block b once it serves r bytes: cut in two if another header and twelve bytes remain, or whole. */
  function Parts(b: Block, r: int): seq<Block> {
    if Room(b) >= r + 36 then [Block(b.off, b.off + 24 + r, true), Block(b.off + 24 + r, b.next, false)]
    else [Block(b.off, b.next, true)]
  }

  /** Block k, entry i of the free list, serves r bytes from its start; a rest takes the head of the
      free list, and the available bytes fall by what is handed out and a rest's header. */
  ghost predicate Served(p: Pool, p': Pool, i: nat, k: nat, r: int) {
    && i < |p.free| && k < |p.blocks| && p.blocks[k].off == p.free[i] && !p.blocks[k].used && r <= Room(p.blocks[k])
    && p'.size == p.size && p'.blocks == p.blocks[..k] + Parts(p.blocks[k], r) + p.blocks[k + 1..]
    && p'.free == (if Room(p.blocks[k]) >= r + 36 then [p.blocks[k].off + 24 + r] else []) + WithoutAt(p.free, i)
    && p'.Avail() == p.Avail() - (if Room(p.blocks[k]) >= r + 36 then r + 24 else Room(p.blocks[k]))
    && p'.maxUsed == Max(p.maxUsed, p.size - p'.Avail())
  }

  /** NULL is the answer exactly if the rounded request is not below the available bytes, or no entry of
      the free list holds it; then nothing has changed. Otherwise the first entry that does serves it. */
  lemma AllocEffect(p: Pool, n: USize) returns (i: nat, k: nat)
    requires p.Inv()
    ensures Alloc(p, n).1 == Null <==> p.Avail() <= Need(n) || forall o :: o in p.free ==> !ServesAt(p.blocks, o, Need(n))
    ensures Alloc(p, n).1 == Null ==> Alloc(p, n).0 == p
    ensures Alloc(p, n).1.At? ==> Served(p, Alloc(p, n).0, i, k, Need(n)) && Alloc(p, n).1.off == p.free[i] + 24
    ensures Alloc(p, n).1.At? ==> forall j :: 0 <= j < i ==> !ServesAt(p.blocks, p.free[j], Need(n))
  {
    var r := Need(n);
    assert r == Rounded(n);
    i, k := Pick(p.blocks, p.free, r), 0;
    PickMeaning(p.blocks, p.Tailer(), p.free, r);
    forall j | 0 <= j < i ensures !ServesAt(p.blocks, p.free[j], r) {
      TooSmall(p, j, r);
    }
    if i < |p.free| {
      k := Find(p.blocks, p.free[i]);
      assert ServesAt(p.blocks, p.free[i], r);
      assert p.free[i] in p.free;
      if Alloc(p, n).1.At? {
        TakeEffect(p, i, k, r, n);
      }
    } else {
      forall o | o in p.free ensures !ServesAt(p.blocks, o, r) {
        var j :| 0 <= j < |p.free| && p.free[j] == o;
      }
    }
  }

  lemma TooSmall(p: Pool, j: nat, r: int)
    requires p.Inv() && j < |p.free|
    requires Find(p.blocks, p.free[j]) < |p.blocks| && Size(p.blocks[Find(p.blocks, p.free[j])]) < r
    ensures !ServesAt(p.blocks, p.free[j], r)
  {
    forall k | 0 <= k < |p.blocks| && p.blocks[k].off == p.free[j] ensures Room(p.blocks[k]) < r {
      FindBlock(p.blocks, p.Tailer(), k);
    }
  }

  lemma TakeEffect(p: Pool, i: nat, k: nat, r: int, n: USize)
    requires p.Inv() && i < |p.free| && k < |p.blocks| && p.blocks[k].off == p.free[i] && !p.blocks[k].used
    requires r == Rounded(n) && r <= Room(p.blocks[k])
    requires Alloc(p, n).0 == p.With(TakeBlocks(p.blocks, k, r), TakeFree(p.blocks, p.free, k, r))
    ensures Served(p, Alloc(p, n).0, i, k, r)
  {
    var p' := p.With(TakeBlocks(p.blocks, k, r), TakeFree(p.blocks, p.free, k, r));
    assert p'.blocks == p.blocks[..k] + Parts(p.blocks[k], r) + p.blocks[k + 1..] by { TakeBlocksIs(p.blocks, k, r); }
    assert p'.free == (if Room(p.blocks[k]) >= r + 36 then [p.blocks[k].off + 24 + r] else []) + WithoutAt(p.free, i) by {
      TakeFreeIs(p, i, k, r);
    }
    RoundedIsAligned(n);
    TakeBytes(p, k, r);
  }

  lemma TakeFreeIs(p: Pool, i: nat, k: nat, r: int)
    requires Distinct(p.free) && i < |p.free| && k < |p.blocks| && p.blocks[k].off == p.free[i]
    ensures TakeFree(p.blocks, p.free, k, r) ==
      (if Room(p.blocks[k]) >= r + 36 then [p.blocks[k].off + 24 + r] else []) + WithoutAt(p.free, i)
  {
    UnlinkedAt(p.free, i);
    assert [] + WithoutAt(p.free, i) == WithoutAt(p.free, i);
  }

  lemma TakeBlocksIs(bs: seq<Block>, k: nat, r: int)
    requires k < |bs|
    ensures TakeBlocks(bs, k, r) == bs[..k] + Parts(bs[k], r) + bs[k + 1..]
  {
  }

  lemma TakeBytes(p: Pool, k: nat, r: int)
    requires p.Inv() && k < |p.blocks| && !p.blocks[k].used && r % 4 == 0 && 12 <= r <= Room(p.blocks[k])
    ensures FreeBytes(TakeBlocks(p.blocks, k, r)) == p.Avail() - (if Room(p.blocks[k]) >= r + 36 then r + 24 else Room(p.blocks[k]))
  {
    if Room(p.blocks[k]) >= r + 36 {
      BlockInChain(p.blocks, k, p.Tailer());
      Sum8(p.blocks[k].off, r);
      TakeSplit(p, k, p.blocks[k].off + ITEM + r);
    } else {
      TakeWhole(p, k);
    }
  }

  // ----- rt_memheap_free -----

  /** The free list once a free right neighbour of block k has left it. */
  function RightGone(p: Pool, k: nat): seq<int>
    requires k < |p.blocks|
  {
    if k + 1 < |p.blocks| && !p.blocks[k + 1].used then Unlinked(p.free, p.blocks[k + 1].off) else p.free
  }

  /** Freeing block k leaves one free block over it and its free neighbours. A free right neighbour
      leaves the free list; the block takes its head, unless a free left neighbour stands for it. The
      available bytes rise by its payload and a header for each neighbour joined. */
  lemma FreeEffect(p: Pool, k: nat)
    requires p.Inv() && k < |p.blocks| && p.blocks[k].used
    ensures Free(p, At(p.blocks[k].off + 24)) == Freed(p, k)
    ensures Freed(p, k).Avail() ==
      p.Avail() + Room(p.blocks[k]) + (if Left(p.blocks, k) < k then 24 else 0) + (if Right(p.blocks, k) > k + 1 then 24 else 0)
  {
    FreeAtBlock(p, k);
    FreedBlocks(p, k);
    FreedList(p, k);
    FreedBytes(p, k);
  }

  lemma FreeAtBlock(p: Pool, k: nat)
    requires p.Inv() && k < |p.blocks|
    ensures Free(p, At(p.blocks[k].off + 24)) == p.(blocks := FreeAt(p.blocks, k), free := FreeList(p.blocks, p.free, k))
  {
    FindBlock(p.blocks, p.Tailer(), k);
  }

  lemma FreedBlocks(p: Pool, k: nat)
    requires k < |p.blocks| && p.blocks[k].used
    ensures FreeAt(p.blocks, k) == Freed(p, k).blocks
  {
    FreeAtIs(p.blocks, k);
  }

  lemma FreedList(p: Pool, k: nat)
    requires k < |p.blocks|
    ensures FreeList(p.blocks, p.free, k) == Freed(p, k).free
  {
    assert [] + RightGone(p, k) == RightGone(p, k);
  }

  function Freed(p: Pool, k: nat): Pool
    requires k < |p.blocks|
  {
    var bs, i, j := p.blocks, Left(p.blocks, k), Right(p.blocks, k);
    p.(blocks := bs[..i] + [Block(bs[i].off, bs[j - 1].next, false)] + bs[j..],
       free := (if i < k then [] else [bs[k].off]) + RightGone(p, k))
  }

  lemma FreedBytes(p: Pool, k: nat)
    requires p.Inv() && k < |p.blocks| && p.blocks[k].used
    ensures FreeBytes(FreeAt(p.blocks, k)) ==
      p.Avail() + Room(p.blocks[k]) + (if Left(p.blocks, k) < k then 24 else 0) + (if Right(p.blocks, k) > k + 1 then 24 else 0)
  {
    var fs := SetUsed(p.blocks, k, false);
    SetUsedPool(p.blocks, p.Tailer(), k, false);
    PlugForwardPool(fs, p.Tailer(), k);
    PlugBackwardPool(PlugForward(fs, k), p.Tailer(), k);
  }

  lemma FreeNothing(p: Pool, ptr: Ptr)
    requires ptr.At? ==> forall j :: 0 <= j < |p.blocks| ==> p.blocks[j].off + 24 != ptr.off
    ensures Free(p, ptr) == p
  {
    if ptr.At? {
      var k := Find(p.blocks, ptr.off - ITEM);
      assert k == |p.blocks|;
    }
  }

  // ----- rt_memheap_realloc -----

  /** A size of zero frees, NULL allocates, and an address without a block comes back. */
  lemma ReallocOther(p: Pool, ptr: Ptr, n: USize)
    ensures n == 0 ==> Realloc(p, ptr, n) == (Free(p, ptr), Null)
    ensures n != 0 && ptr == Null ==> Realloc(p, ptr, n) == Alloc(p, Need(n))
    ensures n != 0 && ptr.At? && (forall j :: 0 <= j < |p.blocks| ==> p.blocks[j].off + 24 != ptr.off) ==> Realloc(p, ptr, n) == (p, ptr)
  {
  }

  lemma ReallocAt(p: Pool, k: nat, n: USize)
    requires p.Inv() && k < |p.blocks| && p.blocks[k].used && n != 0
    ensures Realloc(p, At(p.blocks[k].off + 24), n) == Resize(p, k, Need(n))
  {
    FindBlock(p.blocks, p.Tailer(), k);
  }

  /** A block with at most 36 bytes more than needed stays as it is. */
  lemma ReallocKeepsAll(p: Pool, k: nat, n: USize)
    requires p.Inv() && k < |p.blocks| && p.blocks[k].used && n != 0 && Need(n) <= Room(p.blocks[k]) <= Need(n) + 36
    ensures Realloc(p, At(p.blocks[k].off + 24), n) == (p, At(p.blocks[k].off + 24))
  {
    ReallocAt(p, k, n);
  }

  /** A block with more than that is cut behind the needed bytes at its place. The rest is one free
      block with a free right neighbour, takes the head of the free list, and its bytes are available
      again: less its own header, unless it takes over the neighbour's. */
  lemma ReallocCuts(p: Pool, k: nat, n: USize, q: int)
    requires p.Inv() && k < |p.blocks| && p.blocks[k].used && n != 0 && Room(p.blocks[k]) > Need(n) + 36
    requires q == p.blocks[k].off + 24 + Need(n)
    ensures Realloc(p, At(p.blocks[k].off + 24), n) == (CutTo(p, k, q), At(p.blocks[k].off + 24))
    ensures CutTo(p, k, q).Avail() ==
      p.Avail() + (Room(p.blocks[k]) - Need(n)) - (if Right(p.blocks, k) > k + 1 then 0 else 24)
  {
    ReallocAt(p, k, n);
    ResizeIsCut(p, k, Need(n), q);
    CutFits(p, k, n, q);
    CutEffect(p, k, q);
  }

  lemma CutFits(p: Pool, k: nat, n: USize, q: int)
    requires p.Inv() && k < |p.blocks| && p.blocks[k].used && Room(p.blocks[k]) > Need(n) + 36
    requires q == p.blocks[k].off + 24 + Need(n)
    ensures Cuts(p.blocks, k, q)
  {
    RoundedIsAligned(n);
    ShrinkCuts(p, k, Need(n));
  }

  lemma ResizeIsCut(p: Pool, k: nat, r: USize, q: int)
    requires k < |p.blocks| && Room(p.blocks[k]) > r + 36 && q == p.blocks[k].off + 24 + r
    ensures Resize(p, k, r) == (CutAt(p, k, q), At(p.blocks[k].off + 24))
  {
  }

  /** Block k ends at q, and one free block follows up to the end of a free right neighbour. */
  function CutTo(p: Pool, k: nat, q: int): Pool
    requires k < |p.blocks|
  {
    var bs, j := p.blocks, Right(p.blocks, k);
    p.(blocks := bs[..k] + [Block(bs[k].off, q, true), Block(q, bs[j - 1].next, false)] + bs[j..], free := [q] + RightGone(p, k))
  }

  lemma CutEffect(p: Pool, k: nat, q: int)
    requires p.Inv() && Cuts(p.blocks, k, q)
    ensures CutAt(p, k, q) == CutTo(p, k, q)
    ensures CutTo(p, k, q).Avail() == p.Avail() + (p.blocks[k].next - q - 24) + (if Right(p.blocks, k) > k + 1 then 24 else 0)
  {
    CutBlocks(p.blocks, k, q);
    SplitPool(p.blocks, p.Tailer(), k, q);
    PlugForwardPool(Split(p.blocks, k, q), p.Tailer(), k + 1);
  }

  lemma CutBlocks(bs: seq<Block>, k: nat, q: int)
    requires k < |bs|
    ensures var j := Right(bs, k);
      PlugForward(Split(bs, k, q), k + 1) == bs[..k] + [Block(bs[k].off, q, true), Block(q, bs[j - 1].next, false)] + bs[j..]
    ensures k + 1 < |Split(bs, k, q)| && !Split(bs, k, q)[k + 1].used
    ensures k + 2 < |Split(bs, k, q)| <==> k + 1 < |bs|
    ensures k + 1 < |bs| ==> Split(bs, k, q)[k + 2] == bs[k + 1]
  {
    var fs := Split(bs, k, q);
    assert k + 1 < |bs| ==> fs[k + 2] == bs[k + 1];
    if k + 1 < |bs| && !bs[k + 1].used {
      assert fs[..k + 1] == bs[..k] + [Block(bs[k].off, q, true)] && fs[k + 3..] == bs[k + 2..];
    }
  }

  /** A smaller block whose right neighbour is free, the two with more than twelve bytes above the need
      (in 32-bit arithmetic), grows at its place to exactly the needed bytes; the neighbour shrinks and
      takes the head of the free list. */
  lemma ReallocGrows(p: Pool, k: nat, n: USize, q: int)
    requires p.Inv() && k + 1 < |p.blocks| && p.blocks[k].used && !p.blocks[k + 1].used && n != 0
    requires Room(p.blocks[k]) < Need(n) && Room(p.blocks[k]) + Room(p.blocks[k + 1]) > (Need(n) + 12) % 0x1_0000_0000
    requires q == p.blocks[k].off + 24 + Need(n)
    ensures Realloc(p, At(p.blocks[k].off + 24), n) == (GrowTo(p, k, q), At(p.blocks[k].off + 24))
    ensures Need(n) + 12 < 0x1_0000_0000 ==> GrowTo(p, k, q).Avail() == p.Avail() - (Need(n) - Room(p.blocks[k]))
  {
    ReallocAt(p, k, n);
    ResizeIsGrow(p, k, Need(n), q);
    if Need(n) + 12 < 0x1_0000_0000 {
      RoundedIsAligned(n);
      GrowBytes(p, k, Need(n), q);
    }
  }

  /** Block k ends at q, and its free right neighbour begins there. */
  function GrowTo(p: Pool, k: nat, q: int): Pool
    requires k + 1 < |p.blocks|
  {
    var bs := p.blocks[..k] + [Block(p.blocks[k].off, q, true), Block(q, p.blocks[k + 1].next, false)] + p.blocks[k + 2..];
    Pool(p.size, bs, [q] + Unlinked(p.free, p.blocks[k + 1].off), Max(p.maxUsed, p.size - FreeBytes(bs)))
  }

  lemma ResizeIsGrow(p: Pool, k: nat, r: USize, q: int)
    requires k + 1 < |p.blocks| && !p.blocks[k + 1].used
    requires Room(p.blocks[k]) < r && Room(p.blocks[k]) + Room(p.blocks[k + 1]) > (r + 12) % 0x1_0000_0000
    requires q == p.blocks[k].off + 24 + r
    ensures Resize(p, k, r) == (GrowTo(p, k, q), At(p.blocks[k].off + 24)) && CanExtend(p.blocks, k, r)
  {
  }

  lemma GrowBytes(p: Pool, k: nat, r: USize, q: int)
    requires p.Inv() && k < |p.blocks| && p.blocks[k].used && r % 4 == 0 && r + 12 < WORD_RANGE
    requires Size(p.blocks[k]) < r && CanExtend(p.blocks, k, r)
    requires q == p.blocks[k].off + 24 + r
    ensures GrowTo(p, k, q).Avail() == p.Avail() - (r - Room(p.blocks[k]))
  {
    GrowExtends(p, k, r);
    ExtendPool(p.blocks, p.Tailer(), k, q);
    assert GrowTo(p, k, q).blocks == Extend(p.blocks, k, q);
  }

  /** Any other larger size is served by rt_memheap_alloc; the old block is freed, unless that fails. */
  lemma ReallocMoves(p: Pool, k: nat, n: USize)
    requires p.Inv() && k < |p.blocks| && p.blocks[k].used && n != 0 && Room(p.blocks[k]) < Need(n)
    requires k + 1 < |p.blocks| && !p.blocks[k + 1].used ==>
      Room(p.blocks[k]) + Room(p.blocks[k + 1]) <= (Need(n) + 12) % 0x1_0000_0000
    ensures var ptr, r := At(p.blocks[k].off + 24), Alloc(p, Need(n));
      Realloc(p, ptr, n) == if r.1 == Null then (p, Null) else (Free(r.0, ptr), r.1)
  {
    ReallocAt(p, k, n);
    var i, j := AllocEffect(p, Need(n));
  }
}
