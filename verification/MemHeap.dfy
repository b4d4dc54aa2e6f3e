/** memheap.c itself: the item headers, found by address, are rewired in place. */
module MemHeap {
  import opened RtDef
  import opened BlockList
  import opened RtList
  import opened Sequences
  import opened MemHeapSpec
  import opened Laws = MemHeapLaws

  /** The address of the free list header, outside the pool, and the null pointer. */
  const LIST: int := -1
  const NULL: int := -2

  function Offs(bs: seq<Block>): (os: seq<int>)
    ensures |os| == |bs| && forall i :: 0 <= i < |bs| ==> os[i] == bs[i].off
  {
    seq(|bs|, i requires 0 <= i < |bs| => bs[i].off)
  }

  ghost predicate Flags(used: map<int, bool>, bs: seq<Block>) {
    forall b :: b in bs ==> b.off in used && used[b.off] == b.used
  }

  // ----- the ring of blocks under the list operations -----

  lemma OffsOfSplit(bs: seq<Block>, k: nat, p: int)
    requires k < |bs|
    ensures Offs(Split(bs, k, p)) == WithAt(Offs(bs), k + 1, p)
  {
  }

  lemma OffsOfJoin(bs: seq<Block>, k: nat)
    requires k + 1 < |bs|
    ensures Offs(Join(bs, k)) == WithoutAt(Offs(bs), k + 1)
  {
  }

  lemma OffsOfSetUsed(bs: seq<Block>, k: nat, used: bool)
    requires k < |bs|
    ensures Offs(SetUsed(bs, k, used)) == Offs(bs)
  {
  }

  lemma FlagsOfSplit(used: map<int, bool>, bs: seq<Block>, end: int, k: nat, p: int)
    requires Chain(bs, 0, end) && Flags(used, bs) && k < |bs| && bs[k].off < p < bs[k].next
    ensures Flags(used[p := false][bs[k].off := true], Split(bs, k, p))
  {
    NotBlockInside(bs, end, k, p);
    OffsUnique(bs, end, k);
  }

  lemma FlagsOfSetUsed(used: map<int, bool>, bs: seq<Block>, end: int, k: nat, flag: bool)
    requires Chain(bs, 0, end) && Flags(used, bs) && k < |bs|
    ensures Flags(used[bs[k].off := flag], SetUsed(bs, k, flag))
  {
    OffsUnique(bs, end, k);
  }

  lemma OffsUnique(bs: seq<Block>, end: int, k: nat)
    requires Chain(bs, 0, end) && k < |bs|
    ensures forall j :: 0 <= j < |bs| && bs[j].off == bs[k].off ==> j == k
    ensures bs[k].off < end
  {
    forall j | 0 <= j < |bs| && bs[j].off == bs[k].off ensures j == k {
      FindBlock(bs, end, j);
      FindBlock(bs, end, k);
    }
    BlockInChain(bs, k, end);
  }

  lemma NotBlockInside(bs: seq<Block>, end: int, k: nat, p: int)
    requires Chain(bs, 0, end) && k < |bs| && bs[k].off < p < bs[k].next
    ensures p !in Offs(bs) && p < end && 0 < p
  {
    BlockInChain(bs, k, end);
    if p in Offs(bs) {
      var j :| 0 <= j < |bs| && bs[j].off == p;
      BlockInChain(bs, j, end);
      if j < k {
        BlocksApart(bs, end, j, k);
      } else if k < j {
        BlocksApart(bs, end, k, j);
      }
    }
  }

  class Heap {
    const poolSize: int
    var next: Links
    var prev: Links
    var nextFree: Links
    var prevFree: Links
    /** The RT_MEMHEAP_USED bit of `magic`. */
    var used: map<int, bool>
    var availableSize: int
    var maxUsedSize: int
    ghost var blocks: seq<Block>
    ghost var free: seq<int>

    function Tailer(): int {
      poolSize - ITEM
    }

    ghost function Contents(): Pool
      reads this
    {
      Pool(poolSize, blocks, free, maxUsedSize)
    }

    /** The headers represent the two lists. */
    ghost predicate Rep()
      reads this`next, this`prev, this`nextFree, this`prevFree, this`used, this`blocks, this`free
    {
      && Chain(blocks, 0, Tailer()) && 0 <= Tailer()
      && Ring(next, prev, Tailer(), Offs(blocks))
      && Ring(nextFree, prevFree, LIST, free)
      && Flags(used, blocks) && Tailer() in used && used[Tailer()]
    }

    ghost predicate Valid()
      reads this
    {
      Rep() && Contents().Inv() && availableSize == FreeBytes(blocks)
    }

    /** rt_memheap_init, for a pool with room for two headers and one minimum block. */
    constructor (size: int)
      requires 2 * ITEM + MINI <= size < WORD_RANGE && size % 4 == 0
      ensures Valid() && Contents() == Initial(size) && availableSize == size - 2 * ITEM
    {
      poolSize := size;
      availableSize := size - 2 * ITEM;
      maxUsedSize := 2 * ITEM;
      blocks, free := [Block(0, size - ITEM, false)], [0];
      next := map[0 := size - ITEM, size - ITEM := 0];
      prev := map[0 := size - ITEM, size - ITEM := 0];
      nextFree := map[0 := LIST, LIST := 0, size - ITEM := NULL];
      prevFree := map[0 := LIST, LIST := 0, size - ITEM := NULL];
      used := map[0 := false, size - ITEM := true];
      new;
      Laws.InitialInv(size);
      assert Offs(blocks) == [0];
      RingOfOne(next, prev, Tailer(), 0);
      RingOfOne(nextFree, prevFree, LIST, 0);
      One(blocks[0]);
      Pair(blocks[0], blocks[0]);
    }

    /** `next` of block k leads to the following block, or to the tailer. */
    method NextOf(item: int, ghost k: nat) returns (n: int)
      requires Rep() && k < |blocks| && blocks[k].off == item
      ensures n == blocks[k].next == OffAt(blocks, k + 1, Tailer()) && item + HDR <= n <= Tailer()
      ensures item in next && next[item] == n && n in prev && prev[n] == item
      ensures n in used && (used[n] <==> k + 1 == |blocks| || blocks[k + 1].used)
      ensures k + 1 < |blocks| ==> n < Tailer()
    {
      BlockInChain(blocks, k, Tailer());
      if k + 1 < |blocks| {
        BlockInChain(blocks, k + 1, Tailer());
      }
      LenStep(next, prev, Tailer(), Offs(blocks), k + 1);
      n := next[item];
      assert k + 1 < |blocks| ==> blocks[k + 1] in blocks;
    }

    method PrevOf(item: int, ghost k: nat) returns (p: int)
      requires Rep() && k < |blocks| && blocks[k].off == item
      ensures p == (if k == 0 then Tailer() else blocks[k - 1].off)
      ensures item in prev && prev[item] == p && p in next && next[p] == item
      ensures p in used && (used[p] <==> k == 0 || blocks[k - 1].used)
    {
      LenStep(next, prev, Tailer(), Offs(blocks), k);
      p := prev[item];
      assert k > 0 ==> blocks[k - 1] in blocks;
    }

    /** A new free item at q is linked into the ring behind block k, which is in use. */
    method SplitAt(item: int, q: int, ghost k: nat)
      requires Rep() && k < |blocks| && blocks[k].off == item
      requires item + HDR <= q && q + HDR <= blocks[k].next && q % 4 == 0
      modifies this`next, this`prev, this`used, this`blocks
      ensures Rep() && blocks == Split(old(blocks), k, q)
    {
      ghost var bs := blocks;
      SplitKeeps(bs, Tailer(), k, q);
      NotBlockInside(bs, Tailer(), k, q);
      var n := NextOf(item, k);
      used := used[q := false];
      prev := prev[q := item];
      next := next[q := n];
      prev := prev[n := q];
      next := next[item := q];
      used := used[item := true];
      RingLink(old(next), old(prev), next, prev, Tailer(), Offs(bs), k + 1, q);
      OffsOfSplit(bs, k, q);
      FlagsOfSplit(old(used), bs, Tailer(), k, q);
      OffsUnique(bs, Tailer(), k);
      blocks := Split(bs, k, q);
    }

    /** The item of block k + 1 drops out of the ring: its space belongs to block k. */
    method JoinNext(item: int, n: int, ghost k: nat)
      requires Rep() && k + 1 < |blocks| && blocks[k].off == item && blocks[k + 1].off == n
      modifies this`next, this`prev, this`blocks
      ensures Rep() && blocks == Join(old(blocks), k)
    {
      ghost var bs := blocks;
      JoinChain(bs, Tailer(), k);
      var m := NextOf(n, k + 1);
      var i := PrevOf(n, k + 1);
      OffsUnique(bs, Tailer(), k + 1);
      prev := prev[m := item];
      next := next[item := m];
      RingUnlink(old(next), old(prev), next, prev, Tailer(), Offs(bs), k + 1);
      OffsOfJoin(bs, k);
      FlagsOfJoin(used, bs, k);
      blocks := Join(bs, k);
    }

    method Mark(item: int, flag: bool, ghost k: nat)
      requires Rep() && k < |blocks| && blocks[k].off == item
      modifies this`used, this`blocks
      ensures Rep() && blocks == SetUsed(old(blocks), k, flag)
    {
      SetUsedKeeps(blocks, Tailer(), k, flag);
      OffsOfSetUsed(blocks, k, flag);
      FlagsOfSetUsed(used, blocks, Tailer(), k, flag);
      OffsUnique(blocks, Tailer(), k);
      used := used[item := flag];
      blocks := SetUsed(blocks, k, flag);
    }

    /** The item leaves the free list. */
    method UnlinkFree(item: int)
      requires Rep() && item in free
      modifies this`nextFree, this`prevFree, this`free
      ensures Rep() && free == Unlinked(old(free), item)
    {
      ghost var i: nat :| i < |free| && free[i] == item;
      RingAround(nextFree, prevFree, LIST, free, i);
      DistinctParts(free, i);
      UnlinkedAt(free, i);
      LastIn(free, i, LIST);
      LastIn(free, i + 1, LIST);
      var n, p := nextFree[item], prevFree[item];
      prevFree := prevFree[n := p];
      nextFree := nextFree[p := n];
      RingUnlink(old(nextFree), old(prevFree), nextFree, prevFree, LIST, free, i);
      free := WithoutAt(free, i);
    }

    /** The item enters the free list at its head. */
    method PushFree(item: int)
      requires Rep() && item !in free && item != LIST
      modifies this`nextFree, this`prevFree, this`free
      ensures Rep() && free == [item] + old(free)
    {
      LenStep(nextFree, prevFree, LIST, free, 0);
      LastIn(free, 0, LIST);
      var n := nextFree[LIST];
      nextFree := nextFree[item := n];
      prevFree := prevFree[item := LIST];
      prevFree := prevFree[n := item];
      nextFree := nextFree[LIST := item];
      RingLink(old(nextFree), old(prevFree), nextFree, prevFree, LIST, free, 0, item);
      assert WithAt(free, 0, item) == [item] + free;
      free := [item] + free;
    }

    /** The search of rt_memheap_alloc through the free list. */
    method Search(size: int) returns (item: int, freeSize: int, ghost k: nat)
      requires Valid() && MINI <= size
      ensures var i := Pick(blocks, free, size);
        if i == |free| then freeSize < size
        else freeSize >= size && item == free[i] && k == Find(blocks, item) < |blocks| && !blocks[k].used && freeSize == Size(blocks[k])
    {
      freeSize, k := 0, 0;
      ghost var i := 0;
      LenStep(nextFree, prevFree, LIST, free, 0);
      item := nextFree[LIST];
      while item != LIST && freeSize < size
        invariant i <= |free| && (item == LIST <==> i == |free|) && (i < |free| ==> item == free[i])
        invariant Pick(blocks, free, size) == i + Pick(blocks, free[i..], size)
        invariant freeSize >= size ==> i < |free| && k == Find(blocks, item) < |blocks| && !blocks[k].used && freeSize == Size(blocks[k])
        decreases |free| - i, size - freeSize
      {
        FreeFound(blocks, Tailer(), item);
        k := Find(blocks, item);
        var n := NextOf(item, k);
        freeSize := n - item - ITEM;
        if freeSize < size {
          LenStep(nextFree, prevFree, LIST, free, i + 1);
          item := nextFree[item];
          assert free[i..][1..] == free[i + 1..];
          i := i + 1;
        }
      }
    }

    /** `next_free = prev_free = NULL` on an item that is in no list. */
    method ClearLinks(item: int)
      requires Rep() && item !in free && item != LIST
      modifies this`nextFree, this`prevFree
      ensures Rep()
    {
      nextFree := nextFree[item := NULL];
      prevFree := prevFree[item := NULL];
      Frames(old(nextFree), old(prevFree), nextFree, prevFree, {item});
    }

    method RaiseMaxUsed()
      modifies this`maxUsedSize
      ensures maxUsedSize == Max(old(maxUsedSize), poolSize - availableSize)
    {
      if poolSize - availableSize > maxUsedSize {
        maxUsedSize := poolSize - availableSize;
      }
    }

    /** Free block k serves a request: cut or taken whole, off the free list, accounted for. */
    method Serve(item: int, freeSize: int, size: int, ghost k: nat)
      requires Valid() && k < |blocks| && blocks[k].off == item && !blocks[k].used && freeSize == Size(blocks[k])
      requires MINI <= size <= freeSize && size % 4 == 0
      modifies this
      ensures Valid()
      ensures Contents() == old(Contents()).With(TakeBlocks(old(blocks), k, size), TakeFree(old(blocks), old(free), k, size))
    {
      ghost var target := Contents().With(TakeBlocks(blocks, k, size), TakeFree(blocks, free, k, size));
      TakeParts(Contents(), k, size);
      ServeItem(item, freeSize, size, k);
      assert blocks == target.blocks && free == target.free;
      assert Contents() == target;
    }

    method ServeItem(item: int, freeSize: int, size: int, ghost k: nat)
      requires Rep() && k < |blocks| && blocks[k].off == item && 0 <= item && item in free && item !in Unlinked(free, item)
      requires freeSize == Size(blocks[k]) && MINI <= size
      requires freeSize >= size + ITEM + MINI ==> (item + ITEM + size) % 4 == 0 && item + ITEM + size !in Unlinked(free, item)
      modifies this
      ensures Rep() && blocks == TakeBlocks(old(blocks), k, size) && free == TakeFree(old(blocks), old(free), k, size)
      ensures availableSize == old(availableSize) - if freeSize >= size + ITEM + MINI then size + ITEM else freeSize
      ensures maxUsedSize == Max(old(maxUsedSize), poolSize - availableSize)
    {
      if freeSize >= size + ITEM + MINI {
        ServeCut(item, size, k);
      } else {
        ServeWhole(item, freeSize, k);
      }
    }

    method ServeCut(item: int, size: int, ghost k: nat)
      requires Rep() && k < |blocks| && blocks[k].off == item && 0 <= item && item in free && item !in Unlinked(free, item)
      requires MINI <= size && size + ITEM + MINI <= Size(blocks[k])
      requires (item + ITEM + size) % 4 == 0 && item + ITEM + size !in Unlinked(free, item)
      modifies this
      ensures Rep() && availableSize == old(availableSize) - size - ITEM
      ensures maxUsedSize == Max(old(maxUsedSize), poolSize - availableSize)
      ensures blocks == Split(old(blocks), k, item + ITEM + size)
      ensures free == [item + ITEM + size] + Unlinked(old(free), item)
    {
      var q := item + ITEM + size;
      SplitAt(item, q, k);
      UnlinkFree(item);
      ClearLinks(item);
      PushFree(q);
      availableSize := availableSize - size - ITEM;
      RaiseMaxUsed();
    }

    method ServeWhole(item: int, freeSize: int, ghost k: nat)
      requires Rep() && k < |blocks| && blocks[k].off == item && 0 <= item && item in free && item !in Unlinked(free, item)
      modifies this
      ensures Rep() && availableSize == old(availableSize) - freeSize
      ensures maxUsedSize == Max(old(maxUsedSize), poolSize - availableSize)
      ensures blocks == SetUsed(old(blocks), k, true)
      ensures free == Unlinked(old(free), item)
    {
      availableSize := availableSize - freeSize;
      RaiseMaxUsed();
      UnlinkFree(item);
      ClearLinks(item);
      Mark(item, true, k);
    }

    /** rt_memheap_alloc */
    method Alloc(request: USize) returns (ptr: Ptr)
      requires Valid()
      modifies this
      ensures Valid() && Contents() == MemHeapSpec.Alloc(old(Contents()), request).0
      ensures ptr == MemHeapSpec.Alloc(old(Contents()), request).1
    {
      Laws.RoundedIsAligned(request);
      var size := AlignUp(request);
      if size < MINI {
        size := MINI;
      }
      if size < availableSize {
        var item, freeSize, k := Search(size);
        if freeSize >= size {
          Serve(item, freeSize, size, k);
          return At(item + ITEM);
        }
      }
      return Null;
    }

    /** A free block absorbs its right neighbour when that is free too. */
    method MergeRight(item: int, ghost k: nat)
      requires Rep() && k < |blocks| && blocks[k].off == item && !blocks[k].used
      requires k + 1 < |blocks| && !blocks[k + 1].used ==> blocks[k + 1].off in free
      modifies this`next, this`prev, this`nextFree, this`prevFree, this`blocks, this`free, this`availableSize
      ensures Rep() && blocks == PlugForward(old(blocks), k)
      ensures free == (if k + 1 < |old(blocks)| && !old(blocks)[k + 1].used then Unlinked(old(free), old(blocks)[k + 1].off) else old(free))
      ensures availableSize == old(availableSize) + (if k + 1 < |old(blocks)| && !old(blocks)[k + 1].used then ITEM else 0)
    {
      var n := NextOf(item, k);
      if !used[n] {
        availableSize := availableSize + ITEM;
        JoinNext(item, n, k);
        UnlinkFree(n);
      }
    }

    /** A freed block is absorbed by its left neighbour when that is free. */
    method MergeLeft(item: int, ghost k: nat) returns (header: int, insertHeader: bool, ghost j: nat)
      requires Rep() && k < |blocks| && blocks[k].off == item && !blocks[k].used
      modifies this`next, this`prev, this`blocks, this`availableSize
      ensures Rep() && blocks == PlugBackward(old(blocks), k)
      ensures insertHeader <==> !(k > 0 && !old(blocks)[k - 1].used)
      ensures availableSize == old(availableSize) + (if insertHeader then 0 else ITEM)
      ensures j == (if insertHeader then k else k - 1) && j < |blocks| && blocks[j].off == header && !blocks[j].used
    {
      var p := PrevOf(item, k);
      header, insertHeader, j := item, true, k;
      if !used[p] {
        availableSize := availableSize + ITEM;
        JoinNext(p, item, k - 1);
        header, insertHeader, j := p, false, k - 1;
      }
    }

    /** rt_memheap_free: merge to the left, then to the right, then enter the free list unless the
        left neighbour is already there. */
    method Free(ptr: Ptr)
      requires Valid() && (ptr.At? ==> Contents().Live(ptr.off))
      modifies this
      ensures Valid() && Contents() == MemHeapSpec.Free(old(Contents()), ptr)
    {
      if ptr == Null {
        return;
      }
      ghost var k := FreeStep(Contents(), ptr.off);
      FreeItem(ptr.off - ITEM, k);
    }

    method FreeItem(item: int, ghost k: nat)
      requires Rep() && k < |blocks| && blocks[k].off == item && 0 <= item
      requires k + 1 < |blocks| && !blocks[k + 1].used ==> blocks[k + 1].off in free
      requires item !in WithoutRight(blocks, free, k)
      modifies this
      ensures Rep() && blocks == FreeAt(old(blocks), k) && free == FreeList(old(blocks), old(free), k)
      ensures maxUsedSize == old(maxUsedSize)
      ensures availableSize == old(availableSize) + Freed(old(blocks), k)
    {
      var n := NextOf(item, k);
      Mark(item, false, k);
      availableSize := availableSize + (n - item - ITEM);
      Reinsert(item, k);
    }

    method Reinsert(item: int, ghost k: nat)
      requires Rep() && k < |blocks| && blocks[k].off == item && 0 <= item && !blocks[k].used
      requires k + 1 < |blocks| && !blocks[k + 1].used ==> blocks[k + 1].off in free
      requires item !in WithoutRight(blocks, free, k)
      modifies this
      ensures Rep() && blocks == Plug(old(blocks), k) && free == FreeList(old(blocks), old(free), k)
      ensures maxUsedSize == old(maxUsedSize)
      ensures availableSize == old(availableSize) + Freed(old(blocks), k) - Size(old(blocks)[k])
    {
      MergeOrder(blocks, k);
      var header, insertHeader, j := MergeLeft(item, k);
      MergeRight(header, j);
      if insertHeader {
        PushFree(header);
      }
    }

    /** The in-place growth of rt_memheap_realloc: the free item to the right moves up. */
    method GrowItem(item: int, n: int, size: USize, ghost k: nat)
      requires Valid() && k + 1 < |blocks| && blocks[k].off == item && blocks[k + 1].off == n && blocks[k].used
      requires Size(blocks[k]) < size && size % 4 == 0 && size + MINI < WORD_RANGE && CanExtend(blocks, k, size)
      modifies this
      ensures Valid() && Contents() == Grow(old(Contents()), k, size)
    {
      assert Grow(Contents(), k, size) == GrowAt(Contents(), k, item + ITEM + size);
      Laws.GrowExtends(Contents(), k, size);
      GrowTo(item, n, size, k);
    }

    method GrowTo(item: int, n: int, size: int, ghost k: nat)
      requires Valid() && k < |blocks| && blocks[k].off == item && Laws.Extends(blocks, k, item + ITEM + size) && blocks[k + 1].off == n
      modifies this
      ensures Valid() && Contents() == GrowAt(old(Contents()), k, item + ITEM + size)
    {
      ghost var q := item + ITEM + size;
      ghost var target := GrowAt(Contents(), k, q);
      assert target.Inv() by { Laws.GrowAtKeeps(Contents(), k, q); }
      GrowParts(Contents(), k, q);
      assert Split(Join(blocks, k), k, q) == target.blocks by { JoinThenSplit(blocks, k, q); }
      MoveBoundary(item, n, size, k);
      assert blocks == target.blocks && free == target.free && availableSize == FreeBytes(target.blocks);
      assert Contents() == target;
    }

    method MoveBoundary(item: int, n: int, size: int, ghost k: nat)
      requires Rep() && k + 1 < |blocks| && blocks[k].off == item && blocks[k + 1].off == n && n in free && 0 <= item
      requires var q := item + ITEM + size;
        item + HDR <= q && q + HDR <= blocks[k + 1].next && q % 4 == 0 && q !in Unlinked(free, n)
      modifies this
      ensures Rep() && availableSize == old(availableSize) - (size - (n - item - ITEM))
      ensures maxUsedSize == Max(old(maxUsedSize), poolSize - availableSize)
      ensures blocks == Split(Join(old(blocks), k), k, item + ITEM + size)
      ensures free == [item + ITEM + size] + Unlinked(old(free), n)
    {
      var oldsize := n - item - ITEM;
      availableSize := availableSize - (size - oldsize);
      RaiseMaxUsed();
      UnlinkFree(n);
      JoinNext(item, n, k);
      var q := item + ITEM + size;
      SplitAt(item, q, k);
      PushFree(q);
    }

    /** The shrink of rt_memheap_realloc: the rest becomes a free item and joins a free neighbour. */
    method ShrinkItem(item: int, size: USize, ghost k: nat)
      requires Valid() && k < |blocks| && blocks[k].off == item && blocks[k].used
      requires size % 4 == 0 && MINI <= size && size + ITEM + MINI < Size(blocks[k])
      modifies this
      ensures Valid() && Contents() == Shrink(old(Contents()), k, size)
    {
      var q := item + ITEM + size;
      assert Shrink(Contents(), k, size) == CutAt(Contents(), k, q);
      Laws.ShrinkCuts(Contents(), k, size);
      CutTo(item, q, k);
    }

    method CutTo(item: int, q: int, ghost k: nat)
      requires Valid() && k < |blocks| && blocks[k].off == item && Laws.Cuts(blocks, k, q)
      modifies this
      ensures Valid() && Contents() == CutAt(old(Contents()), k, q)
    {
      ghost var target := CutAt(Contents(), k, q);
      assert target.Inv() by { Laws.CutKeeps(Contents(), k, q); }
      CutParts(Contents(), k, q);
      CutOff(item, q, k);
      assert blocks == target.blocks && free == target.free && availableSize == FreeBytes(target.blocks);
      assert Contents() == target;
    }

    method CutOff(item: int, q: int, ghost k: nat)
      requires Rep() && k < |blocks| && blocks[k].off == item && 0 <= item
      requires item + HDR <= q && q + HDR <= blocks[k].next && q % 4 == 0
      requires k + 1 < |blocks| && !blocks[k + 1].used ==> blocks[k + 1].off in free
      requires q !in WithoutRight(blocks, free, k)
      modifies this
      ensures Rep() && blocks == PlugForward(Split(old(blocks), k, q), k + 1)
      ensures free == [q] + WithoutRight(old(blocks), old(free), k)
      ensures maxUsedSize == old(maxUsedSize)
      ensures availableSize == old(availableSize) + (old(blocks)[k].next - q - ITEM)
        + (if k + 1 < |old(blocks)| && !old(blocks)[k + 1].used then ITEM else 0)
    {
      CutNext(blocks, Tailer(), k, q);
      CutRest(item, q, k);
      PushFree(q);
      var m := NextOf(q, k + 1);
      availableSize := availableSize + (m - q - ITEM);
    }

    /** The new header, with its free right neighbour joined to it. */
    method CutRest(item: int, q: int, ghost k: nat)
      requires Rep() && k < |blocks| && blocks[k].off == item && 0 <= item
      requires item + HDR <= q && q + HDR <= blocks[k].next && q % 4 == 0
      requires k + 1 < |blocks| && !blocks[k + 1].used ==> blocks[k + 1].off in free
      modifies this
      ensures Rep() && blocks == PlugForward(Split(old(blocks), k, q), k + 1)
      ensures free == WithoutRight(old(blocks), old(free), k)
      ensures maxUsedSize == old(maxUsedSize)
      ensures availableSize == old(availableSize)
        - (if k + 1 < |old(blocks)| && !old(blocks)[k + 1].used then Size(old(blocks)[k + 1]) else 0)
    {
      ghost var bs := blocks;
      SplitAt(item, q, k);
      assert k + 1 < |bs| ==> blocks[k + 2] == bs[k + 1];
      TakeRight(q, k + 1);
    }

    /** A free right neighbour leaves the free list and becomes part of the item. */
    method TakeRight(item: int, ghost k: nat)
      requires Rep() && k < |blocks| && blocks[k].off == item
      requires k + 1 < |blocks| && !blocks[k + 1].used ==> blocks[k + 1].off in free
      modifies this
      ensures Rep() && blocks == PlugForward(old(blocks), k) && free == WithoutRight(old(blocks), old(free), k)
      ensures maxUsedSize == old(maxUsedSize)
      ensures availableSize == old(availableSize)
        - (if k + 1 < |old(blocks)| && !old(blocks)[k + 1].used then Size(old(blocks)[k + 1]) else 0)
    {
      var n := NextOf(item, k);
      if !used[n] {
        var m := NextOf(n, k + 1);
        availableSize := availableSize - (m - n - ITEM);
        JoinNext(item, n, k);
        UnlinkFree(n);
      }
    }

    /** rt_memheap_realloc, unless it grows a block in place on a guard that has wrapped. */
    method Realloc(ptr: Ptr, newsize: USize) returns (q: Ptr)
      requires Valid() && (ptr.At? ==> Contents().Live(ptr.off)) && ReallocFits(Contents(), ptr, newsize)
      modifies this
      ensures Valid() && Contents() == MemHeapSpec.Realloc(old(Contents()), ptr, newsize).0
      ensures q == MemHeapSpec.Realloc(old(Contents()), ptr, newsize).1
    {
      if newsize == 0 {
        Free(ptr);
        return Null;
      }
      Laws.RoundedIsAligned(newsize);
      var size := AlignUp(newsize);
      if size < MINI {
        size := MINI;
      }
      if ptr == Null {
        q := Alloc(size);
        return;
      }
      ghost var k := Laws.LiveIndex(Contents(), ptr.off);
      q := ResizeItem(ptr.off, size, k);
    }

    method ResizeItem(ptr: int, size: USize, ghost k: nat) returns (q: Ptr)
      requires Valid() && k < |blocks| && blocks[k].used && blocks[k].off + ITEM == ptr
      requires size % 4 == 0 && MINI <= size && GrowthFits(Contents(), k, size)
      modifies this
      ensures Valid() && (Contents(), q) == Resize(old(Contents()), k, size)
    {
      var item := ptr - ITEM;
      var n := NextOf(item, k);
      var oldsize := n - item - ITEM;
      if size > oldsize {
        q := ExtendItem(ptr, n, size, k);
        return;
      }
      if size + ITEM + MINI >= oldsize {
        return At(ptr);
      }
      ShrinkItem(item, size, k);
      return At(ptr);
    }

    /** The part of rt_memheap_realloc for a larger size: in place if the right neighbour gives way. */
    method ExtendItem(ptr: int, n: int, size: USize, ghost k: nat) returns (q: Ptr)
      requires Valid() && k < |blocks| && blocks[k].used && blocks[k].off + ITEM == ptr && blocks[k].next == n
      requires k + 1 < |blocks| ==> blocks[k + 1].off == n
      requires n in used && (used[n] <==> !(k + 1 < |blocks| && !blocks[k + 1].used))
      requires size % 4 == 0 && MINI <= size && Size(blocks[k]) < size && GrowthFits(Contents(), k, size)
      modifies this
      ensures Valid() && (Contents(), q) == Resize(old(Contents()), k, size)
    {
      var extend := CanGrow(ptr, n, size, k);
      if extend {
        GrowItem(ptr - ITEM, n, size, k);
        return At(ptr);
      }
      q := MoveItem(ptr, size, k);
    }

    /** The guard of the growth: the right neighbour is free, and it and the item have the room. */
    method CanGrow(ptr: int, n: int, size: USize, ghost k: nat) returns (ok: bool)
      requires Rep() && k < |blocks| && blocks[k].off + ITEM == ptr && blocks[k].next == n
      requires k + 1 < |blocks| ==> blocks[k + 1].off == n
      requires n in used && (used[n] <==> !(k + 1 < |blocks| && !blocks[k + 1].used))
      ensures ok == CanExtend(blocks, k, size)
    {
      if used[n] {
        return false;
      }
      var m := NextOf(n, k + 1);
      return m - n - ITEM + (n - ptr) > Wrap(size + MINI);
    }

    /** Allocate, copy (the payload bytes are not modelled) and free. */
    method MoveItem(ptr: int, size: USize, ghost k: nat) returns (q: Ptr)
      requires Valid() && k < |blocks| && blocks[k].used && blocks[k].off + ITEM == ptr
      requires size % 4 == 0 && MINI <= size
      modifies this
      ensures Valid() && (Contents(), q) == Move(old(Contents()), ptr, size)
    {
      ghost var b := blocks[k];
      assert b in Allocated(blocks);
      ghost var c := Laws.AllocKeeps(Contents(), size);
      q := Alloc(size);
      if q.At? {
        assert b in Allocated(blocks);
        Free(At(ptr));
      }
    }
  }

  lemma RingOfOne(nx: Links, pv: Links, h: int, x: int)
    requires h != x && Edge(nx, pv, h, x) && Edge(nx, pv, x, h)
    ensures Ring(nx, pv, h, [x])
  {
    assert [x][1..] == [];
  }

  lemma FlagsOfJoin(used: map<int, bool>, bs: seq<Block>, k: nat)
    requires Flags(used, bs) && k + 1 < |bs|
    ensures Flags(used, Join(bs, k))
  {
    assert bs[k] in bs;
  }

  /** What the two ways of serving a request do to the lists and to the available bytes. */
  lemma TakeParts(p: Pool, k: nat, size: int)
    requires p.Inv() && k < |p.blocks| && !p.blocks[k].used && MINI <= size <= Size(p.blocks[k]) && size % 4 == 0
    ensures p.With(TakeBlocks(p.blocks, k, size), TakeFree(p.blocks, p.free, k, size)).Inv()
    ensures var b := p.blocks[k]; var q := b.off + ITEM + size;
      && b.off in p.free && b.off !in Unlinked(p.free, b.off) && 0 <= b.off
      && (if Size(b) >= size + ITEM + MINI
          then q % 4 == 0 && q !in Unlinked(p.free, b.off) && FreeBytes(TakeBlocks(p.blocks, k, size)) == p.Avail() - size - ITEM
          else FreeBytes(TakeBlocks(p.blocks, k, size)) == p.Avail() - Size(b))
  {
    var b := p.blocks[k];
    BlockInChain(p.blocks, k, p.Tailer());
    assert b in p.blocks && b.off in FreeOffs(p.blocks);
    UnlinkedMeaning(p.free, b.off);
    if Size(b) >= size + ITEM + MINI {
      Laws.Sum8(b.off, size);
      TakeCut(p, k, b.off + ITEM + size);
    } else {
      Laws.TakeWhole(p, k);
    }
  }

  lemma TakeCut(p: Pool, k: nat, q: int)
    requires p.Inv() && k < |p.blocks| && !p.blocks[k].used && q % 4 == 0
    requires p.blocks[k].off + ITEM + MINI <= q && q + ITEM + MINI <= p.blocks[k].next
    ensures p.With(Split(p.blocks, k, q), [q] + Unlinked(p.free, p.blocks[k].off)).Inv() && q !in Unlinked(p.free, p.blocks[k].off)
    ensures FreeBytes(Split(p.blocks, k, q)) == p.Avail() - (q - p.blocks[k].off)
  {
    Laws.TakeSplit(p, k, q);
    UnlinkedMeaning(p.free, p.blocks[k].off);
    NotFreeInside(p.blocks, p.Tailer(), k, q);
  }

  /** What a free does to the available bytes, and what it finds in the free list. */
  lemma FreeParts(p: Pool, k: nat)
    requires p.Inv() && k < |p.blocks| && p.blocks[k].used
    ensures var bs := p.blocks;
      && FreeBytes(FreeAt(bs, k)) == p.Avail() + Freed(bs, k)
      && (k + 1 < |bs| && !bs[k + 1].used ==> bs[k + 1].off in p.free) && bs[k].off !in WithoutRight(bs, p.free, k) && 0 <= bs[k].off
  {
    var bs, end := p.blocks, p.Tailer();
    var fs := SetUsed(bs, k, false);
    BlockInChain(bs, k, end);
    SetUsedPool(bs, end, k, false);
    PlugForwardPool(fs, end, k);
    PlugBackwardPool(PlugForward(fs, k), end, k);
    NotFreeAt(bs, end, k);
    if k + 1 < |bs| && !bs[k + 1].used {
      assert bs[k + 1] in bs && bs[k + 1].off in FreeOffs(bs);
      UnlinkedMeaning(p.free, bs[k + 1].off);
    }
  }

  lemma FreeStep(p: Pool, ptr: int) returns (k: nat)
    requires p.Inv() && p.Live(ptr)
    ensures k < |p.blocks| && p.blocks[k].off + ITEM == ptr && ITEM <= ptr
    ensures MemHeapSpec.Free(p, At(ptr)) == p.(blocks := FreeAt(p.blocks, k), free := FreeList(p.blocks, p.free, k))
    ensures MemHeapSpec.Free(p, At(ptr)).Inv()
    ensures FreeBytes(FreeAt(p.blocks, k)) == p.Avail() + Freed(p.blocks, k)
    ensures k + 1 < |p.blocks| && !p.blocks[k + 1].used ==> p.blocks[k + 1].off in p.free
    ensures p.blocks[k].off !in WithoutRight(p.blocks, p.free, k)
  {
    k := Laws.LiveIndex(p, ptr);
    FreeParts(p, k);
    assert MemHeapSpec.Free(p, At(ptr)).Inv() by { Laws.FreeKeeps(p, k); }
  }

  /** The payload of the freed block, and one header for each merge. */
  function Freed(bs: seq<Block>, k: nat): int
    requires k < |bs|
  {
    Size(bs[k]) + (if k > 0 && !bs[k - 1].used then ITEM else 0) + (if k + 1 < |bs| && !bs[k + 1].used then ITEM else 0)
  }

  /** Merging left first or right first gives the same list. */
  lemma MergeOrder(fs: seq<Block>, k: nat)
    requires k < |fs| && !fs[k].used
    ensures PlugForward(PlugBackward(fs, k), if k > 0 && !fs[k - 1].used then k - 1 else k) == Plug(fs, k)
  {
    if k > 0 && !fs[k - 1].used && k + 1 < |fs| && !fs[k + 1].used {
      JoinTwice(fs, k - 1);
    }
  }

  lemma JoinTwice(fs: seq<Block>, k: nat)
    requires k + 2 < |fs|
    ensures Join(Join(fs, k), k) == Join(Join(fs, k + 1), k)
  {
    var b := fs[k].(next := fs[k + 2].next);
    assert Join(Join(fs, k), k) == fs[..k] + [b] + fs[k + 3..];
    assert Join(Join(fs, k + 1), k) == fs[..k] + [b] + fs[k + 3..];
  }

  lemma GrowParts(p: Pool, k: nat, q: int)
    requires p.Inv() && Laws.Extends(p.blocks, k, q)
    ensures p.blocks[k + 1].off in p.free && q !in Unlinked(p.free, p.blocks[k + 1].off)
    ensures FreeBytes(Extend(p.blocks, k, q)) == p.Avail() - (q - p.blocks[k].next)
  {
    assert p.blocks[k + 1] in p.blocks && p.blocks[k + 1].off in FreeOffs(p.blocks);
    UnlinkedMeaning(p.free, p.blocks[k + 1].off);
    NotFreeInside(p.blocks, p.Tailer(), k + 1, q);
    ExtendPool(p.blocks, p.Tailer(), k, q);
  }

  /** Joining the two and cutting at q is moving the boundary to q. */
  lemma JoinThenSplit(bs: seq<Block>, k: nat, q: int)
    requires Laws.Extends(bs, k, q)
    ensures Split(Join(bs, k), k, q) == Extend(bs, k, q)
  {
  }

  /** The rest of block k after a cut at q that joins a free right neighbour. */
  lemma CutNext(bs: seq<Block>, end: int, k: nat, q: int)
    requires Chain(bs, 0, end) && k < |bs|
    ensures var r := PlugForward(Split(bs, k, q), k + 1);
      && k + 1 < |r| && r[k + 1].off == q
      && r[k + 1].next == bs[k].next + if k + 1 < |bs| && !bs[k + 1].used then ITEM + Size(bs[k + 1]) else 0
  {
    BlockInChain(bs, k, end);
    assert k + 1 < |bs| ==> Split(bs, k, q)[k + 2] == bs[k + 1];
  }

  lemma CutParts(p: Pool, k: nat, q: int)
    requires p.Inv() && Laws.Cuts(p.blocks, k, q)
    ensures var b := p.blocks[k]; var right := k + 1 < |p.blocks| && !p.blocks[k + 1].used;
      && q !in WithoutRight(p.blocks, p.free, k) && (right ==> p.blocks[k + 1].off in p.free)
      && FreeBytes(CutAt(p, k, q).blocks) == p.Avail() + (b.next - q - ITEM) + (if right then ITEM else 0)
  {
    NotFreeInside(p.blocks, p.Tailer(), k, q);
    SplitPool(p.blocks, p.Tailer(), k, q);
    PlugForwardPool(Split(p.blocks, k, q), p.Tailer(), k + 1);
    if k + 1 < |p.blocks| && !p.blocks[k + 1].used {
      assert p.blocks[k + 1] in p.blocks && p.blocks[k + 1].off in FreeOffs(p.blocks);
      UnlinkedMeaning(p.free, p.blocks[k + 1].off);
    }
  }
}
