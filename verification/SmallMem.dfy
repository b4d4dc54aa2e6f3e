/** mem.c itself: block headers and payloads share one memory, changed in place. */
module SmallMem {
  import opened RtDef
  import opened BlockList
  import opened SmallMemSpec
  import Laws = SmallMemLaws

  /** The first word of a header: HEAP_MAGIC in the low half, `used` in the high half. */
  const FREE_WORD: int := 0x1ea0
  const USED_WORD: int := 0x11ea0

  function Flag(used: bool): int {
    if used then USED_WORD else FREE_WORD
  }

  predicate UsedWord(w: int) {
    w / 0x10000 != 0
  }

  /** The words of memory h hold the headers of the blocks: flag, `next`, `prev`. */
  ghost predicate Rep(h: seq<int>, bs: seq<Block>, prev: int) {
    bs != [] ==>
      && 0 <= bs[0].off && bs[0].off + HDR <= |h|
      && h[bs[0].off] == Flag(bs[0].used) && h[bs[0].off + 4] == bs[0].next && h[bs[0].off + 8] == prev
      && Rep(h, bs[1..], bs[0].off)
  }

  function PrevAt(bs: seq<Block>, k: nat): int
    requires k <= |bs|
  {
    if k == 0 then 0 else bs[k - 1].off
  }

  /** No word of the payload of b has changed. */
  ghost predicate PayloadKept(h: seq<int>, h': seq<int>, b: Block) {
    |h| == |h'| && 0 <= b.off && b.next <= |h| && forall a :: b.off + HDR <= a < b.next ==> h'[a] == h[a]
  }

  /** No word of the payload of a block allocated in bs has changed. */
  ghost predicate AllKept(h: seq<int>, h': seq<int>, bs: seq<Block>) {
    forall b :: b in Allocated(bs) ==> PayloadKept(h, h', b)
  }

  // ----- headers in pieces -----

  lemma {:induction false} RepCut(h: seq<int>, bs: seq<Block>, prev: int, k: nat)
    requires Rep(h, bs, prev) && k <= |bs|
    ensures Rep(h, bs[..k], prev) && Rep(h, bs[k..], if k == 0 then prev else bs[k - 1].off)
  {
    if k == 0 {
      assert bs[k..] == bs;
    } else {
      RepCut(h, bs[1..], bs[0].off, k - 1);
      assert bs[..k][1..] == bs[1..][..k - 1] && bs[1..][k - 1..] == bs[k..];
    }
  }

  lemma {:induction false} RepAppend(h: seq<int>, a: seq<Block>, b: seq<Block>, prev: int)
    requires Rep(h, a, prev) && Rep(h, b, if a == [] then prev else a[|a| - 1].off)
    ensures Rep(h, a + b, prev)
  {
    if a == [] {
      assert a + b == b;
    } else {
      RepAppend(h, a[1..], b, a[0].off);
      assert (a + b)[1..] == a[1..] + b;
    }
  }

  lemma {:induction false} RepFrame(h: seq<int>, h': seq<int>, bs: seq<Block>, prev: int, start: int, end: int)
    requires Rep(h, bs, prev) && Chain(bs, start, end) && 0 <= start && end <= |h| <= |h'|
    requires forall a :: start <= a < end ==> h'[a] == h[a]
    ensures Rep(h', bs, prev)
  {
    if bs != [] {
      ChainOrder(bs[1..], bs[0].next, end);
      RepFrame(h, h', bs[1..], bs[0].off, bs[0].next, end);
    }
  }

  /** The header of block k, read from memory. */
  lemma HeaderAt(h: seq<int>, bs: seq<Block>, k: nat)
    requires Rep(h, bs, 0) && k < |bs|
    ensures 0 <= bs[k].off && bs[k].off + HDR <= |h|
    ensures h[bs[k].off] == Flag(bs[k].used) && h[bs[k].off + 4] == bs[k].next && h[bs[k].off + 8] == PrevAt(bs, k)
  {
    RepCut(h, bs, 0, k);
    assert bs[k..][0] == bs[k];
  }

  /** Writing the headers of `mid` over the stretch k..m, and the `prev` word after it, is enough
      to represent the list with the stretch exchanged. */
  lemma RepExchange(h: seq<int>, h': seq<int>, bs: seq<Block>, k: nat, m: nat, mid: seq<Block>, end: int)
    requires Rep(h, bs, 0) && Chain(bs, 0, end) && k <= m <= |bs| && mid != [] && |h| == |h'| && end <= |h|
    requires Rep(h', mid, PrevAt(bs, k)) && Same(h, h', 0, OffAt(bs, k, end))
    requires SameButPrev(h, h', bs, m, mid[|mid| - 1].off, end)
    ensures Rep(h', bs[..k] + mid + bs[m..], 0)
  {
    assert Rep(h', bs[..k], 0) by { RepHead(h, h', bs, k, end); }
    assert Rep(h', bs[m..], mid[|mid| - 1].off) by { RepTail(h, h', bs, m, mid[|mid| - 1].off, end); }
    RepGlue(h', bs[..k], mid, bs[m..]);
  }

  ghost predicate Same(h: seq<int>, h': seq<int>, lo: int, hi: int) {
    0 <= lo && hi <= |h| == |h'| && forall a :: lo <= a < hi ==> h'[a] == h[a]
  }

  /** From block m on only the `prev` word of block m may differ; it now is `prev`. */
  ghost predicate SameButPrev(h: seq<int>, h': seq<int>, bs: seq<Block>, m: nat, prev: int, end: int)
    requires m <= |bs|
  {
    m < |bs| ==>
      && 0 <= bs[m].off && bs[m].off + HDR <= |h| == |h'|
      && h'[bs[m].off] == h[bs[m].off] && h'[bs[m].off + 4] == h[bs[m].off + 4] && h'[bs[m].off + 8] == prev
      && Same(h, h', bs[m].next, end)
  }

  lemma RepGlue(h: seq<int>, a: seq<Block>, b: seq<Block>, c: seq<Block>)
    requires Rep(h, a, 0) && b != [] && Rep(h, b, PrevAt(a, |a|)) && Rep(h, c, b[|b| - 1].off)
    ensures Rep(h, a + b + c, 0)
  {
    RepAppend(h, a, b, 0);
    RepAppend(h, a + b, c, 0);
  }

  lemma RepHead(h: seq<int>, h': seq<int>, bs: seq<Block>, k: nat, end: int)
    requires Rep(h, bs, 0) && Chain(bs, 0, end) && k <= |bs| && |h| == |h'|
    requires Same(h, h', 0, OffAt(bs, k, end))
    ensures Rep(h', bs[..k], 0)
  {
    ChainCut(bs, 0, end, k);
    RepCut(h, bs, 0, k);
    RepFrame(h, h', bs[..k], 0, 0, OffAt(bs, k, end));
  }

  lemma RepTail(h: seq<int>, h': seq<int>, bs: seq<Block>, m: nat, prev: int, end: int)
    requires Rep(h, bs, 0) && Chain(bs, 0, end) && m <= |bs| && |h| == |h'| && end <= |h|
    requires SameButPrev(h, h', bs, m, prev, end)
    ensures Rep(h', bs[m..], prev)
  {
    if m < |bs| {
      ChainCut(bs, 0, end, m + 1);
      BlockInChain(bs, m, end);
      RepCut(h, bs, 0, m + 1);
      RepFrame(h, h', bs[m + 1..], bs[m].off, bs[m].next, end);
      HeaderAt(h, bs, m);
      assert bs[m..][1..] == bs[m + 1..] && bs[m..][0] == bs[m];
    }
  }

  lemma RepPair(h: seq<int>, a: Block, b: Block, prev: int)
    requires 0 <= a.off && a.off + HDR <= |h| && h[a.off] == Flag(a.used) && h[a.off + 4] == a.next && h[a.off + 8] == prev
    ensures Rep(h, [a], prev)
    ensures 0 <= b.off && b.off + HDR <= |h| && h[b.off] == Flag(b.used) && h[b.off + 4] == b.next && h[b.off + 8] == a.off
      ==> Rep(h, [a, b], prev)
  {
    assert [a][1..] == [] && [a, b][1..] == [b] && [b][1..] == [];
  }

  class Heap {
    /** heap_ptr, the aligned begin address; all offsets are relative to it. */
    const base: int
    const memSizeAligned: int
    /** heap[a] is the word at byte offset a; words live at multiples of four. */
    var heap: array<int>
    var lfree: int
    var usedMem: int
    var maxMem: int
    ghost var blocks: seq<Block>

    ghost function Contents(): State
      reads this
    {
      State(memSizeAligned, blocks, maxMem)
    }

    /** rt_system_heap_init, once the region has been found large enough: one free block and the
        end header. */
    constructor (base: int, memSize: int)
      requires 0 <= memSize && memSize % 4 == 0
      ensures Valid() && Contents() == Laws.Initial(memSize)
      ensures this.base == base && fresh(heap) && lfree == 0 && usedMem == 0
    {
      this.base := base;
      memSizeAligned := memSize;
      heap := new int[memSize + 2 * HDR];
      lfree, usedMem, maxMem := 0, 0, 0;
      blocks := [Block(0, memSize + HDR, false)];
      new;
      heap[0] := FREE_WORD;
      heap[4] := memSize + HDR;
      heap[8] := 0;
      heap[memSize + HDR] := USED_WORD;
      heap[memSize + HDR + 4] := memSize + HDR;
      heap[memSize + HDR + 8] := memSize + HDR;
      Laws.InitialInv(memSize);
      RepPair(heap[..], blocks[0], blocks[0], 0);
    }

    function HeapEnd(): int {
      memSizeAligned + HDR
    }

    /** Everything but the absence of free neighbours and the two derived variables. */
    ghost predicate Shape()
      reads this, heap
    {
      && 0 <= memSizeAligned && heap.Length == memSizeAligned + 2 * HDR
      && Chain(blocks, 0, HeapEnd()) && Rep(heap[..], blocks, 0)
      && heap[HeapEnd()] == USED_WORD && heap[HeapEnd() + 4] == HeapEnd()
    }

    ghost predicate Valid()
      reads this, heap
    {
      && Shape() && Contents().Inv()
      && lfree == LowestFree(blocks, HeapEnd()) && usedMem == UsedSum(blocks)
    }

    /** The memory words of two adjacent holes are merged: block k takes over block k + 1. */
    method JoinNext(mem: int, nmem: int, ghost k: nat)
      requires Shape() && k + 1 < |blocks| && blocks[k].off == mem && blocks[k + 1].off == nmem
      requires !blocks[k].used && !blocks[k + 1].used
      modifies heap, this`blocks
      ensures Shape() && blocks == Join(old(blocks), k)
      ensures AllKept(old(heap[..]), heap[..], old(blocks))
    {
      ghost var h, bs, end := heap[..], blocks, HeapEnd();
      HeaderAt(h, bs, k);
      HeaderAt(h, bs, k + 1);
      BlockInChain(bs, k, end);
      BlockInChain(bs, k + 1, end);
      if k + 2 < |bs| {
        BlockInChain(bs, k + 2, end);
      }
      var next := heap[nmem + 4];
      heap[mem + 4] := next;
      heap[next + 8] := mem;
      JoinRep(h, heap[..], bs, end, k);
      JoinKeeps(bs, end, k);
      JoinKept(h, heap[..], bs, end, k);
      blocks := Join(bs, k);
    }

    /** plug_holes: a free block is merged with its free neighbours. */
    method PlugHoles(mem: int, ghost k: nat)
      requires Shape() && k < |blocks| && blocks[k].off == mem && !blocks[k].used
      requires NoFreeNeighbours(blocks[..k]) && NoFreeNeighbours(blocks[k + 1..])
      requires lfree == LowestFree(blocks, HeapEnd())
      modifies heap, this`blocks, this`lfree
      ensures Shape() && blocks == Plug(old(blocks), k)
      ensures lfree == LowestFree(blocks, HeapEnd())
      ensures AllKept(old(heap[..]), heap[..], old(blocks))
    {
      ghost var bs := blocks;
      PlugForwardKeeps(bs, HeapEnd(), k);
      PlugHoleForward(mem, k);
      ghost var h, fs := heap[..], blocks;
      PlugHoleBackward(mem, k);
      KeptTwice(old(heap[..]), h, heap[..], bs, fs);
    }

    method PlugHoleForward(mem: int, ghost k: nat)
      requires Shape() && k < |blocks| && blocks[k].off == mem && !blocks[k].used
      requires lfree == LowestFree(blocks, HeapEnd())
      modifies heap, this`blocks, this`lfree
      ensures Shape() && blocks == PlugForward(old(blocks), k) && Allocated(blocks) == Allocated(old(blocks))
      ensures lfree == LowestFree(blocks, HeapEnd())
      ensures AllKept(old(heap[..]), heap[..], old(blocks))
    {
      var nmem := NextOf(mem, k);
      KeptSame(heap[..], blocks, HeapEnd());
      if mem != nmem && !UsedWord(heap[nmem]) && nmem != HeapEnd() {
        JoinKeeps(blocks, HeapEnd(), k);
        JoinAllocated(blocks, HeapEnd(), k);
        if lfree == nmem {
          lfree := mem;
        }
        LowestFreeBelow(blocks, HeapEnd(), k);
        JoinNext(mem, nmem, k);
      }
    }

    method PlugHoleBackward(mem: int, ghost k: nat)
      requires Shape() && k < |blocks| && blocks[k].off == mem && !blocks[k].used
      requires lfree == LowestFree(blocks, HeapEnd())
      modifies heap, this`blocks, this`lfree
      ensures Shape() && blocks == PlugBackward(old(blocks), k) && Allocated(blocks) == Allocated(old(blocks))
      ensures lfree == LowestFree(blocks, HeapEnd())
      ensures AllKept(old(heap[..]), heap[..], old(blocks))
    {
      var pmem := PrevOf(mem, k);
      KeptSame(heap[..], blocks, HeapEnd());
      if pmem != mem && !UsedWord(heap[pmem]) {
        BlockInChain(blocks, k - 1, HeapEnd());
        JoinKeeps(blocks, HeapEnd(), k - 1);
        JoinAllocated(blocks, HeapEnd(), k - 1);
        if lfree == mem {
          lfree := pmem;
        }
        LowestFreeBelow(blocks, HeapEnd(), k - 1);
        JoinNext(pmem, mem, k - 1);
      }
    }

    /** Reading `next` of block k, and what it says about the following block. */
    method NextOf(mem: int, ghost k: nat) returns (next: int)
      requires Shape() && k < |blocks| && blocks[k].off == mem
      ensures next == blocks[k].next == OffAt(blocks, k + 1, HeapEnd()) && 0 <= mem < next <= HeapEnd()
      ensures next == HeapEnd() <==> k + 1 == |blocks|
      ensures UsedWord(heap[next]) <==> k + 1 == |blocks| || blocks[k + 1].used
    {
      HeaderAt(heap[..], blocks, k);
      BlockInChain(blocks, k, HeapEnd());
      if k + 1 < |blocks| {
        HeaderAt(heap[..], blocks, k + 1);
        BlockInChain(blocks, k + 1, HeapEnd());
      }
      next := heap[mem + 4];
    }

    method PrevOf(mem: int, ghost k: nat) returns (prev: int)
      requires Shape() && k < |blocks| && blocks[k].off == mem
      ensures prev == PrevAt(blocks, k) && 0 <= prev < HeapEnd()
      ensures prev == mem <==> k == 0
      ensures UsedWord(heap[prev]) <==> blocks[if k == 0 then 0 else k - 1].used
    {
      HeaderAt(heap[..], blocks, k);
      BlockInChain(blocks, k, HeapEnd());
      if k > 0 {
        HeaderAt(heap[..], blocks, k - 1);
        BlockInChain(blocks, k - 1, HeapEnd());
      }
      prev := heap[mem + 8];
    }

    /** Cuts block k at ptr2: the upper part gets a fresh free header. The payloads of the
        resulting blocks, the lower part of block k included, are untouched. */
    method Cut(ptr: int, ptr2: int, ghost k: nat)
      requires Shape() && k < |blocks| && blocks[k].off == ptr
      requires ptr + HDR <= ptr2 && ptr2 + HDR <= blocks[k].next && ptr2 % 4 == 0
      modifies heap, this`blocks
      ensures Shape() && blocks == Split(old(blocks), k, ptr2)
      ensures AllKept(old(heap[..]), heap[..], blocks)
    {
      ghost var h, bs, end := heap[..], blocks, HeapEnd();
      SplitKeeps(bs, end, k, ptr2);
      HeaderAt(h, bs, k);
      var next := NextOf(ptr, k);
      if k + 1 < |bs| {
        BlockInChain(bs, k + 1, end);
      }
      WriteCut(ptr, ptr2, next);
      CutRep(h, heap[..], bs, end, k, ptr2);
      CutKept(h, heap[..], bs, end, k, ptr2);
      blocks := Split(bs, k, ptr2);
    }

    /** `mem->used = used`: only the flag word of block k changes. */
    method Mark(mem: int, used: bool, ghost k: nat)
      requires Shape() && k < |blocks| && blocks[k].off == mem
      modifies heap, this`blocks
      ensures Shape() && blocks == SetUsed(old(blocks), k, used)
      ensures AllKept(old(heap[..]), heap[..], old(blocks))
    {
      ghost var h, bs, end := heap[..], blocks, HeapEnd();
      HeaderAt(h, bs, k);
      BlockInChain(bs, k, end);
      if k + 1 < |bs| {
        HeaderAt(h, bs, k + 1);
        BlockInChain(bs, k + 1, end);
      }
      heap[mem] := Flag(used);
      SetUsedKeeps(bs, end, k, used);
      MarkRep(h, heap[..], bs, end, k, used);
      blocks := SetUsed(bs, k, used);
    }

    /** The loop that looks for the next free block after lfree has been taken. */
    method AdvanceLfree(ghost k: nat)
      requires Shape() && k <= |blocks| && lfree == OffAt(blocks, k, HeapEnd())
      requires forall i :: 0 <= i < k ==> blocks[i].used
      modifies this`lfree
      ensures lfree == LowestFree(blocks, HeapEnd())
    {
      ghost var i := k;
      if i < |blocks| {
        HeaderAt(heap[..], blocks, i);
        BlockInChain(blocks, i, HeapEnd());
      }
      while UsedWord(heap[lfree]) && lfree != HeapEnd()
        invariant i <= |blocks| && lfree == OffAt(blocks, i, HeapEnd()) && 0 <= lfree <= HeapEnd()
        invariant i < |blocks| ==> heap[lfree] == Flag(blocks[i].used) && lfree < HeapEnd()
        invariant forall j :: 0 <= j < i ==> blocks[j].used
        decreases |blocks| - i
      {
        var next := NextOf(lfree, i);
        lfree := next;
        i := i + 1;
        if i < |blocks| {
          HeaderAt(heap[..], blocks, i);
          BlockInChain(blocks, i, HeapEnd());
        }
      }
      if i < |blocks| {
        FirstFreeIs(blocks, i);
      }
    }

    /** Block k is split or taken whole, and accounted for. */
    method TakeBlock(ptr: int, size: int, ghost k: nat)
      requires Valid() && k < |blocks| && blocks[k].off == ptr && Fits(blocks[k], size)
      requires MIN_SIZE <= size && size % 4 == 0
      modifies heap, this`blocks, this`usedMem
      ensures Shape() && blocks == Take(old(blocks), k, size) && usedMem == UsedSum(blocks)
      ensures AllKept(old(heap[..]), heap[..], old(blocks))
    {
      ghost var bs := blocks;
      TakeKeeps(bs, HeapEnd(), k, size);
      var next := NextOf(ptr, k);
      if next - (ptr + HDR) >= size + HDR + MIN_SIZE {
        BlockInChain(bs, k, HeapEnd());
        Cut(ptr, ptr + HDR + size, k);
        SplitAllocated(bs, HeapEnd(), k, ptr + HDR + size);
        KeptFewer(old(heap[..]), heap[..], blocks, bs);
        usedMem := usedMem + (size + HDR);
      } else {
        Mark(ptr, true, k);
        usedMem := usedMem + (next - ptr);
      }
    }

    /** Block k serves a request: it is taken, the high-water mark and lfree follow. */
    method Serve(ptr: int, size: int, ghost k: nat)
      requires Valid() && k < |blocks| && blocks[k].off == ptr && Fits(blocks[k], size)
      requires MIN_SIZE <= size && size % 4 == 0
      modifies heap, this`blocks, this`lfree, this`usedMem, this`maxMem
      ensures Valid() && Contents() == old(Contents()).With(Take(old(blocks), k, size))
      ensures AllKept(old(heap[..]), heap[..], old(blocks))
    {
      TakeInv(Contents(), k, size);
      TakeFirstFree(blocks, HeapEnd(), k, size);
      TakeBlock(ptr, size, k);
      if maxMem < usedMem {
        maxMem := usedMem;
      }
      if ptr == lfree {
        TakeOff(old(blocks), k, size, HeapEnd());
        AdvanceLfree(k);
      }
    }

    /** The search loop of rt_malloc, from lfree on. */
    method Search(size: int) returns (found: Ptr, ghost k: nat)
      requires Valid() && 0 <= size <= memSizeAligned
      ensures k == Scan(blocks, memSizeAligned, size, 0)
      ensures found == if k == |blocks| then Null else At(blocks[k].off)
    {
      var ptr := lfree;
      k := FirstFree(blocks);
      Laws.ScanFromLowestFree(blocks, memSizeAligned, size, 0);
      while ptr < memSizeAligned - size
        invariant k <= |blocks| && ptr == OffAt(blocks, k, HeapEnd())
        invariant Scan(blocks, memSizeAligned, size, k) == Scan(blocks, memSizeAligned, size, 0)
        decreases |blocks| - k
      {
        HeaderAt(heap[..], blocks, k);
        var next := NextOf(ptr, k);
        if !UsedWord(heap[ptr]) && next - (ptr + HDR) >= size {
          return At(ptr), k;
        }
        ptr := next;
        k := k + 1;
      }
      return Null, |blocks|;
    }

    /** rt_malloc, for every call that returns. */
    method Malloc(request: USize) returns (p: Ptr)
      requires Valid() && Ends(memSizeAligned, request)
      modifies heap, this`blocks, this`lfree, this`usedMem, this`maxMem
      ensures Valid() && Contents() == SmallMemSpec.Malloc(old(Contents()), request).0
      ensures p == SmallMemSpec.Malloc(old(Contents()), request).1
      ensures AllKept(old(heap[..]), heap[..], old(blocks))
    {
      KeptSame(heap[..], blocks, HeapEnd());
      if request == 0 {
        return Null;
      }
      var size := AlignUp(request);
      if size > memSizeAligned {
        return Null;
      }
      if size < MIN_SIZE {
        size := MIN_SIZE;
      }
      var found, k := Search(size);
      if found == Null {
        return Null;
      }
      Serve(found.off, size, k);
      return At(found.off + HDR);
    }

    /** Block k is marked free and leaves the accounting; it may be the new lowest free block. */
    method Release(mem: int, ghost k: nat)
      requires Valid() && k < |blocks| && blocks[k].off == mem && blocks[k].used
      modifies heap, this`blocks, this`lfree, this`usedMem
      ensures Shape() && blocks == SetUsed(old(blocks), k, false)
      ensures lfree == LowestFree(blocks, HeapEnd()) && usedMem == UsedSum(blocks)
      ensures AllKept(old(heap[..]), heap[..], old(blocks))
    {
      SetUsedKeeps(blocks, HeapEnd(), k, false);
      MarkFirstFree(blocks, HeapEnd(), k);
      var next := NextOf(mem, k);
      Mark(mem, false, k);
      if mem < lfree {
        lfree := mem;
      }
      usedMem := usedMem - (next - mem);
    }

    /** rt_free. The address must be NULL or one that rt_malloc or rt_realloc handed out. */
    method Free(p: Ptr)
      requires Valid() && (p.At? ==> Live(blocks, p.off))
      modifies heap, this`blocks, this`lfree, this`usedMem
      ensures Valid() && Contents() == SmallMemSpec.Free(old(Contents()), p)
      ensures AllKept(old(heap[..]), heap[..], blocks)
    {
      if p == Null {
        KeptSame(heap[..], blocks, HeapEnd());
        return;
      }
      ghost var k := Laws.LiveIndex(Contents(), p.off);
      ghost var target := Contents().(blocks := FreeAt(blocks, k));
      assert target == SmallMemSpec.Free(Contents(), p);
      assert target.Inv() by { Laws.FreeKeeps(Contents(), p); }
      FreeLists(Contents(), k);
      Release(p.off - HDR, k);
      ghost var h, fs := heap[..], blocks;
      PlugHoles(p.off - HDR, k);
      assert AllKept(old(heap[..]), heap[..], blocks) by {
        KeptFewer(old(heap[..]), h, old(blocks), blocks);
        KeptTwice(old(heap[..]), h, heap[..], blocks, fs);
      }
      assert Contents() == target;
    }

    /** The application writes a word of a payload it owns. */
    method Store(a: int, w: int, ghost b: Block)
      requires Valid() && b in Allocated(blocks) && b.off + HDR <= a < b.next && 0 <= a < heap.Length
      modifies heap
      ensures Valid() && heap[..] == old(heap[..])[a := w]
    {
      ghost var h := heap[..];
      Laws.AllocatedApart(Contents(), b, b);
      heap[a] := w;
      StoreRep(h, heap[..], blocks, HeapEnd(), b);
    }

    /** rt_memcpy of n bytes between two ranges that do not overlap, word by word. */
    method CopyWords(dst: int, src: int, n: int)
      requires 0 <= n && 0 <= src && src + n <= heap.Length && 0 <= dst && dst + n <= heap.Length
      requires src + n <= dst || dst + n <= src
      modifies heap
      ensures forall i :: 0 <= i < n && i % 4 == 0 ==> heap[dst + i] == old(heap[src + i])
      ensures forall a :: 0 <= a < heap.Length && !(dst <= a < dst + n) ==> heap[a] == old(heap[a])
    {
      var i := 0;
      while i < n
        invariant 0 <= i && i % 4 == 0
        invariant forall j :: 0 <= j < i && j < n && j % 4 == 0 ==> heap[dst + j] == old(heap[src + j])
        invariant forall a :: 0 <= a < heap.Length && !(dst <= a < dst + n) ==> heap[a] == old(heap[a])
      {
        heap[dst + i] := heap[src + i];
        i := i + 4;
      }
    }

    /** The copy between the payloads of two allocated blocks disturbs no other block. */
    method Copy(dst: int, src: int, n: int, ghost c: Block, ghost b: Block)
      requires Valid() && b in Allocated(blocks) && c in Allocated(blocks) && b != c && 0 <= n
      requires b.off + HDR == src && src + n <= b.next && c.off + HDR == dst && dst + n <= c.next
      modifies heap
      ensures Valid() && CopiedWords(old(heap[..]), heap[..], src, dst, n)
      ensures forall d :: d in Allocated(blocks) && d != c ==> PayloadKept(old(heap[..]), heap[..], d)
    {
      ghost var h := heap[..];
      Laws.AllocatedApart(Contents(), b, c);
      Laws.AllocatedApart(Contents(), c, b);
      CopyWords(dst, src, n);
      StoreRep(h, heap[..], blocks, HeapEnd(), c);
      KeptOutside(h, heap[..], Contents(), c);
    }

    /** The path of rt_realloc that splits the block in place. */
    method ShrinkBlock(ptr: int, size: USize, ghost k: nat)
      requires Valid() && k < |blocks| && blocks[k].off == ptr && blocks[k].used
      requires 0 < size && size % 4 == 0 && size + HDR + MIN_SIZE < blocks[k].Payload()
      modifies heap, this`blocks, this`lfree, this`usedMem
      ensures Valid() && Contents() == old(Contents()).(blocks := Shrink(old(blocks), k, size))
      ensures AllKept(old(heap[..]), heap[..], blocks)
    {
      var next := NextOf(ptr, k);
      var ptr2 := ptr + HDR + size;
      ghost var target := Contents().(blocks := Shrink(blocks, k, size));
      assert target.blocks == Plug(Split(blocks, k, ptr2), k + 1);
      assert ptr2 % 4 == 0 by {
        BlockInChain(blocks, k, HeapEnd());
        Sum4(ptr, size);
      }
      ShrinkLists(Contents(), k, ptr2);
      assert target.Inv() && UsedSum(target.blocks) == usedMem - (next - ptr - HDR - size) by { ShrinkInv(Contents(), k, size); }
      usedMem := usedMem - (next - ptr - HDR - size);
      ShrinkTo(ptr, ptr2, k);
      assert Contents() == target;
    }

    /** The rest of the block becomes a hole of its own and is plugged. */
    method ShrinkTo(ptr: int, ptr2: int, ghost k: nat)
      requires Shape() && k < |blocks| && blocks[k].off == ptr && lfree == LowestFree(blocks, HeapEnd())
      requires ptr + HDR <= ptr2 && ptr2 + HDR <= blocks[k].next && ptr2 % 4 == 0
      requires var fs := Split(blocks, k, ptr2);
        && NoFreeNeighbours(fs[..k + 1]) && NoFreeNeighbours(fs[k + 2..]) && Allocated(Plug(fs, k + 1)) == Allocated(fs)
        && LowestFree(fs, HeapEnd()) == Min(ptr2, lfree)
      modifies heap, this`blocks, this`lfree
      ensures Shape() && blocks == Plug(Split(old(blocks), k, ptr2), k + 1) && lfree == LowestFree(blocks, HeapEnd())
      ensures AllKept(old(heap[..]), heap[..], blocks)
    {
      Cut(ptr, ptr2, k);
      if ptr2 < lfree {
        lfree := ptr2;
      }
      ghost var h, fs := heap[..], blocks;
      PlugHoles(ptr2, k + 1);
      assert AllKept(old(heap[..]), heap[..], blocks) by {
        KeptFewer(old(heap[..]), h, fs, blocks);
        KeptTwice(old(heap[..]), h, heap[..], blocks, fs);
      }
    }

    /** The path of rt_realloc that allocates, copies and frees. */
    method MoveBlock(p: int, size: USize, oldsize: int, ghost b: Block) returns (q: Ptr)
      requires Valid() && MIN_SIZE <= memSizeAligned && b in Allocated(blocks) && b.off + HDR == p && oldsize == b.Payload()
      requires 0 < size && size % 4 == 0
      modifies heap, this`blocks, this`lfree, this`usedMem, this`maxMem
      ensures Valid() && (Contents(), q) == Move(old(Contents()), p, size)
      ensures KeptBoth(old(heap[..]), heap[..], old(blocks), blocks)
      ensures q.At? ==> CopiedWords(old(heap[..]), heap[..], p, q.off, Min(oldsize, size))
    {
      ghost var s, h := Contents(), heap[..];
      Laws.MoveKeeps(s, b, size);
      q := Malloc(size);
      if q.At? {
        ghost var c := Laws.MallocGives(s, size);
        ghost var h1 := heap[..];
        CopyAndFree(q.off, p, if oldsize < size then oldsize else size, c, b);
        MovedWords(h, h1, heap[..], s.blocks, blocks, b, c, Min(oldsize, size));
      }
    }

    method CopyAndFree(dst: int, src: int, n: int, ghost c: Block, ghost b: Block)
      requires Valid() && b in Allocated(blocks) && c in Allocated(blocks) && b != c && 0 <= n
      requires b.off + HDR == src && src + n <= b.next && c.off + HDR == dst && dst + n <= c.next
      modifies heap, this`blocks, this`lfree, this`usedMem
      ensures Valid() && Contents() == SmallMemSpec.Free(old(Contents()), At(src))
      ensures Allocated(blocks) == Allocated(old(blocks)) - {b}
      ensures CopiedWords(old(heap[..]), heap[..], src, dst, n)
      ensures forall d :: d in Allocated(blocks) && d != c ==> PayloadKept(old(heap[..]), heap[..], d)
    {
      ghost var h := heap[..];
      Laws.FreeRemoves(Contents(), b);
      Copy(dst, src, n, c, b);
      ghost var h1 := heap[..];
      Free(At(src));
      assert PayloadKept(h1, heap[..], c);
      forall d | d in Allocated(blocks) && d != c ensures PayloadKept(h, heap[..], d) {
        assert PayloadKept(h, h1, d) && PayloadKept(h1, heap[..], d);
      }
    }

    /** rt_realloc. The address must be NULL, outside the heap, or a live one; it must be NULL or
        live when the aligned size is zero, since the call then is a free. */
    method Realloc(p: Ptr, newsize: USize) returns (q: Ptr)
      requires Valid() && Ends(memSizeAligned, AlignUp(newsize))
      requires p.At? && 0 <= p.off < HeapEnd() ==> Live(blocks, p.off)
      requires p.At? && AlignUp(newsize) == 0 ==> Live(blocks, p.off)
      modifies heap, this`blocks, this`lfree, this`usedMem, this`maxMem
      ensures Valid() && Contents() == SmallMemSpec.Realloc(old(Contents()), p, newsize).0
      ensures q == SmallMemSpec.Realloc(old(Contents()), p, newsize).1
      ensures KeptBoth(old(heap[..]), heap[..], old(blocks), blocks)
      ensures forall b :: b in Allocated(old(blocks)) && p == At(b.off + HDR) && q.At? ==>
        CopiedWords(old(heap[..]), heap[..], p.off, q.off, Min(b.Payload(), AlignUp(newsize)))
    {
      AlignUpMeaning(newsize);
      q := ReallocAligned(p, AlignUp(newsize));
    }

    /** rt_realloc from the size check on; `size` has been rounded up. */
    method ReallocAligned(p: Ptr, size: USize) returns (q: Ptr)
      requires Valid() && Ends(memSizeAligned, size) && size % 4 == 0
      requires p.At? && (0 <= p.off < HeapEnd() || size == 0) ==> Live(blocks, p.off)
      modifies heap, this`blocks, this`lfree, this`usedMem, this`maxMem
      ensures Valid() && Contents() == SmallMemSpec.ReallocAligned(old(Contents()), p, size).0
      ensures q == SmallMemSpec.ReallocAligned(old(Contents()), p, size).1
      ensures KeptBoth(old(heap[..]), heap[..], old(blocks), blocks)
      ensures forall b :: b in Allocated(old(blocks)) && p == At(b.off + HDR) && q.At? ==>
        CopiedWords(old(heap[..]), heap[..], p.off, q.off, Min(b.Payload(), size))
    {
      KeptSame(heap[..], blocks, HeapEnd());
      if size > memSizeAligned {
        return Null;
      } else if size == 0 {
        Free(p);
        return Null;
      }
      if p == Null {
        q := Malloc(size);
        return;
      }
      if p.off < 0 || p.off >= HeapEnd() {
        OutsideOrOnly(Contents(), p.off);
        return p;
      }
      q := ReallocLive(p.off, size);
    }

    method ReallocLive(p: int, size: USize) returns (q: Ptr)
      requires Valid() && MIN_SIZE <= memSizeAligned && Live(blocks, p) && 0 < size <= memSizeAligned && size % 4 == 0
      modifies heap, this`blocks, this`lfree, this`usedMem, this`maxMem
      ensures Valid() && (Contents(), q) == SmallMemSpec.ReallocAligned(old(Contents()), At(p), size)
      ensures KeptBoth(old(heap[..]), heap[..], old(blocks), blocks)
      ensures forall b :: b in Allocated(old(blocks)) && p == b.off + HDR && q.At? ==>
        CopiedWords(old(heap[..]), heap[..], p, q.off, Min(b.Payload(), size))
    {
      ghost var k := Laws.LiveIndex(Contents(), p);
      Laws.ReallocIsResize(Contents(), p, size, k);
      OutsideOrOnly(Contents(), p);
      q := ResizeBlock(p, size, k);
    }

    /** rt_realloc on a live block, for an aligned nonzero size. */
    method ResizeBlock(p: int, size: USize, ghost k: nat) returns (q: Ptr)
      requires Valid() && MIN_SIZE <= memSizeAligned && k < |blocks| && blocks[k].used && blocks[k].off + HDR == p
      requires 0 < size && size % 4 == 0
      modifies heap, this`blocks, this`lfree, this`usedMem, this`maxMem
      ensures Valid() && (Contents(), q) == Resize(old(Contents()), k, size)
      ensures KeptBoth(old(heap[..]), heap[..], old(blocks), blocks)
      ensures q.At? ==> CopiedWords(old(heap[..]), heap[..], p, q.off, Min(old(blocks)[k].Payload(), size))
    {
      ghost var h, b := heap[..], blocks[k];
      assert b in Allocated(blocks);
      KeptSame(h, blocks, HeapEnd());
      var mem := p - HDR;
      var next := NextOf(mem, k);
      var oldsize := next - mem - HDR;
      if oldsize == size {
        return At(p);
      }
      if size + HDR + MIN_SIZE < oldsize {
        Laws.ShrinkAllocated(Contents(), k, size);
        ShrinkBlock(mem, size, k);
        assert PayloadKept(h, heap[..], Block(mem, p + size, true));
        return At(p);
      }
      q := MoveBlock(p, size, oldsize, b);
    }

    /** The range at q is aligned, lies in the payload of b after the word that saves b's address. */
    ghost predicate Aligned(b: Block, q: int, size: USize, align: USize)
      reads this, heap
    {
      && 0 <= b.off && b.off + HDR + 4 <= q && q + size <= b.next <= heap.Length
      && heap[q - 4] == base + b.off + HDR
      && AlignUp(align) > 0 && (base + q) % AlignUp(align) == 0
    }

    /** rt_malloc_align: the start of the allocated block is saved in the word before the address
        handed out. The saved word and the range lie inside the block. */
    method MallocAlign(size: USize, align: USize) returns (q: Ptr)
      requires Valid() && Ends(memSizeAligned, AlignedRequest(size, align)) && base % 4 == 0
      requires PowerOfTwo(align) && AlignedRequestFits(size, align)
      modifies heap, this`blocks, this`lfree, this`usedMem, this`maxMem
      ensures Valid() && Contents() == SmallMemSpec.Malloc(old(Contents()), AlignedRequest(size, align)).0
      ensures q.At? <==> SmallMemSpec.Malloc(old(Contents()), AlignedRequest(size, align)).1.At?
      ensures q.At? ==> exists b :: b in Allocated(blocks) && b !in Allocated(old(blocks)) && Aligned(b, q.off, size, align)
      ensures AllKept(old(heap[..]), heap[..], old(blocks))
    {
      AlignedRequestIsAligned(size, align);
      AlignmentIsPositive(align);
      ghost var s, h := Contents(), heap[..];
      var p := Malloc(AlignedRequest(size, align));
      if p == Null {
        return Null;
      }
      ghost var b := Laws.MallocGives(s, AlignedRequest(size, align));
      ghost var h1 := heap[..];
      var addr := SaveAddress(p.off, size, align, b);
      KeptAround(h, h1, heap[..], s.blocks, blocks, b);
      q := At(addr);
    }

    /** The aligned address in the fresh block b; the word before it receives b's address. */
    method SaveAddress(p: int, size: USize, align: USize, ghost b: Block) returns (q: int)
      requires Valid() && b in Allocated(blocks) && b.off + HDR == p && base % 4 == 0
      requires PowerOfTwo(align) && AlignedRequestFits(size, align) && AlignedRequest(size, align) <= b.Payload()
      modifies heap
      ensures Valid() && Aligned(b, q, size, align)
      ensures forall d :: d in Allocated(blocks) && d != b ==> PayloadKept(old(heap[..]), heap[..], d)
    {
      ghost var h, s := heap[..], Contents();
      AlignmentIsPositive(align);
      SpotInside(s, b, base, size, align);
      q := AlignPtr(base + p, AlignUp(align)) - base;
      Store(q - 4, base + p, b);
      assert forall d :: d in Allocated(blocks) && d != b ==> PayloadKept(h, heap[..], d) by {
        KeptOutside(h, heap[..], s, b);
      }
    }

    /** rt_free_align frees the block whose start was saved. */
    method FreeAlign(q: int, ghost b: Block, ghost size: USize, ghost align: USize)
      requires Valid() && b in Allocated(blocks) && Aligned(b, q, size, align)
      modifies heap, this`blocks, this`lfree, this`usedMem
      ensures Valid() && Contents() == SmallMemSpec.Free(old(Contents()), At(b.off + HDR))
      ensures AllKept(old(heap[..]), heap[..], blocks)
    {
      Laws.FreeRemoves(Contents(), b);
      Laws.AllocatedApart(Contents(), b, b);
      var block := heap[q - 4] - base;
      Free(At(block));
    }

    method WriteCut(ptr: int, ptr2: int, next: int)
      requires 0 <= ptr && ptr + HDR <= ptr2 && ptr2 + HDR <= next <= HeapEnd()
      requires HeapEnd() + HDR <= heap.Length
      modifies heap
      ensures CutWrites(old(heap[..]), heap[..], ptr, next, ptr2, HeapEnd())
    {
      heap[ptr2] := FREE_WORD;
      heap[ptr2 + 4] := next;
      heap[ptr2 + 8] := ptr;
      heap[ptr + 4] := ptr2;
      heap[ptr] := USED_WORD;
      if next != HeapEnd() {
        heap[next + 8] := ptr2;
      }
    }
  }

  /** The words that cutting block k at p changes. */
  ghost predicate CutWrites(h: seq<int>, h': seq<int>, off: int, next: int, p: int, end: int) {
    && 0 <= off && off + HDR <= p && p + HDR <= next <= end && end + HDR <= |h| == |h'|
    && h'[off] == USED_WORD && h'[off + 4] == p && h'[off + 8] == h[off + 8]
    && h'[p] == FREE_WORD && h'[p + 4] == next && h'[p + 8] == off
    && h'[next] == h[next] && h'[next + 4] == h[next + 4]
    && h'[next + 8] == (if next == end then h[next + 8] else p)
    && Same(h, h', 0, off) && Same(h, h', off + HDR, p) && Same(h, h', next + HDR, |h|)
  }

  lemma CutRep(h: seq<int>, h': seq<int>, bs: seq<Block>, end: int, k: nat, p: int)
    requires Chain(bs, 0, end) && Rep(h, bs, 0) && k < |bs| && CutWrites(h, h', bs[k].off, bs[k].next, p, end)
    ensures Rep(h', Split(bs, k, p), 0)
  {
    var lo, hi := Block(bs[k].off, p, true), Block(p, bs[k].next, false);
    BlockInChain(bs, k, end);
    HeaderAt(h, bs, k);
    if k + 1 < |bs| {
      BlockInChain(bs, k + 1, end);
    }
    RepPair(h', lo, hi, PrevAt(bs, k));
    RepExchange(h, h', bs, k, k + 1, [lo, hi], end);
  }

  lemma CutKept(h: seq<int>, h': seq<int>, bs: seq<Block>, end: int, k: nat, p: int)
    requires Chain(bs, 0, end) && k < |bs| && CutWrites(h, h', bs[k].off, bs[k].next, p, end)
    ensures AllKept(h, h', Split(bs, k, p))
  {
    SplitAllocated(bs, end, k, p);
    BlockInChain(bs, k, end);
    forall c | c in Allocated(bs) && c != bs[k] ensures PayloadKept(h, h', c) {
      PayloadApart(bs, end, k, c);
      if k + 1 < |bs| {
        BlockInChain(bs, k + 1, end);
        PayloadApart(bs, end, k + 1, c);
      }
    }
  }

  lemma LowestFreeBelow(bs: seq<Block>, end: int, k: nat)
    requires Chain(bs, 0, end) && k < |bs| && !bs[k].used
    ensures LowestFree(bs, end) <= bs[k].off
  {
    if FirstFree(bs) < k {
      BlocksApart(bs, end, FirstFree(bs), k);
      BlockInChain(bs, FirstFree(bs), end);
    }
  }

  lemma KeptSame(h: seq<int>, bs: seq<Block>, end: int)
    requires Chain(bs, 0, end) && end <= |h|
    ensures AllKept(h, h, bs)
  {
    forall b | b in Allocated(bs) ensures PayloadKept(h, h, b) {
      PayloadApart(bs, end, 0, b);
    }
  }

  lemma JoinRep(h: seq<int>, h': seq<int>, bs: seq<Block>, end: int, k: nat)
    requires Chain(bs, 0, end) && Rep(h, bs, 0) && k + 1 < |bs| && |h| == |h'| && end + HDR <= |h|
    requires 0 <= bs[k].off && bs[k].off + 4 < |h| && 0 <= bs[k + 1].next && bs[k + 1].next + 8 < |h|
    requires h' == h[bs[k].off + 4 := bs[k + 1].next][bs[k + 1].next + 8 := bs[k].off]
    ensures Rep(h', Join(bs, k), 0)
  {
    var b := bs[k].(next := bs[k + 1].next);
    HeaderAt(h, bs, k);
    BlockInChain(bs, k, end);
    BlockInChain(bs, k + 1, end);
    if k + 2 < |bs| {
      BlockInChain(bs, k + 2, end);
    }
    RepPair(h', b, b, PrevAt(bs, k));
    RepExchange(h, h', bs, k, k + 2, [b], end);
  }

  lemma JoinKept(h: seq<int>, h': seq<int>, bs: seq<Block>, end: int, k: nat)
    requires Chain(bs, 0, end) && k + 1 < |bs| && |h| == |h'| && end + HDR <= |h|
    requires 0 <= bs[k].off && bs[k].off + 4 < |h| && 0 <= bs[k + 1].next && bs[k + 1].next + 8 < |h|
    requires h' == h[bs[k].off + 4 := bs[k + 1].next][bs[k + 1].next + 8 := bs[k].off]
    ensures AllKept(h, h', bs)
  {
    BlockInChain(bs, k + 1, end);
    forall c | c in Allocated(bs) ensures PayloadKept(h, h', c) {
      PayloadApart(bs, end, k, c);
      if k + 2 < |bs| {
        PayloadApart(bs, end, k + 2, c);
      }
    }
  }

  lemma KeptOutside(h: seq<int>, h': seq<int>, s: State, c: Block)
    requires s.Inv() && c in Allocated(s.blocks) && |h| == |h'| && s.End() <= |h|
    requires forall a :: 0 <= a < |h| && !(c.off + HDR <= a < c.next) ==> h'[a] == h[a]
    ensures forall d :: d in Allocated(s.blocks) && d != c ==> PayloadKept(h, h', d)
  {
    forall d | d in Allocated(s.blocks) && d != c ensures PayloadKept(h, h', d) {
      Laws.AllocatedApart(s, c, d);
      Laws.AllocatedApart(s, d, c);
    }
  }

  lemma KeptTwice(h0: seq<int>, h1: seq<int>, h2: seq<int>, bs: seq<Block>, cs: seq<Block>)
    requires AllKept(h0, h1, bs) && AllKept(h1, h2, cs) && Allocated(bs) <= Allocated(cs)
    ensures AllKept(h0, h2, bs)
  {
    forall b | b in Allocated(bs) ensures PayloadKept(h0, h2, b) {
      assert PayloadKept(h0, h1, b) && PayloadKept(h1, h2, b);
    }
  }

  /** The header of block k lies outside the payload of every allocated block. */
  lemma PayloadApart(bs: seq<Block>, end: int, k: nat, c: Block)
    requires Chain(bs, 0, end) && k < |bs| && c in Allocated(bs)
    ensures 0 <= c.off && c.off + HDR <= c.next <= end
    ensures bs[k].off + HDR <= c.off + HDR || c.next <= bs[k].off
    ensures bs[k] != c ==> bs[k].next <= c.off || c.next <= bs[k].off
  {
    var i :| 0 <= i < |bs| && bs[i] == c;
    BlockInChain(bs, i, end);
    BlockInChain(bs, k, end);
    if i < k {
      BlocksApart(bs, end, i, k);
    } else if k < i {
      BlocksApart(bs, end, k, i);
    }
  }

  lemma MarkRep(h: seq<int>, h': seq<int>, bs: seq<Block>, end: int, k: nat, used: bool)
    requires Chain(bs, 0, end) && Rep(h, bs, 0) && k < |bs| && end <= |h| && bs[k].off < |h|
    requires bs[k].off >= 0 && h' == h[bs[k].off := Flag(used)]
    ensures Rep(h', SetUsed(bs, k, used), 0)
    ensures AllKept(h, h', bs)
  {
    var b := bs[k].(used := used);
    BlockInChain(bs, k, end);
    HeaderAt(h, bs, k);
    if k + 1 < |bs| {
      HeaderAt(h, bs, k + 1);
      BlockInChain(bs, k + 1, end);
    }
    RepPair(h', b, b, PrevAt(bs, k));
    RepExchange(h, h', bs, k, k + 1, [b], end);
    assert SetUsed(bs, k, used) == bs[..k] + [b] + bs[k + 1..];
    forall c | c in Allocated(bs) ensures PayloadKept(h, h', c) {
      PayloadApart(bs, end, k, c);
    }
  }

  lemma KeptFewer(h: seq<int>, h': seq<int>, bs: seq<Block>, cs: seq<Block>)
    requires AllKept(h, h', bs) && Allocated(cs) <= Allocated(bs)
    ensures AllKept(h, h', cs)
  {
  }

  lemma TakeInv(s: State, k: nat, size: int)
    requires s.Inv() && k < |s.blocks| && Fits(s.blocks[k], size) && MIN_SIZE <= size && size % 4 == 0
    ensures s.With(Take(s.blocks, k, size)).Inv()
    ensures UsedSum(Take(s.blocks, k, size)) == UsedSum(s.blocks) + (Take(s.blocks, k, size)[k].next - s.blocks[k].off)
  {
    TakeKeeps(s.blocks, s.End(), k, size);
    Laws.TakeAllocated(s, k, size);
  }

  /** Taking block k keeps the lowest free block unless block k was it. */
  lemma TakeFirstFree(bs: seq<Block>, end: int, k: nat, size: int)
    requires Chain(bs, 0, end) && k < |bs| && !bs[k].used
    ensures LowestFree(bs, end) != bs[k].off ==> LowestFree(Take(bs, k, size), end) == LowestFree(bs, end)
    ensures LowestFree(bs, end) == bs[k].off ==> forall i :: 0 <= i < k ==> bs[i].used
    ensures Take(bs, k, size)[..k] == bs[..k]
  {
    var f := FirstFree(bs);
    if f < k {
      BlocksApart(bs, end, f, k);
      BlockInChain(bs, f, end);
      FirstFreeIs(Take(bs, k, size), f);
    }
  }

  /** After block k is marked free, lfree is the lower of its offset and the old lfree. */
  lemma MarkFirstFree(bs: seq<Block>, end: int, k: nat)
    requires Chain(bs, 0, end) && k < |bs| && bs[k].used
    ensures LowestFree(SetUsed(bs, k, false), end) == Min(bs[k].off, LowestFree(bs, end))
  {
    var f := FirstFree(bs);
    BlockInChain(bs, k, end);
    if f < k {
      BlocksApart(bs, end, f, k);
      BlockInChain(bs, f, end);
      FirstFreeIs(SetUsed(bs, k, false), f);
    } else {
      FirstFreeIs(SetUsed(bs, k, false), k);
      if f < |bs| {
        BlocksApart(bs, end, k, f);
      }
    }
  }

  lemma TakeOff(bs: seq<Block>, k: nat, size: int, end: int)
    requires k < |bs|
    ensures k < |Take(bs, k, size)| && Take(bs, k, size)[k].off == bs[k].off
    ensures forall i :: 0 <= i < k ==> Take(bs, k, size)[i] == bs[i]
  {
  }

  /** The two stages of rt_free, seen on the list. */
  lemma FreeLists(s: State, k: nat)
    requires s.Inv() && k < |s.blocks| && s.blocks[k].used
    ensures var fs := SetUsed(s.blocks, k, false);
      && NoFreeNeighbours(fs[..k]) && NoFreeNeighbours(fs[k + 1..])
      && UsedSum(Plug(fs, k)) == UsedSum(fs) && Allocated(Plug(fs, k)) == Allocated(fs) <= Allocated(s.blocks)
  {
    var fs := SetUsed(s.blocks, k, false);
    CutNeighbours(s.blocks, k);
    CutNeighbours(s.blocks, k + 1);
    assert fs[..k] == s.blocks[..k] && fs[k + 1..] == s.blocks[k + 1..];
    SetUsedKeeps(s.blocks, s.End(), k, false);
    PlugKeeps(fs, s.End(), k);
    SetUsedAllocated(s.blocks, s.End(), k, false);
    PlugAllocated(fs, s.End(), k);
  }

  /** The payloads of the blocks that stay allocated are untouched. */
  ghost predicate KeptBoth(h: seq<int>, h': seq<int>, bs: seq<Block>, cs: seq<Block>) {
    forall b :: b in Allocated(bs) && b in Allocated(cs) ==> PayloadKept(h, h', b)
  }

  /** The first n bytes at p have arrived, word by word, at q. */
  ghost predicate CopiedWords(h: seq<int>, h': seq<int>, p: int, q: int, n: int) {
    0 <= p && p + n <= |h| && 0 <= q && q + n <= |h'| && forall i :: 0 <= i < n && i % 4 == 0 ==> h'[q + i] == h[p + i]
  }

  /** Whatever is written inside the payload of an allocated block leaves every header as it was. */
  lemma StoreRep(h: seq<int>, h': seq<int>, bs: seq<Block>, end: int, b: Block)
    requires Chain(bs, 0, end) && Rep(h, bs, 0) && b in bs && end <= |h| == |h'|
    requires forall a :: 0 <= a < |h| && !(b.off + HDR <= a < b.next) ==> h'[a] == h[a]
    ensures Rep(h', bs, 0)
  {
    var k: nat :| k < |bs| && bs[k] == b;
    BlockInChain(bs, k, end);
    PayloadRep(h, h', bs, end, k);
  }

  /** What changes only in the payload of block k leaves all headers. */
  lemma PayloadRep(h: seq<int>, h': seq<int>, bs: seq<Block>, end: int, k: nat)
    requires Chain(bs, 0, end) && Rep(h, bs, 0) && k < |bs| && end <= |h| == |h'|
    requires 0 <= bs[k].off && bs[k].off + HDR <= bs[k].next <= end
    requires Same(h, h', 0, bs[k].off + HDR) && Same(h, h', bs[k].next, |h|)
    ensures Rep(h', bs, 0)
  {
    HeaderAt(h, bs, k);
    BlockInChain(bs, k, end);
    if k + 1 < |bs| {
      HeaderAt(h, bs, k + 1);
      BlockInChain(bs, k + 1, end);
    }
    RepPair(h', bs[k], bs[k], PrevAt(bs, k));
    RepExchange(h, h', bs, k, k + 1, [bs[k]], end);
    assert bs == bs[..k] + [bs[k]] + bs[k + 1..];
  }

  /** The stages of an in-place shrink, seen on the list. */
  lemma ShrinkLists(s: State, k: nat, p: int)
    requires s.Inv() && k < |s.blocks| && s.blocks[k].used
    requires s.blocks[k].off + HDR <= p && p + HDR <= s.blocks[k].next && p % 4 == 0
    ensures var fs := Split(s.blocks, k, p);
      && NoFreeNeighbours(fs[..k + 1]) && NoFreeNeighbours(fs[k + 2..])
      && Allocated(Plug(fs, k + 1)) == Allocated(fs)
      && LowestFree(fs, s.End()) == Min(p, LowestFree(s.blocks, s.End()))
  {
    CutSides(s.blocks, k, p);
    SplitKeeps(s.blocks, s.End(), k, p);
    PlugAllocated(Split(s.blocks, k, p), s.End(), k + 1);
    CutFirstFree(s.blocks, s.End(), k, p);
  }

  lemma ShrinkInv(s: State, k: nat, size: int)
    requires s.Inv() && k < |s.blocks| && s.blocks[k].used
    requires 0 < size && size % 4 == 0 && size + HDR + MIN_SIZE < s.blocks[k].Payload()
    ensures s.(blocks := Shrink(s.blocks, k, size)).Inv()
    ensures UsedSum(Shrink(s.blocks, k, size)) == UsedSum(s.blocks) - (s.blocks[k].Payload() - size)
  {
    ShrinkKeeps(s.blocks, s.End(), k, size);
    Laws.ShrinkAllocated(s, k, size);
  }

  lemma CutFirstFree(bs: seq<Block>, end: int, k: nat, p: int)
    requires Chain(bs, 0, end) && k < |bs| && bs[k].used && bs[k].off + HDR <= p < bs[k].next
    ensures LowestFree(Split(bs, k, p), end) == Min(p, LowestFree(bs, end))
  {
    var f := FirstFree(bs);
    BlockInChain(bs, k, end);
    if f < k {
      BlocksApart(bs, end, f, k);
      BlockInChain(bs, f, end);
      FirstFreeIs(Split(bs, k, p), f);
    } else {
      FirstFreeIs(Split(bs, k, p), k + 1);
      if f < |bs| {
        BlocksApart(bs, end, k, f);
      }
    }
  }

  lemma MovedWords(h: seq<int>, h1: seq<int>, h2: seq<int>, bs: seq<Block>, cs: seq<Block>, b: Block, c: Block, n: int)
    requires AllKept(h, h1, bs) && b in Allocated(bs) && c !in Allocated(bs) && n <= b.Payload()
    requires CopiedWords(h1, h2, b.off + HDR, c.off + HDR, n)
    requires forall d :: d in Allocated(cs) && d != c ==> PayloadKept(h1, h2, d)
    ensures KeptBoth(h, h2, bs, cs) && CopiedWords(h, h2, b.off + HDR, c.off + HDR, n)
  {
    assert PayloadKept(h, h1, b);
    forall d | d in Allocated(bs) && d in Allocated(cs) ensures PayloadKept(h, h2, d) {
      assert PayloadKept(h, h1, d) && PayloadKept(h1, h2, d);
    }
  }

  lemma OutsideOrOnly(s: State, p: int)
    requires s.Inv()
    ensures forall b :: b in Allocated(s.blocks) && p == b.off + HDR ==>
      0 <= p < s.End() && b == s.blocks[Find(s.blocks, p - HDR)]
  {
    forall b | b in Allocated(s.blocks) && p == b.off + HDR
      ensures 0 <= p < s.End() && Find(s.blocks, p - HDR) < |s.blocks| && b == s.blocks[Find(s.blocks, p - HDR)]
    {
      Laws.StillLive(s, s, b);
      var k := Laws.LiveIndex(s, p);
      Laws.BlockAtOffset(s, k, b);
    }
  }

  lemma PayloadAligned(s: State, b: Block)
    requires s.Inv() && b in Allocated(s.blocks)
    ensures (b.off + HDR) % 4 == 0 && 0 <= b.off && b.off + HDR <= b.next <= s.End()
  {
    Laws.AllocatedApart(s, b, b);
  }

  lemma KeptAround(h: seq<int>, h1: seq<int>, h2: seq<int>, bs: seq<Block>, cs: seq<Block>, c: Block)
    requires AllKept(h, h1, bs) && Allocated(bs) <= Allocated(cs) && c !in Allocated(bs)
    requires forall d :: d in Allocated(cs) && d != c ==> PayloadKept(h1, h2, d)
    ensures AllKept(h, h2, bs)
  {
    forall d | d in Allocated(bs) ensures PayloadKept(h, h2, d) {
      assert PayloadKept(h, h1, d) && PayloadKept(h1, h2, d);
    }
  }

  /** rt_system_heap_init: the region must hold two headers after alignment. The heap lies inside the
      region unless the begin address is one of the last three, which RT_ALIGN takes to zero. */
  method SystemHeapInit(beginAddr: USize, endAddr: USize) returns (heap: Heap?)
    ensures heap != null <==> AlignDown(endAddr) > 2 * HDR && AlignDown(endAddr) - 2 * HDR >= AlignUp(beginAddr)
    ensures heap != null ==> fresh(heap) && fresh(heap.heap) && heap.Valid()
    ensures heap != null ==> heap.base == AlignUp(beginAddr) && heap.base + heap.heap.Length <= endAddr
    ensures heap != null ==> (beginAddr <= heap.base <==> beginAddr <= WORD_RANGE - RT_ALIGN_SIZE)
    ensures heap != null ==> heap.Contents() == Laws.Initial(AlignDown(endAddr) - AlignUp(beginAddr) - 2 * HDR)
  {
    var beginAlign, endAlign := AlignUp(beginAddr), AlignDown(endAddr);
    AlignUpMeaning(beginAddr);
    if endAlign > 2 * HDR && endAlign - 2 * HDR >= beginAlign {
      heap := new Heap(beginAlign, endAlign - beginAlign - 2 * HDR);
    } else {
      heap := null;
    }
  }

  // ----- rt_malloc_align -----

  predicate PowerOfTwo(n: int) {
    n == 1 || (n > 1 && n % 2 == 0 && PowerOfTwo(n / 2))
  }

  /** The size rt_malloc_align asks rt_malloc for; the sum is a 32-bit one. */
  function AlignedRequest(size: USize, align: USize): USize {
    Wrap(AlignUp(size) + AlignUp(align))
  }

  predicate AlignedRequestFits(size: USize, align: USize) {
    size <= WORD_RANGE - RT_ALIGN_SIZE && AlignUp(size) + AlignUp(align) < WORD_RANGE
  }

  /** `x & ~(a - 1)`, for a power of two. */
  function MaskDown(x: int, a: int): int
    requires a > 0
  {
    x - x % a
  }

  /** The address handed out for a block at addr: the next multiple of a, never addr itself. */
  function AlignPtr(addr: int, a: int): int
    requires a > 0
  {
    if addr % a == 0 then addr + a else MaskDown(addr + (a - 1), a)
  }

  lemma AlignedRequestIsAligned(size: USize, align: USize)
    ensures AlignedRequest(size, align) % 4 == 0
  {
    AlignUpMeaning(size);
    AlignUpMeaning(align);
    WrapAligned(AlignUp(size) + AlignUp(align));
  }

  lemma WrapAligned(n: int)
    requires 0 <= n < 2 * WORD_RANGE && n % 4 == 0
    ensures Wrap(n) % 4 == 0
  {
    if WORD_RANGE <= n {
      assert Wrap(n) == n - WORD_RANGE;
    } else {
      assert Wrap(n) == n;
    }
  }

  lemma {:induction false} PowerOfTwoFrom4(n: int)
    requires PowerOfTwo(n) && 4 <= n
    ensures n % 4 == 0
  {
    if n / 2 >= 4 {
      PowerOfTwoFrom4(n / 2);
    }
  }

  /** A power of two is rounded to a positive multiple of four. */
  lemma AlignmentIsPositive(align: USize)
    requires PowerOfTwo(align)
    ensures 0 < AlignUp(align) && AlignUp(align) % 4 == 0 && align <= AlignUp(align)
  {
    AlignUpMeaning(align);
    if 4 <= align {
      PowerOfTwoFrom4(align);
    }
  }

  /** The address is aligned and leaves a word before it; the range of `size` bytes ends inside the
      requested bytes exactly when the 32-bit size computation does not wrap. */
  lemma AlignedRange(addr: int, size: USize, align: USize)
    requires addr % 4 == 0 && PowerOfTwo(align) && AlignUp(align) > 0
    ensures var a := AlignUp(align); var q := AlignPtr(addr, a);
      && q % a == 0 && addr + 4 <= q <= addr + a
      && (q + size <= addr + AlignedRequest(size, align) <==> AlignedRequestFits(size, align))
  {
    AlignmentIsPositive(align);
    NextMultiple(addr, AlignUp(align));
    RequestWraps(AlignPtr(addr, AlignUp(align)) - addr, size, align);
  }

  /** The aligned address lies in the block, with a word before it and `size` bytes behind it. */
  lemma SpotInside(s: State, b: Block, base: int, size: USize, align: USize)
    requires s.Inv() && b in Allocated(s.blocks) && base % 4 == 0 && PowerOfTwo(align) && AlignUp(align) > 0
    requires AlignedRequestFits(size, align) && AlignedRequest(size, align) <= b.Payload()
    ensures var q := AlignPtr(base + b.off + HDR, AlignUp(align)) - base;
      0 <= b.off && b.off + HDR + 4 <= q && q + size <= b.next <= s.End() && (base + q) % AlignUp(align) == 0
  {
    PayloadAligned(s, b);
    AlignedRange(base + b.off + HDR, size, align);
  }

  /** 2^32 - 8 bytes at an alignment of 16: the size computation wraps to 8, and the range runs past
      the eight bytes that rt_malloc is asked for. */
  lemma AlignedRequestWraps()
    ensures PowerOfTwo(16) && AlignUp(16) > 0 && 0x1000 % 4 == 0 && AlignedRequest(WORD_RANGE - 8, 16) == 8
    ensures AlignPtr(0x1000, AlignUp(16)) + (WORD_RANGE - 8) > 0x1000 + AlignedRequest(WORD_RANGE - 8, 16)
  {
    assert PowerOfTwo(8) && PowerOfTwo(4) && PowerOfTwo(2);
  }

  lemma RequestWraps(d: int, size: USize, align: USize)
    requires 4 <= d <= AlignUp(align)
    ensures d + size <= AlignedRequest(size, align) <==> AlignedRequestFits(size, align)
  {
    AlignUpMeaning(size);
  }

  lemma NextMultiple(addr: int, a: int)
    requires addr % 4 == 0 && a > 0 && a % 4 == 0
    ensures AlignPtr(addr, a) % a == 0 && addr + 4 <= AlignPtr(addr, a) <= addr + a
  {
    var k := addr / a;
    NextMultipleIs(addr, a, k, addr - a * k);
    DivUnique(a * (k + 1), a, k + 1, 0);
    MultipleOf4(a * (k + 1), a, k + 1);
  }

  lemma NextMultipleIs(addr: int, a: int, k: int, r: int)
    requires 0 <= r < a && addr == a * k + r
    ensures AlignPtr(addr, a) == a * (k + 1)
  {
    DivUnique(addr, a, k, r);
    if r != 0 {
      DivUnique(addr + (a - 1), a, k + 1, r - 1);
    }
  }

  lemma DivUnique(x: int, a: int, k: int, r: int)
    requires 0 <= r < a && x == a * k + r
    ensures x / a == k && x % a == r
  {
    var d := x / a - k;
    assert a * d == r - x % a;
    Multiples(a, d);
  }

  lemma Multiples(a: int, d: int)
    requires a > 0
    ensures d >= 1 ==> a * d >= a
    ensures d <= -1 ==> a * d <= -a
  {
  }

  lemma MultipleOf4(q: int, a: int, k: int)
    requires a % 4 == 0 && q == a * k
    ensures q % 4 == 0
  {
    var m := a / 4;
    assert q == 4 * (m * k);
  }
}
