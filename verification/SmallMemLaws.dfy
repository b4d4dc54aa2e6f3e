/** What the small memory heap promises, over every request and every run. */
module SmallMemLaws {
  import opened RtDef
  import opened BlockList
  import opened SmallMemSpec

  // ----- first fit -----

  lemma {:induction false} ScanFinds(bs: seq<Block>, memSize: int, size: int, i: nat)
    requires Chain(bs, 0, memSize + HDR) && i <= |bs|
    ensures var k := Scan(bs, memSize, size, i);
      && (k < |bs| ==> bs[k].off < memSize - size)
      && (forall j :: i <= j < k && Fits(bs[j], size) ==> memSize - size <= bs[j].off)
    decreases |bs| - i
  {
    if i < |bs| {
      if bs[i].off < memSize - size {
        ScanFinds(bs, memSize, size, i + 1);
      } else {
        forall j | i < j < |bs| ensures memSize - size <= bs[j].off {
          BlocksApart(bs, memSize + HDR, i, j);
          BlockInChain(bs, i, memSize + HDR);
        }
      }
    }
  }

  /** The search is first fit. It fails exactly when the only fitting block, if any, is the last
      one with a payload of exactly `size` bytes: the guard of the loop hides that block. */
  lemma FirstFitIsExact(s: State, size: int)
    requires s.Inv()
    ensures var k := Scan(s.blocks, s.memSize, size, 0);
      && (k < |s.blocks| ==> Fits(s.blocks[k], size) && forall j :: 0 <= j < k ==> !Fits(s.blocks[j], size))
      && (k == |s.blocks| <==>
          forall j :: 0 <= j < |s.blocks| && Fits(s.blocks[j], size) ==> j == |s.blocks| - 1 && s.blocks[j].Payload() == size)
  {
    var bs := s.blocks;
    var k := Scan(bs, s.memSize, size, 0);
    ScanFinds(bs, s.memSize, size, 0);
    if k < |bs| {
      BlockInChain(bs, k, s.End());
      forall j | 0 <= j < k ensures !Fits(bs[j], size) {
        BlocksApart(bs, s.End(), j, k);
        BlockInChain(bs, j, s.End());
      }
      assert Fits(bs[k], size);
    } else {
      forall j | 0 <= j < |bs| && Fits(bs[j], size) ensures j == |bs| - 1 && bs[j].Payload() == size {
        BlockInChain(bs, j, s.End());
        assert s.memSize - size <= bs[j].off;
        if j < |bs| - 1 {
          BlocksApart(bs, s.End(), j, j + 1);
          BlockInChain(bs, j + 1, s.End());
        }
      }
    }
  }

  /** A heap of twelve bytes, just initialised: its one block fits a request for twelve, and rt_malloc
      does not find it. */
  lemma LastBlockIsMissed()
    ensures Initial(12).Inv() && Initial(12).blocks == [Block(0, 24, false)]
    ensures Fits(Block(0, 24, false), 12) && Rounded(12) == 12 && Malloc(Initial(12), 12).1 == Null
  {
    InitialInv(12);
    FirstFitIsExact(Initial(12), 12);
  }

  /** Starting at `lfree` instead of the first block finds the same block. */
  lemma {:induction false} ScanFromLowestFree(bs: seq<Block>, memSize: int, size: int, i: nat)
    requires Chain(bs, 0, memSize + HDR) && i <= FirstFree(bs)
    ensures Scan(bs, memSize, size, i) == Scan(bs, memSize, size, FirstFree(bs))
    decreases FirstFree(bs) - i
  {
    if i < FirstFree(bs) {
      ScanFromLowestFree(bs, memSize, size, i + 1);
      if bs[i].off >= memSize - size && FirstFree(bs) < |bs| {
        BlocksApart(bs, memSize + HDR, i, FirstFree(bs));
        BlockInChain(bs, i, memSize + HDR);
      }
    }
  }

  /** The unsigned guard `ptr < mem_size_aligned - size` still holds at the end header, whose
      `next` is itself, exactly when the subtraction wraps: on such a heap the scan never ends. */
  lemma ScanGuardAtHeapEnd(memSize: int, size: int)
    requires 0 <= memSize && 0 <= size && memSize + HDR < WORD_RANGE && size + HDR < WORD_RANGE
    ensures memSize + HDR < Wrap(memSize - size) <==> memSize < size
  {
    if memSize < size {
      assert Wrap(memSize - size) == memSize - size + WORD_RANGE;
    } else {
      assert Wrap(memSize - size) == memSize - size;
    }
  }

  /** The header that the one at p points to; the end header points to itself. */
  function NextHeader(s: State, p: int): int {
    var k := Find(s.blocks, p);
    if k < |s.blocks| then s.blocks[k].next else p
  }

  /** The header that the scan has reached after n steps from `lfree`. */
  function Reached(s: State, n: nat): int {
    if n == 0 then LowestFree(s.blocks, s.End()) else NextHeader(s, Reached(s, n - 1))
  }

  /** The guard of the loop, in unsigned arithmetic, and the test that ends it with a block. */
  predicate Passes(s: State, p: int, size: int)
    requires 0 <= size
  {
    p < Wrap(s.memSize - size)
  }

  predicate Serves(s: State, p: int, size: int) {
    var k := Find(s.blocks, p);
    k < |s.blocks| && Fits(s.blocks[k], size)
  }

  /** rt_malloc gets as far as its scan, and every step of it passes the guard and finds no block. */
  ghost predicate ScansForever(s: State, request: USize) {
    && request != 0 && AlignUp(request) <= s.memSize
    && forall n: nat :: Passes(s, Reached(s, n), Rounded(request)) && !Serves(s, Reached(s, n), Rounded(request))
  }

  /** The k-th header of the list, which ends with the end header. */
  function Header(s: State, k: nat): int {
    if k < |s.blocks| then s.blocks[k].off else s.End()
  }

  lemma HeaderInside(s: State, k: nat)
    requires s.Inv()
    ensures 0 <= Header(s, k) <= s.End()
  {
    if k < |s.blocks| {
      BlockInChain(s.blocks, k, s.End());
    } else if s.blocks != [] {
      ChainEnds(s.blocks, s.End());
    }
  }

  lemma NextIs(s: State, k: nat)
    requires s.Inv()
    ensures NextHeader(s, Header(s, k)) == Header(s, k + 1)
  {
    if k < |s.blocks| {
      FindBlock(s.blocks, s.End(), k);
      BlockInChain(s.blocks, k, s.End());
    } else {
      EndIsNoBlock(s);
    }
  }

  lemma {:induction false} ReachedIs(s: State, n: nat)
    requires s.Inv()
    ensures Reached(s, n) == Header(s, FirstFree(s.blocks) + n)
  {
    if n > 0 {
      ReachedIs(s, n - 1);
      NextIs(s, FirstFree(s.blocks) + n - 1);
    }
  }

  lemma ChainEnds(bs: seq<Block>, end: int)
    requires Chain(bs, 0, end) && bs != []
    ensures 0 <= end
  {
    BlockInChain(bs, 0, end);
  }

  lemma EndIsNoBlock(s: State)
    requires s.Inv()
    ensures Find(s.blocks, s.End()) == |s.blocks|
  {
    var k := Find(s.blocks, s.End());
    if k < |s.blocks| {
      BlockInChain(s.blocks, k, s.End());
    }
  }

  /** The scan of rt_malloc never ends exactly for a request that fits the heap, but not the minimum
      block that it is rounded up to. */
  lemma ScanNeverEnds(s: State, request: USize)
    requires s.Inv() && s.End() + HDR < WORD_RANGE
    ensures ScansForever(s, request) <==> request != 0 && AlignUp(request) <= s.memSize < MIN_SIZE
  {
    if request != 0 && AlignUp(request) <= s.memSize {
      if s.memSize < MIN_SIZE {
        forall n: nat ensures Passes(s, Reached(s, n), Rounded(request)) && !Serves(s, Reached(s, n), Rounded(request)) {
          TinyHeapPasses(s, n);
        }
      } else {
        var n := |s.blocks|;
        ReachedIs(s, n);
        HeaderInside(s, n);
        assert !Passes(s, Reached(s, n), Rounded(request));
      }
    }
  }

  lemma TinyHeapPasses(s: State, n: nat)
    requires s.Inv() && s.End() + HDR < WORD_RANGE && 0 <= s.memSize < MIN_SIZE
    ensures Passes(s, Reached(s, n), MIN_SIZE) && !Serves(s, Reached(s, n), MIN_SIZE)
  {
    ReachedIs(s, n);
    HeaderInside(s, FirstFree(s.blocks) + n);
    ScanGuardAtHeapEnd(s.memSize, MIN_SIZE);
    var k := Find(s.blocks, Reached(s, n));
    if k < |s.blocks| {
      BlockInChain(s.blocks, k, s.End());
    }
  }

  /** A heap of four bytes, just initialised, and a request for four bytes. */
  lemma TinyHeapScansForever()
    ensures Initial(4).Inv() && ScansForever(Initial(4), 4)
  {
    InitialInv(4);
    ScanNeverEnds(Initial(4), 4);
  }

  // ----- the invariant over one operation and over runs -----

  lemma TakeAllocated(s: State, k: nat, size: int)
    requires s.Inv() && k < |s.blocks| && Fits(s.blocks[k], size) && MIN_SIZE <= size
    ensures var c := Take(s.blocks, k, size)[k];
      && Allocated(Take(s.blocks, k, size)) == Allocated(s.blocks) + {c} && c !in Allocated(s.blocks)
      && c.used && c.off == s.blocks[k].off && size <= c.Payload()
    ensures forall b :: b in Allocated(Take(s.blocks, k, size)) ==> b.Payload() > 0
  {
    var bs := s.blocks;
    BlockInChain(bs, k, s.End());
    if bs[k].Payload() >= size + HDR + MIN_SIZE {
      SplitAllocated(bs, s.End(), k, bs[k].off + HDR + size);
    } else {
      SetUsedAllocated(bs, s.End(), k, true);
    }
    var c := Take(bs, k, size)[k];
    if c in bs {
      BlockAtOffset(s, k, c);
    }
  }

  lemma MallocKeeps(s: State, size: USize)
    requires s.Inv()
    ensures Malloc(s, size).0.Inv()
  {
    var k := Scan(s.blocks, s.memSize, Rounded(size), 0);
    if Malloc(s, size).1.At? {
      TakeKeeps(s.blocks, s.End(), k, Rounded(size));
      MallocAdds(s, size);
    }
  }

  lemma FreeKeeps(s: State, p: Ptr)
    requires s.Inv() && (p.At? ==> Live(s.blocks, p.off))
    ensures Free(s, p).Inv()
  {
    if p.At? {
      var k := LiveIndex(s, p.off);
      FreeBlockKeeps(s, k);
    }
  }

  lemma FreeBlockKeeps(s: State, k: nat)
    requires s.Inv() && k < |s.blocks| && s.blocks[k].used
    ensures s.(blocks := FreeAt(s.blocks, k)).Inv()
  {
    FreeAtKeeps(s.blocks, s.End(), k);
    FreeAtAllocated(s.blocks, s.End(), k);
    BlockInChain(s.blocks, k, s.End());
  }

  lemma ReallocKeeps(s: State, p: Ptr, newsize: USize)
    requires s.Inv() && (p.At? && 0 <= p.off < s.End() ==> Live(s.blocks, p.off))
    requires p.At? && AlignUp(newsize) == 0 ==> Live(s.blocks, p.off)
    ensures Realloc(s, p, newsize).0.Inv()
  {
    AlignUpMeaning(newsize);
    ReallocAlignedKeeps(s, p, AlignUp(newsize));
  }

  lemma ReallocAlignedKeeps(s: State, p: Ptr, size: USize)
    requires s.Inv() && size % 4 == 0
    requires p.At? && (0 <= p.off < s.End() || size == 0) ==> Live(s.blocks, p.off)
    ensures ReallocAligned(s, p, size).0.Inv()
  {
    if size == 0 {
      FreeKeeps(s, p);
    } else if p == Null {
      MallocKeeps(s, size);
    } else if 0 <= p.off < s.End() {
      ResizeAtKeeps(s, p.off, size);
    }
  }

  lemma ResizeAtKeeps(s: State, p: int, size: USize)
    requires s.Inv() && Live(s.blocks, p) && 0 < size && size % 4 == 0
    ensures Find(s.blocks, p - HDR) < |s.blocks| && Resize(s, Find(s.blocks, p - HDR), size).0.Inv()
  {
    var k := LiveIndex(s, p);
    ResizeKeeps(s, k, size);
  }

  lemma ResizeKeeps(s: State, k: nat, size: USize)
    requires s.Inv() && k < |s.blocks| && s.blocks[k].used && 0 < size && size % 4 == 0
    ensures Resize(s, k, size).0.Inv()
  {
    if s.blocks[k].Payload() == size {
    } else if size + HDR + MIN_SIZE < s.blocks[k].Payload() {
      ShrinkKeeps(s.blocks, s.End(), k, size);
      ShrinkAllocated(s, k, size);
    } else {
      assert s.blocks[k] in Allocated(s.blocks);
      MoveKeeps(s, s.blocks[k], size);
    }
  }

  lemma MoveKeeps(s: State, b: Block, size: USize)
    requires s.Inv() && b in Allocated(s.blocks)
    ensures Move(s, b.off + HDR, size).0.Inv()
  {
    MallocKeeps(s, size);
    if Malloc(s, size).1.At? {
      MallocAdds(s, size);
      StillLive(s, Malloc(s, size).0, b);
      FreeKeeps(Malloc(s, size).0, At(b.off + HDR));
    }
  }

  /** A live address is the payload address of exactly one used block, inside the heap. */
  lemma LiveIndex(s: State, p: int) returns (k: nat)
    requires s.Inv() && Live(s.blocks, p)
    ensures k < |s.blocks| && k == Find(s.blocks, p - HDR) && s.blocks[k].used && s.blocks[k].off + HDR == p
    ensures s.blocks[k] in Allocated(s.blocks)
    ensures HDR <= p < s.End()
  {
    k :| 0 <= k < |s.blocks| && s.blocks[k].used && s.blocks[k].off + HDR == p;
    FindBlock(s.blocks, s.End(), k);
    BlockInChain(s.blocks, k, s.End());
    assert s.blocks[k] in Allocated(s.blocks);
  }

  lemma StillLive(s: State, s': State, b: Block)
    requires b in Allocated(s'.blocks)
    ensures Live(s'.blocks, b.off + HDR)
  {
    var i :| 0 <= i < |s'.blocks| && s'.blocks[i] == b;
  }

  datatype Op = DoMalloc(size: USize) | DoFree(p: Ptr) | DoRealloc(p: Ptr, newsize: USize)

  /** The caller hands back only what it owns; rt_realloc also tolerates foreign addresses. */
  ghost predicate Allowed(s: State, op: Op) {
    match op
    case DoMalloc(_) => true
    case DoFree(p) => p.At? ==> Live(s.blocks, p.off)
    case DoRealloc(p, n) =>
      && (p.At? && 0 <= p.off < s.End() ==> Live(s.blocks, p.off))
      && (p.At? && AlignUp(n) == 0 ==> Live(s.blocks, p.off))
  }

  function Step(s: State, op: Op): State {
    match op
    case DoMalloc(n) => Malloc(s, n).0
    case DoFree(p) => Free(s, p)
    case DoRealloc(p, n) => Realloc(s, p, n).0
  }

  /** The most that is in use at any moment of one operation. A realloc that moves a block is at
      its fullest between its malloc and its free. */
  function Fullest(s: State, op: Op): int {
    if op.DoRealloc? && op.p.At? && Realloc(s, op.p, op.newsize).1.At? && Realloc(s, op.p, op.newsize).1 != op.p then
      UsedSum(Malloc(s, AlignUp(op.newsize)).0.blocks)
    else Max(UsedSum(s.blocks), UsedSum(Step(s, op).blocks))
  }

  lemma StepKeeps(s: State, op: Op)
    requires s.Inv() && Allowed(s, op)
    ensures Step(s, op).Inv() && Step(s, op).memSize == s.memSize
    ensures Step(s, op).maxMem == Max(s.maxMem, Fullest(s, op))
  {
    match op
    case DoMalloc(n) =>
      MallocKeeps(s, n);
      MallocGrows(s, n);
    case DoFree(p) =>
      FreeKeeps(s, p);
      FreeShrinks(s, p);
    case DoRealloc(p, n) =>
      ReallocKeeps(s, p, n);
      ReallocPeak(s, p, n);
  }

  lemma MallocGrows(s: State, size: USize)
    requires s.Inv()
    ensures UsedSum(s.blocks) <= UsedSum(Malloc(s, size).0.blocks)
    ensures Malloc(s, size).0.maxMem == Max(s.maxMem, UsedSum(Malloc(s, size).0.blocks))
    ensures Malloc(s, size).0.memSize == s.memSize
  {
    var k := Scan(s.blocks, s.memSize, Rounded(size), 0);
    if Malloc(s, size).1.At? {
      FindTaken(s, k, Rounded(size));
      TakeKeeps(s.blocks, s.End(), k, Rounded(size));
      BlockInChain(Take(s.blocks, k, Rounded(size)), k, s.End());
    }
  }

  lemma FreeShrinks(s: State, p: Ptr)
    requires s.Inv() && (p.At? ==> Live(s.blocks, p.off))
    ensures UsedSum(Free(s, p).blocks) <= UsedSum(s.blocks) && Free(s, p).maxMem == s.maxMem
    ensures Free(s, p).memSize == s.memSize
  {
    if p.At? {
      var k := LiveIndex(s, p.off);
      assert UsedSum(FreeAt(s.blocks, k)) <= UsedSum(s.blocks) by {
        FreeAtKeeps(s.blocks, s.End(), k);
        BlockInChain(s.blocks, k, s.End());
      }
    }
  }

  lemma ReallocPeak(s: State, p: Ptr, newsize: USize)
    requires s.Inv() && Allowed(s, DoRealloc(p, newsize))
    ensures Peaked(s, p, AlignUp(newsize), Realloc(s, p, newsize))
  {
    AlignUpMeaning(newsize);
    ReallocAlignedPeak(s, p, AlignUp(newsize));
  }

  lemma ReallocAlignedPeak(s: State, p: Ptr, size: USize)
    requires s.Inv() && size % 4 == 0
    requires p.At? && (0 <= p.off < s.End() || size == 0) ==> Live(s.blocks, p.off)
    ensures Peaked(s, p, size, ReallocAligned(s, p, size))
  {
    if size == 0 {
      FreeShrinks(s, p);
    } else if p == Null {
      MallocGrows(s, size);
    } else if 0 <= p.off < s.End() && size <= s.memSize {
      ResizeAtPeak(s, p.off, size);
    }
  }

  ghost predicate Peaked(s: State, p: Ptr, size: USize, r: (State, Ptr)) {
    && r.0.memSize == s.memSize
    && (if p.At? && r.1.At? && r.1 != p then r.0.maxMem == Max(s.maxMem, UsedSum(Malloc(s, size).0.blocks))
        else r.0.maxMem == Max(s.maxMem, Max(UsedSum(s.blocks), UsedSum(r.0.blocks))))
  }

  lemma ResizeAtPeak(s: State, p: int, size: USize)
    requires s.Inv() && Live(s.blocks, p) && 0 < size <= s.memSize && size % 4 == 0
    ensures Peaked(s, At(p), size, ReallocAligned(s, At(p), size))
  {
    var k := LiveIndex(s, p);
    ReallocIsResize(s, p, size, k);
    assert Peaked(s, At(p), size, Resize(s, k, size)) by { ResizePeak(s, k, size); }
  }

  lemma ReallocIsResize(s: State, p: int, size: USize, k: nat)
    requires 0 < size <= s.memSize && 0 <= p < s.End() && k == Find(s.blocks, p - HDR) < |s.blocks|
    ensures ReallocAligned(s, At(p), size) == Resize(s, k, size)
  {
  }

  lemma ResizePeak(s: State, k: nat, size: USize)
    requires s.Inv() && k < |s.blocks| && s.blocks[k].used && 0 < size && size % 4 == 0
    ensures Peaked(s, At(s.blocks[k].off + HDR), size, Resize(s, k, size))
  {
    var b := s.blocks[k];
    if b.Payload() == size {
    } else if size + HDR + MIN_SIZE < b.Payload() {
      ShrinkKeeps(s.blocks, s.End(), k, size);
    } else {
      assert b in Allocated(s.blocks);
      MallocGrows(s, size);
      if Malloc(s, size).1.At? {
        var c := MoveMeaning(s, b, size);
      }
    }
  }

  ghost predicate AllowedRun(s: State, ops: seq<Op>)
    decreases |ops|
  {
    ops != [] ==> Allowed(s, ops[0]) && AllowedRun(Step(s, ops[0]), ops[1..])
  }

  function Run(s: State, ops: seq<Op>): State
    decreases |ops|
  {
    if ops == [] then s else Run(Step(s, ops[0]), ops[1..])
  }

  /** The most that is in use at any moment of a run. */
  function Peak(s: State, ops: seq<Op>): int
    decreases |ops|
  {
    if ops == [] then UsedSum(s.blocks) else Max(Fullest(s, ops[0]), Peak(Step(s, ops[0]), ops[1..]))
  }

  /** rt_system_heap_init leaves one free block. */
  function Initial(memSize: int): State {
    State(memSize, [Block(0, memSize + HDR, false)], 0)
  }

  /** Every run of the three operations keeps the chain, the absence of free neighbours and the
      accounting, and max_mem is the true high-water mark of the bytes in use. */
  lemma {:induction false} RunKeeps(s: State, ops: seq<Op>)
    requires s.Inv() && AllowedRun(s, ops)
    ensures Run(s, ops).Inv() && Run(s, ops).maxMem == Max(s.maxMem, Peak(s, ops))
    decreases |ops|
  {
    if ops != [] {
      StepKeeps(s, ops[0]);
      RunKeeps(Step(s, ops[0]), ops[1..]);
    }
  }

  lemma InitialInv(memSize: int)
    requires 0 <= memSize && memSize % 4 == 0
    ensures Initial(memSize).Inv()
  {
    Pair(Block(0, memSize + HDR, false), Block(0, memSize + HDR, false));
  }

  // ----- the heap as a set of allocated blocks -----

  lemma AllocatedApart(s: State, a: Block, b: Block)
    requires s.Inv() && a in Allocated(s.blocks) && b in Allocated(s.blocks)
    ensures a != b ==> a.next <= b.off || b.next <= a.off
    ensures (a.off + HDR) % 4 == 0 && 0 <= a.off && a.off + HDR <= a.next <= s.End()
  {
    var i :| 0 <= i < |s.blocks| && s.blocks[i] == a;
    var j :| 0 <= j < |s.blocks| && s.blocks[j] == b;
    BlockInChain(s.blocks, i, s.End());
    if i < j {
      BlocksApart(s.blocks, s.End(), i, j);
    } else if j < i {
      BlocksApart(s.blocks, s.End(), j, i);
    }
  }

  /** The block that serves a request: rt_malloc's mem after the call. */
  function Served(s: State, size: USize): Block
    requires Malloc(s, size).1.At?
  {
    var k := Scan(s.blocks, s.memSize, Rounded(size), 0);
    Take(s.blocks, k, Rounded(size))[k]
  }

  /** rt_malloc adds one block to the allocated ones and changes none of them. */
  lemma MallocAdds(s: State, size: USize)
    requires s.Inv() && Malloc(s, size).1.At?
    ensures var (s', p) := Malloc(s, size);
      && Allocated(s'.blocks) == Allocated(s.blocks) + {Served(s, size)}
      && Served(s, size) !in Allocated(s.blocks)
      && p.off == Served(s, size).off + HDR && Live(s'.blocks, p.off)
  {
    TakeAllocated(s, Scan(s.blocks, s.memSize, Rounded(size), 0), Rounded(size));
    StillLive(s, Malloc(s, size).0, Served(s, size));
  }

  /** The block handed out is large enough for every request that RT_ALIGN can represent, and
      for no other: a request in the last three bytes of the type gets the minimum block. */
  lemma MallocServes(s: State, size: USize)
    requires s.Inv() && Malloc(s, size).1.At?
    ensures size <= Served(s, size).Payload() <==> size <= WORD_RANGE - RT_ALIGN_SIZE
    ensures AlignUp(size) <= Served(s, size).Payload() && MIN_SIZE <= Served(s, size).Payload()
  {
    AlignUpMeaning(size);
  }

  /** A heap of 36 bytes, just initialised, and a request for 2^32 - 1: a block of twelve is handed
      out. */
  lemma LastSizeGetsMinimum()
    ensures Initial(36).Inv() && Malloc(Initial(36), WORD_RANGE - 1).1 == At(HDR)
    ensures Served(Initial(36), WORD_RANGE - 1) == Block(0, 24, true) && Block(0, 24, true).Payload() == MIN_SIZE
  {
    InitialInv(36);
    FirstFitIsExact(Initial(36), MIN_SIZE);
    AlignUpMeaning(WORD_RANGE - 1);
  }

  /** rt_free removes exactly the block whose payload address it is given. */
  lemma FreeRemoves(s: State, b: Block)
    requires s.Inv() && b in Allocated(s.blocks)
    ensures Allocated(Free(s, At(b.off + HDR)).blocks) == Allocated(s.blocks) - {b}
    ensures Live(s.blocks, b.off + HDR)
  {
    StillLive(s, s, b);
    var k := LiveIndex(s, b.off + HDR);
    BlockAtOffset(s, k, b);
    FreeAtAllocated(s.blocks, s.End(), k);
  }

  /** Shrinking in place replaces the block by a shorter one at the same address. */
  lemma ShrinkAllocated(s: State, k: nat, size: int)
    requires s.Inv() && k < |s.blocks| && s.blocks[k].used
    requires size >= 0 && size % 4 == 0 && size + HDR + MIN_SIZE < s.blocks[k].Payload()
    ensures Allocated(Shrink(s.blocks, k, size))
      == Allocated(s.blocks) - {s.blocks[k]} + {Block(s.blocks[k].off, s.blocks[k].off + HDR + size, true)}
  {
    ShrinkAllocatedList(s.blocks, s.End(), k, size);
  }

  lemma ShrinkAllocatedList(bs: seq<Block>, end: int, k: nat, size: int)
    requires Chain(bs, 0, end) && k < |bs| && bs[k].used
    requires size >= 0 && size % 4 == 0 && size + HDR + MIN_SIZE < bs[k].Payload()
    ensures Allocated(Shrink(bs, k, size)) == Allocated(bs) - {bs[k]} + {Block(bs[k].off, bs[k].off + HDR + size, true)}
  {
    var p := bs[k].off + HDR + size;
    assert bs[k].off + HDR <= p && p + HDR <= bs[k].next;
    assert p % 4 == 0 by {
      BlockInChain(bs, k, end);
      Sum4(bs[k].off, size);
    }
    assert Shrink(bs, k, size) == Plug(Split(bs, k, p), k + 1);
    CutAndPlug(bs, end, k, p);
  }

  lemma CutAndPlug(bs: seq<Block>, end: int, k: nat, p: int)
    requires Chain(bs, 0, end) && k < |bs|
    requires bs[k].off + HDR <= p && p + HDR <= bs[k].next && p % 4 == 0
    ensures Allocated(Plug(Split(bs, k, p), k + 1)) == Allocated(bs) - {bs[k]} + {Block(bs[k].off, p, true)}
  {
    SplitKeeps(bs, end, k, p);
    SplitAllocated(bs, end, k, p);
    PlugAllocated(Split(bs, k, p), end, k + 1);
  }

  /** Block b gave way to block c: cut short at its address, or a block that was not in use. */
  ghost predicate Replaced(s: State, s': State, b: Block, c: Block) {
    && Allocated(s'.blocks) == Allocated(s.blocks) - {b} + {c}
    && (if c.off == b.off then c.next <= b.next else c !in Allocated(s.blocks))
  }

  /** What rt_realloc does to a live block b: it frees it (aligned size zero), keeps the heap as it
      was and reports failure, changes it in place, or moves it to a fresh block. Every other block
      stays, and the block returned holds the requested size. */
  lemma ReallocMeaning(s: State, b: Block, newsize: USize)
    requires s.Inv() && b in Allocated(s.blocks)
    ensures var (s', q) := Realloc(s, At(b.off + HDR), newsize);
      if AlignUp(newsize) == 0 then q == Null && Allocated(s'.blocks) == Allocated(s.blocks) - {b}
      else Resized(s, b, AlignUp(newsize), (s', q))
  {
    var size := AlignUp(newsize);
    AlignUpMeaning(newsize);
    if size > s.memSize {
      AllocatedApart(s, b, b);
    } else if size == 0 {
      FreeRemoves(s, b);
    } else {
      ResizeAtMeaning(s, b, size);
    }
  }

  /** Failure leaves the heap as it was; success leaves a block of the requested size for b. */
  ghost predicate Resized(s: State, b: Block, size: USize, r: (State, Ptr)) {
    && (r.1 == Null ==> r.0 == s)
    && (r.1.At? ==> exists c :: Replaced(s, r.0, b, c) && r.1 == At(c.off + HDR) && size <= c.Payload())
  }

  lemma ResizeAtMeaning(s: State, b: Block, size: USize)
    requires s.Inv() && b in Allocated(s.blocks) && 0 < size <= s.memSize && size % 4 == 0
    ensures Resized(s, b, size, ReallocAligned(s, At(b.off + HDR), size))
  {
    StillLive(s, s, b);
    var k := LiveIndex(s, b.off + HDR);
    BlockAtOffset(s, k, b);
    ReallocIsResize(s, b.off + HDR, size, k);
    ResizeMeaning(s, k, size);
  }

  lemma ResizeMeaning(s: State, k: nat, size: USize)
    requires s.Inv() && k < |s.blocks| && s.blocks[k].used && 0 < size && size % 4 == 0
    ensures Resized(s, s.blocks[k], size, Resize(s, k, size))
  {
    var b := s.blocks[k];
    assert b in Allocated(s.blocks);
    if b.Payload() == size {
      assert Replaced(s, s, b, b);
    } else if size + HDR + MIN_SIZE < b.Payload() {
      ShrinkAllocated(s, k, size);
      assert Replaced(s, Resize(s, k, size).0, b, Block(b.off, b.off + HDR + size, true));
    } else if Malloc(s, size).1.At? {
      var c := MoveMeaning(s, b, size);
    }
  }

  lemma BlockAtOffset(s: State, k: nat, b: Block)
    requires s.Inv() && k < |s.blocks| && b in s.blocks && b.off == s.blocks[k].off
    ensures s.blocks[k] == b
  {
    var i :| 0 <= i < |s.blocks| && s.blocks[i] == b;
    FindBlock(s.blocks, s.End(), i);
    FindBlock(s.blocks, s.End(), k);
  }

  lemma MoveMeaning(s: State, b: Block, size: USize) returns (c: Block)
    requires s.Inv() && b in Allocated(s.blocks) && Malloc(s, size).1.At? && size % 4 == 0
    ensures Replaced(s, Move(s, b.off + HDR, size).0, b, c) && c.off != b.off && size <= c.Payload()
    ensures Move(s, b.off + HDR, size).1 == At(c.off + HDR)
  {
    MallocKeeps(s, size);
    c := MallocGives(s, size);
    MoveReplaces(s, Malloc(s, size).0, b, c);
  }

  lemma MallocGives(s: State, size: USize) returns (c: Block)
    requires s.Inv() && Malloc(s, size).1.At? && size % 4 == 0
    ensures Allocated(Malloc(s, size).0.blocks) == Allocated(s.blocks) + {c} && c !in Allocated(s.blocks)
    ensures Malloc(s, size).1 == At(c.off + HDR) && size <= c.Payload()
  {
    c := Served(s, size);
    MallocAdds(s, size);
    MallocServes(s, size);
  }

  lemma MoveReplaces(s: State, s1: State, b: Block, c: Block)
    requires s1.Inv() && b in Allocated(s.blocks) && c !in Allocated(s.blocks)
    requires Allocated(s1.blocks) == Allocated(s.blocks) + {c}
    ensures Replaced(s, Free(s1, At(b.off + HDR)), b, c) && c.off != b.off
  {
    FreeRemoves(s1, b);
    AllocatedApart(s1, b, c);
  }

  /** A NULL result for a nonzero size leaves the old block in place, exactly for the sizes that
      RT_ALIGN does not wrap to zero; for the others the block has been freed. */
  lemma NullReallocKeepsBlock(s: State, b: Block, newsize: USize)
    requires s.Inv() && b in Allocated(s.blocks) && newsize != 0
    requires Realloc(s, At(b.off + HDR), newsize).1 == Null
    ensures b in Allocated(Realloc(s, At(b.off + HDR), newsize).0.blocks) <==> newsize <= WORD_RANGE - RT_ALIGN_SIZE
  {
    AlignUpMeaning(newsize);
    ReallocMeaning(s, b, newsize);
  }

  /** On that heap, with twelve bytes allocated, rt_realloc to 2^32 - 1 bytes returns NULL and has
      freed the block. */
  lemma NullReallocFrees()
    ensures var s := Malloc(Initial(36), 12).0;
      && s.Inv() && Block(0, 24, true) in Allocated(s.blocks)
      && Realloc(s, At(HDR), WORD_RANGE - 1).1 == Null
      && Block(0, 24, true) !in Allocated(Realloc(s, At(HDR), WORD_RANGE - 1).0.blocks)
  {
    InitialInv(36);
    MallocKeeps(Initial(36), 12);
    FirstFitIsExact(Initial(36), 12);
    MallocAdds(Initial(36), 12);
    AlignUpMeaning(WORD_RANGE - 1);
    assert Served(Initial(36), 12) == Block(0, 24, true);
    ReallocMeaning(Malloc(Initial(36), 12).0, Block(0, 24, true), WORD_RANGE - 1);
  }

  /** Freeing what rt_malloc just returned restores the list of blocks, hence lfree and used_mem. */
  lemma FreeUndoesMalloc(s: State, size: USize)
    requires s.Inv() && Malloc(s, size).1.At?
    ensures Free(Malloc(s, size).0, Malloc(s, size).1).blocks == s.blocks
  {
    var k := Scan(s.blocks, s.memSize, Rounded(size), 0);
    var s' := Malloc(s, size).0;
    FindTaken(s, k, Rounded(size));
    assert Free(s', Malloc(s, size).1).blocks == FreeAt(Take(s.blocks, k, Rounded(size)), k);
    assert FreeAt(Take(s.blocks, k, Rounded(size)), k) == s.blocks by {
      CutNeighbours(s.blocks, k);
      CutNeighbours(s.blocks, k + 1);
      FreeUndoesTake(s.blocks, k, Rounded(size));
    }
  }

  lemma FindTaken(s: State, k: nat, size: int)
    requires s.Inv() && k < |s.blocks| && Fits(s.blocks[k], size) && MIN_SIZE <= size && size % 4 == 0
    ensures k < |Take(s.blocks, k, size)| && Find(Take(s.blocks, k, size), s.blocks[k].off) == k
    ensures 0 <= s.blocks[k].off + HDR < s.End()
  {
    TakeKeeps(s.blocks, s.End(), k, size);
    BlockInChain(s.blocks, k, s.End());
    FindBlock(Take(s.blocks, k, size), s.End(), k);
  }

  lemma FreeUndoesTake(bs: seq<Block>, k: nat, size: int)
    requires k < |bs| && !bs[k].used
    requires k > 0 ==> bs[k - 1].used
    requires k + 1 < |bs| ==> bs[k + 1].used
    ensures FreeAt(Take(bs, k, size), k) == bs
  {
    var fs := SetUsed(Take(bs, k, size), k, false);
    if bs[k].Payload() >= size + HDR + MIN_SIZE {
      assert fs == bs[..k] + [Block(bs[k].off, bs[k].off + HDR + size, false), Block(bs[k].off + HDR + size, bs[k].next, false)] + bs[k + 1..];
      assert PlugForward(fs, k) == bs;
    } else {
      assert fs == bs;
    }
  }
}
