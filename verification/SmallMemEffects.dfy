/** What each operation of the small memory heap does to the list of blocks, exactly. */
module SmallMemEffects {
  import opened RtDef
  import opened BlockList
  import opened BlockListExact
  import opened SmallMemSpec
  import opened SmallMemLaws

  // ----- rt_malloc -----

  /** A free block with room for r bytes, in front of the place where the search gives up. */
  predicate Servable(b: Block, memSize: int, r: int) {
    !b.used && r <= b.next - b.off - 12 && b.off < memSize - r
  }

  /** What a request comes to: the next multiple of four, at least twelve. */
  function Need(n: USize): int {
    if AlignUp(n) < 12 then 12 else AlignUp(n)
  }

  /** NULL is the answer exactly for a request of nothing, one that exceeds the heap, and one that no
      block can serve; then nothing has changed. Otherwise the lowest block that can serve it does,
      from its start: it is cut behind r bytes if another header and twelve bytes remain, and the rest
      is one free block; else it is handed out whole. */
  lemma MallocEffect(s: State, n: USize) returns (k: nat)
    requires s.Inv()
    ensures Malloc(s, n).1 == Null <==>
      n == 0 || AlignUp(n) > s.memSize || forall j :: 0 <= j < |s.blocks| ==> !Servable(s.blocks[j], s.memSize, Need(n))
    ensures Malloc(s, n).1 == Null ==> Malloc(s, n).0 == s
    ensures Malloc(s, n).1.At? ==> k < |s.blocks| && Servable(s.blocks[k], s.memSize, Need(n))
    ensures Malloc(s, n).1.At? ==> forall j :: 0 <= j < k ==> !Servable(s.blocks[j], s.memSize, Need(n))
    ensures Malloc(s, n).1.At? ==> Malloc(s, n).1.off == s.blocks[k].off + 12
    ensures Malloc(s, n).1.At? ==> Malloc(s, n).0.blocks == s.blocks[..k] + Parts(s.blocks[k], Need(n)) + s.blocks[k + 1..]
    ensures Malloc(s, n).1.At? ==> UsedSum(Malloc(s, n).0.blocks) == UsedSum(s.blocks) + Extent(s.blocks[k], Need(n))
    ensures Malloc(s, n).0.memSize == s.memSize
  {
    var r := Need(n);
    assert r == Rounded(n);
    k := Scan(s.blocks, s.memSize, r, 0);
    ScanFinds(s.blocks, s.memSize, r, 0);
    if Malloc(s, n).1.At? {
      TakeIs(s.blocks, k, r);
      AlignUpMeaning(n);
      TakeKeeps(s.blocks, s.End(), k, r);
    }
  }

  /** Block b once it serves r bytes: cut in two, or whole. */
  function Parts(b: Block, r: int): seq<Block> {
    if b.next - b.off - 12 >= r + 24 then [Block(b.off, b.off + 12 + r, true), Block(b.off + 12 + r, b.next, false)]
    else [Block(b.off, b.next, true)]
  }

  /** The bytes in use that this adds. */
  function Extent(b: Block, r: int): int {
    if b.next - b.off - 12 >= r + 24 then r + 12 else b.next - b.off
  }

  lemma TakeIs(bs: seq<Block>, k: nat, r: int)
    requires k < |bs|
    ensures Take(bs, k, r) == bs[..k] + Parts(bs[k], r) + bs[k + 1..]
    ensures Take(bs, k, r)[k] == Parts(bs[k], r)[0]
  {
  }

  /** The block handed out, and nothing else, is new among the allocated ones. */
  lemma MallocGivesBlock(s: State, n: USize) returns (k: nat)
    requires s.Inv() && Malloc(s, n).1.At?
    ensures k < |s.blocks| && Servable(s.blocks[k], s.memSize, Need(n))
    ensures forall j :: 0 <= j < k ==> !Servable(s.blocks[j], s.memSize, Need(n))
    ensures Allocated(Malloc(s, n).0.blocks) == Allocated(s.blocks) + {Parts(s.blocks[k], Need(n))[0]}
    ensures Parts(s.blocks[k], Need(n))[0] !in Allocated(s.blocks)
  {
    k := MallocEffect(s, n);
    TakeAllocated(s, k, Need(n));
    TakeIs(s.blocks, k, Need(n));
  }

  // ----- rt_free -----

  /** Freeing block k leaves one free block over it and its free neighbours, and nothing else changes;
      its bytes are no longer in use. NULL and addresses without a block change nothing. */
  lemma FreeEffect(s: State, k: nat)
    requires s.Inv() && k < |s.blocks| && s.blocks[k].used
    ensures var bs, i, j := s.blocks, Left(s.blocks, k), Right(s.blocks, k);
      Free(s, At(bs[k].off + 12)) == s.(blocks := bs[..i] + [Block(bs[i].off, bs[j - 1].next, false)] + bs[j..])
    ensures UsedSum(Free(s, At(s.blocks[k].off + 12)).blocks) == UsedSum(s.blocks) - (s.blocks[k].next - s.blocks[k].off)
  {
    assert s.blocks[k] in Allocated(s.blocks);
    BlockInChain(s.blocks, k, s.End());
    FindBlock(s.blocks, s.End(), k);
    FreeAtIs(s.blocks, k);
    FreeAtKeeps(s.blocks, s.End(), k);
  }

  lemma FreeNothing(s: State, p: Ptr)
    requires p.At? ==> forall j :: 0 <= j < |s.blocks| ==> s.blocks[j].off + 12 != p.off
    ensures Free(s, p) == s
  {
    if p.At? {
      var k := Find(s.blocks, p.off - HDR);
      assert k == |s.blocks|;
    }
  }

  // ----- rt_realloc -----

  /** rt_realloc of the live block k: too large a size is refused, and zero frees the block. */
  lemma ReallocEnds(s: State, k: nat, newsize: USize)
    requires s.Inv() && k < |s.blocks| && s.blocks[k].used
    ensures AlignUp(newsize) > s.memSize ==> Realloc(s, At(s.blocks[k].off + 12), newsize) == (s, Null)
    ensures AlignUp(newsize) == 0 ==>
      Realloc(s, At(s.blocks[k].off + 12), newsize) == (Free(s, At(s.blocks[k].off + 12)), Null)
  {
    BlockInChain(s.blocks, k, s.End());
  }

  /** The aligned size that the block has leaves everything. */
  lemma ReallocKeepsAll(s: State, k: nat, newsize: USize)
    requires s.Inv() && k < |s.blocks| && s.blocks[k].used
    requires 0 < AlignUp(newsize) == s.blocks[k].next - s.blocks[k].off - 12
    ensures Realloc(s, At(s.blocks[k].off + 12), newsize) == (s, At(s.blocks[k].off + 12))
  {
    ReallocAt(s, k, newsize);
  }

  lemma ReallocAt(s: State, k: nat, newsize: USize)
    requires s.Inv() && k < |s.blocks| && s.blocks[k].used && 0 < AlignUp(newsize)
    ensures AlignUp(newsize) <= s.memSize ==> Realloc(s, At(s.blocks[k].off + 12), newsize) == Resize(s, k, AlignUp(newsize))
    ensures s.blocks[k].Payload() <= s.memSize
  {
    BlockInChain(s.blocks, k, s.End());
    FindBlock(s.blocks, s.End(), k);
  }

  /** A size that leaves room for a header, twelve bytes and more cuts the block at its place, and the
      rest is given back. */
  lemma ReallocCuts(s: State, k: nat, newsize: USize)
    requires s.Inv() && k < |s.blocks| && s.blocks[k].used && 0 < AlignUp(newsize)
    requires AlignUp(newsize) + 24 < s.blocks[k].next - s.blocks[k].off - 12
    ensures Realloc(s, At(s.blocks[k].off + 12), newsize).1 == At(s.blocks[k].off + 12)
    ensures Cut(s, Realloc(s, At(s.blocks[k].off + 12), newsize).0, k, AlignUp(newsize))
  {
    AlignUpMeaning(newsize);
    ReallocAt(s, k, newsize);
    CutEffect(s, k, AlignUp(newsize));
  }

  /** Any other size, a slightly smaller one included, is served by rt_malloc; the old block is freed,
      unless that fails. */
  lemma ReallocMoves(s: State, k: nat, newsize: USize)
    requires s.Inv() && k < |s.blocks| && s.blocks[k].used && 0 < AlignUp(newsize) <= s.memSize
    requires var len := s.blocks[k].next - s.blocks[k].off - 12; AlignUp(newsize) != len && len <= AlignUp(newsize) + 24
    ensures var p, r := At(s.blocks[k].off + 12), Malloc(s, AlignUp(newsize));
      Realloc(s, p, newsize) == if r.1 == Null then (s, Null) else (Free(r.0, p), r.1)
  {
    ReallocAt(s, k, newsize);
    var j := MallocEffect(s, AlignUp(newsize));
  }

  /** Block k has been cut down to n bytes at its place; by `ListDetermined` this is all that matters. */
  ghost predicate Cut(s: State, s': State, k: nat, n: int)
    requires k < |s.blocks|
  {
    var b := s.blocks[k];
    && s'.Inv() && s'.memSize == s.memSize && s'.maxMem == s.maxMem
    && Allocated(s'.blocks) == Allocated(s.blocks) - {b} + {Block(b.off, b.off + 12 + n, true)}
    && UsedSum(s'.blocks) == UsedSum(s.blocks) - (b.next - b.off - 12 - n)
  }

  lemma CutEffect(s: State, k: nat, n: USize)
    requires s.Inv() && k < |s.blocks| && s.blocks[k].used && 0 < n && n % 4 == 0 && n + 24 < s.blocks[k].Payload()
    ensures Resize(s, k, n).1 == At(s.blocks[k].off + 12) && Cut(s, Resize(s, k, n).0, k, n)
  {
    ShrinkKeeps(s.blocks, s.End(), k, n);
    ShrinkAllocated(s, k, n);
    ResizeKeeps(s, k, n);
  }

  /** rt_realloc of NULL allocates; an address outside the heap, or without a block, comes back. */
  lemma ReallocOther(s: State, p: Ptr, newsize: USize)
    requires 0 < AlignUp(newsize) <= s.memSize
    ensures p == Null ==> Realloc(s, p, newsize) == Malloc(s, AlignUp(newsize))
    ensures p.At? && (p.off < 0 || p.off >= s.memSize + 12) ==> Realloc(s, p, newsize) == (s, p)
    ensures p.At? && (forall j :: 0 <= j < |s.blocks| ==> s.blocks[j].off + 12 != p.off) ==> Realloc(s, p, newsize) == (s, p)
  {
  }
}
