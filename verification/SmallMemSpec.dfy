/** The small memory heap (mem.c): its operations on the list of blocks. */
module SmallMemSpec {
  import opened RtDef
  import opened BlockList

  /** MIN_SIZE_ALIGNED on a 32-bit target. */
  const MIN_SIZE: int := 12

  /** p is the payload address of a used block. */
  ghost predicate Live(bs: seq<Block>, p: int) {
    exists k :: 0 <= k < |bs| && bs[k].used && bs[k].off + HDR == p
  }

  // ----- the operations on block lists -----

  predicate Fits(b: Block, size: int) {
    !b.used && b.next - (b.off + HDR) >= size
  }

  /** The search loop of rt_malloc, from block i on; |bs| when it ends without a block. */
  function Scan(bs: seq<Block>, memSize: int, size: int, i: nat): (k: nat)
    requires i <= |bs|
    ensures i <= k <= |bs|
    ensures k < |bs| ==> Fits(bs[k], size)
    decreases |bs| - i
  {
    if i < |bs| && bs[i].off < memSize - size then
      if Fits(bs[i], size) then i else Scan(bs, memSize, size, i + 1)
    else |bs|
  }

  /** Block k serves a request of `size` bytes. */
  function Take(bs: seq<Block>, k: nat, size: int): seq<Block>
    requires k < |bs|
  {
    if bs[k].Payload() >= size + HDR + MIN_SIZE then Split(bs, k, bs[k].off + HDR + size)
    else SetUsed(bs, k, true)
  }

  /** The list of blocks and the high-water mark; `lfree` and `used_mem` are functions of it. */
  datatype State = State(memSize: int, blocks: seq<Block>, maxMem: int) {
    function End(): int { memSize + HDR }

    ghost predicate Inv() {
      && blocks != [] && Chain(blocks, 0, End()) && NoFreeNeighbours(blocks)
      && UsedSum(blocks) <= maxMem
      && forall b :: b in Allocated(blocks) ==> b.Payload() > 0
    }

    function With(bs: seq<Block>): State {
      State(memSize, bs, Max(maxMem, UsedSum(bs)))
    }
  }

  /** Requests are rounded up to the alignment and then to the minimum size. */
  function Rounded(size: USize): int {
    Max(AlignUp(size), MIN_SIZE)
  }

  /** The request does not get as far as a scan that never ends: the heap holds a minimum block, or
      the request is turned down before. */
  predicate Ends(memSize: int, request: USize) {
    MIN_SIZE <= memSize || request == 0 || AlignUp(request) > memSize
  }

  /** What rt_malloc does to the heap, and what it returns. */
  function Malloc(s: State, size: USize): (State, Ptr) {
    if size == 0 || AlignUp(size) > s.memSize then (s, Null)
    else
      var k := Scan(s.blocks, s.memSize, Rounded(size), 0);
      if k == |s.blocks| then (s, Null)
      else (s.With(Take(s.blocks, k, Rounded(size))), At(s.blocks[k].off + HDR))
  }

  function Free(s: State, p: Ptr): State {
    if p == Null || p.off < 0 || p.off >= s.End() then s
    else
      var k := Find(s.blocks, p.off - HDR);
      if k == |s.blocks| then s else s.(blocks := FreeAt(s.blocks, k))
  }

  /** Block k is cut down to `size` payload bytes; the rest becomes free and is plugged. */
  function Shrink(bs: seq<Block>, k: nat, size: int): seq<Block>
    requires k < |bs|
  {
    Plug(Split(bs, k, bs[k].off + HDR + size), k + 1)
  }

  /** The path of rt_realloc that allocates, copies and frees. */
  function Move(s: State, p: int, size: USize): (State, Ptr) {
    var (s', q) := Malloc(s, size);
    if q == Null then (s', Null) else (Free(s', At(p)), q)
  }

  /** rt_realloc on block k, for an aligned nonzero size. */
  function Resize(s: State, k: nat, size: USize): (State, Ptr)
    requires k < |s.blocks|
  {
    var p := s.blocks[k].off + HDR;
    if s.blocks[k].Payload() == size then (s, At(p))
    else if size + HDR + MIN_SIZE < s.blocks[k].Payload() then
      (s.(blocks := Shrink(s.blocks, k, size)), At(p))
    else Move(s, p, size)
  }

  function Realloc(s: State, p: Ptr, newsize: USize): (State, Ptr) {
    ReallocAligned(s, p, AlignUp(newsize))
  }

  function ReallocAligned(s: State, p: Ptr, size: USize): (State, Ptr) {
    if size > s.memSize then (s, Null)
    else if size == 0 then (Free(s, p), Null)
    else if p == Null then Malloc(s, size)
    else if p.off < 0 || p.off >= s.End() then (s, p)
    else
      var k := Find(s.blocks, p.off - HDR);
      if k == |s.blocks| then (s, p) else Resize(s, k, size)
  }

  lemma TakeKeeps(bs: seq<Block>, end: int, k: nat, size: int)
    requires Chain(bs, 0, end) && NoFreeNeighbours(bs) && k < |bs| && Fits(bs[k], size)
    requires size >= 0 && size % 4 == 0
    ensures Chain(Take(bs, k, size), 0, end) && NoFreeNeighbours(Take(bs, k, size))
    ensures UsedSum(Take(bs, k, size)) == UsedSum(bs) + (Take(bs, k, size)[k].next - bs[k].off)
  {
    BlockInChain(bs, k, end);
    if bs[k].Payload() >= size + HDR + MIN_SIZE {
      var p := bs[k].off + HDR + size;
      SplitKeeps(bs, end, k, p);
      ReplacedNeighbours(bs, k, [Block(bs[k].off, p, true), Block(p, bs[k].next, false)]);
    } else {
      SetUsedKeeps(bs, end, k, true);
      ReplacedNeighbours(bs, k, [bs[k].(used := true)]);
      assert SetUsed(bs, k, true) == bs[..k] + [bs[k].(used := true)] + bs[k + 1..];
    }
  }

  lemma ShrinkKeeps(bs: seq<Block>, end: int, k: nat, size: int)
    requires Chain(bs, 0, end) && NoFreeNeighbours(bs) && k < |bs| && bs[k].used
    requires size >= 0 && size % 4 == 0 && size + HDR + MIN_SIZE < bs[k].Payload()
    ensures Chain(Shrink(bs, k, size), 0, end) && NoFreeNeighbours(Shrink(bs, k, size))
    ensures UsedSum(Shrink(bs, k, size)) == UsedSum(bs) - (bs[k].Payload() - size)
  {
    var p := bs[k].off + HDR + size;
    BlockInChain(bs, k, end);
    Sum4(bs[k].off, size);
    SplitKeeps(bs, end, k, p);
    CutSides(bs, k, p);
    PlugKeeps(Split(bs, k, p), end, k + 1);
  }
}
