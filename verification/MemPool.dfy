/** The pool object: the chain runs through the first word of each free block. */
module MemPool {
  import opened RtDef
  import opened Sequences
  import opened WaitList
  import opened Spec = MemPoolSpec

  /** sizeof(rt_uint8_t *) */
  const POINTER_SIZE: int := 4

  /** A block's header word: the link of a free block, or the owner of a live one. */
  datatype Word = Next(link: Ptr) | Owner

  /** The distance between two blocks, in the 32-bit arithmetic of rt_mp_init. */
  function Stride(blockSize: USize): USize {
    Wrap(AlignUp(blockSize) + POINTER_SIZE)
  }

  /** A block and its header fit the distance for every block size up to 2^32 - 8, and for no other:
      for the next four the distance is zero, by which rt_mp_init divides, and for the last three a
      block is a header without payload. */
  lemma StrideMeaning(blockSize: USize)
    ensures blockSize + POINTER_SIZE <= Stride(blockSize) <==> blockSize <= WORD_RANGE - 2 * RT_ALIGN_SIZE
    ensures Stride(blockSize) == 0 <==> WORD_RANGE - 2 * RT_ALIGN_SIZE < blockSize <= WORD_RANGE - RT_ALIGN_SIZE
    ensures WORD_RANGE - RT_ALIGN_SIZE < blockSize ==> Stride(blockSize) == POINTER_SIZE
  {
    AlignUpMeaning(blockSize);
    var a := AlignUp(blockSize);
    if WORD_RANGE - 2 * RT_ALIGN_SIZE < blockSize <= WORD_RANGE - RT_ALIGN_SIZE {
      assert a == WORD_RANGE - RT_ALIGN_SIZE;
    } else {
      assert a < WORD_RANGE - RT_ALIGN_SIZE;
      assert Wrap(a + POINTER_SIZE) == a + POINTER_SIZE;
    }
  }

  /** The offset of block k: k times the distance between blocks. */
  function Off(k: nat, stride: nat): nat {
    if k == 0 then 0 else Off(k - 1, stride) + stride
  }

  lemma {:induction false} OffIsProduct(k: nat, stride: nat)
    ensures Off(k, stride) == k * stride
  {
    if k > 0 {
      OffIsProduct(k - 1, stride);
    }
  }

  /** Blocks do not overlap and lie in address order. */
  lemma {:induction false} OffApart(j: nat, k: nat, stride: nat)
    requires j < k
    ensures Off(j, stride) + stride <= Off(k, stride)
    decreases k
  {
    if j < k - 1 {
      OffApart(j, k - 1, stride);
    }
  }

  lemma OffInjective(j: nat, k: nat, stride: nat)
    requires j != k && stride > 0
    ensures Off(j, stride) != Off(k, stride)
  {
    if j < k {
      OffApart(j, k, stride);
    } else {
      OffApart(k, j, stride);
    }
  }

  /** From p, the links visit the blocks of `free` in order and end. */
  predicate Chain(header: map<int, Word>, p: Ptr, free: seq<nat>, stride: nat)
    decreases |free|
  {
    if free == [] then p.Null?
    else
      && p == At(Off(free[0], stride)) && p.off in header && header[p.off].Next?
      && Chain(header, header[p.off].link, free[1..], stride)
  }

  /** A write to the header of a block that is not on the chain. */
  lemma {:induction false} ChainFrame(header: map<int, Word>, p: Ptr, free: seq<nat>, stride: nat, k: nat, w: Word)
    requires Chain(header, p, free, stride) && k !in free && stride > 0
    ensures Chain(header[Off(k, stride) := w], p, free, stride)
    decreases |free|
  {
    if free != [] {
      OffInjective(free[0], k, stride);
      ChainFrame(header, header[p.off].link, free[1..], stride, k, w);
    }
  }

  ghost predicate LiveOk(header: map<int, Word>, live: set<nat>, stride: nat) {
    forall k :: k in live ==> Off(k, stride) in header && header[Off(k, stride)] == Owner
  }

  lemma LiveFrame(header: map<int, Word>, live: set<nat>, stride: nat, k: nat, w: Word)
    requires LiveOk(header, live, stride) && k !in live && stride > 0
    ensures LiveOk(header[Off(k, stride) := w], live, stride)
  {
    forall j | j in live ensures Off(j, stride) != Off(k, stride) {
      OffInjective(j, k, stride);
    }
  }

  lemma LiveAdd(header: map<int, Word>, live: set<nat>, stride: nat, k: nat)
    requires LiveOk(header, live, stride) && k !in live && stride > 0
    ensures LiveOk(header[Off(k, stride) := Owner], live + {k}, stride)
  {
    LiveFrame(header, live, stride, k, Owner);
  }

  /** The result of rt_mp_alloc: RT_NULL, or the address behind the header word. */
  datatype Answer = Address(addr: int) | Failed | Asleep

  class Pool {
    const start: int          // start_address
    const stride: nat         // block_size + sizeof(rt_uint8_t *)
    const total: nat          // block_total_count
    var header: map<int, Word>
    var list: Ptr             // block_list
    var count: int            // block_free_count
    var waiters: seq<Waiter>  // suspend_thread
    ghost var free: seq<nat>
    ghost var live: set<nat>
    ghost var woken: set<int>
    var tickets: int          // numbers the suspensions; not in the source

    ghost function Contents(): State
      reads this
    {
      State(total, free, live, waiters, woken, tickets)
    }

    /** The chain holds the free blocks, block_free_count counts them, and the header of every live
        block names this pool. */
    ghost predicate Rep()
      reads this`header, this`list, this`count, this`free, this`live
    {
      && stride > 0 && count == |free|
      && Chain(header, list, free, stride)
      && LiveOk(header, live, stride)
      && (forall k :: k in free ==> k !in live) && Distinct(free)
    }

    /** rt_mp_init. A pool with no room for one block makes the last store of the source go astray,
        and a distance of zero makes it divide by zero. */
    constructor (startAddress: int, size: USize, blockSize: USize)
      requires size > 0 && blockSize > 0
      requires Stride(blockSize) > 0 && AlignDown(size) >= Stride(blockSize)
      ensures start == startAddress && stride == Stride(blockSize)
      ensures total == AlignDown(size) / stride && total >= 1
      ensures Rep() && Contents() == Initial(total)
    {
      start := startAddress;
      stride := Stride(blockSize);
      var n := AlignDown(size) / Stride(blockSize);
      total := n;
      header := map[];
      list := Ptr.Null;
      count := n;
      waiters, free, live, woken, tickets := [], FirstBlocks(n), {}, {}, 0;
      new;
      AtLeastOne(AlignDown(size), stride);
      var offset := 0;
      while offset < total
        modifies this`header
        invariant 0 <= offset <= total
        invariant Linked(header, offset, stride)
      {
        LinkedFrame(header, offset, stride, offset, Next(At(Off(offset + 1, stride))));
        header := header[Off(offset, stride) := Next(At(Off(offset + 1, stride)))];
        offset := offset + 1;
      }
      LinkedFrame(header, offset - 1, stride, offset - 1, Next(Ptr.Null));
      header := header[Off(offset - 1, stride) := Next(Ptr.Null)];
      list := At(0);
      LinkedIsChain(header, 0, total, stride);
      DistinctFirst(total);
      assert FirstBlocks(total)[0..] == FirstBlocks(total);
    }

    /** rt_mp_alloc from entry, or from the point where a resumed thread goes on. */
    method Alloc(t: int, time: int) returns (r: Answer)
      requires Rep()
      modifies this
      ensures Rep() && Contents() == Spec.Alloc(old(Contents()), t, time).0
      ensures match Spec.Alloc(old(Contents()), t, time).1
        case Granted(k) => r == Address(start + k * stride + POINTER_SIZE)
        case Timeout => r == Failed
        case Blocked => r == Asleep
    {
      woken := woken - {t};
      if count == 0 {
        if time == 0 {
          return Failed;
        }
        waiters := [Waiter(t, 0, tickets)] + waiters;
        tickets := tickets + 1;
        return Asleep;
      }
      count := count - 1;
      var block := list;
      ghost var k := free[0];
      assert k in free;
      list := header[block.off].link;
      ChainFrame(header, list, free[1..], stride, k, Owner);
      LiveAdd(header, live, stride, k);
      header := header[block.off := Owner];
      free, live := free[1..], live + {k};
      OffIsProduct(k, stride);
      assert Contents() == Spec.Alloc(old(Contents()), t, time).0;
      return Address(start + block.off + POINTER_SIZE);
    }

    /** rt_mp_free of block k of this pool; a null pointer is ignored before this point. */
    method Free(addr: int, ghost k: nat)
      requires Rep() && k in live && addr == start + k * stride + POINTER_SIZE
      modifies this
      ensures Rep() && Contents() == Spec.Free(old(Contents()), k)
    {
      var off := addr - POINTER_SIZE - start;
      OffIsProduct(k, stride);
      count := count + 1;
      ChainFrame(header, list, free, stride, k, Next(list));
      LiveFrame(header, live - {k}, stride, k, Next(list));
      header := header[off := Next(list)];
      list := At(off);
      free, live := [k] + free, live - {k};
      assert free[1..] == old(free);
      if waiters != [] {
        woken := woken + {waiters[0].thread};
        waiters := waiters[1..];
      }
      assert Contents() == Spec.Free(old(Contents()), k);
    }
  }

  lemma AtLeastOne(size: nat, stride: nat)
    requires 0 < stride <= size
    ensures size / stride >= 1
  {
  }

  /** Each of the first n blocks links to the one behind it. */
  predicate Linked(header: map<int, Word>, n: nat, stride: nat) {
    n > 0 ==>
      && Off(n - 1, stride) in header && header[Off(n - 1, stride)] == Next(At(Off(n, stride)))
      && Linked(header, n - 1, stride)
  }

  lemma {:induction false} LinkedFrame(header: map<int, Word>, n: nat, stride: nat, k: nat, w: Word)
    requires Linked(header, n, stride) && n <= k && stride > 0
    ensures Linked(header[Off(k, stride) := w], n, stride)
    decreases n
  {
    if n > 0 {
      OffInjective(n - 1, k, stride);
      LinkedFrame(header, n - 1, stride, k, w);
    }
  }

  lemma {:induction false} LinkedAt(header: map<int, Word>, n: nat, stride: nat, k: nat)
    requires Linked(header, n, stride) && k < n
    ensures Off(k, stride) in header && header[Off(k, stride)] == Next(At(Off(k + 1, stride)))
    decreases n
  {
    if k < n - 1 {
      LinkedAt(header, n - 1, stride, k);
    }
  }

  /** The links that the initialisation writes form the chain of all blocks in order. */
  lemma {:induction false} LinkedIsChain(header: map<int, Word>, k: nat, n: nat, stride: nat)
    requires k < n && Linked(header, n - 1, stride)
    requires Off(n - 1, stride) in header && header[Off(n - 1, stride)] == Next(Ptr.Null)
    ensures Chain(header, At(Off(k, stride)), FirstBlocks(n)[k..], stride)
    decreases n - k
  {
    var rest := FirstBlocks(n)[k..];
    if k < n - 1 {
      LinkedAt(header, n - 1, stride, k);
      LinkedIsChain(header, k + 1, n, stride);
      assert rest[1..] == FirstBlocks(n)[k + 1..];
    } else {
      assert rest == [k] && rest[1..] == [];
    }
  }

  lemma DistinctFirst(n: nat)
    ensures Distinct(FirstBlocks(n))
  {
  }

  /** The payloads of two blocks do not overlap, and each lies inside the pool. */
  lemma PayloadsApart(pool: Pool, j: nat, k: nat)
    requires j != k && j < pool.total && k < pool.total && pool.stride > POINTER_SIZE
    ensures var a, b := j * pool.stride + POINTER_SIZE, k * pool.stride + POINTER_SIZE;
      var len := pool.stride - POINTER_SIZE;
      (a + len <= b || b + len <= a) && b + len <= pool.total * pool.stride
  {
    OffIsProduct(j, pool.stride);
    OffIsProduct(k, pool.stride);
    OffIsProduct(pool.total, pool.stride);
    OffApart(k, pool.total, pool.stride);
    if j < k {
      OffApart(j, k, pool.stride);
    } else {
      OffApart(k, j, pool.stride);
    }
  }

  /** The offset of the store that ends the chain, in 32-bit arithmetic. */
  function LastStore(total: nat, stride: nat): USize {
    Wrap((total - 1) * stride)
  }

  /** That store lands in the last block when the pool has room for one block, and one block
      before the pool when it has not. */
  lemma LastStoreLands(size: USize, stride: USize)
    requires stride > 0
    ensures size >= stride ==> LastStore(size / stride, stride) + stride <= size
    ensures size < stride ==> LastStore(size / stride, stride) == WORD_RANGE - stride
  {
    var n := size / stride;
    assert n * stride <= size;
    assert (n - 1) * stride == n * stride - stride;
    if size >= stride {
      AtLeastOne(size, stride);
      NonNegativeProduct(n - 1, stride);
    } else {
      assert n == 0;
    }
  }

  lemma NonNegativeProduct(a: nat, b: nat)
    ensures a * b >= 0
  {
  }
}
