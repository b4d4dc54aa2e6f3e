/** Block lists in full: what determines one, and what freeing a block leaves. */
module BlockListExact {
  import opened BlockList

  // ----- a heap is determined by its allocated blocks -----

  lemma {:induction false} OffsFrom(bs: seq<Block>, start: int, end: int, x: Block)
    requires Chain(bs, start, end) && x in bs
    ensures start <= x.off && (x.off == start ==> x == bs[0]) && (x in bs[1..] ==> bs[0].next <= x.off)
  {
    if x in bs[1..] {
      OffsFrom(bs[1..], bs[0].next, end, x);
    } else {
      assert bs == [bs[0]] + bs[1..];
    }
  }

  /** The block at `start`, if one of the lists has it in use, is the first one of both. */
  lemma SameHead(a: seq<Block>, b: seq<Block>, start: int, end: int)
    requires Chain(a, start, end) && Chain(b, start, end) && a != [] && a[0].used && Allocated(a) == Allocated(b)
    ensures b != [] && b[0] == a[0] && Allocated(a[1..]) == Allocated(b[1..])
  {
    assert a[0] in Allocated(a);
    OffsFrom(b, start, end, a[0]);
    forall x ensures x in Allocated(a[1..]) <==> x in Allocated(b[1..]) {
      Behind(a, start, end, x);
      Behind(b, start, end, x);
    }
  }

  lemma Behind(bs: seq<Block>, start: int, end: int, x: Block)
    requires Chain(bs, start, end) && bs != []
    ensures x in Allocated(bs[1..]) <==> x in Allocated(bs) && x != bs[0]
  {
    if x in bs[1..] {
      OffsFrom(bs, start, end, x);
    } else {
      assert bs == [bs[0]] + bs[1..];
    }
  }

  /** After a free first block comes a used one, the lowest in use, or the end. */
  lemma FreeHead(bs: seq<Block>, start: int, end: int)
    requires Chain(bs, start, end) && NoFreeNeighbours(bs) && bs != [] && !bs[0].used
    ensures Allocated(bs[1..]) == Allocated(bs)
    ensures |bs| == 1 ==> bs[0].next == end && Allocated(bs) == {}
    ensures |bs| > 1 ==> bs[1] in Allocated(bs) && bs[1].off == bs[0].next
    ensures forall x :: x in Allocated(bs) ==> bs[0].next <= x.off
  {
    forall x ensures x in Allocated(bs[1..]) <==> x in Allocated(bs) {
      Behind(bs, start, end, x);
    }
    forall x | x in Allocated(bs) ensures bs[0].next <= x.off {
      Behind(bs, start, end, x);
      OffsFrom(bs, start, end, x);
    }
    if |bs| > 1 {
      assert bs[1] == bs[1..][0];
    } else {
      assert bs[1..] == [];
    }
  }

  /** Two lists over the same range, without free neighbours, that show the same allocated blocks are
      the same list: what an operation does to the allocated blocks says all that it does. */
  lemma {:induction false} ListDetermined(a: seq<Block>, b: seq<Block>, start: int, end: int)
    requires Chain(a, start, end) && Chain(b, start, end) && NoFreeNeighbours(a) && NoFreeNeighbours(b)
    requires Allocated(a) == Allocated(b)
    ensures a == b
    decreases |a|
  {
    if a == [] || b == [] {
      EmptyRange(a, start, end);
      EmptyRange(b, start, end);
    } else {
      if a[0].used {
        SameHead(a, b, start, end);
      } else if b[0].used {
        SameHead(b, a, start, end);
      } else {
        FreeHead(a, start, end);
        FreeHead(b, start, end);
        assert a[0] == b[0];
      }
      ListDetermined(a[1..], b[1..], a[0].next, end);
    }
  }

  lemma EmptyRange(bs: seq<Block>, start: int, end: int)
    requires Chain(bs, start, end)
    ensures bs == [] <==> start == end
  {
    if bs != [] {
      ChainOrder(bs[1..], bs[0].next, end);
    }
  }

  // ----- a freed block -----

  /** The stretch of free blocks that block k becomes part of: from i up to j. */
  function Left(bs: seq<Block>, k: nat): nat
    requires k < |bs|
  {
    if k > 0 && !bs[k - 1].used then k - 1 else k
  }

  function Right(bs: seq<Block>, k: nat): nat
    requires k < |bs|
  {
    if k + 1 < |bs| && !bs[k + 1].used then k + 2 else k + 1
  }

  lemma FreeAtIs(bs: seq<Block>, k: nat)
    requires k < |bs| && bs[k].used
    ensures var i, j := Left(bs, k), Right(bs, k);
      FreeAt(bs, k) == bs[..i] + [Block(bs[i].off, bs[j - 1].next, false)] + bs[j..]
  {
    var fs := SetUsed(bs, k, false);
    var gs := PlugForward(fs, k);
    var j := Right(bs, k);
    assert gs == bs[..k] + [Block(bs[k].off, bs[j - 1].next, false)] + bs[j..];
    if k > 0 && !bs[k - 1].used {
      assert gs[k - 1] == bs[k - 1] && gs[k].next == bs[j - 1].next;
      assert PlugBackward(gs, k) == bs[..k - 1] + [Block(bs[k - 1].off, bs[j - 1].next, false)] + bs[j..];
    }
  }
}
