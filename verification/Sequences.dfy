/** Sequences without repeats, as the contents of a linked list. */
module Sequences {
  ghost predicate Distinct(xs: seq<int>) {
    forall i, j :: 0 <= i < j < |xs| ==> xs[i] != xs[j]
  }

  /** Unlinking one element; one that is not there leaves the list as it is. */
  function Unlinked(xs: seq<int>, x: int): seq<int> {
    if xs == [] then [] else if xs[0] == x then xs[1..] else [xs[0]] + Unlinked(xs[1..], x)
  }

  lemma {:induction false} UnlinkedMeaning(xs: seq<int>, x: int)
    requires Distinct(xs)
    ensures Distinct(Unlinked(xs, x)) && forall a :: a in Unlinked(xs, x) <==> a in xs && a != x
    ensures x !in xs ==> Unlinked(xs, x) == xs
  {
    if xs != [] {
      UnlinkedMeaning(xs[1..], x);
      assert forall a :: a in xs <==> a == xs[0] || a in xs[1..];
      assert xs[0] !in xs[1..];
    }
  }

  lemma {:induction false} UnlinkedAbsent(xs: seq<int>, x: int)
    requires x !in xs
    ensures Unlinked(xs, x) == xs
  {
    if xs != [] {
      UnlinkedAbsent(xs[1..], x);
      assert xs == [xs[0]] + xs[1..];
    }
  }

  /** Unlinking takes out the first occurrence. */
  lemma {:induction false} UnlinkedOne(xs: seq<int>, x: int) returns (k: nat)
    requires x in xs
    ensures k < |xs| && xs[k] == x && Unlinked(xs, x) == xs[..k] + xs[k + 1..]
  {
    k := 0;
    if xs[0] != x {
      var j := UnlinkedOne(xs[1..], x);
      k := j + 1;
      assert xs[..k] + xs[k + 1..] == [xs[0]] + (xs[1..][..j] + xs[1..][j + 1..]);
    }
  }
}
