/**
 * The draw pool behind callNumber: remainingNumbers holds the numbers not yet called,
 * calledNumbers the numbers called so far, in order.
 */
module Pool {
  import opened Seqs

  /** Array.from({ length: 75 }, (_, i) => i + 1): 1..75 in increasing order. */
  function FullPool(): (s: seq<int>)
    ensures |s| == 75 && Distinct(s)
    ensures forall k :: 0 <= k < 75 ==> s[k] == k + 1
    ensures forall x :: x in s <==> 1 <= x <= 75
  {
    var s := seq(75, k => k + 1);
    forall x | 1 <= x <= 75 ensures x in s {
      assert s[x - 1] == x;
    }
    s
  }

  /** The called numbers followed by the remaining ones are a permutation of 1..75. */
  predicate PoolInvariant(called: seq<int>, remaining: seq<int>) {
    multiset(called + remaining) == multiset(FullPool())
  }

  /** What the invariant promises: no number is called twice, called and remaining numbers are
      disjoint, every number 1..75 is in exactly one of them, and their lengths add to 75. */
  lemma PoolFacts(called: seq<int>, remaining: seq<int>)
    requires PoolInvariant(called, remaining)
    ensures |called| + |remaining| == 75
    ensures Distinct(called) && Distinct(remaining)
    ensures forall x :: x in called ==> 1 <= x <= 75 && x !in remaining
    ensures forall x :: x in remaining ==> 1 <= x <= 75
    ensures forall x :: 1 <= x <= 75 ==> x in called || x in remaining
  {
    var all := called + remaining;
    assert |multiset(all)| == |all|;
    PermutationPreservesDistinct(FullPool(), all);
    forall x ensures x in all <==> 1 <= x <= 75 {
      assert x in all <==> x in multiset(all);
      assert x in FullPool() <==> x in multiset(FullPool());
    }
    forall x | x in called ensures 1 <= x <= 75 {
      var i :| 0 <= i < |called| && called[i] == x;
      assert all[i] == x;
      assert x in all;
    }
    forall x | x in remaining ensures 1 <= x <= 75 {
      var j :| 0 <= j < |remaining| && remaining[j] == x;
      assert all[|called| + j] == x;
      assert x in all;
    }
    forall x | 1 <= x <= 75 ensures x in called || x in remaining {
      assert x in all;
      var k :| 0 <= k < |all| && all[k] == x;
      if k < |called| {
        assert called[k] == x;
      } else {
        assert remaining[k - |called|] == x;
      }
    }
    forall i, j | 0 <= i < j < |called| ensures called[i] != called[j] {
      assert all[i] == called[i] && all[j] == called[j];
    }
    forall i, j | 0 <= i < j < |remaining| ensures remaining[i] != remaining[j] {
      assert all[|called| + i] == remaining[i] && all[|called| + j] == remaining[j];
    }
    forall x | x in called ensures x !in remaining {
      var i :| 0 <= i < |called| && called[i] == x;
      forall j | 0 <= j < |remaining| ensures remaining[j] != x {
        assert all[i] == x && all[|called| + j] == remaining[j];
      }
    }
  }

  /** A fresh session starts from the invariant. */
  lemma FreshPool()
    ensures PoolInvariant([], FullPool())
  {
    assert [] + FullPool() == FullPool();
  }

  /** Moving the element at index from remaining to the end of called keeps the invariant. */
  lemma DrawKeepsPoolInvariant(called: seq<int>, remaining: seq<int>, index: nat)
    requires PoolInvariant(called, remaining) && index < |remaining|
    ensures PoolInvariant(called + [remaining[index]], RemoveAt(remaining, index))
  {
    var rest := RemoveAt(remaining, index);
    assert multiset(called + [remaining[index]] + rest)
        == multiset(called) + multiset{remaining[index]} + multiset(rest);
    assert multiset(called + remaining) == multiset(called) + multiset(remaining);
  }

  /** After 75 draws the pool is empty. */
  lemma PoolEmptyAfterAllDraws(called: seq<int>, remaining: seq<int>)
    requires PoolInvariant(called, remaining) && |called| == 75
    ensures remaining == []
  {
    PoolFacts(called, remaining);
  }
}
