/**
 * shuffleArray: a Fisher-Yates shuffle over a copy of its argument. The random choice
 * Math.floor(Math.random() * (i + 1)) of each iteration is supplied by the caller:
 * js[k] is the index chosen in iteration k, when the loop variable is i = n - 1 - k.
 */
module Shuffle {
  import opened Seqs

  /** Iterations of the loop `for (i = n - 1; i > 0; i--)`. */
  function Steps(n: nat): nat {
    if n == 0 then 0 else n - 1
  }

  /** One index per iteration, each in 0..i as Math.floor(Math.random() * (i + 1)) yields. */
  predicate ValidSwaps(n: nat, js: seq<int>) {
    |js| == Steps(n) && forall k :: 0 <= k < |js| ==> 0 <= js[k] <= n - 1 - k
  }

  /** s with the elements at positions i and j exchanged, as by [a[i], a[j]] = [a[j], a[i]]. */
  function Swap(s: seq<int>, i: nat, j: nat): (r: seq<int>)
    requires i < |s| && j < |s|
    ensures |r| == |s|
    ensures r[i] == s[j] && r[j] == s[i]
    ensures forall k :: 0 <= k < |s| && k != i && k != j ==> r[k] == s[k]
  {
    seq(|s|, k requires 0 <= k < |s| => if k == i then s[j] else if k == j then s[i] else s[k])
  }

  /** Exchanging two elements keeps the multiset of elements. */
  lemma SwapPermutes(s: seq<int>, i: nat, j: nat)
    requires i < |s| && j < |s|
    ensures multiset(Swap(s, i, j)) == multiset(s)
  {
    assert Swap(s, i, j) == s[i := s[j]][j := s[i]];
  }

  /** The array after the first k iterations of the loop; each iteration only exchanges two
      elements, so every prefix of the loop is a permutation. */
  function ApplySwaps(s: seq<int>, js: seq<int>, k: nat): (r: seq<int>)
    requires ValidSwaps(|s|, js) && k <= |js|
    ensures |r| == |s|
    decreases k
  {
    if k == 0 then s
    else Swap(ApplySwaps(s, js, k - 1), |s| - k, js[k - 1])
  }

  /** The array after the whole loop. */
  function Shuffled(s: seq<int>, js: seq<int>): (r: seq<int>)
    requires ValidSwaps(|s|, js)
  {
    ApplySwaps(s, js, |js|)
  }

  /** Iteration k exchanges two elements and so keeps the multiset. */
  lemma StepPermutes(s: seq<int>, js: seq<int>, k: nat)
    requires ValidSwaps(|s|, js) && 0 < k <= |js|
    ensures multiset(ApplySwaps(s, js, k)) == multiset(ApplySwaps(s, js, k - 1))
  {
    SwapPermutes(ApplySwaps(s, js, k - 1), |s| - k, js[k - 1]);
  }

  /** Every prefix of the loop only reorders the elements. */
  lemma {:induction false} ApplySwapsPermutes(s: seq<int>, js: seq<int>, k: nat)
    requires ValidSwaps(|s|, js) && k <= |js|
    ensures multiset(ApplySwaps(s, js, k)) == multiset(s)
  {
    if k > 0 {
      ApplySwapsPermutes(s, js, k - 1);
      StepPermutes(s, js, k);
    }
  }

  /** The shuffle is a permutation: same length, same elements with the same multiplicities. */
  lemma {:induction false} ShuffledPermutes(s: seq<int>, js: seq<int>)
    requires ValidSwaps(|s|, js)
    ensures |Shuffled(s, js)| == |s|
    ensures multiset(Shuffled(s, js)) == multiset(s)
    ensures forall x :: x in Shuffled(s, js) <==> x in s
    ensures Distinct(s) ==> Distinct(Shuffled(s, js))
  {
    ApplySwapsPermutes(s, js, |js|);
    assert forall x :: x in Shuffled(s, js) <==> x in multiset(Shuffled(s, js));
    if Distinct(s) {
      PermutationPreservesDistinct(s, Shuffled(s, js));
    }
  }

  /** [newArray[i], newArray[j]] = [newArray[j], newArray[i]]. */
  method SwapElements(r: array<int>, i: nat, j: nat)
    requires i < r.Length && j < r.Length
    modifies r
    ensures r[..] == Swap(old(r[..]), i, j)
  {
    ghost var before := r[..];
    var tmp := r[i];
    r[i] := r[j];
    assert r[..] == before[i := before[j]];
    r[j] := tmp;
    assert r[..] == before[i := before[j]][j := before[i]];
  }

  /** const newArray = [...array]: a fresh array with the same contents. */
  method CopyArray(a: array<int>) returns (r: array<int>)
    ensures fresh(r) && r[..] == a[..]
  {
    r := new int[a.Length](k requires 0 <= k < a.Length reads a => a[k]);
  }

  /** The loop of shuffleArray, run on newArray in place. */
  method ShuffleInPlace(r: array<int>, js: seq<int>)
    requires ValidSwaps(r.Length, js)
    modifies r
    ensures r[..] == Shuffled(old(r[..]), js)
  {
    ghost var input := r[..];
    var n := r.Length;
    var i := n - 1;
    ghost var done := 0;
    while i > 0
      invariant done == n - 1 - i && 0 <= done <= |js|
      invariant r[..] == ApplySwaps(input, js, done)
    {
      var j := js[n - 1 - i];
      ghost var next := ApplySwaps(input, js, done + 1);
      assert next == Swap(r[..], i, j) by {
        assert ApplySwaps(input, js, done + 1) == Swap(ApplySwaps(input, js, done), i, j);
      }
      SwapElements(r, i, j);
      i, done := i - 1, done + 1;
    }
    assert done == |js|;
  }

  /**
   * shuffleArray(array): copies its argument into a new array and shuffles the copy in
   * place. The argument is only read (there is no modifies clause), so it is unchanged.
   */
  method ShuffleArray(a: array<int>, js: seq<int>) returns (r: array<int>)
    requires ValidSwaps(a.Length, js)
    ensures fresh(r) && r.Length == a.Length
    ensures r[..] == Shuffled(a[..], js)
    ensures multiset(r[..]) == multiset(a[..])
  {
    r := CopyArray(a);
    ShuffleInPlace(r, js);
    ShuffledPermutes(a[..], js);
  }
}
