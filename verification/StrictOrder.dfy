/** The strict-order check on iterators (common/src/iter.rs). */
module StrictOrder {
  import opened Wrappers

  datatype Ordering = Before | Same | After

  /** Every adjacent pair compares as strictly increasing. Incomparable pairs fail. */
  ghost predicate Chain<T(!new)>(xs: seq<T>, cmp: (T, T) -> Option<Ordering>) {
    forall i :: 0 <= i < |xs| - 1 ==> cmp(xs[i], xs[i + 1]) == Some(Before)
  }

  method IsStrictTotalOrder<T>(xs: seq<T>, cmp: (T, T) -> Option<Ordering>) returns (b: bool)
    ensures b <==> forall i :: 0 <= i < |xs| - 1 ==> cmp(xs[i], xs[i + 1]) == Some(Before)
  {
    if xs == [] { return true; }
    var prev := xs[0];
    for k := 1 to |xs|
      invariant prev == xs[k - 1]
      invariant forall i :: 0 <= i < k - 1 ==> cmp(xs[i], xs[i + 1]) == Some(Before)
    {
      if cmp(prev, xs[k]) != Some(Before) {
        assert cmp(xs[k - 1], xs[k - 1 + 1]) != Some(Before);
        return false;
      }
      prev := xs[k];
    }
    return true;
  }

  method IsStrictTotalOrderByKey<T, K>(xs: seq<T>, key: T -> K, cmp: (K, K) -> Option<Ordering>) returns (b: bool)
    ensures b <==> forall i :: 0 <= i < |xs| - 1 ==> cmp(key(xs[i]), key(xs[i + 1])) == Some(Before)
  {
    var keys := seq(|xs|, i requires 0 <= i < |xs| => key(xs[i]));
    b := IsStrictTotalOrder(keys, cmp);
    assert forall i :: 0 <= i < |xs| ==> keys[i] == key(xs[i]);
    assert forall i :: 0 <= i < |xs| - 1 ==> cmp(keys[i], keys[i + 1]) == cmp(key(xs[i]), key(xs[i + 1]));
  }

  /** For a transitive comparison the adjacent check covers all pairs: sorted and without duplicates. */
  lemma {:induction false} ChainCoversAllPairs<T(!new)>(xs: seq<T>, cmp: (T, T) -> Option<Ordering>, i: nat, j: nat)
    requires forall a, b, c :: cmp(a, b) == Some(Before) && cmp(b, c) == Some(Before) ==> cmp(a, c) == Some(Before)
    requires Chain(xs, cmp)
    requires i < j < |xs|
    ensures cmp(xs[i], xs[j]) == Some(Before)
    decreases j
  {
    if i < j - 1 {
      ChainCoversAllPairs(xs, cmp, i, j - 1);
      assert cmp(xs[j - 1], xs[j - 1 + 1]) == Some(Before);
    }
  }
}
