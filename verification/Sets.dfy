/** Sizes of finite sets. */
module Sets {
  lemma {:induction false} SubsetSize<T>(small: set<T>, big: set<T>)
    requires small <= big
    ensures |small| <= |big|
  {
    assert big == small + (big - small);
  }

  lemma {:induction false} SmallerSet<T>(small: set<T>, big: set<T>, x: T)
    requires small <= big && x in big && x !in small
    ensures |small| < |big|
  {
    assert small <= big - {x};
    SubsetSize(small, big - {x});
  }

  /** There are n numbers below n. */
  lemma {:induction false} SetBelow(s: set<nat>, n: nat)
    requires forall x | x in s :: x < n
    ensures |s| <= n
  {
    if n > 0 {
      SetBelow(s - {n - 1}, n - 1);
      assert n - 1 in s ==> |s - {n - 1}| == |s| - 1;
      assert n - 1 !in s ==> s - {n - 1} == s;
    } else {
      assert s == {};
    }
  }
}
