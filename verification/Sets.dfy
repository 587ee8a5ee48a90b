/** Sizes of finite sets. */
module Sets {

  lemma SubsetSize<T>(a: set<T>, b: set<T>)
    requires a <= b
    ensures |a| <= |b| && (|a| == |b| ==> a == b)
  {
    if a != b {
      var x :| x in b && x !in a;
      SubsetSize(a, b - {x});
    }
  }

  lemma SizeMinus<T>(a: set<T>, b: set<T>)
    requires b <= a
    ensures |a - b| + |b| == |a|
  {
    assert a == (a - b) + b && (a - b) * b == {};
  }

  /** Numbers below `n`: at most `n` of them, and all of them when there are `n`. */
  lemma {:induction false} Below(a: set<nat>, n: nat)
    requires forall i :: i in a ==> i < n
    ensures |a| <= n && (|a| == n ==> forall i :: 0 <= i < n ==> i in a)
  {
    if n > 0 {
      Below(a - {n - 1}, n - 1);
      if n - 1 in a { assert a == (a - {n - 1}) + {n - 1}; } else { assert a == a - {n - 1}; }
    } else {
      assert a == {};
    }
  }

  lemma {:induction false} AllIn(a: set<nat>, n: nat)
    requires forall i :: 0 <= i < n ==> i in a
    ensures |a| >= n
  {
    if n > 0 {
      AllIn(a - {n - 1}, n - 1);
      assert a == (a - {n - 1}) + {n - 1};
    }
  }
}
