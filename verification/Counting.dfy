/** Finite sets: sizes and greatest elements. */
module Counting {
  lemma SubsetIsNoLarger<T>(a: set<T>, b: set<T>)
    requires a <= b
    ensures |a| <= |b|
  {
    assert a + (b - a) == b;
  }

  lemma {:induction false} Greatest(s: set<nat>) returns (m: nat)
    requires s != {}
    ensures m in s && forall i :: i in s ==> i <= m
    decreases |s|
  {
    m :| m in s;
    if s != {m} {
      var n := Greatest(s - {m});
      assert forall i :: i in s ==> i == m || i in s - {m};
      m := if n < m then m else n;
    }
  }

  lemma HasGreatest(s: set<nat>)
    requires s != {}
    ensures exists m :: m in s && forall i :: i in s ==> i <= m
  {
    var m := Greatest(s);
  }

  // ------------------------------------------------------------------ sums over 0 .. n - 1

  function Sum(f: nat -> nat, n: nat): nat {
    if n == 0 then 0 else Sum(f, n - 1) + f(n - 1)
  }

  lemma {:induction false} SumOfEquals(f: nat -> nat, g: nat -> nat, n: nat)
    requires forall i: nat :: i < n ==> f(i) == g(i)
    ensures Sum(f, n) == Sum(g, n)
  {
    if n > 0 {
      SumOfEquals(f, g, n - 1);
    }
  }

  /** Changing one summand changes the sum by as much. */
  lemma {:induction false} SumAfterChange(f: nat -> nat, g: nat -> nat, n: nat, k: nat)
    requires k < n && forall i: nat :: i < n && i != k ==> f(i) == g(i)
    ensures Sum(g, n) + f(k) == Sum(f, n) + g(k)
  {
    if k == n - 1 {
      SumOfEquals(f, g, n - 1);
    } else {
      SumAfterChange(f, g, n - 1, k);
    }
  }

  lemma {:induction false} SummandIsNoLarger(f: nat -> nat, n: nat, k: nat)
    requires k < n
    ensures f(k) <= Sum(f, n)
  {
    if k < n - 1 {
      SummandIsNoLarger(f, n - 1, k);
    }
  }
}
