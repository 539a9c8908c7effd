/** Sums of a real-valued function over a sequence, the way the estimator
    accumulates prices passenger by passenger. */
module Sums {

  /** f summed over s, accumulated from the first element to the last. */
  function Sum<T>(s: seq<T>, f: T -> real): (r: real)
    decreases |s|
  {
    if |s| == 0 then 0.0 else Sum(s[..|s| - 1], f) + f(s[|s| - 1])
  }

  /** A sum of zeros is zero. */
  lemma {:induction false} SumOfZeros<T>(s: seq<T>, f: T -> real)
    ensures (forall x :: x in s ==> f(x) == 0.0) ==> Sum(s, f) == 0.0
    decreases |s|
  {
    if |s| > 0 {
      SumOfZeros(s[..|s| - 1], f);
      assert forall x :: x in s[..|s| - 1] ==> x in s;
    }
  }

  lemma SumSingleton<T>(x: T, f: T -> real)
    ensures Sum([x], f) == f(x)
  {
    assert [x][..0] == [];
  }

  lemma {:induction false} SumAppend<T>(a: seq<T>, b: seq<T>, f: T -> real)
    ensures Sum(a + b, f) == Sum(a, f) + Sum(b, f)
    decreases |b|
  {
    if |b| == 0 {
      assert a + b == a;
    } else {
      var b' := b[..|b| - 1];
      assert (a + b)[..|a + b| - 1] == a + b';
      assert (a + b)[|a + b| - 1] == b[|b| - 1];
      SumAppend(a, b', f);
    }
  }

  /** Taking one element out of the middle removes its term from the sum. */
  lemma SumRemove<T>(b: seq<T>, j: int, f: T -> real)
    requires 0 <= j < |b|
    ensures Sum(b, f) == Sum(b[..j] + b[j + 1..], f) + f(b[j])
  {
    var left, right := b[..j], b[j + 1..];
    var middle := [b[j]] + right;
    assert b == left + middle;
    SumAppend(left, middle, f);
    SumAppend([b[j]], right, f);
    SumSingleton(b[j], f);
    SumAppend(left, right, f);
  }

  /** The sum does not depend on the order of the elements. */
  lemma {:induction false} SumPermutation<T>(a: seq<T>, b: seq<T>, f: T -> real)
    requires multiset(a) == multiset(b)
    ensures Sum(a, f) == Sum(b, f)
    decreases |a|
  {
    if |a| == 0 {
      assert |b| == |multiset(b)| == 0;
    } else {
      var x := a[|a| - 1];
      var a' := a[..|a| - 1];
      assert a == a' + [x];
      assert x in multiset(b);
      var j :| 0 <= j < |b| && b[j] == x;
      var b' := b[..j] + b[j + 1..];
      assert b == b[..j] + [x] + b[j + 1..];
      assert multiset(b') == multiset(b) - multiset{x};
      assert multiset(a') == multiset(a) - multiset{x};
      SumPermutation(a', b', f);
      SumRemove(b, j, f);
    }
  }
}
