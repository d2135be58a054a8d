/** Sums over sequences: the `reduce((accum, cur) => accum + f(cur), 0)` folds of the source. */
module Sums {

  /** The sum of `f` over `s`; real addition makes the fold order irrelevant. */
  function Sum<T>(s: seq<T>, f: T -> real): real
    decreases |s|
  {
    if |s| == 0 then 0.0 else f(s[0]) + Sum(s[1..], f)
  }

  function Id(x: real): real { x }

  /** The sum of a sequence of reals. */
  function Total(s: seq<real>): real { Sum(s, Id) }

  lemma {:induction false} SumConcat<T>(a: seq<T>, b: seq<T>, f: T -> real)
    ensures Sum(a + b, f) == Sum(a, f) + Sum(b, f)
    decreases |a|
  {
    if |a| == 0 {
      assert a + b == b;
    } else {
      assert (a + b)[1..] == a[1..] + b;
      SumConcat(a[1..], b, f);
    }
  }

  lemma SumLast<T>(s: seq<T>, f: T -> real)
    requires |s| > 0
    ensures Sum(s, f) == Sum(s[..|s| - 1], f) + f(s[|s| - 1])
  {
    assert s == s[..|s| - 1] + [s[|s| - 1]];
    SumConcat(s[..|s| - 1], [s[|s| - 1]], f);
  }

  /** Summing `f` over `s` is summing the reals `f(s[0]), f(s[1]), ...`. */
  lemma {:induction false} SumMapped<T>(s: seq<T>, f: T -> real, m: seq<real>)
    requires |m| == |s|
    requires forall i :: 0 <= i < |s| ==> m[i] == f(s[i])
    ensures Total(m) == Sum(s, f)
    decreases |s|
  {
    if |s| > 0 {
      SumMapped(s[1..], f, m[1..]);
    }
  }

  /** Overwriting one entry changes the total by the difference. */
  lemma {:induction false} TotalUpdate(s: seq<real>, i: nat, x: real)
    requires i < |s|
    ensures Total(s[i := x]) == Total(s) - s[i] + x
    decreases |s|
  {
    if i > 0 {
      assert s[i := x][1..] == s[1..][i - 1 := x];
      TotalUpdate(s[1..], i - 1, x);
    }
  }

  /** A sum over values that are all non-negative is non-negative. */
  lemma {:induction false} SumNonNegative<T>(s: seq<T>, f: T -> real)
    requires forall i :: 0 <= i < |s| ==> f(s[i]) >= 0.0
    ensures Sum(s, f) >= 0.0
    decreases |s|
  {
    if |s| > 0 {
      SumNonNegative(s[1..], f);
    }
  }

  /** Sums of pointwise-equal functions agree. */
  lemma {:induction false} SumEqual<T>(s: seq<T>, f: T -> real, g: T -> real)
    requires forall k :: 0 <= k < |s| ==> f(s[k]) == g(s[k])
    ensures Sum(s, f) == Sum(s, g)
    decreases |s|
  {
    if |s| > 0 {
      SumEqual(s[1..], f, g);
    }
  }

  /** A sum of a pointwise sum splits in two. */
  lemma {:induction false} SumSplit<T>(s: seq<T>, f: T -> real, g: T -> real, h: T -> real)
    requires forall k :: 0 <= k < |s| ==> h(s[k]) == f(s[k]) + g(s[k])
    ensures Sum(s, h) == Sum(s, f) + Sum(s, g)
    decreases |s|
  {
    if |s| > 0 {
      SumSplit(s[1..], f, g, h);
    }
  }
}
