/** Sums of a measure over a sequence. */
module Sums {

  function Sum<T>(f: T -> int, xs: seq<T>): int {
    if xs == [] then 0 else Sum(f, xs[..|xs| - 1]) + f(xs[|xs| - 1])
  }

  lemma {:induction false} SumUpdate<T>(f: T -> int, xs: seq<T>, k: nat, x: T)
    requires k < |xs|
    ensures Sum(f, xs[k := x]) == Sum(f, xs) - f(xs[k]) + f(x)
  {
    var n := |xs| - 1;
    if k < n {
      SumUpdate(f, xs[..n], k, x);
      assert xs[k := x][..n] == xs[..n][k := x];
    } else {
      assert xs[k := x][..n] == xs[..n];
    }
  }

  lemma {:induction false} SumSame<T>(f: T -> int, xs: seq<T>, ys: seq<T>)
    requires |xs| == |ys| && forall k :: 0 <= k < |xs| ==> f(xs[k]) == f(ys[k])
    ensures Sum(f, xs) == Sum(f, ys)
  {
    if xs != [] {
      SumSame(f, xs[..|xs| - 1], ys[..|ys| - 1]);
    }
  }

  lemma {:induction false} SumBound<T>(f: T -> int, xs: seq<T>, low: int, high: int)
    requires forall k :: 0 <= k < |xs| ==> low <= f(xs[k]) <= high
    ensures low * |xs| <= Sum(f, xs) <= high * |xs|
  {
    if xs != [] {
      SumBound(f, xs[..|xs| - 1], low, high);
    }
  }

  lemma {:induction false} SumBoundBelow<T>(f: T -> int, xs: seq<T>)
    requires forall j :: 0 <= j < |xs| ==> f(xs[j]) >= 0
    ensures Sum(f, xs) >= 0
  {
    if xs != [] {
      SumBoundBelow(f, xs[..|xs| - 1]);
    }
  }

  lemma {:induction false} SumZero<T>(f: T -> int, xs: seq<T>)
    requires forall k :: 0 <= k < |xs| ==> f(xs[k]) == 0
    ensures Sum(f, xs) == 0
  {
    if xs != [] {
      SumZero(f, xs[..|xs| - 1]);
    }
  }
}
