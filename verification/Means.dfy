// Means of samples and what they conserve: the arithmetic the analysis reports on.
module Means {

  function Sum(xs: seq<real>): real {
    if xs == [] then 0.0 else xs[0] + Sum(xs[1..])
  }

  // statistics.fmean and statistics.mean, which throw on no samples
  function Mean(xs: seq<real>): real
    requires xs != []
  {
    Sum(xs) / |xs| as real
  }

  // A mean weighted by the number of its values.
  function Weighted(n: nat, mean: real): real { n as real * mean }

  function Flatten(xss: seq<seq<real>>): seq<real> {
    if xss == [] then [] else xss[0] + Flatten(xss[1..])
  }

  predicate AllNonEmpty(xss: seq<seq<real>>) { forall i :: 0 <= i < |xss| ==> xss[i] != [] }

  lemma {:induction false} FlattenNonEmpty(xss: seq<seq<real>>)
    requires xss != [] && AllNonEmpty(xss)
    ensures Flatten(xss) != []
  {
    assert xss[0] != [];
  }

  lemma {:induction false} SumConcat(a: seq<real>, b: seq<real>)
    ensures Sum(a + b) == Sum(a) + Sum(b)
  {
    if a == [] {
      assert a + b == b;
    } else {
      assert (a + b)[1..] == a[1..] + b;
      SumConcat(a[1..], b);
    }
  }

  lemma {:induction false} SumPointwise(xs: seq<real>, ys: seq<real>)
    requires |xs| == |ys| && forall i :: 0 <= i < |xs| ==> xs[i] <= ys[i]
    ensures Sum(xs) <= Sum(ys)
  {
    if xs != [] { SumPointwise(xs[1..], ys[1..]); }
  }

  lemma {:induction false} SumShift(xs: seq<real>, ys: seq<real>, c: real)
    requires |xs| == |ys| && forall i :: 0 <= i < |xs| ==> ys[i] == xs[i] + c
    ensures Sum(ys) == Sum(xs) + |xs| as real * c
  {
    if xs != [] {
      SumShift(xs[1..], ys[1..], c);
      assert |xs| as real * c == c + |xs[1..]| as real * c;
    }
  }

  lemma {:induction false} SumBounds(xs: seq<real>, low: real, high: real)
    requires forall x :: x in xs ==> low <= x <= high
    ensures |xs| as real * low <= Sum(xs) <= |xs| as real * high
  {
    if xs != [] {
      forall x | x in xs[1..] ensures low <= x <= high { assert x in xs; }
      SumBounds(xs[1..], low, high);
      assert xs[0] in xs;
      assert |xs| as real * low == low + |xs[1..]| as real * low;
      assert |xs| as real * high == high + |xs[1..]| as real * high;
    }
  }

  lemma DivideOrder(a: real, b: real, n: real)
    requires n > 0.0 && a <= b
    ensures a / n <= b / n
  {
  }

  lemma {:induction false} MeanPointwise(xs: seq<real>, ys: seq<real>)
    requires xs != [] && |xs| == |ys| && forall i :: 0 <= i < |xs| ==> xs[i] <= ys[i]
    ensures Mean(xs) <= Mean(ys)
  {
    SumPointwise(xs, ys);
    DivideOrder(Sum(xs), Sum(ys), |xs| as real);
  }

  lemma {:induction false} MeanShift(xs: seq<real>, ys: seq<real>, c: real)
    requires xs != [] && |xs| == |ys| && forall i :: 0 <= i < |xs| ==> ys[i] == xs[i] + c
    ensures Mean(ys) == Mean(xs) + c
  {
    SumShift(xs, ys, c);
    var n := |xs| as real;
    assert (Sum(xs) + n * c) / n == Sum(xs) / n + c;
  }

  lemma {:induction false} MeanBounds(xs: seq<real>, low: real, high: real)
    requires xs != [] && forall x :: x in xs ==> low <= x <= high
    ensures low <= Mean(xs) <= high
  {
    SumBounds(xs, low, high);
    var n := |xs| as real;
    DivideOrder(n * low, Sum(xs), n);
    DivideOrder(Sum(xs), n * high, n);
    assert n * low / n == low && n * high / n == high;
  }

  lemma MeanTimes(xs: seq<real>)
    requires xs != []
    ensures |xs| as real * Mean(xs) == Sum(xs)
  {
  }

  // Splitting samples in two parts, the means weighted by their sizes recombine.
  lemma {:induction false} WeightedRecombination(a: seq<real>, b: seq<real>, all: seq<real>)
    requires a != [] && b != [] && all != []
    requires Sum(all) == Sum(a) + Sum(b) && |all| == |a| + |b|
    ensures |a| as real * Mean(a) + |b| as real * Mean(b) == |all| as real * Mean(all)
  {
    MeanTimes(a);
    MeanTimes(b);
    MeanTimes(all);
  }
}
