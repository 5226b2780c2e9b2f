// The two-level bootstrap of analyze.py for a fixed sequence of random draws: every iteration
// resamples runs, then values within each resampled run.
module Bootstrap {
  import opened OrderStatistics
  import opened Means

  // The indices that rng.choices picks in one iteration.
  datatype Draw = Draw(runs: seq<nat>, values: seq<seq<nat>>)

  // A draw that fits differences of a given shape (the lengths of the runs).
  predicate Fits(d: Draw, shape: seq<nat>) {
    && |d.runs| == |shape| == |d.values|
    && (forall k :: 0 <= k < |d.runs| ==> d.runs[k] < |shape|)
    && (forall k :: 0 <= k < |d.runs| ==> |d.values[k]| == shape[d.runs[k]])
    && (forall k, j :: 0 <= k < |d.runs| && 0 <= j < |d.values[k]| ==> d.values[k][j] < shape[d.runs[k]])
  }

  function Shape(differences: seq<seq<real>>): (s: seq<nat>)
    ensures |s| == |differences| && forall i :: 0 <= i < |s| ==> s[i] == |differences[i]|
  {
    seq(|differences|, i requires 0 <= i < |differences| => |differences[i]|)
  }

  // What a run of the benchmark contributes: at least one run, at least one difference in each.
  predicate Proper(differences: seq<seq<real>>) { differences != [] && AllNonEmpty(differences) }

  // rng.choices(run, k=len(run)), with the drawn indices
  function Choose(run: seq<real>, indices: seq<nat>): (xs: seq<real>)
    requires forall j :: 0 <= j < |indices| ==> indices[j] < |run|
    ensures |xs| == |indices| && forall j :: 0 <= j < |xs| ==> xs[j] == run[indices[j]]
  {
    seq(|indices|, j requires 0 <= j < |indices| => run[indices[j]])
  }

  function Resampled(differences: seq<seq<real>>, d: Draw): (xss: seq<seq<real>>)
    requires Fits(d, Shape(differences))
    ensures |xss| == |differences|
    ensures forall k :: 0 <= k < |xss| ==> |xss[k]| == |differences[d.runs[k]]|
  {
    seq(|differences|, k requires 0 <= k < |differences| => Choose(differences[d.runs[k]], d.values[k]))
  }

  lemma {:induction false} ResampledProper(differences: seq<seq<real>>, d: Draw)
    requires Proper(differences) && Fits(d, Shape(differences))
    ensures Flatten(Resampled(differences, d)) != []
  {
    var xss := Resampled(differences, d);
    forall k | 0 <= k < |xss| ensures xss[k] != [] { assert differences[d.runs[k]] != []; }
    FlattenNonEmpty(xss);
  }

  function ResampledMean(differences: seq<seq<real>>, d: Draw): real
    requires Proper(differences) && Fits(d, Shape(differences))
  {
    ResampledProper(differences, d);
    Mean(Flatten(Resampled(differences, d)))
  }

  predicate AllFit(draws: seq<Draw>, shape: seq<nat>) { forall i :: 0 <= i < |draws| ==> Fits(draws[i], shape) }

  function ResampledMeans(differences: seq<seq<real>>, draws: seq<Draw>): (means: seq<real>)
    requires Proper(differences) && AllFit(draws, Shape(differences))
    ensures |means| == |draws|
    ensures forall i :: 0 <= i < |draws| ==> means[i] == ResampledMean(differences, draws[i])
  {
    seq(|draws|, i requires 0 <= i < |draws| => ResampledMean(differences, draws[i]))
  }

  // The interval's ends: the 2.5th and the 97.5th percentile of the resampled means.
  function Interval(differences: seq<seq<real>>, draws: seq<Draw>): (real, real)
    requires Proper(differences) && AllFit(draws, Shape(differences)) && draws != []
  {
    var means := ResampledMeans(differences, draws);
    (Percentile(means, 0.025), Percentile(means, 0.975))
  }

  // bootstrap_interval: the means are appended iteration by iteration.
  method BootstrapInterval(differences: seq<seq<real>>, draws: seq<Draw>) returns (low: real, high: real)
    requires Proper(differences) && AllFit(draws, Shape(differences)) && draws != []
    ensures (low, high) == Interval(differences, draws)
  {
    hide Mean, Percentile, Flatten;
    var means: seq<real> := [];
    for i := 0 to |draws|
      invariant means == ResampledMeans(differences, draws)[..i]
    {
      var resampled: seq<real> := [];
      var runs := Resampled(differences, draws[i]);
      for k := 0 to |runs|
        invariant Flatten(runs) == resampled + Flatten(runs[k..])
      {
        FlattenStep(runs[k..]);
        assert runs[k..][1..] == runs[k + 1..];
        resampled := resampled + runs[k];
      }
      FlattenEnd(runs);
      assert resampled + [] == resampled;
      ResampledProper(differences, draws[i]);
      means := means + [Mean(resampled)];
    }
    assert means == ResampledMeans(differences, draws);
    low, high := Percentile(means, 0.025), Percentile(means, 0.975);
  }

  lemma FlattenStep(xss: seq<seq<real>>)
    requires xss != []
    ensures Flatten(xss) == xss[0] + Flatten(xss[1..])
  {
  }

  lemma FlattenEnd(xss: seq<seq<real>>)
    ensures Flatten(xss[|xss|..]) == []
  {
  }

  // ---------------------------------------------------------------- one iteration

  lemma {:induction false} FlattenPointwise(a: seq<seq<real>>, b: seq<seq<real>>)
    requires |a| == |b|
    requires forall k :: 0 <= k < |a| ==> |a[k]| == |b[k]| && forall j :: 0 <= j < |a[k]| ==> a[k][j] <= b[k][j]
    ensures |Flatten(a)| == |Flatten(b)|
    ensures forall i :: 0 <= i < |Flatten(a)| ==> Flatten(a)[i] <= Flatten(b)[i]
  {
    if a != [] { FlattenPointwise(a[1..], b[1..]); }
  }

  lemma {:induction false} FlattenShift(a: seq<seq<real>>, b: seq<seq<real>>, c: real)
    requires |a| == |b|
    requires forall k :: 0 <= k < |a| ==> |a[k]| == |b[k]| && forall j :: 0 <= j < |a[k]| ==> b[k][j] == a[k][j] + c
    ensures |Flatten(a)| == |Flatten(b)|
    ensures forall i :: 0 <= i < |Flatten(a)| ==> Flatten(b)[i] == Flatten(a)[i] + c
  {
    if a != [] { FlattenShift(a[1..], b[1..], c); }
  }

  lemma {:induction false} FlattenWithin(xss: seq<seq<real>>, low: real, high: real)
    requires forall k, j :: 0 <= k < |xss| && 0 <= j < |xss[k]| ==> low <= xss[k][j] <= high
    ensures forall x :: x in Flatten(xss) ==> low <= x <= high
  {
    if xss != [] {
      FlattenWithin(xss[1..], low, high);
      forall x | x in Flatten(xss) ensures low <= x <= high {
        if x in xss[0] {
          var j :| 0 <= j < |xss[0]| && xss[0][j] == x;
        } else {
          assert x in Flatten(xss[1..]);
        }
      }
    }
  }

  // ---------------------------------------------------------------- the interval

  predicate Below(a: seq<seq<real>>, b: seq<seq<real>>) {
    Shape(a) == Shape(b) && forall k, j :: 0 <= k < |a| && 0 <= j < |a[k]| ==> a[k][j] <= b[k][j]
  }

  lemma {:induction false} MeanBelow(a: seq<seq<real>>, b: seq<seq<real>>, d: Draw)
    requires Proper(a) && Proper(b) && Below(a, b) && Fits(d, Shape(a))
    ensures ResampledMean(a, d) <= ResampledMean(b, d)
  {
    hide Mean, Flatten;
    var ra, rb := Resampled(a, d), Resampled(b, d);
    forall k | 0 <= k < |ra|
      ensures |ra[k]| == |rb[k]| && forall j :: 0 <= j < |ra[k]| ==> ra[k][j] <= rb[k][j]
    {
      assert |a[d.runs[k]]| == Shape(a)[d.runs[k]] == |b[d.runs[k]]|;
    }
    FlattenPointwise(ra, rb);
    ResampledProper(a, d);
    MeanPointwise(Flatten(ra), Flatten(rb));
  }

  // For one sequence of draws, raising differences pointwise never lowers either end.
  lemma {:induction false} IntervalMonotone(a: seq<seq<real>>, b: seq<seq<real>>, draws: seq<Draw>)
    requires Proper(a) && Proper(b) && Below(a, b) && draws != []
    requires AllFit(draws, Shape(a))
    ensures Interval(a, draws).0 <= Interval(b, draws).0 && Interval(a, draws).1 <= Interval(b, draws).1
  {
    hide Percentile, ResampledMean;
    var ma, mb := ResampledMeans(a, draws), ResampledMeans(b, draws);
    forall i | 0 <= i < |draws| ensures ma[i] <= mb[i] { MeanBelow(a, b, draws[i]); }
    PercentilePointwise(ma, mb, 0.025);
    PercentilePointwise(ma, mb, 0.975);
  }

  function ShiftAll(a: seq<seq<real>>, c: real): (b: seq<seq<real>>)
    ensures |b| == |a| && Shape(b) == Shape(a) && forall k :: 0 <= k < |a| ==> b[k] == Shift(a[k], c)
  {
    seq(|a|, k requires 0 <= k < |a| => Shift(a[k], c))
  }

  lemma {:induction false} MeanShifted(a: seq<seq<real>>, c: real, d: Draw)
    requires Proper(a) && Fits(d, Shape(a))
    ensures Proper(ShiftAll(a, c)) && ResampledMean(ShiftAll(a, c), d) == ResampledMean(a, d) + c
  {
    hide Mean, Flatten;
    var b := ShiftAll(a, c);
    var ra := Resampled(a, d);
    ResampledProper(a, d);
    forall k | 0 <= k < |b| ensures b[k] != [] { assert a[k] != []; }
    var rb := Resampled(b, d);
    FlattenShift(ra, rb, c);
    MeanShift(Flatten(ra), Flatten(rb), c);
  }

  // Adding c to every difference moves both ends by exactly c.
  lemma {:induction false} IntervalShift(a: seq<seq<real>>, c: real, draws: seq<Draw>)
    requires Proper(a) && AllFit(draws, Shape(a)) && draws != []
    ensures Proper(ShiftAll(a, c))
    ensures Interval(ShiftAll(a, c), draws) == (Interval(a, draws).0 + c, Interval(a, draws).1 + c)
  {
    hide Percentile, ResampledMean;
    var b := ShiftAll(a, c);
    forall k | 0 <= k < |b| ensures b[k] != [] { assert a[k] != []; }
    var ma, mb := ResampledMeans(a, draws), ResampledMeans(b, draws);
    forall i | 0 <= i < |draws| ensures mb[i] == ma[i] + c { MeanShifted(a, c, draws[i]); }
    assert mb == Shift(ma, c);
    PercentileShift(ma, 0.025, c);
    PercentileShift(ma, 0.975, c);
  }

  // The ends are in order and lie between any bounds of the differences.
  lemma {:induction false} IntervalBounds(a: seq<seq<real>>, draws: seq<Draw>, low: real, high: real)
    requires Proper(a) && AllFit(draws, Shape(a)) && draws != []
    requires forall k, j :: 0 <= k < |a| && 0 <= j < |a[k]| ==> low <= a[k][j] <= high
    ensures low <= Interval(a, draws).0 <= Interval(a, draws).1 <= high
  {
    hide Percentile, Mean, Flatten;
    var means := ResampledMeans(a, draws);
    forall i | 0 <= i < |draws| ensures low <= means[i] <= high {
      var xss := Resampled(a, draws[i]);
      FlattenWithin(xss, low, high);
      ResampledProper(a, draws[i]);
      MeanBounds(Flatten(xss), low, high);
    }
    PercentileBounds(means, 0.025, low, high);
    PercentileBounds(means, 0.975, low, high);
    PercentileMonotone(means, 0.025, 0.975);
  }

  // ---------------------------------------------------------------- what the numbers denote

  // The total of the picked values of one run, and of all picked values of a draw, with their number.
  function PickedTotal(run: seq<real>, indices: seq<nat>): real
    requires forall j :: 0 <= j < |indices| ==> indices[j] < |run|
  {
    if indices == [] then 0.0 else run[indices[0]] + PickedTotal(run, indices[1..])
  }

  predicate Picks(differences: seq<seq<real>>, runs: seq<nat>, values: seq<seq<nat>>) {
    && |runs| == |values| && (forall k :: 0 <= k < |runs| ==> runs[k] < |differences|)
    && forall k, j :: 0 <= k < |runs| && 0 <= j < |values[k]| ==> values[k][j] < |differences[runs[k]]|
  }

  function DrawTotal(differences: seq<seq<real>>, runs: seq<nat>, values: seq<seq<nat>>): real
    requires Picks(differences, runs, values)
  {
    if runs == [] then 0.0
    else PickedTotal(differences[runs[0]], values[0]) + DrawTotal(differences, runs[1..], values[1..])
  }

  function DrawCount(values: seq<seq<nat>>): nat {
    if values == [] then 0 else |values[0]| + DrawCount(values[1..])
  }

  lemma {:induction false} ChooseTotal(run: seq<real>, indices: seq<nat>)
    requires forall j :: 0 <= j < |indices| ==> indices[j] < |run|
    ensures Sum(Choose(run, indices)) == PickedTotal(run, indices)
  {
    if indices != [] {
      assert Choose(run, indices)[1..] == Choose(run, indices[1..]);
      ChooseTotal(run, indices[1..]);
    }
  }

  function Picked(differences: seq<seq<real>>, runs: seq<nat>, values: seq<seq<nat>>): (xss: seq<seq<real>>)
    requires Picks(differences, runs, values)
    ensures |xss| == |runs| && forall k :: 0 <= k < |xss| ==> xss[k] == Choose(differences[runs[k]], values[k])
  {
    seq(|runs|, k requires 0 <= k < |runs| => Choose(differences[runs[k]], values[k]))
  }

  lemma {:induction false} PickedSum(differences: seq<seq<real>>, runs: seq<nat>, values: seq<seq<nat>>)
    requires Picks(differences, runs, values)
    ensures Sum(Flatten(Picked(differences, runs, values))) == DrawTotal(differences, runs, values)
    ensures |Flatten(Picked(differences, runs, values))| == DrawCount(values)
  {
    hide Sum, PickedTotal;
    if runs == [] {
      SumOfNone();
    } else {
      var first := Choose(differences[runs[0]], values[0]);
      assert Picked(differences, runs, values)[1..] == Picked(differences, runs[1..], values[1..]);
      PickedSum(differences, runs[1..], values[1..]);
      ChooseTotal(differences[runs[0]], values[0]);
      SumConcat(first, Flatten(Picked(differences, runs[1..], values[1..])));
    }
  }

  lemma SumOfNone()
    ensures Sum([]) == 0.0
  {
  }

  // A resampled mean times the number of picked values is their total.
  lemma ResampledTotal(differences: seq<seq<real>>, d: Draw)
    requires Proper(differences) && Fits(d, Shape(differences))
    ensures Picks(differences, d.runs, d.values) && DrawCount(d.values) > 0
    ensures Weighted(DrawCount(d.values), ResampledMean(differences, d)) == DrawTotal(differences, d.runs, d.values)
  {
    hide Mean, Sum, Flatten;
    forall k, j | 0 <= k < |d.runs| && 0 <= j < |d.values[k]| ensures d.values[k][j] < |differences[d.runs[k]]| {
      assert Shape(differences)[d.runs[k]] == |differences[d.runs[k]]|;
    }
    assert Resampled(differences, d) == Picked(differences, d.runs, d.values);
    PickedSum(differences, d.runs, d.values);
    ResampledProper(differences, d);
    MeanTimes(Flatten(Resampled(differences, d)));
  }

  // A sorted sequence at p fortieths of a place.
  function Fortieth(ordered: seq<real>, p: nat): real
    requires p <= 40 * (|ordered| - 1)
  {
    if p % 40 == 0 then ordered[p / 40]
    else ordered[p / 40] + (ordered[p / 40 + 1] - ordered[p / 40]) * ((p % 40) as real / 40.0)
  }

  // The ends stand one fortieth, and thirty-nine fortieths, of the way through the sorted means.
  lemma IntervalEnds(differences: seq<seq<real>>, draws: seq<Draw>, ordered: seq<real>)
    requires Proper(differences) && AllFit(draws, Shape(differences)) && draws != []
    requires Sorted(ordered) && multiset(ordered) == multiset(ResampledMeans(differences, draws))
    ensures |ordered| == |draws|
    ensures Interval(differences, draws) == (Fortieth(ordered, |draws| - 1), Fortieth(ordered, 39 * (|draws| - 1)))
  {
    hide Percentile, ResampledMean, Sorted;
    var means := ResampledMeans(differences, draws);
    FortiethExact(means, ordered, 0.025, |draws| - 1);
    FortiethExact(means, ordered, 0.975, 39 * (|draws| - 1));
  }

  lemma FortiethExact(values: seq<real>, ordered: seq<real>, fraction: real, p: nat)
    requires values != [] && Sorted(ordered) && multiset(ordered) == multiset(values)
    requires 0.0 <= fraction <= 1.0 && (|values| - 1) as real * fraction == p as real / 40.0
    ensures |ordered| == |values| && p <= 40 * (|ordered| - 1) && Percentile(values, fraction) == Fortieth(ordered, p)
  {
    hide Percentile, Sorted;
    var k, r := p / 40, p % 40;
    assert p as real / 40.0 == k as real + r as real / 40.0;
    PercentileExact(values, fraction, ordered, k, r as real / 40.0);
  }
}
