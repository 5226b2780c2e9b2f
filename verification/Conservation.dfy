// What the reported numbers of the timing analysis add up to.
module Conservation {
  import opened Wrappers
  import opened OrderStatistics
  import opened Means
  import opened Bootstrap
  import opened Schedule
  import opened Measurement
  import opened Analysis

  // round(x, 3), of which only this is used: it is off by at most half a thousandth.
  ghost predicate RoundsToThousandths(round: real -> real) {
    forall x: real :: -0.0005 <= round(x) - x <= 0.0005
  }

  // ---------------------------------------------------------------- differences of profiles

  // Round means of one condition, run by run.
  type Profiles = seq<seq<real>>

  function Minus(a: seq<real>, b: seq<real>): (d: seq<real>)
    requires |a| == |b|
    ensures |d| == |a| && forall i :: 0 <= i < |d| ==> d[i] == a[i] - b[i]
  {
    seq(|a|, i requires 0 <= i < |a| => a[i] - b[i])
  }

  function Step(before: Profiles, after: Profiles): (d: Profiles)
    requires Shape(before) == Shape(after)
    ensures |d| == |before| && Shape(d) == Shape(before)
  {
    assert forall r :: 0 <= r < |before| ==> |before[r]| == Shape(before)[r] == |after[r]|;
    seq(|before|, r requires 0 <= r < |before| => Minus(after[r], before[r]))
  }

  lemma {:induction false} SumMinus(a: seq<real>, b: seq<real>)
    requires |a| == |b|
    ensures Sum(Minus(a, b)) == Sum(a) - Sum(b)
  {
    if a != [] {
      SumMinus(a[1..], b[1..]);
      assert Minus(a, b)[1..] == Minus(a[1..], b[1..]);
    }
  }

  lemma ShapeTail(a: Profiles, b: Profiles)
    requires a != [] && Shape(a) == Shape(b)
    ensures b != [] && |a[0]| == |b[0]| && Shape(a[1..]) == Shape(b[1..])
  {
    assert Shape(a)[0] == Shape(b)[0];
    assert Shape(a[1..]) == Shape(a)[1..] && Shape(b[1..]) == Shape(b)[1..];
  }

  lemma {:induction false} SumStep(before: Profiles, after: Profiles)
    requires Shape(before) == Shape(after)
    ensures Sum(Flatten(Step(before, after))) == Sum(Flatten(after)) - Sum(Flatten(before))
    ensures |Flatten(Step(before, after))| == |Flatten(before)| == |Flatten(after)|
  {
    if before != [] {
      ShapeTail(before, after);
      var d := Step(before, after);
      assert d[1..] == Step(before[1..], after[1..]);
      SumStep(before[1..], after[1..]);
      SumMinus(after[0], before[0]);
      SumConcat(d[0], Flatten(d[1..]));
      SumConcat(before[0], Flatten(before[1..]));
      SumConcat(after[0], Flatten(after[1..]));
    }
  }

  // ---------------------------------------------------------------- telescoping

  predicate SameShapes(chain: seq<Profiles>) {
    forall i :: 0 <= i < |chain| ==> Shape(chain[i]) == Shape(chain[0])
  }

  // The unrounded mean difference of each step of a chain.
  function StepMeans(chain: seq<Profiles>): (means: seq<real>)
    requires SameShapes(chain) && chain != [] && Proper(chain[0])
    ensures |means| == |chain| - 1
  {
    seq(|chain| - 1, j requires 0 <= j < |chain| - 1 => StepMean(chain[j], chain[j + 1]))
  }

  function StepMean(before: Profiles, after: Profiles): real
    requires Shape(before) == Shape(after) && Flatten(before) != []
  {
    SumStep(before, after);
    Mean(Flatten(Step(before, after)))
  }

  lemma {:induction false} ProperFlat(a: Profiles, b: Profiles)
    requires Proper(a) && Shape(a) == Shape(b)
    ensures Flatten(a) != [] && Flatten(b) != [] && |Flatten(a)| == |Flatten(b)|
  {
    FlattenNonEmpty(a);
    SumStep(a, b);
  }

  lemma StepMeanOf(before: Profiles, after: Profiles)
    requires Shape(before) == Shape(after) && Flatten(before) != []
    ensures StepMean(before, after) == (Sum(Flatten(after)) - Sum(Flatten(before))) / |Flatten(before)| as real
  {
    SumStep(before, after);
  }

  lemma DivideSum(a: real, b: real, n: real)
    requires n > 0.0
    ensures a / n + b / n == (a + b) / n
  {
  }

  lemma {:induction false} TelescopeFrom(chain: seq<Profiles>, means: seq<real>, n: real)
    requires SameShapes(chain) && chain != [] && Proper(chain[0]) && n == |Flatten(chain[0])| as real
    requires means == StepMeans(chain)
    ensures n > 0.0
    ensures Sum(means) == (Sum(Flatten(chain[|chain| - 1])) - Sum(Flatten(chain[0]))) / n
    decreases |chain|
  {
    hide Sum, Flatten, Step, Mean, StepMean;
    ProperFlat(chain[0], chain[0]);
    if |chain| == 1 {
      EmptySum(means);
      assert 0.0 / n == 0.0;
    } else {
      var later := chain[1..];
      assert Shape(chain[1]) == Shape(chain[0]);
      ProperFlat(chain[0], chain[1]);
      ProperSame(chain[0], chain[1]);
      assert SameShapes(later);
      assert means[1..] == StepMeans(later);
      TelescopeFrom(later, means[1..], n);
      SumHead(means);
      StepMeanOf(chain[0], chain[1]);
      DivideSum(Sum(Flatten(chain[1])) - Sum(Flatten(chain[0])),
                Sum(Flatten(later[|later| - 1])) - Sum(Flatten(later[0])), n);
    }
  }

  lemma EmptySum(xs: seq<real>)
    requires xs == []
    ensures Sum(xs) == 0.0
  {
  }

  lemma SumHead(xs: seq<real>)
    requires xs != []
    ensures Sum(xs) == xs[0] + Sum(xs[1..])
  {
  }

  lemma ProperSame(a: Profiles, b: Profiles)
    requires Proper(a) && Shape(a) == Shape(b)
    ensures Proper(b)
  {
    forall i | 0 <= i < |b| ensures b[i] != [] { assert |b[i]| == Shape(b)[i] == |a[i]|; }
  }

  // The mean differences along a chain sum to the mean difference between its two ends.
  lemma {:induction false} Telescopes(chain: seq<Profiles>)
    requires SameShapes(chain) && chain != [] && Proper(chain[0])
    ensures Shape(chain[|chain| - 1]) == Shape(chain[0]) && Flatten(chain[0]) != []
    ensures Sum(StepMeans(chain)) == StepMean(chain[0], chain[|chain| - 1])
  {
    hide Sum, Flatten, Step, Mean, StepMean, StepMeans;
    ProperFlat(chain[0], chain[0]);
    TelescopeFrom(chain, StepMeans(chain), |Flatten(chain[0])| as real);
    assert Shape(chain[|chain| - 1]) == Shape(chain[0]);
    StepMeanOf(chain[0], chain[|chain| - 1]);
  }

  function Rounded(round: real -> real, xs: seq<real>): (ys: seq<real>)
    ensures |ys| == |xs| && forall i :: 0 <= i < |xs| ==> ys[i] == round(xs[i])
  {
    seq(|xs|, i requires 0 <= i < |xs| => round(xs[i]))
  }

  lemma {:induction false} RoundingBound(round: real -> real, xs: seq<real>)
    requires RoundsToThousandths(round)
    ensures -0.0005 * |xs| as real <= Sum(Rounded(round, xs)) - Sum(xs) <= 0.0005 * |xs| as real
  {
    if xs != [] {
      RoundingBound(round, xs[1..]);
      assert Rounded(round, xs)[1..] == Rounded(round, xs[1..]);
      assert -0.0005 <= round(xs[0]) - xs[0] <= 0.0005;
    }
  }

  // The reported, rounded steps miss the difference of the ends by at most half a thousandth each.
  lemma {:induction false} ReportedStepsTelescope(round: real -> real, chain: seq<Profiles>)
    requires RoundsToThousandths(round) && SameShapes(chain) && chain != [] && Proper(chain[0])
    ensures Shape(chain[|chain| - 1]) == Shape(chain[0]) && Flatten(chain[0]) != []
    ensures var error := Sum(Rounded(round, StepMeans(chain))) - StepMean(chain[0], chain[|chain| - 1]);
            -0.0005 * (|chain| - 1) as real <= error <= 0.0005 * (|chain| - 1) as real
  {
    hide Sum, Flatten, StepMean, StepMeans;
    Telescopes(chain);
    RoundingBound(round, StepMeans(chain));
  }

  // ---------------------------------------------------------------- halves and runs

  // [value for run in differences for value in run[:len(run) // 2]] and its complement
  function FirstHalves(differences: Profiles): (xss: Profiles)
    ensures |xss| == |differences| && forall r :: 0 <= r < |xss| ==> xss[r] == differences[r][..|differences[r]| / 2]
  {
    seq(|differences|, r requires 0 <= r < |differences| => differences[r][..|differences[r]| / 2])
  }

  // Each run is cut in the middle: the first half is the shorter one when its length is odd.
  function SecondHalves(differences: Profiles): (xss: Profiles)
    ensures |xss| == |differences| && forall r :: 0 <= r < |xss| ==> xss[r] == differences[r][|differences[r]| / 2..]
    ensures forall r :: 0 <= r < |xss| ==>
              var first := FirstHalves(differences)[r];
              first + xss[r] == differences[r] && |first| <= |xss[r]| <= |first| + 1
  {
    seq(|differences|, r requires 0 <= r < |differences| => differences[r][|differences[r]| / 2..])
  }

  // half_means; None where fmean throws on an empty half
  function HalfMeans(differences: Profiles, round: real -> real): Option<(real, real)> {
    var first, second := Flatten(FirstHalves(differences)), Flatten(SecondHalves(differences));
    if first == [] || second == [] then None else Some((round(Mean(first)), round(Mean(second))))
  }

  lemma {:induction false} HalvesSum(differences: Profiles)
    ensures var first, second := Flatten(FirstHalves(differences)), Flatten(SecondHalves(differences));
            && |first| + |second| == |Flatten(differences)|
            && Sum(first) + Sum(second) == Sum(Flatten(differences))
  {
    if differences != [] {
      var run, later := differences[0], differences[1..];
      var a, b := run[..|run| / 2], run[|run| / 2..];
      HalvesSum(later);
      assert FirstHalves(differences)[1..] == FirstHalves(later);
      assert SecondHalves(differences)[1..] == SecondHalves(later);
      assert run == a + b;
      SumConcat(a, b);
      SumConcat(a, Flatten(FirstHalves(later)));
      SumConcat(b, Flatten(SecondHalves(later)));
      SumConcat(run, Flatten(later));
    }
  }

  // Some run has two rounds: then its first half has a value, and so has its second.
  predicate TwoRounds(differences: Profiles) { exists r :: 0 <= r < |differences| && |differences[r]| >= 2 }

  lemma {:induction false} FlattenEmpty(xss: Profiles)
    ensures Flatten(xss) == [] <==> forall r :: 0 <= r < |xss| ==> xss[r] == []
  {
    if xss != [] {
      FlattenEmpty(xss[1..]);
      assert forall r :: 0 < r < |xss| ==> xss[r] == xss[1..][r - 1];
    }
  }

  // half_means has a first and a second half exactly when some run has two rounds.
  lemma HalvesDefined(differences: Profiles)
    ensures Flatten(FirstHalves(differences)) != [] <==> TwoRounds(differences)
    ensures TwoRounds(differences) ==> Flatten(SecondHalves(differences)) != [] && Flatten(differences) != []
  {
    hide Flatten;
    FlattenEmpty(FirstHalves(differences));
    FlattenEmpty(SecondHalves(differences));
    FlattenEmpty(differences);
    forall r | 0 <= r < |differences|
      ensures FirstHalves(differences)[r] != [] <==> |differences[r]| >= 2
      ensures |differences[r]| >= 2 ==> SecondHalves(differences)[r] != []
    {
    }
  }

  // The means of the halves weighted by their sizes recombine to the overall mean.
  lemma {:induction false} HalvesRecombine(differences: Profiles)
    requires TwoRounds(differences)
    ensures var first, second := Flatten(FirstHalves(differences)), Flatten(SecondHalves(differences));
            var all := Flatten(differences);
            && first != [] && second != [] && all != [] && |first| + |second| == |all|
            && Weighted(|first|, Mean(first)) + Weighted(|second|, Mean(second)) == Weighted(|all|, Mean(all))
  {
    hide Mean, Sum, Flatten, TwoRounds;
    HalvesSum(differences);
    HalvesDefined(differences);
    WeightedRecombination(Flatten(FirstHalves(differences)), Flatten(SecondHalves(differences)), Flatten(differences));
  }

  // half_means returns exactly when some run has two rounds, and its two reported values, weighted by
  // the sizes of the halves, miss the total by at most half a thousandth for each difference.
  lemma HalfMeansRecombine(round: real -> real, differences: Profiles)
    requires RoundsToThousandths(round)
    ensures HalfMeans(differences, round).Some? <==> TwoRounds(differences)
    ensures HalfMeans(differences, round).Some? ==> Flatten(differences) != []
    ensures HalfMeans(differences, round).Some? ==>
              var first, second := Flatten(FirstHalves(differences)), Flatten(SecondHalves(differences));
              var all, reported := Flatten(differences), HalfMeans(differences, round).value;
              var error := Weighted(|first|, reported.0) + Weighted(|second|, reported.1) - Weighted(|all|, Mean(all));
              -0.0005 * |all| as real <= error <= 0.0005 * |all| as real
  {
    hide Mean, Flatten, TwoRounds, Weighted;
    HalvesDefined(differences);
    if TwoRounds(differences) {
      HalvesRecombine(differences);
      var first, second := Flatten(FirstHalves(differences)), Flatten(SecondHalves(differences));
      WeightedError(|first|, round(Mean(first)), Mean(first));
      WeightedError(|second|, round(Mean(second)), Mean(second));
    }
  }

  lemma WeightedError(n: nat, reported: real, exact: real)
    requires -0.0005 <= reported - exact <= 0.0005
    ensures -0.0005 * n as real <= Weighted(n, reported) - Weighted(n, exact) <= 0.0005 * n as real
  {
    hide Weighted;
    WeightedGap(n, reported, exact);
    WeightedSmall(n, reported - exact);
  }

  lemma WeightedGap(n: nat, a: real, b: real)
    ensures Weighted(n, a) - Weighted(n, b) == Weighted(n, a - b)
  {
  }

  lemma {:induction false} WeightedSmall(n: nat, e: real)
    requires -0.0005 <= e <= 0.0005
    ensures -0.0005 * n as real <= Weighted(n, e) <= 0.0005 * n as real
  {
    if n > 0 {
      WeightedSmall(n - 1, e);
      WeightedNext(n, e);
    }
  }

  lemma WeightedNext(n: nat, e: real)
    requires n > 0
    ensures Weighted(n, e) == Weighted(n - 1, e) + e
  {
    assert n as real == (n - 1) as real + 1.0;
  }

  // The unrounded per_run means.
  function RunMeans(differences: Profiles): (means: seq<real>)
    requires AllNonEmpty(differences)
    ensures |means| == |differences| && forall r :: 0 <= r < |means| ==> means[r] == Mean(differences[r])
  {
    seq(|differences|, r requires 0 <= r < |differences| => assert differences[r] != []; Mean(differences[r]))
  }

  lemma FirstRunSum(differences: Profiles)
    requires differences != [] && differences[0] != []
    ensures Sum(Flatten(differences)) == Sum(differences[0]) + Sum(Flatten(differences[1..]))
  {
    hide Sum;
    SumConcat(differences[0], Flatten(differences[1..]));
  }

  lemma FirstRunMean(differences: Profiles)
    requires differences != [] && AllNonEmpty(differences)
    ensures AllNonEmpty(differences[1..])
    ensures Sum(RunMeans(differences)) == Mean(differences[0]) + Sum(RunMeans(differences[1..]))
  {
    hide Mean, RunMeans;
    var later := differences[1..];
    assert forall r :: 0 <= r < |later| ==> later[r] == differences[r + 1];
    assert RunMeans(differences)[1..] == RunMeans(later);
  }

  lemma {:induction false} EqualRunsSum(differences: Profiles, n: nat)
    requires n > 0 && forall r :: 0 <= r < |differences| ==> |differences[r]| == n
    ensures AllNonEmpty(differences)
    ensures Sum(Flatten(differences)) == n as real * Sum(RunMeans(differences))
  {
    if differences != [] {
      EqualRunsSum(differences[1..], n);
      FirstRunSum(differences);
      FirstRunMean(differences);
      MeanTimes(differences[0]);
      hide Sum, Mean, Flatten, RunMeans;
      Distribute(n as real, Mean(differences[0]), Sum(RunMeans(differences[1..])));
    }
  }

  lemma {:induction false} EqualRunsCount(differences: Profiles, n: nat)
    requires forall r :: 0 <= r < |differences| ==> |differences[r]| == n
    ensures |Flatten(differences)| == n * |differences|
  {
    if differences != [] {
      EqualRunsCount(differences[1..], n);
      OneMore(n, |differences|);
    }
  }

  lemma Distribute(n: real, a: real, b: real)
    ensures n * (a + b) == n * a + n * b
  {
  }

  lemma OneMore(n: nat, k: nat)
    requires k > 0
    ensures n * k == n + n * (k - 1)
  {
  }

  // Runs of equal length: their means average to the overall mean.
  lemma {:induction false} RunMeansAverage(differences: Profiles, n: nat)
    requires n > 0 && differences != [] && forall r :: 0 <= r < |differences| ==> |differences[r]| == n
    ensures AllNonEmpty(differences) && Flatten(differences) != []
    ensures Mean(RunMeans(differences)) == Mean(Flatten(differences))
  {
    hide Sum, Flatten;
    EqualRunsSum(differences, n);
    EqualRunsCount(differences, n);
    FlattenNonEmpty(differences);
    IntProduct(n, |differences|);
    Cancel(n as real, Sum(RunMeans(differences)), |differences| as real);
  }

  lemma IntProduct(n: nat, k: nat)
    ensures (n * k) as real == n as real * k as real
  {
  }

  lemma Cancel(n: real, s: real, k: real)
    requires n > 0.0 && k > 0.0
    ensures n * k > 0.0 && (n * s) / (n * k) == s / k
  {
    assert (n * s) / (n * k) == ((n * s) / n) / k;
    assert (n * s) / n == s;
  }

  // ---------------------------------------------------------------- from the schedule to the report

  // The round means of every run of a condition.
  function ProfilesOf(runs: seq<Run>, name: string, sizes: seq<nat>, metric: Metric): (ps: Profiles)
    requires |runs| == |sizes|
    requires forall r :: 0 <= r < |runs| ==>
               name in runs[r] && RoundMeans(runs[r][name], metric).Keys == RoundRange(0, sizes[r])
    ensures |ps| == |runs| && Shape(ps) == sizes
    ensures forall r :: 0 <= r < |ps| ==> ps[r] == Profile(runs[r], name, sizes[r], metric)
  {
    seq(|runs|, r requires 0 <= r < |runs| => Profile(runs[r], name, sizes[r], metric))
  }

  // In measured runs the differences of a step are those of the two conditions' profiles.
  lemma {:induction false} MeasuredStep(runs: seq<Run>, kind: Kind, conditions: seq<Condition>, slots: seq<Slot>,
                                        sizes: seq<nat>, before: Condition, after: Condition, metric: Metric)
    requires BalancedSlots(conditions) == Some(slots) && AllMeasured(runs, kind, conditions, slots, sizes)
    requires before in conditions && Includes(kind, before) && after in conditions && Includes(kind, after)
    ensures forall r :: 0 <= r < |runs| ==>
              && before.name in runs[r] && RoundMeans(runs[r][before.name], metric).Keys == RoundRange(0, sizes[r])
              && after.name in runs[r] && RoundMeans(runs[r][after.name], metric).Keys == RoundRange(0, sizes[r])
    ensures StepDifferences(runs, before.name, after.name, metric)
         == Some(Step(ProfilesOf(runs, before.name, sizes, metric), ProfilesOf(runs, after.name, sizes, metric)))
  {
    hide BalancedSlots, Includes, Measured, RoundMeans, StepDifferences, Profile;
    AnalysisTotal(runs, kind, conditions, slots, sizes, before, after, metric);
    var d := StepDifferences(runs, before.name, after.name, metric).value;
    var s := Step(ProfilesOf(runs, before.name, sizes, metric), ProfilesOf(runs, after.name, sizes, metric));
    forall r | 0 <= r < |runs| ensures d[r] == s[r] { }
    assert d == s;
  }

  // From the schedule to the report: for a chain of included conditions no lookup misses, the
  // differences of each step are those of consecutive profiles, and the unrounded mean
  // differences of the steps sum to the mean paired difference between the two ends.
  lemma {:induction false} MeasuredChain(runs: seq<Run>, kind: Kind, conditions: seq<Condition>, slots: seq<Slot>,
                                         sizes: seq<nat>, chain: seq<Condition>, metric: Metric)
    returns (profiles: seq<Profiles>)
    requires BalancedSlots(conditions) == Some(slots) && AllMeasured(runs, kind, conditions, slots, sizes)
    requires runs != [] && forall r :: 0 <= r < |sizes| ==> sizes[r] >= 1
    requires chain != [] && forall j :: 0 <= j < |chain| ==> chain[j] in conditions && Includes(kind, chain[j])
    ensures |profiles| == |chain| && SameShapes(profiles) && Proper(profiles[0])
    ensures forall i, j :: 0 <= i < |chain| && 0 <= j < |chain| ==>
              && Shape(profiles[i]) == Shape(profiles[j])
              && StepDifferences(runs, chain[i].name, chain[j].name, metric) == Some(Step(profiles[i], profiles[j]))
    ensures Flatten(profiles[0]) != []
    ensures Sum(StepMeans(profiles)) == StepMean(profiles[0], profiles[|chain| - 1])
  {
    hide BalancedSlots, Includes, AllMeasured, RoundMeans, StepDifferences, Profile, Sum, Flatten, StepMean, Step;
    SizesMatch(runs, kind, conditions, slots, sizes);
    forall j | 0 <= j < |chain|
      ensures forall r :: 0 <= r < |runs| ==>
                chain[j].name in runs[r] && RoundMeans(runs[r][chain[j].name], metric).Keys == RoundRange(0, sizes[r])
    {
      MeasuredStep(runs, kind, conditions, slots, sizes, chain[j], chain[j], metric);
    }
    profiles := seq(|chain|, j requires 0 <= j < |chain| => ProfilesOf(runs, chain[j].name, sizes, metric));
    forall i, j | 0 <= i < |chain| && 0 <= j < |chain|
      ensures Shape(profiles[i]) == Shape(profiles[j])
      ensures StepDifferences(runs, chain[i].name, chain[j].name, metric) == Some(Step(profiles[i], profiles[j]))
    {
      MeasuredStep(runs, kind, conditions, slots, sizes, chain[i], chain[j], metric);
    }
    forall r | 0 <= r < |profiles[0]| ensures profiles[0][r] != [] { assert |profiles[0][r]| == Shape(profiles[0])[r]; }
    Telescopes(profiles);
  }

  lemma SizesMatch(runs: seq<Run>, kind: Kind, conditions: seq<Condition>, slots: seq<Slot>, sizes: seq<nat>)
    requires AllMeasured(runs, kind, conditions, slots, sizes)
    ensures |runs| == |sizes|
  {
  }
}
