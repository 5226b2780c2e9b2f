// The summary of the timing runs: means per round, paired differences along the chain of
// configurations, and what the reported numbers conserve.
module Analysis {
  import opened Wrappers
  import opened OrderStatistics
  import opened Means
  import opened Bootstrap
  import opened Schedule
  import opened Measurement

  datatype Metric = ClientMs | ServerMs

  function MetricOf(s: Sample, metric: Metric): real {
    if metric == ClientMs then s.clientMs else s.serverMs
  }

  // ---------------------------------------------------------------- means per round

  // The values of one round, in the order of the samples.
  function RoundValues(samples: seq<Sample>, round: nat, metric: Metric): seq<real> {
    if samples == [] then []
    else (if samples[0].round == round then [MetricOf(samples[0], metric)] else [])
         + RoundValues(samples[1..], round, metric)
  }

  function RoundsOf(samples: seq<Sample>): set<nat> { set i | 0 <= i < |samples| :: samples[i].round }

  lemma {:induction false} RoundValuesCount(samples: seq<Sample>, round: nat, metric: Metric)
    ensures |RoundValues(samples, round, metric)| == CountRound(samples, round)
    ensures round in RoundsOf(samples) <==> CountRound(samples, round) > 0
  {
    if samples != [] {
      var later := samples[1..];
      RoundValuesCount(later, round, metric);
      assert round in RoundsOf(samples) <==> samples[0].round == round || round in RoundsOf(later) by {
        if round in RoundsOf(later) {
          var i :| 0 <= i < |later| && later[i].round == round;
          assert samples[i + 1].round == round;
        }
        if round in RoundsOf(samples) && samples[0].round != round {
          var i :| 0 <= i < |samples| && samples[i].round == round;
          assert later[i - 1].round == round;
        }
      }
    }
  }

  // round_means as a function: the mean of each round that has samples.
  function RoundMeans(samples: seq<Sample>, metric: Metric): map<nat, real> {
    map r | r in RoundsOf(samples) ::
      assert RoundValues(samples, r, metric) != [] by { RoundValuesCount(samples, r, metric); }
      Mean(RoundValues(samples, r, metric))
  }

  lemma {:induction false} RoundValuesAppend(samples: seq<Sample>, s: Sample, round: nat, metric: Metric)
    ensures RoundValues(samples + [s], round, metric)
         == RoundValues(samples, round, metric) + if s.round == round then [MetricOf(s, metric)] else []
  {
    hide MetricOf;
    if samples == [] {
      assert samples + [s] == [s] && [s][1..] == [];
    } else {
      assert (samples + [s])[1..] == samples[1..] + [s] && (samples + [s])[0] == samples[0];
      RoundValuesAppend(samples[1..], s, round, metric);
    }
  }

  // The total client or server time of the samples of one round.
  function RoundTotal(samples: seq<Sample>, round: nat, metric: Metric): real {
    if samples == [] then 0.0
    else
      var value := match metric case ClientMs => samples[0].clientMs case ServerMs => samples[0].serverMs;
      (if samples[0].round == round then value else 0.0) + RoundTotal(samples[1..], round, metric)
  }

  // A mean times the number of samples of its round is their total.
  predicate MeansTotals(samples: seq<Sample>, metric: Metric, means: map<nat, real>) {
    forall r :: r in means ==> Weighted(CountRound(samples, r), means[r]) == RoundTotal(samples, r, metric)
  }

  lemma {:induction false} RoundValuesTotal(samples: seq<Sample>, round: nat, metric: Metric)
    ensures Sum(RoundValues(samples, round, metric)) == RoundTotal(samples, round, metric)
  {
    if samples != [] {
      var first := if samples[0].round == round then [MetricOf(samples[0], metric)] else [];
      RoundValuesTotal(samples[1..], round, metric);
      SumConcat(first, RoundValues(samples[1..], round, metric));
    }
  }

  lemma RoundMeansTotals(samples: seq<Sample>, metric: Metric)
    ensures MeansTotals(samples, metric, RoundMeans(samples, metric))
    ensures forall r :: r in RoundMeans(samples, metric) <==> CountRound(samples, r) > 0
  {
    hide Mean, Sum, RoundValues, RoundTotal, RoundsOf;
    forall r
      ensures r in RoundMeans(samples, metric) <==> CountRound(samples, r) > 0
    {
      RoundValuesCount(samples, r, metric);
    }
    forall r | r in RoundMeans(samples, metric)
      ensures Weighted(CountRound(samples, r), RoundMeans(samples, metric)[r]) == RoundTotal(samples, r, metric)
    {
      RoundValuesCount(samples, r, metric);
      RoundValuesTotal(samples, r, metric);
      MeanTimes(RoundValues(samples, r, metric));
    }
  }

  // The dictionary of lists filled sample by sample, then the means.
  method RoundMeansOf(samples: seq<Sample>, metric: Metric) returns (means: map<nat, real>)
    ensures means == RoundMeans(samples, metric)
    ensures forall r :: r in means <==> CountRound(samples, r) > 0
    ensures MeansTotals(samples, metric, means)
  {
    hide Mean, RoundsOf, RoundValues;
    assert RoundsOf(samples[..0]) == {} by { NoRoundsYet(samples[..0]); }
    var byRound: map<nat, seq<real>> := map[];
    for i := 0 to |samples|
      invariant byRound.Keys == RoundsOf(samples[..i])
      invariant forall r :: r in byRound ==> byRound[r] == RoundValues(samples[..i], r, metric)
    {
      var s := samples[i];
      assert samples[..i + 1] == samples[..i] + [s];
      forall r: nat ensures RoundValues(samples[..i + 1], r, metric)
                         == RoundValues(samples[..i], r, metric) + if s.round == r then [MetricOf(s, metric)] else []
      {
        RoundValuesAppend(samples[..i], s, r, metric);
      }
      RoundValuesNew(samples[..i], s.round, metric);
      RoundsAppend(samples[..i], s);
      byRound := byRound[s.round := (if s.round in byRound then byRound[s.round] else []) + [MetricOf(s, metric)]];
    }
    assert samples[..|samples|] == samples;
    forall r | r in byRound ensures byRound[r] != [] { RoundValuesCount(samples, r, metric); }
    means := map r | r in byRound :: Mean(byRound[r]);
    RoundMeansTotals(samples, metric);
  }

  lemma NoRoundsYet(samples: seq<Sample>)
    requires samples == []
    ensures RoundsOf(samples) == {}
  {
  }

  lemma RoundValuesNew(samples: seq<Sample>, round: nat, metric: Metric)
    ensures round !in RoundsOf(samples) ==> RoundValues(samples, round, metric) == []
  {
    RoundValuesCount(samples, round, metric);
  }

  lemma RoundsAppend(samples: seq<Sample>, s: Sample)
    ensures RoundsOf(samples + [s]) == RoundsOf(samples) + {s.round}
  {
    var all := samples + [s];
    assert all[|samples|] == s;
    forall r | r in RoundsOf(samples) ensures r in RoundsOf(all) {
      var i :| 0 <= i < |samples| && samples[i].round == r;
      assert all[i].round == r;
    }
  }

  // ---------------------------------------------------------------- paired differences

  lemma {:induction false} LeastBelow(s: set<nat>, x: nat)
    requires x in s
    ensures exists k :: k in s && forall j :: j in s ==> k <= j
    decreases x
  {
    if y :| y in s && y < x { LeastBelow(s, y); }
  }

  lemma LeastExists(s: set<nat>)
    requires s != {}
    ensures exists k :: k in s && forall j :: j in s ==> k <= j
  {
    var x :| x in s;
    LeastBelow(s, x);
  }

  function Least(s: set<nat>): (k: nat)
    requires s != {}
    ensures k in s && forall j :: j in s ==> k <= j
  {
    LeastExists(s);
    var k :| k in s && forall j :: j in s ==> k <= j;
    k
  }

  // sorted(keys)
  function SortedKeys(s: set<nat>): seq<nat>
    decreases |s|
  {
    if s == {} then [] else [Least(s)] + SortedKeys(s - {Least(s)})
  }

  function RoundRange(low: nat, high: nat): (s: set<nat>)
    ensures forall i: nat :: i in s <==> low <= i < high
    decreases high - low
  {
    if low < high then {low} + RoundRange(low + 1, high) else {}
  }

  lemma {:induction false} SortedRange(low: nat, high: nat)
    requires low <= high
    ensures SortedKeys(RoundRange(low, high)) == seq(high - low, i requires 0 <= i < high - low => low + i)
    decreases high - low
  {
    var s := RoundRange(low, high);
    if low < high {
      assert low in s;
      assert s - {low} == RoundRange(low + 1, high);
      SortedRange(low + 1, high);
    } else {
      assert s == {};
    }
  }

  // [second[index] - first[index] for index in sorted(first)]; None for a missing index
  function Paired(first: map<nat, real>, second: map<nat, real>): Option<seq<real>> {
    if first.Keys <= second.Keys then Some(Differences(first, second, SortedKeys(first.Keys))) else None
  }

  function Differences(first: map<nat, real>, second: map<nat, real>, keys: seq<nat>): seq<real> {
    if keys == [] then []
    else
      (if keys[0] in first && keys[0] in second then [second[keys[0]] - first[keys[0]]] else [])
      + Differences(first, second, keys[1..])
  }

  lemma {:induction false} DifferencesAt(first: map<nat, real>, second: map<nat, real>, keys: seq<nat>)
    requires forall k :: k in keys ==> k in first && k in second
    ensures |Differences(first, second, keys)| == |keys|
    ensures forall i :: 0 <= i < |keys| ==> Differences(first, second, keys)[i] == second[keys[i]] - first[keys[i]]
  {
    if keys != [] {
      assert keys[0] in keys;
      forall k | k in keys[1..] ensures k in first && k in second { assert k in keys; }
      DifferencesAt(first, second, keys[1..]);
    }
  }

  predicate Rising(keys: seq<nat>) { forall i, j :: 0 <= i < j < |keys| ==> keys[i] < keys[j] }

  lemma RisingCons(first: nat, later: seq<nat>)
    requires Rising(later) && forall k :: k in later ==> first < k
    ensures Rising([first] + later)
  {
    var keys := [first] + later;
    forall i, j | 0 <= i < j < |keys| ensures keys[i] < keys[j] {
      assert keys[j] == later[j - 1] && later[j - 1] in later;
    }
  }

  lemma {:induction false} SortedKeysExact(s: set<nat>)
    ensures forall k :: k in SortedKeys(s) <==> k in s
    ensures Rising(SortedKeys(s))
    decreases |s|
  {
    hide Rising;
    if s == {} {
      NoneRise();
    } else {
      var first := Least(s);
      SortedKeysExact(s - {first});
      RisingCons(first, SortedKeys(s - {first}));
    }
  }

  lemma NoneRise()
    ensures Rising([])
  {
  }

  // The rounds of the first condition in rising order, with the difference at each; a round that the
  // second condition lacks makes the pairing fail, one that only the second has is passed over.
  lemma PairedExact(first: map<nat, real>, second: map<nat, real>) returns (rounds: seq<nat>)
    ensures forall k :: k in rounds <==> k in first
    ensures Rising(rounds)
    ensures Paired(first, second).Some? <==> forall k :: k in first ==> k in second
    ensures Paired(first, second).Some? ==>
              var d := Paired(first, second).value;
              |d| == |rounds| && forall i :: 0 <= i < |d| ==>
                rounds[i] in first && rounds[i] in second && d[i] == second[rounds[i]] - first[rounds[i]]
  {
    rounds := SortedKeys(first.Keys);
    SortedKeysExact(first.Keys);
    hide SortedKeys;
    if first.Keys <= second.Keys { DifferencesAt(first, second, rounds); }
  }

  // The tables of one run for one kind of cycle.
  type Run = map<string, seq<Sample>>

  // The differences of one step of the chain, run by run; None where the source throws KeyError.
  function StepDifferences(runs: seq<Run>, before: string, after: string, metric: Metric): Option<seq<seq<real>>> {
    if runs == [] then Some([])
    else if !(before in runs[0] && after in runs[0]) then None
    else
      match Paired(RoundMeans(runs[0][before], metric), RoundMeans(runs[0][after], metric))
      case None => None
      case Some(d) =>
        match StepDifferences(runs[1..], before, after, metric)
        case None => None
        case Some(ds) => Some([d] + ds)
  }

  // The inner loop of summarize_kind over the runs.
  method PairRuns(runs: seq<Run>, before: string, after: string, metric: Metric)
    returns (r: Option<seq<seq<real>>>)
    ensures r == StepDifferences(runs, before, after, metric)
  {
    hide RoundMeans, Paired;
    var differences: seq<seq<real>> := [];
    assert runs[0..] == runs;
    Prepended([], StepDifferences(runs, before, after, metric));
    for i := 0 to |runs|
      invariant StepDifferences(runs, before, after, metric)
             == Prepend(differences, StepDifferences(runs[i..], before, after, metric))
    {
      assert runs[i..][0] == runs[i] && runs[i..][1..] == runs[i + 1..];
      if !(before in runs[i] && after in runs[i]) { return None; }
      var first := RoundMeansOf(runs[i][before], metric);
      var second := RoundMeansOf(runs[i][after], metric);
      var d := Paired(first, second);
      if d.None? { return None; }
      PrependStep(differences, d.value, StepDifferences(runs[i + 1..], before, after, metric));
      differences := differences + [d.value];
    }
    assert runs[|runs|..] == [] && differences + [] == differences;
    return Some(differences);
  }

  function Prepend(ds: seq<seq<real>>, r: Option<seq<seq<real>>>): Option<seq<seq<real>>> {
    match r
    case None => None
    case Some(later) => Some(ds + later)
  }

  lemma Prepended(ds: seq<seq<real>>, r: Option<seq<seq<real>>>)
    requires ds == []
    ensures Prepend(ds, r) == r
  {
    if r.Some? { assert [] + r.value == r.value; }
  }

  lemma PrependStep(ds: seq<seq<real>>, d: seq<real>, r: Option<seq<seq<real>>>)
    ensures Prepend(ds + [d], r) == Prepend(ds, Prepend([d], r))
  {
    if r.Some? { assert ds + [d] + r.value == ds + ([d] + r.value); }
  }

  // ---------------------------------------------------------------- the schedule makes it total

  // The tables that the measurement loop leaves for the conditions a kind includes.
  ghost predicate TablesFrom(run: Run, kind: Kind, conditions: seq<Condition>, rounds: seq<seq<Slot>>,
                             measured: Clock)
  {
    forall c :: c in conditions && Includes(kind, c) ==>
      c.name in run && run[c.name] == Table(rounds, |rounds|, Key(kind, c.name), measured)
  }

  // A run of n rounds, each a permutation of the slots.
  ghost predicate Measured(run: Run, kind: Kind, conditions: seq<Condition>, slots: seq<Slot>, n: nat) {
    exists rounds, measured ::
      TablesFrom(run, kind, conditions, rounds, measured) && |rounds| == n && Permutations(rounds, slots)
  }

  // The tables of one kind, by name: samples[kind].
  function TablesOf(samples: map<Key, seq<Sample>>, kind: Kind): Run {
    map k | k in samples && k.kind == kind :: k.name := samples[k]
  }

  // What the measurement loop returns is, for each kind, a measured run.
  lemma MeasureGivesRun(samples: map<Key, seq<Sample>>, kind: Kind, conditions: seq<Condition>, slots: seq<Slot>,
                        rounds: seq<seq<Slot>>, measured: Clock)
    requires Permutations(rounds, slots) && samples.Keys == Keys(conditions)
    requires forall key :: key in samples ==> samples[key] == Table(rounds, |rounds|, key, measured)
    ensures Measured(TablesOf(samples, kind), kind, conditions, slots, |rounds|)
  {
    hide Table, Includes, Permutations;
    var run := TablesOf(samples, kind);
    forall c | c in conditions && Includes(kind, c)
      ensures c.name in run && run[c.name] == Table(rounds, |rounds|, Key(kind, c.name), measured)
    {
      assert Key(kind, c.name) in samples;
    }
    assert TablesFrom(run, kind, conditions, rounds, measured);
  }

  // The measurement loop and, from its tables, the run that the analysis reads.
  method MeasureRun(conditions: seq<Condition>, slots: seq<Slot>, rounds: seq<seq<Slot>>, measured: Clock, kind: Kind)
    returns (run: Run)
    requires BalancedSlots(conditions) == Some(slots) && Permutations(rounds, slots)
    ensures Measured(run, kind, conditions, slots, |rounds|)
  {
    hide BalancedSlots, Measured, Permutations;
    var samples := Measure(conditions, slots, rounds, measured);
    MeasureGivesRun(samples, kind, conditions, slots, rounds, measured);
    run := TablesOf(samples, kind);
  }

  lemma {:induction false} MeasuredRounds(run: Run, kind: Kind, conditions: seq<Condition>, slots: seq<Slot>, n: nat,
                                          c: Condition, metric: Metric)
    requires BalancedSlots(conditions) == Some(slots) && Measured(run, kind, conditions, slots, n)
    requires c in conditions && Includes(kind, c)
    ensures c.name in run && RoundMeans(run[c.name], metric).Keys == RoundRange(0, n)
  {
    hide BalancedSlots, Includes, Table;
    var rounds, measured :|
      TablesFrom(run, kind, conditions, rounds, measured) && |rounds| == n && Permutations(rounds, slots);
    var key := Key(kind, c.name);
    assert key in Keys(conditions);
    TablesComplete(conditions, slots, rounds, key, measured);
    forall r: nat ensures r in RoundsOf(run[c.name]) <==> r in RoundRange(0, n) {
      RoundValuesCount(run[c.name], r, metric);
    }
  }

  // The mean of a condition in each round of a run, by round.
  function Profile(run: Run, name: string, n: nat, metric: Metric): (p: seq<real>)
    requires name in run && RoundMeans(run[name], metric).Keys == RoundRange(0, n)
    ensures |p| == n
  {
    var means := RoundMeans(run[name], metric);
    seq(n, i requires 0 <= i < n => assert i in RoundRange(0, n); means[i])
  }

  // In every round the condition has samples, and its profile times their number is their total.
  predicate ProfileTotals(run: Run, name: string, n: nat, metric: Metric)
    requires name in run && RoundMeans(run[name], metric).Keys == RoundRange(0, n)
  {
    forall i :: 0 <= i < n ==>
      && CountRound(run[name], i) > 0
      && Weighted(CountRound(run[name], i), Profile(run, name, n, metric)[i]) == RoundTotal(run[name], i, metric)
  }

  lemma ProfileOf(run: Run, name: string, n: nat, metric: Metric)
    requires name in run && RoundMeans(run[name], metric).Keys == RoundRange(0, n)
    ensures ProfileTotals(run, name, n, metric)
  {
    hide Weighted, RoundMeans, RoundTotal, CountRound;
    RoundMeansTotals(run[name], metric);
    forall i | 0 <= i < n
      ensures CountRound(run[name], i) > 0
      ensures Weighted(CountRound(run[name], i), Profile(run, name, n, metric)[i]) == RoundTotal(run[name], i, metric)
    {
      assert i in RoundRange(0, n);
    }
  }

  lemma {:induction false} PairedProfiles(run: Run, before: string, after: string, n: nat, metric: Metric)
    requires before in run && RoundMeans(run[before], metric).Keys == RoundRange(0, n)
    requires after in run && RoundMeans(run[after], metric).Keys == RoundRange(0, n)
    ensures var d := Paired(RoundMeans(run[before], metric), RoundMeans(run[after], metric));
            && d.Some? && |d.value| == n
            && forall i :: 0 <= i < n ==>
                 d.value[i] == Profile(run, after, n, metric)[i] - Profile(run, before, n, metric)[i]
  {
    hide RoundMeans;
    var first, second := RoundMeans(run[before], metric), RoundMeans(run[after], metric);
    SortedRange(0, n);
    var keys := SortedKeys(RoundRange(0, n));
    forall k | k in keys ensures k in first && k in second { assert k in RoundRange(0, n); }
    DifferencesAt(first, second, keys);
  }

  // Several measured runs, the r-th with sizes[r] rounds.
  ghost predicate AllMeasured(runs: seq<Run>, kind: Kind, conditions: seq<Condition>, slots: seq<Slot>,
                              sizes: seq<nat>)
  {
    |runs| == |sizes| && forall r :: 0 <= r < |runs| ==> Measured(runs[r], kind, conditions, slots, sizes[r])
  }

  // The means of a condition over several runs are there for every round.
  predicate RoundsThere(runs: seq<Run>, sizes: seq<nat>, name: string, metric: Metric)
    requires |runs| == |sizes|
  {
    forall r :: 0 <= r < |runs| ==>
      name in runs[r] && RoundMeans(runs[r][name], metric).Keys == RoundRange(0, sizes[r])
  }

  lemma {:induction false} DifferencesTotal(runs: seq<Run>, sizes: seq<nat>, before: string, after: string,
                                            metric: Metric)
    requires |runs| == |sizes| && RoundsThere(runs, sizes, before, metric) && RoundsThere(runs, sizes, after, metric)
    ensures var d := StepDifferences(runs, before, after, metric);
            && d.Some? && |d.value| == |runs|
            && forall r :: 0 <= r < |runs| ==>
                 && |d.value[r]| == sizes[r]
                 && forall i :: 0 <= i < sizes[r] ==>
                      d.value[r][i] == Profile(runs[r], after, sizes[r], metric)[i]
                                       - Profile(runs[r], before, sizes[r], metric)[i]
  {
    hide RoundMeans, Paired, Profile;
    if runs != [] {
      PairedProfiles(runs[0], before, after, sizes[0], metric);
      DifferencesTotal(runs[1..], sizes[1..], before, after, metric);
    }
  }

  // With measured runs no lookup of the analysis misses: every step of the chain between two
  // conditions that the kind includes has one difference for each round of each run, namely the
  // difference of the two conditions' means in that round.
  lemma {:induction false} AnalysisTotal(runs: seq<Run>, kind: Kind, conditions: seq<Condition>, slots: seq<Slot>,
                                         sizes: seq<nat>, before: Condition, after: Condition, metric: Metric)
    requires BalancedSlots(conditions) == Some(slots) && AllMeasured(runs, kind, conditions, slots, sizes)
    requires before in conditions && Includes(kind, before) && after in conditions && Includes(kind, after)
    ensures forall r :: 0 <= r < |runs| ==>
              && before.name in runs[r] && RoundMeans(runs[r][before.name], metric).Keys == RoundRange(0, sizes[r])
              && after.name in runs[r] && RoundMeans(runs[r][after.name], metric).Keys == RoundRange(0, sizes[r])
    ensures var d := StepDifferences(runs, before.name, after.name, metric);
            && d.Some? && |d.value| == |runs|
            && forall r :: 0 <= r < |runs| ==>
                 && |d.value[r]| == sizes[r]
                 && forall i :: 0 <= i < sizes[r] ==>
                      d.value[r][i] == Profile(runs[r], after.name, sizes[r], metric)[i]
                                       - Profile(runs[r], before.name, sizes[r], metric)[i]
    ensures forall r :: 0 <= r < |runs| ==>
              && ProfileTotals(runs[r], before.name, sizes[r], metric)
              && ProfileTotals(runs[r], after.name, sizes[r], metric)
  {
    hide BalancedSlots, Includes, Measured, RoundMeans, Profile, ProfileTotals, StepDifferences;
    forall r | 0 <= r < |runs|
      ensures before.name in runs[r] && RoundMeans(runs[r][before.name], metric).Keys == RoundRange(0, sizes[r])
      ensures after.name in runs[r] && RoundMeans(runs[r][after.name], metric).Keys == RoundRange(0, sizes[r])
      ensures ProfileTotals(runs[r], before.name, sizes[r], metric)
      ensures ProfileTotals(runs[r], after.name, sizes[r], metric)
    {
      MeasuredRounds(runs[r], kind, conditions, slots, sizes[r], before, metric);
      MeasuredRounds(runs[r], kind, conditions, slots, sizes[r], after, metric);
      ProfileOf(runs[r], before.name, sizes[r], metric);
      ProfileOf(runs[r], after.name, sizes[r], metric);
    }
    DifferencesTotal(runs, sizes, before.name, after.name, metric);
  }
}
