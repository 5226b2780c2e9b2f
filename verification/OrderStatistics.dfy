// Sorted samples and interpolated percentiles of the timing analysis, over the reals.
module OrderStatistics {

  // ---------------------------------------------------------------- sorting

  predicate Sorted(s: seq<real>) { forall i, j :: 0 <= i <= j < |s| ==> s[i] <= s[j] }

  function Insert(x: real, s: seq<real>): (t: seq<real>)
    ensures |t| == |s| + 1
  {
    if s == [] then [x] else if x <= s[0] then [x] + s else [s[0]] + Insert(x, s[1..])
  }

  // sorted(values)
  function Sort(xs: seq<real>): (s: seq<real>)
    ensures |s| == |xs|
  {
    if xs == [] then [] else Insert(xs[0], Sort(xs[1..]))
  }

  // How many samples are at most v.
  function CountLe(xs: seq<real>, v: real): (n: nat)
    ensures n <= |xs|
  {
    if xs == [] then 0 else (if xs[0] <= v then 1 else 0) + CountLe(xs[1..], v)
  }

  lemma {:induction false} InsertSorted(x: real, s: seq<real>)
    requires Sorted(s)
    ensures Sorted(Insert(x, s)) && multiset(Insert(x, s)) == multiset(s) + multiset{x}
  {
    InsertContents(x, s);
    if s == [] {
    } else if x <= s[0] {
      SortedCons(x, s);
    } else {
      SortedTail(s);
      InsertSorted(x, s[1..]);
      InsertAtLeast(x, s[1..], s[0]);
      hide Sorted;
      SortedCons(s[0], Insert(x, s[1..]));
    }
  }

  lemma {:induction false} InsertContents(x: real, s: seq<real>)
    ensures multiset(Insert(x, s)) == multiset(s) + multiset{x}
  {
    if s != [] && x > s[0] {
      InsertContents(x, s[1..]);
      assert s == [s[0]] + s[1..];
    }
  }

  lemma SortedCons(low: real, s: seq<real>)
    requires Sorted(s) && forall i :: 0 <= i < |s| ==> low <= s[i]
    ensures Sorted([low] + s)
  {
    var t := [low] + s;
    assert forall i :: 0 < i < |t| ==> t[i] == s[i - 1];
  }

  lemma {:induction false} InsertAtLeast(x: real, s: seq<real>, low: real)
    requires low <= x && forall i :: 0 <= i < |s| ==> low <= s[i]
    ensures forall i :: 0 <= i < |s| + 1 ==> low <= Insert(x, s)[i]
  {
    if s != [] && x > s[0] { InsertAtLeast(x, s[1..], low); }
  }

  lemma {:induction false} SortSorted(xs: seq<real>)
    ensures Sorted(Sort(xs)) && multiset(Sort(xs)) == multiset(xs)
  {
    if xs != [] {
      SortSorted(xs[1..]);
      InsertSorted(xs[0], Sort(xs[1..]));
      assert xs == [xs[0]] + xs[1..];
    }
  }

  lemma {:induction false} CountInsert(x: real, s: seq<real>, v: real)
    ensures CountLe(Insert(x, s), v) == (if x <= v then 1 else 0) + CountLe(s, v)
  {
    if s != [] {
      if x <= s[0] {
        assert ([x] + s)[1..] == s;
      } else {
        CountInsert(x, s[1..], v);
        assert ([s[0]] + Insert(x, s[1..]))[1..] == Insert(x, s[1..]);
      }
    }
  }

  lemma {:induction false} CountSort(xs: seq<real>, v: real)
    ensures CountLe(Sort(xs), v) == CountLe(xs, v)
  {
    if xs != [] {
      CountSort(xs[1..], v);
      CountInsert(xs[0], Sort(xs[1..]), v);
    }
  }

  // The k-th smallest sample is at most v exactly when more than k samples are.
  lemma {:induction false} Rank(s: seq<real>, k: nat, v: real)
    requires Sorted(s) && k < |s|
    ensures s[k] <= v <==> CountLe(s, v) > k
  {
    var t := s[1..];
    if t != [] {
      if k > 0 { Rank(t, k - 1, v); }
      Rank(t, 0, v);
    }
  }

  lemma {:induction false} CountPointwise(xs: seq<real>, ys: seq<real>, v: real)
    requires |xs| == |ys| && forall i :: 0 <= i < |xs| ==> xs[i] <= ys[i]
    ensures CountLe(ys, v) <= CountLe(xs, v)
  {
    if xs != [] { CountPointwise(xs[1..], ys[1..], v); }
  }

  // Raising samples never lowers an order statistic.
  lemma {:induction false} OrderMonotone(xs: seq<real>, ys: seq<real>, k: nat)
    requires |xs| == |ys| && (forall i :: 0 <= i < |xs| ==> xs[i] <= ys[i]) && k < |xs|
    ensures Sort(xs)[k] <= Sort(ys)[k]
  {
    var v := Sort(ys)[k];
    SortSorted(xs);
    SortSorted(ys);
    Rank(Sort(ys), k, v);
    CountSort(ys, v);
    CountPointwise(xs, ys, v);
    CountSort(xs, v);
    Rank(Sort(xs), k, v);
  }

  lemma HeadIsLeast(s: seq<real>, x: real)
    requires s != [] && Sorted(s) && x in multiset(s)
    ensures s[0] <= x
  {
    var i :| 0 <= i < |s| && s[i] == x;
  }

  lemma SortedTail(s: seq<real>)
    requires s != [] && Sorted(s)
    ensures Sorted(s[1..])
  {
  }

  lemma TailContents(s: seq<real>)
    requires s != []
    ensures multiset(s[1..]) == multiset(s) - multiset{s[0]} && s[0] in multiset(s)
  {
    assert s == [s[0]] + s[1..];
  }

  lemma {:induction false} SortedUnique(s: seq<real>, t: seq<real>)
    requires Sorted(s) && Sorted(t) && |s| == |t| && multiset(s) == multiset(t)
    ensures s == t
  {
    hide Sorted;
    if s != [] {
      SameHead(s, t);
      SortedTail(s);
      SortedTail(t);
      SortedUnique(s[1..], t[1..]);
      assert s == [s[0]] + s[1..] && t == [t[0]] + t[1..];
    }
  }

  lemma SameHead(s: seq<real>, t: seq<real>)
    requires Sorted(s) && Sorted(t) && s != [] && t != [] && multiset(s) == multiset(t)
    ensures s[0] == t[0] && multiset(s[1..]) == multiset(t[1..])
  {
    hide Sorted;
    TailContents(s);
    TailContents(t);
    HeadIsLeast(s, t[0]);
    HeadIsLeast(t, s[0]);
  }

  lemma {:induction false} SortPermutation(xs: seq<real>, ys: seq<real>)
    requires multiset(xs) == multiset(ys)
    ensures |xs| == |ys| && Sort(xs) == Sort(ys)
  {
    assert |xs| == |multiset(xs)| && |ys| == |multiset(ys)|;
    SortSorted(xs);
    SortSorted(ys);
    SortedUnique(Sort(xs), Sort(ys));
  }

  // ---------------------------------------------------------------- percentiles

  function Min(a: int, b: int): int { if a <= b then a else b }

  function Part(width: real, t: real): real { width * t }

  // The point of the segment from a to b at t.
  function Along(a: real, b: real, t: real): real { a + Part(b - a, t) }

  // Linear interpolation at a position between the first and the last sample.
  function At(ordered: seq<real>, position: real): real
    requires 0.0 <= position <= (|ordered| - 1) as real
  {
    var lower := position.Floor;
    var upper := Min(lower + 1, |ordered| - 1);
    Along(ordered[lower], ordered[upper], position - lower as real)
  }

  // (len(values) - 1) * fraction
  function Position(n: nat, fraction: real): (p: real)
    requires n > 0 && 0.0 <= fraction <= 1.0
    ensures 0.0 <= p <= (n - 1) as real
  {
    Product((n - 1) as real, fraction, 1.0);
    (n - 1) as real * fraction
  }

  lemma PositionOf(n: nat, fraction: real)
    requires n > 0 && 0.0 <= fraction <= 1.0
    ensures Position(n, fraction) == (n - 1) as real * fraction
  {
  }

  lemma Product(a: real, x: real, y: real)
    requires 0.0 <= a && 0.0 <= x <= y
    ensures 0.0 <= a * x <= a * y
  {
  }

  // percentile(values, fraction)
  function Percentile(values: seq<real>, fraction: real): real
    requires values != [] && 0.0 <= fraction <= 1.0
  {
    At(Sort(values), Position(|values|, fraction))
  }

  lemma PartBounds(width: real, t: real)
    requires 0.0 <= width && 0.0 <= t <= 1.0
    ensures 0.0 <= Part(width, t) <= width
  {
    Product(width, t, 1.0);
    assert width * 1.0 == width;
  }

  lemma Between(a: real, b: real, t: real)
    requires a <= b && 0.0 <= t <= 1.0
    ensures a <= Along(a, b, t) <= b
  {
    hide Part;
    PartBounds(b - a, t);
  }

  lemma PartMonotone(width: real, t: real, u: real)
    requires 0.0 <= width && 0.0 <= t <= u
    ensures Part(width, t) <= Part(width, u)
  {
    Product(width, t, u);
  }

  lemma AlongSegment(a: real, b: real, t: real, u: real)
    requires a <= b && 0.0 <= t <= u <= 1.0
    ensures Along(a, b, t) <= Along(a, b, u)
  {
    hide Part;
    PartMonotone(b - a, t, u);
  }

  lemma {:induction false} AtBounds(s: seq<real>, p: real)
    requires Sorted(s) && 0.0 <= p <= (|s| - 1) as real
    ensures s[p.Floor] <= At(s, p) <= s[Min(p.Floor + 1, |s| - 1)]
  {
    hide Along;
    Between(s[p.Floor], s[Min(p.Floor + 1, |s| - 1)], p - p.Floor as real);
  }

  // Interpolation is monotone in the position, across segment boundaries too.
  lemma {:induction false} AtMonotone(s: seq<real>, p: real, q: real)
    requires Sorted(s) && 0.0 <= p <= q <= (|s| - 1) as real
    ensures At(s, p) <= At(s, q)
  {
    hide Along;
    if p.Floor == q.Floor {
      AlongSegment(s[p.Floor], s[Min(p.Floor + 1, |s| - 1)], p - p.Floor as real, q - q.Floor as real);
    } else {
      AtBounds(s, p);
      AtBounds(s, q);
    }
  }

  lemma Mix(a: real, b: real, c: real, d: real, t: real)
    requires a <= c && b <= d && 0.0 <= t <= 1.0
    ensures Along(a, b, t) <= Along(c, d, t)
  {
    hide Part, Along;
    PartBounds(c - a, 1.0 - t);
    PartBounds(d - b, t);
    Spread(a, b, c, d, t);
  }

  lemma Spread(a: real, b: real, c: real, d: real, t: real)
    ensures Along(c, d, t) - Along(a, b, t) == Part(c - a, 1.0 - t) + Part(d - b, t)
  {
  }

  lemma AlongShift(a: real, b: real, c: real, t: real)
    ensures Along(a + c, b + c, t) == Along(a, b, t) + c
  {
    assert (b + c) - (a + c) == b - a;
  }

  // The percentile lies between any bounds of the samples.
  lemma {:induction false} PercentileBounds(values: seq<real>, fraction: real, low: real, high: real)
    requires values != [] && 0.0 <= fraction <= 1.0
    requires forall x :: x in values ==> low <= x <= high
    ensures low <= Percentile(values, fraction) <= high
  {
    hide Position, At, Sort;
    var s := Sort(values);
    SortSorted(values);
    AtBounds(s, Position(|values|, fraction));
    forall i | 0 <= i < |s| ensures low <= s[i] <= high {
      assert s[i] in multiset(s);
      assert s[i] in values;
    }
  }

  // The percentile does not depend on the order of the samples.
  lemma {:induction false} PercentilePermutation(xs: seq<real>, ys: seq<real>, fraction: real)
    requires xs != [] && multiset(xs) == multiset(ys) && 0.0 <= fraction <= 1.0
    ensures ys != [] && Percentile(xs, fraction) == Percentile(ys, fraction)
  {
    hide Position, At, Sort;
    SortPermutation(xs, ys);
  }

  // A larger fraction gives a percentile that is no smaller.
  lemma {:induction false} PercentileMonotone(values: seq<real>, f: real, g: real)
    requires values != [] && 0.0 <= f <= g <= 1.0
    ensures Percentile(values, f) <= Percentile(values, g)
  {
    hide At, Sort;
    SortSorted(values);
    Product((|values| - 1) as real, f, g);
    PositionOf(|values|, f);
    PositionOf(|values|, g);
    assert Sorted(Sort(values));
    assert |Sort(values)| == |values|;
    assert Position(|values|, g) <= (|values| - 1) as real;
    assert Position(|values|, f) <= Position(|values|, g);
    AtMonotone(Sort(values), Position(|values|, f), Position(|values|, g));
  }

  // Raising samples pointwise never lowers a percentile.
  lemma {:induction false} PercentilePointwise(xs: seq<real>, ys: seq<real>, fraction: real)
    requires xs != [] && |xs| == |ys| && (forall i :: 0 <= i < |xs| ==> xs[i] <= ys[i]) && 0.0 <= fraction <= 1.0
    ensures Percentile(xs, fraction) <= Percentile(ys, fraction)
  {
    hide Position, Sort, Along;
    var p := Position(|xs|, fraction);
    var lower := p.Floor;
    var upper := Min(lower + 1, |xs| - 1);
    OrderMonotone(xs, ys, lower);
    OrderMonotone(xs, ys, upper);
    Mix(Sort(xs)[lower], Sort(xs)[upper], Sort(ys)[lower], Sort(ys)[upper], p - lower as real);
  }

  function Shift(xs: seq<real>, c: real): (ys: seq<real>)
    ensures |ys| == |xs| && forall i :: 0 <= i < |xs| ==> ys[i] == xs[i] + c
  {
    seq(|xs|, i requires 0 <= i < |xs| => xs[i] + c)
  }

  lemma ShiftCons(x: real, s: seq<real>, c: real)
    ensures Shift([x] + s, c) == [x + c] + Shift(s, c)
  {
  }

  lemma {:induction false} InsertShift(x: real, s: seq<real>, c: real)
    ensures Insert(x + c, Shift(s, c)) == Shift(Insert(x, s), c)
  {
    if s == [] {
      assert Shift([x], c) == [x + c];
    } else {
      assert s == [s[0]] + s[1..];
      ShiftCons(s[0], s[1..], c);
      ShiftCons(x, s, c);
      ShiftCons(s[0], Insert(x, s[1..]), c);
      InsertShift(x, s[1..], c);
      hide Shift;
      assert Shift(s, c)[0] == s[0] + c && Shift(s, c)[1..] == Shift(s[1..], c);
    }
  }

  lemma {:induction false} SortShift(xs: seq<real>, c: real)
    ensures Sort(Shift(xs, c)) == Shift(Sort(xs), c)
  {
    if xs != [] {
      assert xs == [xs[0]] + xs[1..];
      ShiftCons(xs[0], xs[1..], c);
      SortShift(xs[1..], c);
      InsertShift(xs[0], Sort(xs[1..]), c);
      hide Shift, Insert;
      assert Shift(xs, c)[0] == xs[0] + c && Shift(xs, c)[1..] == Shift(xs[1..], c);
    }
  }

  // Adding c to every sample adds exactly c to the percentile.
  lemma {:induction false} PercentileShift(values: seq<real>, fraction: real, c: real)
    requires values != [] && 0.0 <= fraction <= 1.0
    ensures Percentile(Shift(values, c), fraction) == Percentile(values, fraction) + c
  {
    hide Position, Sort, Along;
    SortShift(values, c);
    var s, p := Sort(values), Position(|values|, fraction);
    AlongShift(s[p.Floor], s[Min(p.Floor + 1, |s| - 1)], c, p - p.Floor as real);
  }

  // ---------------------------------------------------------------- median

  // statistics.median: the middle sample, or the mean of the two middle samples.
  function Median(values: seq<real>): real
    requires values != []
  {
    var s, n := Sort(values), |values|;
    if n % 2 == 1 then s[n / 2] else (s[n / 2 - 1] + s[n / 2]) / 2.0
  }

  // The median is the percentile at one half, so it never exceeds the 95th percentile.
  lemma {:induction false} MedianIsHalf(values: seq<real>)
    requires values != []
    ensures Median(values) == Percentile(values, 0.5)
    ensures Median(values) <= Percentile(values, 0.95)
  {
    hide Sort, Position, At;
    var s, n := Sort(values), |values|;
    MedianPosition(n);
    if n % 2 == 1 {
      AtSample(s, Position(n, 0.5), n / 2);
    } else {
      AtMiddle(s, Position(n, 0.5), n / 2 - 1);
    }
    PercentileMonotone(values, 0.5, 0.95);
  }

  lemma AtSample(s: seq<real>, p: real, k: nat)
    requires k < |s| && p == k as real
    ensures At(s, p) == s[k]
  {
    var rise := s[Min(k + 1, |s| - 1)] - s[k];
    assert p - k as real == 0.0;
    assert rise * 0.0 == 0.0;
  }

  lemma AtMiddle(s: seq<real>, p: real, k: nat)
    requires k + 1 < |s| && p.Floor == k && p - k as real == 0.5
    ensures 0.0 <= p <= (|s| - 1) as real && At(s, p) == (s[k] + s[k + 1]) / 2.0
  {
    var rise := s[k + 1] - s[k];
    assert rise * 0.5 == rise / 2.0;
  }

  lemma MedianPosition(n: nat)
    requires n > 0
    ensures var p := Position(n, 0.5);
            if n % 2 == 1 then p.Floor == n / 2 && p == (n / 2) as real
            else p.Floor == n / 2 - 1 && p - p.Floor as real == 0.5
  {
    if n % 2 == 1 {
      assert (n - 1) as real == 2.0 * (n / 2) as real;
    } else {
      assert (n - 1) as real == 2.0 * (n / 2 - 1) as real + 1.0;
    }
  }

  // ---------------------------------------------------------------- the percentile by ranks

  lemma {:induction false} SortedStays(s: seq<real>)
    requires Sorted(s)
    ensures Sort(s) == s
  {
    if s != [] {
      SortedTail(s);
      SortedStays(s[1..]);
      assert s == [s[0]] + s[1..];
      assert s[1..] != [] ==> s[0] <= s[1..][0];
    }
  }

  // With k + t as the position, the percentile is the k-th of the sorted samples, moved by t towards
  // the next; whatever sorted order of them is taken.
  lemma PercentileExact(values: seq<real>, fraction: real, ordered: seq<real>, k: nat, t: real)
    requires values != [] && 0.0 <= fraction <= 1.0
    requires Sorted(ordered) && multiset(ordered) == multiset(values)
    requires (|values| - 1) as real * fraction == k as real + t && 0.0 <= t < 1.0
    ensures |ordered| == |values| && k < |values| && (t > 0.0 ==> k + 1 < |values|)
    ensures Percentile(values, fraction) ==
            if t == 0.0 then ordered[k] else ordered[k] + (ordered[k + 1] - ordered[k]) * t
  {
    hide Sort, Sorted, Position, At;
    assert |multiset(ordered)| == |ordered| && |multiset(values)| == |values|;
    SortPermutation(values, ordered);
    SortedStays(ordered);
    PositionOf(|values|, fraction);
    var p := Position(|values|, fraction);
    if t == 0.0 { AtSample(ordered, p, k); } else { AtBetween(ordered, p, k, t); }
  }

  lemma AtBetween(s: seq<real>, p: real, k: nat, t: real)
    requires p == k as real + t && 0.0 < t < 1.0 && p <= (|s| - 1) as real
    ensures k + 1 < |s| && At(s, p) == s[k] + (s[k + 1] - s[k]) * t
  {
    assert p.Floor == k && p - k as real == t;
  }
}
