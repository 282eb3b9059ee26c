/** What the sums, deltas and rates of a pair of counters are, said of the scrapes alone. */
module DeltaLaws {
  import opened SortedSets
  import opened TimeSeries

  // ----- sums -----

  lemma SumOfOne(p: Point, t: int)
    ensures SumAt([], t) == 0.0 && SumAt([p], t) == if p.ts == t then p.value else 0.0
  {
    assert [p][..0] == [];
  }

  lemma {:induction false} SumAdds(a: Series, b: Series, t: int)
    ensures SumAt(a + b, t) == SumAt(a, t) + SumAt(b, t)
  {
    if b == [] {
      assert a + b == a;
    } else {
      assert (a + b)[..|a + b| - 1] == a + b[..|b| - 1];
      SumAdds(a, b[..|b| - 1], t);
    }
  }

  lemma TakeOneOut(s: Series, i: nat, t: int) returns (others: Series)
    requires i < |s|
    ensures multiset(s) == multiset{s[i]} + multiset(others) && |others| == |s| - 1
    ensures SumAt(s, t) == SumAt([s[i]], t) + SumAt(others, t)
  {
    hide SumAt;
    others := s[..i] + s[i + 1..];
    assert s == s[..i] + [s[i]] + s[i + 1..];
    SumAdds(s[..i] + [s[i]], s[i + 1..], t);
    SumAdds(s[..i], [s[i]], t);
    SumAdds(s[..i], s[i + 1..], t);
  }

  lemma Find(s: Series, p: Point) returns (i: nat)
    requires p in multiset(s)
    ensures i < |s| && s[i] == p
  {
    assert p in s;
    i :| 0 <= i < |s| && s[i] == p;
  }

  lemma SameRest(p: Point, a: multiset<Point>, b: multiset<Point>)
    requires multiset{p} + a == multiset{p} + b
    ensures a == b
  {
    assert a == multiset{p} + a - multiset{p};
    assert b == multiset{p} + b - multiset{p};
  }

  /** The order of the points does not matter. */
  lemma {:induction false} SumOfMultiset(a: Series, b: Series, t: int)
    requires multiset(a) == multiset(b)
    ensures SumAt(a, t) == SumAt(b, t)
    decreases |a|
  {
    hide SumAt;
    assert |multiset(a)| == |a| && |multiset(b)| == |b|;
    if a != [] {
      assert a[0] in multiset(a);
      var i := Find(b, a[0]);
      var rest := TakeOneOut(a, 0, t);
      var others := TakeOneOut(b, i, t);
      SameRest(a[0], multiset(rest), multiset(others));
      SumOfMultiset(rest, others, t);
    }
  }

  /** The merged series of two engines has at each instant the sum of the two, in whatever order its points come. */
  lemma EnginesAdd(one: Series, other: Series, merged: Series)
    requires multiset(merged) == multiset(one) + multiset(other)
    ensures Times(merged) == Times(one) + Times(other)
    ensures forall t :: SumAt(merged, t) == SumAt(one, t) + SumAt(other, t)
  {
    assert multiset(merged) == multiset(one + other);
    forall t ensures t in Times(merged) <==> t in Times(one) || t in Times(other) {
      assert forall p :: p in merged <==> p in multiset(merged);
      assert forall p :: p in one || p in other <==> p in multiset(one) + multiset(other);
    }
    forall t ensures SumAt(merged, t) == SumAt(one, t) + SumAt(other, t) {
      SumOfMultiset(merged, one + other, t);
      SumAdds(one, other, t);
    }
  }

  // ----- deltas -----

  predicate Common(num: Series, den: Series, t: int) {
    (exists p :: p in num && p.ts == t) && (exists p :: p in den && p.ts == t)
  }

  /** Two instants at which both counters were scraped, with none in between. */
  ghost predicate Consecutive(num: Series, den: Series, prev: int, curr: int) {
    && Common(num, den, prev) && Common(num, den, curr) && prev < curr
    && forall t :: prev < t < curr ==> !Common(num, den, t)
  }

  /** The delta is what the two counters gained since the last common scrape: queries at all, and hits not fewer. */
  ghost predicate GainedSince(num: Series, den: Series, prev: int, x: Delta) {
    && Consecutive(num, den, prev, x.ts)
    && x.num == SumAt(num, x.ts) - SumAt(num, prev) && x.num >= 0.0
    && x.den == SumAt(den, x.ts) - SumAt(den, prev) && x.den > 0.0
  }

  ghost predicate GainedAt(ts: seq<int>, i: int, num: Series, den: Series, x: Delta) {
    && 0 < i < |ts| && x.ts == ts[i]
    && x.num == SumAt(num, ts[i]) - SumAt(num, ts[i - 1]) && x.num >= 0.0
    && x.den == SumAt(den, ts[i]) - SumAt(den, ts[i - 1]) && x.den > 0.0
  }

  lemma {:induction false} DeltasGained(ts: seq<int>, num: Series, den: Series, x: Delta)
    ensures x in DeltasOver(ts, num, den) <==> exists i :: GainedAt(ts, i, num, den, x)
  {
    hide SumAt;
    var n := |ts|;
    if n >= 2 {
      var rest := ts[..n - 1];
      DeltasGained(rest, num, den, x);
      forall i | 0 < i < n - 1 ensures GainedAt(ts, i, num, den, x) <==> GainedAt(rest, i, num, den, x) {
        assert rest[i] == ts[i] && rest[i - 1] == ts[i - 1];
      }
      assert x in StepDelta(ts[n - 2], ts[n - 1], num, den) <==> GainedAt(ts, n - 1, num, den, x);
    }
  }

  lemma {:induction false} DeltasIncrease(ts: seq<int>, num: Series, den: Series)
    requires Increasing(ts)
    ensures forall i, j :: 0 <= i < j < |DeltasOver(ts, num, den)| ==>
      DeltasOver(ts, num, den)[i].ts < DeltasOver(ts, num, den)[j].ts
  {
    var n := |ts|;
    if n >= 2 {
      var rest := ts[..n - 1];
      DeltasIncrease(rest, num, den);
      forall x | x in DeltasOver(rest, num, den) ensures x.ts < ts[n - 1] {
        DeltasGained(rest, num, den, x);
        var i :| GainedAt(rest, i, num, den, x);
        assert rest[i] == ts[i];
      }
    }
  }

  ghost predicate Neighbours(ts: seq<int>, prev: int, curr: int) {
    prev in ts && curr in ts && prev < curr && forall t :: t in ts ==> t <= prev || t >= curr
  }

  lemma NeighboursAreNext(ts: seq<int>, prev: int, curr: int)
    requires Increasing(ts)
    ensures Neighbours(ts, prev, curr) ==> exists i :: 0 < i < |ts| && ts[i - 1] == prev && ts[i] == curr
  {
    if Neighbours(ts, prev, curr) {
      var i :| 0 <= i < |ts| && ts[i] == prev;
      var j :| 0 <= j < |ts| && ts[j] == curr;
      assert i < j && ts[i + 1] in ts;
      assert ts[i + 1 - 1] == prev;
    }
  }

  lemma NextAreNeighbours(ts: seq<int>, i: int)
    requires Increasing(ts) && 0 < i < |ts|
    ensures Neighbours(ts, ts[i - 1], ts[i])
  {}

  lemma ConsecutiveInOrder(num: Series, den: Series, prev: int, curr: int)
    ensures var ts := CommonTimes(num, den);
      Consecutive(num, den, prev, curr) <==> exists i :: 0 < i < |ts| && ts[i - 1] == prev && ts[i] == curr
  {
    var ts := CommonTimes(num, den);
    SortedIsSorted(Times(num) * Times(den));
    assert forall t :: t in ts <==> Common(num, den, t);
    hide Times, Common, CommonTimes, Increasing;
    assert Consecutive(num, den, prev, curr) <==> Neighbours(ts, prev, curr);
    NeighboursAreNext(ts, prev, curr);
    if i :| 0 < i < |ts| && ts[i - 1] == prev && ts[i] == curr {
      NextAreNeighbours(ts, i);
    }
  }

  /** The deltas of two counters, in the order of time, are exactly what they gained between consecutive scrapes. */
  lemma RatioDeltasExactly(pod: PodMetrics, numerator: string, denominator: string)
    ensures numerator !in pod || denominator !in pod ==> RatioDeltas(pod, numerator, denominator) == []
    ensures numerator in pod && denominator in pod ==>
      forall x :: x in RatioDeltas(pod, numerator, denominator) <==>
        exists prev :: GainedSince(pod[numerator], pod[denominator], prev, x)
    ensures var out := RatioDeltas(pod, numerator, denominator);
      forall i, j :: 0 <= i < j < |out| ==> out[i].ts < out[j].ts
  {
    if numerator in pod && denominator in pod {
      var num, den := pod[numerator], pod[denominator];
      var ts := CommonTimes(num, den);
      SortedIsSorted(Times(num) * Times(den));
      DeltasIncrease(ts, num, den);
      forall x ensures x in DeltasOver(ts, num, den) <==> exists prev :: GainedSince(num, den, prev, x) {
        GainedInOrder(num, den, x);
      }
    }
  }

  lemma GainedInOrder(num: Series, den: Series, x: Delta)
    ensures x in DeltasOver(CommonTimes(num, den), num, den) <==> exists prev :: GainedSince(num, den, prev, x)
  {
    hide CommonTimes, Consecutive, SumAt, DeltasOver;
    var ts := CommonTimes(num, den);
    DeltasGained(ts, num, den, x);
    if i :| GainedAt(ts, i, num, den, x) {
      ConsecutiveInOrder(num, den, ts[i - 1], ts[i]);
      assert GainedSince(num, den, ts[i - 1], x);
    }
    if prev :| GainedSince(num, den, prev, x) {
      ConsecutiveInOrder(num, den, prev, x.ts);
      var i :| 0 < i < |ts| && ts[i - 1] == prev && ts[i] == x.ts;
      assert GainedAt(ts, i, num, den, x);
    }
  }

  /** A rate is the hits gained for a hundred queries, and 100 where more hits than queries were gained. */
  lemma RatesExactly(pod: PodMetrics, numerator: string, denominator: string)
    ensures var deltas, series :=
              RatioDeltas(pod, numerator, denominator), RatioSeries(pod, numerator, denominator);
      && |series| == |deltas|
      && forall i :: 0 <= i < |deltas| ==>
           && series[i].ts == deltas[i].ts && deltas[i].den > 0.0
           && (deltas[i].num <= deltas[i].den ==> series[i].value * deltas[i].den == 100.0 * deltas[i].num)
           && (deltas[i].num > deltas[i].den ==> series[i].value == 100.0)
  {
    var deltas := RatioDeltas(pod, numerator, denominator);
    RatioDeltasExactly(pod, numerator, denominator);
    hide RatioDeltas, GainedSince;
    forall i | 0 <= i < |deltas|
      ensures deltas[i].den > 0.0
      ensures var v := Clamp(Rate(deltas[i].num, deltas[i].den));
        if deltas[i].num <= deltas[i].den then v * deltas[i].den == 100.0 * deltas[i].num else v == 100.0
    {
      KeptDelta(pod, numerator, denominator, deltas[i]);
      ClampedRate(deltas[i].num, deltas[i].den);
    }
  }

  lemma KeptDelta(pod: PodMetrics, numerator: string, denominator: string, x: Delta)
    requires x in RatioDeltas(pod, numerator, denominator)
    ensures x.den > 0.0 && x.num >= 0.0
  {
    RatioDeltasExactly(pod, numerator, denominator);
  }

  lemma ClampedRate(num: real, den: real)
    requires num >= 0.0 && den > 0.0
    ensures num <= den ==> Clamp(Rate(num, den)) * den == 100.0 * num
    ensures num > den ==> Clamp(Rate(num, den)) == 100.0
  {
    var rate := num / den;
    assert rate * den == num;
    if rate > 1.0 {
      assert (rate - 1.0) * den > 0.0;
    } else {
      assert (1.0 - rate) * den >= 0.0;
    }
    if rate < 0.0 {
      assert rate * den < 0.0;
    }
  }
}
