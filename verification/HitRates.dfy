/** Hit rates weighted by traffic: when the reported mean is a mean of the reported rates. */
module HitRates {
  import opened Results
  import opened SortedSets
  import opened TimeSeries

  // ----- where a weighted rate lies -----

  /** How far `num` hits of `den` queries exceed a rate of `r` percent, in hits times 100. */
  ghost function Excess(t: Totals, r: real): real {
    t.num * 100.0 - r * t.den
  }

  lemma ExcessAdds(a: Totals, b: Totals, r: real)
    ensures Excess(Plus(a, b), r) == Excess(a, r) + Excess(b, r)
  {}

  lemma ExcessSign(t: Totals, r: real)
    requires t.den > 0.0
    ensures Rate(t.num, t.den) < r <==> Excess(t, r) < 0.0
    ensures Rate(t.num, t.den) > r <==> Excess(t, r) > 0.0
  {
    var gap := Rate(t.num, t.den) - r;
    assert t.num / t.den * t.den == t.num;
    assert Excess(t, r) == gap * t.den;
    if gap > 0.0 {
      assert gap * t.den > 0.0;
    } else if gap < 0.0 {
      assert -gap * t.den > 0.0;
    }
  }

  ghost function SumAll(parts: seq<Totals>): Totals {
    if parts == [] then Totals(0.0, 0.0)
    else Plus(SumAll(parts[..|parts| - 1]), parts[|parts| - 1])
  }

  ghost predicate WithTraffic(parts: seq<Totals>) {
    forall i :: 0 <= i < |parts| ==> parts[i].den > 0.0
  }

  lemma {:induction false} ExcessOfSum(parts: seq<Totals>, r: real)
    requires parts != [] && WithTraffic(parts)
    ensures SumAll(parts).den > 0.0
    ensures (forall i :: 0 <= i < |parts| ==> Excess(parts[i], r) < 0.0) ==> Excess(SumAll(parts), r) < 0.0
    ensures (forall i :: 0 <= i < |parts| ==> Excess(parts[i], r) > 0.0) ==> Excess(SumAll(parts), r) > 0.0
  {
    var rest, last := parts[..|parts| - 1], parts[|parts| - 1];
    ExcessAdds(SumAll(rest), last, r);
    if rest == [] {
      assert SumAll(rest) == Totals(0.0, 0.0);
    } else {
      ExcessOfSum(rest, r);
    }
  }

  /** The weighted rate of several parts lies between the least and the greatest of their rates. */
  lemma WeightedRateBetween(parts: seq<Totals>)
    requires parts != [] && WithTraffic(parts)
    ensures SumAll(parts).den > 0.0
    ensures var mean := Rate(SumAll(parts).num, SumAll(parts).den);
      && (exists i :: 0 <= i < |parts| && Rate(parts[i].num, parts[i].den) <= mean)
      && (exists i :: 0 <= i < |parts| && Rate(parts[i].num, parts[i].den) >= mean)
  {
    ExcessOfSum(parts, 0.0);
    var mean := Rate(SumAll(parts).num, SumAll(parts).den);
    ExcessSign(SumAll(parts), mean);
    ExcessOfSum(parts, mean);
    forall i | 0 <= i < |parts|
      ensures Rate(parts[i].num, parts[i].den) < mean <==> Excess(parts[i], mean) < 0.0
      ensures Rate(parts[i].num, parts[i].den) > mean <==> Excess(parts[i], mean) > 0.0
    {
      ExcessSign(parts[i], mean);
    }
  }

  // ----- the mean reported for one pod -----

  ghost predicate KeptDeltas(deltas: seq<Delta>) {
    forall i :: 0 <= i < |deltas| ==> deltas[i].den > 0.0 && deltas[i].num >= 0.0
  }

  lemma {:induction false} DeltasAreKept(ts: seq<int>, num: Series, den: Series)
    ensures KeptDeltas(DeltasOver(ts, num, den))
  {
    if |ts| >= 2 {
      DeltasAreKept(ts[..|ts| - 1], num, den);
    }
  }

  ghost function Parts(deltas: seq<Delta>): (parts: seq<Totals>)
    ensures |parts| == |deltas|
  {
    seq(|deltas|, i requires 0 <= i < |deltas| => Totals(deltas[i].num, deltas[i].den))
  }

  lemma {:induction false} SummedIsSumAll(deltas: seq<Delta>)
    ensures Summed(deltas) == SumAll(Parts(deltas))
  {
    if deltas != [] {
      SummedIsSumAll(deltas[..|deltas| - 1]);
      assert Parts(deltas)[..|deltas| - 1] == Parts(deltas[..|deltas| - 1]);
    }
  }

  /** 100 times the hits gained over the queries gained. */
  ghost function MeanRate(deltas: seq<Delta>): real {
    Rate(Summed(deltas).num, Summed(deltas).den)
  }

  lemma MeanExcess(deltas: seq<Delta>)
    requires deltas != [] && KeptDeltas(deltas)
    ensures Summed(deltas).den > 0.0
    ensures exists i :: 0 <= i < |deltas| && Rate(deltas[i].num, deltas[i].den) <= MeanRate(deltas)
    ensures exists i :: 0 <= i < |deltas| && Rate(deltas[i].num, deltas[i].den) >= MeanRate(deltas)
  {
    SummedIsSumAll(deltas);
    WeightedRateBetween(Parts(deltas));
    var i :| 0 <= i < |deltas| && Rate(Parts(deltas)[i].num, Parts(deltas)[i].den) <= MeanRate(deltas);
    assert Rate(deltas[i].num, deltas[i].den) <= MeanRate(deltas);
    var j :| 0 <= j < |deltas| && Rate(Parts(deltas)[j].num, Parts(deltas)[j].den) >= MeanRate(deltas);
    assert Rate(deltas[j].num, deltas[j].den) >= MeanRate(deltas);
  }

  lemma RateNotNegative(num: real, den: real)
    requires num >= 0.0 && den > 0.0
    ensures Rate(num, den) >= 0.0
    ensures Rate(num, den) <= 100.0 <==> num <= den
  {
    ExcessSign(Totals(num, den), 0.0);
    ExcessSign(Totals(num, den), 100.0);
  }

  lemma {:induction false} TotalsNotNegative(deltas: seq<Delta>)
    requires KeptDeltas(deltas)
    ensures Summed(deltas).num >= 0.0
  {
    if deltas != [] {
      TotalsNotNegative(deltas[..|deltas| - 1]);
    }
  }

  /**
   The mean is never below the least rate of the series; and since the series caps its rates at 100,
   it is not above the greatest exactly when no more hits than queries were gained in all.
   */
  lemma MeanOfSeries(pod: PodMetrics, n: string, d: string)
    requires RatioSeries(pod, n, d) != []
    ensures var mean := Rate(RatioTotals(pod, n, d).num, RatioTotals(pod, n, d).den);
      && RatioTotals(pod, n, d).den > 0.0
      && (exists p :: p in RatioSeries(pod, n, d) && p.value <= mean)
      && ((exists p :: p in RatioSeries(pod, n, d) && p.value >= mean)
          <==> RatioTotals(pod, n, d).num <= RatioTotals(pod, n, d).den)
  {
    var deltas, series := RatioDeltas(pod, n, d), RatioSeries(pod, n, d);
    DeltasAreKept(CommonTimes(pod[n], pod[d]), pod[n], pod[d]);
    MeanExcess(deltas);
    TotalsNotNegative(deltas);
    RateNotNegative(Summed(deltas).num, Summed(deltas).den);
    var mean := MeanRate(deltas);
    var low :| 0 <= low < |deltas| && Rate(deltas[low].num, deltas[low].den) <= mean;
    RateNotNegative(deltas[low].num, deltas[low].den);
    assert series[low] in series && series[low].value <= mean;
    var high :| 0 <= high < |deltas| && Rate(deltas[high].num, deltas[high].den) >= mean;
    assert series[high] in series;
    assert mean <= 100.0 ==> series[high].value >= mean;
    forall p | p in series ensures p.value <= 100.0 {
      var i :| 0 <= i < |series| && series[i] == p;
    }
  }

  // ----- telescoping -----

  /** What both counters gained from one scrape to a later one. */
  ghost function Gained(from: int, to: int, num: Series, den: Series): Totals {
    Totals(SumAt(num, to) - SumAt(num, from), SumAt(den, to) - SumAt(den, from))
  }

  lemma GainedAdds(a: int, b: int, c: int, num: Series, den: Series)
    ensures Plus(Gained(a, b, num, den), Gained(b, c, num, den)) == Gained(a, c, num, den)
    ensures Gained(a, a, num, den) == Totals(0.0, 0.0)
  {}

  ghost predicate SteadyStep(prev: int, curr: int, num: Series, den: Series) {
    var gained := Gained(prev, curr, num, den);
    gained.den >= 0.0 && gained.num >= 0.0 && (gained.den == 0.0 ==> gained.num == 0.0)
  }

  /** Counters that never reset, and hits that only come with queries. */
  ghost predicate Steady(ts: seq<int>, num: Series, den: Series) {
    |ts| < 2 || (Steady(ts[..|ts| - 1], num, den) && SteadyStep(ts[|ts| - 2], ts[|ts| - 1], num, den))
  }

  lemma SteadyStepSum(deltas: seq<Delta>, prev: int, curr: int, num: Series, den: Series)
    requires SteadyStep(prev, curr, num, den)
    ensures Summed(deltas + StepDelta(prev, curr, num, den)) == Plus(Summed(deltas), Gained(prev, curr, num, den))
  {
    var step := StepDelta(prev, curr, num, den);
    if step == [] {
      assert deltas + step == deltas;
    } else {
      assert (deltas + step)[..|deltas|] == deltas;
    }
  }

  lemma {:induction false} Telescopes(ts: seq<int>, num: Series, den: Series)
    requires ts != [] && Steady(ts, num, den)
    ensures Summed(DeltasOver(ts, num, den)) == Gained(ts[0], ts[|ts| - 1], num, den)
  {
    var n := |ts|;
    if n > 1 {
      var rest := ts[..n - 1];
      Telescopes(rest, num, den);
      SteadyStepSum(DeltasOver(rest, num, den), ts[n - 2], ts[n - 1], num, den);
      assert DeltasOver(ts, num, den) == DeltasOver(rest, num, den) + StepDelta(ts[n - 2], ts[n - 1], num, den);
      GainedAdds(ts[0], ts[n - 2], ts[n - 1], num, den);
    } else {
      GainedAdds(ts[0], ts[0], ts[0], num, den);
    }
  }

  /** For steady counters the totals are just the last scrape minus the first. */
  lemma TotalsTelescope(pod: PodMetrics, n: string, d: string)
    requires n in pod && d in pod
    requires CommonTimes(pod[n], pod[d]) != [] && Steady(CommonTimes(pod[n], pod[d]), pod[n], pod[d])
    ensures var ts := CommonTimes(pod[n], pod[d]);
      RatioTotals(pod, n, d) == Gained(ts[0], ts[|ts| - 1], pod[n], pod[d])
  {
    Telescopes(CommonTimes(pod[n], pod[d]), pod[n], pod[d]);
  }

  // ----- when the mean lies within the series -----

  ghost predicate MeanWithin(pod: PodMetrics, n: string, d: string) {
    var mean := Rate(RatioTotals(pod, n, d).num, RatioTotals(pod, n, d).den);
    && (exists p :: p in RatioSeries(pod, n, d) && p.value <= mean)
    && (exists p :: p in RatioSeries(pod, n, d) && p.value >= mean)
  }

  lemma {:induction false} NoMoreHitsThanQueries(deltas: seq<Delta>)
    requires forall i :: 0 <= i < |deltas| ==> deltas[i].num <= deltas[i].den
    ensures Summed(deltas).num <= Summed(deltas).den
  {
    if deltas != [] {
      NoMoreHitsThanQueries(deltas[..|deltas| - 1]);
    }
  }

  /** If no interval gained more hits than queries, the mean lies between two entries of the series. */
  lemma MeanWithinIfHitsAreQueries(pod: PodMetrics, n: string, d: string)
    requires RatioSeries(pod, n, d) != []
    requires forall i :: 0 <= i < |RatioDeltas(pod, n, d)| ==>
      RatioDeltas(pod, n, d)[i].num <= RatioDeltas(pod, n, d)[i].den
    ensures MeanWithin(pod, n, d)
  {
    NoMoreHitsThanQueries(RatioDeltas(pod, n, d));
    MeanOfSeries(pod, n, d);
  }

  /** For steady counters it does exactly if, from the first scrape to the last, hits gained no more than queries. */
  lemma SteadyMeanWithinExactly(pod: PodMetrics, n: string, d: string)
    requires RatioSeries(pod, n, d) != [] && Steady(CommonTimes(pod[n], pod[d]), pod[n], pod[d])
    ensures var ts := CommonTimes(pod[n], pod[d]);
      && ts != []
      && (MeanWithin(pod, n, d) <==>
          SumAt(pod[n], ts[|ts| - 1]) - SumAt(pod[n], ts[0]) <= SumAt(pod[d], ts[|ts| - 1]) - SumAt(pod[d], ts[0]))
  {
    TotalsTelescope(pod, n, d);
    MeanOfSeries(pod, n, d);
  }

  lemma OneInterval(pod: PodMetrics, n: string, d: string, num: real, den: real)
    requires RatioDeltas(pod, n, d) == [Delta(1, num, den)]
    ensures RatioSeries(pod, n, d) == [Point(1, Clamp(Rate(num, den)))]
    ensures RatioTotals(pod, n, d) == Totals(num, den)
  {
    hide RatioDeltas;
    var one := [Delta(1, num, den)];
    assert one[..0] == [] && Summed(one[..0]) == Totals(0.0, 0.0);
    assert Summed(one) == Totals(num, den);
  }

  lemma TwoHitsForOneQuery(n: string, d: string)
    requires n != d
    ensures RatioDeltas(map[n := Twice(2.0), d := Twice(1.0)], n, d) == [Delta(1, 2.0, 1.0)]
  {
    hide Twice, CommonTimes, DeltasOver;
    DeltasOfTwice(2.0, 1.0);
  }

  /** Two hits for one query: the series says 100 percent, the mean 200. */
  lemma MeanAboveTheSeries(n: string, d: string)
    requires n != d
    ensures var pod := map[n := Twice(2.0), d := Twice(1.0)];
      && RatioSeries(pod, n, d) == [Point(1, 100.0)]
      && RatioTotals(pod, n, d) == Totals(2.0, 1.0) && Rate(2.0, 1.0) == 200.0
      && !MeanWithin(pod, n, d)
  {
    hide Twice, RatioDeltas, RatioSeries, RatioTotals;
    var pod := map[n := Twice(2.0), d := Twice(1.0)];
    TwoHitsForOneQuery(n, d);
    OneInterval(pod, n, d, 2.0, 1.0);
    MeanOfSeries(pod, n, d);
  }

  // ----- the pooled mean -----

  /** What the report says of a hit rate: one mean a pod that has rates, and their pool. */
  datatype HitRateReport = HitRateReport(means: seq<real>, pooled: Option<real>)

  /** The stage totals of the pods that have rates in the stage, in pod order. */
  ghost function Reporting(pods: seq<PodMetrics>, n: string, d: string, window: Option<Window>): seq<Totals> {
    if pods == [] then []
    else
      var clipped := ClippedPair(pods[|pods| - 1], n, d, window);
      Reporting(pods[..|pods| - 1], n, d, window)
      + (if RatioSeries(clipped, n, d) == [] then [] else [RatioTotals(clipped, n, d)])
  }

  /** A pod reports the gains of its own clipped counters if it has a rate in the stage. */
  lemma PodReports(pod: PodMetrics, n: string, d: string, window: Option<Window>)
    ensures var clipped := ClippedPair(pod, n, d, window);
      Reporting([pod], n, d, window) == if RatioDeltas(clipped, n, d) == [] then [] else [RatioTotals(clipped, n, d)]
  {
    hide ClippedPair, RatioTotals;
    assert [pod][..0] == [] && Reporting([], n, d, window) == [];
  }

  /** Every pod is pooled once. */
  lemma {:induction false} ReportingAdds(pods: seq<PodMetrics>, more: seq<PodMetrics>, n: string, d: string,
                                         window: Option<Window>)
    ensures Reporting(pods + more, n, d, window) == Reporting(pods, n, d, window) + Reporting(more, n, d, window)
    decreases |more|
  {
    hide ClippedPair, RatioSeries, RatioTotals;
    if more == [] {
      assert pods + more == pods;
    } else {
      assert (pods + more)[..|pods + more| - 1] == pods + more[..|more| - 1];
      ReportingAdds(pods, more[..|more| - 1], n, d, window);
    }
  }

  lemma {:induction false} ReportingHasTraffic(pods: seq<PodMetrics>, n: string, d: string, window: Option<Window>)
    ensures WithTraffic(Reporting(pods, n, d, window))
  {
    hide ClippedPair, RatioSeries, RatioTotals, Rate;
    if pods != [] {
      ReportingHasTraffic(pods[..|pods| - 1], n, d, window);
      var clipped := ClippedPair(pods[|pods| - 1], n, d, window);
      if RatioSeries(clipped, n, d) != [] {
        MeanOfSeries(clipped, n, d);
      }
    }
  }

  function RatesOf(parts: seq<Totals>): (rates: seq<real>)
    ensures |rates| == |parts|
  {
    seq(|parts|, i requires 0 <= i < |parts| => Rate(parts[i].num, parts[i].den))
  }

  lemma OneMorePart(parts: seq<Totals>, t: Totals)
    ensures SumAll(parts + [t]) == Plus(SumAll(parts), t)
    ensures RatesOf(parts + [t]) == RatesOf(parts) + [Rate(t.num, t.den)]
  {
    assert (parts + [t])[..|parts|] == parts;
  }

  lemma OneMorePod(pods: seq<PodMetrics>, i: nat, n: string, d: string, window: Option<Window>)
    requires i < |pods|
    ensures var clipped := ClippedPair(pods[i], n, d, window);
      Reporting(pods[..i + 1], n, d, window) == Reporting(pods[..i], n, d, window)
        + if RatioSeries(clipped, n, d) == [] then [] else [RatioTotals(clipped, n, d)]
  {
    assert pods[..i + 1][..i] == pods[..i];
  }

  /** The loop over pods, for one hit rate that is also aggregated. */
  method HitRateStatistics(pods: seq<PodMetrics>, n: string, d: string, window: Option<Window>)
    returns (report: HitRateReport)
    ensures var parts := Reporting(pods, n, d, window);
      && report.means == RatesOf(parts)
      && report.pooled == if parts == [] then None else Some(Rate(SumAll(parts).num, SumAll(parts).den))
  {
    var means: seq<real> := [];
    var pool := Totals(0.0, 0.0);
    ghost var parts: seq<Totals> := [];
    for i := 0 to |pods|
      invariant parts == Reporting(pods[..i], n, d, window)
      invariant means == RatesOf(parts) && pool == SumAll(parts)
    {
      OneMorePod(pods, i, n, d, window);
      var clipped := ClippedPair(pods[i], n, d, window);
      var values := RatioSeries(clipped, n, d);
      if values != [] {
        var totals := RatioTotals(clipped, n, d);
        OneMorePart(parts, totals);
        parts := parts + [totals];
        means := means + [Rate(totals.num, totals.den)];
        pool := Plus(pool, totals);
      }
    }
    TakeAll(pods);
    report := HitRateReport(means, if means == [] then None else Some(Rate(pool.num, pool.den)));
  }

  /** The pooled mean lies between the least and the greatest pod mean. */
  lemma PooledMeanBetween(pods: seq<PodMetrics>, n: string, d: string, window: Option<Window>)
    requires Reporting(pods, n, d, window) != []
    ensures var parts := Reporting(pods, n, d, window);
      var pooled := Rate(SumAll(parts).num, SumAll(parts).den);
      && (exists i :: 0 <= i < |parts| && Rate(parts[i].num, parts[i].den) <= pooled)
      && (exists i :: 0 <= i < |parts| && Rate(parts[i].num, parts[i].den) >= pooled)
  {
    ReportingHasTraffic(pods, n, d, window);
    WeightedRateBetween(Reporting(pods, n, d, window));
  }
}
