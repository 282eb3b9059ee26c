/** How clipping to stages, differencing and summing commute. */
module StageLaws {
  import opened Results
  import opened SortedSets
  import opened TimeSeries

  // ----- clipping -----

  lemma {:induction false} ClipKeeps(points: Series, window: Option<Window>)
    ensures forall p :: p in Clip(points, window) <==> p in points && InWindow(p.ts, window)
    ensures |Clip(points, window)| <= |points|
  {
    if points != [] {
      var n := |points| - 1;
      ClipKeeps(points[..n], window);
      assert points == points[..n] + [points[n]];
    }
  }

  lemma {:induction false} ClippedSum(points: Series, window: Option<Window>, t: int)
    ensures SumAt(Clip(points, window), t) == if InWindow(t, window) then SumAt(points, t) else 0.0
  {
    if points != [] {
      var n := |points| - 1;
      ClippedSum(points[..n], window, t);
      var rest := Clip(points[..n], window);
      if InWindow(points[n].ts, window) {
        assert (rest + [points[n]])[..|rest|] == rest;
      } else {
        assert Clip(points, window) == rest;
      }
    }
  }

  ghost predicate SortedByTime(points: Series) {
    forall i, j :: 0 <= i < j < |points| ==> points[i].ts <= points[j].ts
  }

  /** Consecutive windows split a sorted series: nothing is lost and nothing counted twice. */
  lemma {:induction false} ConsecutiveWindowsSplit(points: Series, t0: int, t1: int, t2: int)
    requires SortedByTime(points) && t0 <= t1 <= t2
    ensures Clip(points, Some(Window(t0, t2)))
         == Clip(points, Some(Window(t0, t1))) + Clip(points, Some(Window(t1, t2)))
  {
    if points != [] {
      var n := |points| - 1;
      var rest, last := points[..n], points[n];
      ConsecutiveWindowsSplit(rest, t0, t1, t2);
      ClipStep(points, Some(Window(t0, t2)));
      ClipStep(points, Some(Window(t0, t1)));
      ClipStep(points, Some(Window(t1, t2)));
      if last.ts < t1 {
        NothingAfter(rest, t1, t2);
      }
      hide Clip;
      Appended(Clip(rest, Some(Window(t0, t1))), Clip(rest, Some(Window(t1, t2))), last);
    }
  }

  lemma ClipStep(points: Series, window: Option<Window>)
    requires points != []
    ensures Clip(points, window)
         == if InWindow(points[|points| - 1].ts, window) then
              Clip(points[..|points| - 1], window) + [points[|points| - 1]]
            else Clip(points[..|points| - 1], window)
  {
    assert Clip(points[..|points| - 1], window) + [] == Clip(points[..|points| - 1], window);
  }

  lemma Appended(a: Series, b: Series, p: Point)
    ensures a + b + [p] == a + (b + [p])
    ensures b == [] ==> a + b + [p] == (a + [p]) + b
  {}

  lemma {:induction false} NothingAfter(points: Series, t1: int, t2: int)
    requires forall i :: 0 <= i < |points| ==> points[i].ts < t1
    ensures Clip(points, Some(Window(t1, t2))) == []
  {
    if points != [] {
      NothingAfter(points[..|points| - 1], t1, t2);
    }
  }

  // ----- differencing -----

  lemma {:induction false} SameSumsSameDeltas(ts: seq<int>, num: Series, den: Series, num': Series, den': Series)
    requires forall i :: 0 <= i < |ts| ==>
      SumAt(num, ts[i]) == SumAt(num', ts[i]) && SumAt(den, ts[i]) == SumAt(den', ts[i])
    ensures DeltasOver(ts, num, den) == DeltasOver(ts, num', den')
  {
    if |ts| >= 2 {
      SameSumsSameDeltas(ts[..|ts| - 1], num, den, num', den');
    }
  }

  /** The delta, if kept, joining the last instant of `a` to the first of `b`. */
  ghost function Bridge(a: seq<int>, b: seq<int>, num: Series, den: Series): seq<Delta> {
    if a == [] || b == [] then [] else StepDelta(a[|a| - 1], b[0], num, den)
  }

  lemma {:induction false} DeltasConcat(a: seq<int>, b: seq<int>, num: Series, den: Series)
    ensures DeltasOver(a + b, num, den)
         == DeltasOver(a, num, den) + Bridge(a, b, num, den) + DeltasOver(b, num, den)
  {
    if b == [] {
      assert a + b == a;
    } else if |b| == 1 {
      assert (a + b)[..|a|] == a;
    } else {
      var c := b[..|b| - 1];
      assert (a + b)[..|a + b| - 1] == a + c;
      DeltasConcat(a, c, num, den);
    }
  }

  ghost function DeltasIn(deltas: seq<Delta>, window: Option<Window>): seq<Delta> {
    if deltas == [] then []
    else
      var last := deltas[|deltas| - 1];
      DeltasIn(deltas[..|deltas| - 1], window) + (if InWindow(last.ts, window) then [last] else [])
  }

  lemma {:induction false} DeltasInConcat(a: seq<Delta>, b: seq<Delta>, window: Option<Window>)
    ensures DeltasIn(a + b, window) == DeltasIn(a, window) + DeltasIn(b, window)
  {
    if b == [] {
      assert a + b == a;
    } else {
      assert (a + b)[..|a + b| - 1] == a + b[..|b| - 1];
      DeltasInConcat(a, b[..|b| - 1], window);
    }
  }

  lemma {:induction false} DeltaTimes(ts: seq<int>, num: Series, den: Series)
    ensures forall d :: d in DeltasOver(ts, num, den) ==> exists i :: 0 < i < |ts| && ts[i] == d.ts
  {
    if |ts| >= 2 {
      DeltaTimes(ts[..|ts| - 1], num, den);
    }
  }

  lemma {:induction false} AllInside(deltas: seq<Delta>, window: Option<Window>)
    ensures (forall d :: d in deltas ==> InWindow(d.ts, window)) ==> DeltasIn(deltas, window) == deltas
    ensures (forall d :: d in deltas ==> !InWindow(d.ts, window)) ==> DeltasIn(deltas, window) == []
  {
    if deltas != [] {
      AllInside(deltas[..|deltas| - 1], window);
    }
  }

  // ----- the common instants of a clipped pair -----

  lemma ClippedTimes(points: Series, window: Option<Window>)
    ensures forall t :: t in Times(Clip(points, window)) <==> t in Times(points) && InWindow(t, window)
  {
    ClipKeeps(points, window);
  }

  ghost predicate Splits(whole: seq<int>, before: seq<int>, inside: seq<int>, after: seq<int>, w: Window) {
    && whole == before + inside + after && Increasing(whole)
    && (forall t :: t in before ==> t < w.start)
    && (forall t :: t in inside ==> w.start <= t < w.end)
    && (forall t :: t in after ==> w.end <= t)
  }

  ghost function CountBelow(ts: seq<int>, t: int): nat {
    if ts == [] || ts[0] >= t then 0 else 1 + CountBelow(ts[1..], t)
  }

  lemma {:induction false} SplitAt(ts: seq<int>, t: int)
    requires Increasing(ts)
    ensures CountBelow(ts, t) <= |ts|
    ensures forall x :: x in ts[..CountBelow(ts, t)] ==> x < t
    ensures forall x :: x in ts[CountBelow(ts, t)..] ==> t <= x
  {
    if ts != [] && ts[0] < t {
      SplitAt(ts[1..], t);
      var n := CountBelow(ts[1..], t);
      assert ts[..n + 1] == [ts[0]] + ts[1..][..n];
      assert ts[n + 1..] == ts[1..][n..];
    }
  }

  lemma SplitByWindow(whole: seq<int>, w: Window) returns (before: seq<int>, inside: seq<int>, after: seq<int>)
    requires Increasing(whole)
    ensures Splits(whole, before, inside, after, w) && Increasing(inside)
    ensures forall t :: t in inside <==> t in whole && w.start <= t < w.end
  {
    hide CountBelow;
    SplitAt(whole, w.start);
    var i := CountBelow(whole, w.start);
    var rest := whole[i..];
    StretchIncreases(whole, i, |whole|);
    assert whole[i..|whole|] == rest;
    SplitAt(rest, w.end);
    var j := CountBelow(rest, w.end);
    before, inside, after := whole[..i], rest[..j], rest[j..];
    assert whole == before + rest && rest == inside + after;
    assert before + (inside + after) == before + inside + after;
    StretchIncreases(rest, 0, j);
    assert rest[0..j] == inside;
    BetweenCuts(before, inside, after, w);
  }

  lemma StretchIncreases(ts: seq<int>, i: nat, j: nat)
    requires Increasing(ts) && i <= j <= |ts|
    ensures Increasing(ts[i..j])
  {}

  lemma BetweenCuts(before: seq<int>, inside: seq<int>, after: seq<int>, w: Window)
    requires forall t :: t in before ==> t < w.start
    requires forall t :: t in inside + after ==> w.start <= t
    requires forall t :: t in inside ==> t < w.end
    requires forall t :: t in after ==> w.end <= t
    ensures forall t :: t in inside ==> w.start <= t < w.end
    ensures forall t :: t in inside <==> t in before + inside + after && w.start <= t < w.end
  {
    forall t | t in inside ensures w.start <= t && t in before + inside + after {
      assert t in inside + after;
    }
    forall t | t in before + inside + after && w.start <= t < w.end ensures t in inside {
      assert t in before || t in inside || t in after;
    }
  }

  /** The common instants of the clipped counters are the common instants inside the window. */
  lemma CommonTimesSplit(num: Series, den: Series, w: Window)
    returns (before: seq<int>, inside: seq<int>, after: seq<int>)
    ensures Splits(CommonTimes(num, den), before, inside, after, w)
    ensures CommonTimes(Clip(num, Some(w)), Clip(den, Some(w))) == inside
  {
    var whole := CommonTimes(num, den);
    SortedIsSorted(Times(num) * Times(den));
    before, inside, after := SplitByWindow(whole, w);
    ClippedTimes(num, Some(w));
    ClippedTimes(den, Some(w));
    SortedIs(Times(Clip(num, Some(w))) * Times(Clip(den, Some(w))), inside);
  }

  // ----- clip, then difference -----

  lemma DropsNothing(out: seq<Delta>, x: seq<Delta>, window: Option<Window>)
    requires DeltasIn(out, window) == []
    ensures DeltasIn(out + x, window) == DeltasIn(x + out, window) == DeltasIn(x, window)
  {
    DeltasInConcat(out, x, window);
    DeltasInConcat(x, out, window);
  }

  lemma FivePieces(a: seq<Delta>, b: seq<Delta>, c: seq<Delta>, d: seq<Delta>, e: seq<Delta>, window: Option<Window>)
    requires DeltasIn(a, window) == DeltasIn(d, window) == DeltasIn(e, window) == []
    requires DeltasIn(b, window) == b && DeltasIn(c, window) == c
    ensures DeltasIn((a + b + c) + d + e, window) == b + c
  {
    DropsNothing(a, b, window);
    DeltasInConcat(a + b, c, window);
    DropsNothing(d, a + b + c, window);
    DropsNothing(e, a + b + c + d, window);
  }

  lemma DeltasOfTimes(ts: seq<int>, num: Series, den: Series, window: Option<Window>)
    ensures (forall t :: t in ts ==> InWindow(t, window)) ==>
      DeltasIn(DeltasOver(ts, num, den), window) == DeltasOver(ts, num, den)
    ensures (forall t :: t in ts ==> !InWindow(t, window)) ==> DeltasIn(DeltasOver(ts, num, den), window) == []
  {
    DeltaTimes(ts, num, den);
    forall d | d in DeltasOver(ts, num, den) ensures d.ts in ts {
      var i :| 0 < i < |ts| && ts[i] == d.ts;
    }
    AllInside(DeltasOver(ts, num, den), window);
  }

  /** The delta that enters the window lies in it; the one that leaves it does not. */
  lemma Crossings(before: seq<int>, inside: seq<int>, after: seq<int>, num: Series, den: Series, w: Window)
    requires Splits(before + inside + after, before, inside, after, w)
    ensures DeltasIn(Bridge(before, inside, num, den), Some(w)) == Bridge(before, inside, num, den)
    ensures DeltasIn(Bridge(before + inside, after, num, den), Some(w)) == []
  {
    assert inside != [] ==> inside[0] in inside;
    assert after != [] ==> after[0] in after;
    AllInside(Bridge(before, inside, num, den), Some(w));
    AllInside(Bridge(before + inside, after, num, den), Some(w));
  }

  lemma InsideDeltas(before: seq<int>, inside: seq<int>, after: seq<int>, num: Series, den: Series, w: Window)
    requires Splits(before + inside + after, before, inside, after, w)
    ensures DeltasIn(DeltasOver(before + inside + after, num, den), Some(w))
         == Bridge(before, inside, num, den) + DeltasOver(inside, num, den)
  {
    var window := Some(w);
    DeltasConcat(before + inside, after, num, den);
    DeltasConcat(before, inside, num, den);
    var entering, leaving := Bridge(before, inside, num, den), Bridge(before + inside, after, num, den);
    Crossings(before, inside, after, num, den, w);
    hide DeltasOver, DeltasIn, Bridge, Increasing;
    DeltasOfTimes(before, num, den, window);
    DeltasOfTimes(inside, num, den, window);
    DeltasOfTimes(after, num, den, window);
    FivePieces(DeltasOver(before, num, den), entering, DeltasOver(inside, num, den), leaving,
               DeltasOver(after, num, den), window);
  }

  ghost function Dropping(series: Series, t: int): Series {
    if series == [] then []
    else
      var last := series[|series| - 1];
      Dropping(series[..|series| - 1], t) + (if last.ts == t then [] else [last])
  }

  lemma {:induction false} ClipRated(deltas: seq<Delta>, window: Option<Window>)
    ensures Clip(Rated(deltas), window) == Rated(DeltasIn(deltas, window))
  {
    if deltas != [] {
      var n := |deltas| - 1;
      ClipRated(deltas[..n], window);
      assert Rated(deltas)[..n] == Rated(deltas[..n]);
    }
  }

  lemma {:induction false} DropConcat(a: Series, b: Series, t: int)
    requires forall p :: p in a ==> p.ts == t
    requires forall p :: p in b ==> p.ts != t
    ensures Dropping(a + b, t) == b
  {
    if b != [] {
      assert (a + b)[..|a + b| - 1] == a + b[..|b| - 1];
      DropConcat(a, b[..|b| - 1], t);
    } else if a != [] {
      assert a + b == a && a[..|a| - 1] + [] == a[..|a| - 1];
      DropConcat(a[..|a| - 1], [], t);
    }
  }

  lemma ClippedRatioDeltas(pod: PodMetrics, n: string, d: string, w: Window)
    returns (before: seq<int>, inside: seq<int>, after: seq<int>)
    requires n in pod && d in pod
    ensures Splits(CommonTimes(pod[n], pod[d]), before, inside, after, w)
    ensures CommonTimes(Clip(pod[n], Some(w)), Clip(pod[d], Some(w))) == inside
    ensures RatioDeltas(ClippedPair(pod, n, d, Some(w)), n, d) == DeltasOver(inside, pod[n], pod[d])
  {
    before, inside, after := CommonTimesSplit(pod[n], pod[d], w);
    forall i | 0 <= i < |inside|
      ensures SumAt(Clip(pod[n], Some(w)), inside[i]) == SumAt(pod[n], inside[i])
      ensures SumAt(Clip(pod[d], Some(w)), inside[i]) == SumAt(pod[d], inside[i])
    {
      assert inside[i] in inside;
      ClippedSum(pod[n], Some(w), inside[i]);
      ClippedSum(pod[d], Some(w), inside[i]);
    }
    SameSumsSameDeltas(inside, Clip(pod[n], Some(w)), Clip(pod[d], Some(w)), pod[n], pod[d]);
  }

  /** The instants both counters of the pair were scraped inside the stage. */
  ghost function StageTimes(pod: PodMetrics, n: string, d: string, w: Window): seq<int> {
    CommonTimes(Clip(Scraped(pod, n), Some(w)), Clip(Scraped(pod, d), Some(w)))
  }

  /** A missing counter gives no rates, clipped or not. */
  lemma MissingCounter(pod: PodMetrics, n: string, d: string, window: Option<Window>)
    requires n !in pod || d !in pod
    ensures RatioSeries(ClippedPair(pod, n, d, window), n, d) == [] == RatioSeries(pod, n, d)
    ensures RatioTotals(ClippedPair(pod, n, d, window), n, d) == Totals(0.0, 0.0)
  {
    var pair := ClippedPair(pod, n, d, window);
    assert Times(pair[n]) * Times(pair[d]) == {};
  }

  lemma NoStageTimes(pod: PodMetrics, n: string, d: string, w: Window)
    requires n !in pod || d !in pod
    ensures StageTimes(pod, n, d, w) == []
  {
    assert Times(Clip(Scraped(pod, n), Some(w))) * Times(Clip(Scraped(pod, d), Some(w))) == {};
  }

  /**
   The rates of a stage are the rates of the whole run inside the stage, less the one at the stage's
   first common scrape: no rate reported for a stage uses a scrape from before it.
   */
  lemma ClipThenDiff(pod: PodMetrics, n: string, d: string, w: Window)
    ensures var times := StageTimes(pod, n, d, w);
      RatioSeries(ClippedPair(pod, n, d, Some(w)), n, d) ==
        var inStage := Clip(RatioSeries(pod, n, d), Some(w));
        if times == [] then inStage else Dropping(inStage, times[0])
  {
    if n !in pod || d !in pod {
      MissingCounter(pod, n, d, Some(w));
      NoStageTimes(pod, n, d, w);
    } else {
      ClipThenDiffOfBoth(pod, n, d, w);
    }
  }

  lemma ClipThenDiffOfBoth(pod: PodMetrics, n: string, d: string, w: Window)
    requires n in pod && d in pod
    ensures var times := StageTimes(pod, n, d, w);
      RatioSeries(ClippedPair(pod, n, d, Some(w)), n, d) ==
        var inStage := Clip(RatioSeries(pod, n, d), Some(w));
        if times == [] then inStage else Dropping(inStage, times[0])
  {
    var before, inside, after := ClippedRatioDeltas(pod, n, d, w);
    var num, den := pod[n], pod[d];
    InsideDeltas(before, inside, after, num, den, w);
    ClipRated(RatioDeltas(pod, n, d), Some(w));
    var entering, within := Bridge(before, inside, num, den), DeltasOver(inside, num, den);
    if inside == [] {
      assert entering + within == within;
    } else {
      SplitsIncreasing(before, inside, after, w);
      DeltaTimes(inside, num, den);
      DropEntering(entering, within, inside[0]);
    }
  }

  lemma DropEntering(entering: seq<Delta>, within: seq<Delta>, t: int)
    requires forall d :: d in entering ==> d.ts == t
    requires forall d :: d in within ==> d.ts != t
    ensures Dropping(Rated(entering + within), t) == Rated(within)
  {
    assert Rated(entering + within) == Rated(entering) + Rated(within);
    forall p | p in Rated(entering) ensures p.ts == t {
      var i :| 0 <= i < |entering| && Rated(entering)[i] == p;
      assert entering[i] in entering;
    }
    forall p | p in Rated(within) ensures p.ts != t {
      var i :| 0 <= i < |within| && Rated(within)[i] == p;
      assert within[i] in within;
    }
    DropConcat(Rated(entering), Rated(within), t);
  }

  lemma SplitsIncreasing(before: seq<int>, inside: seq<int>, after: seq<int>, w: Window)
    requires Splits(before + inside + after, before, inside, after, w)
    ensures Increasing(inside)
  {
    forall i, j | 0 <= i < j < |inside| ensures inside[i] < inside[j] {
      var whole := before + inside + after;
      assert whole[|before| + i] == inside[i] && whole[|before| + j] == inside[j];
    }
  }

  // ----- stage additivity -----

  lemma {:induction false} SummedConcat(a: seq<Delta>, b: seq<Delta>)
    ensures Summed(a + b) == Plus(Summed(a), Summed(b))
  {
    if b == [] {
      assert a + b == a;
    } else {
      assert (a + b)[..|a + b| - 1] == a + b[..|b| - 1];
      SummedConcat(a, b[..|b| - 1]);
    }
  }

  /**
   The totals of [t0, t2) are those of [t0, t1) and [t1, t2) and the one delta, if kept, that joins
   the last common scrape before t1 to the first at or after it.
   */
  lemma StageAdditivity(pod: PodMetrics, n: string, d: string, t0: int, t1: int, t2: int)
    requires t0 <= t1 <= t2
    ensures var w02, w01, w12 := Window(t0, t2), Window(t0, t1), Window(t1, t2);
      var joining := Bridge(StageTimes(pod, n, d, w01), StageTimes(pod, n, d, w12), Scraped(pod, n), Scraped(pod, d));
      RatioTotals(ClippedPair(pod, n, d, Some(w02)), n, d) ==
        Plus(Plus(RatioTotals(ClippedPair(pod, n, d, Some(w01)), n, d), Summed(joining)),
             RatioTotals(ClippedPair(pod, n, d, Some(w12)), n, d))
  {
    var w02, w01, w12 := Window(t0, t2), Window(t0, t1), Window(t1, t2);
    if n !in pod || d !in pod {
      MissingCounter(pod, n, d, Some(w02));
      MissingCounter(pod, n, d, Some(w01));
      MissingCounter(pod, n, d, Some(w12));
      NoStageTimes(pod, n, d, w01);
    } else {
      var _, both, _ := ClippedRatioDeltas(pod, n, d, w02);
      var _, first, _ := ClippedRatioDeltas(pod, n, d, w01);
      var _, second, _ := ClippedRatioDeltas(pod, n, d, w12);
      StagesJoin(pod, n, d, t0, t1, t2);
      DeltasConcat(first, second, pod[n], pod[d]);
      var joining := Bridge(first, second, pod[n], pod[d]);
      SummedConcat(DeltasOver(first, pod[n], pod[d]), joining);
      SummedConcat(DeltasOver(first, pod[n], pod[d]) + joining, DeltasOver(second, pod[n], pod[d]));
    }
  }

  lemma StagesJoin(pod: PodMetrics, n: string, d: string, t0: int, t1: int, t2: int)
    requires n in pod && d in pod && t0 <= t1 <= t2
    ensures StageTimes(pod, n, d, Window(t0, t2))
         == StageTimes(pod, n, d, Window(t0, t1)) + StageTimes(pod, n, d, Window(t1, t2))
  {
    var first, second := StageTimes(pod, n, d, Window(t0, t1)), StageTimes(pod, n, d, Window(t1, t2));
    StageTimesAre(pod, n, d, Window(t0, t1));
    StageTimesAre(pod, n, d, Window(t1, t2));
    StageTimesAre(pod, n, d, Window(t0, t2));
    forall i, j | 0 <= i < |first| && 0 <= j < |second| ensures first[i] < second[j] {
      assert first[i] in first && second[j] in second;
    }
    IncreasingIsUnique(StageTimes(pod, n, d, Window(t0, t2)), first + second);
  }

  lemma StageTimesAre(pod: PodMetrics, n: string, d: string, w: Window)
    requires n in pod && d in pod
    ensures Increasing(StageTimes(pod, n, d, w))
    ensures forall t :: t in StageTimes(pod, n, d, w) <==>
      t in Times(pod[n]) && t in Times(pod[d]) && w.start <= t < w.end
  {
    ClippedTimes(pod[n], Some(w));
    ClippedTimes(pod[d], Some(w));
    SortedIsSorted(Times(Clip(pod[n], Some(w))) * Times(Clip(pod[d], Some(w))));
  }
}
