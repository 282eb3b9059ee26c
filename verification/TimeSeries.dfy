/** Per-pod metric series: summing engines, counter deltas, rates, and clipping to a stage. */
module TimeSeries {
  import opened Results
  import opened SortedSets

  /** A scrape: an instant in UTC and the value of one engine's metric. */
  datatype Point = Point(ts: int, value: real)

  type Series = seq<Point>

  type PodMetrics = map<string, Series>

  /** The stage [start, end). */
  datatype Window = Window(start: int, end: int)

  datatype Delta = Delta(ts: int, num: real, den: real)

  // ----- _sum_by_ts -----

  function Times(points: Series): set<int> {
    set p | p in points :: p.ts
  }

  /** The sum over the engines of a pod at one instant. */
  function SumAt(points: Series, t: int): real {
    if points == [] then 0.0
    else
      var last := points[|points| - 1];
      SumAt(points[..|points| - 1], t) + (if last.ts == t then last.value else 0.0)
  }

  method SumByTs(points: Series) returns (out: map<int, real>)
    ensures out.Keys == Times(points)
    ensures forall t :: t in out ==> out[t] == SumAt(points, t)
  {
    out := map[];
    for i := 0 to |points|
      invariant out.Keys == Times(points[..i])
      invariant forall t :: t in out ==> out[t] == SumAt(points[..i], t)
      invariant forall t :: t !in out ==> SumAt(points[..i], t) == 0.0
    {
      var p := points[i];
      assert points[..i + 1] == points[..i] + [p] && points[..i + 1][..i] == points[..i];
      out := out[p.ts := (if p.ts in out then out[p.ts] else 0.0) + p.value];
    }
    assert points[..|points|] == points;
  }

  // ----- _ratio_deltas -----

  /** The increase from one scrape to the next; skipped without traffic or across a restart. */
  function StepDelta(prev: int, curr: int, num: Series, den: Series): seq<Delta> {
    var dNum := SumAt(num, curr) - SumAt(num, prev);
    var dDen := SumAt(den, curr) - SumAt(den, prev);
    if dDen <= 0.0 || dNum < 0.0 then [] else [Delta(curr, dNum, dDen)]
  }

  function DeltasOver(ts: seq<int>, num: Series, den: Series): seq<Delta> {
    var n := |ts|;
    if n < 2 then [] else DeltasOver(ts[..n - 1], num, den) + StepDelta(ts[n - 2], ts[n - 1], num, den)
  }

  function CommonTimes(num: Series, den: Series): seq<int> {
    Sorted(Times(num) * Times(den))
  }

  function RatioDeltas(pod: PodMetrics, numerator: string, denominator: string): seq<Delta> {
    if numerator !in pod || denominator !in pod then []
    else DeltasOver(CommonTimes(pod[numerator], pod[denominator]), pod[numerator], pod[denominator])
  }

  method ComputeRatioDeltas(pod: PodMetrics, numerator: string, denominator: string) returns (out: seq<Delta>)
    ensures out == RatioDeltas(pod, numerator, denominator)
  {
    if numerator !in pod || denominator !in pod {
      return [];
    }
    var num, den := pod[numerator], pod[denominator];
    var numByTs := SumByTs(num);
    var denByTs := SumByTs(den);
    var commonTs := Sorted(numByTs.Keys * denByTs.Keys);
    SortedIsSorted(numByTs.Keys * denByTs.Keys);
    forall i | 0 <= i < |commonTs|
      ensures commonTs[i] in numByTs && numByTs[commonTs[i]] == SumAt(num, commonTs[i])
      ensures commonTs[i] in denByTs && denByTs[commonTs[i]] == SumAt(den, commonTs[i])
    {
      assert commonTs[i] in commonTs;
    }
    out := DeltasBetween(commonTs, numByTs, denByTs, num, den);
  }

  /** The loop over consecutive common instants. */
  method DeltasBetween(ts: seq<int>, numByTs: map<int, real>, denByTs: map<int, real>,
                       ghost num: Series, ghost den: Series) returns (out: seq<Delta>)
    requires forall i :: 0 <= i < |ts| ==> ts[i] in numByTs && numByTs[ts[i]] == SumAt(num, ts[i])
    requires forall i :: 0 <= i < |ts| ==> ts[i] in denByTs && denByTs[ts[i]] == SumAt(den, ts[i])
    ensures out == DeltasOver(ts, num, den)
  {
    out := [];
    if ts == [] {
      return;
    }
    for i := 1 to |ts|
      invariant out == DeltasOver(ts[..i], num, den)
    {
      OneMoreTime(ts, i, num, den);
      var prev, curr := ts[i - 1], ts[i];
      var dDen := denByTs[curr] - denByTs[prev];
      var dNum := numByTs[curr] - numByTs[prev];
      if !(dDen <= 0.0 || dNum < 0.0) {
        out := out + [Delta(curr, dNum, dDen)];
      }
    }
    TakeAll(ts);
  }

  lemma OneMoreTime(ts: seq<int>, i: nat, num: Series, den: Series)
    requires 1 <= i < |ts|
    ensures DeltasOver(ts[..i + 1], num, den) == DeltasOver(ts[..i], num, den) + StepDelta(ts[i - 1], ts[i], num, den)
  {
    assert ts[..i + 1][..i] == ts[..i];
  }

  // ----- rates, totals and clipping -----

  function Clamp(x: real): (r: real)
    ensures 0.0 <= r <= 100.0
  {
    var capped := if x < 100.0 then x else 100.0;
    if capped > 0.0 then capped else 0.0
  }

  function Rate(num: real, den: real): real {
    if den == 0.0 then 0.0 else num / den * 100.0
  }

  function Rated(deltas: seq<Delta>): (series: Series)
    ensures |series| == |deltas|
    ensures forall i :: 0 <= i < |deltas| ==>
      series[i].ts == deltas[i].ts && series[i].value == Clamp(Rate(deltas[i].num, deltas[i].den))
  {
    seq(|deltas|, i requires 0 <= i < |deltas| => Point(deltas[i].ts, Clamp(Rate(deltas[i].num, deltas[i].den))))
  }

  function RatioSeries(pod: PodMetrics, numerator: string, denominator: string): Series {
    Rated(RatioDeltas(pod, numerator, denominator))
  }

  datatype Totals = Totals(num: real, den: real)

  function Plus(a: Totals, b: Totals): Totals {
    Totals(a.num + b.num, a.den + b.den)
  }

  function Summed(deltas: seq<Delta>): Totals {
    if deltas == [] then Totals(0.0, 0.0)
    else
      var last := deltas[|deltas| - 1];
      Plus(Summed(deltas[..|deltas| - 1]), Totals(last.num, last.den))
  }

  function RatioTotals(pod: PodMetrics, numerator: string, denominator: string): Totals {
    Summed(RatioDeltas(pod, numerator, denominator))
  }

  predicate InWindow(t: int, window: Option<Window>) {
    window.None? || window.value.start <= t < window.value.end
  }

  function Clip(points: Series, window: Option<Window>): Series {
    if points == [] then []
    else
      var last := points[|points| - 1];
      Clip(points[..|points| - 1], window) + (if InWindow(last.ts, window) then [last] else [])
  }

  /** `pod_metrics.get(name, [])` */
  function Scraped(pod: PodMetrics, name: string): Series {
    if name in pod then pod[name] else []
  }

  /** The two counters of a ratio, clipped; a missing one is empty. */
  function ClippedPair(pod: PodMetrics, numerator: string, denominator: string, window: Option<Window>): PodMetrics {
    map name | name in {numerator, denominator} :: Clip(Scraped(pod, name), window)
  }

  // ----- a counter scraped twice -----

  /** A counter that reads 0 at instant 0 and `x` at instant 1. */
  function Twice(x: real): Series {
    [Point(0, 0.0), Point(1, x)]
  }

  lemma SumsOfTwice(x: real)
    ensures Times(Twice(x)) == {0, 1} && SumAt(Twice(x), 0) == 0.0 && SumAt(Twice(x), 1) == x
  {
    var s := Twice(x);
    assert s[0] in s && s[1] in s;
    assert s[..1] == [s[0]] && s[..1][..0] == [];
    assert SumAt(s[..1], 0) == SumAt(s[..1], 1) == 0.0;
  }

  lemma DeltasOfTwice(x: real, y: real)
    requires x >= 0.0 && y > 0.0
    ensures CommonTimes(Twice(x), Twice(y)) == [0, 1]
    ensures DeltasOver([0, 1], Twice(x), Twice(y)) == [Delta(1, x, y)]
  {
    hide SumAt, Twice, Times;
    SumsOfTwice(x);
    SumsOfTwice(y);
    SortedIs({0, 1}, [0, 1]);
    assert {0, 1} * {0, 1} == {0, 1};
    assert [0, 1][..1] == [0];
  }
}
