/** The two percentile interpolators of the repository, and the order statistics they agree on. */
module Percentiles {
  // ----- sorted(values) -----

  ghost predicate Ordered(s: seq<real>) {
    forall i, j :: 0 <= i <= j < |s| ==> s[i] <= s[j]
  }

  function Insert(x: real, s: seq<real>): seq<real> {
    if s == [] || x <= s[0] then [x] + s else [s[0]] + Insert(x, s[1..])
  }

  function SortedValues(values: seq<real>): seq<real> {
    if values == [] then [] else Insert(values[0], SortedValues(values[1..]))
  }

  lemma {:induction false} InsertKeepsOrder(x: real, s: seq<real>)
    requires Ordered(s)
    ensures Ordered(Insert(x, s)) && multiset(Insert(x, s)) == multiset(s) + multiset{x}
    ensures |Insert(x, s)| == |s| + 1
  {
    if s != [] && x > s[0] {
      InsertKeepsOrder(x, s[1..]);
      var rest := Insert(x, s[1..]);
      assert s == [s[0]] + s[1..];
      forall i | 0 <= i < |rest| ensures s[0] <= rest[i] {
        assert rest[i] in multiset(rest);
        assert rest[i] == x || rest[i] in s[1..];
      }
    }
  }

  lemma {:induction false} SortedValuesSorts(values: seq<real>)
    ensures Ordered(SortedValues(values)) && multiset(SortedValues(values)) == multiset(values)
    ensures |SortedValues(values)| == |values|
  {
    if values != [] {
      SortedValuesSorts(values[1..]);
      InsertKeepsOrder(values[0], SortedValues(values[1..]));
      assert values == [values[0]] + values[1..];
    }
  }

  lemma HeadAndTail(s: seq<real>)
    requires s != []
    ensures multiset(s) == multiset{s[0]} + multiset(s[1..])
  {
    assert s == [s[0]] + s[1..];
  }

  lemma LeastHeads(a: seq<real>, b: seq<real>)
    requires a != [] && b != [] && Ordered(b) && multiset(a) == multiset(b)
    ensures b[0] <= a[0]
  {
    assert a[0] in multiset(a);
    assert a[0] in b;
  }

  lemma SameTails(a: seq<real>, b: seq<real>)
    requires a != [] && b != [] && a[0] == b[0] && multiset(a) == multiset(b)
    ensures multiset(a[1..]) == multiset(b[1..])
  {
    HeadAndTail(a);
    HeadAndTail(b);
    assert multiset(a[1..]) == multiset(a) - multiset{a[0]};
    assert multiset(b[1..]) == multiset(b) - multiset{b[0]};
  }

  lemma TailOrdered(s: seq<real>)
    requires s != [] && Ordered(s)
    ensures Ordered(s[1..])
  {}

  lemma SameSize(a: seq<real>, b: seq<real>)
    requires multiset(a) == multiset(b)
    ensures |a| == |b|
  {
    assert |multiset(a)| == |a| && |multiset(b)| == |b|;
  }

  lemma {:induction false} OrderedIsUnique(a: seq<real>, b: seq<real>)
    requires Ordered(a) && Ordered(b) && multiset(a) == multiset(b)
    ensures a == b
  {
    SameSize(a, b);
    if a != [] {
      LeastHeads(a, b);
      LeastHeads(b, a);
      SameTails(a, b);
      TailOrdered(a);
      TailOrdered(b);
      OrderedIsUnique(a[1..], b[1..]);
      assert a == [a[0]] + a[1..] && b == [b[0]] + b[1..];
    }
  }

  // ----- the two interpolators -----

  function Ceil(x: real): int {
    if x.Floor as real == x then x.Floor else x.Floor + 1
  }

  /** The value a fraction of the way from one value to the next. */
  function Between(a: real, b: real, part: real): real {
    a + Share(b - a, part)
  }

  function Share(gap: real, part: real): real {
    gap * part
  }

  /** The position `(n - 1) * p` among n ordered values. */
  function Position(n: nat, p: real): (x: real)
    requires n > 0 && 0.0 <= p <= 1.0
    ensures 0.0 <= x <= (n - 1) as real
  {
    ProductInRange((n - 1) as real, p);
    (n - 1) as real * p
  }

  lemma ProductInRange(n: real, p: real)
    requires n >= 0.0 && 0.0 <= p <= 1.0
    ensures 0.0 <= n * p <= n
  {
    assert n * (1.0 - p) >= 0.0;
  }

  function Interpolated(ordered: seq<real>, index: real): real
    requires 0.0 <= index <= (|ordered| - 1) as real
  {
    var lower, upper := index.Floor, Ceil(index);
    if lower == upper then ordered[lower] else Between(ordered[lower], ordered[upper], index - lower as real)
  }

  /** `percentile` of the traffic driver; `p` runs from 0 to 1, and no values give 0. */
  function Percentile(values: seq<real>, p: real): real
    requires 0.0 <= p <= 1.0
  {
    if values == [] then 0.0
    else
      SortedValuesSorts(values);
      Interpolated(SortedValues(values), Position(|SortedValues(values)|, p))
  }

  function InterpolatedBelow(sorted: seq<real>, k: real): real
    requires 0.0 <= k <= (|sorted| - 1) as real
  {
    var f := k.Floor;
    var c := if f + 1 < |sorted| - 1 then f + 1 else |sorted| - 1;
    Between(sorted[f], sorted[c], k - f as real)
  }

  /** `_percentile` of the report, over sorted values; `p` runs from 0 to 100. */
  function ReportPercentile(sorted: seq<real>, p: real): real
    requires sorted != [] && 0.0 <= p <= 100.0
  {
    if |sorted| == 1 then sorted[0]
    else
      HundredthPosition(|sorted|, p);
      InterpolatedBelow(sorted, (|sorted| - 1) as real * p / 100.0)
  }

  lemma HundredthPosition(n: nat, p: real)
    requires n > 0 && 0.0 <= p <= 100.0
    ensures (n - 1) as real * p / 100.0 == Position(n, p / 100.0)
  {}

  // ----- they compute the same order statistic -----

  lemma InterpolatorsAgree(ordered: seq<real>, x: real)
    requires 0.0 <= x <= (|ordered| - 1) as real
    ensures Interpolated(ordered, x) == InterpolatedBelow(ordered, x)
  {
    if x.Floor as real == x {
      var next := if x.Floor + 1 < |ordered| - 1 then x.Floor + 1 else |ordered| - 1;
      BetweenAtStart(ordered[x.Floor], ordered[next]);
    }
  }

  lemma BetweenAtStart(a: real, b: real)
    ensures Between(a, b, 0.0) == a
  {}

  lemma PositionOfOne(p: real)
    requires 0.0 <= p <= 1.0
    ensures Position(1, p) == 0.0
  {}

  lemma AgreeOnOrdered(ordered: seq<real>, p: real)
    requires ordered != [] && 0.0 <= p <= 1.0
    ensures Interpolated(ordered, Position(|ordered|, p)) == ReportPercentile(ordered, 100.0 * p)
  {
    hide Between, Interpolated, InterpolatedBelow, Position;
    var hundredfold := 100.0 * p;
    assert hundredfold / 100.0 == p;
    HundredthPosition(|ordered|, hundredfold);
    var index := (|ordered| - 1) as real * hundredfold / 100.0;
    assert index == Position(|ordered|, p);
    InterpolatorsAgree(ordered, index);
    if |ordered| == 1 {
      PositionOfOne(p);
      InterpolatedAtStart(ordered);
    }
  }

  lemma InterpolatedAtStart(ordered: seq<real>)
    requires ordered != []
    ensures Interpolated(ordered, 0.0) == ordered[0]
  {}

  /** The driver's percentile and the report's agree on every list. */
  lemma PercentilesAgree(values: seq<real>, p: real)
    requires values != [] && 0.0 <= p <= 1.0
    ensures SortedValues(values) != []
    ensures Percentile(values, p) == ReportPercentile(SortedValues(values), 100.0 * p)
  {
    hide SortedValues, Interpolated, ReportPercentile, Position;
    SortedValuesSorts(values);
    AgreeOnOrdered(SortedValues(values), p);
  }

  lemma BetweenStays(a: real, b: real, part: real)
    requires a <= b && 0.0 <= part <= 1.0
    ensures a <= Between(a, b, part) <= b
  {
    ShareInRange(b - a, part);
  }

  lemma ShareInRange(gap: real, part: real)
    requires gap >= 0.0 && 0.0 <= part <= 1.0
    ensures 0.0 <= Share(gap, part) <= gap
  {
    ProductInRange(gap, part);
  }

  lemma ShareGrows(gap: real, part: real, more: real)
    requires gap >= 0.0 && part <= more
    ensures Share(gap, part) <= Share(gap, more)
  {
    assert gap * (more - part) >= 0.0;
  }

  lemma BetweenGrows(a: real, b: real, part: real, more: real)
    requires a <= b && part <= more
    ensures Between(a, b, part) <= Between(a, b, more)
  {
    ShareGrows(b - a, part, more);
  }

  lemma InItsCell(ordered: seq<real>, x: real)
    requires Ordered(ordered) && 0.0 <= x <= (|ordered| - 1) as real
    ensures ordered[x.Floor] <= Interpolated(ordered, x)
    ensures x.Floor + 1 < |ordered| ==> Interpolated(ordered, x) <= ordered[x.Floor + 1]
    ensures x.Floor + 1 == |ordered| ==> Interpolated(ordered, x) == ordered[x.Floor]
  {
    var f := x.Floor;
    if f as real != x {
      BetweenStays(ordered[f], ordered[f + 1], x - f as real);
    }
  }

  /** The interpolated value grows with its position. */
  lemma InterpolatedMonotone(ordered: seq<real>, x: real, y: real)
    requires Ordered(ordered) && 0.0 <= x <= y <= (|ordered| - 1) as real
    ensures Interpolated(ordered, x) <= Interpolated(ordered, y)
  {
    var f, g := x.Floor, y.Floor;
    InItsCell(ordered, x);
    InItsCell(ordered, y);
    if f < g {
      assert ordered[f + 1] <= ordered[g];
    } else if f as real != x {
      BetweenGrows(ordered[f], ordered[f + 1], x - f as real, y - f as real);
    }
  }

  lemma PositionGrows(n: nat, p: real, q: real)
    requires n > 0 && 0.0 <= p <= q <= 1.0
    ensures Position(n, p) <= Position(n, q)
    ensures Position(n, 0.0) == 0.0 && Position(n, 1.0) == (n - 1) as real
  {
    assert (n - 1) as real * (q - p) >= 0.0;
  }

  /** Monotone in p, within the range of the values, and at its ends for p = 0 and p = 1. */
  lemma PercentileMonotone(values: seq<real>, p: real, q: real)
    requires values != [] && 0.0 <= p <= q <= 1.0
    ensures Percentile(values, p) <= Percentile(values, q)
    ensures Ordered(SortedValues(values)) && multiset(SortedValues(values)) == multiset(values)
    ensures |SortedValues(values)| == |values|
    ensures Percentile(values, 0.0) == SortedValues(values)[0] <= Percentile(values, p)
    ensures Percentile(values, q) <= Percentile(values, 1.0) == SortedValues(values)[|values| - 1]
  {
    SortedValuesSorts(values);
    PercentileGrows(values, p, q);
    PercentileGrows(values, 0.0, p);
    PercentileGrows(values, q, 1.0);
    PositionGrows(|values|, p, q);
  }

  lemma PercentileGrows(values: seq<real>, p: real, q: real)
    requires values != [] && 0.0 <= p <= q <= 1.0
    ensures Percentile(values, p) <= Percentile(values, q)
  {
    SortedValuesSorts(values);
    PositionGrows(|SortedValues(values)|, p, q);
    var ordered := SortedValues(values);
    InterpolatedMonotone(ordered, Position(|ordered|, p), Position(|ordered|, q));
  }

  /** Only the values and how often they occur matter, not their order. */
  lemma PercentileOfMultiset(a: seq<real>, b: seq<real>, p: real)
    requires multiset(a) == multiset(b) && 0.0 <= p <= 1.0
    ensures Percentile(a, p) == Percentile(b, p)
  {
    SortedValuesSorts(a);
    SortedValuesSorts(b);
    OrderedIsUnique(SortedValues(a), SortedValues(b));
    SameSize(a, b);
  }

  // ----- the value itself -----

  lemma InterpolatedValue(s: seq<real>, i: nat, f: real)
    requires i < |s| - 1 && 0.0 <= f <= 1.0
    ensures Interpolated(s, i as real + f) == s[i] + f * (s[i + 1] - s[i])
  {
    hide *;
    InterpolatedShare(s, i, f);
    ShareIs(s[i + 1] - s[i], f);
  }

  lemma InterpolatedShare(s: seq<real>, i: nat, f: real)
    requires i < |s| - 1 && 0.0 <= f <= 1.0
    ensures Interpolated(s, i as real + f) == s[i] + Share(s[i + 1] - s[i], f)
  {
    hide Share;
    var x := i as real + f;
    ShareEnds(s[i + 1] - s[i]);
    assert if f == 1.0 then x.Floor == i + 1 else x.Floor == i;
    assert x - i as real == f;
  }

  lemma ShareIs(gap: real, part: real)
    ensures Share(gap, part) == part * gap
  {}

  lemma ShareEnds(gap: real)
    ensures Share(gap, 0.0) == 0.0 && Share(gap, 1.0) == gap
  {}

  /** The percentile a fraction of the way from one ordered value to the next lies that fraction of the way. */
  lemma PercentileValue(values: seq<real>, s: seq<real>, i: nat, f: real, p: real)
    requires Ordered(s) && multiset(s) == multiset(values)
    requires i < |s| - 1 && 0.0 <= f <= 1.0 && 0.0 <= p <= 1.0 && (|s| - 1) as real * p == i as real + f
    ensures Percentile(values, p) == s[i] + f * (s[i + 1] - s[i])
  {
    hide *;
    PercentileOfOrdered(values, s, p);
    PositionIs(|s|, p, i as real + f);
    InterpolatedValue(s, i, f);
  }

  lemma PercentileOfOrdered(values: seq<real>, s: seq<real>, p: real)
    requires Ordered(s) && multiset(s) == multiset(values) && s != [] && 0.0 <= p <= 1.0
    ensures Percentile(values, p) == Interpolated(s, Position(|s|, p))
  {
    hide Interpolated, Position;
    SortedValuesSorts(values);
    OrderedIsUnique(SortedValues(values), s);
    SameSize(s, values);
  }

  lemma PositionIs(n: nat, p: real, x: real)
    requires n > 0 && 0.0 <= p <= 1.0 && (n - 1) as real * p == x
    ensures Position(n, p) == x
  {}

  lemma ReportPercentileValue(s: seq<real>, i: nat, f: real, p: real)
    requires Ordered(s)
    requires i < |s| - 1 && 0.0 <= f <= 1.0 && 0.0 <= p <= 1.0 && (|s| - 1) as real * p == i as real + f
    ensures ReportPercentile(s, 100.0 * p) == s[i] + f * (s[i + 1] - s[i])
  {
    hide *;
    AgreeOnOrdered(s, p);
    PositionIs(|s|, p, i as real + f);
    InterpolatedValue(s, i, f);
  }

  /** No value gives 0, and one value is every percentile. */
  lemma PercentileOfFew(x: real, p: real)
    requires 0.0 <= p <= 1.0
    ensures Percentile([], p) == 0.0 && Percentile([x], p) == x && ReportPercentile([x], 100.0 * p) == x
  {
    assert SortedValues([]) == [] && SortedValues([x]) == [x];
    PositionOfOne(p);
    InterpolatedAtStart([x]);
  }

  /** Every percentile of two or more values lies between two of them in this way. */
  lemma SomeCell(n: nat, p: real) returns (i: nat, f: real)
    requires n > 1 && 0.0 <= p <= 1.0
    ensures i < n - 1 && 0.0 <= f <= 1.0 && (n - 1) as real * p == i as real + f
  {
    var x := Position(n, p);
    i := if x.Floor == n - 1 then n - 2 else x.Floor;
    f := x - i as real;
  }
}
