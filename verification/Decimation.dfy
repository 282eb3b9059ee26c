/** `downsample`: uniform-stride decimation that keeps the first and the last point. */
module Decimation {
  import opened Results
  import opened SortedSets

  /** Python's `round`: to the nearest whole number, halves to the even one. */
  function Round(x: real): int {
    var f := x.Floor;
    var part := x - f as real;
    if part < 0.5 then f
    else if part > 0.5 then f + 1
    else if f % 2 == 0 then f else f + 1
  }

  function Stride(n: int, maxPoints: int): real
    requires maxPoints > 1
  {
    (n - 1) as real / (maxPoints - 1) as real
  }

  function Times(i: int, stride: real): real {
    i as real * stride
  }

  /** `round(i * stride)` */
  function Index(n: int, maxPoints: int, i: int): int
    requires maxPoints > 1
  {
    Round(Times(i, Stride(n, maxPoints)))
  }

  function Chosen(n: int, maxPoints: int): set<int>
    requires maxPoints > 1
  {
    (set i | 0 <= i < maxPoints :: Index(n, maxPoints, i)) + {0, n - 1}
  }

  /** The points at the indices, those outside the list left out. */
  function PointsAt<T>(points: seq<T>, indices: seq<int>): seq<T> {
    if indices == [] then []
    else
      var last := indices[|indices| - 1];
      PointsAt(points, indices[..|indices| - 1]) + (if 0 <= last < |points| then [points[last]] else [])
  }

  function Downsample<T>(points: seq<T>, maxPoints: int): Result<seq<T>> {
    var n := |points|;
    if maxPoints <= 0 || n <= maxPoints then Ok(points)
    else if maxPoints == 1 then Err("ZeroDivisionError")
    else Ok(PointsAt(points, Sorted(Chosen(n, maxPoints))))
  }

  // ----- rounding -----

  lemma RoundIsNear(x: real)
    ensures x - 0.5 <= Round(x) as real <= x + 0.5
  {}

  lemma RoundStep(x: real, y: real, stride: real)
    requires y == x + stride && stride > 1.0
    ensures Round(x) < Round(y)
    ensures (Round(y) - Round(x)) as real <= stride + 1.0
  {
    RoundIsNear(x);
    RoundIsNear(y);
  }

  lemma RoundOfWhole(k: int, x: real)
    requires x == k as real
    ensures Round(x) == k
  {
    RoundIsNear(x);
  }

  // ----- the indices chosen -----

  lemma StrideAboveOne(n: int, maxPoints: int)
    requires n > maxPoints > 1
    ensures Stride(n, maxPoints) > 1.0
    ensures Times(maxPoints - 1, Stride(n, maxPoints)) == (n - 1) as real
  {
    var a, b := (n - 1) as real, (maxPoints - 1) as real;
    assert b * (a / b) == a;
    if a / b <= 1.0 {
      assert b * (a / b) <= b;
    }
  }

  lemma TimesStep(i: int, stride: real)
    ensures Times(i + 1, stride) == Times(i, stride) + stride
    ensures Times(0, stride) == 0.0
  {}

  lemma IndexStep(n: int, maxPoints: int, i: nat)
    requires n > maxPoints > 1
    ensures Index(n, maxPoints, i) < Index(n, maxPoints, i + 1)
    ensures (Index(n, maxPoints, i + 1) - Index(n, maxPoints, i)) as real <= Stride(n, maxPoints) + 1.0
  {
    StrideAboveOne(n, maxPoints);
    var s := Stride(n, maxPoints);
    TimesStep(i, s);
    RoundStep(Times(i, s), Times(i + 1, s), s);
  }

  lemma {:induction false} IndicesIncrease(n: int, maxPoints: int, i: nat, j: nat)
    requires n > maxPoints > 1 && i < j
    ensures Index(n, maxPoints, i) < Index(n, maxPoints, j)
  {
    IndexStep(n, maxPoints, j - 1);
    if i < j - 1 {
      IndicesIncrease(n, maxPoints, i, j - 1);
    }
  }

  lemma IndexEnds(n: int, maxPoints: int)
    requires n > maxPoints > 1
    ensures Index(n, maxPoints, 0) == 0
    ensures Index(n, maxPoints, maxPoints - 1) == n - 1
  {
    StrideAboveOne(n, maxPoints);
    TimesStep(0, Stride(n, maxPoints));
    RoundOfWhole(0, Times(0, Stride(n, maxPoints)));
    RoundOfWhole(n - 1, Times(maxPoints - 1, Stride(n, maxPoints)));
  }

  lemma IndexInRange(n: int, maxPoints: int, i: nat)
    requires n > maxPoints > 1 && i < maxPoints
    ensures 0 <= Index(n, maxPoints, i) < n
  {
    IndexEnds(n, maxPoints);
    if i > 0 {
      IndicesIncrease(n, maxPoints, 0, i);
    }
    if i < maxPoints - 1 {
      IndicesIncrease(n, maxPoints, i, maxPoints - 1);
    }
  }

  ghost function IndexList(n: int, maxPoints: int): seq<int>
    requires maxPoints > 1
  {
    seq(maxPoints, i requires 0 <= i < maxPoints => Index(n, maxPoints, i))
  }

  lemma ChosenAreIndices(n: int, maxPoints: int)
    requires n > maxPoints > 1
    ensures Sorted(Chosen(n, maxPoints)) == IndexList(n, maxPoints)
  {
    var list := IndexList(n, maxPoints);
    forall i, j | 0 <= i < j < |list| ensures list[i] < list[j] {
      IndicesIncrease(n, maxPoints, i, j);
    }
    IndexEnds(n, maxPoints);
    assert list[0] == 0 && list[maxPoints - 1] == n - 1;
    forall t ensures t in list <==> t in Chosen(n, maxPoints) {
      if t in list {
        var i :| 0 <= i < |list| && list[i] == t;
      }
      if i :| 0 <= i < maxPoints && t == Index(n, maxPoints, i) {
        assert list[i] == t;
      }
    }
    SortedIs(Chosen(n, maxPoints), list);
  }

  lemma {:induction false} PointsAtAll<T>(points: seq<T>, indices: seq<int>)
    requires forall i :: 0 <= i < |indices| ==> 0 <= indices[i] < |points|
    ensures |PointsAt(points, indices)| == |indices|
    ensures forall i :: 0 <= i < |indices| ==> PointsAt(points, indices)[i] == points[indices[i]]
  {
    if indices != [] {
      PointsAtAll(points, indices[..|indices| - 1]);
    }
  }

  /**
   When it decimates to at least two points it returns exactly `maxPoints` of them, in order and at
   strictly increasing indices, the first and the last included, no two more than stride + 1 apart.
   */
  lemma DecimationIsEven<T>(points: seq<T>, maxPoints: int)
    requires |points| > maxPoints > 1
    ensures Downsample(points, maxPoints).Ok?
    ensures var n, kept := |points|, Downsample(points, maxPoints).value;
      && |kept| == maxPoints
      && (forall i :: 0 <= i < maxPoints ==>
            0 <= Index(n, maxPoints, i) < n && kept[i] == points[Index(n, maxPoints, i)])
      && kept[0] == points[0] && kept[maxPoints - 1] == points[n - 1]
      && (forall i, j :: 0 <= i < j < maxPoints ==> Index(n, maxPoints, i) < Index(n, maxPoints, j))
      && (forall i :: 0 <= i < maxPoints - 1 ==>
            (Index(n, maxPoints, i + 1) - Index(n, maxPoints, i)) as real <= Stride(n, maxPoints) + 1.0)
  {
    var n := |points|;
    ChosenAreIndices(n, maxPoints);
    forall i | 0 <= i < maxPoints ensures 0 <= Index(n, maxPoints, i) < n {
      IndexInRange(n, maxPoints, i);
    }
    PointsAtAll(points, IndexList(n, maxPoints));
    IndexEnds(n, maxPoints);
    forall i, j | 0 <= i < j < maxPoints ensures Index(n, maxPoints, i) < Index(n, maxPoints, j) {
      IndicesIncrease(n, maxPoints, i, j);
    }
    forall i | 0 <= i < maxPoints - 1
      ensures (Index(n, maxPoints, i + 1) - Index(n, maxPoints, i)) as real <= Stride(n, maxPoints) + 1.0
    {
      IndexStep(n, maxPoints, i);
    }
  }

  /** It never returns more than `maxPoints`, and fails exactly when asked to decimate to a single point. */
  lemma DecimationFails<T>(points: seq<T>, maxPoints: int)
    ensures Downsample(points, maxPoints).Err? <==> maxPoints == 1 && |points| > 1
    ensures Downsample(points, maxPoints).Ok? && maxPoints > 0 ==> |Downsample(points, maxPoints).value| <= maxPoints
  {
    if |points| > maxPoints > 1 {
      DecimationIsEven(points, maxPoints);
    }
  }

  /** A list within the limit comes back as it is, and so does any list without a limit. */
  lemma WithinTheLimit<T>(points: seq<T>, maxPoints: int)
    requires maxPoints <= 0 || |points| <= maxPoints
    ensures Downsample(points, maxPoints) == Ok(points)
  {}

  // ----- the indices are nearest -----

  /** The nearest whole number, and of two the even one. */
  lemma RoundIsNearest(x: real)
    ensures -0.5 <= Round(x) as real - x <= 0.5
    ensures Round(x) as real - x == 0.5 || x - Round(x) as real == 0.5 ==> Round(x) % 2 == 0
  {}

  /** The i-th index is the whole number nearest to `i * (n - 1) / (maxPoints - 1)`, and of two the even one. */
  lemma IndexIsNearest(n: int, maxPoints: int, i: int)
    requires n > maxPoints > 1
    ensures var k, steps := Index(n, maxPoints, i), maxPoints - 1;
      var off := 2 * (k * steps - i * (n - 1));
      -steps <= off <= steps && (off == steps || off == -steps ==> k % 2 == 0)
  {
    var k, steps, whole := Index(n, maxPoints, i), maxPoints - 1, i * (n - 1);
    var x := Times(i, Stride(n, maxPoints));
    RoundIsNearest(x);
    TimesSteps(n, maxPoints, i);
    ScaledGap(k, x, steps, whole);
  }

  ghost function Scaled(x: real, steps: real): real {
    x * steps
  }

  lemma TimesSteps(n: int, maxPoints: int, i: int)
    requires maxPoints > 1
    ensures Scaled(Times(i, Stride(n, maxPoints)), (maxPoints - 1) as real) == (i * (n - 1)) as real
  {
    var a, b := (n - 1) as real, (maxPoints - 1) as real;
    assert a / b * b == a;
    assert i as real * (a / b) * b == i as real * (a / b * b);
  }

  lemma ScaledGap(k: int, x: real, steps: int, whole: int)
    requires steps > 0 && Scaled(x, steps as real) == whole as real && -0.5 <= k as real - x <= 0.5
    ensures var off := 2 * (k * steps - whole);
      && -steps <= off <= steps
      && (off == steps ==> k as real - x == 0.5) && (off == -steps ==> x - k as real == 0.5)
  {
    hide *;
    ProductAsReal(k, steps);
    HalfScaled(k as real - x, steps as real);
    Distributes(k as real, x, steps as real);
    InReals(k * steps, steps, whole, Scaled(k as real - x, steps as real));
  }

  lemma InReals(product: int, steps: int, whole: int, gap: real)
    requires gap == product as real - whole as real && -(steps as real) <= 2.0 * gap <= steps as real
    ensures -steps <= 2 * (product - whole) <= steps
    ensures 2 * (product - whole) == steps ==> 2.0 * gap == steps as real
    ensures 2 * (product - whole) == -steps ==> 2.0 * gap == -(steps as real)
  {
    assert (2 * (product - whole)) as real == 2.0 * gap;
  }

  lemma ProductAsReal(k: int, steps: int)
    ensures (k * steps) as real == Scaled(k as real, steps as real)
  {}

  lemma Distributes(k: real, x: real, s: real)
    ensures Scaled(k - x, s) == Scaled(k, s) - Scaled(x, s)
  {}

  lemma HalfScaled(gap: real, s: real)
    requires s > 0.0 && -0.5 <= gap <= 0.5
    ensures -s <= 2.0 * Scaled(gap, s) <= s
    ensures (2.0 * Scaled(gap, s) == s ==> gap == 0.5) && (2.0 * Scaled(gap, s) == -s ==> gap == -0.5)
  {
    assert (0.5 - gap) * s >= 0.0 && (gap + 0.5) * s >= 0.0;
    assert gap < 0.5 ==> (0.5 - gap) * s > 0.0;
    assert gap > -0.5 ==> (gap + 0.5) * s > 0.0;
  }
}
