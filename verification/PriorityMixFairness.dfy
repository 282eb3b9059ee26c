/** What the credits promise: fairness, absence of starvation, exact shares and periodicity. */
module PriorityMixFairness {
  import opened PriorityMix

  ghost predicate PositiveWeights(w: seq<real>) {
    w != [] && forall i :: 0 <= i < |w| ==> w[i] > 0.0
  }

  /** How many of the first `n` requests picked class `i`. */
  ghost function Count(w: seq<real>, n: nat, i: nat): nat
    requires w != []
  {
    if n == 0 then 0 else Count(w, n - 1, i) + (if Pick(w, n - 1) == i then 1 else 0)
  }

  /** The class picked has the greatest charged credit, and every class listed before it has less. */
  lemma {:induction false} PickIsFirstGreatest(w: seq<real>, n: nat, k: nat)
    requires 0 < k <= |w|
    ensures forall i :: 0 <= i < k ==> Charged(w, n, i) <= Charged(w, n, FirstGreatest(w, n, k))
    ensures forall i :: 0 <= i < FirstGreatest(w, n, k) ==> Charged(w, n, i) < Charged(w, n, FirstGreatest(w, n, k))
  {
    if k > 1 {
      PickIsFirstGreatest(w, n, k - 1);
    }
  }

  // ----- whole multiples, kept linear for the solver -----

  /** n times x */
  ghost function Times(n: nat, x: real): real {
    if n == 0 then 0.0 else Times(n - 1, x) + x
  }

  lemma {:induction false} TimesIsProduct(n: nat, x: real)
    ensures Times(n, x) == n as real * x
  {
    if n > 0 {
      TimesIsProduct(n - 1, x);
      assert n as real * x == (n - 1) as real * x + x;
    }
  }

  lemma {:induction false} TimesAdds(n: nat, x: real, y: real)
    ensures Times(n, x + y) == Times(n, x) + Times(n, y)
    ensures y >= 0.0 ==> Times(n, y) >= 0.0
    ensures x <= 0.0 ==> Times(n, x) <= 0.0
  {
    if n > 0 {
      TimesAdds(n - 1, x, y);
    }
  }

  lemma {:induction false} TimesSum(m: nat, n: nat, x: real)
    ensures Times(m + n, x) == Times(m, x) + Times(n, x)
  {
    if n > 0 {
      TimesSum(m, n - 1, x);
    }
  }

  // ----- sums over sets of classes -----

  ghost function AllClasses(k: nat): (s: set<nat>)
    ensures forall i: nat :: i in s <==> i < k
    ensures |s| == k
  {
    if k == 0 then {} else AllClasses(k - 1) + {k - 1}
  }

  /** The weights of the classes `i < k` in `s`. */
  ghost function WeightOf(w: seq<real>, s: set<nat>, k: nat): real
    requires k <= |w|
  {
    if k == 0 then 0.0 else WeightOf(w, s, k - 1) + (if k - 1 in s then w[k - 1] else 0.0)
  }

  /** The credits held before request `n` by the classes `i < k` in `s`. */
  ghost function Held(w: seq<real>, n: nat, s: set<nat>, k: nat): real
    requires k <= |w|
  {
    if k == 0 then 0.0 else Held(w, n, s, k - 1) + (if k - 1 in s then Credit(w, n, k - 1) else 0.0)
  }

  lemma {:induction false} HeldStep(w: seq<real>, n: nat, s: set<nat>, k: nat)
    requires k <= |w| && w != []
    ensures Held(w, n + 1, s, k)
         == Held(w, n, s, k) + WeightOf(w, s, k) - (if Pick(w, n) in s && Pick(w, n) < k then Total(w) else 0.0)
  {
    if k > 0 {
      HeldStep(w, n, s, k - 1);
    }
  }

  lemma {:induction false} HeldAtStart(w: seq<real>, s: set<nat>, k: nat)
    requires k <= |w|
    ensures Held(w, 0, s, k) == 0.0
  {
    if k > 0 {
      HeldAtStart(w, s, k - 1);
    }
  }

  lemma {:induction false} OneMoreClass(w: seq<real>, n: nat, s: set<nat>, k: nat, i: nat)
    requires k <= |w| && i !in s && i < |w|
    ensures Held(w, n, s + {i}, k) == Held(w, n, s, k) + (if i < k then Credit(w, n, i) else 0.0)
    ensures WeightOf(w, s + {i}, k) == WeightOf(w, s, k) + (if i < k then w[i] else 0.0)
  {
    if k > 0 {
      OneMoreClass(w, n, s, k - 1, i);
    }
  }

  lemma {:induction false} NoClasses(w: seq<real>, n: nat, k: nat)
    requires k <= |w|
    ensures Held(w, n, {}, k) == WeightOf(w, {}, k) == 0.0
  {
    if k > 0 {
      NoClasses(w, n, k - 1);
    }
  }

  lemma {:induction false} WeightOfPart(w: seq<real>, s: set<nat>, k: nat)
    requires PositiveWeights(w) && k <= |w|
    ensures WeightOf(w, s, k) <= Sum(w, k)
  {
    if k > 0 {
      WeightOfPart(w, s, k - 1);
    }
  }

  lemma {:induction false} WeightOfAll(w: seq<real>, k: nat)
    requires k <= |w|
    ensures WeightOf(w, AllClasses(|w|), k) == Sum(w, k)
  {
    if k > 0 {
      WeightOfAll(w, k - 1);
    }
  }

  lemma {:induction false} ChargedAtMost(w: seq<real>, n: nat, s: set<nat>, k: nat, m: real)
    requires k <= |w| && forall i :: i in s && i < k ==> Charged(w, n, i) <= m
    ensures Held(w, n, s, k) + WeightOf(w, s, k) <= Times(|set i | i in s && i < k|, m)
  {
    if k > 0 {
      ChargedAtMost(w, n, s, k - 1, m);
      var below, upto := set i | i in s && i < k - 1, set i | i in s && i < k;
      if k - 1 in s {
        assert upto == below + {k - 1};
      } else {
        assert upto == below;
      }
    }
  }

  lemma PositiveTotal(w: seq<real>, i: nat)
    requires PositiveWeights(w) && i < |w|
    ensures Total(w) >= w[i] > 0.0
  {
    OneMoreClass(w, 0, {}, |w|, i);
    NoClasses(w, 0, |w|);
    WeightOfPart(w, {} + {i}, |w|);
  }

  // ----- the credit ledger -----

  /** Credits are a ledger: charged once per request, debited the total weight per pick. */
  lemma {:induction false} CreditLedger(w: seq<real>, n: nat, i: nat)
    requires i < |w|
    ensures Credit(w, n, i) == Times(n, w[i]) - Times(Count(w, n, i), Total(w))
  {
    if n > 0 {
      CreditLedger(w, n - 1, i);
    }
  }

  lemma {:induction false} CreditsSumToZero(w: seq<real>, n: nat)
    requires w != []
    ensures Held(w, n, AllClasses(|w|), |w|) == 0.0
  {
    if n == 0 {
      HeldAtStart(w, AllClasses(|w|), |w|);
    } else {
      CreditsSumToZero(w, n - 1);
      HeldStep(w, n - 1, AllClasses(|w|), |w|);
      WeightOfAll(w, |w|);
    }
  }

  /** No class ever owes a whole round: every credit stays above minus the total weight. */
  lemma {:induction false} CreditAboveMinusTotal(w: seq<real>, n: nat, i: nat)
    requires PositiveWeights(w) && i < |w|
    ensures Credit(w, n, i) > -Total(w)
  {
    PositiveTotal(w, i);
    if n > 0 {
      CreditAboveMinusTotal(w, n - 1, i);
      if Pick(w, n - 1) == i {
        PickedIsPositive(w, n - 1);
      }
    }
  }

  /** The greatest charged credit is positive, because the charged credits sum to the total weight. */
  lemma PickedIsPositive(w: seq<real>, n: nat)
    requires PositiveWeights(w)
    ensures Charged(w, n, Pick(w, n)) > 0.0
  {
    var all, k, m := AllClasses(|w|), |w|, Charged(w, n, Pick(w, n));
    CreditsSumToZero(w, n);
    WeightOfAll(w, k);
    PositiveTotal(w, 0);
    PickIsFirstGreatest(w, n, k);
    ChargedAtMost(w, n, all, k, m);
    TimesAdds(|set i | i in all && i < k|, m, 0.0);
  }

  // ----- the harmonic bound -----

  /** total/(j+1) + ... + total/k */
  ghost function HarmonicTail(j: nat, k: nat, total: real): (h: real)
    ensures total > 0.0 ==> h >= 0.0
    decreases k - j
  {
    if j >= k then 0.0 else total / (j + 1) as real + HarmonicTail(j + 1, k, total)
  }

  /** What j of k classes of the given total weight can hold together: j total (1/(j+1) + ... + 1/k). */
  ghost function SetBound(j: nat, k: nat, total: real): real {
    Times(j, HarmonicTail(j, k, total))
  }

  lemma BoundStep(j: nat, k: nat, total: real)
    requires j < k
    ensures SetBound(j + 1, k, total) + total == SetBound(j, k, total) + HarmonicTail(j, k, total)
  {
    var part := total / (j + 1) as real;
    TimesAdds(j + 1, HarmonicTail(j + 1, k, total), part);
    TimesIsProduct(j + 1, part);
  }

  /** If j classes hold at most j m, and with one more class holding m stay within bound, they are within theirs. */
  lemma AverageBelowGreatest(j: nat, k: nat, total: real, sum: real, m: real)
    requires j < k
    requires sum <= Times(j, m)
    requires sum + m <= SetBound(j + 1, k, total) + total
    ensures sum <= SetBound(j, k, total)
  {
    var a := HarmonicTail(j, k, total);
    BoundStep(j, k, total);
    TimesAdds(j, m, a - m);
    assert m + (a - m) == a;
  }

  lemma {:induction false} SizeBelow(s: set<nat>, k: nat)
    requires forall i :: i in s ==> i < k
    ensures |s| <= k
  {
    if k > 0 {
      SizeBelow(s - {k - 1}, k - 1);
    } else {
      assert s == {};
    }
  }

  /** The inductive invariant: j classes together never hold more than their bound. */
  lemma {:induction false} SetOfClassesBound(w: seq<real>, n: nat, s: set<nat>)
    requires PositiveWeights(w)
    requires forall i :: i in s ==> i < |w|
    ensures Held(w, n, s, |w|) <= SetBound(|s|, |w|, Total(w))
    decreases n, 0
  {
    var k := |w|;
    PositiveTotal(w, 0);
    if n == 0 {
      HeldAtStart(w, s, k);
      TimesAdds(|s|, 0.0, HarmonicTail(|s|, k, Total(w)));
    } else if Pick(w, n - 1) in s {
      HeldStep(w, n - 1, s, k);
      SetOfClassesBound(w, n - 1, s);
      WeightOfPart(w, s, k);
    } else {
      HeldStep(w, n - 1, s, k);
      SetWithoutPick(w, n - 1, s);
    }
  }

  lemma {:induction false} SetWithoutPick(w: seq<real>, n: nat, s: set<nat>)
    requires PositiveWeights(w) && Pick(w, n) !in s
    requires forall i :: i in s ==> i < |w|
    ensures Held(w, n, s, |w|) + WeightOf(w, s, |w|) <= SetBound(|s|, |w|, Total(w))
    decreases n, 1
  {
    var k, p := |w|, Pick(w, n);
    var more := s + {p};
    SetOfClassesBound(w, n, more);
    WeightOfPart(w, more, k);
    OneMoreClass(w, n, s, k, p);
    PickIsFirstGreatest(w, n, k);
    ChargedAtMost(w, n, s, k, Charged(w, n, p));
    assert (set i | i in s && i < k) == s;
    SizeBelow(more, k);
    assert |more| == |s| + 1;
    AverageBelowGreatest(|s|, k, Total(w), Held(w, n, s, k) + WeightOf(w, s, k), Charged(w, n, p));
  }

  /** W/2 + ... + W/k for k classes of total weight W */
  ghost function CreditCap(w: seq<real>): real {
    HarmonicTail(1, |w|, Total(w))
  }

  /** Every credit is at most W (1/2 + ... + 1/k). */
  lemma CreditBound(w: seq<real>, n: nat, i: nat)
    requires PositiveWeights(w) && i < |w|
    ensures Credit(w, n, i) <= CreditCap(w)
  {
    var one := {} + {i};
    SetOfClassesBound(w, n, one);
    OneMoreClass(w, n, {}, |w|, i);
    NoClasses(w, n, |w|);
    assert |one| == 1;
    assert SetBound(1, |w|, Total(w)) == Times(0, CreditCap(w)) + CreditCap(w);
  }

  /**
   After any number n of requests, class i has been picked at least n w_i / W - (H_k - 1) times
   and fewer than n w_i / W + 1 times (stated multiplied by the total weight W; `Times(n, x)` is n x).
   */
  lemma ProportionalShare(w: seq<real>, n: nat, i: nat)
    requires PositiveWeights(w) && i < |w|
    ensures Times(Count(w, n, i), Total(w)) >= Times(n, w[i]) - CreditCap(w)
    ensures Times(Count(w, n, i), Total(w)) < Times(n, w[i]) + Total(w)
  {
    CreditLedger(w, n, i);
    CreditBound(w, n, i);
    CreditAboveMinusTotal(w, n, i);
  }

  /** No starvation: a class is picked in every run of requests long enough to earn it H_k picks. */
  lemma NoStarvation(w: seq<real>, from: nat, length: nat, i: nat)
    requires PositiveWeights(w) && i < |w|
    requires length as real * w[i] >= Total(w) + CreditCap(w)
    ensures exists n :: from <= n < from + length && Pick(w, n) == i
  {
    TimesIsProduct(length, w[i]);
    PickedMoreOften(w, from, length, i);
    PickedBetween(w, from, from + length, i);
  }

  lemma PickedMoreOften(w: seq<real>, from: nat, length: nat, i: nat)
    requires PositiveWeights(w) && i < |w|
    requires Times(length, w[i]) >= Total(w) + CreditCap(w)
    ensures Count(w, from, i) < Count(w, from + length, i)
  {
    var a, b := Count(w, from, i), Count(w, from + length, i);
    CreditLedger(w, from, i);
    CreditLedger(w, from + length, i);
    CreditBound(w, from + length, i);
    CreditAboveMinusTotal(w, from, i);
    TimesSum(from, length, w[i]);
    if b <= a {
      PositiveTotal(w, i);
      TimesSum(b, a - b, Total(w));
      TimesAdds(a - b, 0.0, Total(w));
    }
  }

  lemma {:induction false} PickedBetween(w: seq<real>, a: nat, b: nat, i: nat)
    requires w != [] && a <= b && Count(w, a, i) < Count(w, b, i)
    ensures exists n :: a <= n < b && Pick(w, n) == i
  {
    if Pick(w, b - 1) != i {
      PickedBetween(w, a, b - 1, i);
    }
  }

  // ----- exact shares, periodicity and scaling -----

  /** Weights that are whole multiples `m[i]` of a common unit `u`; `u` is 1 for whole-number weights. */
  ghost predicate WholeShares(w: seq<real>, m: seq<nat>, u: real) {
    && |w| == |m| > 0
    && u > 0.0
    && forall i :: 0 <= i < |w| ==> m[i] > 0 && w[i] == m[i] as real * u
  }

  ghost function NatSum(m: seq<nat>, k: nat): nat
    requires k <= |m|
  {
    if k == 0 then 0 else NatSum(m, k - 1) + m[k - 1]
  }

  ghost function Period(m: seq<nat>): nat {
    NatSum(m, |m|)
  }

  lemma {:induction false} SumOfWholeShares(w: seq<real>, m: seq<nat>, u: real, k: nat)
    requires WholeShares(w, m, u) && k <= |m|
    ensures Sum(w, k) == NatSum(m, k) as real * u
  {
    if k > 0 {
      SumOfWholeShares(w, m, u, k - 1);
      assert NatSum(m, k) as real == NatSum(m, k - 1) as real + m[k - 1] as real;
    }
  }

  lemma WholeSharesArePositive(w: seq<real>, m: seq<nat>, u: real)
    requires WholeShares(w, m, u)
    ensures PositiveWeights(w)
  {
    forall i | 0 <= i < |w| ensures w[i] > 0.0 {
      assert m[i] as real * u > 0.0;
    }
  }

  /** The picks of the first `n` requests that fell on the classes below `k`. */
  ghost function CountSum(w: seq<real>, n: nat, k: nat): nat
    requires w != []
  {
    if k == 0 then 0 else CountSum(w, n, k - 1) + Count(w, n, k - 1)
  }

  lemma {:induction false} CountSumStep(w: seq<real>, n: nat, k: nat)
    requires w != []
    ensures CountSum(w, n + 1, k) == CountSum(w, n, k) + (if Pick(w, n) < k then 1 else 0)
    ensures CountSum(w, 0, k) == 0
  {
    if k > 0 {
      CountSumStep(w, n, k - 1);
    }
  }

  lemma {:induction false} EveryRequestCounted(w: seq<real>, n: nat)
    requires w != []
    ensures CountSum(w, n, |w|) == n
  {
    if n > 0 {
      EveryRequestCounted(w, n - 1);
      CountSumStep(w, n - 1, |w|);
    } else {
      CountSumStep(w, 0, |w|);
    }
  }

  lemma {:induction false} EqualIfBelowAndSameSum(w: seq<real>, m: seq<nat>, n: nat, k: nat)
    requires w != [] && k <= |m|
    requires forall i :: 0 <= i < k ==> Count(w, n, i) <= m[i]
    ensures CountSum(w, n, k) <= NatSum(m, k)
    ensures CountSum(w, n, k) == NatSum(m, k) ==> forall i :: 0 <= i < k ==> Count(w, n, i) == m[i]
  {
    if k > 0 {
      EqualIfBelowAndSameSum(w, m, n, k - 1);
    }
  }

  lemma TimesSwap(n: nat, m: nat, u: real, x: real, y: real)
    requires x == m as real * u && y == n as real * u
    ensures Times(n, x) == Times(m, y)
  {
    TimesIsProduct(n, x);
    TimesIsProduct(m, y);
    assert n as real * (m as real * u) == m as real * (n as real * u);
  }

  lemma DueAtPeriod(w: seq<real>, m: seq<nat>, u: real, i: nat)
    requires WholeShares(w, m, u) && i < |w|
    ensures Times(Period(m), w[i]) == Times(m[i], Total(w))
  {
    SumOfWholeShares(w, m, u, |m|);
    TimesSwap(Period(m), m[i], u, w[i], Total(w));
  }

  lemma CountWithinShare(w: seq<real>, m: seq<nat>, u: real, i: nat)
    requires WholeShares(w, m, u) && i < |w|
    ensures Count(w, Period(m), i) <= m[i]
  {
    var n, total, count := Period(m), Total(w), Count(w, Period(m), i);
    WholeSharesArePositive(w, m, u);
    DueAtPeriod(w, m, u, i);
    PositiveTotal(w, i);
    CreditLedger(w, n, i);
    CreditAboveMinusTotal(w, n, i);
    if count > m[i] {
      TimesSum(m[i] + 1, count - m[i] - 1, total);
      TimesAdds(count - m[i] - 1, 0.0, total);
    }
  }

  lemma CreditSettled(w: seq<real>, m: seq<nat>, u: real, i: nat)
    requires WholeShares(w, m, u) && i < |m| && Count(w, Period(m), i) == m[i]
    ensures Credit(w, Period(m), i) == 0.0
  {
    DueAtPeriod(w, m, u, i);
    CreditLedger(w, Period(m), i);
  }

  /** In the first W requests every class gets exactly its weight, and the credits are all back at 0. */
  lemma ExactShare(w: seq<real>, m: seq<nat>, u: real)
    requires WholeShares(w, m, u)
    ensures forall i :: 0 <= i < |m| ==> Count(w, Period(m), i) == m[i]
    ensures forall i :: 0 <= i < |m| ==> Credit(w, Period(m), i) == 0.0
  {
    var n := Period(m);
    forall i | 0 <= i < |m| ensures Count(w, n, i) <= m[i] {
      CountWithinShare(w, m, u, i);
    }
    EveryRequestCounted(w, n);
    EqualIfBelowAndSameSum(w, m, n, |m|);
    forall i | 0 <= i < |m| ensures Credit(w, n, i) == 0.0 {
      CreditSettled(w, m, u, i);
    }
  }

  lemma {:induction false} SameCreditsSamePick(w: seq<real>, a: nat, b: nat, k: nat)
    requires 0 < k <= |w| && forall i :: 0 <= i < |w| ==> Credit(w, a, i) == Credit(w, b, i)
    ensures FirstGreatest(w, a, k) == FirstGreatest(w, b, k)
  {
    if k > 1 {
      SameCreditsSamePick(w, a, b, k - 1);
      var r := FirstGreatest(w, a, k - 1);
      assert Charged(w, a, r) == Charged(w, b, r) && Charged(w, a, k - 1) == Charged(w, b, k - 1);
    }
  }

  lemma {:induction false} CreditsRepeat(w: seq<real>, p: nat, n: nat)
    requires w != [] && forall i :: 0 <= i < |w| ==> Credit(w, p, i) == 0.0
    ensures forall i :: 0 <= i < |w| ==> Credit(w, p + n, i) == Credit(w, n, i)
  {
    if n > 0 {
      CreditsRepeat(w, p, n - 1);
      SameCreditsSamePick(w, p + n - 1, n - 1, |w|);
    }
  }

  /** The schedule repeats with period W, so every window of W requests is shared exactly by weight. */
  lemma Periodic(w: seq<real>, m: seq<nat>, u: real, n: nat)
    requires WholeShares(w, m, u)
    ensures Pick(w, Period(m) + n) == Pick(w, n)
    ensures forall i :: 0 <= i < |m| ==> Count(w, Period(m) + n, i) == Count(w, n, i) + m[i]
  {
    ExactShare(w, m, u);
    CreditsRepeat(w, Period(m), n);
    SameCreditsSamePick(w, Period(m) + n, n, |w|);
    if n > 0 {
      Periodic(w, m, u, n - 1);
    }
  }

  lemma {:induction false} SameOrderSamePick(v: seq<real>, w: seq<real>, n: nat, k: nat)
    requires 0 < k <= |w| == |v|
    requires forall i, j :: 0 <= i < |w| && 0 <= j < |w| ==>
      (Charged(v, n, i) > Charged(v, n, j) <==> Charged(w, n, i) > Charged(w, n, j))
    ensures FirstGreatest(v, n, k) == FirstGreatest(w, n, k)
  {
    if k > 1 {
      SameOrderSamePick(v, w, n, k - 1);
      var r := FirstGreatest(w, n, k - 1);
      assert Charged(v, n, k - 1) > Charged(v, n, r) <==> Charged(w, n, k - 1) > Charged(w, n, r);
    }
  }

  // These two name the terms on which the laws of a change of scale are applied.
  ghost function Plus(x: real, y: real): real { x + y }
  ghost predicate Above(x: real, y: real) { x > y }

  /** A change of scale: additive and strictly increasing, like multiplication by a positive constant. */
  ghost predicate Scaling(f: real -> real) {
    && (forall x, y {:trigger Plus(x, y)} :: f(Plus(x, y)) == f(x) + f(y))
    && (forall x, y {:trigger Above(x, y)} :: Above(x, y) <==> f(x) > f(y))
  }

  ghost predicate IsScaled(v: seq<real>, w: seq<real>, f: real -> real) {
    |v| == |w| && forall i :: 0 <= i < |w| ==> v[i] == f(w[i])
  }

  lemma {:induction false} ScaledSum(v: seq<real>, w: seq<real>, f: real -> real, k: nat)
    requires Scaling(f) && IsScaled(v, w, f) && k <= |w|
    ensures Sum(v, k) == f(Sum(w, k))
  {
    if k > 0 {
      ScaledSum(v, w, f, k - 1);
      assert Plus(Sum(w, k - 1), w[k - 1]) == Sum(w, k);
    } else {
      assert Plus(0.0, 0.0) == 0.0;
    }
  }

  lemma ScaledStep(v: seq<real>, w: seq<real>, f: real -> real, n: nat, i: nat)
    requires Scaling(f) && IsScaled(v, w, f) && i < |w|
    requires Credit(v, n, i) == f(Credit(w, n, i)) && Pick(v, n) == Pick(w, n)
    ensures Credit(v, n + 1, i) == f(Credit(w, n + 1, i))
  {
    ScaledSum(v, w, f, |w|);
    var charged := Plus(Credit(w, n, i), w[i]);
    assert Plus(charged - Total(w), Total(w)) == charged;
  }

  lemma ScaledSamePick(v: seq<real>, w: seq<real>, f: real -> real, n: nat)
    requires Scaling(f) && IsScaled(v, w, f) && w != []
    requires forall i :: 0 <= i < |w| ==> Credit(v, n, i) == f(Credit(w, n, i))
    ensures Pick(v, n) == Pick(w, n)
  {
    forall i | 0 <= i < |w| ensures Charged(v, n, i) == f(Charged(w, n, i)) {
      assert Charged(w, n, i) == Plus(Credit(w, n, i), w[i]);
    }
    forall i, j | 0 <= i < |w| && 0 <= j < |w|
      ensures Charged(v, n, i) > Charged(v, n, j) <==> Charged(w, n, i) > Charged(w, n, j)
    {
      assert Above(Charged(w, n, i), Charged(w, n, j)) <==> f(Charged(w, n, i)) > f(Charged(w, n, j));
    }
    SameOrderSamePick(v, w, n, |w|);
  }

  lemma {:induction false} ScaledCredits(v: seq<real>, w: seq<real>, f: real -> real, n: nat)
    requires Scaling(f) && IsScaled(v, w, f) && w != []
    ensures forall i :: 0 <= i < |w| ==> Credit(v, n, i) == f(Credit(w, n, i))
  {
    if n == 0 {
      assert Plus(0.0, 0.0) == 0.0;
    } else {
      ScaledCredits(v, w, f, n - 1);
      ScaledSamePick(v, w, f, n - 1);
      forall i | 0 <= i < |w| ensures Credit(v, n, i) == f(Credit(w, n, i)) {
        ScaledStep(v, w, f, n - 1, i);
      }
    }
  }

  lemma MultiplicationScales(a: real)
    requires a > 0.0
    ensures Scaling(x => x * a)
  {
    var f := x => x * a;
    forall x, y ensures f(Plus(x, y)) == f(x) + f(y) {}
    forall x, y ensures Above(x, y) <==> f(x) > f(y) {
      ProductOrder(x, y, a);
    }
  }

  lemma ProductOrder(x: real, y: real, a: real)
    requires a > 0.0
    ensures x > y <==> x * a > y * a
  {
    if x > y {
      assert (x - y) * a > 0.0;
    } else {
      assert (y - x) * a >= 0.0;
    }
  }

  /** Only the ratios of the weights matter: scaling them all leaves the schedule as it was. */
  lemma ScalingKeepsSchedule(v: seq<real>, w: seq<real>, a: real, n: nat)
    requires |v| == |w| > 0 && a > 0.0
    requires forall i :: 0 <= i < |w| ==> v[i] == w[i] * a
    ensures Pick(v, n) == Pick(w, n)
  {
    MultiplicationScales(a);
    var f := x => x * a;
    ScaledCredits(v, w, f, n);
    ScaledSamePick(v, w, f, n);
  }

  // ----- the schedule itself -----

  ghost function WeightOfAllClasses(classes: seq<TrafficClass>): real {
    if classes == [] then 0.0
    else WeightOfAllClasses(classes[..|classes| - 1]) + classes[|classes| - 1].weight
  }

  lemma {:induction false} WeightsAddUp(classes: seq<TrafficClass>, k: nat)
    requires k <= |classes|
    ensures WeightOfAllClasses(classes[..k]) == Sum(Weights(classes), k)
  {
    if k > 0 {
      WeightsAddUp(classes, k - 1);
      assert classes[..k][..k - 1] == classes[..k - 1];
    }
  }

  ghost predicate ClassesDiffer(classes: seq<TrafficClass>) {
    forall i, j :: 0 <= i < j < |classes| ==> classes[i] != classes[j]
  }

  /** The schedule follows the picks, as WeightedSchedule ensures. */
  ghost predicate FollowsPicks(classes: seq<TrafficClass>, schedule: seq<TrafficClass>) {
    && classes != []
    && forall n :: 0 <= n < |schedule| ==> schedule[n] == classes[Pick(Weights(classes), n)]
  }

  lemma {:induction false} ScheduledIsCount(classes: seq<TrafficClass>, schedule: seq<TrafficClass>, n: nat, i: nat)
    requires FollowsPicks(classes, schedule) && ClassesDiffer(classes) && n <= |schedule| && i < |classes|
    ensures multiset(schedule[..n])[classes[i]] == Count(Weights(classes), n, i)
  {
    if n > 0 {
      ScheduledIsCount(classes, schedule, n - 1, i);
      assert schedule[..n] == schedule[..n - 1] + [schedule[n - 1]];
      var pick := Pick(Weights(classes), n - 1);
      assert pick != i ==> classes[pick] != classes[i];
    }
  }

  /**
   In every schedule of n requests over different classes of total weight W, a class of weight c occurs
   at least n c / W - (1/2 + ... + 1/k) times and fewer than n c / W + 1 times (stated multiplied by W).
   */
  lemma ScheduleShares(classes: seq<TrafficClass>, schedule: seq<TrafficClass>, i: nat)
    requires FollowsPicks(classes, schedule) && ClassesDiffer(classes) && i < |classes|
    requires forall j :: 0 <= j < |classes| ==> classes[j].weight > 0.0
    ensures var total, served := WeightOfAllClasses(classes), multiset(schedule)[classes[i]];
      && served as real * total < |schedule| as real * classes[i].weight + total
      && served as real * total >= |schedule| as real * classes[i].weight - HarmonicTail(1, |classes|, total)
  {
    hide *;
    ShareOfSchedule(classes, schedule, i);
    TimesIsProduct(multiset(schedule)[classes[i]], WeightOfAllClasses(classes));
    TimesIsProduct(|schedule|, classes[i].weight);
  }

  lemma ShareOfSchedule(classes: seq<TrafficClass>, schedule: seq<TrafficClass>, i: nat)
    requires FollowsPicks(classes, schedule) && ClassesDiffer(classes) && i < |classes|
    requires forall j :: 0 <= j < |classes| ==> classes[j].weight > 0.0
    ensures var total, served := WeightOfAllClasses(classes), multiset(schedule)[classes[i]];
      && Times(served, total) < Times(|schedule|, classes[i].weight) + total
      && Times(served, total) >= Times(|schedule|, classes[i].weight) - HarmonicTail(1, |classes|, total)
  {
    hide Times, HarmonicTail, Pick, Count;
    var w, n := Weights(classes), |schedule|;
    assert classes[..|classes|] == classes && schedule[..n] == schedule;
    WeightsAddUp(classes, |classes|);
    ScheduledIsCount(classes, schedule, n, i);
    ProportionalShare(w, n, i);
  }
}
