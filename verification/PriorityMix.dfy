/**
 Smooth weighted round robin, as `weighted_schedule` runs it: every request
 charges each class with its weight, the first class of greatest credit is
 picked, and the pick pays back the total weight.
 */
module PriorityMix {
  import opened Results

  datatype TrafficClass = TrafficClass(name: string, weight: real)

  function Weights(classes: seq<TrafficClass>): (w: seq<real>)
    ensures |w| == |classes|
  {
    seq(|classes|, i requires 0 <= i < |classes| => classes[i].weight)
  }

  function Sum(w: seq<real>, k: nat): real
    requires k <= |w|
  {
    if k == 0 then 0.0 else Sum(w, k - 1) + w[k - 1]
  }

  function Total(w: seq<real>): real {
    Sum(w, |w|)
  }

  /** The credit of class `i` before request number `n`, counting requests from 0. */
  function Credit(w: seq<real>, n: nat, i: nat): real
    requires i < |w|
    decreases n, 0
  {
    if n == 0 then 0.0
    else Credit(w, n - 1, i) + w[i] - (if Pick(w, n - 1) == i then Total(w) else 0.0)
  }

  /** The credit of class `i` once request `n` has charged every class. */
  function Charged(w: seq<real>, n: nat, i: nat): real
    requires i < |w|
    decreases n, 1
  {
    Credit(w, n, i) + w[i]
  }

  /** The first class of greatest charged credit among the first `k` classes. */
  function FirstGreatest(w: seq<real>, n: nat, k: nat): (r: nat)
    requires 0 < k <= |w|
    ensures r < k
    decreases n, 2, k
  {
    if k == 1 then 0 else
      var r := FirstGreatest(w, n, k - 1);
      if Charged(w, n, k - 1) > Charged(w, n, r) then k - 1 else r
  }

  /** The class picked by request number `n`. */
  function Pick(w: seq<real>, n: nat): (r: nat)
    requires w != []
    ensures r < |w|
    decreases n, 3
  {
    FirstGreatest(w, n, |w|)
  }

  /** `max(range(len(current)), key=lambda index: current[index])` over the first `k` indices. */
  function ArgMax(current: seq<real>, k: nat): (r: nat)
    requires 0 < k <= |current|
    ensures r < k
  {
    if k == 1 then 0 else
      var r := ArgMax(current, k - 1);
      if current[k - 1] > current[r] then k - 1 else r
  }

  lemma ArgMaxPicks(current: seq<real>, w: seq<real>, n: nat, k: nat)
    requires 0 < k <= |w| == |current|
    requires forall i :: 0 <= i < |w| ==> current[i] == Charged(w, n, i)
    ensures ArgMax(current, k) == FirstGreatest(w, n, k)
  {}

  /** The inner loop: `current[index] += item.weight` for every class. */
  method ChargeAll(current: array<real>, classes: seq<TrafficClass>)
    requires current.Length == |classes|
    modifies current
    ensures forall i :: 0 <= i < |classes| ==> current[i] == old(current[i]) + classes[i].weight
  {
    for index := 0 to |classes|
      invariant forall i :: 0 <= i < index ==> current[i] == old(current[i]) + classes[i].weight
      invariant forall i :: index <= i < |classes| ==> current[i] == old(current[i])
    {
      current[index] := current[index] + classes[index].weight;
    }
  }

  /** One pass of the outer loop: charge, pick the greatest, pay back. */
  method ServeRequest(current: array<real>, classes: seq<TrafficClass>, totalWeight: real, ghost n: nat)
    returns (selected: nat)
    requires current.Length == |classes| > 0 && totalWeight == Total(Weights(classes))
    requires forall i :: 0 <= i < |classes| ==> current[i] == Credit(Weights(classes), n, i)
    modifies current
    ensures selected == Pick(Weights(classes), n)
    ensures forall i :: 0 <= i < |classes| ==> current[i] == Credit(Weights(classes), n + 1, i)
  {
    ChargeAll(current, classes);
    ArgMaxPicks(current[..], Weights(classes), n, |classes|);
    selected := ArgMax(current[..], |classes|);
    current[selected] := current[selected] - totalWeight;
  }

  method WeightedSchedule(classes: seq<TrafficClass>, totalRequests: int)
    returns (schedule: Result<seq<TrafficClass>>)
    ensures schedule.Err? <==> classes == [] && totalRequests > 0
    ensures schedule.Ok? ==> |schedule.value| == if totalRequests > 0 then totalRequests else 0
    ensures schedule.Ok? ==>
              forall n :: 0 <= n < |schedule.value| ==> schedule.value[n] == classes[Pick(Weights(classes), n)]
  {
    if classes == [] {
      return if totalRequests > 0 then Err("ValueError") else Ok([]);
    }
    var totalWeight := Total(Weights(classes));
    var current := new real[|classes|](_ => 0.0);
    var picks: seq<TrafficClass> := [];
    var n := 0;
    while n < totalRequests
      invariant 0 <= n && (n <= totalRequests || n == 0)
      invariant forall i :: 0 <= i < |classes| ==> current[i] == Credit(Weights(classes), n, i)
      invariant |picks| == n
      invariant forall j :: 0 <= j < n ==> picks[j] == classes[Pick(Weights(classes), j)]
    {
      var selected := ServeRequest(current, classes, totalWeight, n);
      picks := picks + [classes[selected]];
      n := n + 1;
    }
    schedule := Ok(picks);
  }
}
