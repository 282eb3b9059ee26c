/** The embedded time series of a report, and the schema version it makes the report declare. */
module EmbeddedSeries {
  import opened Results
  import opened SortedSets
  import opened TimeSeries
  import opened StageLaws

  datatype Source = Metric(key: string) | Ratio(num: string, den: string)

  /** One entry of the embedding table. */
  datatype Field = Field(name: string, source: Source)

  /** The points of a field for one pod: a metric's whole series, a ratio's rates inside the window. */
  function Points(pod: PodMetrics, source: Source, window: Option<Window>): Series {
    match source
    case Metric(key) => Scraped(pod, key)
    case Ratio(num, den) => RatioSeries(ClippedPair(pod, num, den, window), num, den)
  }

  /** A way to look at the points of a field: all that are available, or those left by the final clip. */
  type View = (PodMetrics, Source) -> Series

  function Available(window: Option<Window>): View {
    (pod: PodMetrics, source: Source) => Points(pod, source, window)
  }

  function Embedded(window: Option<Window>): View {
    (pod: PodMetrics, source: Source) => Clip(Points(pod, source, window), window)
  }

  function PodFields(pod: PodMetrics, specs: seq<Field>, view: View): set<string> {
    if specs == [] then {}
    else
      var last := specs[|specs| - 1];
      PodFields(pod, specs[..|specs| - 1], view) + (if view(pod, last.source) != [] then {last.name} else {})
  }

  function PodCount(pod: PodMetrics, specs: seq<Field>, view: View): nat {
    if specs == [] then 0
    else PodCount(pod, specs[..|specs| - 1], view) + |view(pod, specs[|specs| - 1].source)|
  }

  /** The fields that show points for some pod. */
  function AllFields(pods: seq<PodMetrics>, specs: seq<Field>, view: View): set<string> {
    if pods == [] then {}
    else AllFields(pods[..|pods| - 1], specs, view) + PodFields(pods[|pods| - 1], specs, view)
  }

  function AllCount(pods: seq<PodMetrics>, specs: seq<Field>, view: View): nat {
    if pods == [] then 0
    else AllCount(pods[..|pods| - 1], specs, view) + PodCount(pods[|pods| - 1], specs, view)
  }

  /** A version is declared against the fields available to a stage, or embedded for a run. */
  function Declaring(window: Option<Window>): View {
    if window.Some? then Available(window) else Embedded(window)
  }

  function DeclaredFields(pods: seq<PodMetrics>, specs: seq<Field>, window: Option<Window>): set<string> {
    AllFields(pods, specs, Declaring(window))
  }

  function Version(declared: string, fields: set<string>, v02: set<string>): string {
    if fields - v02 != {} && declared == "0.2" then "0.2.1" else declared
  }

  datatype Outcome = Outcome(fields: set<string>, datapoints: nat, available: nat)

  method BuildEmbeddedTimeSeries(pods: seq<PodMetrics>, specs: seq<Field>, window: Option<Window>)
    returns (outcome: Outcome)
    ensures outcome.fields == DeclaredFields(pods, specs, window)
    ensures outcome.datapoints == AllCount(pods, specs, Embedded(window))
    ensures outcome.available == AllCount(pods, specs, Available(window))
    ensures outcome.datapoints <= outcome.available
  {
    var embedded, available: set<string> := {}, {};
    var kept, total := 0, 0;
    for i := 0 to |pods|
      invariant available == AllFields(pods[..i], specs, Available(window))
      invariant embedded == AllFields(pods[..i], specs, Embedded(window))
      invariant kept == AllCount(pods[..i], specs, Embedded(window)) <= total
      invariant total == AllCount(pods[..i], specs, Available(window))
    {
      OneMorePod(pods, i, specs, Available(window));
      OneMorePod(pods, i, specs, Embedded(window));
      var podAvailable, podEmbedded, podKept, podTotal := BuildForPod(pods[i], specs, window);
      available, embedded := available + podAvailable, embedded + podEmbedded;
      kept, total := kept + podKept, total + podTotal;
    }
    TakeAll(pods);
    outcome := Outcome(if window.Some? then available else embedded, kept, total);
  }

  /** The inner loop: one pod, every field of the table. */
  method BuildForPod(pod: PodMetrics, specs: seq<Field>, window: Option<Window>)
    returns (available: set<string>, embedded: set<string>, kept: nat, total: nat)
    ensures available == PodFields(pod, specs, Available(window)) && embedded == PodFields(pod, specs, Embedded(window))
    ensures kept == PodCount(pod, specs, Embedded(window)) <= total == PodCount(pod, specs, Available(window))
  {
    hide PodFields, PodCount, Points, Clip;
    available, embedded, kept, total := {}, {}, 0, 0;
    NoFields(pod, specs, Available(window));
    NoFields(pod, specs, Embedded(window));
    ghost var all, left := Available(window), Embedded(window);
    for j := 0 to |specs|
      invariant available == PodFields(pod, specs[..j], all) && embedded == PodFields(pod, specs[..j], left)
      invariant kept == PodCount(pod, specs[..j], left) <= total == PodCount(pod, specs[..j], all)
    {
      var points := Points(pod, specs[j].source, window);
      var clipped := Clip(points, window);
      ClipKeeps(points, window);
      OneMoreField(pod, specs, j, all, points);
      OneMoreField(pod, specs, j, left, clipped);
      if points != [] {
        available := available + {specs[j].name};
        total := total + |points|;
      }
      if clipped != [] {
        embedded := embedded + {specs[j].name};
        kept := kept + |clipped|;
      }
    }
    TakeAll(specs);
  }

  lemma NoFields(pod: PodMetrics, specs: seq<Field>, view: View)
    ensures PodFields(pod, specs[..0], view) == {} && PodCount(pod, specs[..0], view) == 0
  {}

  lemma OneMoreField(pod: PodMetrics, specs: seq<Field>, j: nat, view: View, shown: Series)
    requires j < |specs| && view(pod, specs[j].source) == shown
    ensures PodFields(pod, specs[..j + 1], view)
         == PodFields(pod, specs[..j], view) + (if shown != [] then {specs[j].name} else {})
    ensures PodCount(pod, specs[..j + 1], view) == PodCount(pod, specs[..j], view) + |shown|
  {
    assert specs[..j + 1][..j] == specs[..j];
  }

  lemma OneMorePod(pods: seq<PodMetrics>, i: nat, specs: seq<Field>, view: View)
    requires i < |pods|
    ensures AllFields(pods[..i + 1], specs, view) == AllFields(pods[..i], specs, view) + PodFields(pods[i], specs, view)
    ensures AllCount(pods[..i + 1], specs, view) == AllCount(pods[..i], specs, view) + PodCount(pods[i], specs, view)
  {
    assert pods[..i + 1][..i] == pods[..i];
  }

  // ----- what is counted -----

  lemma CountOfOne(pod: PodMetrics, field: Field, view: View)
    ensures AllCount([pod], [field], view) == |view(pod, field.source)|
    ensures AllCount([], [field], view) == AllCount([pod], [], view) == 0
  {
    assert [pod][..0] == [] && [field][..0] == [];
    assert PodCount(pod, [field], view) == |view(pod, field.source)|;
    assert AllCount([], [field], view) == 0;
  }

  lemma {:induction false} PodCountAdds(pod: PodMetrics, a: seq<Field>, b: seq<Field>, view: View)
    ensures PodCount(pod, a + b, view) == PodCount(pod, a, view) + PodCount(pod, b, view)
  {
    if b == [] {
      assert a + b == a;
    } else {
      assert (a + b)[..|a + b| - 1] == a + b[..|b| - 1];
      PodCountAdds(pod, a, b[..|b| - 1], view);
    }
  }

  /** The points of every pod and of every field of the table are counted once. */
  lemma {:induction false} CountAdds(pods: seq<PodMetrics>, more: seq<PodMetrics>, a: seq<Field>, b: seq<Field>,
                                     view: View)
    ensures AllCount(pods + more, a, view) == AllCount(pods, a, view) + AllCount(more, a, view)
    ensures AllCount(pods, a + b, view) == AllCount(pods, a, view) + AllCount(pods, b, view)
    decreases |pods| + |more|
  {
    if more != [] {
      assert (pods + more)[..|pods + more| - 1] == pods + more[..|more| - 1];
      CountAdds(pods, more[..|more| - 1], a, b, view);
    } else {
      assert pods + more == pods;
      if pods != [] {
        CountAdds(pods[..|pods| - 1], [], a, b, view);
        PodCountAdds(pods[|pods| - 1], a, b, view);
      }
    }
  }

  // ----- what is embedded -----

  lemma {:induction false} ClipAll(points: Series, window: Option<Window>)
    requires forall p :: p in points ==> InWindow(p.ts, window)
    ensures Clip(points, window) == points
  {
    if points != [] {
      ClipAll(points[..|points| - 1], window);
    }
  }

  lemma RatesInWindow(pod: PodMetrics, n: string, d: string, window: Option<Window>)
    ensures forall p :: p in RatioSeries(ClippedPair(pod, n, d, window), n, d) ==> InWindow(p.ts, window)
  {
    hide Clip, DeltasOver;
    var num, den := Clip(Scraped(pod, n), window), Clip(Scraped(pod, d), window);
    var ts := CommonTimes(num, den);
    DeltaTimes(ts, num, den);
    SortedIsSorted(Times(num) * Times(den));
    ClippedTimes(Scraped(pod, n), window);
    forall i | 0 <= i < |ts| ensures InWindow(ts[i], window) {
      assert ts[i] in ts;
    }
  }

  /** A stage embeds of a metric exactly the points inside it, and of a ratio all its rates: none lies outside. */
  lemma EmbeddedExactly(pod: PodMetrics, window: Option<Window>)
    ensures forall key, p ::
      p in Embedded(window)(pod, Metric(key)) <==> p in Scraped(pod, key) && InWindow(p.ts, window)
    ensures forall n, d :: Embedded(window)(pod, Ratio(n, d)) == Available(window)(pod, Ratio(n, d))
  {
    forall key, p
      ensures p in Embedded(window)(pod, Metric(key)) <==> p in Scraped(pod, key) && InWindow(p.ts, window)
    {
      ClipKeeps(Scraped(pod, key), window);
    }
    forall n, d ensures Embedded(window)(pod, Ratio(n, d)) == Available(window)(pod, Ratio(n, d)) {
      RatesInWindow(pod, n, d, window);
      ClipAll(RatioSeries(ClippedPair(pod, n, d, window), n, d), window);
    }
  }

  /** Two stages that adjoin embed of a metric what one over both embeds, nothing lost or counted twice. */
  lemma StagesEmbedOnce(pod: PodMetrics, key: string, t0: int, t1: int, t2: int)
    requires SortedByTime(Scraped(pod, key)) && t0 <= t1 <= t2
    ensures var m := Metric(key);
      |Embedded(Some(Window(t0, t2)))(pod, m)|
      == |Embedded(Some(Window(t0, t1)))(pod, m)| + |Embedded(Some(Window(t1, t2)))(pod, m)|
  {
    ConsecutiveWindowsSplit(Scraped(pod, key), t0, t1, t2);
  }

  // ----- the declared version -----

  lemma {:induction false} FieldOfPod(pod: PodMetrics, specs: seq<Field>, view: View, name: string)
    ensures name in PodFields(pod, specs, view) <==>
      exists j :: 0 <= j < |specs| && specs[j].name == name && view(pod, specs[j].source) != []
  {
    if specs != [] {
      var n := |specs| - 1;
      FieldOfPod(pod, specs[..n], view, name);
      assert forall j :: 0 <= j < n ==> specs[..n][j] == specs[j];
    }
  }

  lemma {:induction false} FieldOfPods(pods: seq<PodMetrics>, specs: seq<Field>, view: View, name: string)
    ensures name in AllFields(pods, specs, view) <==>
      exists i :: 0 <= i < |pods| && name in PodFields(pods[i], specs, view)
  {
    if pods != [] {
      var n := |pods| - 1;
      FieldOfPods(pods[..n], specs, view, name);
      assert forall i :: 0 <= i < n ==> pods[..n][i] == pods[i];
    }
  }

  /** Field `j`, added after 0.2, shows points for pod `i`. */
  ghost predicate ShowsNew(pods: seq<PodMetrics>, specs: seq<Field>, view: View, v02: set<string>, i: nat, j: nat) {
    i < |pods| && j < |specs| && specs[j].name !in v02 && view(pods[i], specs[j].source) != []
  }

  lemma NewFieldsExactly(pods: seq<PodMetrics>, specs: seq<Field>, view: View, v02: set<string>)
    ensures AllFields(pods, specs, view) - v02 != {} <==>
      exists i: nat, j: nat :: ShowsNew(pods, specs, view, v02, i, j)
  {
    var fields := AllFields(pods, specs, view);
    if i: nat, j: nat :| ShowsNew(pods, specs, view, v02, i, j) {
      FieldOfPod(pods[i], specs, view, specs[j].name);
      FieldOfPods(pods, specs, view, specs[j].name);
      assert specs[j].name in fields - v02;
    }
    if name :| name in fields - v02 {
      FieldOfPods(pods, specs, view, name);
      var i :| 0 <= i < |pods| && name in PodFields(pods[i], specs, view);
      FieldOfPod(pods[i], specs, view, name);
      var j :| 0 <= j < |specs| && specs[j].name == name && view(pods[i], specs[j].source) != [];
      assert ShowsNew(pods, specs, view, v02, i, j);
    }
  }

  /** A report's version is raised if it declares 0.2 and some pod shows points for some field added since. */
  lemma VersionRaisedExactly(declared: string, pods: seq<PodMetrics>, specs: seq<Field>, window: Option<Window>,
                             v02: set<string>)
    ensures Version(declared, DeclaredFields(pods, specs, window), v02) != declared <==>
      declared == "0.2" && exists i: nat, j: nat :: ShowsNew(pods, specs, Declaring(window), v02, i, j)
  {
    NewFieldsExactly(pods, specs, Declaring(window), v02);
    assert |"0.2"| != |"0.2.1"|;
  }

  /** The report shows a field added after 0.2. */
  ghost predicate Bumps(pods: seq<PodMetrics>, specs: seq<Field>, window: Option<Window>, v02: set<string>) {
    DeclaredFields(pods, specs, window) - v02 != {}
  }

  /** Every ratio added after 0.2 has one of its counters as a plain field added after 0.2. */
  ghost predicate Anchored(specs: seq<Field>, v02: set<string>) {
    forall j :: 0 <= j < |specs| ==> HasAnchor(specs, specs[j], v02)
  }

  ghost predicate HasAnchor(specs: seq<Field>, field: Field, v02: set<string>) {
    field.source.Metric? || field.name in v02 || exists k :: 0 <= k < |specs| && Anchors(specs[k], field, v02)
  }

  ghost predicate Anchors(metric: Field, ratio: Field, v02: set<string>) {
    && metric.source.Metric? && ratio.source.Ratio? && metric.name !in v02
    && (metric.source.key == ratio.source.num || metric.source.key == ratio.source.den)
  }

  lemma {:induction false} NoWindowKeepsAll(points: Series)
    ensures Clip(points, None) == points
  {
    if points != [] {
      NoWindowKeepsAll(points[..|points| - 1]);
    }
  }

  lemma DeclaringMetric(pod: PodMetrics, key: string, window: Option<Window>)
    ensures Declaring(window)(pod, Metric(key)) == Scraped(pod, key)
  {
    NoWindowKeepsAll(Scraped(pod, key));
  }

  lemma DeclaringRatio(pod: PodMetrics, n: string, d: string, window: Option<Window>)
    ensures Declaring(window)(pod, Ratio(n, d)) == RatioSeries(ClippedPair(pod, n, d, window), n, d)
  {
    NoWindowKeepsAll(RatioSeries(ClippedPair(pod, n, d, window), n, d));
  }

  lemma NoCounterNoRate(pod: PodMetrics, n: string, d: string, window: Option<Window>)
    ensures (n !in pod || pod[n] == []) || (d !in pod || pod[d] == []) ==>
      RatioSeries(ClippedPair(pod, n, d, window), n, d) == []
  {
    NoTimesNoRate(ClippedPair(pod, n, d, window), n, d);
  }

  lemma NoTimesNoRate(pair: PodMetrics, n: string, d: string)
    requires n in pair && d in pair
    ensures pair[n] == [] || pair[d] == [] ==> RatioSeries(pair, n, d) == []
  {
    if pair[n] == [] || pair[d] == [] {
      assert Times(pair[n]) * Times(pair[d]) == {};
    }
  }

  /** A bump needs no window: it comes from a plain field with points. */
  lemma AnchoredBump(pods: seq<PodMetrics>, specs: seq<Field>, window: Option<Window>, v02: set<string>, i: nat, j: nat)
    returns (k: nat)
    requires Anchored(specs, v02) && ShowsNew(pods, specs, Declaring(window), v02, i, j)
    ensures k < |specs| && specs[k].source.Metric? && specs[k].name !in v02
    ensures specs[k].source.key in pods[i] && pods[i][specs[k].source.key] != []
  {
    match specs[j].source
    case Metric(key) =>
      DeclaringMetric(pods[i], key, window);
      k := j;
    case Ratio(n, d) =>
      DeclaringRatio(pods[i], n, d, window);
      NoCounterNoRate(pods[i], n, d, window);
      assert HasAnchor(specs, specs[j], v02);
      k :| 0 <= k < |specs| && Anchors(specs[k], specs[j], v02);
  }

  lemma AnchoredAgree(pods: seq<PodMetrics>, specs: seq<Field>, w: Option<Window>, other: Option<Window>,
                      v02: set<string>)
    requires Anchored(specs, v02) && Bumps(pods, specs, w, v02)
    ensures Bumps(pods, specs, other, v02)
  {
    NewFieldsExactly(pods, specs, Declaring(w), v02);
    var i: nat, j: nat :| ShowsNew(pods, specs, Declaring(w), v02, i, j);
    var k := AnchoredBump(pods, specs, w, v02, i, j);
    DeclaringMetric(pods[i], specs[k].source.key, other);
    assert ShowsNew(pods, specs, Declaring(other), v02, i, k);
    NewFieldsExactly(pods, specs, Declaring(other), v02);
  }

  // ----- without an anchor the reports can disagree -----

  /** A pod that only scraped the two counters of a ratio, at instants 0 and 1. */
  function TwoScrapes(n: string, d: string): PodMetrics {
    map[n := Twice(1.0), d := Twice(1.0)]
  }

  lemma TwoScrapesGiveARate(n: string, d: string)
    ensures RatioSeries(ClippedPair(TwoScrapes(n, d), n, d, None), n, d) != []
  {
    hide Twice, CommonTimes, DeltasOver;
    var pair := ClippedPair(TwoScrapes(n, d), n, d, None);
    NoWindowKeepsAll(Twice(1.0));
    DeltasOfTwice(1.0, 1.0);
    assert RatioDeltas(pair, n, d) == [Delta(1, 1.0, 1.0)];
  }

  /** The stage of the second scrape. */
  const SECOND_SCRAPE := Window(1, 2)

  lemma OneInstantNoRate(pair: PodMetrics, n: string, d: string, t: int)
    requires n in pair && d in pair && Times(pair[n]) <= {t}
    ensures RatioSeries(pair, n, d) == []
  {
    var common := Times(pair[n]) * Times(pair[d]);
    SortedIs(common, if common == {} then [] else [t]);
  }

  lemma NoRateInOneScrape(pod: PodMetrics, n: string, d: string)
    ensures RatioSeries(ClippedPair(pod, n, d, Some(SECOND_SCRAPE)), n, d) == []
  {
    ClippedTimes(Scraped(pod, n), Some(SECOND_SCRAPE));
    OneInstantNoRate(ClippedPair(pod, n, d, Some(SECOND_SCRAPE)), n, d, 1);
  }

  /** Two scrapes make the report of the run declare 0.2.1 and the report of the stage that holds one of them 0.2. */
  lemma UnanchoredDisagree(specs: seq<Field>, v02: set<string>, j: nat)
    requires j < |specs| && !HasAnchor(specs, specs[j], v02)
    ensures var pods := [TwoScrapes(specs[j].source.num, specs[j].source.den)];
      && Version("0.2", DeclaredFields(pods, specs, None), v02) == "0.2.1"
      && Version("0.2", DeclaredFields(pods, specs, Some(SECOND_SCRAPE)), v02) == "0.2"
  {
    hide TwoScrapes, RatioSeries, ClippedPair, Declaring;
    var n, d := specs[j].source.num, specs[j].source.den;
    var pods := [TwoScrapes(n, d)];
    assert specs[j].source == Ratio(n, d) && specs[j].name !in v02;
    TwoScrapesGiveARate(n, d);
    DeclaringRatio(pods[0], n, d, None);
    assert ShowsNew(pods, specs, Declaring(None), v02, 0, j);
    NewFieldsExactly(pods, specs, Declaring(None), v02);
    NewFieldsExactly(pods, specs, Declaring(Some(SECOND_SCRAPE)), v02);
    forall i: nat, k: nat ensures !ShowsNew(pods, specs, Declaring(Some(SECOND_SCRAPE)), v02, i, k) {
      if i < 1 && k < |specs| {
        NotShown(specs, specs[j], v02, k);
      }
    }
  }

  lemma NotShown(specs: seq<Field>, ratio: Field, v02: set<string>, k: nat)
    requires k < |specs| && !HasAnchor(specs, ratio, v02)
    ensures specs[k].name in v02
      || Declaring(Some(SECOND_SCRAPE))(TwoScrapes(ratio.source.num, ratio.source.den), specs[k].source) == []
  {
    var pod := TwoScrapes(ratio.source.num, ratio.source.den);
    match specs[k].source
    case Metric(key) =>
      DeclaringMetric(pod, key, Some(SECOND_SCRAPE));
      assert !Anchors(specs[k], ratio, v02);
    case Ratio(n, d) =>
      DeclaringRatio(pod, n, d, Some(SECOND_SCRAPE));
      NoRateInOneScrape(pod, n, d);
  }

  /**
   The reports of one run declare the same version for every window and for none, whatever was
   scraped and whatever the reports declared before, exactly when every ratio added after 0.2 has a
   counter that is a plain field added then.
   */
  lemma SiblingsAgreeExactly(specs: seq<Field>, v02: set<string>)
    ensures
      (forall declared, pods, window ::
         Version(declared, DeclaredFields(pods, specs, window), v02)
         == Version(declared, DeclaredFields(pods, specs, None), v02))
      <==> Anchored(specs, v02)
  {
    hide DeclaredFields;
    if Anchored(specs, v02) {
      forall declared, pods, window
        ensures Version(declared, DeclaredFields(pods, specs, window), v02)
             == Version(declared, DeclaredFields(pods, specs, None), v02)
      {
        if Bumps(pods, specs, window, v02) {
          AnchoredAgree(pods, specs, window, None, v02);
        }
        if Bumps(pods, specs, None, v02) {
          AnchoredAgree(pods, specs, None, window, v02);
        }
      }
    } else {
      var j :| 0 <= j < |specs| && !HasAnchor(specs, specs[j], v02);
      UnanchoredDisagree(specs, v02, j);
    }
  }

  // ----- the default table -----

  /** `series_key` of a metric with one label. */
  function Labelled(metric: string, name: string, value: string): string {
    metric + "{" + name + "=\"" + value + "\"}"
  }

  const V0_2_FIELDS: set<string> := {
    "kv_cache_usage", "gpu_cache_usage", "cpu_cache_usage", "gpu_memory_usage", "cpu_memory_usage", "storage_usage",
    "gpu_utilization", "cpu_utilization", "power_consumption"
  }

  const DEFAULT_TABLE: seq<Field> := [
    Field("kv_cache_usage", Metric("vllm:kv_cache_usage_perc")),
    Field("gpu_cache_usage", Metric("vllm:gpu_cache_usage_perc")),
    Field("cpu_cache_usage", Metric("vllm:cpu_cache_usage_perc")),
    Field("gpu_memory_usage", Metric("vllm:gpu_memory_usage_bytes")),
    Field("cpu_memory_usage", Metric("vllm:cpu_memory_usage_bytes")),
    Field("gpu_utilization", Metric("DCGM_FI_DEV_GPU_UTIL")),
    Field("power_consumption", Metric("DCGM_FI_DEV_POWER_USAGE")),
    Field("num_requests_running", Metric("vllm:num_requests_running")),
    Field("num_requests_waiting", Metric("vllm:num_requests_waiting")),
    Field("num_preemptions", Metric("vllm:num_preemptions_total")),
    Field("prefix_cache_queries", Metric("vllm:prefix_cache_queries_total")),
    Field("prefix_cache_hits", Metric("vllm:prefix_cache_hits_total")),
    Field("prefix_cache_hit_rate", Ratio("vllm:prefix_cache_hits_total", "vllm:prefix_cache_queries_total")),
    Field("external_prefix_cache_queries", Metric("vllm:external_prefix_cache_queries_total")),
    Field("external_prefix_cache_hits", Metric("vllm:external_prefix_cache_hits_total")),
    Field("external_prefix_cache_hit_rate",
          Ratio("vllm:external_prefix_cache_hits_total", "vllm:external_prefix_cache_queries_total")),
    Field("kv_offload_store_bytes",
          Metric(Labelled("vllm:kv_offload_total_bytes_total", "transfer_type", "GPU_to_CPU"))),
    Field("kv_offload_load_bytes",
          Metric(Labelled("vllm:kv_offload_total_bytes_total", "transfer_type", "CPU_to_GPU"))),
    Field("kv_offload_store_time", Metric(Labelled("vllm:kv_offload_total_time_total", "transfer_type", "GPU_to_CPU"))),
    Field("kv_offload_load_time", Metric(Labelled("vllm:kv_offload_total_time_total", "transfer_type", "CPU_to_GPU"))),
    Field("prompt_tokens", Metric("vllm:prompt_tokens_total")),
    Field("generation_tokens", Metric("vllm:generation_tokens_total")),
    Field("pool_avg_kv_cache_utilization", Metric("inference_pool_average_kv_cache_utilization")),
    Field("pool_avg_queue_size", Metric("inference_pool_average_queue_size")),
    Field("pool_avg_running_requests", Metric("inference_pool_average_running_requests")),
    Field("pool_ready_pods", Metric("inference_pool_ready_pods"))
  ]

  /** The default table is anchored, so sibling reports made with it declare one version. */
  lemma DefaultTableAgrees(declared: string, pods: seq<PodMetrics>, window: Option<Window>)
    ensures Anchored(DEFAULT_TABLE, V0_2_FIELDS)
    ensures Version(declared, DeclaredFields(pods, DEFAULT_TABLE, window), V0_2_FIELDS)
         == Version(declared, DeclaredFields(pods, DEFAULT_TABLE, None), V0_2_FIELDS)
  {
    DefaultTableIsAnchored();
    SiblingsAgreeExactly(DEFAULT_TABLE, V0_2_FIELDS);
  }

  lemma DefaultTableIsAnchored()
    ensures Anchored(DEFAULT_TABLE, V0_2_FIELDS)
  {
    hide Labelled;
    assert Anchors(DEFAULT_TABLE[11], DEFAULT_TABLE[12], V0_2_FIELDS);
    assert Anchors(DEFAULT_TABLE[14], DEFAULT_TABLE[15], V0_2_FIELDS);
  }
}
