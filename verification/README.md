# llm-d-benchmark: models and proofs of its algorithmic parts

This project models seven parts of the benchmark repository in Dafny and proves what they promise. Each algorithm that
works step by step is a method or a class proved against a function; the properties are lemmas about that function,
over every input, every run or every interleaving.

- **Weighted scheduler** (`PriorityMix`, `PriorityMixFairness`): smooth weighted round robin. Credits are bounded by a
  harmonic sum, by an invariant over all sets of classes; shares are exact, the schedule periodic and free of starvation.
- **Stack tracer** (`Worklist`, `Cluster`, `ClusterEdges`, `StackTracer`, `TracerLaws`): breadth-first tracing of a
  cluster by keys, complete exactly when keys identify the resources reached along what leads where, once per key, in
  hop order.
- **Directory layout** (`TextLines`, `NameOrder`, `LayoutTree`, `LayoutParser`, `LayoutPaths`, `LayoutRoundTrip`,
  `LayoutOrder`, `LayoutReadme`): a recursive tree printer and an indent-driven stack parser, a round trip on the level
  of text, and the order of the lines; the README section around it regenerates to itself.
- **Session turn-taking** (`UserSession`, `TurnTaking`, `TurnTakingRuns`, `TurnQueue`, `TurnOrder`): an asyncio lock and
  a queue of futures as a transition system. At most one turn in flight, no lost wake-up, no stranded turn, a linear
  history, a queue served in order, and exactly when turns keep the order in which they arrive.
- **Metric time series** (`SortedSets`, `TimeSeries`, `DeltaLaws`, `StageLaws`, `HitRates`, `Decimation`,
  `Percentiles`, `EmbeddedSeries`): counter deltas, stage clipping, traffic-weighted rates, decimation, percentiles and
  the declared version, what each is and how they commute and add up. Exact reals and integer instants.
- **Configuration merges** (`ConfigTree`, `DeepMerge`, `DeepMergeLaws`, `SetupOverrides`, `UpdateDict`,
  `UpdateInPlace`): a functional and an in-place deep merge against flat path-to-value maps, the precedence chain of
  overrides, and exactly when the two merges agree.
- **Experiment driver** (`ExperimentRules`, `Experiment`, `ExperimentSafety`): the treatment loop over all phase
  outcomes, its trace and records against rules said of the outcomes alone.

`dafny verify dfyconfig.toml` checks the whole project.

## Assumptions

- Weights are positive, as `priority_mix.py:113-114` demands; the exact-share results take weights that are whole
  multiples of a unit.
- Every acquired turn ends in one of `process_response` and `process_failure`, and the asyncio lock wakes its waiters
  first in, first out and lets a task take a free lock at once only when nobody waits for it.
- Resource lookups read an unchanging list of resources; phase outcomes, collectors, parsed `--set` values and parsed
  scrapes are inputs.
- A metric's labels are part of its key; a treatment's name is a plain file name.
- A backendRef names a non-empty namespace or none, as the Gateway API schema has it.

## Where the code falls short of its description

The model follows the code. These results say exactly when the description holds.

- `_deep_merge_dicts` promises that override values win. A None gives way to the base wherever both trees have the
  dictionary it stands in, and is copied elsewhere: `NoneInOverride`, with an input for each in `NoneLosesAndStands`. A
  leaf removes a whole subtree (`LeafHidesASubtree`), so the merge is a flat override, and is associative, only under
  the conditions of `FlatOverrideExactly` and `AssociativeExactly`.
- `update_dict` promises to overwrite anything that is not a dictionary. A true value meeting a dictionary raises and a
  false one leaves it: `LeafMeetsADict`, `RaisesExactly`, `AgreeExactly`.
- A hit rate's mean can exceed its whole series, because entries are capped at 100 and the mean is not:
  `MeanAboveTheSeries`. `MeanOfSeries` and `SteadyMeanWithinExactly` say exactly when it does not.
- `downsample` promises at most `max_points`; for 1 it divides by zero: `DecimationFails`.
- Teardown is described as always attempted. An exception of the run phase other than PhaseError skips it and leaves
  the workspace unrestored: `RunExceptionSkipsTeardown`, with `StandupThenTeardown` and `ExecuteExperiment` for the exact
  conditions.
- `get_context` is given the round of a turn and ignores it, so turns can overtake each other (`ArrivalOrderNotKept`).
  They keep the order of arrival exactly if none goes for the lock while an earlier one is queued, or woken and not
  resumed: `AskedInArrivalOrderExactly`, `ServedInArrivalOrderExactly`.
- `update_dict` links dictionaries of its source into `dest`, so a later source is written through to an earlier one:
  `SecondSourceWritesThrough`; `UpdateFromTwo` says where this ends.
- Sibling reports are meant to declare one version. With the default table they do (`DefaultTableAgrees`); with a
  configured table exactly when it is anchored (`SiblingsAgreeExactly`, `UnanchoredDisagree`).

## Model

| member | source | states |
|---|---|---|
| PriorityMix.WeightedSchedule | experimental/priority-mix/priority_mix.py:118-130 | the loops over the credit array choose, for every request, the class the credit rule picks, and fail only for requests without any class (the `max` of an empty range) |
| PriorityMix.ServeRequest | experimental/priority-mix/priority_mix.py:124-129 | one request moves every credit from its value after n requests to its value after n + 1 and returns the class picked |
| PriorityMix.ChargeAll | experimental/priority-mix/priority_mix.py:125-126 | every credit grows by the weight of its class, and nothing else changes |
| PriorityMixFairness.PickIsFirstGreatest | experimental/priority-mix/priority_mix.py:127 | the class picked has the greatest charged credit, and is the first to have it |
| PriorityMixFairness.CreditLedger | experimental/priority-mix/priority_mix.py:124-129 | a credit is what its class is due minus what it was charged: n times its weight minus its picks times the total |
| PriorityMixFairness.CreditsSumToZero | experimental/priority-mix/priority_mix.py:121-129 | after any number of requests the credits sum to 0 |
| PriorityMixFairness.CreditAboveMinusTotal | experimental/priority-mix/priority_mix.py:121-129 | no credit ever falls to minus the total weight |
| PriorityMixFairness.SetOfClassesBound | experimental/priority-mix/priority_mix.py:121-129 | after any number of requests every set of j of the k classes holds at most j * W * (1/(j+1) + ... + 1/k) |
| PriorityMixFairness.CreditBound | experimental/priority-mix/priority_mix.py:121-129 | every credit is at most W * (1/2 + ... + 1/k) |
| PriorityMixFairness.ProportionalShare | experimental/priority-mix/priority_mix.py:118-130 | after n requests a class has had at least n * w/W - H and fewer than n * w/W + 1 picks, H the harmonic bound |
| PriorityMixFairness.NoStarvation | experimental/priority-mix/priority_mix.py:118-130 | any long enough stretch of requests, wherever it starts, serves a given class |
| PriorityMixFairness.ExactShare | experimental/priority-mix/priority_mix.py:118-130 | weights that are whole multiples of a unit give every class exactly its share in one period, and all credits return to 0 |
| PriorityMixFairness.Periodic | experimental/priority-mix/priority_mix.py:118-130 | the schedule then repeats with that period |
| PriorityMixFairness.ScalingKeepsSchedule | experimental/priority-mix/priority_mix.py:118-130 | scaling all weights by one positive factor changes no pick |
| PriorityMixFairness.ScheduleShares | experimental/priority-mix/priority_mix.py:118-130 | in the schedule itself a class occurs as often as its own weight against the weight of all classes calls for, within the same two bounds |
| Percentiles.SortedValuesSorts | experimental/priority-mix/priority_mix.py:287 | the sorted copy is ordered and a permutation of the values |
| StackTracer.StackTracer.TraceFromEntryPoint | llm_d_stack_discovery/discovery/tracer.py:361-557 | the queue loop returns the components of the trace order, in order, and adds exactly the warnings of the nodes visited |
| StackTracer.StackTracer.Expand | llm_d_stack_discovery/discovery/tracer.py:389-552 | the branches by kind, with their lookups and loops, put exactly the successors of the resource on the queue, in order |
| StackTracer.StackTracer.FindHttpRoutesForGateway | llm_d_stack_discovery/discovery/tracer.py:583-630 | the loops find, among all routes, those with a parentRef to the gateway, each once |
| StackTracer.StackTracer.FindGateway | llm_d_stack_discovery/discovery/tracer.py:477-498 | the Gateway of a gateway service is the one in its namespace, or else the first of that name anywhere |
| StackTracer.StackTracer.FindHttpRoutesNaming | llm_d_stack_discovery/discovery/tracer.py:500-521 | the routes of the namespace that name the gateway are found, each once |
| StackTracer.StackTracer.GetInferencePoolBackends | llm_d_stack_discovery/discovery/tracer.py:774-841 | the loops over backends and pickers and the two selections give the backends of the pool, in order |
| StackTracer.StackTracer.GetHttpRouteBackends | llm_d_stack_discovery/discovery/tracer.py:632-737 | the two nested loops over rules and backendRefs give the successors of the route and one warning per missing pool |
| Cluster.SuccessorsListed | llm_d_stack_discovery/discovery/tracer.py:389-530 | whatever a resource leads to is a resource of the cluster, so a trace stays inside it |
| Cluster.BackendsListed | llm_d_stack_discovery/discovery/tracer.py:651-737 | every backend found for a route, the pod fallback included, is listed in the cluster |
| Cluster.PoolServicesListed | llm_d_stack_discovery/discovery/tracer.py:774-841 | every service a pool refers to is listed in the cluster |
| ClusterEdges.SuccessorsExactly | llm_d_stack_discovery/discovery/tracer.py:389-552 | for every kind, what a resource puts on the queue is exactly what its spec, names, labels and parentRefs lead to, said without the lookups |
| ClusterEdges.BackendFinds | llm_d_stack_discovery/discovery/tracer.py:651-737 | a backendRef leads to exactly the first Service, InferenceModel or InferencePool of its name and namespace, or to the served pods if a pool is missing |
| ClusterEdges.PoolFinds | llm_d_stack_discovery/discovery/tracer.py:774-841 | a pool leads to exactly its explicit Services, the pods of its two selectors and the first picker that names a Service |
| ClusterEdges.ServiceFinds | llm_d_stack_discovery/discovery/tracer.py:461-530 | a Service leads to exactly the pods it selects and, if it is one of a gateway, that Gateway and the routes of the namespace that name it |
| ClusterEdges.ErrorsExactly | llm_d_stack_discovery/discovery/tracer.py:690-720 | a warning is left exactly for each missing pool that a backendRef of a route names |
| ClusterEdges.ByNameFinds | llm_d_stack_discovery/discovery/utils.py:255-283 | a lookup by name finds the first resource listed of that kind, name and namespace, and nothing only if there is none |
| Worklist.TraceExact | llm_d_stack_discovery/discovery/tracer.py:361-383 | a worklist that marks keys when it pops visits exactly the reachable nodes if and only if keys identify the reachable nodes |
| Worklist.TraceInLevelOrder | llm_d_stack_discovery/discovery/tracer.py:374-383 | nodes are processed in nondecreasing distance from the entry, duplicates in the queue notwithstanding |
| Worklist.ProcessedExtends | llm_d_stack_discovery/discovery/tracer.py:374-383 | what was processed stays processed, in order |
| Worklist.TwinsLoseOne | llm_d_stack_discovery/discovery/tracer.py:378-382 | two successors of the entry with one key cost the trace a reachable node |
| TracerLaws.KeyInjective | llm_d_stack_discovery/discovery/tracer.py:378 | the key of kind, namespace and name determines all three |
| TracerLaws.ClusterKeysIdentify | llm_d_stack_discovery/discovery/tracer.py:378 | in a cluster whose resources have unique names per kind and namespace, keys identify every node reachable from an entry in its own namespace |
| TracerLaws.TraceSound | llm_d_stack_discovery/discovery/tracer.py:361-557 | for every cluster: each key is processed once, everything processed can be reached along what leads where, and the entry is processed |
| TracerLaws.TraceExactly | llm_d_stack_discovery/discovery/tracer.py:361-557 | the trace is the set of resources that some path of what leads where reaches, if and only if no two of them share a key |
| TracerLaws.ClusterTrace | llm_d_stack_discovery/discovery/tracer.py:361-557 | in a well-formed cluster the trace is exactly the resources reached along what leads where, each once, in nondecreasing length of the shortest path |
| TracerLaws.NearExactly | llm_d_stack_discovery/discovery/tracer.py:374-530 | hops in the graph of successors are hops along what leads where |
| TracerLaws.ComponentsExactly | llm_d_stack_discovery/discovery/tracer.py:388-555 | the components are exactly the reports on the resources visited, each from the collector of its kind; a pod is reported by the first of vLLM, GAIE and generic that knows it |
| TracerLaws.ComponentsInOrder | llm_d_stack_discovery/discovery/tracer.py:554-557 | they come in the order of the visits |
| TracerLaws.SharedKeyLosesOne | llm_d_stack_discovery/discovery/tracer.py:378-382 | two backends of the entry under one key: one of the reachable resources is missing from the trace |
| TracerLaws.FallbackCanLoseAPod | llm_d_stack_discovery/discovery/tracer.py:690-720 | why a backendRef must not name an empty namespace, which the API server rules out: it would fall back to the pods of all namespaces and keep one of two pods of the same name |
| LayoutTree.BuildTree | util/generate_workload_layout.py:74-103 | the loops over paths and roots print the text that the model gives for them |
| LayoutTree.Emit | util/generate_workload_layout.py:86-96 | the recursive printer appends the lines of everything below a directory, directories first |
| NameOrder.SortedLists | util/generate_workload_layout.py:87-88 | the keys are listed once each, in string order |
| LayoutPaths.SiblingsInOrder | util/generate_workload_layout.py:86-89 | among siblings every directory comes before every file, each kind in string order |
| LayoutParser.ParseComments | util/generate_workload_layout.py:53-71 | the loop with its stack finds the comments that reading the lines one by one gives |
| LayoutPaths.KeysAreThePath | util/generate_workload_layout.py:77-82 | splitting a path gives directories with their slash and a name without; put together again they are the path |
| LayoutPaths.TreeHolds | util/generate_workload_layout.py:76-82 | the nested dictionaries hold exactly the leading parts of the paths, and no key is both a file and a directory |
| LayoutPaths.PrintedExactly | util/generate_workload_layout.py:74-103 | what is printed is exactly the paths under a root and the directories they pass through |
| LayoutOrder.PrintedInOrder | util/generate_workload_layout.py:85-102 | of two printed lines of one directory the first is a directory and the second a file, or they are of a kind and in string order; none is printed twice |
| LayoutOrder.RootBlocks | util/generate_workload_layout.py:98-102 | one block for each root in the tree, `experiments` first, with an empty line between two |
| LayoutOrder.BlankBeforeRoots | util/generate_workload_layout.py:99-101 | a line is empty exactly if it stands before a root that is not the first line |
| LayoutParser.WrittenLine | util/generate_workload_layout.py:58-71 | a line written by hand reads back its name, half its indent rounded down, and what stands behind the first `#`, stripped |
| LayoutParser.EmptyLine | util/generate_workload_layout.py:59-65 | a line of blanks says nothing, with or without a comment |
| TextLines.AnyBreak | util/generate_workload_layout.py:58 | every character that breaks lines ends a line |
| TextLines.CarriageReturn | util/generate_workload_layout.py:58 | a carriage return and the line feed behind it end one line |
| LayoutParser.LineReadsBackExactly | util/generate_workload_layout.py:61-70 | a printed line reads back as its entry if and only if the name has no `#`, is not empty and has no outer blanks, and the comment is empty or stripped |
| LayoutParser.CommentsLineUp | util/generate_workload_layout.py:91-94 | the `#` stands in the comment column, or one space behind a longer name |
| TextLines.SplitUndoesJoin | util/generate_workload_layout.py:57-103 | splitting the printed text gives back its lines, whatever their number |
| LayoutRoundTrip.StackIsTheAncestors | util/generate_workload_layout.py:66-69 | at every line the stack cut to the indent is the chain of directories the printer was in |
| LayoutRoundTrip.LinesReadBack | util/generate_workload_layout.py:53-71 | reading printed lines leaves the stack the last entry calls for and exactly the comments of the lines |
| LayoutRoundTrip.ParseUndoesBuild | util/generate_workload_layout.py:53-103 | parsing a printed tree gives exactly the given comments of the printed paths |
| LayoutRoundTrip.ShownCommentsPrintTheSame | util/generate_workload_layout.py:92 | printing with only those comments gives the same text |
| LayoutReadme.ParsedNotesFit | util/generate_workload_layout.py:53-71 | comments parsed from a code block are stripped, fit on a line and hold no fence |
| LayoutReadme.OnlyTheBlockChanges | util/generate_workload_layout.py:106-117 | text before and after the block is kept, the new block is found again, and it shows the listed paths with the comments they had |
| LayoutReadme.RenderTwice | util/generate_workload_layout.py:114-117 | regenerating twice is regenerating once |
| UserSession.TokenBasedLocalUserSession.AcquireInFlight | experimental/multi-turn/production-trace-replay-qwen.py:102-104 | a free lock without waiters is taken at once and the round counted; otherwise the task joins the waiters; the lock discipline is kept |
| UserSession.TokenBasedLocalUserSession.GetContext | experimental/multi-turn/production-trace-replay-qwen.py:96-104 | a task queues behind a busy session, and goes for the lock otherwise; the lock discipline is kept |
| UserSession.TokenBasedLocalUserSession.FinishAcquire | experimental/multi-turn/production-trace-replay-qwen.py:102-104 | a woken waiter is the first one and the lock is free; it takes the lock and the round is counted |
| UserSession.TokenBasedLocalUserSession.UpdateContext | experimental/multi-turn/production-trace-replay-qwen.py:106-113 | the context is replaced, the head of the queue resolved and the lock released, its first waiter woken; the order of the queue is `TurnQueue` |
| TurnTaking.StepKeepsInv | experimental/multi-turn/production-trace-replay-qwen.py:96-201 | every step of every interleaving keeps the invariant on lock, phases, wake-ups and history |
| TurnTakingRuns.MutualExclusion | experimental/multi-turn/production-trace-replay-qwen.py:96-113 | at most one turn is in flight, and the lock is held exactly while one is |
| TurnTakingRuns.InFlightCanEnd | experimental/multi-turn/production-trace-replay-qwen.py:157-201 | a turn in flight can always end, in success or failure, and holds the lock it releases |
| TurnTakingRuns.NoLostWakeUp | experimental/multi-turn/production-trace-replay-qwen.py:96-113 | while turns are queued the lock is held, has waiters, or a task has been woken |
| TurnTakingRuns.NoLostLockWakeUp | experimental/multi-turn/production-trace-replay-qwen.py:102-113 | a free lock with waiters has woken the first of them, which can take it |
| TurnTakingRuns.LinearHistory | experimental/multi-turn/production-trace-replay-qwen.py:96-201 | the context is the concatenation, in acquisition order, of prompt and output of the turns that succeeded; the holder has saved the context; rounds count acquisitions |
| TurnTakingRuns.RunsEnd | experimental/multi-turn/production-trace-replay-qwen.py:96-201 | without arrivals every run is bounded by a rank of the open turns |
| TurnTakingRuns.RestMeansAllServed | experimental/multi-turn/production-trace-replay-qwen.py:96-201 | when nothing can happen, every turn that arrived has acquired and ended |
| TurnTakingRuns.NoTurnStranded | experimental/multi-turn/production-trace-replay-qwen.py:96-201 | so no interleaving strands a turn |
| TurnQueue.QueueServesInOrder | experimental/multi-turn/production-trace-replay-qwen.py:96-113 | from any state, read off the phases before and after each step: the turns woken, then those still queued, are those that were queued, then those that queued since, in order |
| TurnQueue.WokenInQueueingOrder | experimental/multi-turn/production-trace-replay-qwen.py:96-113 | over every run the turns woken are the first that queued, in that order, and the others are exactly the turns still queued |
| TurnQueue.ArrivalQueuesExactly | experimental/multi-turn/production-trace-replay-qwen.py:97-104 | an arriving turn queues exactly if another is in flight or queued, and is in flight at once exactly if none is, nor waits for the lock |
| TurnQueue.EndWakesExactly | experimental/multi-turn/production-trace-replay-qwen.py:106-113 | the end of a turn wakes a queued turn exactly if there is one |
| TurnOrder.LockServesInAskingOrder | experimental/multi-turn/production-trace-replay-qwen.py:96-113 | from any state, turns take the lock in the order they go for it, behind those that went before |
| TurnOrder.TakenInAskingOrder | experimental/multi-turn/production-trace-replay-qwen.py:96-113 | over every run: the turns that took the lock, then those waiting for it, are those that went for it, in order |
| TurnOrder.AskedInArrivalOrderExactly | experimental/multi-turn/production-trace-replay-qwen.py:96-113 | turns go for the lock in the order they arrived if and only if at no step one of them goes while an earlier arrival is queued, or woken and not resumed |
| TurnOrder.ServedInArrivalOrderExactly | experimental/multi-turn/production-trace-replay-qwen.py:96-113 | when all turns are served, they took the lock in the order they arrived under exactly that condition |
| TurnTakingRuns.ArrivalOrderNotKept | experimental/multi-turn/production-trace-replay-qwen.py:97-113 | a run in which it fails: the third turn takes the lock before the second, which is woken and not resumed |
| TurnOrder.ThirdPassesSecond | experimental/multi-turn/production-trace-replay-qwen.py:97-113 | in that run some step passes an earlier arrival |
| TimeSeries.SumByTs | benchmark-report/llmd_benchmark_report/timeseries.py:89-94 | the sums are taken per instant, over exactly the instants scraped; what a sum is, `DeltaLaws.EnginesAdd` and `SumOfOne` say |
| DeltaLaws.SumOfOne | benchmark-report/llmd_benchmark_report/timeseries.py:91-94 | no scrape sums to 0, and one scrape to its value at its instant |
| DeltaLaws.EnginesAdd | benchmark-report/llmd_benchmark_report/timeseries.py:90-94 | the merged series of two engines has at each instant the sum of what each has alone, in whatever order its points come |
| DeltaLaws.SumOfMultiset | benchmark-report/llmd_benchmark_report/timeseries.py:91-94 | the order of the points does not matter |
| TimeSeries.ComputeRatioDeltas | benchmark-report/llmd_benchmark_report/timeseries.py:97-117 | the loop gives the increases between consecutive common instants, without those of no traffic or of a restart |
| DeltaLaws.RatioDeltasExactly | benchmark-report/llmd_benchmark_report/timeseries.py:97-117 | the deltas, in the order of time, are exactly what the counters gained between two instants at which both were scraped, with none in between, if queries were gained and hits not lost; nothing for a missing counter |
| DeltaLaws.RatesExactly | benchmark-report/llmd_benchmark_report/timeseries.py:120-131 | each rate is the hits gained for a hundred queries, and 100 where more hits than queries were gained |
| StageLaws.ClipKeeps | benchmark-report/llmd_benchmark_report/timeseries.py:143-162 | clipping keeps exactly the points in the half-open window |
| StageLaws.ConsecutiveWindowsSplit | benchmark-report/llmd_benchmark_report/timeseries.py:143-162 | consecutive windows split a sorted series with nothing lost or counted twice |
| StageLaws.ClipThenDiff | benchmark-report/llmd_benchmark_report/metrics_processor.py:445-452 | the rates of a stage are the whole run's rates in the stage less the one at its first common scrape, so none uses a scrape from before the stage |
| StageLaws.MissingCounter | benchmark-report/llmd_benchmark_report/timeseries.py:105-106 | a pod without one of the counters has no rates and no totals, in any stage |
| StageLaws.StageAdditivity | benchmark-report/llmd_benchmark_report/timeseries.py:134-162 | the totals of two adjoining stages and the one delta that joins them are the totals of both stages together |
| HitRates.WeightedRateBetween | benchmark-report/llmd_benchmark_report/metrics_processor.py:463-484 | a traffic-weighted rate lies between the least and the greatest of its parts |
| HitRates.MeanOfSeries | benchmark-report/llmd_benchmark_report/metrics_processor.py:451-463 | the reported mean is at least some entry of the series, and at most some entry if and only if the hits gained do not exceed the queries gained |
| HitRates.MeanWithinIfHitsAreQueries | benchmark-report/llmd_benchmark_report/metrics_processor.py:451-463 | if no interval gained more hits than queries, the mean lies between two entries of the series |
| HitRates.SteadyMeanWithinExactly | benchmark-report/llmd_benchmark_report/metrics_processor.py:451-463 | for steady counters the mean lies within the series if and only if hits gained no more than queries from the first scrape to the last |
| HitRates.MeanAboveTheSeries | benchmark-report/llmd_benchmark_report/timeseries.py:128-140 | two hits for one query: the series says 100 and the mean 200 |
| HitRates.TotalsTelescope | benchmark-report/llmd_benchmark_report/timeseries.py:134-140 | for counters that never reset and hits that move only with queries, the totals are last minus first |
| HitRates.HitRateStatistics | benchmark-report/llmd_benchmark_report/metrics_processor.py:444-484 | for one hit rate, the loop over pods reports the mean of every pod with rates, and pools exactly those |
| HitRates.PodReports | benchmark-report/llmd_benchmark_report/metrics_processor.py:451-470 | a pod reports the gains of its own clipped counters, exactly if it has a rate in the stage |
| HitRates.ReportingAdds | benchmark-report/llmd_benchmark_report/metrics_processor.py:444-484 | every pod is pooled once |
| HitRates.PooledMeanBetween | benchmark-report/llmd_benchmark_report/metrics_processor.py:472-484 | the pooled mean lies between the least and the greatest pod mean |
| Decimation.DecimationIsEven | benchmark-report/llmd_benchmark_report/timeseries.py:165-172 | with room for two or more, exactly that many points are kept, in order, first and last included, no gap above the stride plus one |
| Decimation.DecimationFails | benchmark-report/llmd_benchmark_report/timeseries.py:168-170 | room for one point fails on longer lists, and nothing else does; a positive limit is never exceeded |
| Decimation.WithinTheLimit | benchmark-report/llmd_benchmark_report/timeseries.py:168-169 | a list within the limit, or without one, comes back as it is |
| Decimation.IndexIsNearest | benchmark-report/llmd_benchmark_report/timeseries.py:170-171 | the i-th index is the whole number nearest to i (n - 1) / (m - 1), and of two the even one |
| Decimation.IndicesIncrease | benchmark-report/llmd_benchmark_report/timeseries.py:171 | rounding never makes two strides coincide |
| Percentiles.PercentilesAgree | benchmark-report/llmd_benchmark_report/metrics_processor.py:391-399 | the two interpolators of the repository agree on every list of values, p in [0, 1] against 100 p |
| Percentiles.PercentileValue | experimental/priority-mix/priority_mix.py:284-293 | a position that is a fraction of the way from one ordered value to the next gives the value that fraction of the way between them |
| Percentiles.ReportPercentileValue | benchmark-report/llmd_benchmark_report/metrics_processor.py:391-399 | the same of the interpolator of the report |
| Percentiles.PercentileOfFew | experimental/priority-mix/priority_mix.py:285-290 | no value gives 0, and one value is every percentile |
| Percentiles.SomeCell | experimental/priority-mix/priority_mix.py:288-292 | every percentile of two or more values is at such a position |
| Percentiles.PercentileMonotone | experimental/priority-mix/priority_mix.py:284-293 | percentiles grow with p and run from the least value to the greatest |
| Percentiles.PercentileOfMultiset | experimental/priority-mix/priority_mix.py:284-293 | a percentile depends on the values as a multiset only |
| EmbeddedSeries.BuildEmbeddedTimeSeries | benchmark-report/llmd_benchmark_report/metrics_processor.py:516-576 | the loops return the fields to declare a version against and count the points kept and available; never more kept than available |
| EmbeddedSeries.BuildForPod | benchmark-report/llmd_benchmark_report/metrics_processor.py:526-552 | the same for the fields of one pod |
| EmbeddedSeries.EmbeddedExactly | benchmark-report/llmd_benchmark_report/metrics_processor.py:526-552 | a stage embeds of a metric exactly the points inside it, and of a ratio all the rates available: none lies outside |
| EmbeddedSeries.StagesEmbedOnce | benchmark-report/llmd_benchmark_report/metrics_processor.py:526-552 | two adjoining stages embed of a metric as many points as one stage over both |
| EmbeddedSeries.CountAdds | benchmark-report/llmd_benchmark_report/metrics_processor.py:526-552 | the points of every pod and of every field are counted once |
| EmbeddedSeries.VersionRaisedExactly | benchmark-report/llmd_benchmark_report/metrics_processor.py:765-770 | the declared version changes if and only if it was 0.2 and some pod shows points for some field added since |
| EmbeddedSeries.AnchoredAgree | benchmark-report/llmd_benchmark_report/metrics_processor.py:516-576 | if every ratio added after 0.2 has a counter that is a plain field added then, one report that raises the version makes all siblings raise it |
| EmbeddedSeries.SiblingsAgreeExactly | benchmark-report/llmd_benchmark_report/metrics_processor.py:516-576 | the version declared is the same for all windows and for none, whatever was scraped and declared before, if and only if the table has that form |
| EmbeddedSeries.DefaultTableAgrees | benchmark-report/llmd_benchmark_report/metrics_processor.py:19-158 | the default table has it, so its sibling reports declare one version |
| EmbeddedSeries.UnanchoredDisagree | benchmark-report/llmd_benchmark_report/metrics_processor.py:516-576 | two scrapes on which a table of another form makes the report of the run declare 0.2.1 and that of a stage with one scrape 0.2 |
| ConfigTree.GetNested | benchmark-report/llmd_benchmark_report/core.py:85-94 | the walk returns what stands at the end of the path, or the default |
| DeepMerge.DeepMergeDicts | llmdbenchmark/cli.py:2931-2943 | the loop over the override's items computes the merge |
| DeepMergeLaws.OverrideWins | llmdbenchmark/cli.py:2931-2943 | a leaf of the override stands at its path in the merge |
| DeepMergeLaws.FlatOverrideExactly | llmdbenchmark/cli.py:2931-2943 | a merge overrides flat path-to-value maps, None read as absent, if and only if the trees are shape-compatible |
| DeepMergeLaws.LeafHidesASubtree | llmdbenchmark/cli.py:2939-2942 | a leaf of the override removes the leaves below it in the base, so that merge is no flat override |
| DeepMergeLaws.NoneInOverride | llmdbenchmark/cli.py:2937-2942 | a None of the override gives way to the base wherever both trees have the dictionary it stands in, and is copied elsewhere |
| DeepMergeLaws.NothingInOverride | llmdbenchmark/cli.py:2936-2942 | where the override sets nothing, or None, in a dictionary of its own, the base decides if it has that dictionary too |
| DeepMergeLaws.NoneLosesAndStands | llmdbenchmark/cli.py:2937-2942 | an input on which a None loses to the base, and one on which it stands |
| DeepMergeLaws.MergeIdempotent | llmdbenchmark/cli.py:2931-2943 | merging a tree with itself changes nothing |
| DeepMergeLaws.AssociativeExactly | llmdbenchmark/cli.py:2931-2943 | merging is associative on three trees if and only if no leaf of the second stands between a dictionary of the first and one of the third that lacks a key of it or has a None it has not |
| DeepMergeLaws.NothingToAddExactly | llmdbenchmark/cli.py:2931-2943 | a tree merged over another is itself if and only if it has all the keys of the other and None only where the other has it, at every depth |
| DeepMergeLaws.CompatibleAssociative | llmdbenchmark/cli.py:2931-2943 | for shape-compatible upper layers merging is associative |
| DeepMergeLaws.NoneTellsGroupingsApart | llmdbenchmark/cli.py:2937-2942 | three trees on which grouping matters although the first adds no value |
| DeepMergeLaws.CompatibleWithMerge | llmdbenchmark/cli.py:3014-3040 | shape-compatibility of the layers carries over to their merges |
| SetupOverrides.BuildSetupOverridesByStack | llmdbenchmark/cli.py:3004-3040 | the global bucket is the three layers under `--set`; other buckets are untouched; the bucket appears only if a layer has something |
| SetupOverrides.Underlay | llmdbenchmark/cli.py:3014-3018 | a layer goes under the global bucket only if it is not empty |
| SetupOverrides.SetAlwaysWins | llmdbenchmark/cli.py:3004-3040 | a value given by `--set`, None aside, stands at its path whatever the other layers hold |
| SetupOverrides.FateOfNone | llmdbenchmark/cli.py:3004-3040 | a None given by `--set` is settled by the first layer below that has the dictionary it stands in and something there; a layer that has the dictionary and nothing there removes it; otherwise it stands |
| SetupOverrides.NoneLosesToNoPvc | llmdbenchmark/parser/cli_overrides.py:236-241 | `modelservice.uriProtocol=null` with `--no-pvc` gives `hf` |
| SetupOverrides.PrecedenceChain | llmdbenchmark/cli.py:3004-3040 | for shape-compatible layers every path holds the value of the first of set, description, no-pvc and cluster that has one |
| SetupOverrides.SyntheticLayersCompatible | llmdbenchmark/cli.py:2972-3018 | the two built-in layers never clash |
| SetupOverrides.NoPvcLeaves | llmdbenchmark/cli.py:2946-2975 | `--no-pvc` sets `modelservice.uriProtocol` to `hf` and `standalone.mountModelVolume` to false, for a standup or an update, and nothing else |
| SetupOverrides.DescriptionLeaves | llmdbenchmark/cli.py:3004-3018 | the description holds the text if it is not empty and the keywords if any were given, and nothing else |
| UpdateInPlace.Update | benchmark-report/llmd_benchmark_report/core.py:97-114 | over linked dictionaries, which may share some already: the call raises exactly when a dictionary meets a true non-dictionary; `dest` then stands for a tree between the old and the updated one, and otherwise for the updated one; the source and all below it are unchanged, shared or not; dictionaries of `dest` stay in place, and change below a key only where both have one |
| UpdateDict.BetweenReads | benchmark-report/llmd_benchmark_report/core.py:105-114 | after an update that raised, every path reads as before or as updated, unless it leads to a dictionary in between |
| UpdateInPlace.UpdateEntry | benchmark-report/llmd_benchmark_report/core.py:105-114 | one item of the source, all four branches, with the dictionaries of other entries untouched |
| UpdateInPlace.UpdateItem | benchmark-report/llmd_benchmark_report/core.py:106-112 | the recursive call, on two dictionaries or on one that both hold |
| UpdateInPlace.LinkItem | benchmark-report/llmd_benchmark_report/core.py:114 | the value is linked in, its dictionaries included |
| UpdateInPlace.UpdateTwiceInPlace | benchmark-report/llmd_benchmark_report/core.py:97-114 | applying a source twice in place is applying it once, although the first run makes the two share dictionaries |
| UpdateInPlace.UpdateFromTwo | benchmark-report/llmd_benchmark_report/core.py:105-114 | a second source is written through to dictionaries of the first only below keys where both have a dictionary; all else of the first is unchanged |
| UpdateInPlace.SecondSourceWritesThrough | benchmark-report/llmd_benchmark_report/core.py:112-114 | an input on which the second source changes a dictionary of the first |
| UpdateInPlace.UpdateWithItself | benchmark-report/llmd_benchmark_report/core.py:97-114 | `update_dict(d, d)` raises nothing and changes nothing |
| UpdateDict.RaisesExactly | benchmark-report/llmd_benchmark_report/core.py:106-112 | an update raises if and only if some path has a dictionary in `dest` and a true non-dictionary in `source` |
| UpdateDict.UpdateReadsBack | benchmark-report/llmd_benchmark_report/core.py:73-114 | after an update every path reads what the source has there, unless that is false and a dictionary stood there, and the old value otherwise |
| UpdateDict.SelfUpdate | benchmark-report/llmd_benchmark_report/core.py:97-114 | updating with itself changes nothing and does not raise |
| UpdateDict.UpdateTwice | benchmark-report/llmd_benchmark_report/core.py:97-114 | applying a source twice is applying it once |
| UpdateDict.LeafMeetsADict | benchmark-report/llmd_benchmark_report/core.py:106-112 | a true leaf meeting a dictionary raises, a false one leaves it, and the deep merge replaces it |
| UpdateDict.NoneIsWritten | benchmark-report/llmd_benchmark_report/core.py:113-114 | a None is written, where the deep merge skips it |
| UpdateDict.AgreeExactly | benchmark-report/llmd_benchmark_report/core.py:97-114 | updating does not raise and agrees with the deep merge if and only if no leaf meets a dictionary and no None gets written |
| Experiment.Driver.Cycle | llmdbenchmark/cli.py:2008-2173 | one treatment: the phases attempted and the record written follow the rules of `CycleExactly` and `RecordExactly`; whether the loop stops or an exception leaves the driver |
| Experiment.Driver.ExecuteExperiment | llmdbenchmark/cli.py:2005-2176 | over all outcomes: the trace is one cycle after the other and the records are those the rules call for, of the treatments started; workspace and plan directory are restored if and only if the last treatment started let no exception but a PhaseError (or one while rendering) through |
| Experiment.CycleExactly | llmdbenchmark/cli.py:2025-2139 | from the outcomes alone: the trace of a cycle is the one trace with each phase at most once, in order, a standup iff the rendering was done, a smoketest iff the standup was too, a run iff the smoketest was too, a teardown iff enabled, a standup was attempted and no other exception came before |
| Experiment.CyclesExactly | llmdbenchmark/cli.py:2005-2173 | the trace of an experiment is the one made of such cycles, one a treatment |
| Experiment.RecordExactly | llmdbenchmark/cli.py:2034-2170 | the record names the first phase that failed and its message, counts the runs if only the teardown failed, and says where the treatment ran |
| Experiment.CrashExactly | llmdbenchmark/cli.py:2050-2139 | an exception leaves the driver exactly if a phase other than the rendering was attempted and raised it |
| Experiment.StopsExactly | llmdbenchmark/cli.py:2046-2173 | an experiment told to stop does so exactly after a phase before the teardown was attempted and failed |
| ExperimentSafety.OwnWorkspaces | llmdbenchmark/cli.py:2010-2023 | two treatments share a workspace exactly if they share their name |
| Experiment.Driver.RunAndTearDown | llmdbenchmark/cli.py:2109-2173 | the run, the teardown after it and the record of the two |
| Experiment.Driver.Cleanup | llmdbenchmark/cli.py:2058-2070 | the cleanup after a failed phase swallows a PhaseError and lets anything else through |
| ExperimentSafety.CycleAlternates | llmdbenchmark/cli.py:2050-2139 | one cycle attempts at most one standup and one teardown, in this order |
| ExperimentSafety.StandupThenTeardown | llmdbenchmark/cli.py:2005-2173 | with teardown enabled every standup is followed by one teardown before the next, and the last one too if and only if no other exception came in between |
| ExperimentSafety.RunExceptionSkipsTeardown | llmdbenchmark/cli.py:2109-2139 | an exception of the run phase that is no PhaseError: a standup without teardown, and an experiment that does not finish |
| ExperimentSafety.SkippedTeardownNeverHappens | llmdbenchmark/cli.py:2126-2139 | with `--skip-teardown` none is attempted |
| ExperimentSafety.PhasesRunAtHome | llmdbenchmark/cli.py:2017-2023 | every phase runs in the workspace of a treatment of the plan |
| ExperimentSafety.StartedExactly | llmdbenchmark/cli.py:2046-2173 | all treatments before the last one started went on; the last one ended the loop unless the plan was done |
| ExperimentSafety.SuccessMeansAllDone | llmdbenchmark/cli.py:2143-2170 | a success is recorded if and only if every phase succeeded, a teardown failure with an empty message aside |
| ExperimentSafety.RecordsOfARun | llmdbenchmark/cli.py:2034-2173 | one record per treatment started, in order; with `stop_on_error` all before the last are successes or failed teardowns; without it all treatments are recorded |

## Left out

- BuildTree: the nested dictionaries of `build_tree` are values rebuilt along the path, so the moving `node` cursor and its aliasing are not captured.
- HitRateStatistics: models the means of one hit rate over all pods; percentiles, units, roles and plain metrics of a statistics entry are not part of it.
- Update: takes dictionaries that are trees and share with each other under the same keys only, so one dictionary under two keys (a YAML alias) is not captured.
- BuildEmbeddedTimeSeries: counts points and fields; the `components` list of the report, the series text, and the `scraped_from` and `scraped_to` stamps are not part of this model.
- BuildSetupOverridesByStack: starts from the parsed `--set` buckets and the parsed keywords; parse errors, warnings and log lines are not modelled.
- WeightedSchedule: weights are exact reals, so ties that floating point would break by rounding are ties here.
- Cancellation of asyncio tasks and pickling of a session between processes.
- The order in which a dictionary's items are visited, except in the tree printer, where it is sorted.
- `sys.exit` inside a phase, durations, log lines and the summary file of the experiment driver.
- Floating-point rounding; only the rounding of half to even in `downsample` is modelled.
- Errors of the Kubernetes API during a trace, entry-point discovery from a URL, and API-group variants of one kind, which share a key.
- Collecting and sorting raw scrapes (`collect_time_series_data`), standard deviations, and the `max_points` setting.
- `git ls-files`, the excluded file names and the `--check` exit code of the layout script.
- The other README sync scripts, schema classes, unit tables and field-copying converters: flat mappings with easy members only.
