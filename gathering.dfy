/**
 * Result gathering (go/tools/macrobench/results.go, getBenchmarkResults and
 * getBenchmarkResultsLastXDays): fetch the runs of a benchmark type, then fetch the
 * metrics of each run, failing on the first error.
 */
module Gathering {
  import opened Wrappers
  import opened Metrics
  import opened Macrobench

  /** The metrics fetch for one run, keyed by its execution id. */
  function MetricsOf(store: Store, run: Details): Fetch<ExecutionMetrics>
  {
    store.executionMetrics(run.execUUID)
  }

  /** The index of the first run whose metrics cannot be fetched, or `|runs|` when there is none. */
  function FirstFailure(store: Store, runs: seq<Details>): (i: nat)
    ensures i <= |runs|
    ensures forall j :: 0 <= j < i ==> MetricsOf(store, runs[j]).Ok?
    ensures i < |runs| ==> MetricsOf(store, runs[i]).Err?
    decreases |runs|
  {
    if runs == [] || MetricsOf(store, runs[0]).Err? then 0
    else 1 + FirstFailure(store, runs[1..])
  }

  /** The outcome of the loop over `runs`: the first metrics error, or every result with its metrics. */
  function GatherRuns(store: Store, runs: seq<Details>): (BenchmarkResults, Option<Error>)
  {
    var i := FirstFailure(store, runs);
    if i < |runs| then (EmptyResults, Some(MetricsOf(store, runs[i]).error))
    else
      (BenchmarkResults(
         seq(|runs|, j requires 0 <= j < |runs| => runs[j].result),
         seq(|runs|, j requires 0 <= j < |runs| && MetricsOf(store, runs[j]).Ok? => MetricsOf(store, runs[j]).value)),
       None)
  }

  /** What a gathering returns once the store has answered the runs query with `fetched`. */
  function FromFetch(store: Store, fetched: Fetch<seq<Details>>): (out: (BenchmarkResults, Option<Error>))
    // A failed runs query is returned with the zero value.
    ensures fetched.Err? ==> out == (EmptyResults, Some(fetched.error))
    // No runs is not an error.
    ensures fetched == Ok([]) ==> out == (EmptyResults, None)
    // Any error comes with the zero value: no partial result.
    ensures out.1.Some? ==> out.0 == EmptyResults
    // With the runs in hand, it fails exactly when some run's metrics fail, and then with the first such error.
    ensures fetched.Ok? ==>
              (out.1.None? <==> forall i :: 0 <= i < |fetched.value| ==> MetricsOf(store, fetched.value[i]).Ok?)
    ensures fetched.Ok? && out.1.Some? ==>
              exists i :: 0 <= i < |fetched.value| && MetricsOf(store, fetched.value[i]) == Err(out.1.value) &&
                forall j :: 0 <= j < i ==> MetricsOf(store, fetched.value[j]).Ok?
    // On success, one result and one metrics row per run, in run order.
    ensures fetched.Ok? && out.1.None? ==>
              && |out.0.results| == |fetched.value|
              && |out.0.metrics| == |fetched.value|
              && forall i :: 0 <= i < |fetched.value| ==>
                   out.0.results[i] == fetched.value[i].result &&
                   MetricsOf(store, fetched.value[i]) == Ok(out.0.metrics[i])
  {
    match fetched
    case Err(e) => (EmptyResults, Some(e))
    case Ok(runs) => if |runs| == 0 then (EmptyResults, None) else GatherRuns(store, runs)
  }

  /** The outcome of `getBenchmarkResults`, as a function of the store. */
  function BenchmarkResultsFor(store: Store, macroType: string, gitSHA: string, planner: PlannerVersion): (BenchmarkResults, Option<Error>)
  {
    FromFetch(store, store.resultsForGitRefAndPlanner(macroType, gitSHA, planner))
  }

  /** The outcome of `getBenchmarkResultsLastXDays`, as a function of the store. */
  function BenchmarkResultsLastXDaysFor(store: Store, macroType: string, sha: string, planner: PlannerVersion, days: int): (BenchmarkResults, Option<Error>)
  {
    FromFetch(store, store.resultsForLastDays(macroType, sha, planner, days))
  }

  /** The loop shared by both gatherings: append each run's result, then fetch its metrics; stop at the first error. */
  method CollectRuns(store: Store, runs: seq<Details>) returns (br: BenchmarkResults, err: Option<Error>)
    ensures (br, err) == GatherRuns(store, runs)
  {
    br := EmptyResults;
    for k := 0 to |runs|
      invariant forall j :: 0 <= j < k ==> MetricsOf(store, runs[j]).Ok?
      invariant |br.results| == k && |br.metrics| == k
      invariant forall j :: 0 <= j < k ==> br.results[j] == runs[j].result && MetricsOf(store, runs[j]) == Ok(br.metrics[j])
    {
      var result := runs[k];
      br := br.(results := br.results + [result.result]);
      var metricsResult := store.executionMetrics(result.execUUID);
      if metricsResult.Err? {
        assert FirstFailure(store, runs) == k;
        return EmptyResults, Some(metricsResult.error);
      }
      br := br.(metrics := br.metrics + [metricsResult.value]);
    }
    assert FirstFailure(store, runs) == |runs|;
    assert br.results == GatherRuns(store, runs).0.results;
    assert br.metrics == GatherRuns(store, runs).0.metrics;
    err := None;
  }

  /** `getBenchmarkResults`: the runs of `macroType` at `gitSHA` with `planner`, each with its metrics. */
  method GetBenchmarkResults(store: Store, macroType: string, gitSHA: string, planner: PlannerVersion)
    returns (br: BenchmarkResults, err: Option<Error>)
    ensures (br, err) == BenchmarkResultsFor(store, macroType, gitSHA, planner)
  {
    var results := store.resultsForGitRefAndPlanner(macroType, gitSHA, planner);
    if results.Err? {
      return EmptyResults, Some(results.error);
    }
    if |results.value| == 0 {
      return EmptyResults, None;
    }
    br, err := CollectRuns(store, results.value);
  }

  /** `getBenchmarkResultsLastXDays`: the same gathering over the runs of the last `days` days. */
  method GetBenchmarkResultsLastXDays(store: Store, macroType: string, sha: string, planner: PlannerVersion, days: int)
    returns (br: BenchmarkResults, err: Option<Error>)
    ensures (br, err) == BenchmarkResultsLastXDaysFor(store, macroType, sha, planner, days)
  {
    var results := store.resultsForLastDays(macroType, sha, planner, days);
    if results.Err? {
      return EmptyResults, Some(results.error);
    }
    if |results.value| == 0 {
      return EmptyResults, None;
    }
    br, err := CollectRuns(store, results.value);
  }
}
