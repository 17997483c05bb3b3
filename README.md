# Macro-benchmark results engine, modelled in Dafny

This project models the macro-benchmark results engine of arewefastyet,
`go/tools/macrobench/results.go`. The engine works in three layers.

- **Columnar projection.** `resultsArrayToSlice` turns a list of run results into
  parallel columns, one per field. `metricsToSlice` turns the execution metrics of the
  runs into two total columns and two maps keyed by component name, one for CPU time and
  one for allocated memory. `asSlice` joins the two.
- **Gathering.** `getBenchmarkResults` and `getBenchmarkResultsLastXDays` fetch the
  runs of one benchmark type from the store, then fetch the metrics of each run. They
  stop at the first error.
- **Orchestration.** `Compare` and `Search` do this for every requested benchmark type.
  They hand the projections to the statistics code and collect one entry per type.

Modules, one per layer:

- `Wrappers` (wrappers.dfy): `Option`, `Fetch` and `Error`. They model Go's
  `(value, error)` convention.
- `Metrics` (metrics.dfy): the execution-metrics record read by the engine.
- `Macrobench` (macrobench.dfy): the records and column types of results.go, and the
  store.
- `Projection` (projection.dfy), `Gathering` (gathering.dfy) and `Orchestration`
  (orchestration.dfy): the three layers.

Modelling choices:

- `float64` values are `real`. The engine only copies them and never computes with them.
- A Go nil slice or nil map is the empty `seq` or `map`. Reading a nil map in Go
  behaves like reading an empty one. Both the error return `BenchmarkResults{}` and the
  zero `resultAsSlice` are therefore empty values.
- Go returns a value and an error together. That is modelled as a pair whose second
  half is `Option<Error>`. A nil result map is `None`.
- The store is the datatype `Store`. It holds three total functions: the runs query,
  the runs query for the last days, and the per-execution metrics query. Each returns
  `Ok(v)` or `Err(e)`.
- `getSummary` and `performAnalysis` are function parameters. Their result types are
  the type parameters `S` and `C`, so they stay uninterpreted.
- Go's map iteration order is arbitrary. Loops over a map's entries (`AppendRow`,
  `SummarizeComponents`) take the next key with `:|`, so their contracts hold for every
  order. `AppendOrderIrrelevant` also states order independence for one metrics row.
- A component that is missing from some rows gets a shorter column. It is dropped, not
  zero-filled. `Present` gives a component's values in row order.
- `results.go` makes no alignment check between `Results` and `Metrics`
  (results.go:119-123), so none is modelled.
- For a type with no runs, `Search` passes the empty columns to `getSummary` and stores
  what it returns (results.go:185-213).
- What `performAnalysis` does with the two projections is not modelled.

## Model

| member | source | states |
|---|---|---|
| `Projection.ResultsArrayToSlice` | go/tools/macrobench/results.go:143-158 | each standard column (QPS total/read/write/other, tps, latency, errors, reconnects, time, threads) has exactly one entry per run, and entry `i` is that field of run `i`; the metric columns stay at their zero value; the result is the reference projection `ResultColumns` |
| `Projection.AppendRow` | go/tools/macrobench/results.go:131-133 | appending one metrics row's entries, in any key order, gives `AppendEntries`: each name of the row has that row's value added at the end of its column, and names not in the row keep their column |
| `Projection.AppendOrderIrrelevant` | go/tools/macrobench/results.go:131-138 | appending two disjoint groups of a row's entries gives the same map whichever group goes first |
| `Projection.PresentLength` | go/tools/macrobench/results.go:131-138 | a component's column is never longer than the number of rows, and is exactly that long only when every row has the component |
| `Projection.KeyedColumnsKeys` | go/tools/macrobench/results.go:127-138 | the keys of a per-component map are the union of component names over all rows |
| `Projection.KeyedColumnsPresent` | go/tools/macrobench/results.go:131-138 | each name's column holds the values of the rows that have that name, in row order |
| `Projection.KeyedColumnsMeaning` | go/tools/macrobench/results.go:127-138 | combines key set = union of names, column = values of the rows that have the name, length at most the row count, and an empty map for no rows |
| `Projection.MetricColumnsMeaning` | go/tools/macrobench/results.go:125-141 | for both the CPU-time and the memory maps: keys are the component names seen in any row, each column is that component's values in row order and no longer than the row count, and both maps are empty when there are no rows |
| `Projection.MetricsToSlice` | go/tools/macrobench/results.go:125-141 | the result is `MetricColumns(metrics)`; both total columns have one entry per metrics row, and entry `i` is row `i`'s total; each per-component map is keyed by the names seen in any row, and each column is that component's values in row order |
| `Projection.AsSlice` | go/tools/macrobench/results.go:119-123 | the standard columns follow `Results` alone and the metric columns follow `Metrics` alone; there is no precondition tying their lengths |
| `Gathering.FirstFailure` | go/tools/macrobench/results.go:229-237 | returns the index of the first run whose metrics fetch fails, or the run count: every earlier fetch succeeds and the fetch at that index fails |
| `Gathering.FromFetch` | go/tools/macrobench/results.go:218-239 | a failed runs query returns the zero value and its error; zero runs returns the zero value and no error; any error comes with the zero value; with runs, it fails exactly when some run's metrics fail, and then with the first such error; on success there is one result and one metrics row per run, in run order |
| `Gathering.CollectRuns` | go/tools/macrobench/results.go:228-238 | the loop appends each run's result and fetched metrics, and at the first metrics error returns the zero value with that error (`GatherRuns`) |
| `Gathering.GetBenchmarkResults` | go/tools/macrobench/results.go:218-239 | returns exactly `BenchmarkResultsFor`, whose outcomes `FromFetch` states |
| `Gathering.GetBenchmarkResultsLastXDays` | go/tools/macrobench/results.go:241-262 | the same outcomes, over the runs query restricted to the last `days` days |
| `Orchestration.CompareErrorSticky` | go/tools/macrobench/results.go:162-171 | once a prefix of the requested types has produced an error, later types do not change it |
| `Orchestration.CompareErrorNone` | go/tools/macrobench/results.go:162-171 | `Compare` has no error exactly when both sides of every requested type gather without error |
| `Orchestration.CompareErrorFirst` | go/tools/macrobench/results.go:162-171 | the error `Compare` returns comes from the first failing type in request order: every earlier type gathers on both sides, and at that type either the old side fails with it, or the old side succeeds and the new side fails with it |
| `Orchestration.CompareMapSnoc` | go/tools/macrobench/results.go:176-177 | handling one more type adds that type's analysis to the map |
| `Orchestration.Compare` | go/tools/macrobench/results.go:160-180 | the error is the first gathering error in request order, old side before new side; on error the map is nil; otherwise the keys are exactly the requested types and each value is `performAnalysis` of the old side's projection and the new side's |
| `Orchestration.CompareNoRuns` | go/tools/macrobench/results.go:160-180 | a type with no runs on either side is not an error, and it is analysed as two empty projections |
| `Orchestration.SummarizeComponents` | go/tools/macrobench/results.go:205-212 | in any key order, the summary map has the same keys as the column map, and each value is the summary of that column; `getSummary` errors are dropped |
| `Orchestration.SearchErrorSticky` | go/tools/macrobench/results.go:184-188 | once a prefix of the requested types has produced an error, later types do not change it |
| `Orchestration.SearchErrorNone` | go/tools/macrobench/results.go:184-188 | `Search` has no error exactly when every requested type gathers without error |
| `Orchestration.SearchErrorFirst` | go/tools/macrobench/results.go:184-188 | the error `Search` returns comes from the first failing type in request order: every earlier type gathers, and that type fails with it |
| `Orchestration.SearchMapSnoc` | go/tools/macrobench/results.go:213 | handling one more type adds that type's summaries to the map |
| `Orchestration.Search` | go/tools/macrobench/results.go:182-216 | the error is the first gathering error and does not depend on `getSummary`, so summary errors never fail the call; on error the map is nil; otherwise the keys are exactly the requested types and each value is the summaries of that type's projection |
| `Orchestration.SearchEntryKeys` | go/tools/macrobench/results.go:190-212 | for any gathered results, the component summary maps of the `Search` entry are keyed by exactly the component names seen in the metrics rows, and each value summarises that component's values in row order |
| `Orchestration.SummaryIgnoresUnsummarised` | go/tools/macrobench/results.go:195-212 | a `Search` entry does not depend on the reconnects, time or threads columns |
| `Orchestration.SearchNoRuns` | go/tools/macrobench/results.go:185-189 | a type with no runs is not an error, and its entry summarises the empty projection |

## Left out

- The SQL queries (`getResultsForGitRefAndPlanner`, `GetResultsForLastDays`, `metrics.GetExecutionMetricsSQL`) and the `storage.SQLClient` are represented only by the functions in `Store`. They are treated as deterministic for the length of one call; database I/O is out of scope.
- `getSummary`, `performAnalysis` and the statistical types `StatisticalSummary` and `StatisticalCompareResults` are not defined in results.go. They are uninterpreted parameters here.
- `Orchestration.SingleResult` holds only the fields that `Search` sets. Any other field of Go's `StatisticalSingleResult` keeps its zero value, and the model does not include it.
- `ExecutionMetrics` holds only the four fields that results.go reads. The rest of the `metrics` package is not part of this model.
- `BenchmarkID` is plain data with no logic. Of its fields, only `ExecUUID` is kept, in `Details.execUUID`, because the metrics fetch is keyed by it. Also omitted: the ID, the source, `CreatedAt` and the `Metrics` field of `Details`, and the types `DetailsArray` and `DailySummary`.
- The capacity hint in `make(map[...], len(types))` has no observable effect and is not modelled.
- Go's `int` is unbounded `int` here. The engine only copies `Time`, `ID` and `Queries` and never does arithmetic on them, so there is no overflow to model.
- go/tools/git/git.go is a thin wrapper over a foreign git library. The website files are UI rendering. Neither is part of this model.
