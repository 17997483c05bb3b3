/** The record types of go/tools/macrobench/results.go and the store the package reads from. */
module Macrobench {
  import opened Wrappers
  import opened Metrics

  /** The planner configuration a benchmark ran with; opaque to this package. */
  type PlannerVersion = string

  /** One row of the QPS table: queries per second, in total and by kind. */
  datatype QPS = QPS(id: int, refId: int, total: real, read: real, write: real, other: real)

  /** The raw outcome of one macro-benchmark run (an OLTP or TPCC row). */
  datatype Result = Result(
    id: int,
    queries: int,
    qps: QPS,
    tps: real,
    latency: real,
    errors: real,
    reconnects: real,
    time: int,
    threads: real)

  /** The QPS fields of many runs, one column per field. */
  datatype QpsAsSlice = QpsAsSlice(total: seq<real>, read: seq<real>, write: seq<real>, other: seq<real>)

  /** The metrics of many runs: two total columns and one column per component name. */
  datatype MetricsAsSlice = MetricsAsSlice(
    totalComponentsCPUTime: seq<real>,
    componentsCPUTime: map<string, seq<real>>,
    totalComponentsMemStatsAllocBytes: seq<real>,
    componentsMemStatsAllocBytes: map<string, seq<real>>)

  /** The columnar projection of a set of runs. */
  datatype ResultAsSlice = ResultAsSlice(
    qps: QpsAsSlice,
    tps: seq<real>,
    latency: seq<real>,
    errors: seq<real>,
    reconnects: seq<real>,
    time: seq<int>,
    threads: seq<real>,
    metrics: MetricsAsSlice)

  /** One stored benchmark run: the execution it belongs to, the git reference it ran on, and its result. */
  datatype Details = Details(execUUID: string, gitRef: string, result: Result)

  /** The results of a set of runs, with the metrics fetched for each of them. */
  datatype BenchmarkResults = BenchmarkResults(results: seq<Result>, metrics: seq<ExecutionMetrics>)

  /** The zero value `BenchmarkResults{}`. */
  const EmptyResults := BenchmarkResults([], [])

  /** The zero value of `metricsAsSlice`: a nil map reads like an empty one. */
  const EmptyMetricsSlice := MetricsAsSlice([], map[], [], map[])

  /** The zero value of `resultAsSlice`. */
  const EmptyResultSlice := ResultAsSlice(QpsAsSlice([], [], [], []), [], [], [], [], [], [], EmptyMetricsSlice)

  /**
   * The SQL store, as three fallible lookups: the runs of a benchmark type for a git
   * reference and planner, the same restricted to the last days, and the metrics of an
   * execution.
   */
  datatype Store = Store(
    resultsForGitRefAndPlanner: (string, string, PlannerVersion) -> Fetch<seq<Details>>,
    resultsForLastDays: (string, string, PlannerVersion, int) -> Fetch<seq<Details>>,
    executionMetrics: string -> Fetch<ExecutionMetrics>)
}
