/**
 * The execution-metrics record of the `metrics` package. Only the four fields that
 * go/tools/macrobench/results.go reads are modelled.
 */
module Metrics {

  /** Resource usage of one benchmark execution: totals and per-component values, by component name. */
  datatype ExecutionMetrics = ExecutionMetrics(
    totalComponentsCPUTime: real,
    componentsCPUTime: map<string, real>,
    totalComponentsMemStatsAllocBytes: real,
    componentsMemStatsAllocBytes: map<string, real>)
}
