/**
 * Columnar projection (go/tools/macrobench/results.go, resultsArrayToSlice, metricsToSlice
 * and asSlice): runs become parallel columns, one per field, and per-component metrics
 * become columns keyed by component name.
 */
module Projection {
  import opened Metrics
  import opened Macrobench

  // ---------------------------------------------------------------------------
  // Standard columns
  // ---------------------------------------------------------------------------

  /** Column `c` of `ras` holds, at position `i`, field `c` of run `i`, for every standard column. */
  ghost predicate ColumnsOf(ras: ResultAsSlice, mrs: seq<Result>)
  {
    && |ras.qps.total| == |mrs| && |ras.qps.read| == |mrs| && |ras.qps.write| == |mrs| && |ras.qps.other| == |mrs|
    && |ras.tps| == |mrs| && |ras.latency| == |mrs| && |ras.errors| == |mrs|
    && |ras.reconnects| == |mrs| && |ras.time| == |mrs| && |ras.threads| == |mrs|
    && forall i :: 0 <= i < |mrs| ==>
         && ras.qps.total[i] == mrs[i].qps.total
         && ras.qps.read[i] == mrs[i].qps.read
         && ras.qps.write[i] == mrs[i].qps.write
         && ras.qps.other[i] == mrs[i].qps.other
         && ras.tps[i] == mrs[i].tps
         && ras.latency[i] == mrs[i].latency
         && ras.errors[i] == mrs[i].errors
         && ras.reconnects[i] == mrs[i].reconnects
         && ras.time[i] == mrs[i].time
         && ras.threads[i] == mrs[i].threads
  }

  /** The projection of `mrs` as `resultsArrayToSlice` leaves it: standard columns only, metrics at their zero value. */
  function ResultColumns(mrs: seq<Result>): ResultAsSlice
  {
    var n := |mrs|;
    ResultAsSlice(
      QpsAsSlice(
        seq(n, i requires 0 <= i < n => mrs[i].qps.total),
        seq(n, i requires 0 <= i < n => mrs[i].qps.read),
        seq(n, i requires 0 <= i < n => mrs[i].qps.write),
        seq(n, i requires 0 <= i < n => mrs[i].qps.other)),
      seq(n, i requires 0 <= i < n => mrs[i].tps),
      seq(n, i requires 0 <= i < n => mrs[i].latency),
      seq(n, i requires 0 <= i < n => mrs[i].errors),
      seq(n, i requires 0 <= i < n => mrs[i].reconnects),
      seq(n, i requires 0 <= i < n => mrs[i].time),
      seq(n, i requires 0 <= i < n => mrs[i].threads),
      EmptyMetricsSlice)
  }

  /** A projection whose standard columns are those of `mrs` and whose metrics are empty is `ResultColumns(mrs)`. */
  lemma ColumnsOfDetermines(ras: ResultAsSlice, mrs: seq<Result>)
    requires ColumnsOf(ras, mrs) && ras.metrics == EmptyMetricsSlice
    ensures ras == ResultColumns(mrs)
  {
  }

  /** `resultsArrayToSlice`: every standard column has one entry per run, in run order. */
  method ResultsArrayToSlice(mrs: seq<Result>) returns (ras: ResultAsSlice)
    ensures ColumnsOf(ras, mrs)
    ensures ras.metrics == EmptyMetricsSlice
    ensures ras == ResultColumns(mrs)
  {
    ras := EmptyResultSlice;
    for k := 0 to |mrs|
      invariant ColumnsOf(ras, mrs[..k])
      invariant ras.metrics == EmptyMetricsSlice
    {
      var mr := mrs[k];
      ras := ras.(
        qps := QpsAsSlice(
          ras.qps.total + [mr.qps.total],
          ras.qps.read + [mr.qps.read],
          ras.qps.write + [mr.qps.write],
          ras.qps.other + [mr.qps.other]),
        tps := ras.tps + [mr.tps],
        latency := ras.latency + [mr.latency],
        errors := ras.errors + [mr.errors],
        reconnects := ras.reconnects + [mr.reconnects],
        time := ras.time + [mr.time],
        threads := ras.threads + [mr.threads]);
    }
    assert mrs[..|mrs|] == mrs;
    ColumnsOfDetermines(ras, mrs);
  }

  // ---------------------------------------------------------------------------
  // Per-component columns
  // ---------------------------------------------------------------------------

  /** Go's read `m[name]` of a map of slices: the stored column, or nil for a missing name. */
  function Lookup(cols: map<string, seq<real>>, name: string): seq<real>
  {
    if name in cols then cols[name] else []
  }

  /** What one metrics row adds to the column of `name`: its value when the row has that component, else nothing. */
  function Cell(row: map<string, real>, name: string): seq<real>
  {
    if name in row then [row[name]] else []
  }

  /** `cols` after `cols[name] = append(cols[name], row[name])` for each of `names`, in any order. */
  function AppendEntries(cols: map<string, seq<real>>, row: map<string, real>, names: set<string>): map<string, seq<real>>
    requires names <= row.Keys
  {
    map name | name in cols.Keys + names :: Lookup(cols, name) + (if name in names then [row[name]] else [])
  }

  /** Appending no entries leaves the map as it is. */
  lemma AppendNoEntries(cols: map<string, seq<real>>, row: map<string, real>)
    ensures AppendEntries(cols, row, {}) == cols
  {
    forall name | name in cols ensures AppendEntries(cols, row, {})[name] == cols[name] {
    }
  }

  /** One more `cols[name] = append(cols[name], row[name])`, for a name not yet appended. */
  lemma AppendOneEntry(cols: map<string, seq<real>>, row: map<string, real>, done: set<string>, name: string)
    requires done <= row.Keys && name in row && name !in done
    ensures var before := AppendEntries(cols, row, done);
            before[name := Lookup(before, name) + [row[name]]] == AppendEntries(cols, row, done + {name})
  {
    var before := AppendEntries(cols, row, done);
    var after := before[name := Lookup(before, name) + [row[name]]];
    var expected := AppendEntries(cols, row, done + {name});
    assert after.Keys == expected.Keys;
    forall n | n in after ensures after[n] == expected[n] {
      if n != name {
        assert Lookup(before, n) == Lookup(cols, n) + (if n in done then [row[n]] else []);
      }
    }
  }

  /** Appending the entries of `first` and then those of `second` is appending all of them at once. */
  lemma AppendEntriesSplit(cols: map<string, seq<real>>, row: map<string, real>, first: set<string>, second: set<string>)
    requires first + second <= row.Keys && first !! second
    ensures AppendEntries(AppendEntries(cols, row, first), row, second) == AppendEntries(cols, row, first + second)
  {
    var lhs := AppendEntries(AppendEntries(cols, row, first), row, second);
    var rhs := AppendEntries(cols, row, first + second);
    assert lhs.Keys == rhs.Keys;
    forall name | name in lhs ensures lhs[name] == rhs[name] {
      assert Lookup(AppendEntries(cols, row, first), name) == Lookup(cols, name) + (if name in first then [row[name]] else []);
    }
  }

  /**
   * The order in which the entries of a row are appended does not matter: appending two
   * disjoint groups of names gives the same map whichever group goes first.
   */
  lemma AppendOrderIrrelevant(cols: map<string, seq<real>>, row: map<string, real>, first: set<string>, second: set<string>)
    requires first + second <= row.Keys && first !! second
    ensures AppendEntries(AppendEntries(cols, row, first), row, second) ==
            AppendEntries(AppendEntries(cols, row, second), row, first)
  {
    AppendEntriesSplit(cols, row, first, second);
    AppendEntriesSplit(cols, row, second, first);
    assert first + second == second + first;
  }

  /** The per-component map built from `rows`, one row after another. */
  function KeyedColumns(rows: seq<map<string, real>>): map<string, seq<real>>
    decreases |rows|
  {
    if rows == [] then map[]
    else
      var last := rows[|rows| - 1];
      AppendEntries(KeyedColumns(rows[..|rows| - 1]), last, last.Keys)
  }

  /** Building from one more row appends that row's entries to the map built so far. */
  lemma KeyedColumnsSnoc(rows: seq<map<string, real>>, row: map<string, real>)
    ensures KeyedColumns(rows + [row]) == AppendEntries(KeyedColumns(rows), row, row.Keys)
  {
  }

  /** Every component name that occurs in some row. */
  ghost function ComponentNames(rows: seq<map<string, real>>): set<string>
  {
    set i, name | 0 <= i < |rows| && name in rows[i] :: name
  }

  /** The values of `name` in the rows that have it, in row order; rows without it contribute nothing. */
  function Present(rows: seq<map<string, real>>, name: string): seq<real>
    decreases |rows|
  {
    if rows == [] then [] else Cell(rows[0], name) + Present(rows[1..], name)
  }

  /** Adding a row at the end adds its cell at the end of every component's values. */
  lemma {:induction false} PresentSnoc(rows: seq<map<string, real>>, row: map<string, real>, name: string)
    ensures Present(rows + [row], name) == Present(rows, name) + Cell(row, name)
    decreases |rows|
  {
    if rows == [] {
      assert [row][1..] == [];
    } else {
      assert (rows + [row])[1..] == rows[1..] + [row];
      PresentSnoc(rows[1..], row, name);
    }
  }

  /** A component's column is never longer than the row count, and is exactly as long only when every row has it. */
  lemma {:induction false} PresentLength(rows: seq<map<string, real>>, name: string)
    ensures |Present(rows, name)| <= |rows|
    ensures |Present(rows, name)| == |rows| <==> forall i :: 0 <= i < |rows| ==> name in rows[i]
    decreases |rows|
  {
    if rows != [] {
      PresentLength(rows[1..], name);
      if forall i :: 0 <= i < |rows[1..]| ==> name in rows[1..][i] {
        if name in rows[0] {
          forall i | 0 <= i < |rows| ensures name in rows[i] {
            if i > 0 { assert rows[i] == rows[1..][i - 1]; }
          }
        }
      } else {
        var j :| 0 <= j < |rows[1..]| && name !in rows[1..][j];
        assert name !in rows[j + 1];
      }
    }
  }

  /** The key set of the per-component map is the union of the component names over all rows. */
  lemma {:induction false} KeyedColumnsKeys(rows: seq<map<string, real>>)
    ensures KeyedColumns(rows).Keys == ComponentNames(rows)
    decreases |rows|
  {
    if rows != [] {
      var init, last := rows[..|rows| - 1], rows[|rows| - 1];
      KeyedColumnsKeys(init);
      forall name | name in ComponentNames(rows) ensures name in ComponentNames(init) || name in last {
        var i :| 0 <= i < |rows| && name in rows[i];
        if i < |rows| - 1 { assert init[i] == rows[i]; }
      }
      forall name | name in ComponentNames(init) ensures name in ComponentNames(rows) {
        var i :| 0 <= i < |init| && name in init[i];
        assert rows[i] == init[i];
      }
      forall name | name in last ensures name in ComponentNames(rows) {
        assert name in rows[|rows| - 1];
      }
    }
  }

  /** The column of each component name is the values of the rows that have it, in row order. */
  lemma {:induction false} KeyedColumnsPresent(rows: seq<map<string, real>>, name: string)
    ensures Lookup(KeyedColumns(rows), name) == Present(rows, name)
    decreases |rows|
  {
    if rows != [] {
      var init, last := rows[..|rows| - 1], rows[|rows| - 1];
      KeyedColumnsPresent(init, name);
      assert rows == init + [last];
      PresentSnoc(init, last, name);
    }
  }

  /** Everything `metricsToSlice` promises about one per-component map. */
  lemma KeyedColumnsMeaning(rows: seq<map<string, real>>)
    ensures KeyedColumns(rows).Keys == ComponentNames(rows)
    ensures forall name :: name in KeyedColumns(rows) ==>
              KeyedColumns(rows)[name] == Present(rows, name) && |KeyedColumns(rows)[name]| <= |rows|
    ensures rows == [] ==> KeyedColumns(rows) == map[]
  {
    KeyedColumnsKeys(rows);
    forall name | name in KeyedColumns(rows)
      ensures KeyedColumns(rows)[name] == Present(rows, name) && |KeyedColumns(rows)[name]| <= |rows|
    {
      KeyedColumnsPresent(rows, name);
      PresentLength(rows, name);
    }
  }

  /** The per-component CPU-time rows of `ms`. */
  function CpuRows(ms: seq<ExecutionMetrics>): seq<map<string, real>>
  {
    seq(|ms|, i requires 0 <= i < |ms| => ms[i].componentsCPUTime)
  }

  /** The per-component allocated-memory rows of `ms`. */
  function MemRows(ms: seq<ExecutionMetrics>): seq<map<string, real>>
  {
    seq(|ms|, i requires 0 <= i < |ms| => ms[i].componentsMemStatsAllocBytes)
  }

  /**
   * The inner loop of `metricsToSlice`: `cols[name] = append(cols[name], value)` for every
   * entry of `row`. The entries are taken in an arbitrary order, as Go's map iteration
   * takes them; every order gives the same map.
   */
  method AppendRow(cols: map<string, seq<real>>, row: map<string, real>) returns (r: map<string, seq<real>>)
    ensures r == AppendEntries(cols, row, row.Keys)
  {
    r := cols;
    AppendNoEntries(cols, row);
    var names := row.Keys;
    while names != {}
      invariant names <= row.Keys
      invariant r == AppendEntries(cols, row, row.Keys - names)
      decreases names
    {
      var name :| name in names;
      var value := row[name];
      AppendOneEntry(cols, row, row.Keys - names, name);
      assert row.Keys - (names - {name}) == (row.Keys - names) + {name};
      r := r[name := Lookup(r, name) + [value]];
      names := names - {name};
    }
    assert row.Keys - names == row.Keys;
  }

  /** The projection of a list of metrics rows. */
  function MetricColumns(ms: seq<ExecutionMetrics>): MetricsAsSlice
  {
    MetricsAsSlice(
      seq(|ms|, i requires 0 <= i < |ms| => ms[i].totalComponentsCPUTime),
      KeyedColumns(CpuRows(ms)),
      seq(|ms|, i requires 0 <= i < |ms| => ms[i].totalComponentsMemStatsAllocBytes),
      KeyedColumns(MemRows(ms)))
  }

  /** Taking one more metrics row appends its totals to the total columns and its entries to both per-component maps. */
  lemma MetricColumnsStep(ms: seq<ExecutionMetrics>, k: nat)
    requires k < |ms|
    ensures var before, row := MetricColumns(ms[..k]), ms[k];
            MetricColumns(ms[..k + 1]) == MetricsAsSlice(
              before.totalComponentsCPUTime + [row.totalComponentsCPUTime],
              AppendEntries(before.componentsCPUTime, row.componentsCPUTime, row.componentsCPUTime.Keys),
              before.totalComponentsMemStatsAllocBytes + [row.totalComponentsMemStatsAllocBytes],
              AppendEntries(before.componentsMemStatsAllocBytes, row.componentsMemStatsAllocBytes, row.componentsMemStatsAllocBytes.Keys))
  {
    assert CpuRows(ms[..k + 1]) == CpuRows(ms[..k]) + [ms[k].componentsCPUTime];
    assert MemRows(ms[..k + 1]) == MemRows(ms[..k]) + [ms[k].componentsMemStatsAllocBytes];
    KeyedColumnsSnoc(CpuRows(ms[..k]), ms[k].componentsCPUTime);
    KeyedColumnsSnoc(MemRows(ms[..k]), ms[k].componentsMemStatsAllocBytes);
  }

  /** What the projection of a list of metrics rows holds. */
  lemma MetricColumnsMeaning(ms: seq<ExecutionMetrics>)
    ensures var s := MetricColumns(ms);
            && s.componentsCPUTime.Keys == ComponentNames(CpuRows(ms))
            && s.componentsMemStatsAllocBytes.Keys == ComponentNames(MemRows(ms))
            && (forall name :: name in s.componentsCPUTime ==> s.componentsCPUTime[name] == Present(CpuRows(ms), name))
            && (forall name :: name in s.componentsMemStatsAllocBytes ==>
                  s.componentsMemStatsAllocBytes[name] == Present(MemRows(ms), name))
            && (forall name :: name in s.componentsCPUTime ==> |s.componentsCPUTime[name]| <= |ms|)
            && (forall name :: name in s.componentsMemStatsAllocBytes ==> |s.componentsMemStatsAllocBytes[name]| <= |ms|)
            && (ms == [] ==> s.componentsCPUTime == map[] && s.componentsMemStatsAllocBytes == map[])
  {
    KeyedColumnsMeaning(CpuRows(ms));
    KeyedColumnsMeaning(MemRows(ms));
  }

  /**
   * `metricsToSlice`. The components of a row are visited in an arbitrary order (Go's map
   * iteration order); the result is the same for every order.
   */
  method MetricsToSlice(metrics: seq<ExecutionMetrics>) returns (s: MetricsAsSlice)
    ensures s == MetricColumns(metrics)
    ensures |s.totalComponentsCPUTime| == |metrics| && |s.totalComponentsMemStatsAllocBytes| == |metrics|
    ensures forall i :: 0 <= i < |metrics| ==>
              s.totalComponentsCPUTime[i] == metrics[i].totalComponentsCPUTime &&
              s.totalComponentsMemStatsAllocBytes[i] == metrics[i].totalComponentsMemStatsAllocBytes
    ensures s.componentsCPUTime.Keys == ComponentNames(CpuRows(metrics))
    ensures s.componentsMemStatsAllocBytes.Keys == ComponentNames(MemRows(metrics))
    ensures forall name :: name in s.componentsCPUTime ==> s.componentsCPUTime[name] == Present(CpuRows(metrics), name)
    ensures forall name :: name in s.componentsMemStatsAllocBytes ==>
              s.componentsMemStatsAllocBytes[name] == Present(MemRows(metrics), name)
  {
    s := EmptyMetricsSlice;
    for k := 0 to |metrics|
      invariant s == MetricColumns(metrics[..k])
    {
      var metricRow := metrics[k];
      MetricColumnsStep(metrics, k);
      s := s.(totalComponentsCPUTime := s.totalComponentsCPUTime + [metricRow.totalComponentsCPUTime]);
      var cpu := AppendRow(s.componentsCPUTime, metricRow.componentsCPUTime);
      s := s.(componentsCPUTime := cpu);

      s := s.(totalComponentsMemStatsAllocBytes := s.totalComponentsMemStatsAllocBytes + [metricRow.totalComponentsMemStatsAllocBytes]);
      var mem := AppendRow(s.componentsMemStatsAllocBytes, metricRow.componentsMemStatsAllocBytes);
      s := s.(componentsMemStatsAllocBytes := mem);
    }
    assert metrics[..|metrics|] == metrics;
    MetricColumnsMeaning(metrics);
  }

  // ---------------------------------------------------------------------------
  // asSlice
  // ---------------------------------------------------------------------------

  /** The projection of `br`: standard columns from its results, metric columns from its metrics. */
  function AsSliceOf(br: BenchmarkResults): ResultAsSlice
  {
    ResultColumns(br.results).(metrics := MetricColumns(br.metrics))
  }

  /**
   * `asSlice`. The standard columns follow `br.results` and the metric columns follow
   * `br.metrics`; nothing requires the two to have the same length.
   */
  method AsSlice(br: BenchmarkResults) returns (s: ResultAsSlice)
    ensures s == AsSliceOf(br)
    ensures ColumnsOf(s, br.results)
    ensures s.metrics == MetricColumns(br.metrics)
  {
    s := ResultsArrayToSlice(br.results);
    var m := MetricsToSlice(br.metrics);
    s := s.(metrics := m);
  }
}
