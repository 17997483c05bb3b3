/**
 * Orchestration (go/tools/macrobench/results.go, Compare and Search): for each requested
 * benchmark type, gather the runs, project them into columns and hand the columns to the
 * statistics code, collecting one entry per type.
 */
module Orchestration {
  import opened Wrappers
  import opened Metrics
  import opened Macrobench
  import opened Projection
  import opened Gathering

  // ---------------------------------------------------------------------------
  // Compare
  // ---------------------------------------------------------------------------

  /** The error, if any, of one side's gathering for `macroType`. */
  function SideError(store: Store, macroType: string, sha: string, planner: PlannerVersion): Option<Error>
  {
    BenchmarkResultsFor(store, macroType, sha, planner).1
  }

  /** The projection of one side's gathering for `macroType`. */
  function SideSlice(store: Store, macroType: string, sha: string, planner: PlannerVersion): ResultAsSlice
  {
    AsSliceOf(BenchmarkResultsFor(store, macroType, sha, planner).0)
  }

  /** The error `Compare` stops at: the first failing gathering, each type's old side before its new side. */
  function CompareError(store: Store, oldSHA: string, newSHA: string, types: seq<string>, planner: PlannerVersion): Option<Error>
    decreases |types|
  {
    if types == [] then None
    else
      var before := CompareError(store, oldSHA, newSHA, types[..|types| - 1], planner);
      var macroType := types[|types| - 1];
      if before.Some? then before
      else if SideError(store, macroType, oldSHA, planner).Some? then SideError(store, macroType, oldSHA, planner)
      else SideError(store, macroType, newSHA, planner)
  }

  /** The entry `Compare` stores for `macroType`. */
  function CompareEntry<C>(store: Store, oldSHA: string, newSHA: string, macroType: string, planner: PlannerVersion,
                           performAnalysis: (ResultAsSlice, ResultAsSlice) -> C): C
  {
    performAnalysis(SideSlice(store, macroType, oldSHA, planner), SideSlice(store, macroType, newSHA, planner))
  }

  /** The map `Compare` returns for `types` when nothing fails. */
  function CompareMap<C>(store: Store, oldSHA: string, newSHA: string, types: seq<string>, planner: PlannerVersion,
                         performAnalysis: (ResultAsSlice, ResultAsSlice) -> C): map<string, C>
  {
    map t | t in types :: CompareEntry(store, oldSHA, newSHA, t, planner, performAnalysis)
  }

  /** One more requested type adds its entry to the map. */
  lemma CompareMapSnoc<C>(store: Store, oldSHA: string, newSHA: string, types: seq<string>, macroType: string,
                          planner: PlannerVersion, performAnalysis: (ResultAsSlice, ResultAsSlice) -> C)
    ensures CompareMap(store, oldSHA, newSHA, types + [macroType], planner, performAnalysis) ==
            CompareMap(store, oldSHA, newSHA, types, planner, performAnalysis)[macroType :=
              CompareEntry(store, oldSHA, newSHA, macroType, planner, performAnalysis)]
  {
  }

  /** Once the error of a prefix of the types is set, no later type changes it. */
  lemma {:induction false} CompareErrorSticky(store: Store, oldSHA: string, newSHA: string, types: seq<string>,
                                              planner: PlannerVersion, k: nat)
    requires k <= |types|
    requires CompareError(store, oldSHA, newSHA, types[..k], planner).Some?
    ensures CompareError(store, oldSHA, newSHA, types, planner) == CompareError(store, oldSHA, newSHA, types[..k], planner)
    decreases |types| - k
  {
    if k < |types| {
      var init := types[..|types| - 1];
      assert init[..k] == types[..k];
      CompareErrorSticky(store, oldSHA, newSHA, init, planner, k);
    } else {
      assert types[..k] == types;
    }
  }

  /** `Compare` fails exactly when one side of some requested type fails to gather. */
  lemma {:induction false} CompareErrorNone(store: Store, oldSHA: string, newSHA: string, types: seq<string>, planner: PlannerVersion)
    ensures CompareError(store, oldSHA, newSHA, types, planner).None? <==>
              forall i :: 0 <= i < |types| ==>
                SideError(store, types[i], oldSHA, planner).None? && SideError(store, types[i], newSHA, planner).None?
    decreases |types|
  {
    if types != [] {
      var init := types[..|types| - 1];
      CompareErrorNone(store, oldSHA, newSHA, init, planner);
      assert forall i :: 0 <= i < |init| ==> init[i] == types[i];
    }
  }

  /**
   * The error `Compare` returns is the first failure in request order: every earlier type
   * gathers on both sides, and at index `i` the old side fails with it, or the old side
   * succeeds and the new side fails with it.
   */
  lemma {:induction false} CompareErrorFirst(store: Store, oldSHA: string, newSHA: string, types: seq<string>,
                                             planner: PlannerVersion, e: Error)
    requires CompareError(store, oldSHA, newSHA, types, planner) == Some(e)
    ensures exists i :: 0 <= i < |types| &&
              (forall j :: 0 <= j < i ==>
                 SideError(store, types[j], oldSHA, planner).None? && SideError(store, types[j], newSHA, planner).None?) &&
              (SideError(store, types[i], oldSHA, planner) == Some(e) ||
               (SideError(store, types[i], oldSHA, planner).None? && SideError(store, types[i], newSHA, planner) == Some(e)))
    decreases |types|
  {
    var init := types[..|types| - 1];
    assert forall j :: 0 <= j < |init| ==> init[j] == types[j];
    if CompareError(store, oldSHA, newSHA, init, planner).Some? {
      CompareErrorFirst(store, oldSHA, newSHA, init, planner, e);
      var i :| 0 <= i < |init| &&
              (forall j :: 0 <= j < i ==>
                 SideError(store, init[j], oldSHA, planner).None? && SideError(store, init[j], newSHA, planner).None?) &&
              (SideError(store, init[i], oldSHA, planner) == Some(e) ||
               (SideError(store, init[i], oldSHA, planner).None? && SideError(store, init[i], newSHA, planner) == Some(e)));
      assert init[i] == types[i];
    } else {
      CompareErrorNone(store, oldSHA, newSHA, init, planner);
      assert |init| < |types|;
    }
  }

  /**
   * `Compare`: on the first gathering error, a nil map and that error; otherwise one entry
   * per requested type, the analysis of the old side's projection against the new side's.
   */
  method Compare<C>(store: Store, oldSHA: string, newSHA: string, types: seq<string>, planner: PlannerVersion,
                    performAnalysis: (ResultAsSlice, ResultAsSlice) -> C)
    returns (results: Option<map<string, C>>, err: Option<Error>)
    ensures err == CompareError(store, oldSHA, newSHA, types, planner)
    ensures err.Some? ==> results.None?
    ensures err.None? ==> results.Some? && results.value.Keys == set t | t in types
    ensures err.None? ==> results == Some(CompareMap(store, oldSHA, newSHA, types, planner, performAnalysis))
  {
    var m: map<string, C> := map[];
    for k := 0 to |types|
      invariant CompareError(store, oldSHA, newSHA, types[..k], planner).None?
      invariant m == CompareMap(store, oldSHA, newSHA, types[..k], planner, performAnalysis)
    {
      var macroType := types[k];
      assert types[..k + 1][..k] == types[..k];
      var leftResult, leftErr := GetBenchmarkResults(store, macroType, oldSHA, planner);
      if leftErr.Some? {
        CompareErrorSticky(store, oldSHA, newSHA, types, planner, k + 1);
        return None, leftErr;
      }
      var rightResult, rightErr := GetBenchmarkResults(store, macroType, newSHA, planner);
      if rightErr.Some? {
        CompareErrorSticky(store, oldSHA, newSHA, types, planner, k + 1);
        return None, rightErr;
      }
      var leftResultsAsSlice := AsSlice(leftResult);
      var rightResultsAsSlice := AsSlice(rightResult);
      var scr := performAnalysis(leftResultsAsSlice, rightResultsAsSlice);
      assert scr == CompareEntry(store, oldSHA, newSHA, macroType, planner, performAnalysis);
      assert types[..k + 1] == types[..k] + [macroType];
      CompareMapSnoc(store, oldSHA, newSHA, types[..k], macroType, planner, performAnalysis);
      m := m[macroType := scr];
    }
    assert types[..|types|] == types;
    results, err := Some(m), None;
  }

  // ---------------------------------------------------------------------------
  // Search
  // ---------------------------------------------------------------------------

  /** The summaries `Search` stores for one benchmark type; reconnects, time and threads have none. */
  datatype SingleResult<S> = SingleResult(
    totalQPS: S,
    readsQPS: S,
    writesQPS: S,
    otherQPS: S,
    tps: S,
    latency: S,
    errors: S,
    totalComponentsCPUTime: S,
    componentsCPUTime: map<string, S>,
    totalComponentsMemStatsAllocBytes: S,
    componentsMemStatsAllocBytes: map<string, S>)

  /** The summary of one column; the error `getSummary` reports is dropped. */
  function Summary<S>(getSummary: seq<real> -> (S, Option<Error>), column: seq<real>): S
  {
    getSummary(column).0
  }

  /** One summary per component column. */
  function SummarizeColumns<S>(getSummary: seq<real> -> (S, Option<Error>), cols: map<string, seq<real>>): map<string, S>
  {
    map name | name in cols :: Summary(getSummary, cols[name])
  }

  /** The entry `Search` stores for a projection. */
  function SummarizeSlice<S>(getSummary: seq<real> -> (S, Option<Error>), s: ResultAsSlice): SingleResult<S>
  {
    SingleResult(
      Summary(getSummary, s.qps.total),
      Summary(getSummary, s.qps.read),
      Summary(getSummary, s.qps.write),
      Summary(getSummary, s.qps.other),
      Summary(getSummary, s.tps),
      Summary(getSummary, s.latency),
      Summary(getSummary, s.errors),
      Summary(getSummary, s.metrics.totalComponentsCPUTime),
      SummarizeColumns(getSummary, s.metrics.componentsCPUTime),
      Summary(getSummary, s.metrics.totalComponentsMemStatsAllocBytes),
      SummarizeColumns(getSummary, s.metrics.componentsMemStatsAllocBytes))
  }

  /** The error `Search` stops at: the first failing gathering. */
  function SearchError(store: Store, sha: string, types: seq<string>, planner: PlannerVersion): Option<Error>
    decreases |types|
  {
    if types == [] then None
    else
      var before := SearchError(store, sha, types[..|types| - 1], planner);
      if before.Some? then before else SideError(store, types[|types| - 1], sha, planner)
  }

  /** The entry `Search` stores for `macroType`. */
  function SearchEntry<S>(store: Store, sha: string, macroType: string, planner: PlannerVersion,
                          getSummary: seq<real> -> (S, Option<Error>)): SingleResult<S>
  {
    SummarizeSlice(getSummary, SideSlice(store, macroType, sha, planner))
  }

  /** The map `Search` returns for `types` when nothing fails. */
  function SearchMap<S>(store: Store, sha: string, types: seq<string>, planner: PlannerVersion,
                        getSummary: seq<real> -> (S, Option<Error>)): map<string, SingleResult<S>>
  {
    map t | t in types :: SearchEntry(store, sha, t, planner, getSummary)
  }

  /** One more requested type adds its entry to the map. */
  lemma SearchMapSnoc<S>(store: Store, sha: string, types: seq<string>, macroType: string, planner: PlannerVersion,
                         getSummary: seq<real> -> (S, Option<Error>))
    ensures SearchMap(store, sha, types + [macroType], planner, getSummary) ==
            SearchMap(store, sha, types, planner, getSummary)[macroType := SearchEntry(store, sha, macroType, planner, getSummary)]
  {
  }

  /** Once the error of a prefix of the types is set, no later type changes it. */
  lemma {:induction false} SearchErrorSticky(store: Store, sha: string, types: seq<string>, planner: PlannerVersion, k: nat)
    requires k <= |types|
    requires SearchError(store, sha, types[..k], planner).Some?
    ensures SearchError(store, sha, types, planner) == SearchError(store, sha, types[..k], planner)
    decreases |types| - k
  {
    if k < |types| {
      var init := types[..|types| - 1];
      assert init[..k] == types[..k];
      SearchErrorSticky(store, sha, init, planner, k);
    } else {
      assert types[..k] == types;
    }
  }

  /** `Search` fails exactly when some requested type fails to gather. */
  lemma {:induction false} SearchErrorNone(store: Store, sha: string, types: seq<string>, planner: PlannerVersion)
    ensures SearchError(store, sha, types, planner).None? <==>
              forall i :: 0 <= i < |types| ==> SideError(store, types[i], sha, planner).None?
    decreases |types|
  {
    if types != [] {
      var init := types[..|types| - 1];
      SearchErrorNone(store, sha, init, planner);
      assert forall i :: 0 <= i < |init| ==> init[i] == types[i];
    }
  }

  /**
   * The error `Search` returns is the first failure in request order: every earlier type
   * gathers, and the type at index `i` fails with it.
   */
  lemma {:induction false} SearchErrorFirst(store: Store, sha: string, types: seq<string>, planner: PlannerVersion, e: Error)
    requires SearchError(store, sha, types, planner) == Some(e)
    ensures exists i :: 0 <= i < |types| &&
              (forall j :: 0 <= j < i ==> SideError(store, types[j], sha, planner).None?) &&
              SideError(store, types[i], sha, planner) == Some(e)
    decreases |types|
  {
    var init := types[..|types| - 1];
    assert forall j :: 0 <= j < |init| ==> init[j] == types[j];
    if SearchError(store, sha, init, planner).Some? {
      SearchErrorFirst(store, sha, init, planner, e);
      var i :| 0 <= i < |init| &&
              (forall j :: 0 <= j < i ==> SideError(store, init[j], sha, planner).None?) &&
              SideError(store, init[i], sha, planner) == Some(e);
      assert init[i] == types[i];
    } else {
      SearchErrorNone(store, sha, init, planner);
      assert |init| < |types|;
    }
  }

  /**
   * The per-component loops of `Search`: `summaries[name], _ = getSummary(value)` for every
   * column, visited in an arbitrary order.
   */
  method SummarizeComponents<S>(getSummary: seq<real> -> (S, Option<Error>), cols: map<string, seq<real>>)
    returns (summaries: map<string, S>)
    ensures summaries.Keys == cols.Keys
    ensures forall name :: name in cols ==> summaries[name] == getSummary(cols[name]).0
    ensures summaries == SummarizeColumns(getSummary, cols)
  {
    summaries := map[];
    var names := cols.Keys;
    while names != {}
      invariant names <= cols.Keys
      invariant summaries.Keys == cols.Keys - names
      invariant forall name :: name in summaries ==> summaries[name] == getSummary(cols[name]).0
      decreases names
    {
      var name :| name in names;
      var value := cols[name];
      var summary := getSummary(value).0;
      summaries := summaries[name := summary];
      names := names - {name};
    }
  }

  /**
   * `Search`: on the first gathering error, a nil map and that error; otherwise one entry per
   * requested type holding the summaries of its projection. Errors of `getSummary` are discarded.
   */
  method Search<S>(store: Store, sha: string, types: seq<string>, planner: PlannerVersion,
                   getSummary: seq<real> -> (S, Option<Error>))
    returns (results: Option<map<string, SingleResult<S>>>, err: Option<Error>)
    ensures err == SearchError(store, sha, types, planner)
    ensures err.Some? ==> results.None?
    ensures err.None? ==> results.Some? && results.value.Keys == set t | t in types
    ensures err.None? ==> results == Some(SearchMap(store, sha, types, planner, getSummary))
  {
    var m: map<string, SingleResult<S>> := map[];
    for k := 0 to |types|
      invariant SearchError(store, sha, types[..k], planner).None?
      invariant m == SearchMap(store, sha, types[..k], planner, getSummary)
    {
      var macroType := types[k];
      assert types[..k + 1][..k] == types[..k];
      var result, e := GetBenchmarkResults(store, macroType, sha, planner);
      if e.Some? {
        SearchErrorSticky(store, sha, types, planner, k + 1);
        return None, e;
      }
      var resultSlice := AsSlice(result);

      // Each summary keeps the first half of what getSummary returns; its error is dropped.
      var totalQPS := getSummary(resultSlice.qps.total).0;
      var readsQPS := getSummary(resultSlice.qps.read).0;
      var writesQPS := getSummary(resultSlice.qps.write).0;
      var otherQPS := getSummary(resultSlice.qps.other).0;

      var tps := getSummary(resultSlice.tps).0;
      var latency := getSummary(resultSlice.latency).0;
      var errors := getSummary(resultSlice.errors).0;

      var totalCPU := getSummary(resultSlice.metrics.totalComponentsCPUTime).0;
      var componentsCPU := SummarizeComponents(getSummary, resultSlice.metrics.componentsCPUTime);

      var totalMem := getSummary(resultSlice.metrics.totalComponentsMemStatsAllocBytes).0;
      var componentsMem := SummarizeComponents(getSummary, resultSlice.metrics.componentsMemStatsAllocBytes);

      var ssr := SingleResult(totalQPS, readsQPS, writesQPS, otherQPS, tps, latency, errors,
                              totalCPU, componentsCPU, totalMem, componentsMem);
      assert resultSlice == SideSlice(store, macroType, sha, planner);
      assert ssr == SummarizeSlice(getSummary, resultSlice);
      assert types[..k + 1] == types[..k] + [macroType];
      SearchMapSnoc(store, sha, types[..k], macroType, planner, getSummary);
      m := m[macroType := ssr];
    }
    assert types[..|types|] == types;
    results, err := Some(m), None;
  }

  // ---------------------------------------------------------------------------
  // Properties across the layers
  // ---------------------------------------------------------------------------

  /**
   * The component summaries that `Search` stores for gathered results `br` are keyed by
   * exactly the component names seen in its metrics rows, and each summarises that
   * component's values in row order.
   */
  lemma SearchEntryKeys<S>(getSummary: seq<real> -> (S, Option<Error>), br: BenchmarkResults)
    ensures var entry := SummarizeSlice(getSummary, AsSliceOf(br));
            && entry.componentsCPUTime.Keys == ComponentNames(CpuRows(br.metrics))
            && entry.componentsMemStatsAllocBytes.Keys == ComponentNames(MemRows(br.metrics))
            && (forall name :: name in entry.componentsCPUTime ==>
                  entry.componentsCPUTime[name] == getSummary(Present(CpuRows(br.metrics), name)).0)
            && (forall name :: name in entry.componentsMemStatsAllocBytes ==>
                  entry.componentsMemStatsAllocBytes[name] == getSummary(Present(MemRows(br.metrics), name)).0)
  {
    MetricColumnsMeaning(br.metrics);
  }

  /** A `Search` entry does not depend on the reconnects, time or threads columns. */
  lemma SummaryIgnoresUnsummarised<S>(getSummary: seq<real> -> (S, Option<Error>), s: ResultAsSlice,
                                      reconnects: seq<real>, time: seq<int>, threads: seq<real>)
    ensures SummarizeSlice(getSummary, s.(reconnects := reconnects, time := time, threads := threads)) == SummarizeSlice(getSummary, s)
  {
  }

  /** A type with no runs on either side is compared as two empty projections, not reported as an error. */
  lemma CompareNoRuns<C>(store: Store, oldSHA: string, newSHA: string, macroType: string, planner: PlannerVersion,
                         performAnalysis: (ResultAsSlice, ResultAsSlice) -> C)
    requires store.resultsForGitRefAndPlanner(macroType, oldSHA, planner) == Ok([])
    requires store.resultsForGitRefAndPlanner(macroType, newSHA, planner) == Ok([])
    ensures SideError(store, macroType, oldSHA, planner).None? && SideError(store, macroType, newSHA, planner).None?
    ensures CompareEntry(store, oldSHA, newSHA, macroType, planner, performAnalysis) ==
            performAnalysis(EmptyResultSlice, EmptyResultSlice)
  {
    assert AsSliceOf(EmptyResults) == EmptyResultSlice;
  }

  /** A type with no runs gets the entry of the empty projection, not an error. */
  lemma SearchNoRuns<S>(store: Store, sha: string, macroType: string, planner: PlannerVersion,
                        getSummary: seq<real> -> (S, Option<Error>))
    requires store.resultsForGitRefAndPlanner(macroType, sha, planner) == Ok([])
    ensures SideError(store, macroType, sha, planner).None?
    ensures SearchEntry(store, sha, macroType, planner, getSummary) == SummarizeSlice(getSummary, EmptyResultSlice)
  {
    assert AsSliceOf(EmptyResults) == EmptyResultSlice;
  }
}
