/** The decisions of the coverage reporter
    (packages/jest-reporters/src/coverage_reporter.ts): what `onTestResult`
    records, which untested files are handed to the coverage worker, and the
    whole of `_checkThreshold` — the per-metric `check`, the sorting of
    covered files into threshold groups, the per-group evaluation and the
    final error list. Istanbul's coverage summaries, `path.resolve`,
    `glob.sync` and summary merging are oracles held by an `Oracles` record. */
module CoverageReporter {
  import opened Wrappers
  import Text

  // ---------------------------------------------------------------------------
  // Summaries and thresholds

  datatype Metric = Statements | Branches | Lines | Functions

  /** The metrics `check` visits, in its order. */
  const CheckedMetrics: seq<Metric> := [Statements, Branches, Lines, Functions]

  /** The position of a metric in `CheckedMetrics`. */
  function Rank(m: Metric): nat {
    match m
    case Statements => 0
    case Branches => 1
    case Lines => 2
    case Functions => 3
  }

  /** The key under which a metric appears in summaries, thresholds and messages. */
  function MetricKey(m: Metric): string {
    match m
    case Statements => "statements"
    case Branches => "branches"
    case Lines => "lines"
    case Functions => "functions"
  }

  /** One metric of a coverage summary. `pct` is Istanbul's percentage,
      kept as an integer here. */
  datatype Totals = Totals(total: int, covered: int, pct: int)

  datatype Summary = Summary(statements: Totals, branches: Totals, lines: Totals, functions: Totals) {
    function Of(m: Metric): Totals {
      match m
      case Statements => statements
      case Branches => branches
      case Lines => lines
      case Functions => functions
    }
  }

  /** A `CoverageThresholdValue`: a metric that is absent has an `undefined`
      threshold. */
  type Thresholds = map<Metric, int>

  /** One entry of the `coverageThreshold` object, in `Object.keys` order. */
  datatype ThresholdEntry = ThresholdEntry(group: string, thresholds: Thresholds)

  /** An error `_checkThreshold` reports, before it is rendered to text. */
  datatype ThresholdError =
    /** a negative threshold: at most `limit` uncovered items were allowed */
    | UncoveredExceeded(metric: Metric, uncovered: int, name: string, limit: int)
    /** a non-negative threshold: at least `threshold` percent was required */
    | PercentNotMet(name: string, metric: Metric, threshold: int, actual: int)
    /** a threshold group that no covered file was sorted into */
    | CoverageNotFound(group: string)

  const GlobalKey: string := "global"

  /** The text of an error, as the reporter logs it and passes to `_setError`. */
  function Message(e: ThresholdError): (r: string)
    ensures Text.StartsWith(r, "Jest: ")
  {
    var body :=
      match e
      case UncoveredExceeded(m, uncovered, name, limit) =>
        "Uncovered count for " + MetricKey(m) + " (" + Text.IntToString(uncovered) + ")"
        + "exceeds " + name + " threshold (" + Text.IntToString(limit) + ")"
      case PercentNotMet(name, m, threshold, actual) =>
        "\"" + name + "\" coverage threshold for " + MetricKey(m)
        + " (" + Text.IntToString(threshold) + "%) not met: " + Text.IntToString(actual) + "%"
      case CoverageNotFound(group) =>
        "Coverage data for " + group + " was not found.";
    assert ("Jest: " + body)[..6] == "Jest: ";
    "Jest: " + body
  }

  // ---------------------------------------------------------------------------
  // Recording test results

  /** One v8 coverage result, by the URLs of the scripts it covers. */
  type V8Result = seq<string>

  /** The Istanbul coverage map: each covered file with the input source map
      its coverage carries, if any. */
  type CoverageMap = map<string, Option<string>>

  /** The coverage parts of a test file's result. `sourceMaps` lists its
      entries in `Object.keys` order. */
  datatype CoverageResult = CoverageResult(
    v8Coverage: Option<V8Result>,
    coverage: Option<CoverageMap>,
    sourceMaps: Option<seq<(string, string)>>
  )

  /** A call on the source-map store. */
  datatype Registration =
    | RegisterMap(path: string, sourceMap: string)
    | RegisterURL(path: string, url: string)

  /** What the reporter has accumulated. */
  datatype ReporterState = ReporterState(
    v8Results: seq<V8Result>,
    coverageMap: CoverageMap,
    registrations: seq<Registration>
  )

  /** How `onTestResult` ends: normally, or by the exception
      `fileCoverageFor` raises for a source path missing from the coverage
      map (the state keeps what was registered up to and including it). */
  datatype Recording = Recorded(state: ReporterState) | Threw(state: ReporterState, missing: string)

  /** The registrations made for `sourceMaps` and, if the loop is cut short,
      the source path that stopped it. */
  datatype SourceMapRun = SourceMapRun(registrations: seq<Registration>, missing: Option<string>)

  /** The registration the `finally` block makes for one source path. */
  function RegistrationFor(m: CoverageMap, path: string, url: string): Registration {
    if path in m && m[path].Some? then RegisterMap(path, m[path].value) else RegisterURL(path, url)
  }

  /** The `forEach` over the source maps: one registration per source path
      in order, its input source map when the coverage map has one and its
      URL otherwise; a path missing from the coverage map is registered by
      URL and then ends the loop. */
  function RegisterSourceMaps(m: CoverageMap, sourceMaps: seq<(string, string)>): (r: SourceMapRun)
    ensures |r.registrations| <= |sourceMaps|
    ensures forall k :: 0 <= k < |r.registrations| ==>
      r.registrations[k] == RegistrationFor(m, sourceMaps[k].0, sourceMaps[k].1)
    ensures r.missing.None? <==> forall k :: 0 <= k < |sourceMaps| ==> sourceMaps[k].0 in m
    ensures r.missing.None? ==> |r.registrations| == |sourceMaps|
    ensures r.missing.Some? ==>
      && |r.registrations| >= 1
      && r.missing.value == sourceMaps[|r.registrations| - 1].0 && r.missing.value !in m
      && r.registrations[|r.registrations| - 1] == RegisterURL(r.missing.value, sourceMaps[|r.registrations| - 1].1)
      && forall k :: 0 <= k < |r.registrations| - 1 ==> sourceMaps[k].0 in m
  {
    if |sourceMaps| == 0 then SourceMapRun([], None)
    else
      var (path, url) := sourceMaps[0];
      var first := RegistrationFor(m, path, url);
      if path !in m then SourceMapRun([first], Some(path))
      else
        var rest := RegisterSourceMaps(m, sourceMaps[1..]);
        assert forall k :: 1 <= k < |sourceMaps| ==> sourceMaps[k] == sourceMaps[1..][k - 1];
        SourceMapRun([first] + rest.registrations, rest.missing)
  }

  /** `onTestResult`: a result with v8 coverage records only that; otherwise
      its coverage is merged into the map (`mergeMaps` is Istanbul's merge)
      and its source maps are registered against the merged map. */
  function OnTestResult(s: ReporterState, result: CoverageResult, mergeMaps: (CoverageMap, CoverageMap) -> CoverageMap): (r: Recording)
    ensures result.v8Coverage.Some? ==>
      r == Recorded(s.(v8Results := s.v8Results + [result.v8Coverage.value]))
    ensures result.v8Coverage.None? ==>
      && r.state.v8Results == s.v8Results
      && r.state.coverageMap == (if result.coverage.Some? then mergeMaps(s.coverageMap, result.coverage.value) else s.coverageMap)
      && |r.state.registrations| >= |s.registrations|
      && r.state.registrations[..|s.registrations|] == s.registrations
    ensures result.v8Coverage.None? && result.sourceMaps.None? ==> r.Recorded? && r.state.registrations == s.registrations
    // with source maps, the registrations made against the merged map are appended
    ensures result.v8Coverage.None? && result.sourceMaps.Some? ==>
      && r.state.registrations == s.registrations + RegisterSourceMaps(r.state.coverageMap, result.sourceMaps.value).registrations
      && (r.Threw? ==> Some(r.missing) == RegisterSourceMaps(r.state.coverageMap, result.sourceMaps.value).missing)
    ensures r.Threw? <==>
      result.v8Coverage.None? && result.sourceMaps.Some? &&
      exists k :: 0 <= k < |result.sourceMaps.value| && result.sourceMaps.value[k].0 !in r.state.coverageMap
  {
    if result.v8Coverage.Some? then Recorded(s.(v8Results := s.v8Results + [result.v8Coverage.value]))
    else
      var merged := if result.coverage.Some? then mergeMaps(s.coverageMap, result.coverage.value) else s.coverageMap;
      match result.sourceMaps
      case None => Recorded(s.(coverageMap := merged))
      case Some(sourceMaps) =>
        var run := RegisterSourceMaps(merged, sourceMaps);
        var next := ReporterState(s.v8Results, merged, s.registrations + run.registrations);
        assert next.registrations[..|s.registrations|] == s.registrations;
        match run.missing
        case None => Recorded(next)
        case Some(path) => Threw(next, path)
  }

  /** With v8 coverage present the Istanbul parts of a result play no part. */
  lemma V8CoverageIgnoresTheRest(s: ReporterState, v8: V8Result, a: CoverageResult, b: CoverageResult,
                                 mergeMaps: (CoverageMap, CoverageMap) -> CoverageMap)
    requires a.v8Coverage == Some(v8) && b.v8Coverage == Some(v8)
    ensures OnTestResult(s, a, mergeMaps) == OnTestResult(s, b, mergeMaps)
    ensures OnTestResult(s, a, mergeMaps).state.coverageMap == s.coverageMap
    ensures OnTestResult(s, a, mergeMaps).state.registrations == s.registrations
  {
  }

  // ---------------------------------------------------------------------------
  // Untested files

  /** A project context as `_addUntestedFiles` uses it: its `rootDir`, and
      `hasteFS.matchFilesWithGlob`. */
  datatype Context = Context(rootDir: string, matchFilesWithGlob: (seq<string>, string) -> seq<string>)

  /** A file considered for instrumentation, with the root of its project. */
  datatype Candidate = Candidate(rootDir: string, path: string)

  /** The files of one context that match `collectCoverageFrom`. */
  function ContextCandidates(c: Context, patterns: seq<string>): (r: seq<Candidate>)
    ensures |r| == |c.matchFilesWithGlob(patterns, c.rootDir)|
    ensures forall k :: 0 <= k < |r| ==> r[k] == Candidate(c.rootDir, c.matchFilesWithGlob(patterns, c.rootDir)[k])
  {
    var files := c.matchFilesWithGlob(patterns, c.rootDir);
    seq(|files|, k requires 0 <= k < |files| => Candidate(c.rootDir, files[k]))
  }

  /** The `files` list: nothing without `collectCoverageFrom` patterns,
      otherwise each context's matching files, context by context. */
  function CollectCandidates(contexts: seq<Context>, collectCoverageFrom: Option<seq<string>>): (r: seq<Candidate>)
    ensures collectCoverageFrom.None? || |collectCoverageFrom.value| == 0 ==> r == []
    ensures collectCoverageFrom.Some? && |collectCoverageFrom.value| > 0 ==>
      forall i :: 0 <= i < |contexts| ==>
        forall p :: p in contexts[i].matchFilesWithGlob(collectCoverageFrom.value, contexts[i].rootDir) ==>
          Candidate(contexts[i].rootDir, p) in r
    ensures forall c :: c in r ==>
      exists i :: 0 <= i < |contexts| && c.rootDir == contexts[i].rootDir &&
        c.path in contexts[i].matchFilesWithGlob(collectCoverageFrom.value, contexts[i].rootDir)
  {
    if collectCoverageFrom.None? || |collectCoverageFrom.value| == 0 || |contexts| == 0 then []
    else
      var patterns := collectCoverageFrom.value;
      var last := contexts[|contexts| - 1];
      var earlier := CollectCandidates(contexts[..|contexts| - 1], collectCoverageFrom);
      var own := ContextCandidates(last, patterns);
      forall i, p | 0 <= i < |contexts| && p in contexts[i].matchFilesWithGlob(patterns, contexts[i].rootDir)
        ensures Candidate(contexts[i].rootDir, p) in earlier + own
      {
        if i < |contexts| - 1 {
          assert contexts[..|contexts| - 1][i] == contexts[i];
        } else {
          var k :| 0 <= k < |last.matchFilesWithGlob(patterns, last.rootDir)| && last.matchFilesWithGlob(patterns, last.rootDir)[k] == p;
          assert own[k] == Candidate(last.rootDir, p);
        }
      }
      forall c | c in earlier + own
        ensures exists i :: 0 <= i < |contexts| && c.rootDir == contexts[i].rootDir
                            && c.path in contexts[i].matchFilesWithGlob(patterns, contexts[i].rootDir)
      {
        if c in earlier {
          var i :| 0 <= i < |contexts| - 1 && c.rootDir == contexts[..|contexts| - 1][i].rootDir &&
            c.path in contexts[..|contexts| - 1][i].matchFilesWithGlob(patterns, contexts[..|contexts| - 1][i].rootDir);
          assert contexts[..|contexts| - 1][i] == contexts[i];
        } else {
          var k :| 0 <= k < |own| && own[k] == c;
          assert c.path == last.matchFilesWithGlob(patterns, last.rootDir)[k];
        }
      }
      earlier + own
  }

  /** Some recorded v8 result covers `path`. */
  predicate HasV8Data(v8Results: seq<V8Result>, path: string) {
    exists k :: 0 <= k < |v8Results| && path in v8Results[k]
  }

  /** The instrumentation condition: no v8 result covers the file and the
      coverage map has no entry for it. The coverage worker always exposes
      `worker`, both in band and as a worker pool, so that test is always
      true. */
  predicate NeedsInstrumenting(s: ReporterState, path: string) {
    !HasV8Data(s.v8Results, path) && path !in s.coverageMap
  }

  /** The files `_addUntestedFiles` sends to the coverage worker, in order.
      Every condition is read before any worker result lands, so each
      candidate is judged against the same state. */
  function UntestedFiles(s: ReporterState, candidates: seq<Candidate>): (r: seq<Candidate>)
    ensures |r| <= |candidates|
    ensures forall c :: c in r <==> c in candidates && NeedsInstrumenting(s, c.path)
  {
    if |candidates| == 0 then []
    else
      var last := candidates[|candidates| - 1];
      var earlier := UntestedFiles(s, candidates[..|candidates| - 1]);
      assert candidates == candidates[..|candidates| - 1] + [last];
      if NeedsInstrumenting(s, last.path) then earlier + [last] else earlier
  }

  /** A file is instrumented exactly when it is a candidate that neither the
      v8 results nor the coverage map already cover. */
  lemma InstrumentedExactlyWhenUncovered(s: ReporterState, contexts: seq<Context>, patterns: seq<string>, i: nat, p: string)
    requires |patterns| > 0 && i < |contexts|
    requires p in contexts[i].matchFilesWithGlob(patterns, contexts[i].rootDir)
    ensures Candidate(contexts[i].rootDir, p) in UntestedFiles(s, CollectCandidates(contexts, Some(patterns))) <==>
      (forall k :: 0 <= k < |s.v8Results| ==> p !in s.v8Results[k]) && p !in s.coverageMap
  {
  }

  // ---------------------------------------------------------------------------
  // check

  /** Whether metric `m` of `actuals` breaks its threshold: a negative
      threshold `t` bounds the uncovered count by `-t`, a non-negative one is
      a minimum percentage, and an undefined one never breaks. */
  predicate Violated(thresholds: Thresholds, actuals: Summary, m: Metric) {
    m in thresholds &&
    if thresholds[m] < 0 then -thresholds[m] < actuals.Of(m).total - actuals.Of(m).covered
    else actuals.Of(m).pct < thresholds[m]
  }

  /** The error reported for a broken metric. */
  function Breach(name: string, thresholds: Thresholds, actuals: Summary, m: Metric): (e: ThresholdError)
    requires m in thresholds
    ensures !e.CoverageNotFound? && e.name == name && e.metric == m
  {
    if thresholds[m] < 0 then UncoveredExceeded(m, actuals.Of(m).total - actuals.Of(m).covered, name, -thresholds[m])
    else PercentNotMet(name, m, thresholds[m], actuals.Of(m).pct)
  }

  /** An element of a non-empty sequence is in its prefix or is its last. */
  lemma InPrefixOrLast<T>(s: seq<T>, x: T)
    requires x in s
    ensures x in s[..|s| - 1] || x == s[|s| - 1]
  {
    var i :| 0 <= i < |s| && s[i] == x;
    if i < |s| - 1 {
      assert s[..|s| - 1][i] == x;
    }
  }

  /** Metrics in strictly increasing `Rank`. */
  predicate Ascending(ms: seq<Metric>) {
    forall i, j :: 0 <= i < j < |ms| ==> Rank(ms[i]) < Rank(ms[j])
  }

  /** The `reduce` inside `check`, over the metric keys `keys`: every entry
      is the error of a broken metric among the keys. */
  function CheckKeys(name: string, thresholds: Thresholds, actuals: Summary, keys: seq<Metric>): (r: seq<ThresholdError>)
    ensures |r| <= |keys|
    ensures forall k :: 0 <= k < |r| ==>
      !r[k].CoverageNotFound? && r[k].name == name && r[k].metric in keys &&
      Violated(thresholds, actuals, r[k].metric) && r[k] == Breach(name, thresholds, actuals, r[k].metric)
  {
    if |keys| == 0 then []
    else
      var m := keys[|keys| - 1];
      var prefix := keys[..|keys| - 1];
      var earlier := CheckKeys(name, thresholds, actuals, prefix);
      assert forall k :: 0 <= k < |earlier| ==> earlier[k].metric in keys;
      if Violated(thresholds, actuals, m) then earlier + [Breach(name, thresholds, actuals, m)]
      else earlier
  }

  /** Every broken metric among the keys is reported. */
  lemma {:induction false} CheckKeysComplete(name: string, thresholds: Thresholds, actuals: Summary, keys: seq<Metric>)
    ensures forall m :: m in keys && Violated(thresholds, actuals, m) ==>
      Breach(name, thresholds, actuals, m) in CheckKeys(name, thresholds, actuals, keys)
  {
    if |keys| > 0 {
      var prefix := keys[..|keys| - 1];
      CheckKeysComplete(name, thresholds, actuals, prefix);
      forall x | x in keys && Violated(thresholds, actuals, x)
        ensures Breach(name, thresholds, actuals, x) in CheckKeys(name, thresholds, actuals, keys)
      {
        InPrefixOrLast(keys, x);
      }
    }
  }

  /** Over ascending keys the errors come in key order, so each metric is
      reported at most once. */
  lemma {:induction false} CheckKeysOrdered(name: string, thresholds: Thresholds, actuals: Summary, keys: seq<Metric>)
    requires Ascending(keys)
    ensures forall i, j :: 0 <= i < j < |CheckKeys(name, thresholds, actuals, keys)| ==>
      Rank(CheckKeys(name, thresholds, actuals, keys)[i].metric) < Rank(CheckKeys(name, thresholds, actuals, keys)[j].metric)
  {
    if |keys| > 0 {
      var m := keys[|keys| - 1];
      var prefix := keys[..|keys| - 1];
      assert Ascending(prefix) by {
        forall i, j | 0 <= i < j < |prefix| ensures Rank(prefix[i]) < Rank(prefix[j]) {
          assert prefix[i] == keys[i] && prefix[j] == keys[j];
        }
      }
      CheckKeysOrdered(name, thresholds, actuals, prefix);
      var earlier := CheckKeys(name, thresholds, actuals, prefix);
      forall k | 0 <= k < |earlier| ensures Rank(earlier[k].metric) < Rank(m) {
        var i :| 0 <= i < |prefix| && prefix[i] == earlier[k].metric;
        assert keys[i] == prefix[i];
      }
    }
  }

  /** `check(name, thresholds, actuals)`: for `statements`, `branches`,
      `lines` and `functions` in that order, at most one error each, exactly
      for the metrics whose threshold is broken. */
  function Check(name: string, thresholds: Thresholds, actuals: Summary): (r: seq<ThresholdError>)
    ensures |r| <= 4
    ensures forall k :: 0 <= k < |r| ==>
      && !r[k].CoverageNotFound? && r[k].name == name
      && Violated(thresholds, actuals, r[k].metric) && r[k] == Breach(name, thresholds, actuals, r[k].metric)
    ensures forall m :: Violated(thresholds, actuals, m) ==> Breach(name, thresholds, actuals, m) in r
    ensures forall i, j :: 0 <= i < j < |r| ==> Rank(r[i].metric) < Rank(r[j].metric)
  {
    assert forall m :: m in CheckedMetrics by {
      forall m ensures m in CheckedMetrics {
        assert CheckedMetrics[Rank(m)] == m;
      }
    }
    CheckKeysComplete(name, thresholds, actuals, CheckedMetrics);
    CheckKeysOrdered(name, thresholds, actuals, CheckedMetrics);
    CheckKeys(name, thresholds, actuals, CheckedMetrics)
  }

  /** A negative threshold `t` is a maximum uncovered count: the metric is
      reported exactly when `total - covered` exceeds `-t`, and then with
      both numbers. */
  lemma NegativeThresholdBoundsUncovered(name: string, thresholds: Thresholds, actuals: Summary, m: Metric)
    requires m in thresholds && thresholds[m] < 0
    ensures UncoveredExceeded(m, actuals.Of(m).total - actuals.Of(m).covered, name, -thresholds[m]) in Check(name, thresholds, actuals)
      <==> actuals.Of(m).total - actuals.Of(m).covered > -thresholds[m]
    ensures forall k :: 0 <= k < |Check(name, thresholds, actuals)| && Check(name, thresholds, actuals)[k].metric == m ==>
      Check(name, thresholds, actuals)[k] == UncoveredExceeded(m, actuals.Of(m).total - actuals.Of(m).covered, name, -thresholds[m])
  {
    var r := Check(name, thresholds, actuals);
    var e := UncoveredExceeded(m, actuals.Of(m).total - actuals.Of(m).covered, name, -thresholds[m]);
    assert Breach(name, thresholds, actuals, m) == e;
    if e in r {
      var k :| 0 <= k < |r| && r[k] == e;
      assert Violated(thresholds, actuals, r[k].metric);
    }
  }

  /** A non-negative threshold is a minimum percentage, and an undefined one
      is never reported. */
  lemma PercentThresholdIsMinimum(name: string, thresholds: Thresholds, actuals: Summary, m: Metric)
    ensures m !in thresholds ==>
      forall k :: 0 <= k < |Check(name, thresholds, actuals)| ==> Check(name, thresholds, actuals)[k].metric != m
    ensures m in thresholds && thresholds[m] >= 0 ==>
      (PercentNotMet(name, m, thresholds[m], actuals.Of(m).pct) in Check(name, thresholds, actuals) <==>
       actuals.Of(m).pct < thresholds[m])
  {
    var r := Check(name, thresholds, actuals);
    if m in thresholds && thresholds[m] >= 0 {
      var e := PercentNotMet(name, m, thresholds[m], actuals.Of(m).pct);
      assert Breach(name, thresholds, actuals, m) == e;
      if e in r {
        var k :| 0 <= k < |r| && r[k] == e;
        assert Violated(thresholds, actuals, r[k].metric);
      }
    }
  }

  // ---------------------------------------------------------------------------
  // Sorting covered files into threshold groups

  datatype GroupType = PathGroup | GlobGroup | GlobalGroup

  datatype Oracles = Oracles(
    /** `path.resolve(p)` against the current directory */
    resolve: string -> string,
    /** `glob.sync(pattern).map(p => path.resolve(p))` */
    globFiles: string -> seq<string>,
    /** `map.fileCoverageFor(file).toSummary()` */
    summaryOf: string -> Summary,
    /** `summary.merge(other)` */
    merge: (Summary, Summary) -> Summary
  )

  /** How `file` matches the threshold group `group`, if at all: a path
      prefix is tried first, a glob match only when the prefix fails. */
  function MatchKind(o: Oracles, file: string, group: string): (r: Option<GroupType>)
    ensures r == Some(PathGroup) <==> Text.StartsWith(file, o.resolve(group))
    ensures r == Some(GlobGroup) <==>
      !Text.StartsWith(file, o.resolve(group)) && file in o.globFiles(o.resolve(group))
    ensures r != Some(GlobalGroup)
  {
    var absolute := o.resolve(group);
    if Text.StartsWith(file, absolute) then Some(PathGroup)
    else if file in o.globFiles(absolute) then Some(GlobGroup)
    else None
  }

  /** No threshold group matches `file` by prefix or glob. */
  predicate Unmatched(o: Oracles, groups: seq<string>, file: string) {
    forall g :: g in groups ==> MatchKind(o, file, g).None?
  }

  /** The type one file gives group `g`, if any: its match kind, or `global`
      for a file no group matches when a `global` group exists. */
  function KindFor(o: Oracles, groups: seq<string>, file: string, g: string): (r: Option<GroupType>)
    ensures r.Some? ==> g in groups
    ensures r == Some(GlobalGroup) ==> g == GlobalKey && Unmatched(o, groups, file)
  {
    if g in groups && MatchKind(o, file, g).Some? then MatchKind(o, file, g)
    else if g == GlobalKey && GlobalKey in groups && Unmatched(o, groups, file) then Some(GlobalGroup)
    else None
  }

  /** The inner `reduce` over the threshold groups: each group `file`
      matches, in group order, with how it matches. */
  function Matches(o: Oracles, groups: seq<string>, file: string): (r: seq<(string, GroupType)>)
    ensures |r| <= |groups|
    ensures forall k :: 0 <= k < |r| ==> r[k].0 in groups && MatchKind(o, file, r[k].0) == Some(r[k].1)
    ensures forall g :: g in groups && MatchKind(o, file, g).Some? ==> (g, MatchKind(o, file, g).value) in r
  {
    if |groups| == 0 then []
    else
      var g := groups[|groups| - 1];
      var earlier := Matches(o, groups[..|groups| - 1], file);
      forall x | x in groups ensures x in groups[..|groups| - 1] || x == g {
        InPrefixOrLast(groups, x);
      }
      match MatchKind(o, file, g)
      case Some(kind) => earlier + [(g, kind)]
      case None => earlier
  }

  /** What one group contributes to `file`'s matches. */
  function MatchIfAny(o: Oracles, file: string, g: string): seq<(string, GroupType)> {
    if MatchKind(o, file, g).Some? then [(g, MatchKind(o, file, g).value)] else []
  }

  /** The `reduce` visits the groups in order, each once. */
  lemma {:induction false} MatchesInOrder(o: Oracles, groups: seq<string>, file: string,
                                          each: string -> seq<(string, GroupType)>)
    requires forall g :: each(g) == MatchIfAny(o, file, g)
    ensures Matches(o, groups, file) == FlatMap(each, groups)
    decreases |groups|
  {
    if |groups| > 0 {
      MatchesInOrder(o, groups[..|groups| - 1], file, each);
    }
  }

  /** The matches among a list of groups are those of its parts, one after
      the other; one group is listed exactly when the file matches it. So
      each matching group appears once, in group order. */
  lemma MatchesAppend(o: Oracles, a: seq<string>, b: seq<string>, file: string)
    ensures Matches(o, a + b, file) == Matches(o, a, file) + Matches(o, b, file)
    ensures |b| == 1 ==> Matches(o, b, file) == MatchIfAny(o, file, b[0])
  {
    var each := g => MatchIfAny(o, file, g);
    MatchesInOrder(o, a + b, file, each);
    MatchesInOrder(o, a, file, each);
    MatchesInOrder(o, b, file, each);
    FlatMapAppend(each, a, b);
    if |b| == 1 {
      assert b[..0] == [];
    }
  }

  /** A covered file with the threshold group it was sorted into, if any. */
  datatype Pairing = Pairing(file: string, group: Option<string>)

  /** What one covered file contributes: its pairings, and the group types
      it records, in the order it records them. */
  datatype FileSorting = FileSorting(pairings: seq<Pairing>, assignments: seq<(string, GroupType)>)

  /** The outer `reduce`'s step for one covered file. */
  function SortFile(o: Oracles, groups: seq<string>, file: string): (r: FileSorting)
    ensures |r.pairings| >= 1 && forall k :: 0 <= k < |r.pairings| ==> r.pairings[k].file == file
    // every group the file matches gets a pairing, and nothing else does,
    // unless no group matches and `global` exists
    ensures forall g :: Pairing(file, Some(g)) in r.pairings <==> KindFor(o, groups, file, g).Some?
    // the file stays unassigned exactly when nothing matches and there is no `global` group
    ensures Pairing(file, None) in r.pairings <==> Unmatched(o, groups, file) && GlobalKey !in groups
    ensures Pairing(file, None) in r.pairings ==> r.pairings == [Pairing(file, None)]
    // the types recorded are exactly the file's own
    ensures forall k :: 0 <= k < |r.assignments| ==>
      KindFor(o, groups, file, r.assignments[k].0) == Some(r.assignments[k].1)
    ensures forall g :: KindFor(o, groups, file, g).Some? ==> g in Assigned(r.assignments)
  {
    var matches := Matches(o, groups, file);
    if |matches| > 0 then
      var pairings := seq(|matches|, k requires 0 <= k < |matches| => Pairing(file, Some(matches[k].0)));
      assert !Unmatched(o, groups, file) by {
        assert matches[0].0 in groups && MatchKind(o, file, matches[0].0).Some?;
      }
      forall g ensures Pairing(file, Some(g)) in pairings <==> KindFor(o, groups, file, g).Some? {
        if KindFor(o, groups, file, g).Some? {
          var k :| 0 <= k < |matches| && matches[k] == (g, MatchKind(o, file, g).value);
          assert pairings[k] == Pairing(file, Some(g));
        }
      }
      forall g | KindFor(o, groups, file, g).Some? ensures g in Assigned(matches) {
        var k :| 0 <= k < |matches| && matches[k] == (g, MatchKind(o, file, g).value);
      }
      FileSorting(pairings, matches)
    else
      assert Unmatched(o, groups, file);
      if GlobalKey in groups then
        assert KindFor(o, groups, file, GlobalKey) == Some(GlobalGroup);
        assert [(GlobalKey, GlobalGroup)][0].0 == GlobalKey;
        FileSorting([Pairing(file, Some(GlobalKey))], [(GlobalKey, GlobalGroup)])
      else
        FileSorting([Pairing(file, None)], [])
  }

  /** A matched file records its matches and is paired once with each
      matching group, in group order; an unmatched file is paired once, with
      `global` when it exists. */
  lemma SortFileFollowsMatches(o: Oracles, groups: seq<string>, file: string)
    ensures var r := SortFile(o, groups, file);
      |Matches(o, groups, file)| > 0 ==>
      && r.assignments == Matches(o, groups, file)
      && |r.pairings| == |r.assignments|
      && forall k :: 0 <= k < |r.pairings| ==> r.pairings[k] == Pairing(file, Some(r.assignments[k].0))
    ensures var r := SortFile(o, groups, file);
      |Matches(o, groups, file)| == 0 ==>
      if GlobalKey in groups then r.pairings == [Pairing(file, Some(GlobalKey))] && r.assignments == [(GlobalKey, GlobalGroup)]
      else r.pairings == [Pairing(file, None)] && r.assignments == []
  {
  }

  /** The group type map after recording `assignments` in order: a later
      entry overwrites an earlier one. */
  function Record(types: map<string, GroupType>, assignments: seq<(string, GroupType)>): map<string, GroupType> {
    if |assignments| == 0 then types
    else
      var last := assignments[|assignments| - 1];
      Record(types, assignments[..|assignments| - 1])[last.0 := last.1]
  }

  /** The groups a list of assignments names. */
  function Assigned(assignments: seq<(string, GroupType)>): set<string> {
    set k | 0 <= k < |assignments| :: assignments[k].0
  }

  /** Recording a file's assignments sets every group the file types to the
      file's type and leaves every other group alone. */
  lemma {:induction false} RecordFile(types: map<string, GroupType>, o: Oracles, groups: seq<string>, file: string,
                                      assignments: seq<(string, GroupType)>)
    requires forall k :: 0 <= k < |assignments| ==>
      KindFor(o, groups, file, assignments[k].0) == Some(assignments[k].1)
    ensures Record(types, assignments).Keys == types.Keys + Assigned(assignments)
    ensures forall g :: g in Assigned(assignments) ==> Record(types, assignments)[g] == KindFor(o, groups, file, g).value
    ensures forall g :: g in types && g !in Assigned(assignments) ==> Record(types, assignments)[g] == types[g]
  {
    if |assignments| > 0 {
      var prefix := assignments[..|assignments| - 1];
      var last := assignments[|assignments| - 1];
      RecordFile(types, o, groups, file, prefix);
      assert assignments == prefix + [last];
      AssignedAppend(prefix, last);
    }
  }

  lemma AssignedAppend(prefix: seq<(string, GroupType)>, last: (string, GroupType))
    ensures Assigned(prefix + [last]) == Assigned(prefix) + {last.0}
  {
    var all := prefix + [last];
    assert forall k :: 0 <= k < |prefix| ==> all[k] == prefix[k];
    assert all[|prefix|] == last;
  }

  /** The set of groups named by the pairings. */
  function GroupsOf(pairings: seq<Pairing>): set<string> {
    set k | 0 <= k < |pairings| && pairings[k].group.Some? :: pairings[k].group.value
  }

  /** The type of group `g` read backwards: the type the last covered file
      that types `g` gives it. An independent statement of the
      last-writer-wins map the sorting builds. */
  function LastType(o: Oracles, groups: seq<string>, files: seq<string>, g: string): Option<GroupType> {
    if |files| == 0 then None
    else if KindFor(o, groups, files[|files| - 1], g).Some? then KindFor(o, groups, files[|files| - 1], g)
    else LastType(o, groups, files[..|files| - 1], g)
  }

  /** The result of sorting: every pairing in file order, and the
      group-type map. */
  datatype Classification = Classification(pairings: seq<Pairing>, types: map<string, GroupType>)

  /** The types every group in the map can have: the type `global` only
      under that name, and only groups that exist. */
  predicate TypesWellFormed(groups: seq<string>, c: Classification) {
    && c.types.Keys == GroupsOf(c.pairings)
    && (forall g :: g in c.types ==> g in groups)
    && (forall g :: g in c.types && c.types[g] == GlobalGroup ==> g == GlobalKey)
  }

  /** One step of the outer `reduce`: append the file's pairings and
      record its group types. */
  function Step(o: Oracles, groups: seq<string>, acc: Classification, file: string): Classification {
    var s := SortFile(o, groups, file);
    Classification(acc.pairings + s.pairings, Record(acc.types, s.assignments))
  }

  lemma GroupsOfAppend(a: seq<Pairing>, b: seq<Pairing>)
    ensures GroupsOf(a + b) == GroupsOf(a) + GroupsOf(b)
  {
    forall g | g in GroupsOf(a + b) ensures g in GroupsOf(a) + GroupsOf(b) {
      var k :| 0 <= k < |a + b| && (a + b)[k].group == Some(g);
      if k >= |a| {
        assert b[k - |a|].group == Some(g);
      }
    }
    forall g | g in GroupsOf(a) ensures g in GroupsOf(a + b) {
      var k :| 0 <= k < |a| && a[k].group == Some(g);
      assert (a + b)[k].group == Some(g);
    }
    forall g | g in GroupsOf(b) ensures g in GroupsOf(a + b) {
      var k :| 0 <= k < |b| && b[k].group == Some(g);
      assert (a + b)[|a| + k].group == Some(g);
    }
  }

  /** A step keeps the type map well formed and only appends pairings. */
  lemma StepWellFormed(o: Oracles, groups: seq<string>, acc: Classification, file: string)
    requires TypesWellFormed(groups, acc)
    ensures TypesWellFormed(groups, Step(o, groups, acc, file))
    ensures |Step(o, groups, acc, file).pairings| > |acc.pairings|
    ensures forall k :: 0 <= k < |acc.pairings| ==> Step(o, groups, acc, file).pairings[k] == acc.pairings[k]
  {
    var s := SortFile(o, groups, file);
    var next := Step(o, groups, acc, file);
    assert next.types.Keys == GroupsOf(next.pairings) by {
      RecordFile(acc.types, o, groups, file, s.assignments);
      SortedGroups(o, groups, file);
      GroupsOfAppend(acc.pairings, s.pairings);
    }
    StepTypes(o, groups, acc, file);
  }

  /** A step changes exactly the groups the new file types, to the file's
      types. */
  lemma StepTypes(o: Oracles, groups: seq<string>, acc: Classification, file: string)
    ensures forall g :: g in Step(o, groups, acc, file).types <==> g in acc.types || KindFor(o, groups, file, g).Some?
    ensures forall g :: KindFor(o, groups, file, g).Some? ==>
      Step(o, groups, acc, file).types[g] == KindFor(o, groups, file, g).value
    ensures forall g :: g in acc.types && KindFor(o, groups, file, g).None? ==>
      Step(o, groups, acc, file).types[g] == acc.types[g]
  {
    var s := SortFile(o, groups, file);
    RecordFile(acc.types, o, groups, file, s.assignments);
    SortedGroups(o, groups, file);
  }

  /** The groups a file is paired with are exactly the groups it types. */
  lemma SortedGroups(o: Oracles, groups: seq<string>, file: string)
    ensures forall g :: g in GroupsOf(SortFile(o, groups, file).pairings) <==> KindFor(o, groups, file, g).Some?
    ensures GroupsOf(SortFile(o, groups, file).pairings) == Assigned(SortFile(o, groups, file).assignments)
  {
    var s := SortFile(o, groups, file);
    forall g ensures g in GroupsOf(s.pairings) <==> KindFor(o, groups, file, g).Some? {
      if g in GroupsOf(s.pairings) {
        var k :| 0 <= k < |s.pairings| && s.pairings[k].group == Some(g);
        assert s.pairings[k] == Pairing(file, Some(g));
      }
    }
    assert forall g :: g in Assigned(s.assignments) <==> KindFor(o, groups, file, g).Some?;
  }

  /** Every covered file's pairings, file after file. */
  function AllPairings(o: Oracles, groups: seq<string>, files: seq<string>): seq<Pairing> {
    if |files| == 0 then []
    else AllPairings(o, groups, files[..|files| - 1]) + SortFile(o, groups, files[|files| - 1]).pairings
  }

  lemma {:induction false} AllPairingsInOrder(o: Oracles, groups: seq<string>, files: seq<string>, each: string -> seq<Pairing>)
    requires forall f :: each(f) == SortFile(o, groups, f).pairings
    ensures AllPairings(o, groups, files) == FlatMap(each, files)
    decreases |files|
  {
    if |files| > 0 {
      AllPairingsInOrder(o, groups, files[..|files| - 1], each);
    }
  }

  /** The pairings are the covered files' own pairings and nothing else. */
  lemma AllPairingsFromFiles(o: Oracles, groups: seq<string>, files: seq<string>)
    ensures forall p :: p in AllPairings(o, groups, files) <==>
      exists k :: 0 <= k < |files| && p in SortFile(o, groups, files[k]).pairings
  {
    var each := f => SortFile(o, groups, f).pairings;
    AllPairingsInOrder(o, groups, files, each);
    FlatMapMembers(each, files);
  }

  /** A covered file is paired with exactly the groups it types, and with
      no group exactly when nothing matches it and there is no `global`
      group; no other file appears. */
  lemma AllPairingsMembers(o: Oracles, groups: seq<string>, files: seq<string>)
    ensures forall f, g :: Pairing(f, Some(g)) in AllPairings(o, groups, files) <==>
      f in files && KindFor(o, groups, f, g).Some?
    ensures forall f :: Pairing(f, None) in AllPairings(o, groups, files) <==>
      f in files && Unmatched(o, groups, f) && GlobalKey !in groups
  {
    AllPairingsFromFiles(o, groups, files);
    forall p | p in AllPairings(o, groups, files) ensures p.file in files && p in SortFile(o, groups, p.file).pairings {
      var k :| 0 <= k < |files| && p in SortFile(o, groups, files[k]).pairings;
      var j :| 0 <= j < |SortFile(o, groups, files[k]).pairings| && SortFile(o, groups, files[k]).pairings[j] == p;
    }
    forall f, p | f in files && p in SortFile(o, groups, f).pairings ensures p in AllPairings(o, groups, files) {
      var k :| 0 <= k < |files| && files[k] == f;
    }
  }

  /** The outer `reduce` over the covered files, from the i-th on. */
  function ClassifyFrom(o: Oracles, groups: seq<string>, files: seq<string>, i: nat, acc: Classification): (r: Classification)
    requires i <= |files|
    requires TypesWellFormed(groups, acc)
    requires forall g :: (g in acc.types <==> LastType(o, groups, files[..i], g).Some?)
    requires forall g :: g in acc.types ==> acc.types[g] == LastType(o, groups, files[..i], g).value
    ensures TypesWellFormed(groups, r)
    ensures forall g :: (g in r.types <==> LastType(o, groups, files, g).Some?)
    ensures forall g :: g in r.types ==> r.types[g] == LastType(o, groups, files, g).value
    ensures |r.pairings| >= |acc.pairings| + |files| - i
    ensures forall k :: 0 <= k < |acc.pairings| ==> r.pairings[k] == acc.pairings[k]
    ensures acc.pairings == AllPairings(o, groups, files[..i]) ==> r.pairings == AllPairings(o, groups, files)
    decreases |files| - i
  {
    if i == |files| then
      assert files[..i] == files;
      acc
    else
      ClassifyStep(o, groups, files, i, acc);
      ClassifyFrom(o, groups, files, i + 1, Step(o, groups, acc, files[i]))
  }

  /** The i-th step keeps the fold's invariant one file further on, only
      appends pairings, and appends exactly the i-th file's. */
  lemma ClassifyStep(o: Oracles, groups: seq<string>, files: seq<string>, i: nat, acc: Classification)
    requires i < |files|
    requires TypesWellFormed(groups, acc)
    requires forall g :: (g in acc.types <==> LastType(o, groups, files[..i], g).Some?)
    requires forall g :: g in acc.types ==> acc.types[g] == LastType(o, groups, files[..i], g).value
    ensures var next := Step(o, groups, acc, files[i]);
      && TypesWellFormed(groups, next)
      && (forall g :: (g in next.types <==> LastType(o, groups, files[..i + 1], g).Some?))
      && (forall g :: g in next.types ==> next.types[g] == LastType(o, groups, files[..i + 1], g).value)
      && |next.pairings| > |acc.pairings|
      && (forall k :: 0 <= k < |acc.pairings| ==> next.pairings[k] == acc.pairings[k])
      && (acc.pairings == AllPairings(o, groups, files[..i]) ==> next.pairings == AllPairings(o, groups, files[..i + 1]))
  {
    StepWellFormed(o, groups, acc, files[i]);
    StepTypes(o, groups, acc, files[i]);
    assert files[..i + 1][..i] == files[..i] && files[..i + 1][i] == files[i];
    assert AllPairings(o, groups, files[..i + 1]) ==
      AllPairings(o, groups, files[..i]) + SortFile(o, groups, files[i]).pairings;
  }

  /** `coveredFilesSortedIntoThresholdGroup` together with
      `groupTypeByThresholdGroup`. A group has a type exactly when some
      covered file is paired with it; that type is the one the last such
      file gives it; only the group named `global` can have the type
      `global`. */
  function Classify(o: Oracles, groups: seq<string>, files: seq<string>): (r: Classification)
    ensures TypesWellFormed(groups, r)
    ensures forall g :: (g in r.types <==> LastType(o, groups, files, g).Some?)
    ensures forall g :: g in r.types ==> r.types[g] == LastType(o, groups, files, g).value
    ensures |r.pairings| >= |files|
    // the pairings are every covered file's, in file order
    ensures r.pairings == AllPairings(o, groups, files)
  {
    assert files[..0] == [];
    ClassifyFrom(o, groups, files, 0, Classification([], map[]))
  }

  // ---------------------------------------------------------------------------
  // Per-group evaluation

  /** `getFilesInThresholdGroup`: the files paired with `group`, in order. */
  function FilesInGroup(pairings: seq<Pairing>, group: string): (r: seq<string>)
    ensures |r| <= |pairings|
    ensures forall f :: f in r <==> Pairing(f, Some(group)) in pairings
    ensures |r| == 0 <==> group !in GroupsOf(pairings)
  {
    if |pairings| == 0 then []
    else
      var earlier := FilesInGroup(pairings[..|pairings| - 1], group);
      var p := pairings[|pairings| - 1];
      assert forall x :: x in pairings <==> x in pairings[..|pairings| - 1] || x == p by {
        assert pairings == pairings[..|pairings| - 1] + [p];
      }
      assert GroupsOf(pairings) == GroupsOf(pairings[..|pairings| - 1]) + (if p.group.Some? then {p.group.value} else {}) by {
        forall g | g in GroupsOf(pairings)
          ensures g in GroupsOf(pairings[..|pairings| - 1]) + (if p.group.Some? then {p.group.value} else {})
        {
          var k :| 0 <= k < |pairings| && pairings[k].group == Some(g);
          if k < |pairings| - 1 {
            assert pairings[..|pairings| - 1][k].group == Some(g);
          }
        }
      }
      if p.group == Some(group) then earlier + [p.file] else earlier
  }

  /** The file one pairing contributes to `group`'s list. */
  function FileIfIn(p: Pairing, group: string): seq<string> {
    if p.group == Some(group) then [p.file] else []
  }

  /** The `filter` keeps the pairings in order, one file per pairing. */
  lemma {:induction false} FilesInGroupInOrder(pairings: seq<Pairing>, group: string, each: Pairing -> seq<string>)
    requires forall p :: each(p) == FileIfIn(p, group)
    ensures FilesInGroup(pairings, group) == FlatMap(each, pairings)
    decreases |pairings|
  {
    if |pairings| > 0 {
      FilesInGroupInOrder(pairings[..|pairings| - 1], group, each);
    }
  }

  /** A group's files from a list of pairings are those of its parts, one
      after the other; one pairing gives its file exactly when it names the
      group. So every file appears once per pairing, in pairing order. */
  lemma FilesInGroupAppend(a: seq<Pairing>, b: seq<Pairing>, group: string)
    ensures FilesInGroup(a + b, group) == FilesInGroup(a, group) + FilesInGroup(b, group)
    ensures |b| == 1 ==> FilesInGroup(b, group) == (if b[0].group == Some(group) then [b[0].file] else [])
  {
    var each := p => FileIfIn(p, group);
    FilesInGroupInOrder(a + b, group, each);
    FilesInGroupInOrder(a, group, each);
    FilesInGroupInOrder(b, group, each);
    FlatMapAppend(each, a, b);
    if |b| == 1 {
      assert b[..0] == [];
    }
  }

  /** `combineCoverage`: nothing for no files, otherwise the summaries of
      the files merged left to right. */
  function Combine(o: Oracles, files: seq<string>): (r: Option<Summary>)
    ensures r.None? <==> |files| == 0
    ensures |files| == 1 ==> r == Some(o.summaryOf(files[0]))
  {
    if |files| == 0 then None
    else
      var next := o.summaryOf(files[|files| - 1]);
      match Combine(o, files[..|files| - 1])
      case None => Some(next)
      case Some(combined) => Some(o.merge(combined, next))
  }

  /** The checks of a glob group: each file on its own, under its own name. */
  function CheckEach(o: Oracles, files: seq<string>, thresholds: Thresholds): (r: seq<ThresholdError>)
    ensures |r| <= 4 * |files|
    // every error is a breach of the file it names, on that file's own summary
    ensures forall k :: 0 <= k < |r| ==>
      && !r[k].CoverageNotFound? && r[k].name in files
      && Violated(thresholds, o.summaryOf(r[k].name), r[k].metric)
      && r[k] == Breach(r[k].name, thresholds, o.summaryOf(r[k].name), r[k].metric)
    ensures forall k :: 0 <= k < |files| ==>
      forall m :: Violated(thresholds, o.summaryOf(files[k]), m) ==> Breach(files[k], thresholds, o.summaryOf(files[k]), m) in r
  {
    if |files| == 0 then []
    else
      var f := files[|files| - 1];
      var earlier := CheckEach(o, files[..|files| - 1], thresholds);
      var own := Check(f, thresholds, o.summaryOf(f));
      assert forall x :: x in files[..|files| - 1] ==> x in files;
      forall k, m | 0 <= k < |files| && Violated(thresholds, o.summaryOf(files[k]), m)
        ensures Breach(files[k], thresholds, o.summaryOf(files[k]), m) in earlier + own
      {
        if k < |files| - 1 {
          assert files[..|files| - 1][k] == files[k];
        }
      }
      earlier + own
  }

  /** The checks of a glob group are each file's own checks, one file after
      the other in file order. */
  lemma {:induction false} CheckEachInOrder(o: Oracles, files: seq<string>, thresholds: Thresholds,
                                            each: string -> seq<ThresholdError>)
    requires forall f :: each(f) == Check(f, thresholds, o.summaryOf(f))
    ensures CheckEach(o, files, thresholds) == FlatMap(each, files)
    decreases |files|
  {
    if |files| > 0 {
      CheckEachInOrder(o, files[..|files| - 1], thresholds, each);
    }
  }

  /** The errors for a list of files are those of its parts, one after the
      other, and one file's errors are `check`'s for it. */
  lemma CheckEachAppend(o: Oracles, a: seq<string>, b: seq<string>, thresholds: Thresholds)
    ensures CheckEach(o, a + b, thresholds) == CheckEach(o, a, thresholds) + CheckEach(o, b, thresholds)
    ensures |b| == 1 ==> CheckEach(o, b, thresholds) == Check(b[0], thresholds, o.summaryOf(b[0]))
  {
    var each := f => Check(f, thresholds, o.summaryOf(f));
    CheckEachInOrder(o, a + b, thresholds, each);
    CheckEachInOrder(o, a, thresholds, each);
    CheckEachInOrder(o, b, thresholds, each);
    FlatMapAppend(each, a, b);
    if |b| == 1 {
      assert b[..0] == [];
    }
  }

  /** The merge as the source's `reduce` reads it: start from the first
      file's summary and merge in the others left to right. */
  function MergeFrom(o: Oracles, acc: Summary, files: seq<string>, i: nat): Summary
    requires i <= |files|
    decreases |files| - i
  {
    if i == |files| then acc else MergeFrom(o, o.merge(acc, o.summaryOf(files[i])), files, i + 1)
  }

  /** `combineCoverage` is the left fold of the merge over the files'
      summaries, seeded with the first. */
  lemma CombineIsLeftFold(o: Oracles, files: seq<string>)
    requires |files| > 0
    ensures Combine(o, files) == Some(MergeFrom(o, o.summaryOf(files[0]), files, 1))
  {
    CombineFoldPrefix(o, files, |files|);
    assert files[..|files|] == files;
  }

  lemma {:induction false} CombineFoldPrefix(o: Oracles, files: seq<string>, n: nat)
    requires 1 <= n <= |files|
    ensures Combine(o, files[..n]).Some?
    ensures MergeFrom(o, Combine(o, files[..n]).value, files, n) == MergeFrom(o, o.summaryOf(files[0]), files, 1)
    decreases n
  {
    if n > 1 {
      CombineFoldPrefix(o, files, n - 1);
      assert files[..n][..n - 1] == files[..n - 1];
      assert files[..n][n - 1] == files[n - 1];
    } else {
      assert files[..1][0] == files[0];
    }
  }

  /** One iteration of the `forEach` over the threshold groups. */
  function EvaluateGroup(o: Oracles, entry: ThresholdEntry, c: Classification): (r: seq<ThresholdError>)
    // an untyped group is reported as not found, unless it is `global`
    ensures entry.group !in c.types ==>
      r == (if entry.group == GlobalKey then [] else [CoverageNotFound(entry.group)])
    // a path or global group is checked once, under its own name, on the merged summary
    ensures entry.group in c.types && c.types[entry.group] == PathGroup ==>
      var files := FilesInGroup(c.pairings, entry.group);
      && |r| <= 4
      && (|files| == 0 ==> r == [])
      && (|files| > 0 ==> r == Check(entry.group, entry.thresholds, Combine(o, files).value))
    // a global group is checked the same way on the files sorted into `global`
    ensures entry.group in c.types && c.types[entry.group] == GlobalGroup ==>
      var files := FilesInGroup(c.pairings, GlobalKey);
      && |r| <= 4
      && (|files| == 0 ==> r == [])
      && (|files| > 0 ==> r == Check(entry.group, entry.thresholds, Combine(o, files).value))
    // a glob group is checked once per file, under the file's name
    ensures entry.group in c.types && c.types[entry.group] == GlobGroup ==>
      r == CheckEach(o, FilesInGroup(c.pairings, entry.group), entry.thresholds)
  {
    if entry.group !in c.types then
      if entry.group != GlobalKey then [CoverageNotFound(entry.group)] else []
    else
      match c.types[entry.group]
      case GlobalGroup => (
        match Combine(o, FilesInGroup(c.pairings, GlobalKey))
        case Some(coverage) => Check(entry.group, entry.thresholds, coverage)
        case None => [])
      case PathGroup => (
        match Combine(o, FilesInGroup(c.pairings, entry.group))
        case Some(coverage) => Check(entry.group, entry.thresholds, coverage)
        case None => [])
      case GlobGroup => CheckEach(o, FilesInGroup(c.pairings, entry.group), entry.thresholds)
  }

  /** The group names, in `Object.keys` order. */
  function Groups(entries: seq<ThresholdEntry>): (r: seq<string>)
    ensures |r| == |entries| && forall k :: 0 <= k < |r| ==> r[k] == entries[k].group
  {
    seq(|entries|, k requires 0 <= k < |entries| => entries[k].group)
  }

  /** The errors of all groups, group by group. */
  function EvaluateGroups(o: Oracles, entries: seq<ThresholdEntry>, c: Classification): (r: seq<ThresholdError>)
    ensures forall g :: CoverageNotFound(g) in r <==> g in Groups(entries) && g !in c.types && g != GlobalKey
  {
    if |entries| == 0 then []
    else
      var e := entries[|entries| - 1];
      var earlier := EvaluateGroups(o, entries[..|entries| - 1], c);
      var own := EvaluateGroup(o, e, c);
      assert Groups(entries) == Groups(entries[..|entries| - 1]) + [e.group];
      assert forall g :: CoverageNotFound(g) in own <==> g == e.group && g !in c.types && g != GlobalKey;
      earlier + own
  }

  /** `f`'s results over `xs`, one after the other. */
  function FlatMap<A, B>(f: A -> seq<B>, xs: seq<A>): seq<B> {
    if |xs| == 0 then [] else FlatMap(f, xs[..|xs| - 1]) + f(xs[|xs| - 1])
  }

  lemma {:induction false} FlatMapAppend<A, B>(f: A -> seq<B>, a: seq<A>, b: seq<A>)
    ensures FlatMap(f, a + b) == FlatMap(f, a) + FlatMap(f, b)
    decreases |b|
  {
    if |b| == 0 {
      assert a + b == a;
    } else {
      assert (a + b)[..|a + b| - 1] == a + b[..|b| - 1];
      assert (a + b)[|a + b| - 1] == b[|b| - 1];
      FlatMapAppend(f, a, b[..|b| - 1]);
    }
  }

  lemma {:induction false} FlatMapMembers<A, B>(f: A -> seq<B>, xs: seq<A>)
    ensures forall x :: x in FlatMap(f, xs) <==> exists k :: 0 <= k < |xs| && x in f(xs[k])
    decreases |xs|
  {
    if |xs| > 0 {
      var n := |xs| - 1;
      var prefix := xs[..n];
      FlatMapMembers(f, prefix);
      assert FlatMap(f, xs) == FlatMap(f, prefix) + f(xs[n]);
      forall x ensures x in FlatMap(f, xs) <==> exists k :: 0 <= k < |xs| && x in f(xs[k]) {
        if x in FlatMap(f, xs) && x !in f(xs[n]) {
          var k :| 0 <= k < n && x in f(prefix[k]);
          assert prefix[k] == xs[k];
        }
        if exists k :: 0 <= k < |xs| && x in f(xs[k]) {
          var k :| 0 <= k < |xs| && x in f(xs[k]);
          if k < n {
            assert prefix[k] == xs[k];
          }
        }
      }
    }
  }

  /** The outer `forEach` over the threshold groups runs each group's
      iteration in key order and reports their errors one after the other. */
  lemma {:induction false} EvaluateGroupsInOrder(o: Oracles, entries: seq<ThresholdEntry>, c: Classification,
                                                 each: ThresholdEntry -> seq<ThresholdError>)
    requires forall e :: each(e) == EvaluateGroup(o, e, c)
    ensures EvaluateGroups(o, entries, c) == FlatMap(each, entries)
    decreases |entries|
  {
    if |entries| > 0 {
      EvaluateGroupsInOrder(o, entries[..|entries| - 1], c, each);
    }
  }

  /** The errors of a list of threshold groups are those of its parts, one
      after the other, and a single group's errors are its iteration's. */
  lemma EvaluateGroupsAppend(o: Oracles, a: seq<ThresholdEntry>, b: seq<ThresholdEntry>, c: Classification)
    ensures EvaluateGroups(o, a + b, c) == EvaluateGroups(o, a, c) + EvaluateGroups(o, b, c)
    ensures |b| == 1 ==> EvaluateGroups(o, b, c) == EvaluateGroup(o, b[0], c)
  {
    var each := e => EvaluateGroup(o, e, c);
    EvaluateGroupsInOrder(o, a + b, c, each);
    EvaluateGroupsInOrder(o, a, c, each);
    EvaluateGroupsInOrder(o, b, c, each);
    FlatMapAppend(each, a, b);
    if |b| == 1 {
      assert b[..0] == [];
    }
  }

  /** An error is reported exactly when some threshold group's iteration
      reports it. */
  lemma EvaluateGroupsMembers(o: Oracles, entries: seq<ThresholdEntry>, c: Classification)
    ensures forall x :: x in EvaluateGroups(o, entries, c) <==>
      exists k :: 0 <= k < |entries| && x in EvaluateGroup(o, entries[k], c)
  {
    var each := e => EvaluateGroup(o, e, c);
    EvaluateGroupsInOrder(o, entries, c, each);
    FlatMapMembers(each, entries);
  }

  /** A path or global group always has a covered file: the skip for a
      group with no coverage never fires, and the only silent group is an
      untyped `global`. */
  lemma TypedGroupsHaveFiles(o: Oracles, groups: seq<string>, files: seq<string>, g: string)
    ensures g in Classify(o, groups, files).types ==> |FilesInGroup(Classify(o, groups, files).pairings, g)| > 0
    ensures g in Classify(o, groups, files).types && Classify(o, groups, files).types[g] == GlobalGroup ==> g == GlobalKey
  {
  }

  // ---------------------------------------------------------------------------
  // _checkThreshold

  /** What `_checkThreshold` ends with: the error texts, and the error passed
      to `_setError` (and logged), if any. */
  datatype Verdict = Verdict(errors: seq<string>, reported: Option<string>)

  /** The error texts in order. */
  function Messages(errors: seq<ThresholdError>): (r: seq<string>)
    ensures |r| == |errors| && forall k :: 0 <= k < |r| ==> r[k] == Message(errors[k])
  {
    seq(|errors|, k requires 0 <= k < |errors| => Message(errors[k]))
  }

  /** `_checkThreshold(map)`: without a `coverageThreshold` nothing happens;
      otherwise the groups are evaluated in order, empty texts are dropped,
      and a non-empty list is reported joined by line breaks. */
  function CheckThreshold(o: Oracles, coverageThreshold: Option<seq<ThresholdEntry>>, coveredFiles: seq<string>): (r: Option<Verdict>)
    ensures r.None? <==> coverageThreshold.None?
    ensures r.Some? ==>
      && (forall k :: 0 <= k < |r.value.errors| ==> |r.value.errors[k]| > 0)
      && (r.value.reported.Some? <==> |r.value.errors| > 0)
      && (r.value.reported.Some? ==> r.value.reported.value == Text.Join(r.value.errors, '\n'))
    ensures r.Some? ==>
      var groups := Groups(coverageThreshold.value);
      var c := Classify(o, groups, coveredFiles);
      r.value.errors == Messages(EvaluateGroups(o, coverageThreshold.value, c))
  {
    match coverageThreshold
    case None => None
    case Some(entries) =>
      var c := Classify(o, Groups(entries), coveredFiles);
      var all := Messages(EvaluateGroups(o, entries, c));
      // every text starts with `Jest: `, so the filter of empty entries removes nothing
      assert forall k :: 0 <= k < |all| ==> |all[k]| > 0 by {
        forall k | 0 <= k < |all| ensures |all[k]| > 0 {
          assert Text.StartsWith(all[k], "Jest: ");
        }
      }
      Text.NonEmptyKeepsAll(all);
      var errors := Text.NonEmpty(all);
      Some(Verdict(errors, if |errors| > 0 then Some(Text.Join(errors, '\n')) else None))
  }

  /** A threshold group matched by no covered file is reported as not found,
      except `global`, which is silent when path and glob groups took every
      file; a group some covered file matches never is. */
  lemma NotFoundExactlyForUnmatchedGroups(o: Oracles, entries: seq<ThresholdEntry>, coveredFiles: seq<string>, g: string)
    requires g in Groups(entries)
    ensures
      CoverageNotFound(g) in EvaluateGroups(o, entries, Classify(o, Groups(entries), coveredFiles)) <==>
        g != GlobalKey && forall k :: 0 <= k < |coveredFiles| ==> KindFor(o, Groups(entries), coveredFiles[k], g).None?
  {
    NoTypeWithoutFile(o, Groups(entries), coveredFiles, g);
  }

  /** `LastType` finds a type exactly when some covered file types the group. */
  lemma {:induction false} NoTypeWithoutFile(o: Oracles, groups: seq<string>, files: seq<string>, g: string)
    ensures LastType(o, groups, files, g).None? <==>
      forall k :: 0 <= k < |files| ==> KindFor(o, groups, files[k], g).None?
  {
    if |files| > 0 {
      var prefix := files[..|files| - 1];
      NoTypeWithoutFile(o, groups, prefix, g);
      assert forall k :: 0 <= k < |prefix| ==> prefix[k] == files[k];
    }
  }
}
