/** The decisions the Jasmine2 test framework adapter makes around a test
    file run (packages/jest-jasmine2/src/index.ts): which spec filter it
    installs, which fake timers it switches on, which resets run before
    each test, and how the snapshot state is folded into the file's result.
    The Jasmine environment, module loading and the snapshot state's own
    logic stay outside; the snapshot state is an abstract record of what
    it reports. */
module Jasmine2 {
  import opened Wrappers

  // ---------------------------------------------------------------------------
  // Spec filter

  /** `enabledTestsMap[testPath][fullName]` */
  type EnabledTestsMap = map<string, map<string, bool>>

  /** The `env.specFilter` the adapter installs. */
  datatype SpecFilter =
    | EnabledTests(enabled: EnabledTestsMap)
    | NamePattern(pattern: string)

  /** What a filter sees of a spec: its file and its full name. */
  datatype Spec = Spec(testPath: string, fullName: string)

  /** The filter choice: an enabled-tests map wins; otherwise a non-empty
      test name pattern; otherwise Jasmine's own filter is left in place
      (`None`). */
  function SelectSpecFilter(enabledTestsMap: Option<EnabledTestsMap>, testNamePattern: Option<string>): (r: Option<SpecFilter>)
    ensures enabledTestsMap.Some? ==> r == Some(EnabledTests(enabledTestsMap.value))
    ensures enabledTestsMap.None? && testNamePattern.Some? && testNamePattern.value != "" ==>
      r == Some(NamePattern(testNamePattern.value))
    ensures r.None? <==> enabledTestsMap.None? && (testNamePattern.None? || testNamePattern.value == "")
  {
    if enabledTestsMap.Some? then Some(EnabledTests(enabledTestsMap.value))
    else if testNamePattern.Some? && testNamePattern.value != "" then Some(NamePattern(testNamePattern.value))
    else None
  }

  /** Whether an installed filter lets `spec` run. `testIgnoringCase(p, s)`
      is `new RegExp(p, 'i').test(s)`. An enabled-tests map admits a spec
      exactly when it holds `true` at `[testPath][fullName]`; a missing
      file or name means `false`. */
  function Admits(filter: SpecFilter, spec: Spec, testIgnoringCase: (string, string) -> bool): (r: bool)
    ensures filter.EnabledTests? ==>
      (r <==> spec.testPath in filter.enabled
              && spec.fullName in filter.enabled[spec.testPath]
              && filter.enabled[spec.testPath][spec.fullName])
    ensures filter.NamePattern? ==> r == testIgnoringCase(filter.pattern, spec.fullName)
  {
    match filter
    case EnabledTests(m) =>
      if spec.testPath in m && spec.fullName in m[spec.testPath] then m[spec.testPath][spec.fullName] else false
    case NamePattern(p) => testIgnoringCase(p, spec.fullName)
  }

  /** With an enabled-tests map the name pattern plays no part: the same
      specs run whatever the pattern is. */
  lemma EnabledTestsMapTakesPrecedence(m: EnabledTestsMap, p: Option<string>, q: Option<string>,
                                       spec: Spec, testIgnoringCase: (string, string) -> bool)
    ensures SelectSpecFilter(Some(m), p) == SelectSpecFilter(Some(m), q)
    ensures Admits(SelectSpecFilter(Some(m), p).value, spec, testIgnoringCase) ==
            (spec.testPath in m && spec.fullName in m[spec.testPath] && m[spec.testPath][spec.fullName])
  {
  }

  // ---------------------------------------------------------------------------
  // Timers and per-test resets

  /** The project settings the adapter reads. */
  datatype ProjectConfig = ProjectConfig(
    timers: string,
    resetModules: bool,
    clearMocks: bool,
    resetMocks: bool,
    restoreMocks: bool
  )

  datatype TimerMode = LegacyFakeTimers | ModernFakeTimers | RealTimers

  /** Calls the adapter makes on the runtime and the environment. */
  datatype Action =
    | ResetModules
    | ClearAllMocks
    | ResetAllMocks
    | UseLegacyFakeTimers
    | UseModernFakeTimers
    | RestoreAllMocks

  /** `config.timers`: `"fake"` and `"legacy"` mean the legacy fake timers,
      `"modern"` the modern ones, anything else real timers. */
  function SelectTimers(timers: string): (r: TimerMode)
    ensures r == LegacyFakeTimers <==> timers in {"fake", "legacy"}
    ensures r == ModernFakeTimers <==> timers == "modern"
    ensures r == RealTimers <==> timers !in {"fake", "legacy", "modern"}
  {
    if timers == "fake" || timers == "legacy" then LegacyFakeTimers
    else if timers == "modern" then ModernFakeTimers
    else RealTimers
  }

  /** The timer switch made once while the adapter sets up: at most one
      `useFakeTimers` call, on the implementation `SelectTimers` names. */
  function SetupTimerActions(config: ProjectConfig): (r: seq<Action>)
    ensures |r| <= 1
    ensures r == [UseLegacyFakeTimers] <==> SelectTimers(config.timers) == LegacyFakeTimers
    ensures r == [UseModernFakeTimers] <==> SelectTimers(config.timers) == ModernFakeTimers
    ensures r == [] <==> SelectTimers(config.timers) == RealTimers
  {
    match SelectTimers(config.timers)
    case LegacyFakeTimers => [UseLegacyFakeTimers]
    case ModernFakeTimers => [UseModernFakeTimers]
    case RealTimers => []
  }

  /** The position of an action in the fixed `beforeEach` order. */
  function Rank(a: Action): nat {
    match a
    case ResetModules => 0
    case ClearAllMocks => 1
    case ResetAllMocks => 2
    case UseLegacyFakeTimers => 3
    case UseModernFakeTimers => 4
    case RestoreAllMocks => 5
  }

  /** Actions in strictly increasing `Rank`, so each occurs at most once. */
  predicate InOrder(s: seq<Action>) {
    forall i, j :: 0 <= i < j < |s| ==> Rank(s[i]) < Rank(s[j])
  }

  /** The calls made before each test, in the order the `beforeEach` hook
      makes them. */
  function BeforeEachActions(config: ProjectConfig): seq<Action> {
    (if config.resetModules then [ResetModules] else [])
    + (if config.clearMocks then [ClearAllMocks] else [])
    + (if config.resetMocks then
         [ResetAllMocks] + (if SelectTimers(config.timers) == LegacyFakeTimers then [UseLegacyFakeTimers] else [])
       else [])
    + (if config.restoreMocks then [RestoreAllMocks] else [])
  }

  /** The `beforeEach` calls come in one fixed order, each at most once. */
  lemma BeforeEachOrder(config: ProjectConfig)
    ensures InOrder(BeforeEachActions(config))
  {
  }

  /** Each `beforeEach` call is made exactly when its flag is set; the legacy
      fake timers are re-installed exactly when mocks are reset under legacy
      timers, and the modern ones never. */
  lemma BeforeEachGating(config: ProjectConfig)
    ensures ResetModules in BeforeEachActions(config) <==> config.resetModules
    ensures ClearAllMocks in BeforeEachActions(config) <==> config.clearMocks
    ensures ResetAllMocks in BeforeEachActions(config) <==> config.resetMocks
    ensures UseLegacyFakeTimers in BeforeEachActions(config) <==>
      config.resetMocks && SelectTimers(config.timers) == LegacyFakeTimers
    ensures UseModernFakeTimers !in BeforeEachActions(config)
    ensures RestoreAllMocks in BeforeEachActions(config) <==> config.restoreMocks
  {
  }

  // ---------------------------------------------------------------------------
  // Snapshot bookkeeping

  datatype Status = Passed | Failed | Skipped | Pending | Todo | Disabled

  datatype AssertionResult = AssertionResult(fullName: string, status: Status)

  /** The `snapshot` part of a test file's result. */
  datatype SnapshotSummary = SnapshotSummary(
    fileDeleted: bool,
    added: nat,
    matched: nat,
    unmatched: nat,
    updated: nat,
    unchecked: nat,
    uncheckedKeys: seq<string>
  )

  /** A test file's result; `rest` stands for every field the snapshot
      bookkeeping does not touch. */
  datatype TestResult<Rest> = TestResult(testResults: seq<AssertionResult>, snapshot: SnapshotSummary, rest: Rest)

  /** What the snapshot state reports. Its unchecked count and keys depend
      on which tests have been marked as checked; `deletedOnSave` is the
      `deleted` flag `save()` returns. */
  datatype SnapshotState = SnapshotState(
    uncheckedCount: seq<string> -> nat,
    uncheckedKeys: seq<string> -> seq<string>,
    deletedOnSave: bool,
    added: nat,
    matched: nat,
    unmatched: nat,
    updated: nat
  )

  /** Calls made on the snapshot state. */
  datatype SnapshotCall = MarkCheckedForTest(fullName: string) | RemoveUncheckedKeys | Save

  datatype Bookkeeping<Rest> = Bookkeeping(calls: seq<SnapshotCall>, result: TestResult<Rest>)

  /** A skipped (`pending`) or failed test keeps its snapshots from being
      reported obsolete. */
  predicate KeepsSnapshots(a: AssertionResult) {
    a.status == Pending || a.status == Failed
  }

  /** The names marked as checked: those of the pending and failed results, in order. */
  function MarkedNames(results: seq<AssertionResult>): (r: seq<string>)
    ensures |r| <= |results|
    ensures forall n :: n in r <==> exists i :: 0 <= i < |results| && KeepsSnapshots(results[i]) && results[i].fullName == n
  {
    if |results| == 0 then []
    else (if KeepsSnapshots(results[0]) then [results[0].fullName] else []) + MarkedNames(results[1..])
  }

  /** The `forEach` marks result by result: the names for a list of results
      are those of its parts, one after the other. */
  lemma {:induction false} MarkedNamesAppend(a: seq<AssertionResult>, b: seq<AssertionResult>)
    ensures MarkedNames(a + b) == MarkedNames(a) + MarkedNames(b)
    decreases |a|
  {
    if |a| > 0 {
      assert (a + b)[1..] == a[1..] + b;
      MarkedNamesAppend(a[1..], b);
    } else {
      assert a + b == b;
    }
  }

  /** One result is marked exactly when it is pending or failed. */
  lemma MarkedNamesSingle(a: AssertionResult)
    ensures MarkedNames([a]) == (if KeepsSnapshots(a) then [a.fullName] else [])
  {
    assert [a][1..] == [];
  }

  /** The calls `addSnapshotData` makes on the snapshot state: a mark per
      name in order, a removal of the unchecked keys when `remove` holds,
      and one `save()` at the end. */
  function SnapshotCalls(marked: seq<string>, remove: bool): (r: seq<SnapshotCall>)
    ensures |r| == |marked| + 1 + (if remove then 1 else 0)
    ensures forall k :: 0 <= k < |marked| ==> r[k] == MarkCheckedForTest(marked[k])
    ensures forall n :: MarkCheckedForTest(n) in r <==> n in marked
    ensures RemoveUncheckedKeys in r <==> remove
    ensures r[|r| - 1] == Save && forall k :: 0 <= k < |r| - 1 ==> r[k] != Save
    ensures forall i, j :: 0 <= i < j < |r| && !r[i].MarkCheckedForTest? ==> !r[j].MarkCheckedForTest?
  {
    var marks := seq(|marked|, i requires 0 <= i < |marked| => MarkCheckedForTest(marked[i]));
    var removal := if remove then [RemoveUncheckedKeys] else [];
    var calls := marks + removal + [Save];
    forall n ensures MarkCheckedForTest(n) in calls <==> n in marked {
      if n in marked {
        var k :| 0 <= k < |marked| && marked[k] == n;
        assert calls[k] == MarkCheckedForTest(n);
      }
      if MarkCheckedForTest(n) in calls {
        var k :| 0 <= k < |calls| && calls[k] == MarkCheckedForTest(n);
        assert k < |marks|;
      }
    }
    forall k | 0 <= k < |calls| - 1 ensures calls[k] != Save {
      if k < |marks| {
        assert calls[k] == marks[k];
      } else {
        assert calls[k] == removal[k - |marks|];
      }
    }
    assert RemoveUncheckedKeys in calls <==> RemoveUncheckedKeys in removal;
    calls
  }

  /** `addSnapshotData` */
  function AddSnapshotData<Rest>(results: TestResult<Rest>, state: SnapshotState): (r: Bookkeeping<Rest>)
    // the calls: one mark per pending or failed result, then a removal of
    // the unchecked keys exactly when there are any, then `save()`
    ensures |r.calls| >= 1 && r.calls[|r.calls| - 1] == Save
    ensures forall n :: MarkCheckedForTest(n) in r.calls <==>
      exists i :: 0 <= i < |results.testResults| && KeepsSnapshots(results.testResults[i]) && results.testResults[i].fullName == n
    ensures RemoveUncheckedKeys in r.calls <==> state.uncheckedCount(MarkedNames(results.testResults)) != 0
    ensures forall i, j :: 0 <= i < j < |r.calls| && !r.calls[i].MarkCheckedForTest? ==> !r.calls[j].MarkCheckedForTest?
    // in full: the marks in result order, at most one removal, and one `save()` at the end
    ensures |r.calls| == |MarkedNames(results.testResults)| + 1 +
      (if state.uncheckedCount(MarkedNames(results.testResults)) != 0 then 1 else 0)
    ensures forall k :: 0 <= k < |MarkedNames(results.testResults)| ==>
      r.calls[k] == MarkCheckedForTest(MarkedNames(results.testResults)[k])
    ensures forall k :: 0 <= k < |r.calls| - 1 ==> r.calls[k] != Save
    // the summary
    ensures r.result.snapshot.fileDeleted == state.deletedOnSave
    ensures r.result.snapshot.unchecked ==
      (if state.deletedOnSave then 0 else state.uncheckedCount(MarkedNames(results.testResults)))
    ensures r.result.snapshot.uncheckedKeys == state.uncheckedKeys(MarkedNames(results.testResults))
    ensures r.result.snapshot.added == state.added && r.result.snapshot.matched == state.matched
    ensures r.result.snapshot.unmatched == state.unmatched && r.result.snapshot.updated == state.updated
    // nothing else changes
    ensures r.result.testResults == results.testResults && r.result.rest == results.rest
  {
    var marked := MarkedNames(results.testResults);
    var count := state.uncheckedCount(marked);
    var keys := state.uncheckedKeys(marked);
    var calls := SnapshotCalls(marked, count != 0);
    var summary := SnapshotSummary(
      state.deletedOnSave,
      state.added, state.matched, state.unmatched, state.updated,
      if !state.deletedOnSave then count else 0,
      keys);
    Bookkeeping(calls, results.(snapshot := summary))
  }
}
