# Jest's sequential decisions, modelled in Dafny

Jest runs test files in isolated environments, schedules them in this
process or on a worker pool, reports their results, and checks coverage
against configured thresholds. Most of the scheduler is concurrency (the
`throat` gate, the worker pool, a race against an interrupt). This project
models the sequential decision procedures around it, as pure functions over
immutable data:

- **Coverage reporter** (`coverage_reporter.dfy`, module `CoverageReporter`):
  what `onTestResult` records, which untested files are sent to the coverage
  worker, and all of `_checkThreshold`. That covers the per-metric `check`,
  the sorting of covered files into threshold groups by path prefix, glob or
  the `global` fallback, and the per-group evaluation. It also covers the
  "not found" errors, the final filter and the call to `_setError`.
- **Git changed-files adapter** (`git.dfy`, module `GitChangedFiles`): the
  argument lists `findChangedFiles` runs for each set of options, how the
  three result lists are concatenated, the stdout line parser, and how
  failures surface (`message` replaced by `stderr`; `getRoot` gives null).
- **Test runner** (`test_runner.dfy`, module `TestRunner`): `runTests`
  dispatch, and the in-band run as a left fold over the tests. The fold
  produces one segment of events per test: the interrupt check, the start
  through `onStart` or the `test-file-start` emit, the `runTest` call, and the
  routing of the result or error to a callback or an emitted event. A rejected
  delivery is carried down the promise chain as `.then`/`.catch` do: each
  link is carried exactly what the link before it passed on
  (`InBandHandOff`, `InBandNextLink`).
  For the parallel run: the resolver list de-duplicated by configuration
  name, one test's turn (start, worker call, forwarded custom messages,
  result or `onError`), and the `onError` fatal-exit decision.
- **Jasmine2 adapter** (`jasmine.dfy`, module `Jasmine2`): the spec-filter
  choice, the timer selection, the ordered `beforeEach` resets, and the
  `addSnapshotData` bookkeeping over an abstract snapshot state.
- **Node environment** (`node_environment.dfy`, module `NodeEnvironment`):
  the timer id/reference conversion with its round trip and its quirk at id
  `0`, plus `teardown`, `runScript` and `getVmContext` on the three nullable
  slots.

Shared helpers: `wrappers.dfy` (`Option`, `Result`) and `text.dfy`
(JavaScript's `split` on one character, `join`, `indexOf(p) === 0`, the
`filter(s => s !== '')` of empty strings, and decimal rendering of integers).

Everything the code calls but does not define is a parameter. This covers
`path.resolve`, `path.relative`/`normalize`, `glob.sync`, Istanbul summaries
and `merge`, the regular-expression test, `runTest`, the worker, `execa`, the
watcher's `isInterrupted` answers, and whether a callback or emitter
listener rejects. Each is a function-typed field of a record (`Host`,
`Oracles`, `Backend`, `Listeners`, `SnapshotState`).

Three facts about `packages/jest-runner/src/index.ts` shape the runner model:

- An interrupt does not abandon the in-band batch (lines 97-100 and
  143-149). A test whose turn finds the watcher interrupted throws
  `CancelRun`. Its own `.catch` delivers that failure, and the chain goes on
  to the next test.
- Tests that are never started still get a failure delivery. In the in-band
  run it is the `CancelRun` above. In the parallel run `runTestInWorker`
  rejects with no reason (lines 193-195), and `onError` delivers it (line
  266).
- Start notifications and result deliveries are awaited (lines 104-105, 122,
  133-142, 199-201, 231-234). A rejection of one of them goes to the
  `.catch` that follows: `onFailure` or `test-file-failure` in-band (lines
  143-149), `onError` in the parallel run (line 266).

Some behaviours of the code are kept as written:

- The uncovered-count message has no space between `(N)` and `exceeds`.
- In the parallel run, an interrupted test rejects with no reason. `onError`
  delivers that `undefined` failure and then throws a `TypeError` when it
  reads `err.type`.
- The in-band promise chain is not reset by a failing test. It is reset by a
  failure delivery that settles. A failure delivery that rejects poisons the
  next test, which then only receives that rejection (`InBandNextLink`).

## Model

| member | source | states |
|---|---|---|
| Text.Split | packages/jest-changed-files/src/git.ts:31 | `split('\n')`: at least one piece, no piece holds the separator, and joining the pieces with it gives the input back |
| Text.NonEmpty | packages/jest-changed-files/src/git.ts:32 | dropping empty strings keeps only non-empty pieces of the input, at most as many |
| Text.NonEmptyConcat | packages/jest-changed-files/src/git.ts:32 | dropping empty strings loses no text: the kept pieces glued together are all the pieces glued together |
| Text.NonEmptyAppend | packages/jest-changed-files/src/git.ts:32 | the filter of empty strings works piece by piece: filtering a concatenation is the concatenation of the filtered parts |
| Text.NonEmptySingle | packages/jest-changed-files/src/git.ts:32 | a single string is kept exactly when it is not empty |
| Text.NonEmptyKeepsAll | packages/jest-reporters/src/coverage_reporter.ts:436-438 | dropping empty strings leaves a list without empty strings unchanged |
| Text.ConcatSplit | packages/jest-changed-files/src/git.ts:30-32 | the split pieces glued together are the input with every separator removed |
| Text.SplitJoin | packages/jest-changed-files/src/git.ts:30-32 | splitting inverts joining for separator-free pieces |
| GitChangedFiles.ChangedLinesSpec | packages/jest-changed-files/src/git.ts:30-32 | every parsed line is non-empty and has no line break, and the lines together are the whole output minus its line breaks |
| GitChangedFiles.ChangedLinesJoin | packages/jest-changed-files/src/git.ts:30-32 | non-empty paths without line breaks, printed one per line, are parsed back exactly |
| GitChangedFiles.ParseChangedFiles | packages/jest-changed-files/src/git.ts:30-33 | one path per non-empty output line, in order, each resolved against `cwd` |
| GitChangedFiles.RunGit | packages/jest-changed-files/src/git.ts:15-34 | succeeds exactly when `git` exits normally, with the parsed output; a failure carries `stderr` as its message |
| GitChangedFiles.EffectiveSince | packages/jest-changed-files/src/git.ts:38-39 | no options give no base revision; `withAncestor` gives `HEAD^` whatever `changedSince` says; otherwise `changedSince` |
| GitChangedFiles.IncludePaths | packages/jest-changed-files/src/git.ts:41-44 | empty without options or include paths, otherwise each include path made relative to `cwd`, in order |
| GitChangedFiles.PlanCommands | packages/jest-changed-files/src/git.ts:46-82 | `lastCommit` wins and runs `show`; the three commands run exactly when there is no `lastCommit` and the base revision is non-empty, the log ending in `^<since>`; otherwise only `ls-files`; every argument list ends with exactly the include paths |
| GitChangedFiles.FindChangedFiles | packages/jest-changed-files/src/git.ts:37-83 | one planned command gives its own result; with three commands the result is `committed ++ staged ++ unstaged` when all succeed, and otherwise the error of the first command that fails (committed, then staged, then unstaged) |
| GitChangedFiles.WithAncestorOverridesChangedSince | packages/jest-changed-files/src/git.ts:38-39 | with `withAncestor` the plan does not depend on `changedSince`, and without `lastCommit` it is the three commands against `HEAD^` |
| GitChangedFiles.GetRoot | packages/jest-changed-files/src/git.ts:85-95 | null exactly when `git rev-parse --show-cdup` fails, otherwise its output resolved against `cwd` |
| NodeEnvironment.RefToId | packages/jest-environment-node/src/index.ts:79-80 | an id comes back exactly for a present timer with a non-zero id, and it is that id |
| NodeEnvironment.TimerRoundTrip | packages/jest-environment-node/src/index.ts:69-80 | `refToId(idToRef(id)) == id` for every id other than 0, also through `ref()` and `unref()` |
| NodeEnvironment.TimerZeroIsLost | packages/jest-environment-node/src/index.ts:79-80 | `refToId(idToRef(0))` is `undefined`, the same as for a missing timer |
| NodeEnvironment.TearDown | packages/jest-environment-node/src/index.ts:99-109 | all three slots end null; each fake-timer implementation is disposed exactly when present, legacy before modern |
| NodeEnvironment.TearDownTwice | packages/jest-environment-node/src/index.ts:99-109 | a second `teardown` disposes nothing and changes nothing |
| NodeEnvironment.RunScript | packages/jest-environment-node/src/index.ts:113-118 | null exactly without a context, otherwise the script's value in that context |
| NodeEnvironment.VmContextAgreesWithRunScript | packages/jest-environment-node/src/index.ts:113-122 | a script runs exactly when `getVmContext` gives a context, and then in that context |
| NodeEnvironment.NothingRunsAfterTeardown | packages/jest-environment-node/src/index.ts:99-122 | after `teardown` no script runs and there is no VM context, from any state |
| NodeEnvironment.ConstructedEnvironmentRuns | packages/jest-environment-node/src/index.ts:87-118 | a constructed environment runs scripts in its own context, and its `teardown` disposes both timers, legacy first |
| Jasmine2.SelectSpecFilter | packages/jest-jasmine2/src/index.ts:163-173 | an enabled-tests map wins; otherwise a non-empty name pattern; otherwise Jasmine's own filter stays |
| Jasmine2.Admits | packages/jest-jasmine2/src/index.ts:164-172 | with an enabled-tests map a spec runs exactly when the map holds `true` at `[testPath][fullName]`; with a pattern, when the case-insensitive pattern matches the full name |
| Jasmine2.EnabledTestsMapTakesPrecedence | packages/jest-jasmine2/src/index.ts:163-173 | with an enabled-tests map the name pattern changes nothing |
| Jasmine2.SelectTimers | packages/jest-jasmine2/src/index.ts:90-94 | `fake` or `legacy` give legacy fake timers, `modern` the modern ones, anything else neither |
| Jasmine2.SetupTimerActions | packages/jest-jasmine2/src/index.ts:90-94 | at most one `useFakeTimers` call, on the implementation the timer setting selects |
| Jasmine2.BeforeEachOrder | packages/jest-jasmine2/src/index.ts:96-116 | the `beforeEach` calls come in the fixed order resetModules, clearAllMocks, resetAllMocks, useFakeTimers, restoreAllMocks, each at most once |
| Jasmine2.BeforeEachGating | packages/jest-jasmine2/src/index.ts:96-116 | each call happens exactly when its flag is set; legacy fake timers are re-installed exactly when mocks are reset under legacy timers; modern ones never |
| Jasmine2.MarkedNames | packages/jest-jasmine2/src/index.ts:195-201 | the names of the pending and failed results, and only those (with MarkedNamesAppend and MarkedNamesSingle, exactly one name per such result, in result order) |
| Jasmine2.MarkedNamesAppend | packages/jest-jasmine2/src/index.ts:195-201 | the `forEach` marks result by result: the names for a concatenation of results are the names of each part, in order |
| Jasmine2.MarkedNamesSingle | packages/jest-jasmine2/src/index.ts:195-201 | one result contributes its name exactly when it is pending or failed |
| Jasmine2.SnapshotCalls | packages/jest-jasmine2/src/index.ts:195-210 | the call sequence in full: one mark per name in order, then one removal exactly when asked for, then one `save()`, which is the only save and the last call |
| Jasmine2.AddSnapshotData | packages/jest-jasmine2/src/index.ts:191-221 | the calls are one mark per pending or failed result in result order, then the removal of unchecked keys exactly when the unchecked count is non-zero, then a single `save()` as the last call; `unchecked` is 0 for a deleted file and the count otherwise; the other counters and keys are copied; nothing else changes |
| TestRunner.Catch | packages/jest-runner/src/index.ts:143-149 | a caught error goes to `onFailure` if supplied, else to `test-file-failure` |
| TestRunner.InBandDelivery | packages/jest-runner/src/index.ts:133-149 | after the run: a failing test gives exactly its failure delivery; a passing test gives its success delivery, alone when that settles, followed by its rejection as the failure when it rejects; the link rejects exactly when it ends in a failure delivery that rejects, with that error |
| TestRunner.InBandTurn | packages/jest-runner/src/index.ts:97-149 | a carried rejection or an interrupt gives a single failure delivery and no start; otherwise exactly one start comes first on the selected channel; the test runs exactly when not cancelled and its start settled; a success is delivered only for a passing test |
| TestRunner.InBandTurnEnds | packages/jest-runner/src/index.ts:103-149 | a rejected start is followed only by its rejection as the failure; after a settled start and the run comes the outcome delivery; the link rejects exactly when it ends in a failure delivery that rejects, with that error |
| TestRunner.InBandFrom | packages/jest-runner/src/index.ts:93-152 | one segment per remaining test, in array order, every step belonging to its test and on the selected channel (what each link is carried is stated by InBandFirstLink and InBandHandOff) |
| TestRunner.InBandFirstLink | packages/jest-runner/src/index.ts:93-152 | the first link is the first test's turn, carried the incoming rejection |
| TestRunner.InBandHandOff | packages/jest-runner/src/index.ts:93-152 | every later link is its test's turn, carried exactly the rejection of the previous link's last step when that step is a failure delivery that rejects, and nothing otherwise |
| TestRunner.InBandNextLink | packages/jest-runner/src/index.ts:143-151 | when a test's segment ends in a failure delivery that rejects with e, the next test's segment is only the failure delivery of e; otherwise the next test takes its own fresh turn |
| TestRunner.InBandRejection | packages/jest-runner/src/index.ts:84-153 | the whole chain rejects with what its last link passes on, or with the incoming rejection when there is no test |
| TestRunner.InBandRun | packages/jest-runner/src/index.ts:84-153 | one segment per test in array order, so every step of test i precedes those of test i+1 |
| TestRunner.ReliableInBandFrom | packages/jest-runner/src/index.ts:93-152 | with settling deliveries a failing test never stops later tests: each gets start, run and outcome (or a cancellation), and the run resolves |
| TestRunner.ReliableInBandTurn | packages/jest-runner/src/index.ts:97-149 | with settling deliveries one link is a cancellation, or start, run and outcome, and it resolves |
| TestRunner.RejectionCascades | packages/jest-runner/src/index.ts:143-151 | a link carried a rejection only delivers it as the failure; when every delivery rejects with the same error, every later test only receives that error and the chain rejects with it |
| TestRunner.InBandScenario | packages/jest-runner/src/index.ts:84-153 | three tests with the second throwing give the full nine-event trace, and the run resolves |
| TestRunner.EmitterSegment | packages/jest-runner/src/index.ts:103-149 | without callbacks a test's segment is the start emit, the run forwarding messages, and the outcome emit |
| TestRunner.FirstIndex | packages/jest-runner/src/index.ts:163-164 | the first test carrying a configuration name, or none |
| TestRunner.FirstResolvers | packages/jest-runner/src/index.ts:162-170 | the reference list: a test contributes its resolver exactly when no earlier test has a configuration of that name, so there are never more resolvers than tests |
| TestRunner.FirstResolversNames | packages/jest-runner/src/index.ts:162-170 | the resolvers cover exactly the configuration names of the tests |
| TestRunner.FirstResolversFirst | packages/jest-runner/src/index.ts:162-170 | each resolver is the one of the first test carrying its name |
| TestRunner.FirstResolversOrdered | packages/jest-runner/src/index.ts:162-170 | resolvers come in the order their names first occur, and no name appears twice |
| TestRunner.CollectResolvers | packages/jest-runner/src/index.ts:162-170 | the loop with its set of seen names builds exactly the reference list |
| TestRunner.OnError | packages/jest-runner/src/index.ts:229-243 | the failure is delivered first; the process exits with status 1 exactly when that delivery settled and the error's `type` is `ProcessTerminatedError`; an `undefined` error throws instead |
| TestRunner.Forwarded | packages/jest-runner/src/index.ts:219-224 | each custom worker message is re-emitted under its own event name, in order |
| TestRunner.Delivered | packages/jest-runner/src/index.ts:229-266 | a worker failure is exactly `onError`'s handling of it; a result goes to the success channel, which is the whole turn when it settles, and when it rejects is followed by exactly `onError`'s handling of that rejection, which also gives the turn's rejection; an exit only comes last |
| TestRunner.AfterDispatch | packages/jest-runner/src/index.ts:203-266 | after the worker call: the forwarded messages, then exactly the handling of the outcome (the result on the success channel or the failure through `onError`), whose rejection is the turn's |
| TestRunner.StartedTurn | packages/jest-runner/src/index.ts:197-266 | the start comes first; a rejected start is followed by exactly `onError`'s handling of that rejection and the worker never runs; a settled start is followed by the worker call and exactly what follows it, which decides the rejection; a success only for a passing test; any exit comes last |
| TestRunner.ParallelTurn | packages/jest-runner/src/index.ts:191-266 | an interrupt gives `onError` with no reason; otherwise the started turn, so the start comes first, the worker runs exactly when the start settled, a success only for a passing test, and any exit comes last |
| TestRunner.SettledOnError | packages/jest-runner/src/index.ts:229-243 | with a settling delivery `onError` is the failure plus the fatal tail, rejecting only for an `undefined` error |
| TestRunner.ReliableAfterDispatch | packages/jest-runner/src/index.ts:203-266 | with settling deliveries, the messages then the result, or the failure with its fatal tail |
| TestRunner.ReliableParallelTurn | packages/jest-runner/src/index.ts:191-266 | with settling deliveries a turn is start, worker call, messages and outcome; an interrupted turn is a failure with no reason that then rejects with a `TypeError` |
| TestRunner.RunTests | packages/jest-runner/src/index.ts:65-82 | `serial` selects the in-band run; otherwise each test gets its parallel turn and the workers get the reference resolver list, one per distinct configuration name |
| CoverageReporter.Message | packages/jest-reporters/src/coverage_reporter.ts:276-282 | every error text starts with `Jest: ` |
| CoverageReporter.RegisterSourceMaps | packages/jest-reporters/src/coverage_reporter.ts:75-95 | one registration per source path in order: the input source map when the coverage map has one, else the URL; the first path missing from the coverage map is registered by URL and ends the loop |
| CoverageReporter.OnTestResult | packages/jest-reporters/src/coverage_reporter.ts:65-96 | a v8 result records only itself; otherwise coverage is merged, and the registrations of the source maps against the merged map are appended to the earlier ones; the call throws exactly when a source path is missing from the merged map, naming the path that stopped the registrations |
| CoverageReporter.V8CoverageIgnoresTheRest | packages/jest-reporters/src/coverage_reporter.ts:66-69 | with v8 coverage the Istanbul coverage and source maps of the result play no part |
| CoverageReporter.ContextCandidates | packages/jest-reporters/src/coverage_reporter.ts:149-159 | the files of one context that match `collectCoverageFrom`, with its root |
| CoverageReporter.CollectCandidates | packages/jest-reporters/src/coverage_reporter.ts:141-161 | nothing without patterns; otherwise exactly the matching files of every context |
| CoverageReporter.UntestedFiles | packages/jest-reporters/src/coverage_reporter.ts:185-197 | exactly the candidates that no v8 result and no coverage-map entry covers |
| CoverageReporter.InstrumentedExactlyWhenUncovered | packages/jest-reporters/src/coverage_reporter.ts:141-197 | a matching file is instrumented exactly when it is in no v8 result and not in the coverage map |
| CoverageReporter.CheckKeys | packages/jest-reporters/src/coverage_reporter.ts:265-287 | every error is the one for a broken metric among the keys, with the group's name, and there are at most as many errors as keys |
| CoverageReporter.CheckKeysComplete | packages/jest-reporters/src/coverage_reporter.ts:265-287 | every broken metric among the keys is reported |
| CoverageReporter.CheckKeysOrdered | packages/jest-reporters/src/coverage_reporter.ts:265-287 | over ascending keys the errors come in key order, one per metric at most |
| CoverageReporter.Check | packages/jest-reporters/src/coverage_reporter.ts:260-288 | statements, branches, lines, functions in that order, at most one error each, exactly for the metrics whose threshold is broken |
| CoverageReporter.NegativeThresholdBoundsUncovered | packages/jest-reporters/src/coverage_reporter.ts:273-279 | a negative threshold `t` reports exactly when `total - covered > -t`, with both numbers |
| CoverageReporter.PercentThresholdIsMinimum | packages/jest-reporters/src/coverage_reporter.ts:272-284 | a non-negative threshold reports exactly when `pct < t`; an undefined one never reports |
| CoverageReporter.MatchKind | packages/jest-reporters/src/coverage_reporter.ts:306-331 | a path prefix match is tried first, a glob match only when the prefix fails |
| CoverageReporter.KindFor | packages/jest-reporters/src/coverage_reporter.ts:303-345 | a type is given only to an existing group, and the `global` type only to `global` when nothing else matches |
| CoverageReporter.Matches | packages/jest-reporters/src/coverage_reporter.ts:303-334 | exactly the groups the file matches, each with how it matches (with MatchesAppend, each matching group once, in group order) |
| CoverageReporter.MatchesAppend | packages/jest-reporters/src/coverage_reporter.ts:303-334 | the `reduce` visits the groups in order: the matches among a concatenation of groups are each part's matches in order, and one group is listed, with its kind, exactly when the file matches it |
| CoverageReporter.SortFile | packages/jest-reporters/src/coverage_reporter.ts:302-348 | a file is paired with every group it matches; only when none matches does it go to `global`, and only if that group exists; otherwise it stays unassigned (SortFileFollowsMatches gives the exact lists) |
| CoverageReporter.SortFileFollowsMatches | packages/jest-reporters/src/coverage_reporter.ts:302-348 | a matched file records exactly its matches and is paired once with each matching group, in group order; an unmatched file is paired once, with `global` when it exists and with no group otherwise |
| CoverageReporter.RecordFile | packages/jest-reporters/src/coverage_reporter.ts:311-343 | recording a file's types sets exactly the groups it types and leaves the others |
| CoverageReporter.StepWellFormed | packages/jest-reporters/src/coverage_reporter.ts:300-349 | a step keeps "a group has a type exactly when some file is paired with it" and only appends pairings |
| CoverageReporter.StepTypes | packages/jest-reporters/src/coverage_reporter.ts:300-349 | a step changes exactly the groups the new file types, to that file's types |
| CoverageReporter.SortedGroups | packages/jest-reporters/src/coverage_reporter.ts:302-348 | a file is paired with exactly the groups it gives a type |
| CoverageReporter.ClassifyFrom | packages/jest-reporters/src/coverage_reporter.ts:300-349 | the fold keeps the type map equal to the last-writer-wins reading of the files, and appends each remaining file's pairings in file order |
| CoverageReporter.Classify | packages/jest-reporters/src/coverage_reporter.ts:295-349 | the pairings are every covered file's own pairings, in file order; a group has a type exactly when some covered file is paired with it; the type is the one the last such file gives; only `global` can have the type `global` |
| CoverageReporter.AllPairingsMembers | packages/jest-reporters/src/coverage_reporter.ts:300-349 | a file is paired with a group exactly when it is a covered file that gives the group a type, and stays unassigned exactly when it is a covered file no group matches and there is no `global` group |
| CoverageReporter.FilesInGroup | packages/jest-reporters/src/coverage_reporter.ts:351-354 | exactly the files paired with the group, empty exactly when no pairing names it (with FilesInGroupAppend, one file per pairing naming the group, in pairing order) |
| CoverageReporter.FilesInGroupAppend | packages/jest-reporters/src/coverage_reporter.ts:351-354 | the `filter` keeps pairing order: a concatenation of pairings gives each part's files in order, and one pairing gives its file exactly when it names the group |
| CoverageReporter.Combine | packages/jest-reporters/src/coverage_reporter.ts:356-374 | nothing for no files, a single file's own summary, otherwise the merged summaries |
| CoverageReporter.CombineIsLeftFold | packages/jest-reporters/src/coverage_reporter.ts:356-374 | the combined summary is the first file's summary with the others merged in from left to right |
| CoverageReporter.CheckEach | packages/jest-reporters/src/coverage_reporter.ts:410-421 | every broken metric of every file is reported under the file's name, and every error is a broken metric of the file it names, on that file's own summary |
| CoverageReporter.CheckEachAppend | packages/jest-reporters/src/coverage_reporter.ts:410-421 | the errors come file by file in file order, one file's errors being `check`'s for it |
| CoverageReporter.EvaluateGroup | packages/jest-reporters/src/coverage_reporter.ts:379-433 | untyped groups give "not found" unless `global`; path and global groups are checked once on the merged summary and skipped without files; glob groups are checked per file |
| CoverageReporter.EvaluateGroups | packages/jest-reporters/src/coverage_reporter.ts:378-434 | "not found" is reported exactly for the untyped groups other than `global` |
| CoverageReporter.EvaluateGroupsInOrder | packages/jest-reporters/src/coverage_reporter.ts:378-434 | the errors are each group's own errors, one group after the other in key order |
| CoverageReporter.EvaluateGroupsAppend | packages/jest-reporters/src/coverage_reporter.ts:378-434 | the errors of a list of groups are those of its parts in order, and a single group's are its own iteration's |
| CoverageReporter.EvaluateGroupsMembers | packages/jest-reporters/src/coverage_reporter.ts:378-434 | an error is reported exactly when some group's own iteration reports it |
| CoverageReporter.TypedGroupsHaveFiles | packages/jest-reporters/src/coverage_reporter.ts:380-409 | a typed group always has files, so the skip of a group without coverage never fires |
| CoverageReporter.CheckThreshold | packages/jest-reporters/src/coverage_reporter.ts:256-445 | nothing without a configuration; otherwise the texts of all group errors, none empty (so the filter of empty entries removes nothing), reported joined by line breaks exactly when there is at least one |
| CoverageReporter.NotFoundExactlyForUnmatchedGroups | packages/jest-reporters/src/coverage_reporter.ts:423-429 | a group other than `global` is reported as not found exactly when no covered file matches it |

## Left out

- The concurrency of the parallel run is left out: the `throat` gate, the
  worker pool with its retries and IPC, the `Promise.race` against the
  watcher's `change` event, and `cleanup` with its force-exit warning. Each
  test's turn is modelled; how turns interleave is not.
- Emittery's delivery semantics, `deepCyclicCopy` and the piping of worker
  output are foreign code. A delivery is one event plus whether it rejects.
- `exit(1)` and the console message before it are trace events only. So is
  the `JEST_WORKER_ID` environment variable, which is not modelled at all.
- The Istanbul, v8-to-istanbul and source-map-store work (`toSummary`,
  `merge`, `_getCoverageResult`, report generation, file reads) is foreign.
  Summaries, merges and the coverage map's merge are parameters.
- CoverageReporter.Totals: `pct` is an integer. Istanbul computes it as a
  float, so messages render it as an integer.
- CoverageReporter.Thresholds: threshold values are integers. The
  configuration allows fractional thresholds such as `-2.5` or `80.5`; for
  those the comparisons and the rendered numbers are not modelled.
- CoverageReporter.Oracles: the memoisation of `glob.sync` per pattern is not
  modelled. With a deterministic `glob.sync` it does not change any result.
- CoverageReporter.UntestedFiles: what the coverage worker returns, and how
  its results are added to the map, are left out (foreign worker code). The
  `'worker' in worker` test is always true, because both worker kinds expose
  `worker`, so it is dropped.
- CoverageReporter.CheckThreshold: `Object.keys` order of the threshold
  groups is taken as the order of the given entries. The entries' names are
  assumed distinct, as object keys are.
- The spawning of `git` (execa) and Node's `path` functions are parameters.
- VM context creation, global installation, `installCommonGlobals`, the
  module mocker and the Node 10 `compileFunction` workaround are host
  plumbing. The context and both fake-timer implementations are opaque
  values.
- Jasmine environment wiring, reporters, `jestExpect`, setup files and module
  loading (including ESM import) are left out as host plumbing. So is the
  snapshot state's own logic, which is an abstract record of what it reports.
- Jasmine2.Admits: the regular expression is a parameter.
- The watcher's interrupt subscription is left out; only `isInterrupted()`
  answers are modelled. So is the `CancelRun` error the parallel run's race
  rejects with.
