/** The test runner (packages/jest-runner/src/index.ts) as sequential
    decision procedures. `runTests` picks the in-band or the parallel run.
    The in-band run is a left fold over the tests producing a trace of
    deliveries: start notifications, test executions, and the routing of
    each outcome to a callback or to an emitted event. For the parallel run
    the model covers what happens to one test once its turn comes, the
    per-configuration resolver list sent to the workers, and the `onError`
    decision; how turns interleave across workers is not modelled.

    Executing a test (`runTest`, the worker), the watcher and the promise a
    callback or listener returns are oracles. */
module TestRunner {
  import opened Wrappers

  /** The result a test file produces; opaque here. */
  type TestResult(==, !new)

  datatype ProjectConfig = ProjectConfig(name: string, rootDir: string)

  /** A test's context; `moduleMap` stands for its serialised form (`toJSON()`). */
  datatype TestContext = TestContext(config: ProjectConfig, moduleMap: string)

  datatype Test = Test(path: string, context: TestContext)

  /** What a rejected promise carries in this file. */
  datatype RunError =
    /** `new CancelRun()`: an error named `CancelRun` with no `type` */
    | CancelRun
    /** an error thrown by a test, a worker or a listener; `errType` is its `type` field */
    | Thrown(errType: Option<string>, message: string)
    /** `Promise.reject()` with no reason: the rejection value is `undefined` */
    | NoReason
    /** the `TypeError` raised by reading `type` of `undefined` */
    | TypeOfUndefined

  /** One observable step of a run. Every step names the test it belongs to. */
  datatype Event =
    | CallOnStart(test: Test)
    | EmitFileStart(test: Test)
    /** `runTest(...)` in this process; `forwardsMessages` says whether a
        `sendMessageToJest` function was passed (only without `onStart`) */
    | RunInBand(test: Test, forwardsMessages: bool)
    | RunInWorker(test: Test)
    /** a custom message from the worker re-emitted under its own event name */
    | EmitCustom(test: Test, name: string, payload: string)
    | CallOnResult(test: Test, result: TestResult)
    | EmitFileSuccess(test: Test, result: TestResult)
    | CallOnFailure(test: Test, error: RunError)
    | EmitFileFailure(test: Test, error: RunError)
    | LogWorkerQuit(test: Test)
    | ExitProcess(test: Test, code: int)

  /** The callbacks the caller supplied, and how awaiting each delivery
      settles: `rejects(e)` is the error the callback or the emitter's
      listeners reject with, if any. */
  datatype Listeners = Listeners(
    onStart: bool,
    onResult: bool,
    onFailure: bool,
    rejects: Event -> Option<RunError>
  )

  /** Every delivery settles normally. */
  ghost predicate Reliable(l: Listeners) {
    forall e :: l.rejects(e).None?
  }

  /** What a worker sends back for one test: custom messages, then the outcome. */
  datatype WorkerReply = WorkerReply(messages: seq<(string, string)>, outcome: Result<TestResult, RunError>)

  /** The environment of a run. `interrupted(i)` is what `watcher.isInterrupted()`
      answers when the i-th test's turn comes. */
  datatype Backend = Backend(
    interrupted: nat -> bool,
    runTest: Test -> Result<TestResult, RunError>,
    worker: Test -> WorkerReply
  )

  // ---------------------------------------------------------------------------
  // Delivery channels

  function StartEvent(l: Listeners, t: Test): Event {
    if l.onStart then CallOnStart(t) else EmitFileStart(t)
  }

  function SuccessEvent(l: Listeners, t: Test, r: TestResult): Event {
    if l.onResult then CallOnResult(t, r) else EmitFileSuccess(t, r)
  }

  function FailureEvent(l: Listeners, t: Test, e: RunError): Event {
    if l.onFailure then CallOnFailure(t, e) else EmitFileFailure(t, e)
  }

  /** A delivery goes through the callback when one was supplied and through
      the emitter otherwise, never both. */
  predicate OnChannel(l: Listeners, e: Event) {
    && (e.CallOnStart? ==> l.onStart) && (e.EmitFileStart? ==> !l.onStart)
    && (e.CallOnResult? ==> l.onResult) && (e.EmitFileSuccess? ==> !l.onResult)
    && (e.CallOnFailure? ==> l.onFailure) && (e.EmitFileFailure? ==> !l.onFailure)
  }

  predicate IsStart(e: Event) {
    e.CallOnStart? || e.EmitFileStart?
  }

  predicate IsSuccess(e: Event) {
    e.CallOnResult? || e.EmitFileSuccess?
  }

  predicate IsFailure(e: Event) {
    e.CallOnFailure? || e.EmitFileFailure?
  }

  /** The steps one test contributes, and the rejection its promise ends with. */
  datatype Turn = Turn(events: seq<Event>, rejection: Option<RunError>)

  /** Every step of `events` belongs to `t` and uses the selected channels. */
  predicate WellRouted(l: Listeners, t: Test, events: seq<Event>) {
    forall k :: 0 <= k < |events| ==> events[k].test == t && OnChannel(l, events[k])
  }

  /** The `.catch` handler of the in-band chain: deliver the failure. */
  function Catch(l: Listeners, t: Test, e: RunError): (r: Turn)
    ensures r.events == [FailureEvent(l, t, e)] && WellRouted(l, t, r.events)
    ensures r.rejection == l.rejects(FailureEvent(l, t, e))
  {
    var failure := FailureEvent(l, t, e);
    Turn([failure], l.rejects(failure))
  }

  // ---------------------------------------------------------------------------
  // In-band run

  /** What follows a settled start and the `runTest` call in the in-band
      chain: the result on the success channel, or the failure (the test's
      own, or the success delivery's rejection) through `catch`. */
  function InBandDelivery(l: Listeners, t: Test, outcome: Result<TestResult, RunError>): (r: Turn)
    ensures |r.events| >= 1 && WellRouted(l, t, r.events)
    ensures IsSuccess(r.events[|r.events| - 1]) || IsFailure(r.events[|r.events| - 1])
    ensures forall k :: 0 <= k < |r.events| ==> !IsStart(r.events[k]) && !r.events[k].RunInBand?
    ensures forall k :: 0 <= k < |r.events| && IsSuccess(r.events[k]) ==>
      k == 0 && outcome.Success? && r.events[k] == SuccessEvent(l, t, outcome.value)
    // a failing test's error goes straight to the failure channel
    ensures outcome.Failure? ==> r.events == [FailureEvent(l, t, outcome.error)]
    // a passing test's result comes first; nothing follows a settled success
    // delivery, and a rejected one is followed by its rejection as the failure
    ensures outcome.Success? ==>
      && r.events[0] == SuccessEvent(l, t, outcome.value)
      && (l.rejects(r.events[0]).None? ==> r.events == [r.events[0]])
      && (l.rejects(r.events[0]).Some? ==> r.events == [r.events[0], FailureEvent(l, t, l.rejects(r.events[0]).value)])
    // the link rejects exactly when it ends in a failure delivery that rejects, and with that error
    ensures r.rejection == (if IsFailure(r.events[|r.events| - 1]) then l.rejects(r.events[|r.events| - 1]) else None)
  {
    match outcome
    case Failure(e) => Catch(l, t, e)
    case Success(res) =>
      var success := SuccessEvent(l, t, res);
      match l.rejects(success)
      case Some(e) =>
        var c := Catch(l, t, e);
        Turn([success] + c.events, c.rejection)
      case None => Turn([success], None)
  }

  /** One test's link in the in-band promise chain. `carried` is the
      rejection of the previous link, which skips both `then` handlers and
      goes straight to `catch`. */
  function InBandTurn(l: Listeners, t: Test, interrupted: bool, outcome: Result<TestResult, RunError>,
                      carried: Option<RunError>): (r: Turn)
    ensures |r.events| >= 1 && WellRouted(l, t, r.events)
    // the last step is always a success or failure delivery
    ensures IsSuccess(r.events[|r.events| - 1]) || IsFailure(r.events[|r.events| - 1])
    // a rejection from the previous link is passed to the failure channel
    ensures carried.Some? ==> r.events == [FailureEvent(l, t, carried.value)]
    // an interrupt cancels the test before it starts
    ensures carried.None? && interrupted ==> r.events == [FailureEvent(l, t, CancelRun)]
    // otherwise exactly one start comes first, through the callback or the emitter
    ensures carried.None? && !interrupted ==>
      r.events[0] == StartEvent(l, t) && forall k :: 1 <= k < |r.events| ==> !IsStart(r.events[k])
    // the test runs exactly when it was not cancelled and its start settled
    ensures (exists k :: 0 <= k < |r.events| && r.events[k].RunInBand?) <==>
      carried.None? && !interrupted && l.rejects(StartEvent(l, t)).None?
    ensures forall k :: 0 <= k < |r.events| && r.events[k].RunInBand? ==>
      k == 1 && r.events[k].forwardsMessages == !l.onStart
    // a success is delivered only for a test that ran and passed
    ensures forall k :: 0 <= k < |r.events| && IsSuccess(r.events[k]) ==>
      k == 2 && outcome.Success? && r.events[k] == SuccessEvent(l, t, outcome.value)
    ensures r.rejection.Some? ==> l.rejects(r.events[|r.events| - 1]) == r.rejection
  {
    if carried.Some? then Catch(l, t, carried.value)
    else if interrupted then Catch(l, t, CancelRun)
    else
      var start := StartEvent(l, t);
      match l.rejects(start)
      case Some(e) =>
        var c := Catch(l, t, e);
        Turn([start] + c.events, c.rejection)
      case None =>
        var run := RunInBand(t, !l.onStart);
        var d := InBandDelivery(l, t, outcome);
        var events := [start, run] + d.events;
        assert events[1].RunInBand?;
        forall k | 0 <= k < |events|
          ensures events[k].test == t && OnChannel(l, events[k])
          ensures k >= 1 ==> !IsStart(events[k])
          ensures events[k].RunInBand? ==> k == 1 && events[k].forwardsMessages == !l.onStart
          ensures IsSuccess(events[k]) ==>
            k == 2 && outcome.Success? && events[k] == SuccessEvent(l, t, outcome.value)
        {
          if k >= 2 {
            assert events[k] == d.events[k - 2];
          }
        }
        assert events[|events| - 1] == d.events[|d.events| - 1];
        Turn(events, d.rejection)
  }

  /** How a link that was not skipped ends: a rejected start is delivered as
      the failure and the test never runs; after a settled start and the run
      the outcome is delivered as `InBandDelivery` states. Either way the
      link rejects exactly when it ends in a failure delivery that rejects,
      and with that error. */
  lemma InBandTurnEnds(l: Listeners, t: Test, interrupted: bool, outcome: Result<TestResult, RunError>,
                       carried: Option<RunError>)
    ensures carried.None? && !interrupted && l.rejects(StartEvent(l, t)).Some? ==>
      InBandTurn(l, t, interrupted, outcome, carried).events ==
      [StartEvent(l, t), FailureEvent(l, t, l.rejects(StartEvent(l, t)).value)]
    ensures carried.None? && !interrupted && l.rejects(StartEvent(l, t)).None? ==>
      && |InBandTurn(l, t, interrupted, outcome, carried).events| >= 3
      && InBandTurn(l, t, interrupted, outcome, carried).events[2..] == InBandDelivery(l, t, outcome).events
    ensures var r := InBandTurn(l, t, interrupted, outcome, carried);
      r.rejection == (if IsFailure(r.events[|r.events| - 1]) then l.rejects(r.events[|r.events| - 1]) else None)
  {
    var r := InBandTurn(l, t, interrupted, outcome, carried);
    if carried.None? && !interrupted && l.rejects(StartEvent(l, t)).None? {
      var d := InBandDelivery(l, t, outcome);
      assert r.events == [StartEvent(l, t), RunInBand(t, !l.onStart)] + d.events;
      assert r.events[2..] == d.events;
    }
  }

  /** The in-band run from the i-th test on: one segment of steps per test,
      in array order, and the rejection the whole chain ends with. */
  datatype InBand = InBand(segments: seq<seq<Event>>, rejection: Option<RunError>)

  function InBandFrom(l: Listeners, b: Backend, tests: seq<Test>, i: nat, carried: Option<RunError>): (r: InBand)
    requires i <= |tests|
    ensures |r.segments| == |tests| - i
    ensures forall k :: 0 <= k < |r.segments| ==>
      |r.segments[k]| >= 1 && WellRouted(l, tests[i + k], r.segments[k])
    decreases |tests| - i
  {
    if i == |tests| then InBand([], carried)
    else
      var turn := InBandTurn(l, tests[i], b.interrupted(i), b.runTest(tests[i]), carried);
      var rest := InBandFrom(l, b, tests, i + 1, turn.rejection);
      InBand([turn.events] + rest.segments, rest.rejection)
  }

  function Flatten<T>(segments: seq<seq<T>>): seq<T> {
    if |segments| == 0 then [] else segments[0] + Flatten(segments[1..])
  }

  /** `_createInBandTestRun`: the tests run one after another in array
      order; the trace is the segments of test 0, then test 1, and so on. */
  function InBandRun(l: Listeners, b: Backend, tests: seq<Test>): (r: InBand)
    ensures |r.segments| == |tests|
    ensures forall k :: 0 <= k < |tests| ==> |r.segments[k]| >= 1 && WellRouted(l, tests[k], r.segments[k])
  {
    InBandFrom(l, b, tests, 0, None)
  }

  /** What a test's in-band segment is when every delivery settles: a
      cancellation failure if interrupted, otherwise start, run, and the
      outcome on its channel. */
  function ExpectedSegment(l: Listeners, t: Test, interrupted: bool, outcome: Result<TestResult, RunError>): seq<Event> {
    if interrupted then [FailureEvent(l, t, CancelRun)]
    else
      [StartEvent(l, t), RunInBand(t, !l.onStart)] +
      match outcome
      case Success(res) => [SuccessEvent(l, t, res)]
      case Failure(e) => [FailureEvent(l, t, e)]
  }

  /** The expected segments of the tests from the i-th on, in array order. */
  function ExpectedFrom(l: Listeners, b: Backend, tests: seq<Test>, i: nat): seq<seq<Event>>
    requires i <= |tests|
    decreases |tests| - i
  {
    if i == |tests| then []
    else [ExpectedSegment(l, tests[i], b.interrupted(i), b.runTest(tests[i]))] + ExpectedFrom(l, b, tests, i + 1)
  }

  lemma {:induction false} ExpectedFromIndex(l: Listeners, b: Backend, tests: seq<Test>, i: nat)
    requires i <= |tests|
    ensures |ExpectedFrom(l, b, tests, i)| == |tests| - i
    ensures forall k :: 0 <= k < |tests| - i ==>
      ExpectedFrom(l, b, tests, i)[k] == ExpectedSegment(l, tests[i + k], b.interrupted(i + k), b.runTest(tests[i + k]))
    decreases |tests| - i
  {
    if i < |tests| {
      ExpectedFromIndex(l, b, tests, i + 1);
      var e := ExpectedFrom(l, b, tests, i);
      forall k | 0 <= k < |tests| - i
        ensures e[k] == ExpectedSegment(l, tests[i + k], b.interrupted(i + k), b.runTest(tests[i + k]))
      {
        if k > 0 {
          assert e[k] == ExpectedFrom(l, b, tests, i + 1)[k - 1];
        }
      }
    }
  }

  lemma {:induction false} ReliableInBandIsExpected(l: Listeners, b: Backend, tests: seq<Test>, i: nat)
    requires Reliable(l)
    requires i <= |tests|
    ensures InBandFrom(l, b, tests, i, None) == InBand(ExpectedFrom(l, b, tests, i), None)
    decreases |tests| - i
  {
    if i < |tests| {
      ReliableInBandTurn(l, tests[i], b.interrupted(i), b.runTest(tests[i]));
      ReliableInBandIsExpected(l, b, tests, i + 1);
    }
  }

  /** With settling deliveries a failing test never stops the later ones:
      every test gets exactly its expected segment and the chain resolves. */
  lemma ReliableInBandFrom(l: Listeners, b: Backend, tests: seq<Test>, i: nat)
    requires Reliable(l)
    requires i <= |tests|
    ensures InBandFrom(l, b, tests, i, None).rejection.None?
    ensures forall k :: 0 <= k < |tests| - i ==>
      InBandFrom(l, b, tests, i, None).segments[k] ==
      ExpectedSegment(l, tests[i + k], b.interrupted(i + k), b.runTest(tests[i + k]))
  {
    ReliableInBandIsExpected(l, b, tests, i);
    ExpectedFromIndex(l, b, tests, i);
  }

  /** With settling deliveries one link of the chain is its expected
      segment and resolves. */
  lemma ReliableInBandTurn(l: Listeners, t: Test, interrupted: bool, outcome: Result<TestResult, RunError>)
    requires Reliable(l)
    ensures InBandTurn(l, t, interrupted, outcome, None) == Turn(ExpectedSegment(l, t, interrupted, outcome), None)
  {
    var turn := InBandTurn(l, t, interrupted, outcome, None);
    assert l.rejects(StartEvent(l, t)).None?;
    assert l.rejects(turn.events[|turn.events| - 1]).None?;
    if !interrupted {
      var d := InBandDelivery(l, t, outcome);
      assert outcome.Success? ==> l.rejects(d.events[0]).None?;
      assert turn.events == turn.events[..2] + d.events;
    }
  }

  /** A rejected failure delivery poisons the rest of the chain: the next
      test only receives that rejection on the failure channel, never
      starting or running, and when every delivery rejects with the same
      error no later test ever runs. */
  lemma {:induction false} RejectionCascades(l: Listeners, b: Backend, tests: seq<Test>, i: nat, e: RunError)
    requires i < |tests|
    ensures InBandFrom(l, b, tests, i, Some(e)).segments[0] == [FailureEvent(l, tests[i], e)]
    ensures (forall ev :: l.rejects(ev) == Some(e)) ==>
      && InBandFrom(l, b, tests, i, Some(e)).rejection == Some(e)
      && forall k :: 0 <= k < |tests| - i ==>
           InBandFrom(l, b, tests, i, Some(e)).segments[k] == [FailureEvent(l, tests[i + k], e)]
    decreases |tests| - i
  {
    var r := InBandFrom(l, b, tests, i, Some(e));
    var turn := InBandTurn(l, tests[i], b.interrupted(i), b.runTest(tests[i]), Some(e));
    assert r.segments[0] == turn.events;
    if forall ev :: l.rejects(ev) == Some(e) {
      assert turn.rejection == Some(e);
      if i + 1 < |tests| {
        RejectionCascades(l, b, tests, i + 1, e);
      }
      forall k | 0 <= k < |tests| - i
        ensures r.segments[k] == [FailureEvent(l, tests[i + k], e)]
      {
        if k > 0 {
          assert r.segments[k] == InBandFrom(l, b, tests, i + 1, Some(e)).segments[k - 1];
        }
      }
    }
  }

  /** The rejection a link hands on to the next: that of its last step,
      when the last step is a failure delivery that rejects. */
  function PassedOn(l: Listeners, segment: seq<Event>): Option<RunError>
    requires |segment| >= 1
  {
    if IsFailure(segment[|segment| - 1]) then l.rejects(segment[|segment| - 1]) else None
  }

  /** A chain of links from link i to link n: each link is `step` applied
      to its index and to the rejection the previous link ended with. */
  ghost function LinkChain(step: (nat, Option<RunError>) -> Turn, n: nat, i: nat, carried: Option<RunError>): InBand
    requires i <= n
    decreases n - i
  {
    if i == n then InBand([], carried)
    else
      var turn := step(i, carried);
      var rest := LinkChain(step, n, i + 1, turn.rejection);
      InBand([turn.events] + rest.segments, rest.rejection)
  }

  /** The in-band run is the chain of its test turns. */
  lemma {:induction false} InBandIsChain(l: Listeners, b: Backend, tests: seq<Test>, i: nat, carried: Option<RunError>,
                                         step: (nat, Option<RunError>) -> Turn)
    requires i <= |tests|
    requires forall j: nat, c :: j < |tests| ==> step(j, c) == InBandTurn(l, tests[j], b.interrupted(j), b.runTest(tests[j]), c)
    ensures InBandFrom(l, b, tests, i, carried) == LinkChain(step, |tests|, i, carried)
    decreases |tests| - i
  {
    if i < |tests| {
      InBandIsChain(l, b, tests, i + 1, InBandTurn(l, tests[i], b.interrupted(i), b.runTest(tests[i]), carried).rejection, step);
    }
  }

  /** Links that pass on their own rejection. */
  ghost predicate PassesOwnRejection(l: Listeners, step: (nat, Option<RunError>) -> Turn, n: nat) {
    forall j: nat, c :: j < n ==> |step(j, c).events| >= 1 && PassedOn(l, step(j, c).events) == step(j, c).rejection
  }

  lemma {:induction false} ChainHandOff(l: Listeners, step: (nat, Option<RunError>) -> Turn, n: nat, i: nat,
                                        carried: Option<RunError>, j: nat)
    requires i < j < n && PassesOwnRejection(l, step, n)
    ensures |LinkChain(step, n, i, carried).segments| == n - i
    ensures |LinkChain(step, n, i, carried).segments[j - i - 1]| >= 1
    ensures LinkChain(step, n, i, carried).segments[j - i] ==
      step(j, PassedOn(l, LinkChain(step, n, i, carried).segments[j - i - 1])).events
    decreases j - i
  {
    var turn := step(i, carried);
    var rest := LinkChain(step, n, i + 1, turn.rejection);
    ChainLength(step, n, i + 1, turn.rejection);
    assert LinkChain(step, n, i, carried).segments == [turn.events] + rest.segments;
    if j == i + 1 {
      assert rest.segments[0] == step(i + 1, turn.rejection).events;
    } else {
      ChainHandOff(l, step, n, i + 1, turn.rejection, j);
    }
  }

  lemma {:induction false} ChainLength(step: (nat, Option<RunError>) -> Turn, n: nat, i: nat, carried: Option<RunError>)
    requires i <= n
    ensures |LinkChain(step, n, i, carried).segments| == n - i
    decreases n - i
  {
    if i < n {
      ChainLength(step, n, i + 1, step(i, carried).rejection);
    }
  }

  lemma {:induction false} ChainRejection(l: Listeners, step: (nat, Option<RunError>) -> Turn, n: nat, i: nat,
                                          carried: Option<RunError>)
    requires i < n && PassesOwnRejection(l, step, n)
    ensures |LinkChain(step, n, i, carried).segments| == n - i
    ensures |LinkChain(step, n, i, carried).segments[n - i - 1]| >= 1
    ensures LinkChain(step, n, i, carried).rejection == PassedOn(l, LinkChain(step, n, i, carried).segments[n - i - 1])
    decreases n - i
  {
    var turn := step(i, carried);
    var rest := LinkChain(step, n, i + 1, turn.rejection);
    ChainLength(step, n, i + 1, turn.rejection);
    assert LinkChain(step, n, i, carried).segments == [turn.events] + rest.segments;
    if i + 1 < n {
      ChainRejection(l, step, n, i + 1, turn.rejection);
    }
  }

  /** The test turns pass on their own rejection. */
  lemma TurnsPassOn(l: Listeners, b: Backend, tests: seq<Test>, step: (nat, Option<RunError>) -> Turn)
    requires forall j: nat, c :: j < |tests| ==> step(j, c) == InBandTurn(l, tests[j], b.interrupted(j), b.runTest(tests[j]), c)
    ensures PassesOwnRejection(l, step, |tests|)
  {
    forall j: nat, c | j < |tests|
      ensures |step(j, c).events| >= 1 && PassedOn(l, step(j, c).events) == step(j, c).rejection
    {
      InBandTurnEnds(l, tests[j], b.interrupted(j), b.runTest(tests[j]), c);
    }
  }

  /** The first link of the chain is the first test's turn, carried the
      chain's incoming rejection. */
  lemma InBandFirstLink(l: Listeners, b: Backend, tests: seq<Test>, i: nat, carried: Option<RunError>)
    requires i < |tests|
    ensures InBandFrom(l, b, tests, i, carried).segments[0] ==
      InBandTurn(l, tests[i], b.interrupted(i), b.runTest(tests[i]), carried).events
  {
  }

  /** Every later link is its test's turn, carried exactly what the link
      before it passed on. */
  lemma InBandHandOff(l: Listeners, b: Backend, tests: seq<Test>, i: nat, carried: Option<RunError>, j: nat)
    requires i < j < |tests|
    ensures var r := InBandFrom(l, b, tests, i, carried);
      r.segments[j - i] == InBandTurn(l, tests[j], b.interrupted(j), b.runTest(tests[j]), PassedOn(l, r.segments[j - i - 1])).events
  {
    var step := (k: nat, c: Option<RunError>) =>
      if k < |tests| then InBandTurn(l, tests[k], b.interrupted(k), b.runTest(tests[k]), c) else Turn([], None);
    InBandIsChain(l, b, tests, i, carried, step);
    TurnsPassOn(l, b, tests, step);
    ChainHandOff(l, step, |tests|, i, carried, j);
  }

  /** The hand-off between two consecutive tests: when a test's segment
      ends in a failure delivery that rejects, the next test only receives
      that rejection on its failure channel; otherwise the next test takes
      its own fresh turn. */
  lemma InBandNextLink(l: Listeners, b: Backend, tests: seq<Test>, i: nat, carried: Option<RunError>, k: nat)
    requires i + k + 1 < |tests|
    ensures var r := InBandFrom(l, b, tests, i, carried);
      && (PassedOn(l, r.segments[k]).Some? ==>
            r.segments[k + 1] == [FailureEvent(l, tests[i + k + 1], PassedOn(l, r.segments[k]).value)])
      && (PassedOn(l, r.segments[k]).None? ==>
            r.segments[k + 1] ==
            InBandTurn(l, tests[i + k + 1], b.interrupted(i + k + 1), b.runTest(tests[i + k + 1]), None).events)
  {
    InBandHandOff(l, b, tests, i, carried, i + k + 1);
  }

  /** The whole chain rejects with what its last link passes on, and with
      the carried rejection when there is no link at all. */
  lemma InBandRejection(l: Listeners, b: Backend, tests: seq<Test>, i: nat, carried: Option<RunError>)
    requires i <= |tests|
    ensures var r := InBandFrom(l, b, tests, i, carried);
      r.rejection == if i == |tests| then carried else PassedOn(l, r.segments[|tests| - i - 1])
  {
    if i < |tests| {
      var step := (k: nat, c: Option<RunError>) =>
        if k < |tests| then InBandTurn(l, tests[k], b.interrupted(k), b.runTest(tests[k]), c) else Turn([], None);
      InBandIsChain(l, b, tests, i, carried, step);
      TurnsPassOn(l, b, tests, step);
      ChainRejection(l, step, |tests|, i, carried);
    }
  }

  /** Three tests in band, emitter only, no interrupt, the second throwing:
      start1, run1, success1, start2, run2, failure2, start3, run3,
      success3, and the run still resolves. */
  lemma InBandScenario(l: Listeners, b: Backend, t1: Test, t2: Test, t3: Test,
                       r1: TestResult, e2: RunError, r3: TestResult)
    requires Reliable(l) && !l.onStart && !l.onResult && !l.onFailure
    requires !b.interrupted(0) && !b.interrupted(1) && !b.interrupted(2)
    requires b.runTest(t1) == Success(r1) && b.runTest(t2) == Failure(e2) && b.runTest(t3) == Success(r3)
    ensures InBandRun(l, b, [t1, t2, t3]).rejection.None?
    ensures Flatten(InBandRun(l, b, [t1, t2, t3]).segments) ==
      [EmitFileStart(t1), RunInBand(t1, true), EmitFileSuccess(t1, r1),
       EmitFileStart(t2), RunInBand(t2, true), EmitFileFailure(t2, e2),
       EmitFileStart(t3), RunInBand(t3, true), EmitFileSuccess(t3, r3)]
  {
    var tests := [t1, t2, t3];
    ReliableInBandFrom(l, b, tests, 0);
    var segs := InBandRun(l, b, tests).segments;
    EmitterSegment(l, t1, Success(r1));
    EmitterSegment(l, t2, Failure(e2));
    EmitterSegment(l, t3, Success(r3));
    assert segs == [segs[0], segs[1], segs[2]];
    FlattenThree(segs[0], segs[1], segs[2]);
  }

  /** A test that is not interrupted, delivered through the emitter. */
  lemma EmitterSegment(l: Listeners, t: Test, outcome: Result<TestResult, RunError>)
    requires !l.onStart && !l.onResult && !l.onFailure
    ensures ExpectedSegment(l, t, false, outcome) ==
      [EmitFileStart(t), RunInBand(t, true),
       if outcome.Success? then EmitFileSuccess(t, outcome.value) else EmitFileFailure(t, outcome.error)]
  {
  }

  lemma FlattenThree<T>(a: seq<T>, b: seq<T>, c: seq<T>)
    ensures Flatten([a, b, c]) == a + b + c
  {
    assert [a, b, c][1..] == [b, c];
    assert [b, c][1..] == [c];
    assert [c][1..] == [];
    assert Flatten([c]) == c + Flatten([]);
    assert Flatten([b, c]) == b + Flatten([c]);
    assert Flatten([a, b, c]) == a + Flatten([b, c]);
  }

  // ---------------------------------------------------------------------------
  // Parallel run: resolvers, one test's turn, and onError

  /** What the workers are set up with for one project configuration. */
  datatype Resolver = Resolver(config: ProjectConfig, serializableModuleMap: string)

  function NameOf(t: Test): string {
    t.context.config.name
  }

  function ResolverOf(t: Test): Resolver {
    Resolver(t.context.config, t.context.moduleMap)
  }

  /** The position of the first test whose configuration is called `name`,
      or `|tests|` when there is none. */
  function FirstIndex(tests: seq<Test>, name: string): (r: nat)
    ensures r <= |tests|
    ensures r < |tests| ==> NameOf(tests[r]) == name
    ensures forall j :: 0 <= j < r ==> NameOf(tests[j]) != name
  {
    if |tests| == 0 then 0
    else if NameOf(tests[0]) == name then 0
    else 1 + FirstIndex(tests[1..], name)
  }

  /** The configuration names of the first `n` tests. */
  function TestNames(tests: seq<Test>, n: nat): set<string>
    requires n <= |tests|
  {
    set k | 0 <= k < n :: NameOf(tests[k])
  }

  function ResolverNames(resolvers: seq<Resolver>): set<string> {
    set i | 0 <= i < |resolvers| :: resolvers[i].config.name
  }

  /** A name missing from the first `n` tests first occurs at `n`. */
  lemma FirstOccurrence(tests: seq<Test>, n: nat)
    requires n < |tests| && NameOf(tests[n]) !in TestNames(tests, n)
    ensures FirstIndex(tests, NameOf(tests[n])) == n
  {
    forall j | 0 <= j < n ensures NameOf(tests[j]) != NameOf(tests[n]) {
      assert NameOf(tests[j]) in TestNames(tests, n);
    }
  }

  lemma ResolverNamesAppend(resolvers: seq<Resolver>, r: Resolver)
    ensures ResolverNames(resolvers + [r]) == ResolverNames(resolvers) + {r.config.name}
  {
    var next := resolvers + [r];
    assert forall i :: 0 <= i < |resolvers| ==> next[i] == resolvers[i];
    assert next[|resolvers|] == r;
  }

  /** The resolvers the first `n` tests give, read as a reference: a test
      contributes its resolver exactly when no earlier test has a
      configuration of the same name. */
  function FirstResolvers(tests: seq<Test>, n: nat): (r: seq<Resolver>)
    requires n <= |tests|
    ensures |r| <= n
  {
    if n == 0 then []
    else
      var earlier := FirstResolvers(tests, n - 1);
      if NameOf(tests[n - 1]) in TestNames(tests, n - 1) then earlier else earlier + [ResolverOf(tests[n - 1])]
  }

  /** The resolvers cover exactly the configuration names of the tests. */
  lemma {:induction false} FirstResolversNames(tests: seq<Test>, n: nat)
    requires n <= |tests|
    ensures ResolverNames(FirstResolvers(tests, n)) == TestNames(tests, n)
  {
    if n > 0 {
      FirstResolversNames(tests, n - 1);
      var name := NameOf(tests[n - 1]);
      assert TestNames(tests, n) == TestNames(tests, n - 1) + {name};
      if name !in TestNames(tests, n - 1) {
        ResolverNamesAppend(FirstResolvers(tests, n - 1), ResolverOf(tests[n - 1]));
      }
    }
  }

  /** Each resolver is the one of the first test carrying its name. */
  lemma {:induction false} FirstResolversFirst(tests: seq<Test>, n: nat)
    requires n <= |tests|
    ensures forall i :: 0 <= i < |FirstResolvers(tests, n)| ==>
      var r := FirstResolvers(tests, n)[i];
      FirstIndex(tests, r.config.name) < n && r == ResolverOf(tests[FirstIndex(tests, r.config.name)])
  {
    if n > 0 {
      FirstResolversFirst(tests, n - 1);
      var earlier := FirstResolvers(tests, n - 1);
      if NameOf(tests[n - 1]) !in TestNames(tests, n - 1) {
        FirstOccurrence(tests, n - 1);
        var all := earlier + [ResolverOf(tests[n - 1])];
        assert forall i :: 0 <= i < |earlier| ==> all[i] == earlier[i];
      }
    }
  }

  /** The resolvers come in the order their names first occur, so no name
      appears twice. */
  lemma {:induction false} FirstResolversOrdered(tests: seq<Test>, n: nat)
    requires n <= |tests|
    ensures forall i, j :: 0 <= i < j < |FirstResolvers(tests, n)| ==>
      FirstIndex(tests, FirstResolvers(tests, n)[i].config.name) < FirstIndex(tests, FirstResolvers(tests, n)[j].config.name)
    ensures forall i, j :: 0 <= i < j < |FirstResolvers(tests, n)| ==>
      FirstResolvers(tests, n)[i].config.name != FirstResolvers(tests, n)[j].config.name
  {
    if n > 0 {
      FirstResolversOrdered(tests, n - 1);
      FirstResolversFirst(tests, n - 1);
      var earlier := FirstResolvers(tests, n - 1);
      if NameOf(tests[n - 1]) !in TestNames(tests, n - 1) {
        FirstOccurrence(tests, n - 1);
        var all := earlier + [ResolverOf(tests[n - 1])];
        assert forall i :: 0 <= i < |earlier| ==> all[i] == earlier[i];
        assert all[|earlier|].config.name == NameOf(tests[n - 1]);
      }
    }
  }

  /** The resolver list of `_createParallelTestRun`, built with a set of the
      names seen so far. */
  method CollectResolvers(tests: seq<Test>) returns (resolvers: seq<Resolver>)
    ensures resolvers == FirstResolvers(tests, |tests|)
  {
    resolvers := [];
    var seen: set<string> := {};
    var n := 0;
    while n < |tests|
      invariant 0 <= n <= |tests|
      invariant seen == TestNames(tests, n)
      invariant resolvers == FirstResolvers(tests, n)
    {
      var name := NameOf(tests[n]);
      assert TestNames(tests, n + 1) == TestNames(tests, n) + {name};
      if name !in seen {
        resolvers := resolvers + [ResolverOf(tests[n])];
        seen := seen + {name};
      }
      n := n + 1;
    }
  }

  /** `onError`: the failure is always delivered first; only an error whose
      `type` is `ProcessTerminatedError` then logs and exits with status 1.
      Reading `type` of an `undefined` reason throws a `TypeError` instead. */
  function OnError(l: Listeners, t: Test, err: RunError): (r: Turn)
    ensures |r.events| >= 1 && r.events[0] == FailureEvent(l, t, err) && WellRouted(l, t, r.events)
    ensures forall k :: 0 <= k < |r.events| ==>
      !r.events[k].RunInWorker? && !IsStart(r.events[k]) && !IsSuccess(r.events[k]) && !r.events[k].EmitCustom?
    ensures forall k :: 1 <= k < |r.events| ==> !IsFailure(r.events[k])
    ensures (exists k :: 0 <= k < |r.events| && r.events[k].ExitProcess?) <==>
      l.rejects(FailureEvent(l, t, err)).None? && err.Thrown? && err.errType == Some("ProcessTerminatedError")
    ensures forall k :: 0 <= k < |r.events| && r.events[k].ExitProcess? ==>
      k == |r.events| - 1 && r.events[k].code == 1 && r.events[k - 1] == LogWorkerQuit(t)
    ensures l.rejects(FailureEvent(l, t, err)).Some? ==> r.rejection == l.rejects(FailureEvent(l, t, err))
    ensures l.rejects(FailureEvent(l, t, err)).None? ==> (r.rejection.Some? <==> err == NoReason)
  {
    var failure := FailureEvent(l, t, err);
    match l.rejects(failure)
    case Some(e) => Turn([failure], Some(e))
    case None =>
      match err
      case NoReason => Turn([failure], Some(TypeOfUndefined))
      case Thrown(Some(kind), _) =>
        if kind == "ProcessTerminatedError" then
          assert [failure, LogWorkerQuit(t), ExitProcess(t, 1)][2].ExitProcess?;
          Turn([failure, LogWorkerQuit(t), ExitProcess(t, 1)], None)
        else Turn([failure], None)
      case _ => Turn([failure], None)
  }

  /** The custom messages a worker sent, re-emitted under their own names. */
  function Forwarded(t: Test, messages: seq<(string, string)>): (r: seq<Event>)
    ensures |r| == |messages|
    ensures forall k :: 0 <= k < |r| ==> r[k] == EmitCustom(t, messages[k].0, messages[k].1)
  {
    seq(|messages|, k requires 0 <= k < |messages| => EmitCustom(t, messages[k].0, messages[k].1))
  }

  /** The worker's outcome handled: its failure handed to `onError`, or its
      result on the success channel (whose rejection `onError` handles in
      turn). */
  function Delivered(l: Listeners, t: Test, outcome: Result<TestResult, RunError>): (r: Turn)
    ensures |r.events| >= 1 && WellRouted(l, t, r.events)
    ensures forall k :: 0 <= k < |r.events| ==>
      !r.events[k].RunInWorker? && !IsStart(r.events[k]) && !r.events[k].EmitCustom?
    ensures forall k :: 0 <= k < |r.events| && IsSuccess(r.events[k]) ==>
      k == 0 && outcome.Success? && r.events[k] == SuccessEvent(l, t, outcome.value)
    ensures outcome.Failure? ==> r.events[0] == FailureEvent(l, t, outcome.error)
    ensures forall k :: 0 <= k < |r.events| && r.events[k].ExitProcess? ==> k == |r.events| - 1
    // a passing test's result comes first; a settled success delivery is the
    // whole turn, and a rejected one is followed by `onError` delivering the rejection
    ensures outcome.Success? ==>
      && r.events[0] == SuccessEvent(l, t, outcome.value)
      && (l.rejects(r.events[0]).None? ==> r == Turn([r.events[0]], None))
      && (l.rejects(r.events[0]).Some? ==> |r.events| >= 2 && r.events[1] == FailureEvent(l, t, l.rejects(r.events[0]).value))
    // the one failure delivery decides the rejection: its own, or the
    // `TypeError` when it settled and carried no reason
    ensures forall k :: 0 <= k < |r.events| && IsFailure(r.events[k]) ==>
      && k == (if outcome.Failure? then 0 else 1)
      && r.rejection == (if l.rejects(r.events[k]).Some? then l.rejects(r.events[k])
                         else if r.events[k].error == NoReason then Some(TypeOfUndefined) else None)
    // a failure is `onError`'s alone; a rejected success delivery is
    // followed by `onError` handling that rejection, which decides the end
    ensures outcome.Failure? ==> r == OnError(l, t, outcome.error)
    ensures outcome.Success? && l.rejects(SuccessEvent(l, t, outcome.value)).Some? ==>
      var handled := OnError(l, t, l.rejects(SuccessEvent(l, t, outcome.value)).value);
      r.events[1..] == handled.events && r.rejection == handled.rejection
  {
    match outcome
    case Failure(e) => OnError(l, t, e)
    case Success(res) =>
      var success := SuccessEvent(l, t, res);
      match l.rejects(success)
      case Some(e) =>
        var handled := OnError(l, t, e);
        var events := [success] + handled.events;
        forall k | 0 <= k < |events| && IsFailure(events[k]) ensures k == 1 {
          if k > 0 {
            assert events[k] == handled.events[k - 1];
          }
        }
        Turn(events, handled.rejection)
      case None => Turn([success], None)
  }

  /** What follows a settled start in the parallel run: the worker's custom
      messages, then its outcome handled. */
  function AfterDispatch(l: Listeners, t: Test, reply: WorkerReply): (r: Turn)
    ensures |r.events| > |reply.messages| && WellRouted(l, t, r.events)
    ensures r.events[..|reply.messages|] == Forwarded(t, reply.messages)
    ensures forall k :: 0 <= k < |r.events| ==> !r.events[k].RunInWorker? && !IsStart(r.events[k])
    ensures forall k :: 0 <= k < |r.events| && IsSuccess(r.events[k]) ==>
      k == |reply.messages| && reply.outcome.Success? && r.events[k] == SuccessEvent(l, t, reply.outcome.value)
    ensures reply.outcome.Failure? ==> r.events[|reply.messages|] == FailureEvent(l, t, reply.outcome.error)
    ensures forall k :: 0 <= k < |r.events| && r.events[k].ExitProcess? ==> k == |r.events| - 1
    // after the forwarded messages comes the outcome's handling, which decides the end
    ensures r.events[|reply.messages|..] == Delivered(l, t, reply.outcome).events
    ensures r.rejection == Delivered(l, t, reply.outcome).rejection
  {
    var forwarded := Forwarded(t, reply.messages);
    var d := Delivered(l, t, reply.outcome);
    var events := forwarded + d.events;
    assert events[..|forwarded|] == forwarded;
    forall k | 0 <= k < |events|
      ensures events[k].test == t && OnChannel(l, events[k])
      ensures !events[k].RunInWorker? && !IsStart(events[k])
      ensures IsSuccess(events[k]) ==>
        k == |forwarded| && reply.outcome.Success? && events[k] == SuccessEvent(l, t, reply.outcome.value)
      ensures events[k].ExitProcess? ==> k == |events| - 1
    {
      if k < |forwarded| {
        assert events[k] == forwarded[k];
      } else {
        assert events[k] == d.events[k - |forwarded|];
      }
    }
    Turn(events, d.rejection)
  }

  /** One test of the parallel run once the watcher let it through: the
      start, then (if the start settled) the worker call and what follows;
      a rejected start goes to `onError`. */
  function StartedTurn(l: Listeners, t: Test, reply: WorkerReply): (r: Turn)
    ensures |r.events| >= 1 && WellRouted(l, t, r.events)
    ensures r.events[0] == StartEvent(l, t)
    ensures (exists k :: 0 <= k < |r.events| && r.events[k].RunInWorker?) <==> l.rejects(StartEvent(l, t)).None?
    ensures forall k :: 0 <= k < |r.events| && r.events[k].RunInWorker? ==> k == 1
    ensures forall k :: 0 <= k < |r.events| && IsSuccess(r.events[k]) ==>
      reply.outcome.Success? && r.events[k] == SuccessEvent(l, t, reply.outcome.value)
    ensures forall k :: 0 <= k < |r.events| && r.events[k].ExitProcess? ==> k == |r.events| - 1
    // a rejected start is handed to `onError`; a settled one is followed by
    // the worker call and what comes after it
    ensures l.rejects(StartEvent(l, t)).Some? ==>
      var handled := OnError(l, t, l.rejects(StartEvent(l, t)).value);
      r.events[1..] == handled.events && r.rejection == handled.rejection
    ensures l.rejects(StartEvent(l, t)).None? ==>
      && |r.events| >= 2 && r.events[1] == RunInWorker(t)
      && r.events[2..] == AfterDispatch(l, t, reply).events
      && r.rejection == AfterDispatch(l, t, reply).rejection
  {
    var start := StartEvent(l, t);
    match l.rejects(start)
    case Some(e) =>
      var handled := OnError(l, t, e);
      var events := [start] + handled.events;
      forall k | 0 <= k < |events|
        ensures events[k].test == t && OnChannel(l, events[k])
        ensures !events[k].RunInWorker? && !IsSuccess(events[k])
        ensures events[k].ExitProcess? ==> k == |events| - 1
      {
        if k > 0 {
          assert events[k] == handled.events[k - 1];
        }
      }
      Turn(events, handled.rejection)
    case None =>
      var rest := AfterDispatch(l, t, reply);
      var events := [start, RunInWorker(t)] + rest.events;
      assert events[1].RunInWorker?;
      forall k | 0 <= k < |events|
        ensures events[k].test == t && OnChannel(l, events[k])
        ensures events[k].RunInWorker? ==> k == 1
        ensures IsSuccess(events[k]) ==>
          reply.outcome.Success? && events[k] == SuccessEvent(l, t, reply.outcome.value)
        ensures events[k].ExitProcess? ==> k == |events| - 1
      {
        if k >= 2 {
          assert events[k] == rest.events[k - 2];
        }
      }
      Turn(events, rest.rejection)
  }

  /** One test of the parallel run, from its turn at the gate to the end of
      its `onError` or success delivery. An interrupt rejects with no
      reason, which `onError` then trips over. */
  function ParallelTurn(l: Listeners, t: Test, interrupted: bool, reply: WorkerReply): (r: Turn)
    ensures |r.events| >= 1 && WellRouted(l, t, r.events)
    ensures interrupted ==> r == OnError(l, t, NoReason)
    ensures !interrupted ==> r.events[0] == StartEvent(l, t) && r == StartedTurn(l, t, reply)
    ensures (exists k :: 0 <= k < |r.events| && r.events[k].RunInWorker?) <==>
      !interrupted && l.rejects(StartEvent(l, t)).None?
    ensures forall k :: 0 <= k < |r.events| && r.events[k].RunInWorker? ==> k == 1
    ensures forall k :: 0 <= k < |r.events| && IsSuccess(r.events[k]) ==>
      reply.outcome.Success? && r.events[k] == SuccessEvent(l, t, reply.outcome.value)
    ensures forall k :: 0 <= k < |r.events| && r.events[k].ExitProcess? ==> k == |r.events| - 1
  {
    if interrupted then OnError(l, t, NoReason) else StartedTurn(l, t, reply)
  }

  /** The fatal-exit tail `onError` adds after a settled failure delivery. */
  function ExitTail(t: Test, err: RunError): seq<Event> {
    if err.Thrown? && err.errType == Some("ProcessTerminatedError") then [LogWorkerQuit(t), ExitProcess(t, 1)] else []
  }

  /** With a settling failure delivery, `onError` is the failure followed by
      the fatal-exit tail, and rejects only for a missing reason. */
  lemma SettledOnError(l: Listeners, t: Test, err: RunError)
    requires l.rejects(FailureEvent(l, t, err)).None?
    ensures OnError(l, t, err) ==
      Turn([FailureEvent(l, t, err)] + ExitTail(t, err), if err == NoReason then Some(TypeOfUndefined) else None)
  {
  }

  /** With settling deliveries, what follows the worker call. */
  lemma ReliableAfterDispatch(l: Listeners, t: Test, reply: WorkerReply)
    requires Reliable(l)
    ensures reply.outcome.Success? ==>
      AfterDispatch(l, t, reply) == Turn(Forwarded(t, reply.messages) + [SuccessEvent(l, t, reply.outcome.value)], None)
    ensures reply.outcome.Failure? ==>
      var e := reply.outcome.error;
      AfterDispatch(l, t, reply) ==
      Turn(Forwarded(t, reply.messages) + ([FailureEvent(l, t, e)] + ExitTail(t, e)),
           if e == NoReason then Some(TypeOfUndefined) else None)
  {
    match reply.outcome
    case Success(res) =>
      assert l.rejects(SuccessEvent(l, t, res)).None?;
    case Failure(e) =>
      assert l.rejects(FailureEvent(l, t, e)).None?;
      SettledOnError(l, t, e);
  }

  /** With settling deliveries a parallel turn is: the start, the worker
      call, the forwarded messages, then the result, or the failure followed
      by the fatal exit for a terminated worker process. An interrupted turn
      delivers a failure with no reason and then rejects with the
      `TypeError` of reading `type` of `undefined`. */
  lemma ReliableParallelTurn(l: Listeners, t: Test, interrupted: bool, reply: WorkerReply)
    requires Reliable(l)
    ensures interrupted ==>
      ParallelTurn(l, t, interrupted, reply) == Turn([FailureEvent(l, t, NoReason)], Some(TypeOfUndefined))
    ensures !interrupted && reply.outcome.Success? ==>
      ParallelTurn(l, t, interrupted, reply) ==
      Turn([StartEvent(l, t), RunInWorker(t)] + (Forwarded(t, reply.messages) + [SuccessEvent(l, t, reply.outcome.value)]), None)
    ensures !interrupted && reply.outcome.Failure? ==>
      var e := reply.outcome.error;
      ParallelTurn(l, t, interrupted, reply) ==
      Turn([StartEvent(l, t), RunInWorker(t)] + (Forwarded(t, reply.messages) + ([FailureEvent(l, t, e)] + ExitTail(t, e))),
           if e == NoReason then Some(TypeOfUndefined) else None)
  {
    if interrupted {
      assert l.rejects(FailureEvent(l, t, NoReason)).None?;
      SettledOnError(l, t, NoReason);
    } else {
      assert l.rejects(StartEvent(l, t)).None?;
      ReliableAfterDispatch(l, t, reply);
    }
  }

  // ---------------------------------------------------------------------------
  // runTests

  datatype Run =
    | InBandRunOf(inBand: InBand)
    /** the resolvers the workers are set up with, and each test's own steps;
        steps of different tests interleave in an order not modelled */
    | ParallelRunOf(resolvers: seq<Resolver>, turns: seq<Turn>)

  /** `runTests`: `serial` selects the in-band run, anything else the
      parallel one. */
  method RunTests(serial: bool, l: Listeners, b: Backend, tests: seq<Test>) returns (r: Run)
    ensures r.InBandRunOf? <==> serial
    ensures r.InBandRunOf? ==> r.inBand == InBandRun(l, b, tests)
    ensures r.ParallelRunOf? ==>
      && |r.turns| == |tests|
      && (forall k :: 0 <= k < |tests| ==> r.turns[k] == ParallelTurn(l, tests[k], b.interrupted(k), b.worker(tests[k])))
      && r.resolvers == FirstResolvers(tests, |tests|)
  {
    if serial {
      r := InBandRunOf(InBandRun(l, b, tests));
    } else {
      var resolvers := CollectResolvers(tests);
      var turns := seq(|tests|, k requires 0 <= k < |tests| => ParallelTurn(l, tests[k], b.interrupted(k), b.worker(tests[k])));
      assert forall k :: 0 <= k < |tests| ==> turns[k] == ParallelTurn(l, tests[k], b.interrupted(k), b.worker(tests[k]));
      r := ParallelRunOf(resolvers, turns);
      assert r.resolvers == resolvers;
    }
  }
}
