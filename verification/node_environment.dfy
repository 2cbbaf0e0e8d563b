/** The lifecycle of the Node test environment
    (packages/jest-environment-node/src/index.ts): the timer id/reference
    conversion handed to the legacy fake timers, and the `teardown`,
    `runScript` and `getVmContext` operations on the environment's three
    nullable slots. VM context creation and global installation are left
    to the host; the context and the two fake-timer implementations are
    opaque values here. */
module NodeEnvironment {
  import opened Wrappers

  /** The object `timerIdToRef` builds. `ref()` and `unref()` both return
      `this`, so the object is fully described by its id. */
  datatype Timer = Timer(id: int)

  /** The two chaining calls on a timer. */
  datatype TimerCall = RefCall | UnrefCall

  /** `timer.ref()` and `timer.unref()`: both return the timer itself. */
  function Chain(t: Timer, call: TimerCall): (r: Timer)
    ensures r == t && r.id == t.id
  {
    t
  }

  /** `timerIdToRef` */
  function IdToRef(id: int): (r: Timer)
    ensures r.id == id
    ensures Chain(r, RefCall) == r && Chain(r, UnrefCall) == r
  {
    Timer(id)
  }

  /** `timerRefToId`: `(timer && timer.id) || undefined`. A missing timer
      (`null` or `undefined`) and the falsy id `0` both give `undefined`. */
  function RefToId(timer: Option<Timer>): (r: Option<int>)
    ensures r.Some? <==> timer.Some? && timer.value.id != 0
    ensures r.Some? ==> r.value == timer.value.id
  {
    match timer
    case None => None
    case Some(t) => if t.id != 0 then Some(t.id) else None
  }

  /** The conversion round-trips for every id except `0`. */
  lemma TimerRoundTrip(id: int)
    requires id != 0
    ensures RefToId(Some(IdToRef(id))) == Some(id)
    ensures forall call :: RefToId(Some(Chain(IdToRef(id), call))) == Some(id)
  {
  }

  /** The quirk at `0`: the id is lost, exactly as for a missing timer. */
  lemma TimerZeroIsLost()
    ensures RefToId(Some(IdToRef(0))) == None
    ensures RefToId(Some(IdToRef(0))) == RefToId(None)
  {
  }

  /** The environment's nullable slots. */
  datatype Environment<Context, Legacy, Modern> = Environment(
    context: Option<Context>,
    fakeTimers: Option<Legacy>,
    fakeTimersLolex: Option<Modern>
  )

  /** A `dispose()` call made by `teardown`. */
  datatype Disposal<Legacy, Modern> = DisposeLegacy(legacy: Legacy) | DisposeModern(modern: Modern)

  datatype Teardown<Context, Legacy, Modern> = Teardown(
    env: Environment<Context, Legacy, Modern>,
    disposed: seq<Disposal<Legacy, Modern>>
  )

  /** The state the constructor leaves: all three slots filled. */
  function Construct<C, L, M>(context: C, legacy: L, modern: M): (e: Environment<C, L, M>)
    ensures e.context == Some(context)
    ensures e.fakeTimers == Some(legacy) && e.fakeTimersLolex == Some(modern)
  {
    Environment(Some(context), Some(legacy), Some(modern))
  }

  /** `teardown`: dispose each fake-timer implementation that is present,
      legacy first, then clear all three slots. */
  function TearDown<C, L, M>(e: Environment<C, L, M>): (r: Teardown<C, L, M>)
    ensures r.env.context.None? && r.env.fakeTimers.None? && r.env.fakeTimersLolex.None?
    ensures |r.disposed| <= 2
    ensures (exists i :: 0 <= i < |r.disposed| && r.disposed[i].DisposeLegacy?) <==> e.fakeTimers.Some?
    ensures (exists i :: 0 <= i < |r.disposed| && r.disposed[i].DisposeModern?) <==> e.fakeTimersLolex.Some?
    ensures forall i :: 0 <= i < |r.disposed| && r.disposed[i].DisposeLegacy? ==>
      i == 0 && e.fakeTimers == Some(r.disposed[i].legacy)
    ensures forall i :: 0 <= i < |r.disposed| && r.disposed[i].DisposeModern? ==>
      i == |r.disposed| - 1 && e.fakeTimersLolex == Some(r.disposed[i].modern)
  {
    var legacy := if e.fakeTimers.Some? then [DisposeLegacy(e.fakeTimers.value)] else [];
    var modern := if e.fakeTimersLolex.Some? then [DisposeModern(e.fakeTimersLolex.value)] else [];
    var disposed := legacy + modern;
    assert e.fakeTimers.Some? ==> disposed[0].DisposeLegacy?;
    assert e.fakeTimersLolex.Some? ==> disposed[|disposed| - 1].DisposeModern?;
    Teardown(Environment(None, None, None), disposed)
  }

  /** A second `teardown` finds nothing left to dispose and changes nothing. */
  lemma TearDownTwice<C, L, M>(e: Environment<C, L, M>)
    ensures TearDown(TearDown(e).env).disposed == []
    ensures TearDown(TearDown(e).env).env == TearDown(e).env
  {
  }

  /** `runScript`: `null` without a context, otherwise the script's value
      when run in the context (`runInContext` is the host's). */
  function RunScript<C, L, M, S, T>(e: Environment<C, L, M>, script: S, runInContext: (S, C) -> T): (r: Option<T>)
    ensures r.None? <==> e.context.None?
    ensures r.Some? ==> r.value == runInContext(script, e.context.value)
  {
    match e.context
    case None => None
    case Some(c) => Some(runInContext(script, c))
  }

  /** `getVmContext` */
  function GetVmContext<C, L, M>(e: Environment<C, L, M>): (r: Option<C>)
    ensures r == e.context
  {
    e.context
  }

  /** `getVmContext` and `runScript` agree: a script runs exactly when there
      is a VM context, and then in that context. */
  lemma VmContextAgreesWithRunScript<C, L, M, S, T>(e: Environment<C, L, M>, script: S, runInContext: (S, C) -> T)
    ensures GetVmContext(e).None? <==> RunScript(e, script, runInContext).None?
    ensures GetVmContext(e).Some? ==>
      RunScript(e, script, runInContext) == Some(runInContext(script, GetVmContext(e).value))
  {
  }

  /** After `teardown`, scripts no longer run and there is no VM context,
      whatever state the environment was in. */
  lemma NothingRunsAfterTeardown<C, L, M, S, T>(e: Environment<C, L, M>, script: S, runInContext: (S, C) -> T)
    ensures RunScript(TearDown(e).env, script, runInContext).None?
    ensures GetVmContext(TearDown(e).env).None?
  {
  }

  /** Before `teardown`, a freshly constructed environment runs scripts in
      its own context. */
  lemma ConstructedEnvironmentRuns<C, L, M, S, T>(c: C, l: L, m: M, script: S, runInContext: (S, C) -> T)
    ensures RunScript(Construct(c, l, m), script, runInContext) == Some(runInContext(script, c))
    ensures GetVmContext(Construct(c, l, m)) == Some(c)
    ensures TearDown(Construct(c, l, m)).disposed == [DisposeLegacy(l), DisposeModern(m)]
  {
  }
}
