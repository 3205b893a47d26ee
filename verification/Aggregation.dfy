/**
 * One `defineAggregation` instance (core/aggregation.ts) as a state machine: the closure variables are an
 * `Engine`, the storage and cache it talks to are the rest of `State`, and every timer callback, storage
 * answer, settlement and caller is an event.
 *
 * A fingerprint is a natural number and 0 stands for a null content hash. The code only compares
 * fingerprints for equality; the numbering lets "a fingerprint never seen before" be said as "a greater
 * one". Sources are content-hashed stores read through the revalidated cache; an aggregation used as a
 * source is the subject of `AggregationGraph`. One identity is fixed.
 */
module Aggregation {
  import opened Wrappers

  type Source = string
  type Fp = nat
  type Value = string

  const NO_HASH: Fp := 0
  const MAX_BACKGROUND_RETRIES: nat := 3

  /** `content` is what a source row with a given fingerprint holds: hashes are injective. */
  datatype Def = Def(
    sources: set<Source>,
    version: nat,
    content: (Source, Fp) -> Value,
    compute: map<Source, Value> -> Option<Value>,
    parse: Value -> Option<Value>,
    hasExternal: bool
  )

  datatype Envelope = Envelope(v: nat, fps: map<Source, Fp>, fetchedAt: nat, data: Option<Value>)

  /** What an in-flight `computeAndPersist` has done so far. */
  datatype Run = Run(got: map<Source, Fp>, fetchedAt: Option<nat>, outcome: Option<Envelope>)

  datatype ComputeError = Cold | Other

  datatype Engine = Engine(
    subscribed: bool,
    observed: map<Source, Fp>,
    lastEnvelope: Option<Envelope>,
    inFlight: Option<Run>,
    rerun: bool,
    debounce: bool,
    retries: nat,
    failures: nat,
    lastError: Option<ComputeError>,
    externalCache: Option<nat>
  )

  /** A `get()` that has read the envelope row and, once `verifying`, has installed it in `lastEnvelope`. */
  datatype Get = Get(id: nat, env: Envelope, verifying: bool)

  datatype State = State(
    actual: map<Source, Fp>,
    slots: map<Source, Fp>,
    persisted: Envelope,
    ttlOk: bool,
    clock: nat,
    gets: set<Get>,
    g: Engine
  )

  const NEW_RUN := Run(map[], None, None)
  const COLD_ENGINE := Engine(false, map[], None, None, false, false, 0, 0, None, None)

  function Bit(b: bool): nat {
    if b then 1 else 0
  }

  // ---------------------------------------------------------------------------------------------
  // The closure functions
  // ---------------------------------------------------------------------------------------------

  function FpOf(env: Envelope, s: Source): Fp {
    if s in env.fps then env.fps[s] else NO_HASH
  }

  predicate Agrees(d: Def, observed: map<Source, Fp>, env: Envelope) {
    forall s :: s in d.sources && s in observed ==> observed[s] == FpOf(env, s)
  }

  predicate IsFresh(d: Def, g: Engine, env: Envelope, ttlOk: bool) {
    env.v == d.version && Agrees(d, g.observed, env) && (d.hasExternal ==> env.fetchedAt != 0 && ttlOk)
  }

  predicate LastIsFresh(d: Def, g: Engine, ttlOk: bool) {
    g.lastEnvelope.Some? && IsFresh(d, g, g.lastEnvelope.value, ttlOk)
  }

  function Trigger(g: Engine): Engine {
    if g.inFlight.Some? then g.(rerun := true) else g.(inFlight := Some(NEW_RUN))
  }

  function OnDebounce(d: Def, g: Engine, ttlOk: bool): Engine {
    var g1 := g.(debounce := false);
    if LastIsFresh(d, g1, ttlOk) then g1 else Trigger(g1)
  }

  function OnRetry(g: Engine): Engine
    requires g.retries > 0
  {
    Trigger(g.(retries := g.retries - 1))
  }

  /** The `.then` and `.catch` of a compute. */
  function Record(g: Engine, result: Result<Envelope, ComputeError>): Engine {
    match result
    case Success(env) => g.(lastEnvelope := Some(env), lastError := None, failures := 0)
    case Failure(e) => g.(lastError := Some(e))
  }

  /** Its `.finally`. */
  function Release(d: Def, g: Engine, ttlOk: bool): Engine {
    var g1 := g.(inFlight := None);
    if g.rerun then
      var g2 := g1.(rerun := false);
      if LastIsFresh(d, g2, ttlOk) then g2 else Trigger(g2)
    else if g.lastError.Some? && g.lastError.value != Cold && g.failures < MAX_BACKGROUND_RETRIES then
      g1.(failures := g.failures + 1, retries := g.retries + 1)
    else g1
  }

  function Settle(d: Def, g: Engine, result: Result<Envelope, ComputeError>, ttlOk: bool): Engine {
    Release(d, Record(g, result), ttlOk)
  }

  /** The cache subscription of source `s`. */
  function Observe(g: Engine, s: Source, h: Fp): Engine {
    if g.subscribed then g.(observed := g.observed[s := h], debounce := true) else g
  }

  function EnsureSubscribed(d: Def, g: Engine, slots: map<Source, Fp>): Engine {
    if g.subscribed then g
    else g.(subscribed := true, observed := map s | s in slots && s in d.sources :: slots[s])
  }

  function Install(g: Engine, env: Envelope): Engine {
    var g1 := g.(lastEnvelope := Some(env));
    if env.data.None? && g1.inFlight.None? then Trigger(g1) else g1
  }

  function Finish(d: Def, g: Engine, env: Envelope, ttlOk: bool): Engine {
    if !IsFresh(d, g, env, ttlOk) && g.inFlight.None? then Trigger(g) else g
  }

  function Refresh(g: Engine, bypass: bool): Engine {
    var g1 := g.(debounce := false);
    Trigger(if bypass then g1.(externalCache := None) else g1)
  }

  function Invalidate(g: Engine): Engine {
    Trigger(g.(externalCache := None))
  }

  // ---------------------------------------------------------------------------------------------
  // One compute
  // ---------------------------------------------------------------------------------------------

  /** What `compute` and the schema make of the sources at the given fingerprints. */
  function Expected(d: Def, fps: map<Source, Fp>): Option<Value> {
    var raw := d.compute(map s | s in fps :: d.content(s, fps[s]));
    if raw.None? then None else d.parse(raw.value)
  }

  /** Whether a read of `s` is served from its cache slot, leaving every subscriber alone. */
  predicate CacheHit(st: State, s: Source)
    requires s in st.actual
  {
    s in st.slots && st.slots[s] != NO_HASH && st.slots[s] == st.actual[s]
  }

  function ReadSource(st: State, s: Source): State
    requires s in st.actual && st.g.inFlight.Some?
  {
    var h := st.actual[s];
    var run := st.g.inFlight.value;
    var read := st.g.(inFlight := Some(run.(got := run.got[s := h])));
    if CacheHit(st, s) then st.(g := read)
    else st.(slots := st.slots[s := h], g := Observe(read, s, h))
  }

  predicate ExternalCached(st: State) {
    st.g.externalCache.Some? && st.ttlOk
  }

  /** When the value the compute gets was loaded: from the cache within its TTL, else now. */
  function LoadedAt(st: State): nat {
    if ExternalCached(st) then st.g.externalCache.value else st.clock + 1
  }

  function FetchExternal(st: State): State
    requires st.g.inFlight.Some?
  {
    var at := LoadedAt(st);
    st.(clock := if ExternalCached(st) then st.clock else at,
        g := st.g.(inFlight := Some(st.g.inFlight.value.(fetchedAt := Some(at))), externalCache := Some(at)))
  }

  predicate AllRead(d: Def, run: Run) {
    run.got.Keys == d.sources && (d.hasExternal ==> run.fetchedAt.Some?)
  }

  function Stamp(run: Run): nat {
    if run.fetchedAt.Some? then run.fetchedAt.value else 0
  }

  /** The skip-write test: it compares data, fingerprints and fetch times, but not `v`. */
  predicate SkipsWrite(current: Envelope, run: Run, value: Value) {
    current.data == Some(value) && current.fps == run.got && current.fetchedAt == Stamp(run)
  }

  function Save(d: Def, st: State): State
    requires st.g.inFlight.Some? && Expected(d, st.g.inFlight.value.got).Some?
  {
    var run := st.g.inFlight.value;
    var value := Expected(d, run.got).value;
    var env := if SkipsWrite(st.persisted, run, value) then st.persisted
               else Envelope(d.version, run.got, Stamp(run), Some(value));
    st.(persisted := env, g := st.g.(inFlight := Some(run.(outcome := Some(env)))))
  }

  // ---------------------------------------------------------------------------------------------
  // Events and runs
  // ---------------------------------------------------------------------------------------------

  datatype Event =
    | StoreWrite(s: Source, h: Fp)
    | Publish(s: Source, h: Fp)
    | Tick(ttlOk: bool)
    | GetStarts(id: nat)
    | GetInstalls(call: Get)
    | Verified(s: Source, h: Fp)
    | GetFinishes(call: Get)
    | RefreshCalled(bypass: bool)
    | ChannelInvalidated
    | DebounceFires
    | RetryFires
    | ReadsSource(s: Source)
    | FetchesExternal
    | Saves
    | Succeeds
    | Fails(error: ComputeError)

  predicate InProgress(st: State) {
    st.g.inFlight.Some? && st.g.inFlight.value.outcome.None?
  }

  predicate Enabled(d: Def, st: State, e: Event) {
    match e
    case StoreWrite(s, _) => s in d.sources
    case Publish(s, _) => s in d.sources
    case Tick(_) => true
    case GetStarts(id) => forall x :: x in st.gets ==> x.id != id
    case GetInstalls(x) => x in st.gets && !x.verifying
    case Verified(s, _) => s in d.sources && exists x :: x in st.gets && x.verifying
    case GetFinishes(x) => x in st.gets && x.verifying
    case RefreshCalled(_) => true
    case ChannelInvalidated => d.hasExternal
    case DebounceFires => st.g.debounce
    case RetryFires => st.g.retries > 0
    case ReadsSource(s) => s in d.sources && s in st.actual && InProgress(st) && s !in st.g.inFlight.value.got
    case FetchesExternal => d.hasExternal && InProgress(st) && st.g.inFlight.value.fetchedAt.None?
    case Saves => InProgress(st) && AllRead(d, st.g.inFlight.value) && Expected(d, st.g.inFlight.value.got).Some?
    case Succeeds => st.g.inFlight.Some? && st.g.inFlight.value.outcome.Some?
    case Fails(_) => InProgress(st)
  }

  function Step(d: Def, st: State, e: Event): State
    requires Enabled(d, st, e)
  {
    match e
    case StoreWrite(s, h) => st.(actual := st.actual[s := h])
    case Publish(s, h) => st.(slots := st.slots[s := h], g := Observe(st.g, s, h))
    case Tick(ok) => st.(ttlOk := ok)
    case GetStarts(id) =>
      st.(g := EnsureSubscribed(d, st.g, st.slots), gets := st.gets + {Get(id, st.persisted, false)})
    case GetInstalls(x) =>
      st.(g := Install(st.g, x.env),
          gets := st.gets - {x} + if x.env.data.None? then {} else {x.(verifying := true)})
    case Verified(s, h) => st.(g := st.g.(observed := st.g.observed[s := h]))
    case GetFinishes(x) => st.(g := Finish(d, st.g, x.env, st.ttlOk), gets := st.gets - {x})
    case RefreshCalled(bypass) => st.(g := Refresh(st.g, bypass))
    case ChannelInvalidated => st.(g := Invalidate(st.g))
    case DebounceFires => st.(g := OnDebounce(d, st.g, st.ttlOk))
    case RetryFires => st.(g := OnRetry(st.g))
    case ReadsSource(s) => ReadSource(st, s)
    case FetchesExternal => FetchExternal(st)
    case Saves => Save(d, st)
    case Succeeds => st.(g := Settle(d, st.g, Success(st.g.inFlight.value.outcome.value), st.ttlOk))
    case Fails(error) => st.(g := Settle(d, st.g, Failure(error), st.ttlOk))
  }

  predicate RunOf(d: Def, st: State, es: seq<Event>)
    decreases |es|
  {
    es == [] || (Enabled(d, st, es[0]) && RunOf(d, Step(d, st, es[0]), es[1..]))
  }

  function After(d: Def, st: State, es: seq<Event>): State
    requires RunOf(d, st, es)
    decreases |es|
  {
    if es == [] then st else After(d, Step(d, st, es[0]), es[1..])
  }

  /** A session that has just begun: nothing observed, an envelope row and cache slots left from before. */
  predicate Initial(d: Def, st: State) {
    && st.actual.Keys == d.sources
    && st.slots.Keys <= d.sources
    && (forall s :: s in st.slots ==> st.slots[s] <= st.actual[s])
    && st.persisted.fps.Keys <= d.sources
    && (forall s :: s in st.persisted.fps ==> st.persisted.fps[s] <= st.actual[s])
    && st.gets == {}
    && st.g == COLD_ENGINE
  }

  lemma RunCons(d: Def, st: State, e: Event, es: seq<Event>)
    requires Enabled(d, st, e) && RunOf(d, Step(d, st, e), es)
    ensures RunOf(d, st, [e] + es) && After(d, st, [e] + es) == After(d, Step(d, st, e), es)
  {
    assert ([e] + es)[1..] == es;
  }

  lemma {:induction false} RunAppend(d: Def, st: State, xs: seq<Event>, ys: seq<Event>)
    requires RunOf(d, st, xs) && RunOf(d, After(d, st, xs), ys)
    ensures RunOf(d, st, xs + ys) && After(d, st, xs + ys) == After(d, After(d, st, xs), ys)
    decreases |xs|
  {
    if xs == [] {
      assert xs + ys == ys;
    } else {
      RunAppend(d, Step(d, st, xs[0]), xs[1..], ys);
      assert (xs + ys)[1..] == xs[1..] + ys;
    }
  }

  lemma Cons3(d: Def, st: State, e0: Event, e1: Event, e2: Event, rest: seq<Event>) returns (es: seq<Event>)
    requires Enabled(d, st, e0) && Enabled(d, Step(d, st, e0), e1)
    requires Enabled(d, Step(d, Step(d, st, e0), e1), e2)
    requires RunOf(d, Step(d, Step(d, Step(d, st, e0), e1), e2), rest)
    ensures RunOf(d, st, es)
    ensures After(d, st, es) == After(d, Step(d, Step(d, Step(d, st, e0), e1), e2), rest)
    ensures es == [e0, e1, e2] + rest
  {
    RunCons(d, Step(d, Step(d, st, e0), e1), e2, rest);
    RunCons(d, Step(d, st, e0), e1, [e2] + rest);
    RunCons(d, st, e0, [e1] + ([e2] + rest));
    es := [e0] + ([e1] + ([e2] + rest));
  }
}
