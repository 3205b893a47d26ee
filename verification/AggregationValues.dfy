/** What a fresh answer means, when a skipped write keeps an old version, and when a bypass is honoured. */
module AggregationValues {
  import opened Wrappers
  import opened Aggregation

  // ---------------------------------------------------------------------------------------------
  // Fresh means correct
  // ---------------------------------------------------------------------------------------------

  /** An envelope of the current version holds what `compute` and the schema make of its fingerprints. */
  ghost predicate Honest(d: Def, env: Envelope) {
    env.v == d.version && env.data.Some? ==> env.fps.Keys == d.sources && Expected(d, env.fps) == env.data
  }

  ghost predicate AllHonest(d: Def, st: State) {
    && Honest(d, st.persisted)
    && (st.g.lastEnvelope.Some? ==> Honest(d, st.g.lastEnvelope.value))
    && (forall x :: x in st.gets ==> Honest(d, x.env))
    && (st.g.inFlight.Some? && st.g.inFlight.value.outcome.Some? ==> Honest(d, st.g.inFlight.value.outcome.value))
  }

  lemma SaveKeepsHonest(d: Def, st: State)
    requires AllHonest(d, st) && Enabled(d, st, Saves)
    ensures AllHonest(d, Save(d, st))
  {
  }

  lemma InputKeepsHonest(d: Def, st: State, e: Event)
    requires AllHonest(d, st) && Enabled(d, st, e)
    requires e.ReadsSource? || e.FetchesExternal?
    ensures AllHonest(d, Step(d, st, e))
  {
  }

  lemma SettleKeepsHonest(d: Def, st: State, e: Event)
    requires AllHonest(d, st) && Enabled(d, st, e)
    requires e.Succeeds? || e.Fails?
    ensures AllHonest(d, Step(d, st, e))
  {
  }

  lemma GetKeepsHonest(d: Def, st: State, e: Event)
    requires AllHonest(d, st) && Enabled(d, st, e)
    requires e.GetStarts? || e.GetInstalls? || e.GetFinishes? || e.Verified?
    ensures AllHonest(d, Step(d, st, e))
  {
  }

  lemma WorldKeepsHonest(d: Def, st: State, e: Event)
    requires AllHonest(d, st) && Enabled(d, st, e)
    requires e.StoreWrite? || e.Publish? || e.Tick?
    ensures AllHonest(d, Step(d, st, e))
  {
  }

  /** `g` still holds the envelope it held, and its compute is the same one or a new one. */
  predicate SameEnvelopes(g: Engine, g': Engine) {
    g'.lastEnvelope == g.lastEnvelope && (g'.inFlight == g.inFlight || g'.inFlight == Some(NEW_RUN))
  }

  lemma EngineKeepsHonest(d: Def, st: State, g': Engine)
    requires AllHonest(d, st) && SameEnvelopes(st.g, g')
    ensures AllHonest(d, st.(g := g'))
  {
  }

  lemma TriggersKeepEnvelopes(d: Def, g: Engine, ttlOk: bool, bypass: bool)
    ensures SameEnvelopes(g, Refresh(g, bypass)) && SameEnvelopes(g, Invalidate(g))
    ensures SameEnvelopes(g, OnDebounce(d, g, ttlOk)) && (g.retries > 0 ==> SameEnvelopes(g, OnRetry(g)))
  {
  }

  lemma StepKeepsHonest(d: Def, st: State, e: Event)
    requires AllHonest(d, st) && Enabled(d, st, e)
    ensures AllHonest(d, Step(d, st, e))
  {
    if e.Saves? {
      SaveKeepsHonest(d, st);
    } else if e.ReadsSource? || e.FetchesExternal? {
      InputKeepsHonest(d, st, e);
    } else if e.Succeeds? || e.Fails? {
      SettleKeepsHonest(d, st, e);
    } else if e.StoreWrite? || e.Publish? || e.Tick? {
      WorldKeepsHonest(d, st, e);
    } else if e.GetStarts? || e.GetInstalls? || e.GetFinishes? || e.Verified? {
      GetKeepsHonest(d, st, e);
    } else {
      TriggersKeepEnvelopes(d, st.g, st.ttlOk, e == RefreshCalled(true));
      EngineKeepsHonest(d, st, Step(d, st, e).g);
    }
  }

  lemma {:induction false} RunKeepsHonest(d: Def, st: State, es: seq<Event>)
    requires AllHonest(d, st) && RunOf(d, st, es)
    ensures AllHonest(d, After(d, st, es))
    decreases |es|
  {
    if es != [] {
      StepKeepsHonest(d, st, es[0]);
      RunKeepsHonest(d, Step(d, st, es[0]), es[1..]);
    }
  }

  /** The answer `get()` gives once it has verified: the data of its envelope, and whether it is stale. */
  function Answer(d: Def, st: State, call: Get): (Option<Value>, bool) {
    (call.env.data, !IsFresh(d, st.g, call.env, st.ttlOk))
  }

  /** Freshness soundness over every run, orderly or not: data reported as not stale, with every source
      observed at a content hash, is the schema-parsed result of `compute` on the sources at their observed
      fingerprints. A source without a hash says nothing about its content. */
  lemma FreshMeansCorrect(d: Def, st: State, es: seq<Event>, call: Get)
    requires !d.hasExternal && AllHonest(d, st) && RunOf(d, st, es)
    requires Enabled(d, After(d, st, es), GetFinishes(call)) && call.env.data.Some?
    requires var observed := After(d, st, es).g.observed;
             d.sources <= observed.Keys && forall s :: s in d.sources ==> observed[s] != NO_HASH
    ensures var f := After(d, st, es);
            var (data, stale) := Answer(d, f, call);
            !stale ==> data == Expected(d, map s | s in d.sources :: f.g.observed[s])
  {
    RunKeepsHonest(d, st, es);
    var f := After(d, st, es);
    if IsFresh(d, f.g, call.env, f.ttlOk) {
      assert call.env.fps == map s | s in d.sources :: f.g.observed[s];
    }
  }

  // ---------------------------------------------------------------------------------------------
  // What a compute stores
  // ---------------------------------------------------------------------------------------------

  /** The result is the schema's reading of what `compute` makes of every source at its fingerprint. */
  lemma ExpectedIs(d: Def, fps: map<Source, Fp>, value: Value)
    ensures Expected(d, fps) == Some(value) <==>
            exists inputs: map<Source, Value>, raw ::
              && inputs.Keys == fps.Keys && (forall s :: s in fps ==> inputs[s] == d.content(s, fps[s]))
              && d.compute(inputs) == Some(raw) && d.parse(raw) == Some(value)
  {
    var inputs := map s | s in fps :: d.content(s, fps[s]);
    if Expected(d, fps) == Some(value) {
      var raw := d.compute(inputs).value;
      assert inputs.Keys == fps.Keys && d.compute(inputs) == Some(raw) && d.parse(raw) == Some(value);
    }
    forall other: map<Source, Value> | other.Keys == fps.Keys && forall s :: s in fps ==> other[s] == d.content(s, fps[s])
      ensures other == inputs
    {
    }
  }

  /** Whether it writes or skips, a compute leaves its own result stored, with the fingerprints and the fetch
      time it has read, and installs it; and it changes nothing exactly when all three were stored already. */
  lemma SaveStoresTheResult(d: Def, st: State)
    requires Enabled(d, st, Saves)
    ensures var run := st.g.inFlight.value;
            var f := Step(d, st, Saves);
            var stored := (env: Envelope) =>
              env.data == Expected(d, run.got) && env.fps == run.got
              && env.fetchedAt == if run.fetchedAt.Some? then run.fetchedAt.value else 0;
            && stored(f.persisted) && (f.persisted == st.persisted <==> stored(st.persisted))
            && Enabled(d, f, Succeeds) && Step(d, f, Succeeds).g.lastEnvelope == Some(f.persisted)
  {
  }

  /** A compute loads the external once: from its cache within the TTL, else anew, later than anything loaded
      before, and what it loads is what the cache then holds. */
  lemma FetchReusesIff(d: Def, st: State)
    requires Enabled(d, st, FetchesExternal)
    requires st.g.externalCache.Some? ==> st.g.externalCache.value <= st.clock
    ensures var f := Step(d, st, FetchesExternal);
            && f.g.inFlight.Some? && f.g.inFlight.value.fetchedAt == f.g.externalCache && f.g.externalCache.Some?
            && (f.g.externalCache == st.g.externalCache <==> st.g.externalCache.Some? && st.ttlOk)
            && (f.g.externalCache != st.g.externalCache ==> st.clock < f.g.externalCache.value <= f.clock)
  {
  }

  /** When an envelope is out of date: another version, a source seen at another fingerprint, an external never
      fetched or fetched too long ago. Then, and only then, a `get()` with nothing in flight starts a compute. */
  lemma GetRecomputesIff(d: Def, st: State, x: Get)
    requires Enabled(d, st, GetFinishes(x)) && st.g.inFlight.None?
    ensures Step(d, st, GetFinishes(x)).g.inFlight.Some? <==>
            || x.env.v != d.version
            || (exists s :: s in d.sources && s in st.g.observed
                  && st.g.observed[s] != (if s in x.env.fps then x.env.fps[s] else NO_HASH))
            || (d.hasExternal && (x.env.fetchedAt == 0 || !st.ttlOk))
  {
  }

  /** The same for a debounce, on the envelope installed last. */
  lemma DebounceRecomputesIff(d: Def, st: State)
    requires st.g.debounce && st.g.inFlight.None?
    ensures Step(d, st, DebounceFires).g.inFlight.Some? <==>
            st.g.lastEnvelope.Some? ==>
              var env := st.g.lastEnvelope.value;
              || env.v != d.version
              || (exists s :: s in d.sources && s in st.g.observed
                    && st.g.observed[s] != (if s in env.fps then env.fps[s] else NO_HASH))
              || (d.hasExternal && (env.fetchedAt == 0 || !st.ttlOk))
  {
  }

  /** What a settlement comes to, field by field: the envelope and the error, the failures counted since the last
      success, the queued rerun, and a retry for each of the first three real failures that nothing else follows. */
  lemma SettlementMeans(d: Def, g: Engine, result: Result<Envelope, ComputeError>, ttlOk: bool)
    ensures var g' := Settle(d, g, result, ttlOk);
            var retried := !g.rerun && result == Failure(Other) && g.failures < 3;
            && g'.lastEnvelope == (if result.Success? then Some(result.value) else g.lastEnvelope)
            && g'.lastError == (if result.Success? then None else Some(result.error))
            && g'.failures == (if result.Success? then 0 else if retried then g.failures + 1 else g.failures)
            && g'.retries == (if retried then g.retries + 1 else g.retries)
            && !g'.rerun && g'.debounce == g.debounce && g'.externalCache == g.externalCache
            && g'.subscribed == g.subscribed && g'.observed == g.observed
            && (g'.inFlight == if g.rerun && !LastIsFresh(d, g', ttlOk) then Some(NEW_RUN) else None)
  {
    assert result.Failure? ==> result.error.Cold? || result.error.Other?;
  }

  /** The stored envelope is the result of the sources at `fps`, it is installed, and no failure is left. */
  ghost predicate Holds(d: Def, fps: map<Source, Fp>, f: State) {
    && f.g.lastError.None? && f.g.failures == 0 && f.g.lastEnvelope == Some(f.persisted)
    && f.persisted.fps == fps && f.persisted.data == Expected(d, fps)
  }

  lemma SaveAndSucceed(d: Def, st: State) returns (es: seq<Event>)
    requires Enabled(d, st, Saves)
    ensures RunOf(d, st, es)
    ensures var f := After(d, st, es); f.actual == st.actual && Holds(d, st.g.inFlight.value.got, f)
  {
    var saved := Step(d, st, Saves);
    SaveStoresTheResult(d, st);
    SettlementMeans(d, saved.g, Success(saved.persisted), saved.ttlOk);
    RunCons(d, saved, Succeeds, []);
    RunCons(d, st, Saves, [Succeeds] + []);
    es := [Saves] + ([Succeeds] + []);
  }

  lemma FetchAndSave(d: Def, st: State) returns (es: seq<Event>)
    requires InProgress(st) && st.g.inFlight.value.got.Keys == d.sources
    requires Expected(d, st.g.inFlight.value.got).Some?
    ensures RunOf(d, st, es)
    ensures var f := After(d, st, es); f.actual == st.actual && Holds(d, st.g.inFlight.value.got, f)
  {
    if d.hasExternal && st.g.inFlight.value.fetchedAt.None? {
      var st' := Step(d, st, FetchesExternal);
      es := SaveAndSucceed(d, st');
      RunCons(d, st, FetchesExternal, es);
      es := [FetchesExternal] + es;
    } else {
      es := SaveAndSucceed(d, st);
    }
  }

  /** A read gives the source as it is, and disturbs nothing else the compute has. */
  lemma ReadGetsWhatIsThere(d: Def, st: State, s: Source)
    requires Enabled(d, st, ReadsSource(s))
    ensures var f := Step(d, st, ReadsSource(s));
            && f.actual == st.actual && f.persisted == st.persisted
            && f.g.inFlight == Some(st.g.inFlight.value.(got := st.g.inFlight.value.got[s := st.actual[s]]))
            && s in f.slots && f.slots[s] == st.actual[s]
  {
  }

  lemma {:induction false} ReadRest(d: Def, st: State, rest: set<Source>) returns (es: seq<Event>)
    requires st.actual.Keys == d.sources && Expected(d, st.actual).Some? && InProgress(st) && rest <= d.sources
    requires var got := st.g.inFlight.value.got;
             got.Keys == d.sources - rest && forall s :: s in got ==> got[s] == st.actual[s]
    ensures RunOf(d, st, es)
    ensures var f := After(d, st, es); f.actual == st.actual && Holds(d, st.actual, f)
    decreases rest
  {
    if s :| s in rest {
      var st' := Step(d, st, ReadsSource(s));
      ReadGetsWhatIsThere(d, st, s);
      es := ReadRest(d, st', rest - {s});
      RunCons(d, st, ReadsSource(s), es);
      es := [ReadsSource(s)] + es;
    } else {
      assert st.g.inFlight.value.got == st.actual;
      es := FetchAndSave(d, st);
    }
  }

  /** A compute left to itself catches up: whatever was stored and observed before, it ends with the result of the
      sources as they are. */
  lemma RecomputeCatchesUp(d: Def, st: State) returns (es: seq<Event>)
    requires st.actual.Keys == d.sources && Expected(d, st.actual).Some? && st.g.inFlight == Some(NEW_RUN)
    ensures RunOf(d, st, es)
    ensures var f := After(d, st, es); f.actual == st.actual && Holds(d, st.actual, f)
  {
    es := ReadRest(d, st, d.sources);
  }

  lemma {:induction false} UnusedId(gets: set<Get>) returns (id: nat)
    ensures forall x :: x in gets ==> x.id < id
  {
    if x :| x in gets {
      var above := UnusedId(gets - {x});
      id := if x.id < above then above else x.id + 1;
      assert forall y :: y in gets ==> y == x || y in gets - {x};
    } else {
      id := 0;
    }
  }

  /** Nothing holds the outside back: whatever is under way, any source can be written, the external can expire or
      be within its TTL again, and one more `get()` can start. */
  lemma OutsideIsFree(d: Def, st: State, s: Source, h: Fp, ok: bool) returns (id: nat)
    requires s in d.sources
    ensures Enabled(d, st, StoreWrite(s, h)) && Step(d, st, StoreWrite(s, h)).actual == st.actual[s := h]
    ensures Enabled(d, st, Tick(ok)) && Step(d, st, Tick(ok)).ttlOk == ok
    ensures Enabled(d, st, GetStarts(id))
    ensures exists x :: x in Step(d, st, GetStarts(id)).gets - st.gets && x.env == st.persisted
  {
    id := UnusedId(st.gets);
    var x := Get(id, st.persisted, false);
    assert x in Step(d, st, GetStarts(id)).gets - st.gets;
  }

  // ---------------------------------------------------------------------------------------------
  // A skipped write and the envelope version
  // ---------------------------------------------------------------------------------------------

  /** The skip-write test ignores `v`. A compute leaves an envelope of the current version exactly when the
      stored one already has it or the write is not skipped. */
  lemma SkippedWriteKeepsVersion(d: Def, st: State)
    requires Enabled(d, st, Saves)
    ensures var run := st.g.inFlight.value;
            var value := Expected(d, run.got).value;
            var f := Save(d, st);
            && Enabled(d, f, Succeeds)
            && var last := Step(d, f, Succeeds).g.lastEnvelope.value;
               && (last.v == d.version <==> st.persisted.v == d.version || !SkipsWrite(st.persisted, run, value))
               && (last.v != d.version ==> last == st.persisted)
  {
  }

  /** Every envelope anybody holds has another version than the definition. */
  ghost predicate AllOld(d: Def, st: State) {
    && st.persisted.v != d.version
    && (st.g.lastEnvelope.Some? ==> st.g.lastEnvelope.value.v != d.version)
    && (forall x :: x in st.gets ==> x.env.v != d.version)
    && (st.g.inFlight.Some? && st.g.inFlight.value.outcome.Some? ==> st.g.inFlight.value.outcome.value.v != d.version)
  }

  /** A save that finds the very same data, fingerprints and fetch time stored. */
  predicate Skipped(d: Def, st: State)
    requires Enabled(d, st, Saves)
  {
    SkipsWrite(st.persisted, st.g.inFlight.value, Expected(d, st.g.inFlight.value.got).value)
  }

  lemma SaveKeepsOld(d: Def, st: State)
    requires AllOld(d, st) && Enabled(d, st, Saves)
    ensures AllOld(d, Save(d, st)) <==> Skipped(d, st)
  {
  }

  lemma GetKeepsOld(d: Def, st: State, e: Event)
    requires AllOld(d, st) && Enabled(d, st, e)
    requires e.GetStarts? || e.GetInstalls? || e.GetFinishes? || e.Verified?
    ensures AllOld(d, Step(d, st, e))
  {
  }

  lemma SettleKeepsOld(d: Def, st: State, e: Event)
    requires AllOld(d, st) && Enabled(d, st, e) && (e.Succeeds? || e.Fails?)
    ensures AllOld(d, Step(d, st, e))
  {
  }

  lemma InputKeepsOld(d: Def, st: State, e: Event)
    requires AllOld(d, st) && Enabled(d, st, e)
    requires e.ReadsSource? || e.FetchesExternal? || e.StoreWrite? || e.Publish? || e.Tick?
    ensures AllOld(d, Step(d, st, e))
  {
  }

  lemma EngineKeepsOld(d: Def, st: State, g': Engine)
    requires AllOld(d, st) && SameEnvelopes(st.g, g')
    ensures AllOld(d, st.(g := g'))
  {
  }

  lemma StepKeepsOld(d: Def, st: State, e: Event)
    requires AllOld(d, st) && Enabled(d, st, e) && (e.Saves? ==> Skipped(d, st))
    ensures AllOld(d, Step(d, st, e))
  {
    if e.Saves? {
      SaveKeepsOld(d, st);
    } else if e.Succeeds? || e.Fails? {
      SettleKeepsOld(d, st, e);
    } else if e.GetStarts? || e.GetInstalls? || e.GetFinishes? || e.Verified? {
      GetKeepsOld(d, st, e);
    } else if e.ReadsSource? || e.FetchesExternal? || e.StoreWrite? || e.Publish? || e.Tick? {
      InputKeepsOld(d, st, e);
    } else {
      TriggersKeepEnvelopes(d, st.g, st.ttlOk, e == RefreshCalled(true));
      EngineKeepsOld(d, st, Step(d, st, e).g);
    }
  }

  /** Every save of the run is skipped. */
  ghost predicate AllSkipped(d: Def, st: State, es: seq<Event>)
    requires RunOf(d, st, es)
    decreases |es|
  {
    es == [] || ((es[0].Saves? ==> Skipped(d, st)) && AllSkipped(d, Step(d, st, es[0]), es[1..]))
  }

  /** After a version bump the instance is not fresh, however often it recomputes, until a save is not skipped. */
  lemma {:induction false} NeverFreshWhileSkipping(d: Def, st: State, es: seq<Event>)
    requires AllOld(d, st) && RunOf(d, st, es) && AllSkipped(d, st, es)
    ensures var f := After(d, st, es);
            && AllOld(d, f) && !LastIsFresh(d, f.g, f.ttlOk)
            && forall x :: x in f.gets ==> !IsFresh(d, f.g, x.env, f.ttlOk)
    decreases |es|
  {
    if es != [] {
      StepKeepsOld(d, st, es[0]);
      NeverFreshWhileSkipping(d, Step(d, st, es[0]), es[1..]);
    }
  }

  // ---------------------------------------------------------------------------------------------
  // Forced refetches
  // ---------------------------------------------------------------------------------------------

  predicate ForcesRefetch(e: Event) {
    e == RefreshCalled(true) || e == ChannelInvalidated
  }

  predicate SettlesCompute(e: Event) {
    e.Succeeds? || e.Fails?
  }

  /** The request has emptied the cache. It is honoured once a value has been loaded since, or when a compute
      that has everything to load is under way. */
  predicate Honoured(g: Engine) {
    g.externalCache.Some? || g.inFlight == Some(NEW_RUN)
  }

  /** While the compute `asked` was in flight at the request is still running: a rerun is queued, and the cache
      holds something exactly when that compute had yet to fetch, and has fetched since. */
  predicate Waiting(asked: Run, g: Engine) {
    && g.inFlight.Some? && g.rerun
    && (asked.fetchedAt.Some? ==> g.inFlight.value.fetchedAt.Some?)
    && (g.externalCache.Some? <==> asked.fetchedAt.None? && g.inFlight.value.fetchedAt.Some?)
  }

  lemma ComputeKeepsWaiting(d: Def, st: State, e: Event, asked: Run)
    requires Waiting(asked, st.g) && Enabled(d, st, e)
    requires e.ReadsSource? || e.FetchesExternal? || e.Saves?
    ensures Waiting(asked, Step(d, st, e).g)
  {
  }

  lemma OthersKeepWaiting(d: Def, st: State, e: Event, asked: Run)
    requires Waiting(asked, st.g) && Enabled(d, st, e) && !SettlesCompute(e) && !ForcesRefetch(e)
    requires !e.ReadsSource? && !e.FetchesExternal? && !e.Saves?
    ensures Waiting(asked, Step(d, st, e).g)
  {
  }

  lemma {:induction false} StillWaiting(d: Def, st: State, es: seq<Event>, asked: Run)
    requires Waiting(asked, st.g) && RunOf(d, st, es)
    requires forall i :: 0 <= i < |es| ==> !SettlesCompute(es[i]) && !ForcesRefetch(es[i])
    ensures Waiting(asked, After(d, st, es).g)
    decreases |es|
  {
    if es != [] {
      if es[0].ReadsSource? || es[0].FetchesExternal? || es[0].Saves? {
        ComputeKeepsWaiting(d, st, es[0], asked);
      } else {
        OthersKeepWaiting(d, st, es[0], asked);
      }
      StillWaiting(d, Step(d, st, es[0]), es[1..], asked);
    }
  }

  /** What the compute has come to, recorded. */
  function Recorded(st: State, e: Event): Engine
    requires st.g.inFlight.Some? && (e.Succeeds? ==> st.g.inFlight.value.outcome.Some?)
  {
    if e.Fails? then Record(st.g, Failure(e.error))
    else if e.Succeeds? then Record(st.g, Success(st.g.inFlight.value.outcome.value))
    else st.g
  }

  /** A forced refetch at any moment, with anything happening up to the settlement of the compute it met. With
      nothing in flight it starts a compute at once. Otherwise it is honoured exactly when that compute had yet
      to fetch the external and did, or the last envelope is not fresh when it settles, by success or failure:
      the queued rerun looks only at that envelope's own timestamps. */
  lemma RefetchHonouredIff(d: Def, st: State, e: Event, es: seq<Event>, z: Event)
    requires ForcesRefetch(e) && Enabled(d, st, e)
    requires RunOf(d, Step(d, st, e), es) && SettlesCompute(z)
    requires forall i :: 0 <= i < |es| ==> !SettlesCompute(es[i]) && !ForcesRefetch(es[i])
    requires Enabled(d, After(d, Step(d, st, e), es), z)
    ensures st.g.inFlight.None? ==> Honoured(Step(d, st, e).g)
    ensures var before := After(d, Step(d, st, e), es);
            st.g.inFlight.Some? ==>
              (Honoured(Step(d, before, z).g) <==>
                || (st.g.inFlight.value.fetchedAt.None? && before.g.inFlight.value.fetchedAt.Some?)
                || !LastIsFresh(d, Recorded(before, z), before.ttlOk))
  {
    if st.g.inFlight.Some? {
      var asked := st.g.inFlight.value;
      StillWaiting(d, Step(d, st, e), es, asked);
      var before := After(d, Step(d, st, e), es);
      WaitingSettles(d, before, z, asked);
    }
  }

  lemma WaitingSettles(d: Def, st: State, z: Event, asked: Run)
    requires Waiting(asked, st.g) && SettlesCompute(z) && Enabled(d, st, z)
    ensures Honoured(Step(d, st, z).g) <==>
              st.g.externalCache.Some? || !LastIsFresh(d, Recorded(st, z), st.ttlOk)
  {
    assert Step(d, st, z).g == Release(d, Recorded(st, z), st.ttlOk);
  }
}
