/** Whether one aggregation comes to rest once nothing outside it happens any more. */
module AggregationHalting {
  import opened Wrappers
  import opened Aggregation

  /** The events the instance produces by itself: its timers, and the steps of its own compute. */
  predicate Internal(e: Event) {
    e.DebounceFires? || e.RetryFires? || e.ReadsSource? || e.FetchesExternal? || e.Saves? || e.Succeeds? || e.Fails?
  }

  /** Nothing happens outside, except that an external's age may cross its TTL at any moment. */
  predicate Undisturbed(es: seq<Event>) {
    forall i :: 0 <= i < |es| ==> Internal(es[i]) || es[i].Tick?
  }

  /** How many events of its own the instance has had. */
  function Own(es: seq<Event>): nat {
    if es == [] then 0 else Bit(Internal(es[0])) + Own(es[1..])
  }

  /** Every source row exists and has a content hash, so a read leaves its cache slot in step with it. */
  predicate AllHashed(d: Def, st: State) {
    forall s :: s in d.sources && s in st.actual ==> st.actual[s] != NO_HASH
  }

  predicate Sane(g: Engine) {
    g.failures <= MAX_BACKGROUND_RETRIES && (g.rerun ==> g.inFlight.Some?)
  }

  /** The sources whose next read will miss the cache and notify the instance of its own read. */
  function Unsynced(d: Def, st: State): set<Source> {
    set s | s in d.sources && s in st.actual && !CacheHit(st, s)
  }

  /** What one settled compute, armed timer or queued rerun can still set in motion. A settlement may give
      back the whole failure budget, so a token outweighs it; a read that notifies outweighs the debounce it
      arms; and a retry is armed only by spending budget. */
  function EngineRank(g: Engine): nat
    requires Sane(g)
  {
    7 * (Bit(g.debounce) + g.retries + Bit(g.rerun) + Bit(g.inFlight.Some?))
    + 2 * (MAX_BACKGROUND_RETRIES - g.failures) + Bit(g.debounce) + g.retries
  }

  function Rank(d: Def, st: State): nat
    requires Sane(st.g)
  {
    9 * |Unsynced(d, st)| + EngineRank(st.g)
  }

  /** The steps left in the compute in flight. */
  function StepsLeft(d: Def, g: Engine): nat {
    if g.inFlight.None? then 0
    else
      var run := g.inFlight.value;
      |d.sources - run.got.Keys| + Bit(run.fetchedAt.None?) + Bit(run.outcome.None?)
  }

  /** `w * x`, by repeated addition. */
  function Times(w: nat, x: nat): nat {
    if x == 0 then 0 else w + Times(w, x - 1)
  }

  /** A bound on the events of any internal run from `st`. */
  function Bound(d: Def, st: State): nat
    requires Sane(st.g)
  {
    Times(|d.sources| + 3, Rank(d, st)) + StepsLeft(d, st.g)
  }

  lemma SubsetSize<T>(a: set<T>, b: set<T>)
    requires a <= b
    ensures |a| <= |b|
  {
    assert b == a + (b - a);
  }

  lemma FewSteps(d: Def, g: Engine)
    ensures StepsLeft(d, g) <= |d.sources| + 2
  {
    if g.inFlight.Some? {
      SubsetSize(d.sources - g.inFlight.value.got.Keys, d.sources);
    }
  }

  predicate Drives(e: Event) {
    e.DebounceFires? || e.RetryFires? || e.Succeeds? || e.Fails?
  }

  lemma TimerSpends(d: Def, g: Engine, ttlOk: bool)
    requires Sane(g)
    ensures g.debounce ==> Sane(OnDebounce(d, g, ttlOk)) && EngineRank(OnDebounce(d, g, ttlOk)) < EngineRank(g)
    ensures g.retries > 0 ==> Sane(OnRetry(g)) && EngineRank(OnRetry(g)) < EngineRank(g)
  {
  }

  lemma SettlementSpends(d: Def, g: Engine, result: Result<Envelope, ComputeError>, ttlOk: bool)
    requires Sane(g) && g.inFlight.Some?
    ensures Sane(Settle(d, g, result, ttlOk)) && EngineRank(Settle(d, g, result, ttlOk)) < EngineRank(g)
  {
  }

  lemma DriveSpends(d: Def, st: State, e: Event)
    requires Sane(st.g) && Enabled(d, st, e) && Drives(e)
    ensures var g := Step(d, st, e).g; Sane(g) && EngineRank(g) < EngineRank(st.g)
  {
    match e
    case Succeeds => SettlementSpends(d, st.g, Success(st.g.inFlight.value.outcome.value), st.ttlOk);
    case Fails(error) => SettlementSpends(d, st.g, Failure(error), st.ttlOk);
    case _ => TimerSpends(d, st.g, st.ttlOk);
  }

  lemma DriveKeepsSync(d: Def, st: State, e: Event)
    requires Enabled(d, st, e) && Drives(e)
    ensures Step(d, st, e) == st.(g := Step(d, st, e).g)
    ensures Unsynced(d, Step(d, st, e)) == Unsynced(d, st)
  {
  }

  lemma ReadSyncs(d: Def, st: State, s: Source)
    requires AllHashed(d, st) && Enabled(d, st, ReadsSource(s))
    ensures Unsynced(d, ReadSource(st, s)) == Unsynced(d, st) - {s}
    ensures s in Unsynced(d, st) <==> !CacheHit(st, s)
  {
    var f := ReadSource(st, s);
    forall x | x in d.sources && x in st.actual && x != s ensures CacheHit(f, x) == CacheHit(st, x) {
    }
  }

  lemma ReadTakesAStep(d: Def, g: Engine, s: Source, h: Fp)
    requires g.inFlight.Some? && s in d.sources && s !in g.inFlight.value.got
    ensures var read := g.(inFlight := Some(g.inFlight.value.(got := g.inFlight.value.got[s := h])));
            StepsLeft(d, read) < StepsLeft(d, g) && StepsLeft(d, Observe(read, s, h)) < StepsLeft(d, g)
  {
    var got := g.inFlight.value.got;
    assert d.sources - got[s := h].Keys == d.sources - got.Keys - {s};
  }

  lemma ReadSpends(d: Def, st: State, s: Source)
    requires Sane(st.g) && AllHashed(d, st) && Enabled(d, st, ReadsSource(s))
    ensures var f := ReadSource(st, s);
            && Sane(f.g) && Rank(d, f) <= Rank(d, st) && StepsLeft(d, f.g) < StepsLeft(d, st.g)
  {
    ReadSyncs(d, st, s);
    ReadTakesAStep(d, st.g, s, st.actual[s]);
  }

  lemma SameRows(d: Def, st: State, f: State)
    requires f.slots == st.slots && f.actual == st.actual
    ensures Unsynced(d, f) == Unsynced(d, st)
  {
  }

  lemma Dated(d: Def, g: Engine, g': Engine, at: nat, cache: Option<nat>)
    requires Sane(g) && g.inFlight.Some? && g.inFlight.value.fetchedAt.None?
    requires g' == g.(inFlight := Some(g.inFlight.value.(fetchedAt := Some(at))), externalCache := cache)
    ensures Sane(g') && EngineRank(g') == EngineRank(g) && StepsLeft(d, g') < StepsLeft(d, g)
  {
  }

  lemma FetchSpends(d: Def, st: State)
    requires Sane(st.g) && Enabled(d, st, FetchesExternal)
    ensures var f := FetchExternal(st);
            && Sane(f.g) && Rank(d, f) == Rank(d, st) && StepsLeft(d, f.g) < StepsLeft(d, st.g)
  {
    var f := FetchExternal(st);
    SameRows(d, st, f);
    Dated(d, st.g, f.g, LoadedAt(st), Some(LoadedAt(st)));
  }

  lemma SaveSpends(d: Def, st: State)
    requires Sane(st.g) && Enabled(d, st, Saves)
    ensures var f := Save(d, st);
            && Sane(f.g) && Rank(d, f) == Rank(d, st) && StepsLeft(d, f.g) < StepsLeft(d, st.g)
  {
    SameRows(d, st, Save(d, st));
  }

  lemma {:induction false} TimesDrops(w: nat, x: nat, y: nat)
    requires y < x
    ensures Times(w, y) + w <= Times(w, x)
  {
    if y < x - 1 {
      TimesDrops(w, x - 1, y);
    }
  }

  lemma StepSpends(d: Def, st: State, e: Event)
    requires Sane(st.g) && AllHashed(d, st) && Enabled(d, st, e) && Internal(e)
    ensures var f := Step(d, st, e); Sane(f.g) && Bound(d, f) < Bound(d, st)
  {
    var f := Step(d, st, e);
    FewSteps(d, f.g);
    if Drives(e) {
      DriveSpends(d, st, e);
      DriveKeepsSync(d, st, e);
    } else {
      match e
      case ReadsSource(s) => ReadSpends(d, st, s);
      case FetchesExternal => FetchSpends(d, st);
      case Saves => SaveSpends(d, st);
    }
    if Rank(d, f) < Rank(d, st) {
      TimesDrops(|d.sources| + 3, Rank(d, st), Rank(d, f));
    }
  }

  lemma InternalKeepsSources(d: Def, st: State, e: Event)
    requires Enabled(d, st, e) && Internal(e)
    ensures Step(d, st, e).actual == st.actual
  {
  }

  lemma TickSpendsNothing(d: Def, st: State, f: State)
    requires Sane(st.g) && f.g == st.g && f.slots == st.slots && f.actual == st.actual
    ensures Bound(d, f) == Bound(d, st)
  {
    SameRows(d, st, f);
    assert Rank(d, f) == Rank(d, st);
  }

  lemma UndisturbedStepSpends(d: Def, st: State, e: Event)
    requires Sane(st.g) && AllHashed(d, st) && Enabled(d, st, e) && (Internal(e) || e.Tick?)
    ensures var f := Step(d, st, e);
            Sane(f.g) && AllHashed(d, f) && Bit(Internal(e)) + Bound(d, f) <= Bound(d, st)
  {
    if e.Tick? {
      TickSpendsNothing(d, st, Step(d, st, e));
    } else {
      StepSpends(d, st, e);
      InternalKeepsSources(d, st, e);
    }
  }

  /** No retry storm: with every source hashed and nothing happening outside, any mix of successes and
      failures, timers, queued reruns and expiring externals has at most `Bound` events of the instance's own. */
  lemma {:induction false} NoRetryStorm(d: Def, st: State, es: seq<Event>)
    requires Sane(st.g) && AllHashed(d, st) && RunOf(d, st, es) && Undisturbed(es)
    ensures Own(es) <= Bound(d, st)
    ensures var f := After(d, st, es); Sane(f.g) && AllHashed(d, f)
    decreases |es|
  {
    if es != [] {
      UndisturbedStepSpends(d, st, es[0]);
      assert Undisturbed(es[1..]);
      NoRetryStorm(d, Step(d, st, es[0]), es[1..]);
    }
  }

  /** Nothing in flight and nothing armed. */
  predicate Quiet(st: State) {
    st.g.inFlight.None? && !st.g.debounce && st.g.retries == 0
  }

  /** A run that cannot be continued has come to rest: no compute is ever stuck. */
  lemma StoppedIffQuiet(d: Def, st: State)
    ensures (forall e :: Internal(e) ==> !Enabled(d, st, e)) <==> Quiet(st)
  {
    if forall e :: Internal(e) ==> !Enabled(d, st, e) {
      assert !Enabled(d, st, DebounceFires) && !Enabled(d, st, RetryFires);
      assert !Enabled(d, st, Succeeds) && !Enabled(d, st, Fails(Other));
    }
  }

  // ---------------------------------------------------------------------------------------------
  // A source without a hash
  // ---------------------------------------------------------------------------------------------

  /** A first compute is in flight, with nothing of the current version stored; the retry budget is spent,
      and no retry or debounce is armed. */
  predicate FirstCompute(d: Def, st: State) {
    && d.sources <= st.actual.Keys
    && st.g.subscribed && st.g.inFlight == Some(NEW_RUN)
    && (st.g.lastEnvelope.Some? ==> st.g.lastEnvelope.value.v != d.version)
    && !st.g.debounce && !st.g.rerun && st.g.retries == 0 && st.g.failures == MAX_BACKGROUND_RETRIES
  }

  lemma FailedRead(d: Def, st: State, u: Source) returns (f: State)
    requires FirstCompute(d, st) && u in d.sources && st.actual[u] == NO_HASH
    ensures Enabled(d, st, ReadsSource(u))
    ensures Enabled(d, Step(d, st, ReadsSource(u)), Fails(Other))
    ensures Enabled(d, Step(d, Step(d, st, ReadsSource(u)), Fails(Other)), DebounceFires)
    ensures f == Step(d, Step(d, Step(d, st, ReadsSource(u)), Fails(Other)), DebounceFires)
    ensures FirstCompute(d, f) && f.actual == st.actual
  {
    var s1 := ReadSource(st, u);
    assert s1.g.debounce && InProgress(s1);
    var s2 := s1.(g := Settle(d, s1.g, Failure(Other), s1.ttlOk));
    f := s2.(g := OnDebounce(d, s2.g, s2.ttlOk));
  }

  /** A source whose row has no hash never matches its cache slot, so each failing compute re-arms its own
      debounce by reading it: the compute is restarted `n` times, for every `n`, with nothing happening
      outside and the retry budget long spent. */
  lemma {:induction false} Storm(d: Def, st: State, u: Source, n: nat) returns (es: seq<Event>)
    requires FirstCompute(d, st) && u in d.sources && st.actual[u] == NO_HASH
    ensures RunOf(d, st, es) && Undisturbed(es) && Own(es) == 3 * n
    ensures FirstCompute(d, After(d, st, es))
    decreases n
  {
    if n == 0 {
      es := [];
    } else {
      var f := FailedRead(d, st, u);
      var rest := Storm(d, f, u, n - 1);
      es := Cons3(d, st, ReadsSource(u), Fails(Other), DebounceFires, rest);
      OwnOfThree(ReadsSource(u), Fails(Other), DebounceFires, rest);
    }
  }

  lemma OwnOfThree(e0: Event, e1: Event, e2: Event, rest: seq<Event>)
    requires Internal(e0) && Internal(e1) && Internal(e2)
    ensures Own([e0, e1, e2] + rest) == 3 + Own(rest)
  {
    var es := [e0, e1, e2] + rest;
    assert es[1..] == [e1, e2] + rest && ([e1, e2] + rest)[1..] == [e2] + rest && ([e2] + rest)[1..] == rest;
    assert Own([e2] + rest) == 1 + Own(rest);
    assert Own([e1, e2] + rest) == 2 + Own(rest);
  }

  /** Such a compute is where an ordinary first `get()` of an aggregation that has never been stored ends up
      when its compute fails: the empty envelope is installed, and three retries have been spent. */
  lemma FirstComputeReached(d: Def, st: State, id: nat) returns (es: seq<Event>)
    requires Initial(d, st) && st.persisted.data.None? && st.persisted.v != d.version
    ensures RunOf(d, st, es) && FirstCompute(d, After(d, st, es)) && After(d, st, es).actual == st.actual
  {
    var x := Get(id, st.persisted, false);
    var s1 := st.(g := EnsureSubscribed(d, st.g, st.slots), gets := {x});
    var g := s1.g.(lastEnvelope := Some(st.persisted), inFlight := Some(NEW_RUN));
    var s2 := st.(g := g);
    assert st.gets + {x} == {x} && Step(d, st, GetStarts(id)) == s1;
    assert Step(d, s1, GetInstalls(x)) == s2;
    es := RetriesSpent(d, s2);
    RunCons(d, s1, GetInstalls(x), es);
    RunCons(d, st, GetStarts(id), [GetInstalls(x)] + es);
    es := [GetStarts(id)] + ([GetInstalls(x)] + es);
  }

  /** A failure and its retry: the compute is back where it was, with one retry less to come. */
  lemma {:induction false} RetriesSpent(d: Def, st: State) returns (es: seq<Event>)
    requires st.g.inFlight == Some(NEW_RUN) && !st.g.rerun && st.g.retries == 0
    requires st.g.failures <= MAX_BACKGROUND_RETRIES
    ensures RunOf(d, st, es)
    ensures After(d, st, es).g == st.g.(failures := MAX_BACKGROUND_RETRIES, lastError := After(d, st, es).g.lastError)
    ensures After(d, st, es).actual == st.actual
    decreases MAX_BACKGROUND_RETRIES - st.g.failures
  {
    if st.g.failures == MAX_BACKGROUND_RETRIES {
      es := [];
    } else {
      var g1 := st.g.(inFlight := None, lastError := Some(Other), failures := st.g.failures + 1, retries := 1);
      var g2 := g1.(inFlight := Some(NEW_RUN), retries := 0);
      assert Step(d, st, Fails(Other)) == st.(g := g1) && Step(d, st.(g := g1), RetryFires) == st.(g := g2);
      es := RetriesSpent(d, st.(g := g2));
      RunCons(d, st.(g := g1), RetryFires, es);
      RunCons(d, st, Fails(Other), [RetryFires] + es);
      es := [Fails(Other)] + ([RetryFires] + es);
    }
  }

  ghost predicate Halts(d: Def, st: State) {
    exists n: nat :: HaltsWithin(d, st, n)
  }

  ghost predicate HaltsWithin(d: Def, st: State, n: nat) {
    forall es :: RunOf(d, st, es) && Undisturbed(es) ==> Own(es) <= n
  }

  /** A first compute with a spent budget comes to rest, whatever happens inside it, exactly when every
      source has a content hash. */
  lemma HaltsIff(d: Def, st: State)
    requires FirstCompute(d, st)
    ensures Halts(d, st) <==> AllHashed(d, st)
  {
    if AllHashed(d, st) {
      forall es | RunOf(d, st, es) && Undisturbed(es) ensures Own(es) <= Bound(d, st) {
        NoRetryStorm(d, st, es);
      }
      assert HaltsWithin(d, st, Bound(d, st));
    } else if Halts(d, st) {
      var u :| u in d.sources && u in st.actual && st.actual[u] == NO_HASH;
      var n: nat :| HaltsWithin(d, st, n);
      var es := Storm(d, st, u, n + 1);
      assert false;
    }
  }
}
