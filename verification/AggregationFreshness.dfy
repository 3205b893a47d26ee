/** What holds over every run of one aggregation: no source change is lost, and fresh means correct. */
module AggregationFreshness {
  import opened Wrappers
  import opened Aggregation

  // ---------------------------------------------------------------------------------------------
  // No lost source change
  // ---------------------------------------------------------------------------------------------

  /** Something will compare what has been observed of `s` with what is stored, whatever is observed now: a
      timer or rerun, a compute that has yet to read `s`, or a `get()` that carries the last envelope. */
  ghost predicate LooksAgain(st: State, s: Source) {
    || st.g.debounce || st.g.rerun || st.g.retries > 0
    || (st.g.inFlight.Some? && s !in st.g.inFlight.value.got)
    || (st.g.inFlight.None? && (st.g.lastEnvelope.Some? ==> Awaited(st, st.g.lastEnvelope.value)))
  }

  /** The events a well-behaved environment produces: a written source has a new fingerprint, notifications
      arrive in order, a verification answer is no older than what is observed and, if it is newer, something
      looks again, and a first `get()` does not find a compute under way. The if-and-only-ifs and runs at the
      end show how the code loses a change when one of these fails. */
  ghost predicate Orderly(d: Def, st: State, e: Event) {
    match e
    case StoreWrite(s, h) => s in st.actual && h > st.actual[s]
    case Publish(s, h) => s in st.actual && (s in st.slots ==> st.slots[s] <= h) && h <= st.actual[s]
                          && (s in st.g.observed ==> st.g.observed[s] <= h)
    case Verified(s, h) => s in st.actual && h <= st.actual[s]
                           && (s in st.g.observed ==>
                                 st.g.observed[s] == h || (st.g.observed[s] < h && LooksAgain(st, s)))
    case GetStarts(_) => st.g.subscribed || st.g.inFlight.None?
    case _ => true
  }

  ghost predicate OrderlyRun(d: Def, st: State, es: seq<Event>)
    decreases |es|
  {
    es == [] || (Enabled(d, st, es[0]) && Orderly(d, st, es[0]) && OrderlyRun(d, Step(d, st, es[0]), es[1..]))
  }

  /** No fingerprint of `env` is newer than the source's own. */
  ghost predicate Bounded(env: Envelope, actual: map<Source, Fp>) {
    forall s :: s in env.fps ==> s in actual && env.fps[s] <= actual[s]
  }

  /** `env` was computed from nothing newer than what a running compute has read. */
  ghost predicate Older(env: Envelope, got: map<Source, Fp>) {
    forall s :: s in got ==> FpOf(env, s) <= got[s]
  }

  /** Every envelope somebody may still look at or install is bounded by the sources. */
  ghost predicate AllBounded(st: State) {
    && Bounded(st.persisted, st.actual)
    && (st.g.lastEnvelope.Some? ==> Bounded(st.g.lastEnvelope.value, st.actual))
    && (forall x :: x in st.gets ==> Bounded(x.env, st.actual))
  }

  ghost predicate AllOlder(st: State, got: map<Source, Fp>) {
    && Older(st.persisted, got)
    && (st.g.lastEnvelope.Some? ==> Older(st.g.lastEnvelope.value, got))
    && (forall x :: x in st.gets ==> Older(x.env, got))
  }

  ghost predicate View(d: Def, st: State) {
    Ranges(d, st) && Subscription(d, st) && Reading(d, st)
  }

  ghost predicate Ranges(d: Def, st: State) {
    && st.actual.Keys == d.sources
    && st.slots.Keys <= d.sources
    && (forall s :: s in st.slots ==> st.slots[s] <= st.actual[s])
    && st.g.observed.Keys <= d.sources
    && (forall s :: s in st.g.observed ==> st.g.observed[s] <= st.actual[s])
    && AllBounded(st)
  }

  ghost predicate Subscription(d: Def, st: State) {
    && (st.g.subscribed ==> forall s :: s in st.slots ==> s in st.g.observed && st.slots[s] <= st.g.observed[s])
    && (!st.g.subscribed ==> st.g.observed == map[] && st.gets == {}
                             && (st.g.inFlight.None? && st.g.lastEnvelope.Some? ==> st.g.lastEnvelope.value == st.persisted)
                             && (InProgress(st) && st.g.lastEnvelope.Some? ==> st.g.lastEnvelope.value == st.persisted))
    && (st.g.subscribed && st.g.observed.Keys != d.sources ==>
          && (st.g.lastEnvelope.Some? ==> st.g.lastEnvelope.value == st.persisted)
          && (forall x :: x in st.gets ==> x.env == st.persisted))
  }

  ghost predicate Reading(d: Def, st: State) {
    && (st.g.rerun ==> st.g.inFlight.Some?)
    && (st.g.inFlight.Some? ==>
          var run := st.g.inFlight.value;
          && run.got.Keys <= d.sources
          && (forall s :: s in run.got ==> s in st.actual && run.got[s] <= st.actual[s])
          && (st.g.subscribed ==> forall s :: s in run.got ==> s in st.g.observed && run.got[s] <= st.g.observed[s])
          && AllOlder(st, run.got)
          && (run.outcome.Some? ==> run.got.Keys == d.sources && run.outcome.value == st.persisted
                                    && st.persisted.fps == run.got))
  }

  ghost predicate StaleRead(g: Engine) {
    g.inFlight.Some? && exists s :: s in g.inFlight.value.got && s in g.observed && g.observed[s] != g.inFlight.value.got[s]
  }

  ghost predicate Awaited(st: State, env: Envelope) {
    exists x :: x in st.gets && x.env == env
  }

  ghost predicate NothingLost(d: Def, st: State) {
    && (StaleRead(st.g) ==> st.g.debounce || st.g.rerun || st.g.retries > 0)
    && (st.g.inFlight.None? && st.g.lastEnvelope.Some? && !Agrees(d, st.g.observed, st.g.lastEnvelope.value) ==>
          st.g.debounce || st.g.retries > 0 || st.g.lastError.Some? || Awaited(st, st.g.lastEnvelope.value))
  }

  ghost predicate Inv(d: Def, st: State) {
    View(d, st) && NothingLost(d, st)
  }

  lemma InitialInv(d: Def, st: State)
    requires Initial(d, st)
    ensures Inv(d, st)
  {
  }

  /** `g'` differs from `g` only in timers and flags, or by starting, ending or dating a compute. */
  ghost predicate SameView(g: Engine, g': Engine) {
    && g'.subscribed == g.subscribed && g'.observed == g.observed && g'.lastEnvelope == g.lastEnvelope
    && (g'.rerun ==> g'.inFlight.Some?)
    && (g'.inFlight.Some? && g.inFlight.Some? ==>
          && g'.inFlight.value.outcome == g.inFlight.value.outcome
          && (g'.inFlight.value.got == g.inFlight.value.got || g'.inFlight == Some(NEW_RUN)))
    && (g'.inFlight.Some? && g.inFlight.None? ==> g'.inFlight == Some(NEW_RUN))
    && (g'.inFlight.None? && g.inFlight.Some? ==> g.inFlight.value.outcome.None?)
  }

  lemma EngineKeepsView(d: Def, st: State, g': Engine)
    requires View(d, st) && SameView(st.g, g')
    ensures View(d, st.(g := g'))
  {
  }

  lemma IrrelevantToView(d: Def, st: State, gets: set<Get>, ttlOk: bool, clock: nat)
    requires View(d, st) && gets <= st.gets
    ensures View(d, st.(gets := gets, ttlOk := ttlOk, clock := clock))
  {
  }

  /** A success installs what is stored, and ends the compute or starts a new one. */
  lemma SuccessInstalls(d: Def, g: Engine, env: Envelope, ttlOk: bool)
    ensures var g' := Settle(d, g, Success(env), ttlOk);
            && g'.subscribed == g.subscribed && g'.observed == g.observed && g'.lastEnvelope == Some(env)
            && (g'.rerun ==> g'.inFlight.Some?) && (g'.inFlight.None? || g'.inFlight == Some(NEW_RUN))
  {
  }

  lemma InstalledKeepsView(d: Def, st: State, g': Engine)
    requires View(d, st) && st.g.inFlight.Some? && st.g.inFlight.value.outcome.Some?
    requires g'.subscribed == st.g.subscribed && g'.observed == st.g.observed
    requires g'.lastEnvelope == Some(st.persisted) && (g'.rerun ==> g'.inFlight.Some?)
    requires g'.inFlight.None? || g'.inFlight == Some(NEW_RUN)
    ensures View(d, st.(g := g'))
  {
  }

  lemma SucceedKeepsView(d: Def, st: State)
    requires View(d, st) && st.g.inFlight.Some? && st.g.inFlight.value.outcome.Some?
    ensures View(d, st.(g := Settle(d, st.g, Success(st.g.inFlight.value.outcome.value), st.ttlOk)))
  {
    SuccessInstalls(d, st.g, st.g.inFlight.value.outcome.value, st.ttlOk);
    InstalledKeepsView(d, st, Settle(d, st.g, Success(st.g.inFlight.value.outcome.value), st.ttlOk));
  }

  /** What it installs agrees with what is observed, unless the compute had read something else. */
  lemma SettledEnvelopeLosesNothing(d: Def, st: State, g': Engine)
    requires Inv(d, st) && st.g.inFlight.Some? && st.g.inFlight.value.outcome.Some?
    requires g'.observed == st.g.observed && g'.lastEnvelope == Some(st.g.inFlight.value.outcome.value)
    requires g'.inFlight.None? || g'.inFlight == Some(NEW_RUN)
    requires g'.inFlight.None? ==> (st.g.debounce ==> g'.debounce) && g'.retries >= st.g.retries
    requires g'.inFlight.None? && st.g.rerun ==> Agrees(d, g'.observed, g'.lastEnvelope.value)
    ensures NothingLost(d, st.(g := g'))
  {
    var env := st.g.inFlight.value.outcome.value;
    if !Agrees(d, st.g.observed, env) {
      var s :| s in d.sources && s in st.g.observed && st.g.observed[s] != FpOf(env, s);
      assert StaleRead(st.g);
    }
  }

  lemma SucceedLosesNothing(d: Def, st: State)
    requires Inv(d, st) && st.g.inFlight.Some? && st.g.inFlight.value.outcome.Some?
    ensures NothingLost(d, st.(g := Settle(d, st.g, Success(st.g.inFlight.value.outcome.value), st.ttlOk)))
  {
    var g' := Settle(d, st.g, Success(st.g.inFlight.value.outcome.value), st.ttlOk);
    SuccessInstalls(d, st.g, st.g.inFlight.value.outcome.value, st.ttlOk);
    SettledEnvelopeLosesNothing(d, st, g');
  }

  lemma SaveKeepsRanges(d: Def, st: State)
    requires View(d, st) && Enabled(d, st, Saves)
    ensures Ranges(d, Save(d, st)) && Save(d, st).persisted.fps == st.g.inFlight.value.got
  {
  }

  lemma SaveKeepsSubscription(d: Def, st: State)
    requires View(d, st) && Enabled(d, st, Saves)
    ensures Subscription(d, Save(d, st))
  {
    if st.g.subscribed {
      assert forall s :: s in d.sources ==> s in st.g.inFlight.value.got;
    }
  }

  lemma SaveKeepsReading(d: Def, st: State)
    requires View(d, st) && Enabled(d, st, Saves)
    ensures Reading(d, Save(d, st))
  {
    SaveKeepsRanges(d, st);
  }

  lemma SaveKeepsView(d: Def, st: State)
    requires View(d, st) && Enabled(d, st, Saves)
    ensures View(d, Save(d, st))
  {
    SaveKeepsRanges(d, st);
    SaveKeepsSubscription(d, st);
    SaveKeepsReading(d, st);
  }

  lemma ReadKeepsRanges(d: Def, st: State, s: Source)
    requires View(d, st) && Enabled(d, st, ReadsSource(s))
    ensures Ranges(d, ReadSource(st, s))
  {
  }

  lemma HitKeepsSubscription(d: Def, st: State, s: Source)
    requires View(d, st) && Enabled(d, st, ReadsSource(s)) && CacheHit(st, s)
    ensures Subscription(d, ReadSource(st, s))
  {
  }

  lemma MissKeepsSubscription(d: Def, st: State, s: Source)
    requires View(d, st) && Enabled(d, st, ReadsSource(s)) && !CacheHit(st, s)
    ensures Subscription(d, ReadSource(st, s))
  {
    assert st.g.subscribed && st.g.observed.Keys == d.sources ==> ReadSource(st, s).g.observed.Keys == d.sources;
  }

  lemma OlderAfterRead(st: State, got: map<Source, Fp>, s: Source)
    requires AllBounded(st) && AllOlder(st, got) && s in st.actual
    ensures AllOlder(st, got[s := st.actual[s]])
  {
    forall x | x in st.gets ensures Older(x.env, got[s := st.actual[s]]) {
      assert Bounded(x.env, st.actual);
    }
  }

  lemma ReadStaysOlder(d: Def, st: State, s: Source)
    requires View(d, st) && Enabled(d, st, ReadsSource(s))
    ensures AllOlder(ReadSource(st, s), ReadSource(st, s).g.inFlight.value.got)
  {
    OlderAfterRead(st, st.g.inFlight.value.got, s);
  }

  lemma ReadKeepsReading(d: Def, st: State, s: Source)
    requires View(d, st) && Enabled(d, st, ReadsSource(s))
    ensures Reading(d, ReadSource(st, s))
  {
    ReadStaysOlder(d, st, s);
    var f := ReadSource(st, s);
    var got := st.g.inFlight.value.got[s := st.actual[s]];
    assert f.g.inFlight == Some(st.g.inFlight.value.(got := got));
    forall x | st.g.subscribed && x in got ensures x in f.g.observed && got[x] <= f.g.observed[x] {
      if x == s && CacheHit(st, s) {
        assert s in st.g.observed && st.slots[s] <= st.g.observed[s] <= st.actual[s];
      }
    }
  }

  lemma InstallKeepsView(d: Def, st: State, x: Get, gets: set<Get>)
    requires View(d, st) && x in st.gets && gets <= st.gets + {x.(verifying := true)}
    ensures View(d, st.(g := Install(st.g, x.env), gets := gets))
  {
    var st' := st.(g := Install(st.g, x.env), gets := gets);
    assert forall y :: y in gets ==> exists z :: z in st.gets && z.env == y.env;
    assert AllBounded(st');
    if st.g.inFlight.Some? {
      assert AllOlder(st', st.g.inFlight.value.got);
    }
  }

  lemma WriteKeepsRanges(d: Def, st: State, s: Source, h: Fp)
    requires View(d, st) && s in d.sources && Orderly(d, st, StoreWrite(s, h))
    ensures Ranges(d, st.(actual := st.actual[s := h]))
  {
  }

  lemma WriteKeepsView(d: Def, st: State, s: Source, h: Fp)
    requires View(d, st) && s in d.sources && Orderly(d, st, StoreWrite(s, h))
    ensures View(d, st.(actual := st.actual[s := h]))
  {
    WriteKeepsRanges(d, st, s, h);
  }

  lemma VerifiedKeepsReading(d: Def, st: State, s: Source, h: Fp)
    requires View(d, st) && Enabled(d, st, Verified(s, h)) && Orderly(d, st, Verified(s, h))
    ensures Reading(d, st.(g := st.g.(observed := st.g.observed[s := h])))
  {
  }

  lemma VerifiedKeepsSubscription(d: Def, st: State, s: Source, h: Fp)
    requires View(d, st) && Enabled(d, st, Verified(s, h)) && Orderly(d, st, Verified(s, h))
    ensures Subscription(d, st.(g := st.g.(observed := st.g.observed[s := h])))
  {
    assert s in st.g.observed ==> st.g.observed[s := h].Keys == st.g.observed.Keys;
  }

  lemma VerifiedKeepsView(d: Def, st: State, s: Source, h: Fp)
    requires View(d, st) && Enabled(d, st, Verified(s, h)) && Orderly(d, st, Verified(s, h))
    ensures View(d, st.(g := st.g.(observed := st.g.observed[s := h])))
  {
    VerifiedKeepsSubscription(d, st, s, h);
    VerifiedKeepsReading(d, st, s, h);
  }

  lemma PublishKeepsReading(d: Def, st: State, s: Source, h: Fp)
    requires View(d, st) && s in d.sources && Orderly(d, st, Publish(s, h))
    ensures Reading(d, st.(slots := st.slots[s := h], g := Observe(st.g, s, h)))
  {
  }

  lemma PublishKeepsSubscription(d: Def, st: State, s: Source, h: Fp)
    requires View(d, st) && s in d.sources && Orderly(d, st, Publish(s, h))
    ensures Subscription(d, st.(slots := st.slots[s := h], g := Observe(st.g, s, h)))
  {
    assert s in st.g.observed ==> st.g.observed[s := h].Keys == st.g.observed.Keys;
  }

  lemma PublishKeepsView(d: Def, st: State, s: Source, h: Fp)
    requires View(d, st) && s in d.sources && Orderly(d, st, Publish(s, h))
    ensures View(d, st.(slots := st.slots[s := h], g := Observe(st.g, s, h)))
  {
    PublishKeepsSubscription(d, st, s, h);
    PublishKeepsReading(d, st, s, h);
  }

  lemma StartKeepsView(d: Def, st: State, id: nat)
    requires View(d, st) && Enabled(d, st, GetStarts(id)) && Orderly(d, st, GetStarts(id))
    ensures View(d, Step(d, st, GetStarts(id)))
  {
  }

  lemma CallsKeepView(d: Def, g: Engine, env: Envelope, ttlOk: bool, bypass: bool)
    requires g.rerun ==> g.inFlight.Some?
    ensures SameView(g, Finish(d, g, env, ttlOk)) && SameView(g, Refresh(g, bypass)) && SameView(g, Invalidate(g))
  {
  }

  lemma TimersKeepView(d: Def, g: Engine, ttlOk: bool)
    requires g.rerun ==> g.inFlight.Some?
    ensures SameView(g, OnDebounce(d, g, ttlOk))
    ensures g.retries > 0 ==> SameView(g, OnRetry(g))
  {
  }

  predicate FromCaller(e: Event) {
    e.Tick? || e.GetFinishes? || e.RefreshCalled? || e.ChannelInvalidated?
  }

  lemma CallerKeepsView(d: Def, st: State, e: Event)
    requires View(d, st) && Enabled(d, st, e) && FromCaller(e)
    ensures View(d, Step(d, st, e))
  {
    match e
    case Tick(ok) =>
      IrrelevantToView(d, st, st.gets, ok, st.clock);
    case GetFinishes(x) =>
      CallsKeepView(d, st.g, x.env, st.ttlOk, true);
      EngineKeepsView(d, st, Finish(d, st.g, x.env, st.ttlOk));
      IrrelevantToView(d, st.(g := Finish(d, st.g, x.env, st.ttlOk)), st.gets - {x}, st.ttlOk, st.clock);
    case RefreshCalled(bypass) =>
      CallsKeepView(d, st.g, st.persisted, st.ttlOk, bypass);
      EngineKeepsView(d, st, Refresh(st.g, bypass));
    case ChannelInvalidated =>
      CallsKeepView(d, st.g, st.persisted, st.ttlOk, true);
      EngineKeepsView(d, st, Invalidate(st.g));
  }

  lemma TimerKeepsView(d: Def, st: State, e: Event)
    requires View(d, st) && Enabled(d, st, e) && (e.DebounceFires? || e.RetryFires?)
    ensures View(d, Step(d, st, e))
  {
    TimersKeepView(d, st.g, st.ttlOk);
    EngineKeepsView(d, st, Step(d, st, e).g);
  }

  lemma FetchSameView(st: State)
    requires st.g.inFlight.Some? && (st.g.rerun ==> st.g.inFlight.Some?)
    ensures SameView(st.g, FetchExternal(st).g)
    ensures FetchExternal(st) == st.(g := FetchExternal(st).g, clock := FetchExternal(st).clock)
  {
  }

  lemma FetchKeepsView(d: Def, st: State)
    requires View(d, st) && st.g.inFlight.Some?
    ensures View(d, FetchExternal(st))
  {
    var f := FetchExternal(st);
    FetchSameView(st);
    EngineKeepsView(d, st, f.g);
    IrrelevantToView(d, st.(g := f.g), st.gets, st.ttlOk, f.clock);
  }

  lemma FailureKeepsSight(d: Def, g: Engine, error: ComputeError, ttlOk: bool)
    requires g.inFlight.Some? && g.inFlight.value.outcome.None?
    ensures SameView(g, Settle(d, g, Failure(error), ttlOk))
  {
  }

  lemma FailKeepsView(d: Def, st: State, error: ComputeError)
    requires View(d, st) && InProgress(st)
    ensures View(d, st.(g := Settle(d, st.g, Failure(error), st.ttlOk)))
  {
    FailureKeepsSight(d, st.g, error, st.ttlOk);
    EngineKeepsView(d, st, Settle(d, st.g, Failure(error), st.ttlOk));
  }

  lemma StepKeepsView(d: Def, st: State, e: Event)
    requires View(d, st) && Enabled(d, st, e) && Orderly(d, st, e)
    ensures View(d, Step(d, st, e))
  {
    if FromCaller(e) {
      CallerKeepsView(d, st, e);
    } else if e.DebounceFires? || e.RetryFires? {
      TimerKeepsView(d, st, e);
    } else {
      match e
      case StoreWrite(s, h) => WriteKeepsView(d, st, s, h);
      case Verified(s, h) => VerifiedKeepsView(d, st, s, h);
      case Publish(s, h) => PublishKeepsView(d, st, s, h);
      case GetStarts(id) => StartKeepsView(d, st, id);
      case GetInstalls(x) => InstallKeepsView(d, st, x, Step(d, st, e).gets);
      case ReadsSource(s) =>
        ReadKeepsRanges(d, st, s);
        if CacheHit(st, s) {
          HitKeepsSubscription(d, st, s);
        } else {
          MissKeepsSubscription(d, st, s);
        }
        ReadKeepsReading(d, st, s);
      case FetchesExternal => FetchKeepsView(d, st);
      case Saves => SaveKeepsView(d, st);
      case Succeeds => SucceedKeepsView(d, st);
      case Fails(error) => FailKeepsView(d, st, error);
    }
  }

  lemma DebounceLosesNothing(d: Def, st: State)
    requires Inv(d, st) && st.g.debounce
    ensures NothingLost(d, st.(g := OnDebounce(d, st.g, st.ttlOk)))
  {
    if LastIsFresh(d, st.g.(debounce := false), st.ttlOk) && st.g.inFlight.Some? {
      var last := st.g.lastEnvelope.value;
      forall s | s in st.g.inFlight.value.got && s in st.g.observed
        ensures st.g.observed[s] == st.g.inFlight.value.got[s]
      {
        assert FpOf(last, s) <= st.g.inFlight.value.got[s] <= st.g.observed[s] == FpOf(last, s);
      }
    }
  }

  lemma ReadLosesNothing(d: Def, st: State, s: Source)
    requires Inv(d, st) && Enabled(d, st, ReadsSource(s))
    ensures NothingLost(d, ReadSource(st, s))
  {
    var st' := ReadSource(st, s);
    if StaleRead(st'.g) && st'.g.debounce == st.g.debounce {
      var x :| x in st'.g.inFlight.value.got && x in st'.g.observed && st'.g.observed[x] != st'.g.inFlight.value.got[x];
      assert x in st.g.inFlight.value.got && x in st.g.observed;
    }
  }

  lemma FirstAnswerLosesNothing(d: Def, st: State, s: Source, h: Fp)
    requires Inv(d, st) && Enabled(d, st, Verified(s, h)) && s !in st.g.observed
    ensures NothingLost(d, st.(g := st.g.(observed := st.g.observed[s := h])))
  {
    var x :| x in st.gets && x.verifying;
    assert x.env == st.persisted;
    if StaleRead(st.g.(observed := st.g.observed[s := h])) {
      assert StaleRead(st.g);
    }
  }

  lemma NewerAnswerLosesNothing(d: Def, st: State, s: Source, h: Fp)
    requires Inv(d, st) && s in st.g.observed && LooksAgain(st, s)
    ensures NothingLost(d, st.(g := st.g.(observed := st.g.observed[s := h])))
  {
    if StaleRead(st.g.(observed := st.g.observed[s := h])) && st.g.inFlight.Some? && s !in st.g.inFlight.value.got {
      assert StaleRead(st.g);
    }
  }

  lemma VerifiedLosesNothing(d: Def, st: State, s: Source, h: Fp)
    requires Inv(d, st) && Enabled(d, st, Verified(s, h)) && Orderly(d, st, Verified(s, h))
    ensures NothingLost(d, st.(g := st.g.(observed := st.g.observed[s := h])))
  {
    if s !in st.g.observed {
      FirstAnswerLosesNothing(d, st, s, h);
    } else if st.g.observed[s] == h {
      assert st.g.observed[s := h] == st.g.observed;
    } else {
      NewerAnswerLosesNothing(d, st, s, h);
    }
  }

  lemma GetLosesNothing(d: Def, st: State, e: Event)
    requires Inv(d, st) && Enabled(d, st, e) && Orderly(d, st, e)
    requires e.GetStarts? || e.GetInstalls? || e.GetFinishes?
    ensures NothingLost(d, Step(d, st, e))
  {
  }

  lemma FailLosesNothing(d: Def, st: State, error: ComputeError)
    requires Enabled(d, st, Fails(error))
    ensures NothingLost(d, st.(g := Settle(d, st.g, Failure(error), st.ttlOk)))
  {
  }

  /** A trigger leaves a compute in flight that is new or has a rerun behind it. */
  lemma TriggerRestarts(d: Def, st: State, g: Engine)
    ensures NothingLost(d, st.(g := Trigger(g)))
  {
  }

  lemma TriggerLosesNothing(d: Def, st: State, e: Event)
    requires Enabled(d, st, e) && (e.RetryFires? || e.RefreshCalled? || e.ChannelInvalidated?)
    ensures NothingLost(d, Step(d, st, e))
  {
    match e
    case RetryFires => TriggerRestarts(d, st, st.g.(retries := st.g.retries - 1));
    case RefreshCalled(bypass) =>
      var g := st.g.(debounce := false);
      TriggerRestarts(d, st, if bypass then g.(externalCache := None) else g);
    case ChannelInvalidated => TriggerRestarts(d, st, st.g.(externalCache := None));
  }

  lemma PublishLosesNothing(d: Def, st: State, s: Source, h: Fp)
    requires Inv(d, st) && Enabled(d, st, Publish(s, h))
    ensures NothingLost(d, Step(d, st, Publish(s, h)))
  {
  }

  lemma WorldLosesNothing(d: Def, st: State, e: Event)
    requires Inv(d, st) && Enabled(d, st, e) && (e.StoreWrite? || e.Tick?)
    ensures NothingLost(d, Step(d, st, e))
  {
  }

  lemma ProgressLosesNothing(d: Def, st: State, e: Event)
    requires Inv(d, st) && Enabled(d, st, e) && (e.FetchesExternal? || e.Saves?)
    ensures NothingLost(d, Step(d, st, e))
  {
    assert StaleRead(Step(d, st, e).g) ==> StaleRead(st.g);
  }

  lemma StepLosesNothing(d: Def, st: State, e: Event)
    requires Inv(d, st) && Enabled(d, st, e) && Orderly(d, st, e)
    ensures NothingLost(d, Step(d, st, e))
  {
    if e.GetStarts? || e.GetInstalls? || e.GetFinishes? {
      GetLosesNothing(d, st, e);
    } else if e.RetryFires? || e.RefreshCalled? || e.ChannelInvalidated? {
      TriggerLosesNothing(d, st, e);
    } else if e.StoreWrite? || e.Tick? {
      WorldLosesNothing(d, st, e);
    } else if e.FetchesExternal? || e.Saves? {
      ProgressLosesNothing(d, st, e);
    } else {
      match e
      case Fails(error) => FailLosesNothing(d, st, error);
      case Publish(s, h) => PublishLosesNothing(d, st, s, h);
      case DebounceFires => DebounceLosesNothing(d, st);
      case Succeeds => SucceedLosesNothing(d, st);
      case Verified(s, h) => VerifiedLosesNothing(d, st, s, h);
      case ReadsSource(s) => ReadLosesNothing(d, st, s);
    }
  }

  lemma StepKeepsInv(d: Def, st: State, e: Event)
    requires Inv(d, st) && Enabled(d, st, e) && Orderly(d, st, e)
    ensures Inv(d, Step(d, st, e))
  {
    StepKeepsView(d, st, e);
    StepLosesNothing(d, st, e);
  }

  lemma {:induction false} RunKeepsInv(d: Def, st: State, es: seq<Event>)
    requires Inv(d, st) && OrderlyRun(d, st, es)
    ensures RunOf(d, st, es) && Inv(d, After(d, st, es))
    decreases |es|
  {
    if es != [] {
      StepKeepsInv(d, st, es[0]);
      RunKeepsInv(d, Step(d, st, es[0]), es[1..]);
    }
  }

  /** Nobody will look again: no compute, no timer, no error to report and no `get()` on its way. */
  ghost predicate AtRest(st: State) {
    && st.g.inFlight.None? && !st.g.debounce && st.g.retries == 0 && st.g.lastError.None? && st.gets == {}
  }

  ghost predicate LostChange(d: Def, st: State) {
    AtRest(st) && st.g.lastEnvelope.Some? && !Agrees(d, st.g.observed, st.g.lastEnvelope.value)
  }

  /** No lost source change: an instance at rest agrees with every fingerprint it has observed, and no cache
      slot holds anything newer than its envelope, nor the envelope anything newer than the source. */
  lemma NoLostChange(d: Def, st: State, es: seq<Event>)
    requires Initial(d, st) && OrderlyRun(d, st, es)
    ensures RunOf(d, st, es)
    ensures var f := After(d, st, es);
            && !LostChange(d, f)
            && (AtRest(f) && f.g.subscribed && f.g.lastEnvelope.Some? ==>
                  forall s :: s in f.slots ==>
                    s in f.actual && f.slots[s] <= FpOf(f.g.lastEnvelope.value, s) <= f.actual[s])
  {
    InitialInv(d, st);
    RunKeepsInv(d, st, es);
    var f := After(d, st, es);
    if AtRest(f) && f.g.subscribed && f.g.lastEnvelope.Some? {
      assert Agrees(d, f.g.observed, f.g.lastEnvelope.value);
    }
  }

  // ---------------------------------------------------------------------------------------------
  // When a change is lost
  // ---------------------------------------------------------------------------------------------

  /** A compute about to succeed, with nothing else under way, loses a change exactly when the envelope it has
      saved differs from what is observed and nothing is armed or queued behind it. */
  lemma SettlesBehindIff(d: Def, st: State)
    requires st.gets == {} && st.g.inFlight.Some? && st.g.inFlight.value.outcome.Some?
    ensures Enabled(d, st, Succeeds) && RunOf(d, st, [Succeeds])
    ensures LostChange(d, After(d, st, [Succeeds])) <==>
            && !st.g.debounce && !st.g.rerun && st.g.retries == 0
            && !Agrees(d, st.g.observed, st.g.inFlight.value.outcome.value)
  {
    assert [Succeeds][1..] == [];
  }

  lemma StaleReadDisagrees(d: Def, g: Engine, env: Envelope)
    requires g.inFlight.Some? && g.inFlight.value.got.Keys == d.sources && env.fps == g.inFlight.value.got
    ensures StaleRead(g) <==> !Agrees(d, g.observed, env)
  {
    if StaleRead(g) {
      var s :| s in g.inFlight.value.got && s in g.observed && g.observed[s] != g.inFlight.value.got[s];
      assert g.observed[s] != FpOf(env, s);
    }
  }

  /** The debounce callback tests only `lastEnvelope`, not what the running compute has read. It loses the
      change exactly when that test passes while the compute has read something else than is observed. */
  lemma DebounceSkipLosesIff(d: Def, st: State)
    requires st.gets == {} && st.g.debounce && !st.g.rerun && st.g.retries == 0
    requires st.g.inFlight.Some? && st.g.inFlight.value.outcome.Some?
    requires var run := st.g.inFlight.value; run.got.Keys == d.sources && run.outcome.value.fps == run.got
    ensures RunOf(d, st, [DebounceFires, Succeeds])
    ensures LostChange(d, After(d, st, [DebounceFires, Succeeds])) <==>
            LastIsFresh(d, st.g.(debounce := false), st.ttlOk) && StaleRead(st.g)
  {
    var st1 := st.(g := OnDebounce(d, st.g, st.ttlOk));
    SettlesBehindIff(d, st1);
    StaleReadDisagrees(d, st.g, st.g.inFlight.value.outcome.value);
    RunCons(d, st, DebounceFires, [Succeeds]);
    assert [DebounceFires] + [Succeeds] == [DebounceFires, Succeeds];
  }

  /** A verification answer that arrives while a compute is settling loses a change exactly when it differs
      from what that compute has read of the source, older or newer, with no timer or rerun behind it: the
      `get()` that asked finds its envelope stale but leaves that to the compute in flight. */
  lemma VerificationLosesIff(d: Def, st: State, s: Source, h: Fp, x: Get)
    requires Inv(d, st) && Enabled(d, st, Verified(s, h)) && st.gets == {x} && x.verifying
    requires st.g.inFlight.Some? && st.g.inFlight.value.outcome.Some?
    ensures RunOf(d, st, [Verified(s, h), GetFinishes(x), Succeeds])
    ensures LostChange(d, After(d, st, [Verified(s, h), GetFinishes(x), Succeeds])) <==>
            && !st.g.debounce && !st.g.rerun && st.g.retries == 0
            && st.g.inFlight.value.got[s] != h
  {
    var env := st.g.inFlight.value.outcome.value;
    var g1 := st.g.(observed := st.g.observed[s := h]);
    var st2 := st.(g := g1, gets := {});
    assert Step(d, st.(g := g1), GetFinishes(x)) == st2;
    SettlesBehindIff(d, st2);
    StaleReadDisagrees(d, st.g, env);
    StaleReadDisagrees(d, g1, env);
    if st.g.inFlight.value.got[s] != h {
      assert g1.observed[s] != g1.inFlight.value.got[s];
    }
    if StaleRead(g1) && st.g.inFlight.value.got[s] == h {
      assert StaleRead(st.g);
    }
    RunCons(d, st.(g := g1), GetFinishes(x), [Succeeds]);
    RunCons(d, st, Verified(s, h), [GetFinishes(x)] + [Succeeds]);
    assert [Verified(s, h)] + ([GetFinishes(x)] + [Succeeds]) == [Verified(s, h), GetFinishes(x), Succeeds];
  }

  /** At rest behind a cache slot: the aggregate agrees with what is observed, but a slot holds newer content. */
  ghost predicate BehindSlot(st: State) {
    AtRest(st) && st.g.lastEnvelope.Some? && exists s :: s in st.slots && FpOf(st.g.lastEnvelope.value, s) < st.slots[s]
  }

  lemma RunOfThree(d: Def, st: State, e0: Event, e1: Event, e2: Event)
    requires Enabled(d, st, e0) && Enabled(d, Step(d, st, e0), e1)
    requires Enabled(d, Step(d, Step(d, st, e0), e1), e2)
    ensures RunOf(d, st, [e0, e1, e2])
    ensures After(d, st, [e0, e1, e2]) == Step(d, Step(d, Step(d, st, e0), e1), e2)
  {
    var s1 := Step(d, st, e0);
    RunCons(d, Step(d, s1, e1), e2, []);
    RunCons(d, s1, e1, [e2] + []);
    RunCons(d, st, e0, [e1] + ([e2] + []));
    assert [e0] + ([e1] + ([e2] + [])) == [e0, e1, e2];
  }

  /** With nothing in flight, an answer loses the change a live write has announced exactly when it puts an
      older fingerprint over it and the last envelope then looks fresh: the pending debounce skips. */
  lemma OverwriteLosesIff(d: Def, st: State, s: Source, h: Fp, x: Get)
    requires Inv(d, st) && Enabled(d, st, Verified(s, h)) && st.gets == {x} && x.verifying
    requires st.g.inFlight.None? && st.g.lastEnvelope == Some(x.env) && st.g.lastError.None?
    requires st.g.debounce && st.g.retries == 0
    ensures RunOf(d, st, [Verified(s, h), DebounceFires, GetFinishes(x)])
    ensures BehindSlot(After(d, st, [Verified(s, h), DebounceFires, GetFinishes(x)])) <==>
            && s in st.slots && h < st.slots[s]
            && IsFresh(d, st.g.(observed := st.g.observed[s := h]), x.env, st.ttlOk)
  {
    var st1 := st.(g := st.g.(observed := st.g.observed[s := h]));
    var st2 := st1.(g := OnDebounce(d, st1.g, st.ttlOk));
    var f := Step(d, st2, GetFinishes(x));
    if IsFresh(d, st1.g, x.env, st.ttlOk) {
      assert f.g == st1.g.(debounce := false);
      forall t | t in st.slots ensures FpOf(x.env, t) < st.slots[t] <==> t == s && h < st.slots[s] {
        assert t in d.sources && t in st.g.observed && st1.g.observed[t] == FpOf(x.env, t);
      }
    } else {
      assert f.g.inFlight.Some?;
    }
    RunOfThree(d, st, Verified(s, h), DebounceFires, GetFinishes(x));
  }

  /** A first `get()` while a compute is in flight: it subscribes, installs the stored envelope and ends. */
  lemma FirstGetRuns(d: Def, st: State, id: nat, rest: seq<Event>) returns (es: seq<Event>, st': State)
    requires !st.g.subscribed && st.gets == {} && st.g.inFlight.Some?
    ensures st' == st.(g := EnsureSubscribed(d, st.g, st.slots).(lastEnvelope := Some(st.persisted)))
    ensures es == (if st.persisted.data.Some? then
                     [GetStarts(id), GetInstalls(Get(id, st.persisted, false)), GetFinishes(Get(id, st.persisted, true))]
                   else [GetStarts(id), GetInstalls(Get(id, st.persisted, false))]) + rest
    ensures RunOf(d, st', rest) ==> RunOf(d, st, es) && After(d, st, es) == After(d, st', rest)
  {
    var x, y := Get(id, st.persisted, false), Get(id, st.persisted, true);
    var g1 := EnsureSubscribed(d, st.g, st.slots);
    st' := st.(g := g1.(lastEnvelope := Some(st.persisted)));
    var st1 := st.(g := g1, gets := {x});
    assert st.gets + {x} == {x};
    if st.persisted.data.Some? {
      es := [GetStarts(id), GetInstalls(x), GetFinishes(y)] + rest;
      var st2 := st'.(gets := {y});
      assert Step(d, st1, GetInstalls(x)) == st2 && Step(d, st2, GetFinishes(y)) == st';
      if RunOf(d, st', rest) {
        es := Cons3(d, st, GetStarts(id), GetInstalls(x), GetFinishes(y), rest);
      }
    } else {
      es := [GetStarts(id), GetInstalls(x)] + rest;
      assert Step(d, st1, GetInstalls(x)) == st';
      if RunOf(d, st', rest) {
        RunCons(d, st1, GetInstalls(x), rest);
        RunCons(d, st, GetStarts(id), [GetInstalls(x)] + rest);
        assert es == [GetStarts(id)] + ([GetInstalls(x)] + rest);
      }
    }
  }

  /** The first `get()` subscribes. When it does so during a compute that has read everything, the change is
      lost exactly when some cache slot holds another fingerprint than that compute has read. */
  lemma LateSubscriptionLosesIff(d: Def, st: State, id: nat) returns (es: seq<Event>)
    requires !st.g.subscribed && st.gets == {} && !st.g.debounce && !st.g.rerun && st.g.retries == 0
    requires InProgress(st) && AllRead(d, st.g.inFlight.value) && Expected(d, st.g.inFlight.value.got).Some?
    ensures es == (if st.persisted.data.Some? then
                     [GetStarts(id), GetInstalls(Get(id, st.persisted, false)), GetFinishes(Get(id, st.persisted, true))]
                   else [GetStarts(id), GetInstalls(Get(id, st.persisted, false))]) + [Saves, Succeeds]
    ensures RunOf(d, st, es)
    ensures LostChange(d, After(d, st, es)) <==>
            exists s :: s in st.slots && s in d.sources && st.slots[s] != st.g.inFlight.value.got[s]
  {
    var st';
    es, st' := FirstGetRuns(d, st, id, [Saves, Succeeds]);
    assert st'.g.observed == map s | s in st.slots && s in d.sources :: st.slots[s];
    SubscribedSaves(d, st');
  }

  lemma SubscribedSaves(d: Def, st: State)
    requires st.gets == {} && !st.g.debounce && !st.g.rerun && st.g.retries == 0
    requires InProgress(st) && AllRead(d, st.g.inFlight.value) && Expected(d, st.g.inFlight.value.got).Some?
    ensures RunOf(d, st, [Saves, Succeeds])
    ensures LostChange(d, After(d, st, [Saves, Succeeds])) <==>
            exists s :: s in d.sources && s in st.g.observed && st.g.observed[s] != st.g.inFlight.value.got[s]
  {
    var st1 := Save(d, st);
    assert st1.persisted.fps == st.g.inFlight.value.got;
    SettlesBehindIff(d, st1);
    RunCons(d, st, Saves, [Succeeds]);
    assert [Saves] + [Succeeds] == [Saves, Succeeds];
  }

  // ---------------------------------------------------------------------------------------------
  // Runs from the beginning that lose a change
  // ---------------------------------------------------------------------------------------------

  /** A session that begins over the single source "s", stored up to date at fingerprint 1. */
  function Begun(d: Def, value: Value, slots: map<Source, Fp>): State {
    State(map["s" := 1], slots, Envelope(d.version, map["s" := 1], 0, Some(value)), true, 0, {}, COLD_ENGINE)
  }

  /** The same instance once a first `get()` has found it up to date. */
  function UpToDate(d: Def, value: Value): State {
    var st := Begun(d, value, map["s" := 1]);
    st.(g := COLD_ENGINE.(subscribed := true, observed := map["s" := 1], lastEnvelope := Some(st.persisted)))
  }

  /** The same instance with an empty cache, while its first `get()` awaits the answer of the server. */
  function ColdVerifying(d: Def, value: Value): State {
    var st := Begun(d, value, map[]);
    st.(gets := {Get(0, st.persisted, true)},
        g := COLD_ENGINE.(subscribed := true, lastEnvelope := Some(st.persisted)))
  }

  lemma ReachColdVerifying(d: Def, value: Value, rest: seq<Event>) returns (es: seq<Event>)
    requires d.sources == {"s"} && RunOf(d, ColdVerifying(d, value), rest)
    ensures Initial(d, Begun(d, value, map[])) && RunOf(d, Begun(d, value, map[]), es)
    ensures After(d, Begun(d, value, map[]), es) == After(d, ColdVerifying(d, value), rest)
  {
    var s0 := Begun(d, value, map[]);
    var x := Get(0, s0.persisted, false);
    var s1 := s0.(gets := {x}, g := COLD_ENGINE.(subscribed := true));
    assert EnsureSubscribed(d, s0.g, s0.slots).observed == map[];
    assert {} + {x} == {x} && Step(d, s0, GetStarts(0)) == s1;
    assert {x} - {x} + {x.(verifying := true)} == {x.(verifying := true)};
    assert Step(d, s1, GetInstalls(x)) == ColdVerifying(d, value);
    RunCons(d, s1, GetInstalls(x), rest);
    RunCons(d, s0, GetStarts(0), [GetInstalls(x)] + rest);
    es := [GetStarts(0)] + ([GetInstalls(x)] + rest);
  }

  lemma ReachUpToDate(d: Def, value: Value, rest: seq<Event>) returns (es: seq<Event>)
    requires d.sources == {"s"} && !d.hasExternal && RunOf(d, UpToDate(d, value), rest)
    ensures Initial(d, Begun(d, value, map["s" := 1])) && RunOf(d, Begun(d, value, map["s" := 1]), es)
    ensures After(d, Begun(d, value, map["s" := 1]), es) == After(d, UpToDate(d, value), rest)
  {
    var s0 := Begun(d, value, map["s" := 1]);
    var x := Get(0, s0.persisted, false);
    var y := x.(verifying := true);
    var s1 := s0.(gets := {x}, g := COLD_ENGINE.(subscribed := true, observed := map["s" := 1]));
    var s2 := s1.(gets := {y}, g := s1.g.(lastEnvelope := Some(s0.persisted)));
    assert EnsureSubscribed(d, s0.g, s0.slots).observed == map["s" := 1];
    assert {} + {x} == {x} && Step(d, s0, GetStarts(0)) == s1;
    assert {x} - {x} + {y} == {y} && Step(d, s1, GetInstalls(x)) == s2;
    assert {y} - {y} == {} && Step(d, s2, GetFinishes(y)) == UpToDate(d, value);
    es := Cons3(d, s0, GetStarts(0), GetInstalls(x), GetFinishes(y), rest);
  }

  /** A compute has been started and the source has moved to 2. */
  function ComputingAt2(d: Def, value: Value): State {
    var st := UpToDate(d, value);
    st.(actual := map["s" := 2], slots := map["s" := 2],
        g := st.g.(observed := map["s" := 2], debounce := true, inFlight := Some(NEW_RUN)))
  }

  lemma ReachComputingAt2(d: Def, value: Value, rest: seq<Event>) returns (es: seq<Event>)
    requires d.sources == {"s"} && !d.hasExternal && RunOf(d, ComputingAt2(d, value), rest)
    ensures Initial(d, Begun(d, value, map["s" := 1])) && RunOf(d, Begun(d, value, map["s" := 1]), es)
    ensures After(d, Begun(d, value, map["s" := 1]), es) == After(d, ComputingAt2(d, value), rest)
  {
    var s0 := UpToDate(d, value);
    var s1 := s0.(g := s0.g.(inFlight := Some(NEW_RUN)));
    var s2 := s1.(actual := map["s" := 2]);
    assert Step(d, s0, RefreshCalled(false)) == s1;
    assert Step(d, s1, StoreWrite("s", 2)) == s2 && Step(d, s2, Publish("s", 2)) == ComputingAt2(d, value);
    es := Cons3(d, s0, RefreshCalled(false), StoreWrite("s", 2), Publish("s", 2), rest);
    es := ReachUpToDate(d, value, es);
  }

  /** That compute has read and saved fingerprint 2 and is about to settle. */
  function SavedAt2(d: Def, value: Value): State
    requires Expected(d, map["s" := 2]).Some?
  {
    var env := Envelope(d.version, map["s" := 2], 0, Expected(d, map["s" := 2]));
    var st := ComputingAt2(d, value);
    st.(persisted := env, g := st.g.(inFlight := Some(Run(map["s" := 2], None, Some(env)))))
  }

  lemma ReachSavedAt2(d: Def, value: Value, rest: seq<Event>) returns (es: seq<Event>)
    requires d.sources == {"s"} && !d.hasExternal && Expected(d, map["s" := 2]).Some?
    requires RunOf(d, SavedAt2(d, value), rest)
    ensures Initial(d, Begun(d, value, map["s" := 1])) && RunOf(d, Begun(d, value, map["s" := 1]), es)
    ensures After(d, Begun(d, value, map["s" := 1]), es) == After(d, SavedAt2(d, value), rest)
  {
    var s3 := ComputingAt2(d, value);
    var s4 := s3.(g := s3.g.(inFlight := Some(Run(map["s" := 2], None, None))));
    assert Step(d, s3, ReadsSource("s")) == s4;
    assert Step(d, s4, Saves) == SavedAt2(d, value);
    RunCons(d, s4, Saves, rest);
    RunCons(d, s3, ReadsSource("s"), [Saves] + rest);
    es := ReachComputingAt2(d, value, [ReadsSource("s")] + ([Saves] + rest));
  }

  /** The end of the next two runs: the observed fingerprint goes back to 1 while 2 has been computed. */
  lemma BackAt1IsLost(d: Def, value: Value, actual: map<Source, Fp>)
    requires d.sources == {"s"} && !d.hasExternal && Expected(d, map["s" := 2]).Some?
    ensures var st := SavedAt2(d, value);
            var back := st.(actual := actual, slots := map["s" := 1], g := st.g.(observed := map["s" := 1]));
            RunOf(d, back, [DebounceFires, Succeeds]) && LostChange(d, After(d, back, [DebounceFires, Succeeds]))
  {
    var st := SavedAt2(d, value);
    var back := st.(actual := actual, slots := map["s" := 1], g := st.g.(observed := map["s" := 1]));
    DebounceSkipLosesIff(d, back);
    assert "s" in back.g.observed && back.g.observed["s"] != back.g.inFlight.value.got["s"];
  }

  /** A source that goes from A to B and back to A while a compute that has read B is in flight: the
      aggregate stays at B with nothing scheduled. */
  lemma ReturningFingerprintIsLost(d: Def, value: Value) returns (es: seq<Event>)
    requires d.sources == {"s"} && !d.hasExternal && Expected(d, map["s" := 2]).Some?
    ensures Initial(d, Begun(d, value, map["s" := 1])) && RunOf(d, Begun(d, value, map["s" := 1]), es)
    ensures LostChange(d, After(d, Begun(d, value, map["s" := 1]), es))
  {
    var s5 := SavedAt2(d, value);
    var s6 := s5.(actual := map["s" := 1]);
    BackAt1IsLost(d, value, map["s" := 1]);
    assert Step(d, s5, StoreWrite("s", 1)) == s6;
    RunCons(d, s6, Publish("s", 1), [DebounceFires, Succeeds]);
    RunCons(d, s5, StoreWrite("s", 1), [Publish("s", 1)] + [DebounceFires, Succeeds]);
    es := ReachSavedAt2(d, value, [StoreWrite("s", 1)] + ([Publish("s", 1)] + [DebounceFires, Succeeds]));
  }

  /** Two notifications of one source that arrive in the wrong order do the same. */
  lemma LateNotificationIsLost(d: Def, value: Value) returns (es: seq<Event>)
    requires d.sources == {"s"} && !d.hasExternal && Expected(d, map["s" := 2]).Some?
    ensures Initial(d, Begun(d, value, map["s" := 1])) && RunOf(d, Begun(d, value, map["s" := 1]), es)
    ensures LostChange(d, After(d, Begun(d, value, map["s" := 1]), es))
  {
    BackAt1IsLost(d, value, map["s" := 2]);
    RunCons(d, SavedAt2(d, value), Publish("s", 1), [DebounceFires, Succeeds]);
    es := ReachSavedAt2(d, value, [Publish("s", 1)] + [DebounceFires, Succeeds]);
  }

  /** A full load that misses the cache reads the server and fills the slot in two steps. When a live write falls
      between them, the late fill puts the old hash over the new one: slot, observed fingerprint and envelope
      agree on the old content, and nothing inside the instance shows that the source has moved on. */
  lemma LateFillIsInvisible(d: Def, value: Value) returns (es: seq<Event>)
    requires d.sources == {"s"} && !d.hasExternal
    ensures Initial(d, Begun(d, value, map[])) && RunOf(d, Begun(d, value, map[]), es)
    ensures var f := After(d, Begun(d, value, map[]), es);
            && AtRest(f) && f.g.lastEnvelope.Some? && !LostChange(d, f) && !BehindSlot(f)
            && f.slots == f.g.observed == f.g.lastEnvelope.value.fps == map["s" := 1] && f.actual == map["s" := 2]
  {
    var s0 := ColdVerifying(d, value);
    var call := Get(0, s0.persisted, true);
    var s1 := s0.(g := s0.g.(observed := map["s" := 1]));
    var s2 := s1.(gets := {});
    var s4 := s2.(actual := map["s" := 2], slots := map["s" := 2],
                  g := s2.g.(observed := map["s" := 2], debounce := true));
    var s5 := s4.(slots := map["s" := 1], g := s4.g.(observed := map["s" := 1]));
    var s6 := s5.(g := s5.g.(debounce := false));
    assert call in s0.gets && Step(d, s0, Verified("s", 1)) == s1;
    assert {call} - {call} == {} && Step(d, s1, GetFinishes(call)) == s2;
    assert Step(d, Step(d, s2, StoreWrite("s", 2)), Publish("s", 2)) == s4;
    assert Step(d, s4, Publish("s", 1)) == s5 && Step(d, s5, DebounceFires) == s6;
    RunCons(d, s5, DebounceFires, []);
    es := Cons3(d, s2, StoreWrite("s", 2), Publish("s", 2), Publish("s", 1), [DebounceFires] + []);
    RunCons(d, s1, GetFinishes(call), es);
    RunCons(d, s0, Verified("s", 1), [GetFinishes(call)] + es);
    es := ReachColdVerifying(d, value, [Verified("s", 1)] + ([GetFinishes(call)] + es));
  }

  /** A verification answer that arrives after a live write overwrites the newer fingerprint: the pending
      debounce then finds the old envelope fresh, and so does `get()`, although the cache slot already holds
      the new content. */
  lemma OvertakenVerificationIsLost(d: Def, value: Value) returns (es: seq<Event>)
    requires d.sources == {"s"} && !d.hasExternal
    ensures Initial(d, Begun(d, value, map[])) && RunOf(d, Begun(d, value, map[]), es)
    ensures BehindSlot(After(d, Begun(d, value, map[]), es))
  {
    var s0 := ColdVerifying(d, value);
    var call := Get(0, s0.persisted, true);
    var s2 := s0.(actual := map["s" := 2], slots := map["s" := 2],
                  g := s0.g.(observed := map["s" := 2], debounce := true));
    var s3 := s2.(g := s2.g.(observed := map["s" := 1]));
    var s4 := s3.(g := s3.g.(debounce := false));
    var s5 := s4.(gets := {});
    assert Step(d, Step(d, s0, StoreWrite("s", 2)), Publish("s", 2)) == s2;
    assert call in s2.gets && Step(d, s2, Verified("s", 1)) == s3;
    assert Step(d, s3, DebounceFires) == s4;
    assert Step(d, s4, GetFinishes(call)) == s5;
    assert "s" in s5.slots && FpOf(s5.g.lastEnvelope.value, "s") < s5.slots["s"];
    RunCons(d, s4, GetFinishes(call), []);
    RunCons(d, s3, DebounceFires, [GetFinishes(call)] + []);
    es := Cons3(d, s0, StoreWrite("s", 2), Publish("s", 2), Verified("s", 1),
                [DebounceFires] + ([GetFinishes(call)] + []));
    es := ReachColdVerifying(d, value, es);
  }

  /** A `refresh()` in flight has read fingerprint 1; its own cache miss has been noticed and dismissed. */
  function RefreshingAt1(d: Def, value: Value): State {
    var st := ColdVerifying(d, value);
    st.(slots := map["s" := 1], g := st.g.(observed := map["s" := 1], inFlight := Some(Run(map["s" := 1], None, None))))
  }

  lemma ReachRefreshingAt1(d: Def, value: Value, rest: seq<Event>) returns (es: seq<Event>)
    requires d.sources == {"s"} && !d.hasExternal && RunOf(d, RefreshingAt1(d, value), rest)
    ensures Initial(d, Begun(d, value, map[])) && RunOf(d, Begun(d, value, map[]), es)
    ensures After(d, Begun(d, value, map[]), es) == After(d, RefreshingAt1(d, value), rest)
  {
    var s0 := ColdVerifying(d, value);
    var s1 := s0.(g := s0.g.(inFlight := Some(NEW_RUN)));
    var s3 := RefreshingAt1(d, value);
    var s2 := s3.(g := s3.g.(debounce := true));
    assert Step(d, s0, RefreshCalled(false)) == s1;
    assert Step(d, s1, ReadsSource("s")) == s2;
    assert Step(d, s2, DebounceFires) == s3;
    es := Cons3(d, s0, RefreshCalled(false), ReadsSource("s"), DebounceFires, rest);
    es := ReachColdVerifying(d, value, es);
  }

  /** The newest answer can be lost as well: the compute in flight has read the fingerprint before it, and the
      `get()` that asked starts nothing because that compute is in flight. */
  lemma NewestAnswerIsLost(d: Def, value: Value) returns (es: seq<Event>)
    requires d.sources == {"s"} && !d.hasExternal && Expected(d, map["s" := 1]).Some?
    ensures Initial(d, Begun(d, value, map[])) && RunOf(d, Begun(d, value, map[]), es)
    ensures LostChange(d, After(d, Begun(d, value, map[]), es))
  {
    var s3 := RefreshingAt1(d, value);
    var call := Get(0, s3.persisted, true);
    var s4 := s3.(actual := map["s" := 2]);
    var s5 := s4.(g := s4.g.(observed := map["s" := 2]));
    var s6 := s5.(gets := {});
    SubscribedSaves(d, s6);
    assert "s" in s6.g.observed && s6.g.observed["s"] != s6.g.inFlight.value.got["s"];
    assert Step(d, s3, StoreWrite("s", 2)) == s4;
    assert call in s4.gets && Step(d, s4, Verified("s", 2)) == s5;
    assert Step(d, s5, GetFinishes(call)) == s6;
    es := Cons3(d, s3, StoreWrite("s", 2), Verified("s", 2), GetFinishes(call), [Saves, Succeeds]);
    es := ReachRefreshingAt1(d, value, es);
  }

  /** An instance nobody has called `get()` on, whose `refresh()` is in flight and has read fingerprint 1
      of a source that has meanwhile moved to 2. */
  function RefreshingUnsubscribed(d: Def, value: Value): State {
    var st := Begun(d, value, map["s" := 2]);
    st.(actual := map["s" := 2], g := COLD_ENGINE.(inFlight := Some(Run(map["s" := 1], None, None))))
  }

  lemma ReachRefreshingUnsubscribed(d: Def, value: Value, rest: seq<Event>) returns (es: seq<Event>)
    requires d.sources == {"s"} && RunOf(d, RefreshingUnsubscribed(d, value), rest)
    ensures Initial(d, Begun(d, value, map["s" := 1])) && RunOf(d, Begun(d, value, map["s" := 1]), es)
    ensures After(d, Begun(d, value, map["s" := 1]), es) == After(d, RefreshingUnsubscribed(d, value), rest)
  {
    var s0 := Begun(d, value, map["s" := 1]);
    var s1 := s0.(g := COLD_ENGINE.(inFlight := Some(NEW_RUN)));
    var s2 := s0.(g := COLD_ENGINE.(inFlight := Some(Run(map["s" := 1], None, None))));
    var s3 := s2.(actual := map["s" := 2]);
    assert Step(d, s0, RefreshCalled(false)) == s1 && Step(d, s1, ReadsSource("s")) == s2;
    assert Step(d, s2, StoreWrite("s", 2)) == s3 && Step(d, s3, Publish("s", 2)) == RefreshingUnsubscribed(d, value);
    RunCons(d, s3, Publish("s", 2), rest);
    es := Cons3(d, s0, RefreshCalled(false), ReadsSource("s"), StoreWrite("s", 2), [Publish("s", 2)] + rest);
  }

  /** The first `get()` subscribes; when it does so while such a compute is in flight, it finds the envelope
      stale but leaves the change to that compute, and the change is lost. */
  lemma LateSubscriptionIsLost(d: Def, value: Value) returns (es: seq<Event>)
    requires d.sources == {"s"} && !d.hasExternal && Expected(d, map["s" := 1]).Some?
    ensures Initial(d, Begun(d, value, map["s" := 1])) && RunOf(d, Begun(d, value, map["s" := 1]), es)
    ensures LostChange(d, After(d, Begun(d, value, map["s" := 1]), es))
  {
    var st := RefreshingUnsubscribed(d, value);
    es := LateSubscriptionLosesIff(d, st, 0);
    assert "s" in st.slots && st.slots["s"] != st.g.inFlight.value.got["s"];
    es := ReachRefreshingUnsubscribed(d, value, es);
  }
}
