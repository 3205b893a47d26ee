/**
 * The `defineAggregation` closure with its own variables and the two module-level counters it shares with
 * every other instance (core/aggregation.ts). Each method is proved to move the closure variables as the
 * function of `Aggregation` that the run theorems are about, and to leave the counters' share of the other
 * instances alone.
 */
module AggregationEngine {
  import opened Wrappers
  import opened Aggregation

  function Running(g: Engine): nat {
    Bit(g.inFlight.Some?)
  }

  function Armed(g: Engine): nat {
    Bit(g.debounce) + g.retries
  }

  /** The module-level counters. */
  class Activity {
    var globalInFlightCount: int
    var globalPendingDebounceCount: int

    constructor ()
      ensures globalInFlightCount == 0 && globalPendingDebounceCount == 0
    {
      globalInFlightCount, globalPendingDebounceCount := 0, 0;
    }

    predicate IsAnyAggregationComputing()
      reads this
    {
      globalInFlightCount > 0 || globalPendingDebounceCount > 0
    }
  }

  /** One call into the closure, with what storage, the sources and the clock answer. */
  datatype Call =
    | GetCalled(slots: map<Source, Fp>)
    | EnvelopeRead(env: Envelope)
    | ServerAnswered(s: Source, h: Fp)
    | GetAnswers(env: Envelope, ttlOk: bool)
    | RefreshRequested(bypass: bool)
    | Invalidated
    | Notified(s: Source, h: Fp)
    | DebounceElapsed(ttlOk: bool)
    | RetryElapsed
    | ComputeAdvanced(run: Run, cache: Option<nat>)
    | Settled(result: Result<Envelope, ComputeError>, ttlOk: bool)

  predicate Admits(g: Engine, c: Call) {
    match c
    case DebounceElapsed(_) => g.debounce
    case RetryElapsed => g.retries > 0
    case ComputeAdvanced(_, _) => g.inFlight.Some?
    case Settled(_, _) => g.inFlight.Some?
    case _ => true
  }

  function Perform(d: Def, g: Engine, c: Call): Engine
    requires Admits(g, c)
  {
    match c
    case GetCalled(slots) => EnsureSubscribed(d, g, slots)
    case EnvelopeRead(env) => Install(g, env)
    case ServerAnswered(s, h) => g.(observed := g.observed[s := h])
    case GetAnswers(env, ttlOk) => Finish(d, g, env, ttlOk)
    case RefreshRequested(bypass) => Refresh(g, bypass)
    case Invalidated => Invalidate(g)
    case Notified(s, h) => Observe(g, s, h)
    case DebounceElapsed(ttlOk) => OnDebounce(d, g, ttlOk)
    case RetryElapsed => OnRetry(g)
    case ComputeAdvanced(run, cache) => g.(inFlight := Some(run), externalCache := cache)
    case Settled(result, ttlOk) => Settle(d, g, result, ttlOk)
  }

  class Instance {
    const def: Def
    const activity: Activity

    var subscribed: bool
    var observed: map<Source, Fp>
    var lastEnvelope: Option<Envelope>
    var inFlight: Option<Run>
    var rerunRequested: bool
    var debounceTimer: bool
    var retryTimers: nat
    var consecutiveBackgroundFailures: nat
    var lastError: Option<ComputeError>
    var externalCache: Option<nat>

    /** How many `computeAndPersist()` calls have started and not settled. */
    ghost var computing: nat

    ghost function Abs(): Engine
      reads this
    {
      Engine(subscribed, observed, lastEnvelope, inFlight, rerunRequested, debounceTimer, retryTimers,
             consecutiveBackgroundFailures, lastError, externalCache)
    }

    /** Single flight. */
    ghost predicate Valid()
      reads this
    {
      computing == Running(Abs())
    }

    ghost function OthersRunning(): int
      reads this, activity
    {
      activity.globalInFlightCount - Running(Abs())
    }

    ghost function OthersArmed(): int
      reads this, activity
    {
      activity.globalPendingDebounceCount - Armed(Abs())
    }

    constructor (d: Def, shared: Activity)
      ensures def == d && activity == shared && Valid() && Abs() == COLD_ENGINE
    {
      def, activity := d, shared;
      subscribed, observed, lastEnvelope, inFlight := false, map[], None, None;
      rerunRequested, debounceTimer, retryTimers := false, false, 0;
      consecutiveBackgroundFailures, lastError, externalCache := 0, None, None;
      computing := 0;
    }

    /** The loop over the sources skips an unobserved one and stops at the first that differs. */
    method IsFreshNow(env: Envelope, ttlOk: bool) returns (upToDate: bool)
      ensures upToDate == IsFresh(def, Abs(), env, ttlOk)
    {
      if env.v != def.version {
        return false;
      }
      var rest := def.sources;
      while rest != {}
        invariant rest <= def.sources
        invariant forall s :: s in def.sources - rest && s in observed ==> observed[s] == FpOf(env, s)
        decreases |rest|
      {
        var s :| s in rest;
        rest := rest - {s};
        if s in observed && observed[s] != FpOf(env, s) {
          assert !Agrees(def, observed, env);
          return false;
        }
      }
      return def.hasExternal ==> env.fetchedAt != 0 && ttlOk;
    }

    method LastIsFreshNow(ttlOk: bool) returns (upToDate: bool)
      ensures upToDate == LastIsFresh(def, Abs(), ttlOk)
    {
      if lastEnvelope.None? {
        return false;
      }
      upToDate := IsFreshNow(lastEnvelope.value, ttlOk);
    }

    method TriggerRecompute()
      requires Valid()
      modifies this, activity
      ensures Valid() && Abs() == Trigger(old(Abs()))
      ensures OthersRunning() == old(OthersRunning()) && OthersArmed() == old(OthersArmed())
    {
      if inFlight.Some? {
        rerunRequested := true;
        return;
      }
      activity.globalInFlightCount := activity.globalInFlightCount + 1;
      inFlight := Some(NEW_RUN);
      computing := computing + 1;
    }

    method ScheduleDebouncedRecompute()
      requires Valid()
      modifies this, activity
      ensures Valid() && Abs() == old(Abs()).(debounce := true)
      ensures OthersRunning() == old(OthersRunning()) && OthersArmed() == old(OthersArmed())
    {
      if !debounceTimer {
        activity.globalPendingDebounceCount := activity.globalPendingDebounceCount + 1;
      }
      debounceTimer := true;
    }

    method OnDebounceTimer(ttlOk: bool)
      requires Valid() && debounceTimer
      modifies this, activity
      ensures Valid() && Abs() == OnDebounce(def, old(Abs()), ttlOk)
      ensures OthersRunning() == old(OthersRunning()) && OthersArmed() == old(OthersArmed())
    {
      debounceTimer := false;
      activity.globalPendingDebounceCount := activity.globalPendingDebounceCount - 1;
      var upToDate := LastIsFreshNow(ttlOk);
      if upToDate {
        return;
      }
      TriggerRecompute();
    }

    method OnRetryTimer()
      requires Valid() && retryTimers > 0
      modifies this, activity
      ensures Valid() && Abs() == OnRetry(old(Abs()))
      ensures OthersRunning() == old(OthersRunning()) && OthersArmed() == old(OthersArmed())
    {
      retryTimers := retryTimers - 1;
      activity.globalPendingDebounceCount := activity.globalPendingDebounceCount - 1;
      TriggerRecompute();
    }

    /** The `.then` or `.catch` of the compute. */
    method RecordResult(result: Result<Envelope, ComputeError>)
      modifies this
      ensures Abs() == Record(old(Abs()), result) && computing == old(computing)
    {
      match result {
        case Success(env) =>
          lastEnvelope := Some(env);
          lastError := None;
          consecutiveBackgroundFailures := 0;
        case Failure(error) =>
          lastError := Some(error);
      }
    }

    /** Its `.finally`. */
    method ReleaseSlot(ttlOk: bool)
      requires Valid() && inFlight.Some?
      modifies this, activity
      ensures Valid() && Abs() == Release(def, old(Abs()), ttlOk)
      ensures OthersRunning() == old(OthersRunning()) && OthersArmed() == old(OthersArmed())
    {
      inFlight := None;
      computing := computing - 1;
      activity.globalInFlightCount := activity.globalInFlightCount - 1;
      if rerunRequested {
        rerunRequested := false;
        var upToDate := LastIsFreshNow(ttlOk);
        if upToDate {
          return;
        }
        TriggerRecompute();
      } else if lastError.Some? && lastError.value != Cold && consecutiveBackgroundFailures < MAX_BACKGROUND_RETRIES {
        consecutiveBackgroundFailures := consecutiveBackgroundFailures + 1;
        activity.globalPendingDebounceCount := activity.globalPendingDebounceCount + 1;
        retryTimers := retryTimers + 1;
      }
    }

    method OnSettled(result: Result<Envelope, ComputeError>, ttlOk: bool)
      requires Valid() && inFlight.Some?
      modifies this, activity
      ensures Valid() && Abs() == Settle(def, old(Abs()), result, ttlOk)
      ensures OthersRunning() == old(OthersRunning()) && OthersArmed() == old(OthersArmed())
    {
      RecordResult(result);
      ReleaseSlot(ttlOk);
    }

    /** The cache subscription callback of one source. */
    method OnSourceNotified(s: Source, h: Fp)
      requires Valid()
      modifies this, activity
      ensures Valid() && Abs() == Observe(old(Abs()), s, h)
      ensures OthersRunning() == old(OthersRunning()) && OthersArmed() == old(OthersArmed())
    {
      if subscribed {
        observed := observed[s := h];
        ScheduleDebouncedRecompute();
      }
    }

    /** The hash in each source's cache slot; a source without a slot stays unobserved. */
    method SlotsOfSources(slots: map<Source, Fp>) returns (hashes: map<Source, Fp>)
      ensures hashes == map s | s in slots && s in def.sources :: slots[s]
    {
      hashes := map[];
      var rest := def.sources;
      while rest != {}
        invariant rest <= def.sources
        invariant forall s :: s in hashes <==> s in slots && s in def.sources && s !in rest
        invariant forall s :: s in hashes ==> hashes[s] == slots[s]
        decreases |rest|
      {
        var s :| s in rest;
        rest := rest - {s};
        if s in slots {
          hashes := hashes[s := slots[s]];
        }
      }
    }

    method Subscribe(slots: map<Source, Fp>)
      requires Valid()
      modifies this, activity
      ensures Valid() && Abs() == EnsureSubscribed(def, old(Abs()), slots)
      ensures OthersRunning() == old(OthersRunning()) && OthersArmed() == old(OthersArmed())
    {
      if subscribed {
        return;
      }
      subscribed := true;
      observed := SlotsOfSources(slots);
    }

    /** `get()` once its envelope row has been read. */
    method OnEnvelopeRead(env: Envelope)
      requires Valid()
      modifies this, activity
      ensures Valid() && Abs() == Install(old(Abs()), env)
      ensures OthersRunning() == old(OthersRunning()) && OthersArmed() == old(OthersArmed())
    {
      lastEnvelope := Some(env);
      if env.data.None? && inFlight.None? {
        TriggerRecompute();
      }
    }

    /** `get()` once the sources have been verified: what it answers, and what it starts. */
    method AnswerGet(env: Envelope, ttlOk: bool) returns (stale: bool, computingNow: bool)
      requires Valid()
      modifies this, activity
      ensures Valid() && Abs() == Finish(def, old(Abs()), env, ttlOk)
      ensures stale == !IsFresh(def, old(Abs()), env, ttlOk) && computingNow == Abs().inFlight.Some?
      ensures stale ==> computingNow
      ensures OthersRunning() == old(OthersRunning()) && OthersArmed() == old(OthersArmed())
    {
      var upToDate := IsFreshNow(env, ttlOk);
      if !upToDate && inFlight.None? {
        TriggerRecompute();
      }
      return !upToDate, inFlight.Some?;
    }

    method OnRefresh(bypass: bool)
      requires Valid()
      modifies this, activity
      ensures Valid() && Abs() == Refresh(old(Abs()), bypass)
      ensures OthersRunning() == old(OthersRunning()) && OthersArmed() == old(OthersArmed())
    {
      if debounceTimer {
        debounceTimer := false;
        activity.globalPendingDebounceCount := activity.globalPendingDebounceCount - 1;
      }
      if bypass {
        externalCache := None;
      }
      TriggerRecompute();
    }

    method OnInvalidated()
      requires Valid()
      modifies this, activity
      ensures Valid() && Abs() == Invalidate(old(Abs()))
      ensures OthersRunning() == old(OthersRunning()) && OthersArmed() == old(OthersArmed())
    {
      externalCache := None;
      TriggerRecompute();
    }

    method Dispatch(c: Call)
      requires Valid() && Admits(Abs(), c)
      modifies this, activity
      ensures Valid() && Abs() == Perform(def, old(Abs()), c)
      ensures OthersRunning() == old(OthersRunning()) && OthersArmed() == old(OthersArmed())
    {
      match c {
        case GetCalled(slots) => Subscribe(slots);
        case EnvelopeRead(env) => OnEnvelopeRead(env);
        case ServerAnswered(s, h) => observed := observed[s := h];
        case GetAnswers(env, ttlOk) => var _, _ := AnswerGet(env, ttlOk);
        case RefreshRequested(bypass) => OnRefresh(bypass);
        case Invalidated => OnInvalidated();
        case Notified(s, h) => OnSourceNotified(s, h);
        case DebounceElapsed(ttlOk) => OnDebounceTimer(ttlOk);
        case RetryElapsed => OnRetryTimer();
        case ComputeAdvanced(run, cache) => inFlight, externalCache := Some(run), cache;
        case Settled(result, ttlOk) => OnSettled(result, ttlOk);
      }
    }
  }

  predicate AdmitsAll(d: Def, g: Engine, cs: seq<Call>)
    decreases |cs|
  {
    cs == [] || (Admits(g, cs[0]) && AdmitsAll(d, Perform(d, g, cs[0]), cs[1..]))
  }

  function PerformAll(d: Def, g: Engine, cs: seq<Call>): Engine
    requires AdmitsAll(d, g, cs)
    decreases |cs|
  {
    if cs == [] then g else PerformAll(d, Perform(d, g, cs[0]), cs[1..])
  }

  /** Every event of the state machine moves the engine by a sequence of calls into the closure. */
  lemma StepIsCalls(d: Def, st: State, e: Event) returns (cs: seq<Call>)
    requires Enabled(d, st, e)
    ensures AdmitsAll(d, st.g, cs) && PerformAll(d, st.g, cs) == Step(d, st, e).g
  {
    match e
    case StoreWrite(_, _) => cs := [];
    case Tick(_) => cs := [];
    case GetStarts(_) => cs := [GetCalled(st.slots)];
    case GetInstalls(x) => cs := [EnvelopeRead(x.env)];
    case Verified(s, h) => cs := [ServerAnswered(s, h)];
    case GetFinishes(x) => cs := [GetAnswers(x.env, st.ttlOk)];
    case RefreshCalled(bypass) => cs := [RefreshRequested(bypass)];
    case ChannelInvalidated => cs := [Invalidated];
    case Publish(s, h) => cs := [Notified(s, h)];
    case DebounceFires => cs := [DebounceElapsed(st.ttlOk)];
    case RetryFires => cs := [RetryElapsed];
    case Succeeds => cs := [Settled(Success(st.g.inFlight.value.outcome.value), st.ttlOk)];
    case Fails(error) => cs := [Settled(Failure(error), st.ttlOk)];
    case _ => cs := ComputeCalls(d, st, e);
  }

  lemma OneCall(d: Def, g: Engine, c: Call)
    requires Admits(g, c)
    ensures AdmitsAll(d, g, [c]) && PerformAll(d, g, [c]) == Perform(d, g, c)
  {
  }

  lemma TwoCalls(d: Def, g: Engine, c: Call, c': Call)
    requires Admits(g, c) && Admits(Perform(d, g, c), c')
    ensures AdmitsAll(d, g, [c, c']) && PerformAll(d, g, [c, c']) == Perform(d, Perform(d, g, c), c')
  {
    OneCall(d, Perform(d, g, c), c');
    assert [c, c'][1..] == [c'];
  }

  lemma ReadCalls(d: Def, st: State, s: Source) returns (cs: seq<Call>)
    requires Enabled(d, st, ReadsSource(s))
    ensures AdmitsAll(d, st.g, cs) && PerformAll(d, st.g, cs) == ReadSource(st, s).g
  {
    var run := st.g.inFlight.value;
    var advance := ComputeAdvanced(run.(got := run.got[s := st.actual[s]]), st.g.externalCache);
    if CacheHit(st, s) {
      OneCall(d, st.g, advance);
      cs := [advance];
    } else {
      TwoCalls(d, st.g, advance, Notified(s, st.actual[s]));
      cs := [advance, Notified(s, st.actual[s])];
    }
  }

  lemma ComputeCalls(d: Def, st: State, e: Event) returns (cs: seq<Call>)
    requires Enabled(d, st, e) && (e.ReadsSource? || e.FetchesExternal? || e.Saves?)
    ensures AdmitsAll(d, st.g, cs) && PerformAll(d, st.g, cs) == Step(d, st, e).g
  {
    if e.ReadsSource? {
      cs := ReadCalls(d, st, e.s);
    } else {
      var g' := Step(d, st, e).g;
      var advance := ComputeAdvanced(g'.inFlight.value, g'.externalCache);
      OneCall(d, st.g, advance);
      cs := [advance];
    }
  }

  // ---------------------------------------------------------------------------------------------
  // Many instances
  // ---------------------------------------------------------------------------------------------

  ghost function TotalRunning(gs: seq<Engine>): nat {
    if gs == [] then 0 else Running(gs[0]) + TotalRunning(gs[1..])
  }

  ghost function TotalArmed(gs: seq<Engine>): nat {
    if gs == [] then 0 else Armed(gs[0]) + TotalArmed(gs[1..])
  }

  lemma {:induction false} TotalsAfterUpdate(gs: seq<Engine>, i: nat, g: Engine)
    requires i < |gs|
    ensures TotalRunning(gs[i := g]) == TotalRunning(gs) - Running(gs[i]) + Running(g)
    ensures TotalArmed(gs[i := g]) == TotalArmed(gs) - Armed(gs[i]) + Armed(g)
    decreases i
  {
    if i == 0 {
      assert gs[0 := g][1..] == gs[1..];
    } else {
      TotalsAfterUpdate(gs[1..], i - 1, g);
      assert gs[i := g][1..] == gs[1..][i - 1 := g];
    }
  }

  predicate Working(g: Engine) {
    g.inFlight.Some? || g.debounce || g.retries > 0
  }

  lemma {:induction false} TotalsSignal(gs: seq<Engine>)
    ensures TotalRunning(gs) > 0 || TotalArmed(gs) > 0 <==> exists i :: 0 <= i < |gs| && Working(gs[i])
  {
    if gs != [] {
      TotalsSignal(gs[1..]);
      if i :| 0 <= i < |gs[1..]| && Working(gs[1..][i]) {
        assert Working(gs[i + 1]);
      }
      if i :| 0 <= i < |gs| && Working(gs[i]) {
        assert i > 0 ==> Working(gs[1..][i - 1]);
      }
    }
  }

  lemma {:induction false} TotalsOfCold(gs: seq<Engine>)
    requires forall i :: 0 <= i < |gs| ==> gs[i] == COLD_ENGINE
    ensures TotalRunning(gs) == 0 && TotalArmed(gs) == 0
  {
    if gs != [] {
      TotalsOfCold(gs[1..]);
    }
  }

  ghost function Engines(instances: seq<Instance>): (gs: seq<Engine>)
    reads instances
    ensures |gs| == |instances| && forall i :: 0 <= i < |gs| ==> gs[i] == instances[i].Abs()
  {
    if instances == [] then [] else [instances[0].Abs()] + Engines(instances[1..])
  }

  /** Single flight in every instance, and counters that say exactly what is running and armed. */
  ghost predicate Exact(activity: Activity, instances: seq<Instance>)
    reads activity, instances
  {
    && (forall i :: 0 <= i < |instances| ==> instances[i].activity == activity && instances[i].Valid())
    && (forall i, j :: 0 <= i < j < |instances| ==> instances[i] != instances[j])
    && activity.globalInFlightCount == TotalRunning(Engines(instances))
    && activity.globalPendingDebounceCount == TotalArmed(Engines(instances))
  }

  method MakeInstances(defs: seq<Def>, activity: Activity) returns (instances: seq<Instance>)
    ensures |instances| == |defs|
    ensures forall i :: 0 <= i < |defs| ==> fresh(instances[i]) && instances[i].def == defs[i]
    ensures forall i :: 0 <= i < |defs| ==> instances[i].activity == activity && instances[i].Valid()
    ensures forall i :: 0 <= i < |defs| ==> instances[i].Abs() == COLD_ENGINE
    ensures forall i, j :: 0 <= i < j < |defs| ==> instances[i] != instances[j]
  {
    instances := [];
    for k := 0 to |defs|
      invariant |instances| == k
      invariant forall i :: 0 <= i < k ==> fresh(instances[i]) && instances[i].def == defs[i]
      invariant forall i :: 0 <= i < k ==> instances[i].activity == activity && instances[i].Valid()
      invariant forall i :: 0 <= i < k ==> instances[i].Abs() == COLD_ENGINE
      invariant forall i, j :: 0 <= i < j < k ==> instances[i] != instances[j]
    {
      var one := new Instance(defs[k], activity);
      instances := instances + [one];
    }
  }

  lemma ColdIsExact(activity: Activity, instances: seq<Instance>)
    requires activity.globalInFlightCount == 0 && activity.globalPendingDebounceCount == 0
    requires forall i :: 0 <= i < |instances| ==> instances[i].activity == activity && instances[i].Valid()
    requires forall i :: 0 <= i < |instances| ==> instances[i].Abs() == COLD_ENGINE
    requires forall i, j :: 0 <= i < j < |instances| ==> instances[i] != instances[j]
    ensures Exact(activity, instances)
  {
    AllCold(instances);
    TotalsOfCold(Engines(instances));
  }

  lemma AllCold(instances: seq<Instance>)
    requires forall i :: 0 <= i < |instances| ==> instances[i].Abs() == COLD_ENGINE
    ensures forall i :: 0 <= i < |instances| ==> Engines(instances)[i] == COLD_ENGINE
  {
  }

  method DefineAggregations(defs: seq<Def>) returns (activity: Activity, instances: seq<Instance>)
    ensures Exact(activity, instances) && |instances| == |defs| && fresh(activity)
    ensures forall i :: 0 <= i < |defs| ==> fresh(instances[i]) && instances[i].def == defs[i]
    ensures forall i :: 0 <= i < |defs| ==> instances[i].Abs() == COLD_ENGINE
  {
    activity := new Activity();
    instances := MakeInstances(defs, activity);
    ColdIsExact(activity, instances);
  }

  /** A call that leaves the other instances' share of the counters alone keeps the counters exact. */
  lemma StillExact(activity: Activity, instances: seq<Instance>, i: nat, before: seq<Engine>,
                   inFlight: int, pending: int)
    requires i < |instances| && |before| == |instances|
    requires inFlight == TotalRunning(before) && pending == TotalArmed(before)
    requires forall j :: 0 <= j < |instances| ==> instances[j].activity == activity && instances[j].Valid()
    requires forall j, k :: 0 <= j < k < |instances| ==> instances[j] != instances[k]
    requires forall j :: 0 <= j < |instances| && j != i ==> instances[j].Abs() == before[j]
    requires instances[i].OthersRunning() == inFlight - Running(before[i])
    requires instances[i].OthersArmed() == pending - Armed(before[i])
    ensures Exact(activity, instances) && Engines(instances) == before[i := instances[i].Abs()]
  {
    assert Engines(instances) == before[i := instances[i].Abs()];
    TotalsAfterUpdate(before, i, instances[i].Abs());
  }

  method CallInto(activity: Activity, instances: seq<Instance>, i: nat, c: Call)
    requires Exact(activity, instances) && i < |instances| && Admits(instances[i].Abs(), c)
    modifies instances[i], activity
    ensures Exact(activity, instances)
    ensures Engines(instances) ==
            old(Engines(instances))[i := Perform(instances[i].def, old(instances[i].Abs()), c)]
  {
    ghost var before := Engines(instances);
    ghost var inFlight, pending := activity.globalInFlightCount, activity.globalPendingDebounceCount;
    instances[i].Dispatch(c);
    StillExact(activity, instances, i, before, inFlight, pending);
  }

  method CanHappen(instance: Instance, c: Call) returns (possible: bool)
    ensures possible == Admits(instance.Abs(), c)
  {
    match c {
      case DebounceElapsed(_) => return instance.debounceTimer;
      case RetryElapsed => return instance.retryTimers > 0;
      case ComputeAdvanced(_, _) => return instance.inFlight.Some?;
      case Settled(_, _) => return instance.inFlight.Some?;
      case _ => return true;
    }
  }

  /** After any interleaving of calls into the instances, each computes at most once at a time and the
      signal is on exactly when one of them is computing or has a timer armed. */
  method Interleave(activity: Activity, instances: seq<Instance>, calls: seq<(nat, Call)>)
    requires Exact(activity, instances)
    modifies instances, activity
    ensures Exact(activity, instances)
    ensures forall i :: 0 <= i < |instances| ==> instances[i].computing <= 1
    ensures activity.IsAnyAggregationComputing() <==>
            exists i :: 0 <= i < |instances| && Working(instances[i].Abs())
  {
    for k := 0 to |calls|
      invariant Exact(activity, instances)
    {
      var (i, c) := calls[k];
      if i < |instances| {
        var possible := CanHappen(instances[i], c);
        if possible {
          CallInto(activity, instances, i, c);
        }
      }
    }
    TotalsSignal(Engines(instances));
    assert forall i :: 0 <= i < |instances| ==> instances[i].Valid();
    assert forall i :: 0 <= i < |instances| ==> Engines(instances)[i] == instances[i].Abs();
  }
}
