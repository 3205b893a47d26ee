/**
 * The closure of `onSourceWrite` as an object: its variables are fields, its functions are methods, and
 * every entry point (a cache notification, a timer, a settlement, `flush`, an identity change,
 * `unsubscribe`) is proved to be the corresponding step of the machine in `SourceWrite` and to keep the
 * object and its log `Sound`. `Interleave` draws the conclusions for any sequence of calls.
 */
module SourceWriteReaction {
  import opened Wrappers
  import opened SourceWrite

  class Reaction {
    const policy: Policy
    var pendingKeys: set<Key>
    var debounceTimer: bool
    var inFlight: Option<Call>
    var rerunKeys: Option<set<Key>>
    var subscribedUserId: Option<User>
    var disposed: bool
    var failedKeys: Option<set<Key>>
    var retryAttempt: nat
    var retryTimer: Option<nat>
    var lastError: Option<Report>
    ghost var log: seq<Entry>

    function Abs(): (s: State)
      reads this
    {
      State(pendingKeys, debounceTimer, inFlight, rerunKeys, subscribedUserId, disposed,
            failedKeys, retryAttempt, retryTimer, lastError)
    }

    constructor (policy: Policy, user: Option<User>)
      ensures Abs() == Init(user) && log == [] && this.policy == policy
      ensures Sound(policy, Abs(), log)
    {
      this.policy := policy;
      pendingKeys, debounceTimer, inFlight, rerunKeys := {}, false, None, None;
      subscribedUserId, disposed := user, false;
      failedKeys, retryAttempt, retryTimer, lastError := None, 0, None, None;
      log := [];
      new;
      InitIsSound(policy, user);
    }

    method FoldFailedKeysIntoNewWrite(target: set<Key>) returns (keys: set<Key>)
      modifies this
      ensures (Abs(), keys) == Fold(old(Abs()), target)
      ensures Held(Abs()) + keys == old(Held(Abs())) + target && retryTimer.None? && failedKeys.None?
      ensures retryAttempt != old(retryAttempt) ==> old(failedKeys).Some? && old(failedKeys).value <= keys
      ensures log == old(log)
    {
      keys := target;
      retryTimer := None;
      if failedKeys.None? {
        return;
      }
      keys := keys + failedKeys.value;
      failedKeys := None;
      retryAttempt := 0;
    }

    method ScheduleRetry(keys: set<Key>, error: string)
      modifies this
      ensures Abs() == Fail(policy, old(Abs()), keys, error)
      ensures keys <= Held(Abs()) && lastError.Some? && lastError.value.keys == keys
      ensures !disposed && old(retryTimer).None? ==> (retryTimer.Some? <==> !lastError.value.exhausted)
      ensures log == old(log)
    {
      failedKeys := Some(keys);
      retryAttempt := retryAttempt + 1;
      var exhausted := retryAttempt >= policy.maxAttempts;
      lastError := Some(Report(keys, error, retryAttempt, exhausted));
      if exhausted {
        return;
      }
      if disposed {
        return;
      }
      retryTimer := Some(Backoff(policy, retryAttempt));
    }

    /** Starts a call, or queues its keys behind the running one: never two at once. */
    method StartOrQueue(keys: set<Key>)
      modifies this
      ensures Abs() == RunHandler(old(Abs()), keys)
      ensures old(inFlight).Some? ==> inFlight == old(inFlight) && log == old(log)
      ensures old(inFlight).None? ==> log == old(log) + [Started(keys, subscribedUserId)]
    {
      if inFlight.Some? {
        if rerunKeys.None? {
          rerunKeys := Some({});
        }
        rerunKeys := Some(rerunKeys.value + keys);
        return;
      }
      inFlight := Some(Call(keys, subscribedUserId));
      log := log + [Started(keys, subscribedUserId)];
    }

    method Dispatch()
      modifies this
      ensures Abs() == DispatchPending(old(Abs()))
      ensures log == old(log) + if old(inFlight).None? && inFlight.Some?
                                then [Started(inFlight.value.keys, inFlight.value.user)] else []
    {
      var keys := pendingKeys;
      pendingKeys := {};
      keys := FoldFailedKeysIntoNewWrite(keys);
      if keys == {} {
        return;
      }
      StartOrQueue(keys);
    }

    /** Written keys wait for the debounce, or go out at once. */
    method Receive(written: set<Key>)
      modifies this
      ensures var s := old(Abs()).(pending := old(Abs()).pending + written);
              Abs() == if policy.coalesce then s.(debounceArmed := true) else DispatchPending(s)
      ensures log == old(log) + if old(inFlight).None? && inFlight.Some?
                                then [Started(inFlight.value.keys, inFlight.value.user)] else []
    {
      pendingKeys := pendingKeys + written;
      if policy.coalesce {
        debounceTimer := true;
      } else {
        Dispatch();
      }
    }

    /** The cache subscription: a write of `names` by the subscribed identity was published. */
    method OnWrite(names: set<string>)
      requires Sound(policy, Abs(), log)
      modifies this
      ensures Abs() == Step(policy, old(Abs()), Write(names))
      ensures log == old(log) + Observed(old(Abs()), Write(names), Abs())
      ensures Sound(policy, Abs(), log)
    {
      var written := Written(Abs(), names);
      log := log + [Wrote(written)];
      if !disposed && subscribedUserId.Some? {
        Receive(written);
      }
      assert Abs() == HandleWrite(policy, old(Abs()), names);
      assert log == old(log) + [Wrote(written)] + Start(old(Abs()), Write(names), Abs());
      assert log == old(log) + ([Wrote(written)] + Start(old(Abs()), Write(names), Abs()));
      StepKeepsSound(policy, old(Abs()), Write(names), old(log));
    }

    method OnDebounceTimer()
      requires Sound(policy, Abs(), log) && debounceTimer
      modifies this
      ensures Abs() == Step(policy, old(Abs()), DebounceFires)
      ensures log == old(log) + Observed(old(Abs()), DebounceFires, Abs())
      ensures Sound(policy, Abs(), log)
    {
      debounceTimer := false;
      Dispatch();
      StepKeepsSound(policy, old(Abs()), DebounceFires, old(log));
    }

    method OnRetryTimer()
      requires Sound(policy, Abs(), log) && retryTimer.Some?
      modifies this
      ensures Abs() == Step(policy, old(Abs()), RetryFires)
      ensures log == old(log) + Observed(old(Abs()), RetryFires, Abs())
      ensures Sound(policy, Abs(), log)
    {
      retryTimer := None;
      if !disposed && failedKeys.Some? {
        var keysToRetry := failedKeys.value;
        failedKeys := None;
        StartOrQueue(keysToRetry);
      }
      StepKeepsSound(policy, old(Abs()), RetryFires, old(log));
    }

    /** The `.then` or `.catch` of a settled call. */
    method RecordOutcome(outcome: Outcome)
      requires inFlight.Some?
      modifies this
      ensures Abs() == Record(policy, old(Abs()), outcome)
      ensures log == old(log) + [Settled(outcome.Resolved?)]
    {
      var call := inFlight.value;
      log := log + [Settled(outcome.Resolved?)];
      if call.user == subscribedUserId {
        match outcome
        case Resolved => lastError := None;
        case Rejected(e) => ScheduleRetry(call.keys, e);
      }
    }

    /** Its `.finally`: the slot is free, and what was queued starts with what has failed. */
    method ReleaseSlot()
      modifies this
      ensures Abs() == Release(old(Abs()))
      ensures log == old(log) + if inFlight.Some? then [Started(inFlight.value.keys, inFlight.value.user)] else []
    {
      inFlight := None;
      if rerunKeys.Some? {
        var next := rerunKeys.value;
        rerunKeys := None;
        next := FoldFailedKeysIntoNewWrite(next);
        StartOrQueue(next);
      }
    }

    /** The running handler call settles. */
    method OnSettled(outcome: Outcome)
      requires Sound(policy, Abs(), log) && inFlight.Some?
      modifies this
      ensures Abs() == Step(policy, old(Abs()), Settles(outcome))
      ensures log == old(log) + Observed(old(Abs()), Settles(outcome), Abs())
      ensures Sound(policy, Abs(), log)
    {
      RecordOutcome(outcome);
      ReleaseSlot();
      StepKeepsSound(policy, old(Abs()), Settles(outcome), old(log));
    }

    /** The synchronous part of `flush()`; the rest only waits for the running call. */
    method FlushNow()
      requires Sound(policy, Abs(), log)
      modifies this
      ensures Abs() == Step(policy, old(Abs()), Flush)
      ensures HandedOver(old(Abs()), old(Abs().pending + Failed(Abs())), Abs()) && !debounceTimer
      ensures log == old(log) + Observed(old(Abs()), Flush, Abs())
      ensures Sound(policy, Abs(), log)
    {
      debounceTimer := false;
      Dispatch();
      StepKeepsSound(policy, old(Abs()), Flush, old(log));
      FlushHandsOver(policy, old(Abs()));
    }

    /** Everything scoped to the identity that is going: only its running call, which cannot be cancelled,
        stays, and nothing is left that could start another. */
    method DiscardIdentityState()
      modifies this
      ensures Abs() == old(Abs()).(pending := {}, debounceArmed := false, retryTimer := None, failed := None,
                                   retryAttempt := 0, lastError := None, rerun := None)
      ensures Held(Abs()) == if inFlight.Some? then inFlight.value.keys else {}
      ensures log == old(log)
    {
      pendingKeys := {};
      debounceTimer := false;
      retryTimer := None;
      failedKeys := None;
      retryAttempt := 0;
      lastError := None;
      rerunKeys := None;
    }

    method EnsureSubscribed(userId: Option<User>)
      requires Sound(policy, Abs(), log)
      modifies this
      ensures Abs() == Step(policy, old(Abs()), Switch(userId))
      ensures log == old(log) + Observed(old(Abs()), Switch(userId), Abs())
      ensures Sound(policy, Abs(), log)
    {
      if !disposed && subscribedUserId != userId {
        if subscribedUserId.Some? {
          DiscardIdentityState();
        }
        subscribedUserId := userId;
        log := log + [Switched(userId)];
      }
      StepKeepsSound(policy, old(Abs()), Switch(userId), old(log));
    }

    method Unsubscribe()
      requires Sound(policy, Abs(), log)
      modifies this
      ensures Abs() == Step(policy, old(Abs()), SourceWrite.Dispose)
      ensures log == old(log) + Observed(old(Abs()), SourceWrite.Dispose, Abs())
      ensures Sound(policy, Abs(), log)
    {
      disposed := true;
      debounceTimer := false;
      retryTimer := None;
      StepKeepsSound(policy, old(Abs()), SourceWrite.Dispose, old(log));
    }
  }

  method CanHappen(r: Reaction, e: Event) returns (possible: bool)
    ensures possible == Enabled(r.Abs(), e)
  {
    match e {
      case DebounceFires => return r.debounceTimer;
      case RetryFires => return r.retryTimer.Some?;
      case Settles(_) => return r.inFlight.Some?;
      case _ => return true;
    }
  }

  method Perform(r: Reaction, e: Event)
    requires Sound(r.policy, r.Abs(), r.log) && Enabled(r.Abs(), e)
    modifies r
    ensures r.Abs() == Step(r.policy, old(r.Abs()), e) && Sound(r.policy, r.Abs(), r.log)
    ensures r.log == old(r.log) + Observed(old(r.Abs()), e, r.Abs())
  {
    match e {
      case Write(names) => r.OnWrite(names);
      case DebounceFires => r.OnDebounceTimer();
      case RetryFires => r.OnRetryTimer();
      case Settles(outcome) => r.OnSettled(outcome);
      case Flush => r.FlushNow();
      case Switch(to) => r.EnsureSubscribed(to);
      case Dispose => r.Unsubscribe();
    }
  }

  lemma OneMore(p: Policy, s: State, es: seq<Event>, e: Event)
    requires Run(p, s, es) && Enabled(After(p, s, es), e)
    ensures Run(p, s, es + [e]) && After(p, s, es + [e]) == Step(p, After(p, s, es), e)
    decreases |es|
  {
    if es == [] {
      assert [] + [e] == [e] && [e][1..] == [];
    } else {
      OneMore(p, Step(p, s, es[0]), es[1..], e);
      assert (es + [e])[1..] == es[1..] + [e];
    }
  }

  lemma OneMoreLogged(p: Policy, s: State, es: seq<Event>, e: Event)
    requires Run(p, s, es) && Enabled(After(p, s, es), e) && Run(p, s, es + [e])
    ensures var f := After(p, s, es); Log(p, s, es + [e]) == Log(p, s, es) + Observed(f, e, Step(p, f, e))
    decreases |es|
  {
    if es == [] {
      assert [] + [e] == [e] && [e][1..] == [];
    } else {
      assert (es + [e])[1..] == es[1..] + [e];
      OneMoreLogged(p, Step(p, s, es[0]), es[1..], e);
    }
  }

  /** The run `es` from `s` leads to `f`, and takes the log from `before` to `after`. */
  ghost predicate Leads(p: Policy, s: State, before: seq<Entry>, es: seq<Event>, f: State, after: seq<Entry>) {
    Run(p, s, es) && f == After(p, s, es) && after == before + Log(p, s, es)
  }

  lemma LeadsFurther(p: Policy, s: State, before: seq<Entry>, es: seq<Event>, f: State, after: seq<Entry>, e: Event)
    requires Leads(p, s, before, es, f, after) && Enabled(f, e)
    ensures Leads(p, s, before, es + [e], Step(p, f, e), after + Observed(f, e, Step(p, f, e)))
  {
    OneMore(p, s, es, e);
    OneMoreLogged(p, s, es, e);
  }

  /** Any sequence of notifications, timers, settlements, flushes, identity changes and teardown on one
      reaction (a call that its state does not admit cannot happen): every owed key is held, everything held
      belongs to the subscribed identity, and every handler call that was started carried only keys of the
      identity subscribed at that moment. */
  method Interleave(r: Reaction, es: seq<Event>) returns (ghost done: seq<Event>)
    requires Sound(r.policy, r.Abs(), r.log)
    modifies r
    ensures Sound(r.policy, r.Abs(), r.log) && Isolated(r.Abs())
    ensures forall k :: Owed(r.log, k) ==> k in Held(r.Abs())
    ensures Leads(r.policy, old(r.Abs()), old(r.log), done, r.Abs(), r.log)
    ensures StartsIsolated(old(r.Abs()).user, Log(r.policy, old(r.Abs()), done))
  {
    done := [];
    for i := 0 to |es|
      invariant Sound(r.policy, r.Abs(), r.log)
      invariant Leads(r.policy, old(r.Abs()), old(r.log), done, r.Abs(), r.log)
    {
      var possible := CanHappen(r, es[i]);
      if possible {
        LeadsFurther(r.policy, old(r.Abs()), old(r.log), done, r.Abs(), r.log, es[i]);
        Perform(r, es[i]);
        done := done + [es[i]];
      }
    }
    SoundMeans(r.policy, r.Abs(), r.log);
    RunIsIsolated(r.policy, old(r.Abs()), old(r.log), done);
  }

  lemma SoundMeans(p: Policy, s: State, log: seq<Entry>)
    requires Sound(p, s, log)
    ensures Isolated(s) && forall k :: Owed(log, k) ==> k in Held(s)
  {
    forall k | Owed(log, k) ensures k in Held(s) {
      LedgerMeaning(log, k);
    }
  }

  lemma RunIsIsolated(p: Policy, s: State, log: seq<Entry>, es: seq<Event>)
    requires Sound(p, s, log) && Run(p, s, es)
    ensures StartsIsolated(s.user, Log(p, s, es))
  {
    IdentityIsolation(p, s, es);
  }
}
