/**
 * The write-reaction scheduler of core/onSourceWrite.ts as a state machine over its events.
 *
 * Timers and the settlement of a handler call are events that may happen whenever they are armed or
 * in flight; the `.then`/`.catch`/`.finally` chain of one settlement is one event. A key carries the
 * identity it was written under. The machine never looks at that tag: it is there so that isolation
 * between identities can be stated.
 */
module SourceWrite {
  import opened Wrappers

  type User = string

  datatype Key = Key(owner: User, name: string)

  datatype Policy = Policy(coalesce: bool, maxAttempts: int, baseDelay: nat, maxDelay: nat)

  /** A running `handler({keys})` with the identity it was dispatched for. */
  datatype Call = Call(keys: set<Key>, user: Option<User>)

  datatype Report = Report(keys: set<Key>, error: string, attempt: nat, exhausted: bool)

  datatype State = State(
    pending: set<Key>,
    debounceArmed: bool,
    inFlight: Option<Call>,
    rerun: Option<set<Key>>,
    user: Option<User>,
    disposed: bool,
    failed: Option<set<Key>>,
    retryAttempt: nat,
    retryTimer: Option<nat>,
    lastError: Option<Report>
  )

  datatype Outcome = Resolved | Rejected(error: string)

  datatype Event =
    | Write(names: set<string>)
    | DebounceFires
    | RetryFires
    | Settles(outcome: Outcome)
    | Flush
    | Switch(to: Option<User>)
    | Dispose

  function Init(user: Option<User>): State {
    State({}, false, None, None, user, false, None, 0, None, None)
  }

  // ---------------------------------------------------------------------------------------------
  // What each closure function does to the state
  // ---------------------------------------------------------------------------------------------

  function Pow2(n: nat): nat {
    if n == 0 then 1 else 2 * Pow2(n - 1)
  }

  function Backoff(p: Policy, attempt: nat): nat
    requires attempt >= 1
  {
    var d := p.baseDelay * Pow2(attempt - 1);
    if d <= p.maxDelay then d else p.maxDelay
  }

  /** The state after `foldFailedKeysIntoNewWrite(target)` and the keys `target` ends up with. */
  function Fold(s: State, target: set<Key>): (State, set<Key>) {
    var s1 := s.(retryTimer := None);
    match s.failed
    case None => (s1, target)
    case Some(f) => (s1.(failed := None, retryAttempt := 0), target + f)
  }

  function Fail(p: Policy, s: State, keys: set<Key>, error: string): State {
    var attempt := s.retryAttempt + 1;
    var exhausted := attempt >= p.maxAttempts;
    var s1 := s.(failed := Some(keys), retryAttempt := attempt,
                 lastError := Some(Report(keys, error, attempt, exhausted)));
    if exhausted || s.disposed then s1 else s1.(retryTimer := Some(Backoff(p, attempt)))
  }

  function RunHandler(s: State, keys: set<Key>): State {
    if s.inFlight.Some? then
      s.(rerun := Some((if s.rerun.Some? then s.rerun.value else {}) + keys))
    else
      s.(inFlight := Some(Call(keys, s.user)))
  }

  function DispatchPending(s: State): State {
    var (s1, keys) := Fold(s.(pending := {}), s.pending);
    if keys == {} then s1 else RunHandler(s1, keys)
  }

  function Written(s: State, names: set<string>): set<Key> {
    if s.disposed || s.user.None? then {} else set n | n in names :: Key(s.user.value, n)
  }

  function HandleWrite(p: Policy, s: State, names: set<string>): State {
    if s.disposed || s.user.None? then s
    else
      var s1 := s.(pending := s.pending + Written(s, names));
      if p.coalesce then s1.(debounceArmed := true) else DispatchPending(s1)
  }

  function RetryTimerFires(s: State): State
    requires s.retryTimer.Some?
  {
    var s1 := s.(retryTimer := None);
    if s.disposed || s.failed.None? then s1
    else RunHandler(s1.(failed := None), s.failed.value)
  }

  /** The `.then` and `.catch` parts of a settlement. */
  function Record(p: Policy, s: State, outcome: Outcome): State
    requires s.inFlight.Some?
  {
    if s.inFlight.value.user != s.user then s
    else match outcome
      case Resolved => s.(lastError := None)
      case Rejected(e) => Fail(p, s, s.inFlight.value.keys, e)
  }

  /** The `.finally` part: free the slot and start the queued rerun, if any. */
  function Release(s: State): State {
    var s1 := s.(inFlight := None);
    match s.rerun
    case None => s1
    case Some(next) =>
      var (s2, keys) := Fold(s1.(rerun := None), next);
      RunHandler(s2, keys)
  }

  function SwitchTo(s: State, to: Option<User>): State {
    if s.user == to then s
    else if s.user.None? then s.(user := to)
    else s.(pending := {}, debounceArmed := false, retryTimer := None, failed := None,
            retryAttempt := 0, lastError := None, rerun := None, user := to)
  }

  ghost predicate Enabled(s: State, e: Event) {
    match e
    case DebounceFires => s.debounceArmed
    case RetryFires => s.retryTimer.Some?
    case Settles(_) => s.inFlight.Some?
    case _ => true
  }

  function Step(p: Policy, s: State, e: Event): State
    requires Enabled(s, e)
  {
    match e
    case Write(names) => HandleWrite(p, s, names)
    case DebounceFires => DispatchPending(s.(debounceArmed := false))
    case RetryFires => RetryTimerFires(s)
    case Settles(outcome) => Release(Record(p, s, outcome))
    case Flush => DispatchPending(s.(debounceArmed := false))
    case Switch(to) => if s.disposed then s else SwitchTo(s, to)
    case Dispose => s.(disposed := true, debounceArmed := false, retryTimer := None)
  }

  // ---------------------------------------------------------------------------------------------
  // Runs, and the log of what an observer outside the scheduler sees
  // ---------------------------------------------------------------------------------------------

  datatype Entry =
    | Wrote(keys: set<Key>)
    | Started(keys: set<Key>, user: Option<User>)
    | Settled(ok: bool)
    | Switched(to: Option<User>)

  /** The entry of the event itself. */
  function Cause(s: State, e: Event): seq<Entry> {
    match e
    case Write(names) => [Wrote(Written(s, names))]
    case Settles(outcome) => [Settled(outcome.Resolved?)]
    case Switch(to) => if !s.disposed && s.user != to then [Switched(to)] else []
    case _ => []
  }

  /** The handler call that starts in the step from `s` to `s'`, if one does. */
  function Start(s: State, e: Event, s': State): seq<Entry> {
    if s'.inFlight.Some? && (s.inFlight.None? || e.Settles?)
    then [Started(s'.inFlight.value.keys, s'.inFlight.value.user)] else []
  }

  function Observed(s: State, e: Event, s': State): seq<Entry> {
    Cause(s, e) + Start(s, e, s')
  }

  ghost predicate Run(p: Policy, s: State, es: seq<Event>)
    decreases |es|
  {
    es == [] || (Enabled(s, es[0]) && Run(p, Step(p, s, es[0]), es[1..]))
  }

  ghost function After(p: Policy, s: State, es: seq<Event>): State
    requires Run(p, s, es)
    decreases |es|
  {
    if es == [] then s else After(p, Step(p, s, es[0]), es[1..])
  }

  ghost function Log(p: Policy, s: State, es: seq<Event>): seq<Entry>
    requires Run(p, s, es)
    decreases |es|
  {
    if es == [] then []
    else var s' := Step(p, s, es[0]); Observed(s, es[0], s') + Log(p, s', es[1..])
  }

  // ---------------------------------------------------------------------------------------------
  // The invariant of every run
  // ---------------------------------------------------------------------------------------------

  ghost predicate Owned(keys: set<Key>, user: Option<User>) {
    forall k :: k in keys ==> user == Some(k.owner)
  }

  ghost predicate OwnedBatch(batch: Option<set<Key>>, user: Option<User>) {
    batch.Some? ==> batch.value != {} && Owned(batch.value, user)
  }

  /** Everything the scheduler still means to do belongs to the subscribed identity. */
  ghost predicate Isolated(s: State) {
    && Owned(s.pending, s.user)
    && OwnedBatch(s.rerun, s.user)
    && OwnedBatch(s.failed, s.user)
    && (s.lastError.Some? ==> OwnedBatch(Some(s.lastError.value.keys), s.user))
    && (s.inFlight.Some? ==> OwnedBatch(Some(s.inFlight.value.keys), s.inFlight.value.user))
  }

  ghost predicate Bookkeeping(p: Policy, s: State) {
    && (s.inFlight.Some? ==> s.failed.None? && s.retryTimer.None?)
    && (s.rerun.Some? ==> s.inFlight.Some?)
    && (s.failed.Some? ==> s.lastError.Some? && s.lastError.value.keys == s.failed.value
                           && s.lastError.value.attempt == s.retryAttempt)
    && (s.lastError.Some? ==> (s.lastError.value.exhausted <==> s.lastError.value.attempt >= p.maxAttempts))
    && (s.lastError.Some? && s.inFlight.None? ==> s.failed.Some?)
    && (s.lastError.Some? && s.inFlight.Some? ==>
          s.inFlight.value.user == s.user && s.lastError.value.keys <= s.inFlight.value.keys)
    && (s.inFlight.Some? && s.inFlight.value.user != s.user ==> s.retryAttempt == 0)
    && (s.retryTimer.Some? ==> s.failed.Some? && !s.lastError.value.exhausted
                               && s.retryAttempt >= 1 && s.retryTimer.value == Backoff(p, s.retryAttempt))
  }

  /** Until the reaction is torn down, whatever waits has a timer or a running call behind it. */
  ghost predicate Continued(p: Policy, s: State) {
    && (s.pending != {} ==> s.debounceArmed)
    && (s.failed.Some? ==> s.retryTimer.Some? || (s.lastError.Some? && s.lastError.value.exhausted))
  }

  ghost predicate Inv(p: Policy, s: State) {
    Isolated(s) && Bookkeeping(p, s) && (!s.disposed ==> Continued(p, s))
  }

  lemma DispatchKeepsInv(p: Policy, s: State)
    requires Isolated(s) && Bookkeeping(p, s)
    requires !s.disposed ==> Continued(p, s.(pending := {}))
    ensures Inv(p, DispatchPending(s))
  {
    var (s1, keys) := Fold(s.(pending := {}), s.pending);
    assert Owned(keys, s.user);
  }

  lemma FoldedStartKeepsInv(p: Policy, s: State, next: set<Key>)
    requires Inv(p, s) && s.inFlight.None? && next != {} && Owned(next, s.user)
    ensures var (s1, keys) := Fold(s, next); Inv(p, RunHandler(s1, keys))
  {
    assert Owned(Fold(s, next).1, s.user);
  }

  lemma RecordKeepsInv(p: Policy, s: State, outcome: Outcome)
    requires Inv(p, s) && s.inFlight.Some?
    ensures Inv(p, Record(p, s, outcome).(inFlight := None, rerun := None))
  {
  }

  lemma SettleKeepsInv(p: Policy, s: State, outcome: Outcome)
    requires Inv(p, s) && s.inFlight.Some?
    ensures Inv(p, Release(Record(p, s, outcome)))
  {
    RecordKeepsInv(p, s, outcome);
    if s.rerun.Some? {
      FoldedStartKeepsInv(p, Record(p, s, outcome).(inFlight := None, rerun := None), s.rerun.value);
    }
  }

  lemma StepKeepsInv(p: Policy, s: State, e: Event)
    requires Inv(p, s) && Enabled(s, e)
    ensures Inv(p, Step(p, s, e))
  {
    match e
    case Write(names) =>
      if !s.disposed && s.user.Some? && !p.coalesce {
        DispatchKeepsInv(p, s.(pending := s.pending + Written(s, names)));
      }
    case DebounceFires => DispatchKeepsInv(p, s.(debounceArmed := false));
    case RetryFires =>
    case Settles(outcome) => SettleKeepsInv(p, s, outcome);
    case Flush => DispatchKeepsInv(p, s.(debounceArmed := false));
    case Switch(to) =>
    case Dispose =>
  }

  lemma {:induction false} RunKeepsInv(p: Policy, s: State, es: seq<Event>)
    requires Inv(p, s) && Run(p, s, es)
    ensures Inv(p, After(p, s, es))
    decreases |es|
  {
    if es != [] {
      StepKeepsInv(p, s, es[0]);
      RunKeepsInv(p, Step(p, s, es[0]), es[1..]);
    }
  }

  // ---------------------------------------------------------------------------------------------
  // Key conservation
  // ---------------------------------------------------------------------------------------------

  /** `l` is the settlement of the handler call started at `j`, it succeeded, and the call carried `k`. */
  ghost predicate Discharges(log: seq<Entry>, j: int, l: int, k: Key) {
    && 0 <= j < l < |log|
    && log[j].Started? && k in log[j].keys
    && log[l] == Settled(true)
    && forall m :: j < m < l ==> !log[m].Started? && !log[m].Settled?
  }

  ghost predicate WroteAndStayed(log: seq<Entry>, i: int, k: Key) {
    && 0 <= i < |log|
    && log[i].Wrote? && k in log[i].keys
    && forall m :: i < m < |log| ==> !log[m].Switched?
  }

  ghost predicate Discharged(log: seq<Entry>, i: int, k: Key) {
    exists j, l :: i < j && Discharges(log, j, l, k)
  }

  /** Some write of `k` by the current identity has not been followed by a successful call that both
      started after it and carried `k`. */
  ghost predicate Owed(log: seq<Entry>, k: Key) {
    exists i :: WroteAndStayed(log, i, k) && !Discharged(log, i, k)
  }

  function Held(s: State): set<Key> {
    s.pending
    + (if s.inFlight.Some? then s.inFlight.value.keys else {})
    + (if s.rerun.Some? then s.rerun.value else {})
    + (if s.failed.Some? then s.failed.value else {})
  }

  /** Keys owed, and those among them the running call will discharge if it succeeds. */
  datatype Ledger = Ledger(owed: set<Key>, covered: set<Key>)

  function Advance(led: Ledger, x: Entry): Ledger {
    match x
    case Wrote(ks) => Ledger(led.owed + ks, led.covered - ks)
    case Started(ks, _) => Ledger(led.owed, ks)
    case Settled(ok) => Ledger(if ok then led.owed - led.covered else led.owed, {})
    case Switched(_) => Ledger({}, {})
  }

  function Replay(log: seq<Entry>): Ledger {
    if log == [] then Ledger({}, {}) else Advance(Replay(log[..|log|-1]), log[|log|-1])
  }

  ghost predicate CoveredNow(log: seq<Entry>, i: int, k: Key) {
    exists j :: 0 <= i < j < |log| && log[j].Started? && k in log[j].keys
                && forall m :: j < m < |log| ==> !log[m].Started? && !log[m].Settled?
  }

  ghost predicate Uncovered(log: seq<Entry>, k: Key) {
    exists i :: WroteAndStayed(log, i, k) && !Discharged(log, i, k) && !CoveredNow(log, i, k)
  }

  /** The ledger is the quantified reading of the log: owed keys, and owed keys no running call covers. */
  lemma {:induction false} LedgerMeaning(log: seq<Entry>, k: Key)
    ensures k in Replay(log).owed <==> Owed(log, k)
    ensures k in Replay(log).owed - Replay(log).covered <==> Uncovered(log, k)
  {
    if log != [] {
      var n := |log| - 1;
      LedgerMeaning(log[..n], k);
      OwedAfterEntry(log[..n], log[n], k);
      UncoveredAfterEntry(log[..n], log[n], k);
      assert log == log[..n] + [log[n]];
    }
  }

  /** How one more entry changes who is owed. */
  lemma OwedAfterEntry(log: seq<Entry>, x: Entry, k: Key)
    ensures Owed(log + [x], k) <==>
              match x
              case Wrote(ks) => k in ks || Owed(log, k)
              case Started(_, _) => Owed(log, k)
              case Settled(ok) => if ok then Uncovered(log, k) else Owed(log, k)
              case Switched(_) => false
  {
    var after := log + [x];
    forall i | 0 <= i <= |log| ensures Fact(log, x, i, k) { EntryFact(log, x, i, k); }
    if Owed(after, k) {
      var i :| WroteAndStayed(after, i, k) && !Discharged(after, i, k);
      assert Fact(log, x, i, k);
    }
    if x.Wrote? && k in x.keys {
      assert Fact(log, x, |log|, k);
    } else if !x.Switched? && if x == Settled(true) then Uncovered(log, k) else Owed(log, k) {
      var i :| WroteAndStayed(log, i, k) && !Discharged(log, i, k)
               && (x == Settled(true) ==> !CoveredNow(log, i, k));
      assert Fact(log, x, i, k);
    }
  }

  /** How one more entry changes who is uncovered. */
  lemma UncoveredAfterEntry(log: seq<Entry>, x: Entry, k: Key)
    ensures Uncovered(log + [x], k) <==>
              match x
              case Wrote(ks) => k in ks || Uncovered(log, k)
              case Started(ks, _) => Owed(log, k) && k !in ks
              case Settled(ok) => if ok then Uncovered(log, k) else Owed(log, k)
              case Switched(_) => false
  {
    var after := log + [x];
    forall i | 0 <= i <= |log| ensures Fact(log, x, i, k) { EntryFact(log, x, i, k); }
    if Uncovered(after, k) {
      var i :| WroteAndStayed(after, i, k) && !Discharged(after, i, k) && !CoveredNow(after, i, k);
      assert Fact(log, x, i, k);
    }
    var needsUncovered := x.Wrote? || x == Settled(true);
    if x.Wrote? && k in x.keys {
      assert Fact(log, x, |log|, k);
    } else if !x.Switched? && !(x.Started? && k in x.keys)
              && if needsUncovered then Uncovered(log, k) else Owed(log, k) {
      var i :| WroteAndStayed(log, i, k) && !Discharged(log, i, k)
               && (needsUncovered ==> !CoveredNow(log, i, k));
      assert Fact(log, x, i, k);
    }
  }

  ghost predicate Fact(log: seq<Entry>, x: Entry, i: int, k: Key)
    requires 0 <= i <= |log|
  {
    var after := log + [x];
    if i == |log| then
      && (WroteAndStayed(after, i, k) <==> x.Wrote? && k in x.keys)
      && !Discharged(after, i, k) && !CoveredNow(after, i, k)
    else
      && (WroteAndStayed(after, i, k) <==> WroteAndStayed(log, i, k) && !x.Switched?)
      && (Discharged(after, i, k) <==> Discharged(log, i, k) || (x == Settled(true) && CoveredNow(log, i, k)))
      && (CoveredNow(after, i, k) <==> if x.Started? then k in x.keys else !x.Settled? && CoveredNow(log, i, k))
  }

  lemma EntryFact(log: seq<Entry>, x: Entry, i: int, k: Key)
    requires 0 <= i <= |log|
    ensures Fact(log, x, i, k)
  {
    StayedAfterEntry(log, x, i, k);
    if i < |log| {
      DischargedAfterEntry(log, x, i, k);
      CoveredAfterEntry(log, x, i, k);
    }
  }

  lemma StayedAfterEntry(log: seq<Entry>, x: Entry, i: int, k: Key)
    ensures WroteAndStayed(log + [x], i, k) <==>
              if i == |log| then x.Wrote? && k in x.keys else WroteAndStayed(log, i, k) && !x.Switched?
  {
    var after := log + [x];
    assert forall m :: 0 <= m < |log| ==> after[m] == log[m];
    assert after[|log|] == x;
    if 0 <= i < |log| && !x.Switched? && WroteAndStayed(log, i, k) {
      assert forall m :: i < m < |after| ==> !after[m].Switched?;
    }
    if 0 <= i < |log| && WroteAndStayed(after, i, k) {
      assert forall m :: i < m < |log| ==> !after[m].Switched?;
    }
  }

  lemma DischargedAfterEntry(log: seq<Entry>, x: Entry, i: int, k: Key)
    requires 0 <= i < |log|
    ensures Discharged(log + [x], i, k) <==> Discharged(log, i, k) || (x == Settled(true) && CoveredNow(log, i, k))
  {
    var after := log + [x];
    assert forall m :: 0 <= m < |log| ==> after[m] == log[m];
    if Discharged(log, i, k) {
      var j, l :| i < j && Discharges(log, j, l, k);
      assert Discharges(after, j, l, k);
    }
    if x == Settled(true) && CoveredNow(log, i, k) {
      var j :| 0 <= i < j < |log| && log[j].Started? && k in log[j].keys
               && forall m :: j < m < |log| ==> !log[m].Started? && !log[m].Settled?;
      assert Discharges(after, j, |log|, k);
    }
    if Discharged(after, i, k) {
      var j, l :| i < j && Discharges(after, j, l, k);
      if l < |log| {
        assert forall m :: j < m < l ==> log[m] == after[m];
        assert Discharges(log, j, l, k);
      } else {
        assert log[j].Started? && k in log[j].keys;
        assert forall m :: j < m < |log| ==> log[m] == after[m];
      }
    }
  }

  lemma CoveredAfterEntry(log: seq<Entry>, x: Entry, i: int, k: Key)
    requires 0 <= i < |log|
    ensures CoveredNow(log + [x], i, k) <==>
              if x.Started? then k in x.keys else !x.Settled? && CoveredNow(log, i, k)
  {
    var after := log + [x];
    assert after[|log|] == x;
    if x.Started? && k in x.keys {
      assert after[|log|].Started? && k in after[|log|].keys;
    }
    if !x.Started? && !x.Settled? && CoveredNow(log, i, k) {
      var j :| 0 <= i < j < |log| && log[j].Started? && k in log[j].keys
               && forall m :: j < m < |log| ==> !log[m].Started? && !log[m].Settled?;
      assert after[j] == log[j];
      assert forall m :: j < m < |after| ==> !after[m].Started? && !after[m].Settled?;
    }
    if CoveredNow(after, i, k) {
      var j :| 0 <= i < j < |after| && after[j].Started? && k in after[j].keys
               && forall m :: j < m < |after| ==> !after[m].Started? && !after[m].Settled?;
      if j < |log| {
        assert log[j] == after[j];
        assert forall m :: j < m < |log| ==> log[m] == after[m];
      }
    }
  }

  ghost predicate Conserves(s: State, led: Ledger) {
    && led.owed <= Held(s)
    && led.covered <= (if s.inFlight.Some? then s.inFlight.value.keys else {})
    && led.owed - led.covered <= Held(s.(inFlight := None))
    && (s.inFlight.Some? && s.inFlight.value.user != s.user ==> led.covered == {})
  }

  function AdvanceAll(led: Ledger, xs: seq<Entry>): Ledger
    decreases |xs|
  {
    if xs == [] then led else AdvanceAll(Advance(led, xs[0]), xs[1..])
  }

  lemma {:induction false} ReplayAll(log: seq<Entry>, xs: seq<Entry>)
    ensures Replay(log + xs) == AdvanceAll(Replay(log), xs)
    decreases |xs|
  {
    if xs == [] {
      assert log + xs == log;
    } else {
      assert log + xs == (log + [xs[0]]) + xs[1..];
      assert (log + [xs[0]])[..|log|] == log;
      ReplayAll(log + [xs[0]], xs[1..]);
    }
  }

  lemma {:induction false} AdvanceAllAppend(led: Ledger, xs: seq<Entry>, ys: seq<Entry>)
    ensures AdvanceAll(led, xs + ys) == AdvanceAll(AdvanceAll(led, xs), ys)
    decreases |xs|
  {
    if xs == [] {
      assert xs + ys == ys;
    } else {
      assert (xs + ys)[1..] == xs[1..] + ys;
      AdvanceAllAppend(Advance(led, xs[0]), xs[1..], ys);
    }
  }

  lemma DispatchConserves(p: Policy, s: State, e: Event, led: Ledger)
    requires Isolated(s) && Bookkeeping(p, s) && Conserves(s, led) && !e.Settles?
    ensures Conserves(DispatchPending(s), AdvanceAll(led, Start(s, e, DispatchPending(s))))
  {
  }

  lemma RetryConserves(p: Policy, s: State, led: Ledger)
    requires Inv(p, s) && s.retryTimer.Some? && Conserves(s, led)
    ensures Conserves(RetryTimerFires(s), AdvanceAll(led, Start(s, RetryFires, RetryTimerFires(s))))
  {
  }

  lemma SettleConserves(p: Policy, s: State, outcome: Outcome, led: Ledger)
    requires Inv(p, s) && s.inFlight.Some? && Conserves(s, led)
    ensures var s' := Release(Record(p, s, outcome));
            Conserves(s', AdvanceAll(Advance(led, Settled(outcome.Resolved?)), Start(s, Settles(outcome), s')))
  {
    var s1 := Record(p, s, outcome);
    var led1 := Advance(led, Settled(outcome.Resolved?));
    assert led1.covered == {};
    assert led1.owed <= Held(s1.(inFlight := None));
    if s.rerun.Some? {
      assert led1.owed <= Held(Release(s1));
    }
  }

  lemma WriteConserves(p: Policy, s: State, names: set<string>, led: Ledger)
    requires Inv(p, s) && Conserves(s, led)
    ensures var s' := HandleWrite(p, s, names);
            Conserves(s', AdvanceAll(Advance(led, Wrote(Written(s, names))), Start(s, Write(names), s')))
  {
    if !s.disposed && s.user.Some? && !p.coalesce {
      var s1 := s.(pending := s.pending + Written(s, names));
      DispatchConserves(p, s1, Write(names), Advance(led, Wrote(Written(s, names))));
    }
  }

  lemma StepConserves(p: Policy, s: State, e: Event, led: Ledger)
    requires Inv(p, s) && Enabled(s, e) && Conserves(s, led)
    ensures var s' := Step(p, s, e); Conserves(s', AdvanceAll(led, Observed(s, e, s')))
  {
    var s' := Step(p, s, e);
    AdvanceAllAppend(led, Cause(s, e), Start(s, e, s'));
    match e
    case Write(names) => WriteConserves(p, s, names, led);
    case DebounceFires => DispatchConserves(p, s.(debounceArmed := false), e, led);
    case RetryFires => RetryConserves(p, s, led);
    case Settles(outcome) => SettleConserves(p, s, outcome, led);
    case Flush => DispatchConserves(p, s.(debounceArmed := false), e, led);
    case Switch(to) =>
    case Dispose =>
  }

  /** What every reachable pair of a scheduler state and its log satisfies. */
  ghost predicate Sound(p: Policy, s: State, log: seq<Entry>) {
    Inv(p, s) && Conserves(s, Replay(log))
  }

  lemma InitIsSound(p: Policy, user: Option<User>)
    ensures Sound(p, Init(user), [])
  {
  }

  lemma StepKeepsSound(p: Policy, s: State, e: Event, log: seq<Entry>)
    requires Sound(p, s, log) && Enabled(s, e)
    ensures Sound(p, Step(p, s, e), log + Observed(s, e, Step(p, s, e)))
  {
    StepKeepsInv(p, s, e);
    ReplayAll(log, Observed(s, e, Step(p, s, e)));
    StepConserves(p, s, e, Replay(log));
  }

  lemma {:induction false} RunKeepsSound(p: Policy, s: State, es: seq<Event>, log: seq<Entry>)
    requires Sound(p, s, log) && Run(p, s, es)
    ensures Sound(p, After(p, s, es), log + Log(p, s, es))
    decreases |es|
  {
    if es == [] {
      assert log + [] == log;
    } else {
      var s' := Step(p, s, es[0]);
      var seen := Observed(s, es[0], s');
      var rest := Log(p, s', es[1..]);
      assert log + (seen + rest) == (log + seen) + rest;
      StepKeepsSound(p, s, es[0], log);
      RunKeepsSound(p, s', es[1..], log + seen);
    }
  }

  /** What folding does for the caller: every key that had failed is in the batch and none is left to a timer,
      nothing else moves, and a batch that takes failed keys over is given its budget back. */
  lemma FoldKeepsEveryKey(s: State, target: set<Key>)
    ensures var (s', batch) := Fold(s, target);
            && Held(s') + batch == Held(s) + target && target <= batch
            && batch == target + Failed(s) && s'.failed.None? && s'.retryTimer.None?
            && Held(s') + Failed(s) == Held(s)
            && s'.retryAttempt == (if s.failed.Some? then 0 else s.retryAttempt)
            && s'.(failed := s.failed, retryTimer := s.retryTimer, retryAttempt := s.retryAttempt) == s
  {
  }

  function Failed(s: State): set<Key> {
    if s.failed.Some? then s.failed.value else {}
  }

  /** What was waiting is with the handler: a call with exactly `keys` starts when none is running, otherwise they
      join the queued rerun; nothing is left waiting, and no timer is armed. */
  ghost predicate HandedOver(s: State, keys: set<Key>, s': State) {
    && s'.pending == {} && s'.failed.None? && s'.retryTimer.None?
    && (keys == {} ==> s'.inFlight == s.inFlight && s'.rerun == s.rerun)
    && (keys != {} && s.inFlight.None? ==> s'.inFlight == Some(Call(keys, s.user)) && s'.rerun == s.rerun)
    && (keys != {} && s.inFlight.Some? ==>
          s'.inFlight == s.inFlight && s'.rerun == Some(keys + if s.rerun.Some? then s.rerun.value else {}))
    && s'.user == s.user && s'.disposed == s.disposed && s'.lastError == s.lastError
    && s'.retryAttempt == if s.failed.Some? then 0 else s.retryAttempt
  }

  /** `flush()`, and the debounce when it fires: both disarm it, and hand over everything pending and failed. */
  lemma FlushHandsOver(p: Policy, s: State)
    ensures HandedOver(s, s.pending + Failed(s), Step(p, s, Flush)) && !Step(p, s, Flush).debounceArmed
    ensures s.debounceArmed ==>
              HandedOver(s, s.pending + Failed(s), Step(p, s, DebounceFires)) && !Step(p, s, DebounceFires).debounceArmed
  {
    DispatchHandsOver(s.(debounceArmed := false));
  }

  lemma DispatchHandsOver(s: State)
    ensures HandedOver(s, s.pending + Failed(s), DispatchPending(s))
    ensures DispatchPending(s).debounceArmed == s.debounceArmed
  {
    assert s.failed.None? ==> s.pending + Failed(s) == s.pending;
    var keys := s.pending + Failed(s);
    assert s.rerun.None? ==> {} + keys == keys + {};
    assert s.rerun.Some? ==> s.rerun.value + keys == keys + s.rerun.value;
  }

  /** A write under the subscribed identity: its keys, and no others, are logged as written. A coalescing reaction
      lets them wait for the debounce, any other hands them over at once. */
  lemma WriteIsTaken(p: Policy, s: State, names: set<string>, u: User)
    requires !s.disposed && s.user == Some(u)
    ensures var keys := set n | n in names :: Key(u, n);
            var s' := Step(p, s, Write(names));
            && Cause(s, Write(names)) == [Wrote(keys)] && keys <= Held(s')
            && (p.coalesce ==> s' == s.(pending := s.pending + keys, debounceArmed := true))
            && (!p.coalesce ==> HandedOver(s, s.pending + keys + Failed(s), s'))
  {
    DispatchHandsOver(s.(pending := s.pending + Written(s, names)));
  }

  /** Without an identity, or after teardown, a write is nobody's: it changes nothing and nothing is owed for it. */
  lemma WriteIsIgnored(p: Policy, s: State, names: set<string>)
    requires s.disposed || s.user.None?
    ensures Step(p, s, Write(names)) == s && Cause(s, Write(names)) == [Wrote({})]
  {
  }

  /** The retry timer starts a call with exactly the keys that failed, and leaves what is pending and the count. */
  lemma RetryDrainsTheFailed(p: Policy, s: State)
    requires Inv(p, s) && s.retryTimer.Some? && !s.disposed
    ensures Step(p, s, RetryFires)
            == s.(retryTimer := None, failed := None, inFlight := Some(Call(Failed(s), s.user)))
  {
  }

  /** What a settlement comes to. A call of the subscribed identity clears the error or reports its own keys; a call
      of an earlier identity does neither. Then the queued rerun starts, with what has just failed; without one the
      failed keys wait, and the slot is free. */
  lemma SettlementMeans(p: Policy, s: State, outcome: Outcome)
    requires Inv(p, s) && s.inFlight.Some?
    ensures var s' := Step(p, s, Settles(outcome));
            var fails := outcome.Rejected? && s.inFlight.value.user == s.user;
            var keys := if fails then s.inFlight.value.keys else {};
            && s'.lastError == (if s.inFlight.value.user != s.user then s.lastError
                                else if outcome.Resolved? then None
                                else Some(Report(keys, outcome.error, s.retryAttempt + 1,
                                                 s.retryAttempt + 1 >= p.maxAttempts)))
            && s'.inFlight == (if s.rerun.Some? then Some(Call(s.rerun.value + keys, s.user)) else None)
            && s'.rerun.None? && s'.failed == (if fails && s.rerun.None? then Some(keys) else None)
            && s'.retryAttempt == (if !fails then s.retryAttempt else if s.rerun.Some? then 0 else s.retryAttempt + 1)
            && s'.pending == s.pending && s'.debounceArmed == s.debounceArmed && s'.user == s.user
  {
    assert s.rerun.Some? ==> s.rerun.value + {} == s.rerun.value;
  }

  /** To another identity the reaction is a new one, except for the call that is still running; a first identity
      finds what is there, and the same one again changes nothing. */
  lemma SwitchMeans(p: Policy, s: State, to: Option<User>)
    requires !s.disposed
    ensures Step(p, s, Switch(to)) == if to == s.user then s
                                      else if s.user.None? then s.(user := to)
                                      else Init(to).(inFlight := s.inFlight)
  {
  }

  /** After teardown no timer is armed ever again, and nothing is ever pending that was not. */
  lemma {:induction false} TornDownStaysQuiet(p: Policy, s: State, es: seq<Event>)
    requires Run(p, Step(p, s, Dispose), es)
    ensures var f := After(p, Step(p, s, Dispose), es);
            f.disposed && !f.debounceArmed && f.retryTimer.None? && f.user == s.user && f.pending <= s.pending
  {
    DisposedStaysQuiet(p, Step(p, s, Dispose), es);
  }

  lemma {:induction false} DisposedStaysQuiet(p: Policy, s: State, es: seq<Event>)
    requires Run(p, s, es) && s.disposed && !s.debounceArmed && s.retryTimer.None?
    ensures var f := After(p, s, es);
            f.disposed && !f.debounceArmed && f.retryTimer.None? && f.user == s.user && f.pending <= s.pending
    decreases |es|
  {
    if es != [] {
      DisposedStaysQuiet(p, Step(p, s, es[0]), es[1..]);
    }
  }

  /** What recording a failure leaves behind, unless the reaction has been torn down: the batch is held and
      reported, and either a retry is armed, no sooner than any earlier one and within the cap, or the report
      says that the scheduler has given up. */
  lemma FailLeavesAContinuation(p: Policy, s: State, keys: set<Key>, error: string)
    requires !s.disposed && s.retryTimer.None?
    ensures var s' := Fail(p, s, keys, error);
            && s'.failed == Some(keys) && s'.lastError.Some? && s'.lastError.value.keys == keys
            && s'.lastError.value.error == error && s'.lastError.value.attempt == s'.retryAttempt == s.retryAttempt + 1
            && (s'.retryTimer.Some? <==> !s'.lastError.value.exhausted)
            && (s'.lastError.value.exhausted <==> p.maxAttempts - s.retryAttempt <= 1)
            && (s'.retryTimer.Some? ==> s'.retryTimer.value <= p.maxDelay
                                        && (s.retryAttempt >= 1 ==> Backoff(p, s.retryAttempt) <= s'.retryTimer.value))
  {
    BackoffMonotone(p, if s.retryAttempt >= 1 then s.retryAttempt else 1, s.retryAttempt + 1);
  }

  /** Key conservation over every run: no owed key is ever dropped. */
  lemma KeyConservation(p: Policy, user: Option<User>, es: seq<Event>, k: Key)
    requires Run(p, Init(user), es)
    requires Owed(Log(p, Init(user), es), k)
    ensures k in Held(After(p, Init(user), es))
  {
    RunKeepsSound(p, Init(user), es, []);
    assert [] + Log(p, Init(user), es) == Log(p, Init(user), es);
    LedgerMeaning(Log(p, Init(user), es), k);
  }

  /** Every owed key either will be tried again without a new write, or is reported as given up. */
  lemma OwedKeysProgress(p: Policy, user: Option<User>, es: seq<Event>, k: Key)
    requires Run(p, Init(user), es)
    requires Owed(Log(p, Init(user), es), k)
    ensures var s := After(p, Init(user), es);
            s.disposed
            || (k in s.pending && s.debounceArmed)
            || (s.inFlight.Some? && (k in s.inFlight.value.keys || (s.rerun.Some? && k in s.rerun.value)))
            || (s.failed.Some? && k in s.failed.value && s.retryTimer.Some?)
            || (s.lastError.Some? && k in s.lastError.value.keys && s.lastError.value.exhausted)
  {
    KeyConservation(p, user, es, k);
    RunKeepsInv(p, Init(user), es);
  }

  /** A settlement clears an error only when the call's own batch contained every key the error reports. */
  lemma SuccessClearsItsOwnError(p: Policy, user: Option<User>, es: seq<Event>, outcome: Outcome)
    requires Run(p, Init(user), es) && Enabled(After(p, Init(user), es), Settles(outcome))
    ensures var s := After(p, Init(user), es);
            s.lastError.Some? && Step(p, s, Settles(outcome)).lastError.None? ==>
              outcome.Resolved? && s.lastError.value.keys <= s.inFlight.value.keys
  {
    RunKeepsInv(p, Init(user), es);
  }

  // ---------------------------------------------------------------------------------------------
  // Identity isolation
  // ---------------------------------------------------------------------------------------------

  /** Every handler call in `log` starts under the identity subscribed at that moment, with its keys only. */
  ghost predicate StartsIsolated(user: Option<User>, log: seq<Entry>)
    decreases |log|
  {
    log == []
    || (match log[0]
        case Switched(to) => StartsIsolated(to, log[1..])
        case Started(keys, caller) => caller == user && user.Some? && keys != {} && Owned(keys, user)
                                  && StartsIsolated(user, log[1..])
        case _ => StartsIsolated(user, log[1..]))
  }

  lemma StartIsIsolated(p: Policy, s: State, e: Event)
    requires Inv(p, s) && Enabled(s, e)
    ensures var s' := Step(p, s, e);
            Start(s, e, s') != [] ==> s'.inFlight.value.user == s'.user && s'.user.Some?
  {
    var s' := Step(p, s, e);
    StepKeepsInv(p, s, e);
    if Start(s, e, s') != [] {
      var k :| k in s'.inFlight.value.keys;
    }
  }

  lemma StartThenRestIsolated(p: Policy, s: State, e: Event, rest: seq<Entry>)
    requires Inv(p, s) && Enabled(s, e)
    requires StartsIsolated(Step(p, s, e).user, rest)
    ensures StartsIsolated(Step(p, s, e).user, Start(s, e, Step(p, s, e)) + rest)
  {
    var s' := Step(p, s, e);
    StepKeepsInv(p, s, e);
    StartIsIsolated(p, s, e);
    var tail := Start(s, e, s') + rest;
    if Start(s, e, s') != [] {
      assert tail[1..] == rest;
    } else {
      assert tail == rest;
    }
  }

  lemma CauseThenTailIsolated(p: Policy, s: State, e: Event, tail: seq<Entry>)
    requires Enabled(s, e) && StartsIsolated(Step(p, s, e).user, tail)
    ensures StartsIsolated(s.user, Cause(s, e) + tail)
  {
    UserAfter(p, s, e);
    if Cause(s, e) != [] {
      assert (Cause(s, e) + tail)[1..] == tail;
    } else {
      assert Cause(s, e) + tail == tail;
    }
  }

  lemma StepStartsIsolated(p: Policy, s: State, e: Event, rest: seq<Entry>)
    requires Inv(p, s) && Enabled(s, e)
    requires StartsIsolated(Step(p, s, e).user, rest)
    ensures StartsIsolated(s.user, Observed(s, e, Step(p, s, e)) + rest)
  {
    var s' := Step(p, s, e);
    StartThenRestIsolated(p, s, e, rest);
    CauseThenTailIsolated(p, s, e, Start(s, e, s') + rest);
    assert Observed(s, e, s') + rest == Cause(s, e) + (Start(s, e, s') + rest);
  }

  lemma UserAfter(p: Policy, s: State, e: Event)
    requires Enabled(s, e)
    ensures Step(p, s, e).user == if e.Switch? && !s.disposed then e.to else s.user
  {
  }

  /** Identity isolation over every run, including A to B to A with a call of A still in flight: what is
      held belongs to the subscribed identity, and no handler call ever starts with another's keys. */
  lemma {:induction false} IdentityIsolation(p: Policy, s: State, es: seq<Event>)
    requires Inv(p, s) && Run(p, s, es)
    ensures Isolated(After(p, s, es))
    ensures StartsIsolated(s.user, Log(p, s, es))
    ensures After(p, s, es).user.None? ==>
              var f := After(p, s, es);
              f.pending == {} && f.rerun.None? && f.failed.None? && f.lastError.None?
    decreases |es|
  {
    if es != [] {
      var s' := Step(p, s, es[0]);
      StepKeepsInv(p, s, es[0]);
      IdentityIsolation(p, s', es[1..]);
      StepStartsIsolated(p, s, es[0], Log(p, s', es[1..]));
    } else if s.user.None? {
      forall k: Key ensures k !in s.pending {}
    }
  }

  // ---------------------------------------------------------------------------------------------
  // The retry budget
  // ---------------------------------------------------------------------------------------------

  function AtLeastOne(n: int): nat { if n < 1 then 1 else n }

  /** How many handler calls can still fail through retries and the queued rerun alone. */
  function RetriesLeft(p: Policy, s: State): nat {
    if s.inFlight.Some? then
      if s.rerun.Some? then 1 + AtLeastOne(p.maxAttempts)
      else if s.inFlight.value.user != s.user then 1
      else AtLeastOne(p.maxAttempts - s.retryAttempt)
    else if s.retryTimer.Some? then AtLeastOne(p.maxAttempts - s.retryAttempt)
    else 0
  }

  /** What an armed debounce can add: when it fires it folds what has failed and resets the count, so it
      brings a whole budget wherever something has failed or still may. */
  function DebounceBudget(p: Policy, s: State): nat {
    if !s.debounceArmed then 0
    else if s.inFlight.None? then
      if s.failed.Some? then AtLeastOne(p.maxAttempts)
      else if s.pending != {} then AtLeastOne(p.maxAttempts - s.retryAttempt)
      else 0
    else if s.pending == {} && s.rerun.None? && s.inFlight.value.user != s.user then 0
    else AtLeastOne(p.maxAttempts)
  }

  /** How many handler calls can still fail before the scheduler stops on its own. */
  function FailuresLeft(p: Policy, s: State): nat {
    RetriesLeft(p, s) + DebounceBudget(p, s)
  }

  /** A failure or one of the scheduler's own timers: no write, flush, switch or success. */
  predicate Unattended(e: Event) {
    e.RetryFires? || e.DebounceFires? || (e.Settles? && e.outcome.Rejected?)
  }

  predicate FailOnly(es: seq<Event>) {
    es == [] || (Unattended(es[0]) && FailOnly(es[1..]))
  }

  function Failures(es: seq<Event>): nat {
    if es == [] then 0 else (if es[0].Settles? then 1 else 0) + Failures(es[1..])
  }

  lemma FailureSpendsBudget(p: Policy, s: State, e: Event)
    requires Inv(p, s) && !s.disposed && Enabled(s, e) && Unattended(e)
    ensures var s' := Step(p, s, e);
            && FailuresLeft(p, s') + (if e.Settles? then 1 else 0) <= FailuresLeft(p, s)
            && (!e.DebounceFires? || (s.inFlight.None? && s.retryTimer.None?) ==>
                  FailuresLeft(p, s') + (if e.Settles? then 1 else 0) == FailuresLeft(p, s))
            && !s'.disposed
  {
    if e.RetryFires? {
      assert s.failed.Some?;
    }
  }

  /** With no new write, flush or switch, and whatever debounce was armed before, at most `FailuresLeft` calls
      fail in a row, and while some are left a call is running, a retry is armed or the debounce is. */
  lemma {:induction false} FailureStreak(p: Policy, s: State, es: seq<Event>)
    requires Inv(p, s) && !s.disposed && Run(p, s, es) && FailOnly(es)
    ensures Failures(es) + FailuresLeft(p, After(p, s, es)) <= FailuresLeft(p, s)
    ensures var f := After(p, s, es);
            FailuresLeft(p, f) > 0 ==> f.inFlight.Some? || f.retryTimer.Some? || f.debounceArmed
    decreases |es|
  {
    if es != [] {
      StepKeepsInv(p, s, es[0]);
      FailureSpendsBudget(p, s, es[0]);
      FailureStreak(p, Step(p, s, es[0]), es[1..]);
    }
  }

  /** The bound is exact: from every state some streak has that many failures. */
  lemma {:induction false} StreakAttained(p: Policy, s: State) returns (es: seq<Event>)
    requires Inv(p, s) && !s.disposed
    ensures Run(p, s, es) && FailOnly(es) && Failures(es) == FailuresLeft(p, s)
    decreases FailuresLeft(p, s), if s.inFlight.None? then 1 else 0
  {
    if FailuresLeft(p, s) == 0 {
      es := [];
    } else {
      var e := if s.inFlight.Some? then Settles(Rejected("failed"))
               else if s.retryTimer.Some? then RetryFires else DebounceFires;
      StepKeepsInv(p, s, e);
      FailureSpendsBudget(p, s, e);
      var rest := StreakAttained(p, Step(p, s, e));
      OneStep(p, s, e, rest);
      es := [e] + rest;
      assert es[1..] == rest;
    }
  }

  /** The budget the options document, `maxAttempts` failures for one batch, is granted to a fresh batch
      exactly when the attempt counter is zero; a success does not reset the counter. */
  lemma FullBudgetIff(p: Policy, s: State)
    requires Inv(p, s) && s.inFlight.Some? && s.inFlight.value.user == s.user && s.rerun.None?
    ensures RetriesLeft(p, s) == AtLeastOne(p.maxAttempts) <==> s.retryAttempt == 0 || p.maxAttempts <= 1
    ensures Step(p, s, Settles(Resolved)).retryAttempt == s.retryAttempt
  {
  }

  /** One write whose first call fails and whose retry succeeds. */
  function Hiccup(name: string): seq<Event> {
    [Write({name}), DebounceFires, Settles(Rejected("conflict")), RetryFires, Settles(Resolved)]
  }

  function Hiccups(n: nat, name: string): seq<Event> {
    if n == 0 then [] else Hiccup(name) + Hiccups(n - 1, name)
  }

  lemma {:induction false} RunAppend(p: Policy, s: State, xs: seq<Event>, ys: seq<Event>)
    requires Run(p, s, xs) && Run(p, After(p, s, xs), ys)
    ensures Run(p, s, xs + ys) && After(p, s, xs + ys) == After(p, After(p, s, xs), ys)
    decreases |xs|
  {
    if xs == [] {
      assert xs + ys == ys;
    } else {
      RunAppend(p, Step(p, s, xs[0]), xs[1..], ys);
      assert (xs + ys)[1..] == xs[1..] + ys;
    }
  }

  function Quiet(user: User, attempt: nat): State {
    Init(Some(user)).(retryAttempt := attempt)
  }

  lemma OneHiccup(p: Policy, user: User, attempt: nat, name: string)
    requires p.coalesce && attempt + 1 < p.maxAttempts
    ensures Run(p, Quiet(user, attempt), Hiccup(name))
            && After(p, Quiet(user, attempt), Hiccup(name)) == Quiet(user, attempt + 1)
  {
    var es := Hiccup(name);
    var k := Key(user, name);
    var s0 := Quiet(user, attempt);
    assert Written(s0, {name}) == {k};
    var s1 := s0.(pending := {k}, debounceArmed := true);
    var s2 := s0.(inFlight := Some(Call({k}, Some(user))));
    var s3 := Step(p, s2, es[2]);
    var s4 := Step(p, s3, es[3]);
    assert Step(p, s0, es[0]) == s1 && Step(p, s1, es[1]) == s2;
    assert Step(p, s4, es[4]) == Quiet(user, attempt + 1);
    OneStep(p, s4, es[4], []);
    OneStep(p, s3, es[3], [es[4]]);
    OneStep(p, s2, es[2], [es[3], es[4]]);
    OneStep(p, s1, es[1], [es[2], es[3], es[4]]);
    OneStep(p, s0, es[0], [es[1], es[2], es[3], es[4]]);
  }

  lemma OneStep(p: Policy, s: State, e: Event, rest: seq<Event>)
    requires Enabled(s, e) && Run(p, Step(p, s, e), rest)
    ensures Run(p, s, [e] + rest) && After(p, s, [e] + rest) == After(p, Step(p, s, e), rest)
    ensures Log(p, s, [e] + rest) == Observed(s, e, Step(p, s, e)) + Log(p, Step(p, s, e), rest)
  {
    assert ([e] + rest)[1..] == rest;
  }

  /** The counter drains across successes: after `n` recovered hiccups a new batch starts with only
      `maxAttempts - n` failures left, so after `maxAttempts - 1` of them it is given no retry at all. */
  lemma {:induction false} BudgetDrains(p: Policy, user: User, attempt: nat, n: nat, name: string)
    requires p.coalesce && attempt + n < p.maxAttempts
    ensures Run(p, Quiet(user, attempt), Hiccups(n, name))
    ensures After(p, Quiet(user, attempt), Hiccups(n, name)) == Quiet(user, attempt + n)
    decreases n
  {
    if n > 0 {
      OneHiccup(p, user, attempt, name);
      BudgetDrains(p, user, attempt + 1, n - 1, name);
      RunAppend(p, Quiet(user, attempt), Hiccup(name), Hiccups(n - 1, name));
    }
  }

  lemma {:induction false} BackoffMonotone(p: Policy, a: nat, b: nat)
    requires 1 <= a <= b
    ensures Backoff(p, a) <= Backoff(p, b) <= p.maxDelay
    decreases b
  {
    if a < b {
      BackoffMonotone(p, a, b - 1);
      assert p.baseDelay * Pow2(b - 1) == 2 * (p.baseDelay * Pow2(b - 2));
    }
  }

  /** The first retry waits the base delay and each further one twice as long, up to the cap. */
  lemma BackoffDoubles(p: Policy, attempt: nat)
    requires attempt >= 1
    ensures Backoff(p, 1) == Capped(p, p.baseDelay)
    ensures Backoff(p, attempt + 1) == Capped(p, 2 * Backoff(p, attempt))
  {
    assert p.baseDelay * Pow2(attempt) == 2 * (p.baseDelay * Pow2(attempt - 1));
  }

  function Capped(p: Policy, delay: nat): nat {
    if p.maxDelay < delay then p.maxDelay else delay
  }

  /** A streak of the scheduler's own retries: no debounce fires in it. */
  predicate RetriesOnly(es: seq<Event>) {
    FailOnly(es) && forall i :: 0 <= i < |es| ==> !es[i].DebounceFires?
  }

  lemma {:induction false} StreakRaisesAttempt(p: Policy, s: State, es: seq<Event>)
    requires Inv(p, s) && Run(p, s, es) && RetriesOnly(es) && s.rerun.None? && !s.disposed
    ensures After(p, s, es).retryAttempt >= s.retryAttempt
    decreases |es|
  {
    if es != [] {
      StepKeepsInv(p, s, es[0]);
      FailureSpendsBudget(p, s, es[0]);
      assert RetriesOnly(es[1..]);
      StreakRaisesAttempt(p, Step(p, s, es[0]), es[1..]);
    }
  }

  /** Along a streak of retries the armed delays never shrink and never exceed the cap. */
  lemma StreakDelays(p: Policy, s: State, es: seq<Event>)
    requires Inv(p, s) && Run(p, s, es) && RetriesOnly(es) && s.rerun.None? && !s.disposed
    ensures var f := After(p, s, es);
            f.retryTimer.Some? ==> f.retryTimer.value <= p.maxDelay
                                   && (s.retryTimer.Some? ==> s.retryTimer.value <= f.retryTimer.value)
  {
    RunKeepsInv(p, s, es);
    StreakRaisesAttempt(p, s, es);
    var f := After(p, s, es);
    if f.retryTimer.Some? {
      BackoffMonotone(p, f.retryAttempt, f.retryAttempt);
      if s.retryTimer.Some? {
        BackoffMonotone(p, s.retryAttempt, f.retryAttempt);
      }
    }
  }
}
