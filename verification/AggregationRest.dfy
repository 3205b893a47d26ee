/**
 * Aggregations that read one another come to rest: unless computes keep finding upstreams stale for ever, no
 * run without outside events goes on for ever, and it can stop only when everything is quiet.
 */
module AggregationRest {
  import opened Wrappers
  import opened AggregationGraph
  import opened AggregationDeadlock
  import Aggregation

  /** Nothing from outside, and no look that finds an upstream stale. */
  predicate Undisturbed(e: Event) {
    match e
    case GetCalled(_, _) => false
    case RefreshCalled(_) => false
    case SourceWritten(_) => false
    case Asks(_, _, stale) => !stale
    case Looks(_, _, stale) => !stale
    case _ => true
  }

  // ---------------------------------------------------------------------------------------------
  // What is left to do, while no missing row arrives
  // ---------------------------------------------------------------------------------------------

  /** Looking at the rows of `rest` below `n`: a missing one is computed. `have` are the rows with data. */
  function Reading(ups: Graph, have: set<nat>, rest: set<nat>, n: nat): nat
    requires n <= |ups|
    decreases n, 0
  {
    if n == 0 then 0
    else Reading(ups, have, rest, n - 1) + if n - 1 in rest then 1 + Restart(ups, have, n - 1) else 0
  }

  function Restart(ups: Graph, have: set<nat>, j: nat): nat
    requires j < |ups|
    decreases j, 1
  {
    if j in have then 0 else 4 * (2 + Reading(ups, have, ups[j], j)) + 6
  }

  /** A compute of `i` from beginning to end, with what it sets off where a save is not the end of a missing row. */
  function Whole(ups: Graph, have: set<nat>, i: nat): nat
    requires i < |ups|
    decreases 3 * (|ups| - i) + 1
  {
    2 + Reading(ups, have, ups[i], i) + Publishing(ups, have, i)
  }

  function Publishing(ups: Graph, have: set<nat>, i: nat): nat
    requires i < |ups|
    decreases 3 * (|ups| - i)
  {
    if i in have then Readers(ups, have, i, i + 1) else 0
  }

  /** A debounce for each reader of `i` from `k` on. */
  function Readers(ups: Graph, have: set<nat>, i: nat, k: nat): nat
    requires k <= |ups|
    decreases 3 * (|ups| - k) + 2
  {
    if k == |ups| then 0
    else Readers(ups, have, i, k + 1) + if i in ups[k] then 4 * Whole(ups, have, k) + 8 else 0
  }

  function Running(ups: Graph, have: set<nat>, i: nat, run: Reads): nat
    requires i < |ups|
  {
    if run.saved then 1 else 2 + Publishing(ups, have, i) + Reading(ups, have, ups[i] - run.seen, i)
  }

  function Budget(failures: nat): nat {
    if failures < Aggregation.MAX_BACKGROUND_RETRIES then Aggregation.MAX_BACKGROUND_RETRIES - failures else 0
  }

  function Times(n: nat, cost: nat): nat {
    n * cost
  }

  /** The timers, the queued rerun and the failures a node may still have, where a whole compute costs `whole`. */
  function Pending(n: Node, whole: nat): nat {
    (if n.rerun then 4 * whole + 7 else 0) + (if n.debounce then 4 * whole + 8 else 0)
    + Times(n.retries, 4 * whole + 8) + Times(Budget(n.failures), whole + 2)
  }

  function Asking(ups: Graph, have: set<nat>, i: nat, n: Node): nat
    requires i < |ups|
  {
    Reading(ups, have, n.asking, |ups|) + if n.called then 0 else Reading(ups, have, ups[i], |ups|)
  }

  function Busy(ups: Graph, have: set<nat>, i: nat, n: Node): nat
    requires i < |ups|
  {
    if n.inFlight.Some? then 3 * Whole(ups, have, i) + 6 + Running(ups, have, i, n.inFlight.value) else 0
  }

  /** What `n` in place of `i` may still do. */
  function Left(ups: Graph, have: set<nat>, i: nat, n: Node): nat
    requires i < |ups|
  {
    Asking(ups, have, i, n) + Busy(ups, have, i, n) + Pending(n, Whole(ups, have, i))
  }

  /** What the nodes from `k` on may still do. */
  function LeftFrom(ups: Graph, have: set<nat>, st: System, k: nat): nat
    requires |st| == |ups| && k <= |st|
    decreases |st| - k
  {
    if k == |st| then 0 else Left(ups, have, k, st[k]) + LeftFrom(ups, have, st, k + 1)
  }

  function Have(st: System): set<nat> {
    set i: nat | i < |st| && st[i].data
  }

  function Work(ups: Graph, st: System): nat
    requires |st| == |ups|
  {
    LeftFrom(ups, Have(st), st, 0)
  }

  // ---------------------------------------------------------------------------------------------
  // Sums
  // ---------------------------------------------------------------------------------------------

  lemma {:induction false} ReadingLess(ups: Graph, have: set<nat>, rest: set<nat>, j: nat, n: nat)
    requires n <= |ups| && j in rest
    ensures Reading(ups, have, rest, n)
            == Reading(ups, have, rest - {j}, n) + if j < n then 1 + Restart(ups, have, j) else 0
    decreases n
  {
    if n > 0 {
      ReadingLess(ups, have, rest, j, n - 1);
    }
  }

  lemma {:induction false} ReadingNone(ups: Graph, have: set<nat>, n: nat)
    requires n <= |ups|
    ensures Reading(ups, have, {}, n) == 0
    decreases n
  {
    if n > 0 {
      ReadingNone(ups, have, n - 1);
    }
  }

  /** Where only `i` differs, it decides. */
  lemma {:induction false} OneDiffers(ups: Graph, have: set<nat>, st: System, st': System, i: nat, k: nat)
    requires |st| == |st'| == |ups| && k <= |st| && i < |st|
    requires forall x :: k <= x < |st| && x != i ==> Left(ups, have, x, st'[x]) == Left(ups, have, x, st[x])
    ensures LeftFrom(ups, have, st', k) + (if k <= i then Left(ups, have, i, st[i]) else 0)
            == LeftFrom(ups, have, st, k) + if k <= i then Left(ups, have, i, st'[i]) else 0
    decreases |st| - k
  {
    if k < |st| {
      OneDiffers(ups, have, st, st', i, k + 1);
    }
  }

  /** A save of `i` that notifies its readers. */
  lemma {:induction false} ReadersDiffer(ups: Graph, have: set<nat>, st: System, st': System, i: nat, k: nat)
    requires |st| == |st'| == |ups| && Acyclic(ups) && k <= |st| && i < |st|
    requires forall x :: 0 <= x < |st| && x != i ==> st'[x] == if i in ups[x] then Notify(st[x]) else st[x]
    ensures LeftFrom(ups, have, st', k) + (if k <= i then Left(ups, have, i, st[i]) else 0)
            <= LeftFrom(ups, have, st, k) + Readers(ups, have, i, k) + if k <= i then Left(ups, have, i, st'[i]) else 0
    decreases |st| - k
  {
    if k < |st| {
      ReadersDiffer(ups, have, st, st', i, k + 1);
    }
  }

  lemma {:induction false} NoReaderBelow(ups: Graph, have: set<nat>, i: nat, k: nat)
    requires Acyclic(ups) && k <= i + 1 <= |ups|
    ensures Readers(ups, have, i, k) == Readers(ups, have, i, i + 1)
    decreases i + 1 - k
  {
    if k <= i {
      NoReaderBelow(ups, have, i, k + 1);
    }
  }

  // ---------------------------------------------------------------------------------------------
  // Every step spends
  // ---------------------------------------------------------------------------------------------

  lemma StartCosts(ups: Graph, have: set<nat>, i: nat)
    requires i < |ups|
    ensures Running(ups, have, i, NO_READS) == Whole(ups, have, i)
  {
    assert ups[i] - {} == ups[i];
  }

  lemma TimerSpends(ups: Graph, have: set<nat>, i: nat, n: Node, upToDate: bool)
    requires i < |ups| && (n.rerun ==> n.inFlight.Some?)
    ensures n.debounce ==> Left(ups, have, i, OnDebounce(n, upToDate)) < Left(ups, have, i, n)
    ensures n.retries > 0 ==> Left(ups, have, i, OnRetry(n)) < Left(ups, have, i, n)
  {
    StartCosts(ups, have, i);
    if n.retries > 0 {
      var whole := Whole(ups, have, i);
      assert Times(n.retries, 4 * whole + 8) == Times(n.retries - 1, 4 * whole + 8) + (4 * whole + 8);
    }
  }

  /** What a settled node has pending, and the compute it may have restarted. */
  function AfterSettlement(n: Node, error: Option<ComputeError>, upToDate: bool, whole: nat): nat {
    var m := Settle(n, error, upToDate);
    Pending(m, whole) + if m.inFlight.Some? then 4 * whole + 6 else 0
  }

  lemma SuccessPays(n: Node, upToDate: bool, whole: nat)
    requires n.inFlight.Some?
    ensures AfterSettlement(n, None, upToDate, whole) < Pending(n, whole) + 3 * whole + 7
  {
    assert Times(3, whole + 2) == 3 * (whole + 2);
  }

  lemma FailurePays(n: Node, error: ComputeError, upToDate: bool, whole: nat)
    requires n.inFlight.Some?
    ensures AfterSettlement(n, Some(error), upToDate, whole) < Pending(n, whole) + 3 * whole + 8
  {
    assert Times(n.retries + 1, 4 * whole + 8) == Times(n.retries, 4 * whole + 8) + (4 * whole + 8);
    if n.failures < Aggregation.MAX_BACKGROUND_RETRIES {
      assert Times(Budget(n.failures), whole + 2) == Times(Budget(n.failures + 1), whole + 2) + (whole + 2);
    }
  }

  lemma SettlementSpends(ups: Graph, have: set<nat>, i: nat, n: Node, error: Option<ComputeError>, upToDate: bool)
    requires i < |ups| && n.inFlight.Some? && (error.Some? ==> !n.inFlight.value.saved)
    ensures Left(ups, have, i, Settle(n, error, upToDate)) < Left(ups, have, i, n)
  {
    var m := Settle(n, error, upToDate);
    StartCosts(ups, have, i);
    if error.Some? {
      FailurePays(n, error.value, upToDate, Whole(ups, have, i));
    } else {
      SuccessPays(n, upToDate, Whole(ups, have, i));
    }
    assert m.asking == n.asking && m.called == n.called && (m.inFlight.None? || m.inFlight == Some(NO_READS));
  }

  /** Asking or looking at `j` without finding it stale. */
  lemma GetSpends(ups: Graph, have: set<nat>, j: nat, n: Node)
    requires j < |ups| && (n.data <==> j in have) && n.asking <= ups[j]
    ensures Left(ups, have, j, Get(n, ups[j], false)) <= Left(ups, have, j, n) + Restart(ups, have, j)
  {
    var m := Get(n, ups[j], false);
    StartCosts(ups, have, j);
    assert Asking(ups, have, j, m) <= Asking(ups, have, j, n);
    assert m.inFlight == n.inFlight || (m.inFlight == Some(NO_READS) && n.inFlight.None? && j !in have);
    assert m.rerun == n.rerun && m.debounce == n.debounce && m.retries == n.retries && m.failures == n.failures;
    assert Pending(m, Whole(ups, have, j)) == Pending(n, Whole(ups, have, j));
  }

  lemma LookerSpends(ups: Graph, have: set<nat>, i: nat, n: Node, j: nat, run: Reads)
    requires i < |ups| && n.inFlight.Some? && !n.inFlight.value.saved && !run.saved
    requires j in ups[i] && j < i && j !in n.inFlight.value.seen && run.seen == n.inFlight.value.seen + {j}
    ensures Left(ups, have, i, n.(inFlight := Some(run))) + 1 + Restart(ups, have, j) == Left(ups, have, i, n)
  {
    var seen := n.inFlight.value.seen;
    ReadingLess(ups, have, ups[i] - seen, j, i);
    assert ups[i] - run.seen == ups[i] - seen - {j};
    var m := n.(inFlight := Some(run));
    assert Pending(m, Whole(ups, have, i)) == Pending(n, Whole(ups, have, i));
    assert Asking(ups, have, i, m) == Asking(ups, have, i, n);
  }

  lemma StepKeepsData(ups: Graph, st: System, e: Event)
    requires |st| == |ups| && Enabled(ups, st, e) && (e.Saves? ==> st[e.i].data)
    ensures Have(Step(ups, st, e)) == Have(st)
  {
    var st' := Step(ups, st, e);
    forall i: nat | i < |st| ensures st'[i].data == st[i].data {
    }
  }

  lemma OwnStepSpends(ups: Graph, have: set<nat>, st: System, e: Event)
    requires |st| == |ups| && AllTidy(ups, st) && Enabled(ups, st, e) && (e.DebounceFires? || e.RetryFires?)
    ensures LeftFrom(ups, have, Step(ups, st, e), 0) < LeftFrom(ups, have, st, 0)
  {
    assert Tidy(ups, st, e.i);
    TimerSpends(ups, have, e.i, st[e.i], e.DebounceFires? && e.upToDate);
    OneDiffers(ups, have, st, Step(ups, st, e), e.i, 0);
  }

  lemma AskerSpends(ups: Graph, have: set<nat>, i: nat, n: Node, j: nat)
    requires i < |ups| && j in n.asking && j < |ups|
    ensures Left(ups, have, i, n.(asking := n.asking - {j})) + 1 + Restart(ups, have, j) == Left(ups, have, i, n)
  {
    ReadingLess(ups, have, n.asking, j, |ups|);
    var m := n.(asking := n.asking - {j});
    assert Pending(m, Whole(ups, have, i)) == Pending(n, Whole(ups, have, i));
    assert Busy(ups, have, i, m) == Busy(ups, have, i, n);
  }

  lemma AskSpends(ups: Graph, st: System, i: nat, j: nat)
    requires |st| == |ups| && AllTidy(ups, st) && Enabled(ups, st, Asks(i, j, false))
    ensures LeftFrom(ups, Have(st), Step(ups, st, Asks(i, j, false)), 0) < LeftFrom(ups, Have(st), st, 0)
  {
    var have := Have(st);
    var mid := st[i := st[i].(asking := st[i].asking - {j})];
    AskerSpends(ups, have, i, st[i], j);
    OneDiffers(ups, have, st, mid, i, 0);
    assert Tidy(ups, st, j);
    GetSpends(ups, have, j, st[j]);
    assert Step(ups, st, Asks(i, j, false)) == mid[j := Get(st[j], ups[j], false)];
    OneDiffers(ups, have, mid, mid[j := Get(st[j], ups[j], false)], j, 0);
  }

  lemma LookSpends(ups: Graph, st: System, i: nat, j: nat)
    requires |st| == |ups| && Acyclic(ups) && AllTidy(ups, st) && Enabled(ups, st, Looks(i, j, false))
    ensures LeftFrom(ups, Have(st), Looked(ups, st, i, j, false), 0) < LeftFrom(ups, Have(st), st, 0)
  {
    var have := Have(st);
    var after := Get(st[j], ups[j], false);
    var mid := st[j := after];
    assert Tidy(ups, st, j);
    GetSpends(ups, have, j, st[j]);
    OneDiffers(ups, have, st, mid, j, 0);
    var run := Look(st[i].inFlight.value, j, st[j], after);
    LookerSpends(ups, have, i, st[i], j, run);
    assert Looked(ups, st, i, j, false) == mid[i := st[i].(inFlight := Some(run))];
    OneDiffers(ups, have, mid, Looked(ups, st, i, j, false), i, 0);
  }

  lemma SaveSpends(ups: Graph, st: System, i: nat, skipped: bool)
    requires |st| == |ups| && Acyclic(ups) && Enabled(ups, st, Saves(i, skipped)) && st[i].data
    ensures LeftFrom(ups, Have(st), Saved(ups, st, i, skipped), 0) < LeftFrom(ups, Have(st), st, 0)
  {
    var have, st' := Have(st), Saved(ups, st, i, skipped);
    assert ups[i] - st[i].inFlight.value.seen == {};
    ReadingNone(ups, have, i);
    if skipped {
      OneDiffers(ups, have, st, st', i, 0);
    } else {
      ReadersDiffer(ups, have, st, st', i, 0);
      NoReaderBelow(ups, have, i, 0);
    }
  }

  lemma SettleSpends(ups: Graph, have: set<nat>, st: System, i: nat, error: Option<ComputeError>, upToDate: bool)
    requires |st| == |ups| && InFlight(st, i) && (error.Some? ==> !st[i].inFlight.value.saved)
    ensures LeftFrom(ups, have, Settled(st, i, error, upToDate), 0) < LeftFrom(ups, have, st, 0)
  {
    SettlementSpends(ups, have, i, st[i], error, upToDate);
    OneDiffers(ups, have, st, Settled(st, i, error, upToDate), i, 0);
  }

  /** Every undisturbed step brings in a missing row, or leaves less to do. */
  lemma StepSpends(ups: Graph, st: System, e: Event)
    requires |st| == |ups| && Acyclic(ups) && AllTidy(ups, st) && Enabled(ups, st, e) && Undisturbed(e)
    ensures var st' := Step(ups, st, e);
            Have(st) < Have(st') || (Have(st') == Have(st) && Work(ups, st') < Work(ups, st))
  {
    if e.Saves? && !st[e.i].data {
      var st' := Step(ups, st, e);
      assert e.i in Have(st') && e.i !in Have(st);
    } else {
      StepKeepsData(ups, st, e);
      match e
      case DebounceFires(_, _) => OwnStepSpends(ups, Have(st), st, e);
      case RetryFires(_) => OwnStepSpends(ups, Have(st), st, e);
      case Asks(i, j, _) => AskSpends(ups, st, i, j);
      case Looks(i, j, _) => LookSpends(ups, st, i, j);
      case Saves(i, skipped) => SaveSpends(ups, st, i, skipped);
      case Succeeds(i, upToDate) => SettleSpends(ups, Have(st), st, i, None, upToDate);
      case Fails(i, error, upToDate) => SettleSpends(ups, Have(st), st, i, Some(error), upToDate);
    }
  }

  function Missed(st: System): (n: nat) {
    HaveFits(st);
    |st| - |Have(st)|
  }

  function Upto(n: nat): (r: set<nat>)
    ensures |r| == n && forall i: nat :: i in r <==> i < n
  {
    if n == 0 then {} else Upto(n - 1) + {n - 1}
  }

  lemma Fewer(a: set<nat>, b: set<nat>)
    requires a <= b
    ensures |a| <= |b| && (a < b ==> |a| < |b|)
  {
    assert b == a + (b - a);
    assert |b| == |a| + |b - a|;
  }

  lemma HaveFits(st: System)
    ensures |Have(st)| <= |st|
  {
    Fewer(Have(st), Upto(|st|));
  }

  // ---------------------------------------------------------------------------------------------
  // Rest
  // ---------------------------------------------------------------------------------------------

  /** The `n`th step of a run is an undisturbed one. */
  predicate Goes(ups: Graph, at: nat -> System, event: nat -> Event, n: nat) {
    |at(n)| == |ups| && Enabled(ups, at(n), event(n)) && Undisturbed(event(n))
    && at(n + 1) == Step(ups, at(n), event(n))
  }

  /** No run goes on for ever undisturbed: for ever computing takes outside events, or looks that find an
      upstream stale, for ever. */
  lemma {:induction false} NoRunForEver(ups: Graph, at: nat -> System, event: nat -> Event, from: nat)
    requires Acyclic(ups) && |at(from)| == |ups| && AllTidy(ups, at(from))
    ensures exists n: nat :: n >= from && !Goes(ups, at, event, n)
    decreases Missed(at(from)), Work(ups, at(from))
  {
    if Goes(ups, at, event, from) {
      StepSpends(ups, at(from), event(from));
      StepKeepsTidy(ups, at(from), event(from));
      HaveFits(at(from));
      HaveFits(at(from + 1));
      Fewer(Have(at(from)), Have(at(from + 1)));
      NoRunForEver(ups, at, event, from + 1);
    }
  }

  /** A run can be continued without outside events exactly until everything is quiet: no compute, timer or
      `get()` is ever stuck. */
  lemma StopsIffQuiet(ups: Graph, st: System)
    requires |st| == |ups| && Acyclic(ups) && AllTidy(ups, st)
    ensures (exists e :: Undisturbed(e) && Enabled(ups, st, e)) <==> !Quiet(st)
  {
    if !Quiet(st) {
      var i :| 0 <= i < |st| && !(Idle(st[i]) && st[i].asking == {});
      assert Tidy(ups, st, i);
      if st[i].inFlight.Some? {
        var _, e := SomeComputeCanMove(ups, st, i);
        assert Undisturbed(e);
      } else if st[i].debounce {
        assert Enabled(ups, st, DebounceFires(i, false)) && Undisturbed(DebounceFires(i, false));
      } else if st[i].retries > 0 {
        assert Enabled(ups, st, RetryFires(i)) && Undisturbed(RetryFires(i));
      } else {
        var j :| j in st[i].asking;
        assert Enabled(ups, st, Asks(i, j, false)) && Undisturbed(Asks(i, j, false));
      }
    }
  }

  lemma {:induction false} CanRest(ups: Graph, a: System, st: System) returns (f: System)
    requires |a| == |st| == |ups| && Acyclic(ups) && AllTidy(ups, st) && Reaches(ups, a, st, true)
    ensures |f| == |ups| && Reaches(ups, a, f, true) && Quiet(f)
    decreases Missed(st), Work(ups, st)
  {
    StopsIffQuiet(ups, st);
    if Quiet(st) {
      f := st;
    } else {
      var e :| Undisturbed(e) && Enabled(ups, st, e);
      var next := Step(ups, st, e);
      Reach(ups, a, st, true, e, next);
      StepSpends(ups, st, e);
      StepKeepsTidy(ups, st, e);
      HaveFits(st);
      HaveFits(next);
      Fewer(Have(st), Have(next));
      f := CanRest(ups, a, next);
    }
  }

  /** So from every state of every run some orderly run leads to rest, and there whoever was asked has data, with
      everything upstream, or some failure is real: the premise of `NoColdDeadlock` can always be met. */
  lemma AlwaysCanRest(ups: Graph, a: System, es: seq<Event>) returns (f: System)
    requires |a| == |ups| && Acyclic(ups) && Initial(a) && OrderlyRun(ups, a, es) && RunOf(ups, a, es)
    ensures |f| == |ups| && Reaches(ups, After(ups, a, es), f, true) && Quiet(f)
    ensures !Stranding(ups, a) && OnlyCold(f) ==>
              forall i, j :: Called(f, i) && Upstream(ups, i, j) ==> Holds(f, j)
  {
    var st := After(ups, a, es);
    RunKeepsTidy(ups, a, es);
    ReachSelf(ups, st, true);
    f := CanRest(ups, st, st);
    if !Stranding(ups, a) && OnlyCold(f) {
      var more :| RunOf(ups, st, more) && After(ups, st, more) == f && OrderlyRun(ups, st, more);
      InitialInv(ups, a);
      RunKeepsInv(ups, Clean(ups, a), a, es);
      RunKeepsInv(ups, Clean(ups, a), st, more);
      forall i, j | Called(f, i) && Upstream(ups, i, j) ensures Holds(f, j) {
        UpstreamHolds(ups, Clean(ups, a), f, i, j);
      }
    }
  }
}
