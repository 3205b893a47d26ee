/**
 * Aggregations that read one another (core/aggregation.ts): a finite acyclic graph under one identity.
 * Each instance keeps what decides when it computes; values are forgotten, so that whether an envelope is
 * up to date is the environment's choice. An aggregation never waits for another's first compute: reading
 * one without data starts that one and fails with `ColdAggregationSourceError`. A first `get()` that finds
 * stored data asks every upstream: a session that has just begun has observed none of them.
 */
module AggregationGraph {
  import opened Wrappers
  import Aggregation

  type ComputeError = Aggregation.ComputeError

  /** Aggregation `i` reads the aggregations `ups[i]`. */
  type Graph = seq<set<nat>>

  predicate Acyclic(ups: Graph) {
    forall i, j :: 0 <= i < |ups| && j in ups[i] ==> j < i
  }

  /** A compute in flight: the sources it has read, those whose own compute it awaits, the error it has
      met, and whether it has saved. */
  datatype Reads = Reads(seen: set<nat>, waiting: set<nat>, doomed: Option<ComputeError>, saved: bool)

  /** `asking` are the upstreams that a `get()` on stored data has yet to ask. */
  datatype Node = Node(
    called: bool,
    data: bool,
    asking: set<nat>,
    inFlight: Option<Reads>,
    rerun: bool,
    debounce: bool,
    retries: nat,
    failures: nat,
    lastError: Option<ComputeError>
  )

  type System = seq<Node>

  const NO_READS := Reads({}, {}, None, false)

  function Trigger(n: Node): Node {
    if n.inFlight.Some? then n.(rerun := true) else n.(inFlight := Some(NO_READS))
  }

  function Get(n: Node, upstream: set<nat>, stale: bool): Node {
    var n1 := n.(called := true, asking := if n.data && !n.called then upstream else n.asking);
    if (!n.data || stale) && n.inFlight.None? then Trigger(n1) else n1
  }

  function Notify(n: Node): Node {
    if n.called then n.(debounce := true) else n
  }

  function OnDebounce(n: Node, upToDate: bool): Node {
    var n1 := n.(debounce := false);
    if upToDate then n1 else Trigger(n1)
  }

  function OnRetry(n: Node): Node
    requires n.retries > 0
  {
    Trigger(n.(retries := n.retries - 1))
  }

  function Refresh(n: Node): Node {
    Trigger(n.(debounce := false))
  }

  function Settle(n: Node, error: Option<ComputeError>, upToDate: bool): Node {
    var n1 := if error.None? then n.(lastError := None, failures := 0) else n.(lastError := error);
    var n2 := n1.(inFlight := None);
    if n.rerun then
      var n3 := n2.(rerun := false);
      if upToDate then n3 else Trigger(n3)
    else if error == Some(Aggregation.Other) && n2.failures < Aggregation.MAX_BACKGROUND_RETRIES then
      n2.(failures := n2.failures + 1, retries := n2.retries + 1)
    else n2
  }

  /** What a compute has read once it has looked at `up`, whose `get()` left it as `after`. */
  function Look(run: Reads, j: nat, up: Node, after: Node): Reads {
    var run1 := run.(seen := run.seen + {j});
    if !up.data then run1.(doomed := if run.doomed.Some? then run.doomed else Some(Aggregation.Cold))
    else if after.inFlight.Some? then run1.(waiting := run.waiting + {j})
    else run1
  }

  /** A node that may have been awaiting the compute of `j`, which has settled. */
  function Resume(n: Node, j: nat, error: Option<ComputeError>): Node {
    if n.inFlight.Some? && j in n.inFlight.value.waiting then
      var run := n.inFlight.value;
      var run1 := run.(waiting := run.waiting - {j});
      n.(inFlight := Some(if error.Some? && run.doomed.None? then run1.(doomed := error) else run1))
    else n
  }

  datatype Event =
    | GetCalled(i: nat, stale: bool)
    | RefreshCalled(i: nat)
    | SourceWritten(i: nat)
    | Asks(i: nat, j: nat, stale: bool)
    | DebounceFires(i: nat, upToDate: bool)
    | RetryFires(i: nat)
    | Looks(i: nat, j: nat, stale: bool)
    | Saves(i: nat, skipped: bool)
    | Succeeds(i: nat, upToDate: bool)
    | Fails(i: nat, error: ComputeError, upToDate: bool)

  predicate Reading(n: Node) {
    n.inFlight.Some? && !n.inFlight.value.saved
  }

  /** An envelope without data is never up to date, and a write is skipped only when data is stored. */
  predicate Enabled(ups: Graph, st: System, e: Event)
    requires |st| == |ups|
  {
    e.i < |st| &&
    var n := st[e.i];
    match e
    case GetCalled(_, _) => true
    case RefreshCalled(_) => true
    case SourceWritten(_) => true
    case Asks(i, j, _) => j in n.asking && j < |st| && j != i
    case DebounceFires(_, upToDate) => n.debounce && (upToDate ==> n.data)
    case RetryFires(_) => n.retries > 0
    case Looks(i, j, _) => Reading(n) && j in ups[i] && j < |st| && j != i && j !in n.inFlight.value.seen
    case Saves(i, skipped) =>
      && Reading(n) && n.inFlight.value.seen == ups[i] && n.inFlight.value.waiting == {}
      && n.inFlight.value.doomed.None? && (skipped ==> n.data)
    case Succeeds(_, upToDate) => n.inFlight.Some? && n.inFlight.value.saved && (upToDate ==> n.data)
    case Fails(_, error, upToDate) =>
      && Reading(n) && (upToDate ==> n.data)
      && (n.inFlight.value.doomed == Some(error) || (n.inFlight.value.doomed.None? && error == Aggregation.Other))
  }

  function Saved(ups: Graph, st: System, i: nat, skipped: bool): System
    requires |st| == |ups| && i < |st| && st[i].inFlight.Some?
  {
    var n := st[i].(data := true, inFlight := Some(st[i].inFlight.value.(saved := true)));
    seq(|st|, k requires 0 <= k < |st| =>
      if k == i then n else if !skipped && i in ups[k] then Notify(st[k]) else st[k])
  }

  function Settled(st: System, i: nat, error: Option<ComputeError>, upToDate: bool): System
    requires i < |st|
  {
    seq(|st|, k requires 0 <= k < |st| =>
      if k == i then Settle(st[i], error, upToDate) else Resume(st[k], i, error))
  }

  function Looked(ups: Graph, st: System, i: nat, j: nat, stale: bool): System
    requires |st| == |ups| && i < |st| && j < |st| && st[i].inFlight.Some?
  {
    var after := Get(st[j], ups[j], stale);
    st[j := after][i := st[i].(inFlight := Some(Look(st[i].inFlight.value, j, st[j], after)))]
  }

  function Step(ups: Graph, st: System, e: Event): (st': System)
    requires |st| == |ups| && Enabled(ups, st, e)
    ensures |st'| == |st|
  {
    match e
    case GetCalled(i, stale) => st[i := Get(st[i], ups[i], stale)]
    case RefreshCalled(i) => st[i := Refresh(st[i])]
    case SourceWritten(i) => st[i := Notify(st[i])]
    case Asks(i, j, stale) =>
      st[i := st[i].(asking := st[i].asking - {j})][j := Get(st[j], ups[j], stale)]
    case DebounceFires(i, upToDate) => st[i := OnDebounce(st[i], upToDate)]
    case RetryFires(i) => st[i := OnRetry(st[i])]
    case Looks(i, j, stale) => Looked(ups, st, i, j, stale)
    case Saves(i, skipped) => Saved(ups, st, i, skipped)
    case Succeeds(i, upToDate) => Settled(st, i, None, upToDate)
    case Fails(i, error, upToDate) => Settled(st, i, Some(error), upToDate)
  }

  predicate RunOf(ups: Graph, st: System, es: seq<Event>)
    requires |st| == |ups|
    decreases |es|
  {
    es == [] || (Enabled(ups, st, es[0]) && RunOf(ups, Step(ups, st, es[0]), es[1..]))
  }

  function After(ups: Graph, st: System, es: seq<Event>): (st': System)
    requires |st| == |ups| && RunOf(ups, st, es)
    ensures |st'| == |st|
    decreases |es|
  {
    if es == [] then st else After(ups, Step(ups, st, es[0]), es[1..])
  }

  // ---------------------------------------------------------------------------------------------
  // The nodes do what one instance does
  // ---------------------------------------------------------------------------------------------

  /** `n` has the timers and flags of the instance `g`. */
  ghost predicate Shows(n: Node, g: Aggregation.Engine) {
    && n.called == g.subscribed && n.inFlight.Some? == g.inFlight.Some? && n.rerun == g.rerun
    && n.debounce == g.debounce && n.retries == g.retries && n.failures == g.failures
    && n.lastError == g.lastError
  }

  lemma NodeFollowsInstance(d: Aggregation.Def, g: Aggregation.Engine, n: Node, ttlOk: bool)
    requires Shows(n, g)
    ensures Shows(Trigger(n), Aggregation.Trigger(g))
    ensures Shows(OnDebounce(n, Aggregation.LastIsFresh(d, g, ttlOk)), Aggregation.OnDebounce(d, g, ttlOk))
    ensures n.retries > 0 ==> Shows(OnRetry(n), Aggregation.OnRetry(g))
    ensures forall bypass :: Shows(Refresh(n), Aggregation.Refresh(g, bypass))
    ensures forall s, h :: Shows(Notify(n), Aggregation.Observe(g, s, h))
  {
  }

  lemma SettlementFollowsInstance(d: Aggregation.Def, g: Aggregation.Engine, n: Node, ttlOk: bool,
                                  result: Result<Aggregation.Envelope, ComputeError>)
    requires Shows(n, g)
    ensures var last := if result.Success? then Some(result.value) else g.lastEnvelope;
            var upToDate := last.Some? && Aggregation.IsFresh(d, g, last.value, ttlOk);
            Shows(Settle(n, if result.Success? then None else Some(result.error), upToDate),
                  Aggregation.Settle(d, g, result, ttlOk))
  {
  }

  // ---------------------------------------------------------------------------------------------
  // What a compute hears of its upstreams
  // ---------------------------------------------------------------------------------------------

  /** Anybody may be asked, refreshed or told of a write at any moment. */
  lemma OutsideIsFree(ups: Graph, st: System, i: nat, stale: bool)
    requires |st| == |ups| && i < |st|
    ensures Enabled(ups, st, GetCalled(i, stale)) && Step(ups, st, GetCalled(i, stale))[i].called
    ensures Enabled(ups, st, RefreshCalled(i)) && Step(ups, st, RefreshCalled(i))[i].inFlight.Some?
    ensures Enabled(ups, st, SourceWritten(i)) && (st[i].called ==> Step(ups, st, SourceWritten(i))[i].debounce)
  {
  }

  /** A compute fails with the first error it meets: later ones, of sources it reads or awaits, do not replace it. */
  lemma FirstErrorStays(ups: Graph, st: System, e: Event, i: nat)
    requires |st| == |ups| && Enabled(ups, st, e) && i < |st|
    requires st[i].inFlight.Some? && st[i].inFlight.value.doomed.Some? && !(e.i == i && (e.Succeeds? || e.Fails?))
    ensures var n := Step(ups, st, e)[i];
            n.inFlight.Some? && n.inFlight.value.doomed == st[i].inFlight.value.doomed
    ensures forall skipped :: !Enabled(ups, st, Saves(i, skipped))
    ensures forall error, upToDate :: Enabled(ups, st, Fails(i, error, upToDate)) ==>
              st[i].inFlight.value.doomed == Some(error)
  {
  }

  /** Whoever awaits a compute hears how it settled, and awaits it no more: a success lets it go on, a failure is
      its own failure unless it has met another before. */
  lemma AwaitersHear(ups: Graph, st: System, e: Event, i: nat)
    requires |st| == |ups| && Enabled(ups, st, e) && (e.Succeeds? || e.Fails?) && i < |st| && i != e.i
    requires st[i].inFlight.Some? && e.i in st[i].inFlight.value.waiting
    ensures var run := st[i].inFlight.value;
            Step(ups, st, e)[i] == st[i].(inFlight := Some(run.(
              waiting := run.waiting - {e.i},
              doomed := if run.doomed.Some? || e.Succeeds? then run.doomed else Some(e.error))))
  {
  }

  // ---------------------------------------------------------------------------------------------
  // What every run keeps
  // ---------------------------------------------------------------------------------------------

  predicate Holds(st: System, j: nat) {
    j < |st| && st[j].data
  }

  predicate Called(st: System, j: nat) {
    j < |st| && st[j].called
  }

  predicate InFlight(st: System, j: nat) {
    j < |st| && st[j].inFlight.Some?
  }

  /** A compute has asked what it has read, and awaits only computes in flight that it has read; and whoever
      has been asked and has data has asked its upstreams, or is about to. */
  ghost predicate Tidy(ups: Graph, st: System, i: nat)
    requires |st| == |ups| && i < |st|
  {
    var n := st[i];
    && n.asking <= ups[i] && (n.rerun ==> n.inFlight.Some?)
    && (n.inFlight.Some? ==>
          var run := n.inFlight.value;
          && run.waiting <= run.seen <= ups[i]
          && (forall j :: j in run.seen ==> Called(st, j))
          && (forall j :: j in run.waiting ==> InFlight(st, j))
          && (run.saved ==> n.data && run.waiting == {}))
    && (n.called && n.data ==> forall j :: j in ups[i] ==> Called(st, j) || j in n.asking)
  }

  ghost predicate AllTidy(ups: Graph, st: System)
    requires |st| == |ups|
  {
    forall i :: 0 <= i < |st| ==> Tidy(ups, st, i)
  }

  /** `m` is `n` after one of its own timers or callers. */
  ghost predicate Kept(n: Node, m: Node, upstream: set<nat>) {
    && m.data == n.data && (n.called ==> m.called) && m.lastError == n.lastError
    && (m.inFlight == n.inFlight || (n.inFlight.None? && m.inFlight == Some(NO_READS)))
    && (m.rerun ==> m.inFlight.Some?) && (n.rerun ==> m.rerun)
    && (m.asking == n.asking || m.asking == upstream)
    && (m.data && m.called && !n.called ==> m.asking == upstream) && (n.called ==> m.asking == n.asking)
    && (!n.data && n.inFlight.Some? && (n.debounce || n.rerun) ==> m.debounce || m.rerun)
    && (m.called && !m.data && Idle(m) ==> n.called && Idle(n))
  }

  predicate OwnEvent(e: Event) {
    e.GetCalled? || e.RefreshCalled? || e.SourceWritten? || e.DebounceFires? || e.RetryFires?
  }

  lemma OwnEventKeeps(ups: Graph, st: System, e: Event)
    requires |st| == |ups| && Enabled(ups, st, e) && OwnEvent(e) && Tidy(ups, st, e.i)
    ensures var m := Step(ups, st, e)[e.i]; Step(ups, st, e) == st[e.i := m] && Kept(st[e.i], m, ups[e.i])
  {
  }

  lemma GetKeeps(n: Node, upstream: set<nat>, stale: bool)
    requires n.rerun ==> n.inFlight.Some?
    ensures Kept(n, Get(n, upstream, stale), upstream) && Get(n, upstream, stale).called
  {
  }

  lemma KeptKeepsTidy(ups: Graph, st: System, i: nat, m: Node)
    requires |st| == |ups| && i < |st| && AllTidy(ups, st) && Kept(st[i], m, ups[i])
    ensures AllTidy(ups, st[i := m])
  {
    var st' := st[i := m];
    forall k | 0 <= k < |st| ensures Tidy(ups, st', k) {
      assert Tidy(ups, st, k);
    }
  }

  lemma AskKeepsTidy(ups: Graph, st: System, i: nat, j: nat, stale: bool)
    requires |st| == |ups| && AllTidy(ups, st) && Enabled(ups, st, Asks(i, j, stale))
    ensures AllTidy(ups, Step(ups, st, Asks(i, j, stale)))
  {
    assert Tidy(ups, st, j);
    var after := Get(st[j], ups[j], stale);
    GetKeeps(st[j], ups[j], stale);
    KeptKeepsTidy(ups, st, j, after);
    var mid := st[j := after];
    var st' := Step(ups, st, Asks(i, j, stale));
    assert st' == mid[i := mid[i].(asking := mid[i].asking - {j})];
    forall k | 0 <= k < |st| ensures Tidy(ups, st', k) {
      assert Tidy(ups, mid, k);
    }
  }

  lemma LookKeepsTidy(ups: Graph, st: System, i: nat, j: nat, stale: bool)
    requires |st| == |ups| && AllTidy(ups, st) && Enabled(ups, st, Looks(i, j, stale))
    ensures AllTidy(ups, Looked(ups, st, i, j, stale))
  {
    assert Tidy(ups, st, j);
    var after := Get(st[j], ups[j], stale);
    GetKeeps(st[j], ups[j], stale);
    KeptKeepsTidy(ups, st, j, after);
    var mid := st[j := after];
    var st' := Looked(ups, st, i, j, stale);
    forall k | 0 <= k < |st| ensures Tidy(ups, st', k) {
      assert Tidy(ups, mid, k);
    }
  }

  lemma SaveKeepsTidy(ups: Graph, st: System, i: nat, skipped: bool)
    requires |st| == |ups| && AllTidy(ups, st) && Enabled(ups, st, Saves(i, skipped))
    ensures AllTidy(ups, Saved(ups, st, i, skipped))
  {
    assert Tidy(ups, st, i);
    var st' := Saved(ups, st, i, skipped);
    forall k | 0 <= k < |st| ensures Tidy(ups, st', k) {
      assert Tidy(ups, st, k);
    }
  }

  lemma SettledNodeIsTidy(ups: Graph, st: System, i: nat, error: Option<ComputeError>, upToDate: bool)
    requires |st| == |ups| && i < |st| && Tidy(ups, st, i)
    ensures Tidy(ups, Settled(st, i, error, upToDate), i)
  {
    var m := Settle(st[i], error, upToDate);
    assert m.called == st[i].called && m.data == st[i].data && m.asking == st[i].asking;
    assert m.inFlight.None? || m.inFlight == Some(NO_READS);
  }

  lemma SettleKeepsTidy(ups: Graph, st: System, i: nat, error: Option<ComputeError>, upToDate: bool)
    requires |st| == |ups| && AllTidy(ups, st) && i < |st|
    ensures AllTidy(ups, Settled(st, i, error, upToDate))
  {
    var st' := Settled(st, i, error, upToDate);
    assert forall x :: Called(st, x) ==> Called(st', x);
    forall k | 0 <= k < |st| ensures Tidy(ups, st', k) {
      assert Tidy(ups, st, k);
      if k == i {
        SettledNodeIsTidy(ups, st, i, error, upToDate);
      }
    }
  }

  lemma StepKeepsTidy(ups: Graph, st: System, e: Event)
    requires |st| == |ups| && AllTidy(ups, st) && Enabled(ups, st, e)
    ensures AllTidy(ups, Step(ups, st, e))
  {
    if OwnEvent(e) {
      OwnEventKeeps(ups, st, e);
      KeptKeepsTidy(ups, st, e.i, Step(ups, st, e)[e.i]);
    } else {
      match e
      case Asks(i, j, stale) => AskKeepsTidy(ups, st, i, j, stale);
      case Looks(i, j, stale) => LookKeepsTidy(ups, st, i, j, stale);
      case Saves(i, skipped) => SaveKeepsTidy(ups, st, i, skipped);
      case Succeeds(i, upToDate) => SettleKeepsTidy(ups, st, i, None, upToDate);
      case Fails(i, error, upToDate) => SettleKeepsTidy(ups, st, i, Some(error), upToDate);
    }
  }

  lemma {:induction false} RunKeepsTidy(ups: Graph, st: System, es: seq<Event>)
    requires |st| == |ups| && AllTidy(ups, st) && RunOf(ups, st, es)
    ensures AllTidy(ups, After(ups, st, es))
    decreases |es|
  {
    if es != [] {
      StepKeepsTidy(ups, st, es[0]);
      RunKeepsTidy(ups, Step(ups, st, es[0]), es[1..]);
    }
  }

  /** `compute` awaits another instance's compute only downwards, so among the computes in flight the least
      awaits nobody and can take a step of its own: no two instances ever await each other. */
  lemma SomeComputeCanMove(ups: Graph, st: System, i: nat) returns (k: nat, e: Event)
    requires |st| == |ups| && Acyclic(ups) && AllTidy(ups, st) && InFlight(st, i)
    ensures k <= i && InFlight(st, k) && st[k].inFlight.value.waiting == {}
    ensures e.i == k && !OwnEvent(e) && !e.Asks? && Enabled(ups, st, e)
    ensures e.Fails? ==> st[k].inFlight.value.doomed == Some(e.error)
    ensures e.Looks? ==> !e.stale
    decreases i
  {
    assert Tidy(ups, st, i);
    var run := st[i].inFlight.value;
    if j :| j in run.waiting {
      k, e := SomeComputeCanMove(ups, st, j);
    } else {
      k := i;
      if run.saved {
        e := Succeeds(i, false);
      } else if run.doomed.Some? {
        e := Fails(i, run.doomed.value, false);
      } else if j :| j in ups[i] && j !in run.seen {
        e := Looks(i, j, false);
      } else {
        e := Saves(i, false);
      }
    }
  }

  // ---------------------------------------------------------------------------------------------
  // Cold-start deadlock freedom
  // ---------------------------------------------------------------------------------------------

  predicate Missing(st: System, j: nat) {
    j < |st| && st[j].called && !st[j].data
  }

  ghost predicate SomeMissing(st: System, js: set<nat>) {
    exists j :: j in js && Missing(st, j)
  }

  predicate Idle(n: Node) {
    n.inFlight.None? && !n.debounce && n.retries == 0
  }

  predicate AllHold(st: System, js: set<nat>) {
    forall j :: j in js ==> Holds(st, j)
  }

  /** What an aggregation in `clean` reads is in `clean`. */
  ghost predicate Downward(ups: Graph, clean: set<nat>) {
    forall i, j :: 0 <= i < |ups| && i in clean && j in ups[i] ==> j in clean
  }

  ghost predicate RunInv(ups: Graph, st: System, i: nat)
    requires |st| == |ups| && i < |st|
  {
    var n := st[i];
    && (n.debounce || n.retries > 0 || n.inFlight.Some? ==> n.called)
    && (n.inFlight.Some? ==>
          var run := n.inFlight.value;
          && (forall j :: j in run.waiting ==> Holds(st, j))
          && (run.doomed.None? ==> AllHold(st, run.seen))
          && (run.doomed == Some(Aggregation.Cold) ==>
                !n.data && !run.saved && (n.debounce || n.rerun || SomeMissing(st, ups[i]))))
  }

  /** An instance that was asked and has nothing has a reason to wait: an upstream that was asked and has
      nothing, or a real failure to report. */
  ghost predicate WaitInv(ups: Graph, st: System, i: nat)
    requires |st| == |ups| && i < |st|
  {
    Missing(st, i) && Idle(st[i]) ==> st[i].lastError == Some(Aggregation.Other) || SomeMissing(st, ups[i])
  }

  ghost predicate Sane(ups: Graph, st: System, i: nat)
    requires |st| == |ups| && i < |st|
  {
    RunInv(ups, st, i) && WaitInv(ups, st, i) && (st[i].data ==> AllHold(st, ups[i]))
  }

  /** Nobody in `clean` reads anybody outside it, and those outside have data. */
  ghost predicate Inv(ups: Graph, clean: set<nat>, st: System)
    requires |st| == |ups|
  {
    && Downward(ups, clean) && AllTidy(ups, st)
    && forall i :: 0 <= i < |st| ==> if i in clean then Sane(ups, st, i) else st[i].data
  }

  /** The caller's part: `refresh()` only after a `get()`, which is what subscribes an instance. */
  predicate Orderly(st: System, e: Event) {
    e.RefreshCalled? ==> e.i < |st| && st[e.i].called
  }

  predicate OrderlyRun(ups: Graph, st: System, es: seq<Event>)
    requires |st| == |ups|
    decreases |es|
  {
    es == [] || (Enabled(ups, st, es[0]) && Orderly(st, es[0]) && OrderlyRun(ups, Step(ups, st, es[0]), es[1..]))
  }

  /** `k` looks the same, and so does everything it reads. */
  lemma OthersKeep(ups: Graph, st: System, st': System, k: nat)
    requires |st| == |ups| == |st'| && k < |st| && Tidy(ups, st, k) && Sane(ups, st, k)
    requires st'[k] == st[k]
    requires forall x :: x in ups[k] && Missing(st, x) ==> Missing(st', x)
    requires forall x :: x in ups[k] && Holds(st, x) ==> Holds(st', x)
    ensures Sane(ups, st', k)
  {
    if SomeMissing(st, ups[k]) {
      var x :| x in ups[k] && Missing(st, x);
      assert Missing(st', x);
    }
  }

  /** What happens at an aggregation outside `clean` is no concern of `clean`. */
  lemma OutsideKeeps(ups: Graph, clean: set<nat>, st: System, i: nat, m: Node)
    requires |st| == |ups| && Inv(ups, clean, st) && i < |st| && i !in clean && m.data
    requires AllTidy(ups, st[i := m])
    ensures Inv(ups, clean, st[i := m])
  {
    forall k | 0 <= k < |st| && k in clean ensures Sane(ups, st[i := m], k) {
      OthersKeep(ups, st, st[i := m], k);
    }
  }

  /** `m` is subscribed whenever it has something to do. */
  predicate Subscribed(m: Node) {
    m.inFlight.Some? || m.debounce || m.retries > 0 ==> m.called
  }

  lemma KeptKeepsInv(ups: Graph, clean: set<nat>, st: System, i: nat, m: Node)
    requires |st| == |ups| && Inv(ups, clean, st) && i < |st| && Kept(st[i], m, ups[i])
    requires i in clean ==> Subscribed(m)
    ensures Inv(ups, clean, st[i := m])
  {
    KeptKeepsTidy(ups, st, i, m);
    var st' := st[i := m];
    if i !in clean {
      OutsideKeeps(ups, clean, st, i, m);
    } else {
      forall k | 0 <= k < |st| && k in clean ensures Sane(ups, st', k) {
        assert Sane(ups, st, k);
        if k != i {
          OthersKeep(ups, st, st', k);
        } else if SomeMissing(st, ups[i]) {
          var x :| x in ups[i] && Missing(st, x);
          assert Missing(st', x);
        }
      }
    }
  }

  lemma AskKeepsInv(ups: Graph, clean: set<nat>, st: System, i: nat, j: nat, stale: bool)
    requires |st| == |ups| && Inv(ups, clean, st) && Enabled(ups, st, Asks(i, j, stale))
    ensures Inv(ups, clean, Step(ups, st, Asks(i, j, stale)))
  {
    StepKeepsTidy(ups, st, Asks(i, j, stale));
    assert Tidy(ups, st, j);
    GetKeeps(st[j], ups[j], stale);
    var after := Get(st[j], ups[j], stale);
    assert j in clean ==> Sane(ups, st, j);
    KeptKeepsInv(ups, clean, st, j, after);
    var mid := st[j := after];
    var m := mid[i].(asking := mid[i].asking - {j});
    assert Step(ups, st, Asks(i, j, stale)) == mid[i := m];
    forall k | 0 <= k < |st| && k in clean ensures Sane(ups, mid[i := m], k) {
      assert Sane(ups, mid, k);
      SameSight(ups, mid, mid[i := m], k);
    }
  }

  /** Only `asking` may differ. */
  lemma SameSight(ups: Graph, st: System, st': System, k: nat)
    requires |st| == |ups| == |st'| && k < |st| && Sane(ups, st, k)
    requires forall x :: 0 <= x < |st| ==> st'[x].(asking := {}) == st[x].(asking := {})
    ensures Sane(ups, st', k)
  {
    forall x: nat | Missing(st, x) ensures Missing(st', x) {
      assert st'[x].(asking := {}) == st[x].(asking := {});
    }
    forall x: nat | Holds(st, x) ensures Holds(st', x) {
      assert st'[x].(asking := {}) == st[x].(asking := {});
    }
    assert st'[k].(asking := {}) == st[k].(asking := {});
    assert SomeMissing(st, ups[k]) ==> SomeMissing(st', ups[k]);
  }

  lemma LookerKeeps(ups: Graph, st: System, i: nat, j: nat, up: Node)
    requires |st| == |ups| && i < |st| && j < |st| && i != j && Tidy(ups, st, i) && Sane(ups, st, i)
    requires Reading(st[i]) && j in ups[i] && up.data == st[j].data && st[j].called
    ensures Sane(ups, st[i := st[i].(inFlight := Some(Look(st[i].inFlight.value, j, up, st[j])))], i)
  {
    var run := Look(st[i].inFlight.value, j, up, st[j]);
    var st' := st[i := st[i].(inFlight := Some(run))];
    if !up.data {
      assert !st[i].data;
      assert Missing(st', j) && SomeMissing(st', ups[i]);
    } else {
      assert AllHold(st, st[i].inFlight.value.seen) ==> AllHold(st', run.seen);
      if SomeMissing(st, ups[i]) {
        var x :| x in ups[i] && Missing(st, x);
        assert Missing(st', x);
      }
    }
  }

  lemma LookKeepsInv(ups: Graph, clean: set<nat>, st: System, i: nat, j: nat, stale: bool)
    requires |st| == |ups| && Acyclic(ups) && Inv(ups, clean, st) && Enabled(ups, st, Looks(i, j, stale))
    ensures Inv(ups, clean, Looked(ups, st, i, j, stale))
  {
    LookKeepsTidy(ups, st, i, j, stale);
    assert Tidy(ups, st, j);
    GetKeeps(st[j], ups[j], stale);
    var after := Get(st[j], ups[j], stale);
    assert j in clean ==> Sane(ups, st, j);
    KeptKeepsInv(ups, clean, st, j, after);
    var mid := st[j := after];
    var st' := Looked(ups, st, i, j, stale);
    assert st' == mid[i := st'[i]];
    if i !in clean {
      OutsideKeeps(ups, clean, mid, i, st'[i]);
    } else {
      LookerKeeps(ups, mid, i, j, st[j]);
      forall k | 0 <= k < |st| && k in clean ensures Sane(ups, st', k) {
        if k != i {
          OthersKeep(ups, mid, st', k);
        }
      }
    }
  }

  lemma SaveKeepsInv(ups: Graph, clean: set<nat>, st: System, i: nat, skipped: bool)
    requires |st| == |ups| && Acyclic(ups) && Inv(ups, clean, st) && Enabled(ups, st, Saves(i, skipped))
    ensures Inv(ups, clean, Saved(ups, st, i, skipped))
  {
    SaveKeepsTidy(ups, st, i, skipped);
    var st' := Saved(ups, st, i, skipped);
    forall k | 0 <= k < |st| && k in clean ensures Sane(ups, st', k) {
      assert Sane(ups, st, k) && Tidy(ups, st, k);
      if SomeMissing(st, ups[k]) {
        var x :| x in ups[k] && Missing(st, x);
        assert x != i ==> Missing(st', x);
      }
    }
  }

  predicate Settles(n: Node, error: Option<ComputeError>, upToDate: bool) {
    && n.inFlight.Some? && (upToDate ==> n.data)
    && (error.None? ==> n.inFlight.value.saved)
    && (error == Some(Aggregation.Cold) ==> n.inFlight.value.doomed == error)
  }

  /** A settlement changes no data and nobody's subscription. */
  lemma SettleMoves(ups: Graph, st: System, i: nat, error: Option<ComputeError>, upToDate: bool)
    requires |st| == |ups| && i < |st|
    ensures var st' := Settled(st, i, error, upToDate);
            && (forall x :: Missing(st', x) <==> Missing(st, x))
            && (forall x :: Holds(st', x) <==> Holds(st, x))
            && (forall js :: SomeMissing(st', js) <==> SomeMissing(st, js))
            && (forall js :: AllHold(st', js) <==> AllHold(st, js))
  {
    var st' := Settled(st, i, error, upToDate);
    forall js ensures SomeMissing(st', js) <==> SomeMissing(st, js) {
      if x :| x in js && Missing(st, x) {
        assert Missing(st', x);
      }
    }
  }

  lemma SettlerKeeps(ups: Graph, st: System, i: nat, error: Option<ComputeError>, upToDate: bool)
    requires |st| == |ups| && i < |st| && Tidy(ups, st, i) && Sane(ups, st, i) && Settles(st[i], error, upToDate)
    ensures Sane(ups, Settled(st, i, error, upToDate), i)
  {
    SettleMoves(ups, st, i, error, upToDate);
    var st' := Settled(st, i, error, upToDate);
    assert st'[i] == Settle(st[i], error, upToDate);
    assert error.Some? ==> error.value.Cold? || error.value.Other?;
  }

  lemma WaiterKeeps(ups: Graph, st: System, i: nat, error: Option<ComputeError>, upToDate: bool, k: nat)
    requires |st| == |ups| && i < |st| && Settles(st[i], error, upToDate)
    requires k < |st| && k != i && Tidy(ups, st, k) && Sane(ups, st, k) && (i in ups[k] ==> Sane(ups, st, i))
    ensures Sane(ups, Settled(st, i, error, upToDate), k)
  {
    SettleMoves(ups, st, i, error, upToDate);
    if error == Some(Aggregation.Cold) && st[k].inFlight.Some? && i in ups[k] {
      assert !Holds(st, i) && i !in st[k].inFlight.value.waiting;
    }
  }

  lemma SettleKeepsInv(ups: Graph, clean: set<nat>, st: System, i: nat, error: Option<ComputeError>, upToDate: bool)
    requires |st| == |ups| && Inv(ups, clean, st) && i < |st| && Settles(st[i], error, upToDate)
    ensures Inv(ups, clean, Settled(st, i, error, upToDate))
  {
    SettleKeepsTidy(ups, st, i, error, upToDate);
    SettleMoves(ups, st, i, error, upToDate);
    var st' := Settled(st, i, error, upToDate);
    forall k | 0 <= k < |st| && k in clean ensures Sane(ups, st', k) {
      assert Sane(ups, st, k) && Tidy(ups, st, k);
      if k == i {
        SettlerKeeps(ups, st, i, error, upToDate);
      } else {
        assert i in ups[k] ==> Sane(ups, st, i);
        WaiterKeeps(ups, st, i, error, upToDate, k);
      }
    }
  }

  lemma StepKeepsInv(ups: Graph, clean: set<nat>, st: System, e: Event)
    requires |st| == |ups| && Acyclic(ups) && Inv(ups, clean, st) && Enabled(ups, st, e) && Orderly(st, e)
    ensures Inv(ups, clean, Step(ups, st, e))
  {
    if OwnEvent(e) {
      OwnEventKeeps(ups, st, e);
      assert e.i in clean ==> Sane(ups, st, e.i);
      KeptKeepsInv(ups, clean, st, e.i, Step(ups, st, e)[e.i]);
    } else {
      match e
      case Asks(i, j, stale) => AskKeepsInv(ups, clean, st, i, j, stale);
      case Looks(i, j, stale) => LookKeepsInv(ups, clean, st, i, j, stale);
      case Saves(i, skipped) => SaveKeepsInv(ups, clean, st, i, skipped);
      case Succeeds(i, upToDate) => SettleKeepsInv(ups, clean, st, i, None, upToDate);
      case Fails(i, error, upToDate) => SettleKeepsInv(ups, clean, st, i, Some(error), upToDate);
    }
  }

  lemma {:induction false} RunKeepsInv(ups: Graph, clean: set<nat>, st: System, es: seq<Event>)
    requires |st| == |ups| && Acyclic(ups) && Inv(ups, clean, st) && OrderlyRun(ups, st, es)
    ensures RunOf(ups, st, es) && Inv(ups, clean, After(ups, st, es))
    decreases |es|
  {
    if es != [] {
      StepKeepsInv(ups, clean, st, es[0]);
      RunKeepsInv(ups, clean, Step(ups, st, es[0]), es[1..]);
    }
  }

  const ASLEEP := Node(false, false, {}, None, false, false, 0, 0, None)
  const STORED := ASLEEP.(data := true)

  /** A session that has just begun: stored rows, nobody asked yet. */
  predicate Initial(st: System) {
    forall i :: 0 <= i < |st| ==> st[i] == ASLEEP || st[i] == STORED
  }

  /** A session may begin with any rows stored. */
  lemma AnyRowsMayBeStored(n: nat, stored: set<nat>) returns (st: System)
    ensures |st| == n && Initial(st)
    ensures forall i :: 0 <= i < n ==> (st[i].data <==> i in stored) && !st[i].called && Idle(st[i]) && st[i].asking == {}
  {
    st := seq(n, i requires 0 <= i < n => if i in stored then STORED else ASLEEP);
  }

  /** Nothing in flight, no timer armed, and no `get()` still asking. */
  predicate Quiet(st: System) {
    forall i :: 0 <= i < |st| ==> Idle(st[i]) && st[i].asking == {}
  }

  predicate OnlyCold(st: System) {
    forall i :: 0 <= i < |st| ==> st[i].lastError != Some(Aggregation.Other)
  }

  /** `j` is `i`, or one of the aggregations `i` reads directly or through others. */
  ghost predicate Upstream(ups: Graph, i: nat, j: nat)
    requires Acyclic(ups)
    decreases i
  {
    i == j || (i < |ups| && exists k :: k in ups[i] && Upstream(ups, k, j))
  }

  ghost predicate FullyStored(ups: Graph, st: System, i: nat)
    requires Acyclic(ups)
  {
    forall j :: Upstream(ups, i, j) ==> Holds(st, j)
  }

  /** An aggregation without data reads a stored one that has a missing row somewhere upstream. */
  ghost predicate Strands(ups: Graph, st: System, k: nat)
    requires |st| == |ups| && Acyclic(ups)
  {
    k < |st| && !st[k].data && exists i :: i in ups[k] && Holds(st, i) && !FullyStored(ups, st, i)
  }

  ghost predicate Stranding(ups: Graph, st: System)
    requires |st| == |ups| && Acyclic(ups)
  {
    exists k :: Strands(ups, st, k)
  }

  /** The missing rows, and the rows stored over stored rows all the way. */
  ghost function Clean(ups: Graph, st: System): set<nat>
    requires |st| == |ups| && Acyclic(ups)
  {
    set i: nat | i < |st| && (!st[i].data || FullyStored(ups, st, i))
  }

  lemma ReadsFullyStored(ups: Graph, st: System, i: nat, j: nat)
    requires |st| == |ups| && Acyclic(ups) && i < |st| && FullyStored(ups, st, i) && j in ups[i]
    ensures FullyStored(ups, st, j) && Holds(st, j)
  {
    forall x | Upstream(ups, j, x) ensures Holds(st, x) {
      assert Upstream(ups, i, x);
    }
    assert Upstream(ups, j, j);
  }

  lemma CleanIsDownward(ups: Graph, st: System)
    requires |st| == |ups| && Acyclic(ups) && !Stranding(ups, st)
    ensures Downward(ups, Clean(ups, st))
  {
    forall i, j | 0 <= i < |ups| && i in Clean(ups, st) && j in ups[i] ensures j in Clean(ups, st) {
      if st[i].data {
        ReadsFullyStored(ups, st, i, j);
      } else {
        assert !Strands(ups, st, i);
      }
    }
  }

  lemma InitialInv(ups: Graph, st: System)
    requires |st| == |ups| && Acyclic(ups) && Initial(st) && !Stranding(ups, st)
    ensures Inv(ups, Clean(ups, st), st)
  {
    CleanIsDownward(ups, st);
    forall i | 0 <= i < |st| && i in Clean(ups, st) ensures Sane(ups, st, i) {
      if st[i].data {
        forall j | j in ups[i] ensures Holds(st, j) {
          ReadsFullyStored(ups, st, i, j);
        }
      }
    }
  }

  lemma {:induction false} NobodyWaits(ups: Graph, clean: set<nat>, st: System, i: nat)
    requires |st| == |ups| && Acyclic(ups) && Inv(ups, clean, st) && Quiet(st) && OnlyCold(st) && Called(st, i)
    ensures Holds(st, i)
    decreases i
  {
    if !st[i].data {
      assert Sane(ups, st, i) && Idle(st[i]);
      var j :| j in ups[i] && Missing(st, j);
      NobodyWaits(ups, clean, st, j);
    }
  }

  lemma {:induction false} UpstreamHolds(ups: Graph, clean: set<nat>, st: System, i: nat, j: nat)
    requires |st| == |ups| && Acyclic(ups) && Inv(ups, clean, st) && Quiet(st) && OnlyCold(st) && Called(st, i)
    requires Upstream(ups, i, j)
    ensures Holds(st, j)
    decreases i
  {
    NobodyWaits(ups, clean, st, i);
    if i != j {
      var k :| k in ups[i] && Upstream(ups, k, j);
      assert Tidy(ups, st, i) && st[i].asking == {};
      UpstreamHolds(ups, clean, st, k, j);
    }
  }

  /** No cold start deadlocks: unless some missing aggregation reads a stored one over a missing row, once
      everything is quiet and no instance reports a real failure, every aggregation that was asked, and
      everything upstream of it, has data. */
  lemma NoColdDeadlock(ups: Graph, st: System, es: seq<Event>, i: nat, j: nat)
    requires |st| == |ups| && Acyclic(ups) && Initial(st) && !Stranding(ups, st) && OrderlyRun(ups, st, es)
    requires RunOf(ups, st, es)
    requires var f := After(ups, st, es); Quiet(f) && OnlyCold(f) && Called(f, i)
    requires Upstream(ups, i, j)
    ensures Holds(After(ups, st, es), j)
  {
    InitialInv(ups, st);
    RunKeepsInv(ups, Clean(ups, st), st, es);
    UpstreamHolds(ups, Clean(ups, st), After(ups, st, es), i, j);
  }

  /** Everything is quiet and no failure was real, yet somebody was asked and has nothing. */
  predicate Deadlocked(st: System) {
    Quiet(st) && OnlyCold(st) && exists i :: 0 <= i < |st| && st[i].called && !st[i].data
  }
}
