/**
 * Exactly when aggregations that read one another deadlock: the runs that leave a missing aggregation waiting
 * for ever, for every graph that has one, and that no other graph has any.
 */
module AggregationDeadlock {
  import opened Wrappers
  import opened AggregationGraph
  import Aggregation

  // ---------------------------------------------------------------------------------------------
  // Reaching
  // ---------------------------------------------------------------------------------------------

  /** Some run, orderly if asked for, leads from `a` to `b`. */
  ghost predicate Reaches(ups: Graph, a: System, b: System, orderly: bool)
    requires |a| == |ups|
  {
    exists es :: RunOf(ups, a, es) && After(ups, a, es) == b && (orderly ==> OrderlyRun(ups, a, es))
  }

  lemma {:induction false} OneMore(ups: Graph, a: System, es: seq<Event>, e: Event)
    requires |a| == |ups| && RunOf(ups, a, es) && Enabled(ups, After(ups, a, es), e)
    ensures RunOf(ups, a, es + [e]) && After(ups, a, es + [e]) == Step(ups, After(ups, a, es), e)
    ensures OrderlyRun(ups, a, es) && Orderly(After(ups, a, es), e) ==> OrderlyRun(ups, a, es + [e])
    decreases |es|
  {
    if es == [] {
      assert [] + [e] == [e] && [e][1..] == [];
    } else {
      OneMore(ups, Step(ups, a, es[0]), es[1..], e);
      assert (es + [e])[1..] == es[1..] + [e];
    }
  }

  lemma Reach(ups: Graph, a: System, b: System, orderly: bool, e: Event, c: System)
    requires |a| == |ups| == |b| && Reaches(ups, a, b, orderly)
    requires Enabled(ups, b, e) && Step(ups, b, e) == c && (orderly ==> Orderly(b, e))
    ensures Reaches(ups, a, c, orderly)
  {
    var es :| RunOf(ups, a, es) && After(ups, a, es) == b && (orderly ==> OrderlyRun(ups, a, es));
    OneMore(ups, a, es, e);
  }

  lemma ReachSelf(ups: Graph, a: System, orderly: bool)
    requires |a| == |ups|
    ensures Reaches(ups, a, a, orderly)
  {
    assert RunOf(ups, a, []) && After(ups, a, []) == a && OrderlyRun(ups, a, []);
  }

  const AWAKE := ASLEEP.(called := true)
  const READY := AWAKE.(data := true)

  function Computing(n: Node, run: Reads): Node {
    n.(inFlight := Some(run))
  }

  // ---------------------------------------------------------------------------------------------
  // Everything below `y` is asked
  // ---------------------------------------------------------------------------------------------

  /** The missing rows below `y` are being computed, the stored ones have asked what they read. */
  function AskedTo(a: System, y: nat): System {
    seq(|a|, z requires 0 <= z < |a| =>
      if y <= z then a[z] else if a[z].data then READY else Computing(AWAKE, NO_READS))
  }

  /** A `get()` on stored data asks upstreams that have all been asked before. */
  lemma {:induction false} AskUpstream(ups: Graph, a: System, y: nat, rest: set<nat>)
    requires |a| == |ups| && Acyclic(ups) && Initial(a) && y < |a| && a[y].data && rest <= ups[y]
    requires Reaches(ups, a, AskedTo(a, y)[y := READY.(asking := rest)], true)
    ensures Reaches(ups, a, AskedTo(a, y)[y := READY], true)
    decreases rest
  {
    if j :| j in rest {
      var b := AskedTo(a, y)[y := READY.(asking := rest)];
      var c := AskedTo(a, y)[y := READY.(asking := rest - {j})];
      Reach(ups, a, b, true, Asks(y, j, false), c);
      AskUpstream(ups, a, y, rest - {j});
    } else {
      assert rest == {};
    }
  }

  lemma {:induction false} AskAll(ups: Graph, a: System, y: nat)
    requires |a| == |ups| && Acyclic(ups) && Initial(a) && y <= |a|
    ensures Reaches(ups, a, AskedTo(a, y), true)
    decreases y
  {
    if y == 0 {
      ReachSelf(ups, a, true);
      assert AskedTo(a, 0) == a;
    } else {
      AskAll(ups, a, y - 1);
      var b := AskedTo(a, y - 1);
      if a[y - 1].data {
        Reach(ups, a, b, true, GetCalled(y - 1, false), b[y - 1 := READY.(asking := ups[y - 1])]);
        AskUpstream(ups, a, y - 1, ups[y - 1]);
        assert AskedTo(a, y) == b[y - 1 := READY];
      } else {
        Reach(ups, a, b, true, GetCalled(y - 1, false), b[y - 1 := Computing(AWAKE, NO_READS)]);
        assert AskedTo(a, y) == b[y - 1 := Computing(AWAKE, NO_READS)];
      }
    }
  }

  // ---------------------------------------------------------------------------------------------
  // Computes of stored rows that wait for a missing one
  // ---------------------------------------------------------------------------------------------

  /** A stored row that reads the one before it. */
  predicate Link(ups: Graph, a: System, path: seq<nat>, s: nat)
    requires |a| == |ups| && 1 <= s < |path|
  {
    Holds(a, path[s]) && path[s - 1] in ups[path[s]]
  }

  /** A way up from a missing row through stored ones. */
  ghost predicate IsPath(ups: Graph, a: System, path: seq<nat>)
    requires |a| == |ups|
  {
    path != [] && path[0] < |a| && !a[path[0]].data && forall s :: 1 <= s < |path| ==> Link(ups, a, path, s)
  }

  lemma {:induction false} PathRises(ups: Graph, a: System, path: seq<nat>, s: nat, t: nat)
    requires |a| == |ups| && Acyclic(ups) && IsPath(ups, a, path) && s < t < |path|
    ensures path[s] < path[t]
    decreases t
  {
    assert Link(ups, a, path, t);
    if s < t - 1 {
      PathRises(ups, a, path, s, t - 1);
    }
  }

  lemma {:induction false} PathLeadsDown(ups: Graph, a: System, path: seq<nat>, s: nat)
    requires |a| == |ups| && Acyclic(ups) && IsPath(ups, a, path) && s < |path|
    ensures Upstream(ups, path[s], path[0])
    decreases s
  {
    if s > 0 {
      assert Link(ups, a, path, s);
      PathLeadsDown(ups, a, path, s - 1);
    }
  }

  lemma {:induction false} StoredPath(ups: Graph, a: System, i: nat, m: nat) returns (path: seq<nat>)
    requires |a| == |ups| && Acyclic(ups) && Holds(a, i) && Upstream(ups, i, m) && !Holds(a, m)
    ensures IsPath(ups, a, path) && |path| >= 2 && path[|path| - 1] == i
    decreases i
  {
    var j :| j in ups[i] && Upstream(ups, j, m);
    if a[j].data {
      var front := StoredPath(ups, a, j, m);
      path := front + [i];
      forall s | 1 <= s < |path| ensures Link(ups, a, path, s) {
        assert s < |front| ==> Link(ups, a, front, s);
      }
    } else {
      path := [j, i];
    }
  }

  /** What the compute of the `s`th row on the way has read: the missing row, or one being computed. */
  function Bound(path: seq<nat>, s: nat): Reads
    requires 1 <= s < |path|
  {
    if s == 1 then Reads({path[0]}, {}, Some(Aggregation.Cold), false)
    else Reads({path[s - 1]}, {path[s - 1]}, None, false)
  }

  predicate Frozen(st: System, path: seq<nat>, s: nat)
    requires 1 <= s < |path|
  {
    path[s] < |st| && st[path[s]].inFlight == Some(Bound(path, s))
  }

  /** Asked, nothing queued, armed to retry or really failed; a debounce may be armed. */
  predicate Plain(n: Node) {
    n.called && n.asking == {} && !n.rerun && n.retries == 0 && n.lastError != Some(Aggregation.Other)
  }

  /** `k` itself, and whoever is above it: nobody has asked them. */
  predicate Untouched(ups: Graph, a: System, st: System, k: nat, n: Node)
    requires |a| == |ups| == |st| && k < |a|
  {
    st[k] == n && !n.called && forall y :: k < y < |st| ==> st[y] == a[y]
  }

  /** Below `k`: the missing rows below `x` have been computed, those from `x` on are in flight, and so are the
      stored rows on the path. */
  ghost predicate Serving(ups: Graph, a: System, st: System, path: seq<nat>, x: nat, k: nat, n: Node)
    requires |a| == |ups| == |st| && IsPath(ups, a, path) && k < |a|
  {
    && Untouched(ups, a, st, k, n)
    && (forall y :: 0 <= y < k ==> Plain(st[y]) && st[y].data == (a[y].data || y < x))
    && (forall y :: 0 <= y < k && y !in path[1..] ==>
          st[y].inFlight == if a[y].data || y < x then None else Some(NO_READS))
    && (forall s :: 1 <= s < |path| ==> Frozen(st, path, s))
  }

  lemma AskedServes(ups: Graph, a: System, m: nat, k: nat)
    requires |a| == |ups| && Initial(a) && m < |a| && !a[m].data && k < |a|
    ensures IsPath(ups, a, [m]) && Serving(ups, a, AskedTo(a, k), [m], 0, k, a[k])
  {
    assert [m][1..] == [];
  }

  /** One more stored row looks stale, and comes to wait for the one below it on the path. */
  lemma FreezeOne(ups: Graph, a: System, b: System, path: seq<nat>, k: nat) returns (st: System)
    requires |a| == |ups| == |b| && Acyclic(ups) && IsPath(ups, a, path) && |path| > 1 && k < |a|
    requires path[|path| - 1] < k && path[|path| - 1] !in path[..|path| - 1]
    requires IsPath(ups, a, path[..|path| - 1]) && Serving(ups, a, b, path[..|path| - 1], 0, k, a[k])
    requires Reaches(ups, a, b, true)
    ensures |st| == |a| && Reaches(ups, a, st, true)
    ensures var p := path[|path| - 1]; st == b[p := Computing(b[p], Bound(path, |path| - 1))]
  {
    var last := |path| - 1;
    var front, p, q := path[..last], path[last], path[last - 1];
    assert Link(ups, a, path, last) && q < p;
    assert p !in front[1..];
    assert b[p].inFlight.None?;
    if last == 1 {
      assert q == path[0] && q !in front[1..];
    } else {
      assert Frozen(b, front, last - 1) && Link(ups, a, path, last - 1);
    }
    var c := b[p := Computing(b[p], NO_READS)];
    Reach(ups, a, b, true, GetCalled(p, true), c);
    st := b[p := Computing(b[p], Bound(path, last))];
    assert {} + {q} == {q};
    assert Get(c[q], ups[q], false) == c[q];
    Reach(ups, a, c, true, Looks(p, q, false), st);
  }

  lemma FrozenFurther(ups: Graph, a: System, b: System, st: System, path: seq<nat>, k: nat)
    requires |a| == |ups| == |b| && IsPath(ups, a, path) && |path| > 1 && k < |a|
    requires path[|path| - 1] < k && path[|path| - 1] !in path[..|path| - 1]
    requires var front := path[..|path| - 1]; IsPath(ups, a, front) && Serving(ups, a, b, front, 0, k, a[k])
    requires var last := |path| - 1; st == b[path[last] := Computing(b[path[last]], Bound(path, last))]
    ensures Serving(ups, a, st, path, 0, k, a[k])
  {
    var last := |path| - 1;
    var front := path[..last];
    assert path[1..] == front[1..] + [path[last]];
    forall s | 1 <= s < |path| ensures Frozen(st, path, s) {
      if s < last {
        assert Frozen(b, front, s) && front[s] == path[s] && Bound(front, s) == Bound(path, s);
      }
    }
  }

  lemma {:induction false} Freeze(ups: Graph, a: System, path: seq<nat>, k: nat) returns (st: System)
    requires |a| == |ups| && Acyclic(ups) && Initial(a) && IsPath(ups, a, path) && k < |a|
    requires forall s :: 0 <= s < |path| ==> path[s] < k
    ensures |st| == |a| && Reaches(ups, a, st, true) && Serving(ups, a, st, path, 0, k, a[k])
    decreases |path|
  {
    var last := |path| - 1;
    if last == 0 {
      AskAll(ups, a, k);
      st := AskedTo(a, k);
      AskedServes(ups, a, path[0], k);
      assert path == [path[0]];
    } else {
      var front := path[..last];
      forall s | 1 <= s < last ensures Link(ups, a, front, s) {
        assert Link(ups, a, path, s);
      }
      forall s | 0 <= s < last ensures path[s] != path[last] {
        PathRises(ups, a, path, s, last);
      }
      var b := Freeze(ups, a, front, k);
      st := FreezeOne(ups, a, b, path, k);
      FrozenFurther(ups, a, b, st, path, k);
    }
  }

  // ---------------------------------------------------------------------------------------------
  // The missing rows are computed
  // ---------------------------------------------------------------------------------------------

  /** The compute of `x` reads everything it reads, all of it there and nothing of it being computed. */
  lemma {:induction false} LookAll(ups: Graph, a: System, orderly: bool, st: System, x: nat, seen: set<nat>)
    requires |a| == |ups| == |st| && Acyclic(ups) && x < |st| && seen <= ups[x]
    requires forall j :: j in ups[x] ==> Holds(st, j) && st[j].called && st[j].inFlight.None?
    requires Reaches(ups, a, st[x := Computing(st[x], Reads(seen, {}, None, false))], orderly)
    ensures Reaches(ups, a, st[x := Computing(st[x], Reads(ups[x], {}, None, false))], orderly)
    decreases ups[x] - seen
  {
    if j :| j in ups[x] && j !in seen {
      var b := st[x := Computing(st[x], Reads(seen, {}, None, false))];
      var c := st[x := Computing(st[x], Reads(seen + {j}, {}, None, false))];
      assert Get(b[j], ups[j], false) == b[j];
      Reach(ups, a, b, orderly, Looks(x, j, false), c);
      LookAll(ups, a, orderly, st, x, seen + {j});
    } else {
      assert seen == ups[x];
    }
  }

  lemma Publish(ups: Graph, a: System, orderly: bool, st: System, x: nat) returns (f: System)
    requires |a| == |ups| == |st| && x < |st| && !st[x].rerun
    requires Reaches(ups, a, st, orderly)
    requires st[x].inFlight == Some(Reads(ups[x], {}, None, false))
    requires forall y :: 0 <= y < |st| && st[y].inFlight.Some? ==> x !in st[y].inFlight.value.waiting
    ensures |f| == |st| && Reaches(ups, a, f, orderly)
    ensures f[x] == st[x].(data := true, inFlight := None, lastError := None, failures := 0)
    ensures forall y :: 0 <= y < |st| && y != x ==> f[y] == if x in ups[y] then Notify(st[y]) else st[y]
  {
    var b := Saved(ups, st, x, false);
    Reach(ups, a, st, orderly, Saves(x, false), b);
    f := Settled(b, x, None, true);
    Reach(ups, a, b, orderly, Succeeds(x, true), f);
  }

  /** Nobody waits for a missing row: the rows on the path wait for stored ones. */
  lemma NobodyAwaits(ups: Graph, a: System, st: System, path: seq<nat>, x: nat, k: nat, n: Node, y: nat)
    requires |a| == |ups| == |st| && IsPath(ups, a, path) && x < k < |a| && Serving(ups, a, st, path, x, k, n)
    requires Initial(a) && !a[x].data && (n.inFlight.Some? ==> n.inFlight.value.waiting == {})
    requires y < |st| && st[y].inFlight.Some?
    ensures x !in st[y].inFlight.value.waiting
  {
    if y < k && y in path[1..] {
      var s :| 0 <= s < |path[1..]| && path[1..][s] == y;
      assert Frozen(st, path, s + 1) && Link(ups, a, path, s + 1);
      assert s >= 1 ==> Link(ups, a, path, s);
    }
  }

  lemma Served(ups: Graph, a: System, st: System, path: seq<nat>, x: nat, k: nat, n: Node, f: System)
    requires |a| == |ups| == |st| == |f| && Acyclic(ups) && IsPath(ups, a, path) && x < k < |a|
    requires Serving(ups, a, st, path, x, k, n) && Initial(a) && !a[x].data
    requires f[x] == st[x].(data := true, inFlight := None, lastError := None, failures := 0)
    requires forall y :: 0 <= y < |st| && y != x ==> f[y] == if x in ups[y] then Notify(st[y]) else st[y]
    ensures Serving(ups, a, f, path, x + 1, k, n)
  {
    forall s | 1 <= s < |path| ensures Frozen(f, path, s) && path[s] != x {
      assert Frozen(st, path, s) && Link(ups, a, path, s);
    }
  }

  /** A missing row is computed, and whoever has been asked and reads it is notified. */
  lemma Serve(ups: Graph, a: System, o: System, orderly: bool, st: System, path: seq<nat>, x: nat, k: nat, n: Node)
    returns (f: System)
    requires |a| == |ups| == |st| == |o| && Acyclic(ups) && IsPath(ups, a, path) && x < k < |a|
    requires Serving(ups, a, st, path, x, k, n) && Reaches(ups, o, st, orderly) && Initial(a)
    requires n.inFlight.Some? ==> n.inFlight.value.waiting == {}
    requires !a[x].data && forall j :: j in ups[x] ==> j !in path[1..]
    ensures |f| == |st| && Reaches(ups, o, f, orderly) && Serving(ups, a, f, path, x + 1, k, n)
  {
    forall s | 1 <= s < |path| ensures path[s] != x {
      assert Link(ups, a, path, s);
    }
    assert x !in path[1..];
    assert st[x := Computing(st[x], NO_READS)] == st;
    LookAll(ups, o, orderly, st, x, {});
    var b := st[x := Computing(st[x], Reads(ups[x], {}, None, false))];
    forall y | 0 <= y < |b| && b[y].inFlight.Some? ensures x !in b[y].inFlight.value.waiting {
      if y != x {
        NobodyAwaits(ups, a, st, path, x, k, n, y);
      }
    }
    f := Publish(ups, o, orderly, b, x);
    Served(ups, a, st, path, x, k, n, f);
  }

  lemma {:induction false} ServeAll(ups: Graph, a: System, o: System, orderly: bool, st: System, path: seq<nat>,
                                    x: nat, k: nat, n: Node) returns (f: System)
    requires |a| == |ups| == |st| == |o| && Acyclic(ups) && IsPath(ups, a, path) && x <= k < |a|
    requires Serving(ups, a, st, path, x, k, n) && Reaches(ups, o, st, orderly) && Initial(a)
    requires n.inFlight.Some? ==> n.inFlight.value.waiting == {}
    requires forall y, j :: 0 <= y < k && !a[y].data && j in ups[y] ==> j !in path[1..]
    ensures |f| == |st| && Reaches(ups, o, f, orderly) && Serving(ups, a, f, path, k, k, n)
    decreases k - x
  {
    if x == k {
      f := st;
    } else {
      var b := st;
      if !a[x].data {
        b := Serve(ups, a, o, orderly, st, path, x, k, n);
      }
      f := ServeAll(ups, a, o, orderly, b, path, x + 1, k, n);
    }
  }

  // ---------------------------------------------------------------------------------------------
  // The failure arrives
  // ---------------------------------------------------------------------------------------------

  /** The `c`th on the path has met the missing row, those above it are waiting. */
  predicate Doomed(st: System, path: seq<nat>, c: nat, s: nat)
    requires 1 <= c <= s < |path|
  {
    && path[s] < |st| && !st[path[s]].rerun
    && st[path[s]].inFlight == Some(if s == c then Reads({path[s - 1]}, {}, Some(Aggregation.Cold), false)
                                    else Bound(path, s))
  }

  ghost predicate Rising(path: seq<nat>, size: nat) {
    (forall s, t :: 0 <= s < t < |path| ==> path[s] < path[t]) && forall s :: 0 <= s < |path| ==> path[s] < size
  }

  /** The computes on the path from the `c`th on are in flight, the last is that of the missing `k`; nothing
      else is in flight, and whoever is there is notified at most. */
  ghost predicate Falling(st: System, path: seq<nat>, c: nat) {
    && 1 <= c <= |path| && Rising(path, |st|)
    && (forall y :: 0 <= y < |st| ==>
          st[y].asking == {} && st[y].retries == 0 && st[y].lastError != Some(Aggregation.Other)
          && (st[y].debounce ==> st[y].data))
    && (forall y :: 0 <= y < |st| && y !in path[c..] ==> st[y].inFlight.None?)
    && (forall s :: c <= s < |path| ==> Doomed(st, path, c, s))
    && Missing(st, path[|path| - 1])
  }

  /** The failure of the `c`th reaches the one above it, and nobody else. */
  lemma FallsOn(st: System, path: seq<nat>, c: nat, s: nat)
    requires |path| > 1 && Falling(st, path, c) && c < s < |path|
    ensures Doomed(Settled(st, path[c], Some(Aggregation.Cold), false), path, c + 1, s)
  {
    assert Doomed(st, path, c, s);
    assert path[c] < path[s] && (s > c + 1 ==> path[c] < path[s - 1]);
    assert {path[c]} - {path[c]} == {};
  }

  lemma FallsNowhereElse(st: System, path: seq<nat>, c: nat, y: nat)
    requires |path| > 1 && Falling(st, path, c) && c < |path| && y < |st| && y !in path[c..]
    ensures Settled(st, path[c], Some(Aggregation.Cold), false)[y] == st[y]
  {
    assert path[c..][0] == path[c];
  }

  lemma Fall(ups: Graph, o: System, orderly: bool, st: System, path: seq<nat>, c: nat) returns (f: System)
    requires |o| == |ups| == |st| && |path| > 1 && Falling(st, path, c) && c < |path| && Reaches(ups, o, st, orderly)
    ensures |f| == |st| && Reaches(ups, o, f, orderly) && Falling(f, path, c + 1)
  {
    var p, d := path[c], c + 1;
    assert Doomed(st, path, c, c);
    f := Settled(st, p, Some(Aggregation.Cold), false);
    Reach(ups, o, st, orderly, Fails(p, Aggregation.Cold, false), f);
    assert path[c..] == [p] + path[d..];
    forall s | d <= s < |path| ensures Doomed(f, path, d, s) {
      FallsOn(st, path, c, s);
    }
    FallKeepsRest(st, path, c, f);
    forall y | 0 <= y < |st| && y !in path[d..] ensures f[y].inFlight.None? {
      if y != p {
        FallsNowhereElse(st, path, c, y);
      }
    }
  }

  lemma FallKeepsRest(st: System, path: seq<nat>, c: nat, f: System)
    requires |path| > 1 && Falling(st, path, c) && c < |path|
    requires f == Settled(st, path[c], Some(Aggregation.Cold), false)
    ensures f[path[c]].inFlight.None? && Missing(f, path[|path| - 1])
    ensures forall y :: 0 <= y < |f| ==>
              f[y].asking == {} && f[y].retries == 0 && f[y].lastError != Some(Aggregation.Other)
              && (f[y].debounce ==> f[y].data)
  {
    assert Doomed(st, path, c, c);
  }

  lemma {:induction false} FallAll(ups: Graph, o: System, orderly: bool, st: System, path: seq<nat>, c: nat)
    returns (f: System)
    requires |o| == |ups| == |st| && |path| > 1 && Falling(st, path, c) && Reaches(ups, o, st, orderly)
    ensures |f| == |st| && Reaches(ups, o, f, orderly) && Falling(f, path, |path|)
    decreases |path| - c
  {
    if c == |path| {
      f := st;
    } else {
      var b := Fall(ups, o, orderly, st, path, c);
      f := FallAll(ups, o, orderly, b, path, c + 1);
    }
  }

  /** Every armed debounce finds its aggregation up to date and says nothing. */
  lemma {:induction false} Hush(ups: Graph, o: System, orderly: bool, st: System, path: seq<nat>, y: nat)
    returns (f: System)
    requires |o| == |ups| == |st| && path != [] && Falling(st, path, |path|) && Reaches(ups, o, st, orderly)
    requires y <= |st| && forall z :: 0 <= z < y ==> !st[z].debounce
    ensures |f| == |st| && Reaches(ups, o, f, orderly) && Deadlocked(f)
    decreases |st| - y
  {
    if y == |st| {
      f := st;
      assert path[|path|..] == [];
    } else {
      var b := st[y := st[y].(debounce := false)];
      if st[y].debounce {
        Reach(ups, o, st, orderly, DebounceFires(y, true), b);
      } else {
        assert b == st;
      }
      f := Hush(ups, o, orderly, b, path, y + 1);
    }
  }

  ghost predicate SomeRunDeadlocks(ups: Graph, st: System, orderly: bool)
    requires |st| == |ups|
  {
    exists f :: Reaches(ups, st, f, orderly) && Deadlocked(f)
  }

  lemma FallingDeadlocks(ups: Graph, o: System, orderly: bool, st: System, path: seq<nat>)
    requires |o| == |ups| == |st| && |path| > 1 && Falling(st, path, 1) && Reaches(ups, o, st, orderly)
    ensures SomeRunDeadlocks(ups, o, orderly)
  {
    var b := FallAll(ups, o, orderly, st, path, 1);
    var f := Hush(ups, o, orderly, b, path, 0);
  }

  // ---------------------------------------------------------------------------------------------
  // When a cold start deadlocks
  // ---------------------------------------------------------------------------------------------

  /** Every row below `k` is there, and the missing `k` has read the last row of the path. */
  lemma ServedFalls(ups: Graph, a: System, f: System, path: seq<nat>, k: nat, n: Node, g: System)
    requires |a| == |ups| == |f| && Acyclic(ups) && Initial(a) && IsPath(ups, a, path) && k < |a|
    requires Serving(ups, a, f, path, k, k, n)
    requires forall s :: 0 <= s < |path| ==> path[s] < k
    requires g == f[k := Computing(AWAKE, Bound(path + [k], |path|))]
    ensures Falling(g, path + [k], 1)
  {
    var way := path + [k];
    forall s, t | 0 <= s < t < |way| ensures way[s] < way[t] {
      if t < |path| {
        PathRises(ups, a, path, s, t);
      }
    }
    assert way[1..] == path[1..] + [k];
    forall s | 1 <= s < |way| ensures Doomed(g, way, 1, s) {
      if s < |path| {
        assert Frozen(f, path, s) && Bound(way, s) == Bound(path, s);
      }
    }
  }

  lemma {:induction false} LeastStranded(ups: Graph, st: System, i: nat) returns (k: nat)
    requires |st| == |ups| && Acyclic(ups) && Strands(ups, st, i)
    ensures Strands(ups, st, k) && forall j: nat :: j < k ==> !Strands(ups, st, j)
    decreases i
  {
    if j: nat :| j < i && Strands(ups, st, j) {
      k := LeastStranded(ups, st, j);
    } else {
      k := i;
    }
  }

  lemma PathStaysClear(ups: Graph, a: System, path: seq<nat>, y: nat, j: nat)
    requires |a| == |ups| && Acyclic(ups) && IsPath(ups, a, path)
    requires y < |a| && !a[y].data && !Strands(ups, a, y) && j in ups[y]
    ensures j !in path[1..]
  {
    if j in path[1..] {
      var s :| 0 <= s < |path[1..]| && path[1..][s] == j;
      assert Link(ups, a, path, s + 1);
      PathLeadsDown(ups, a, path, s + 1);
    }
  }

  /** `k` is asked for the first time, and awaits the last row of the path. */
  lemma LastReads(ups: Graph, a: System, f: System, path: seq<nat>, k: nat)
    requires |a| == |ups| == |f| && Acyclic(ups) && Initial(a) && IsPath(ups, a, path) && |path| > 1
    requires k < |a| && !a[k].data && path[|path| - 1] in ups[k]
    requires Serving(ups, a, f, path, k, k, a[k]) && Reaches(ups, a, f, true)
    ensures Reaches(ups, a, f[k := Computing(AWAKE, Bound(path + [k], |path|))], true)
  {
    var i := path[|path| - 1];
    assert Frozen(f, path, |path| - 1) && a[k] == ASLEEP && i < k;
    var c := f[k := Computing(AWAKE, NO_READS)];
    Reach(ups, a, f, true, GetCalled(k, false), c);
    ReadsRunning(ups, a, c, k, i);
    assert f[k := Computing(AWAKE, Bound(path + [k], |path|))]
           == c[k := Computing(AWAKE, Reads({i}, {i}, None, false))];
  }

  lemma ReadsRunning(ups: Graph, a: System, c: System, k: nat, i: nat)
    requires |a| == |ups| == |c| && k < |a| && i < k && i in ups[k] && Reaches(ups, a, c, true)
    requires c[k] == Computing(AWAKE, NO_READS) && c[i].called && c[i].data && c[i].inFlight.Some?
    ensures Reaches(ups, a, c[k := Computing(AWAKE, Reads({i}, {i}, None, false))], true)
  {
    var g := c[k := Computing(AWAKE, Reads({i}, {i}, None, false))];
    assert Get(c[i], ups[i], false) == c[i] && {} + {i} == {i};
    Reach(ups, a, c, true, Looks(k, i, false), g);
  }

  /** The least missing reader over a way down to a missing row, which no missing row below it reads. */
  lemma StrandedPath(ups: Graph, st: System) returns (path: seq<nat>, k: nat)
    requires |st| == |ups| && Acyclic(ups) && Initial(st) && Stranding(ups, st)
    ensures k < |st| && !st[k].data && IsPath(ups, st, path) && |path| > 1 && path[|path| - 1] in ups[k]
    ensures forall s :: 0 <= s < |path| ==> path[s] < k
    ensures forall y, j :: 0 <= y < k && !st[y].data && j in ups[y] ==> j !in path[1..]
  {
    var some :| Strands(ups, st, some);
    k := LeastStranded(ups, st, some);
    var i :| i in ups[k] && Holds(st, i) && !FullyStored(ups, st, i);
    var m :| Upstream(ups, i, m) && !Holds(st, m);
    path := StoredPath(ups, st, i, m);
    var last := |path| - 1;
    forall s | 0 <= s < |path| ensures path[s] < k {
      if s < last {
        PathRises(ups, st, path, s, last);
      }
    }
    forall y, j | 0 <= y < k && !st[y].data && j in ups[y] ensures j !in path[1..] {
      PathStaysClear(ups, st, path, y, j);
    }
  }

  /** A missing aggregation that reads a stored one over a missing row: the stored ones on the way look stale,
      so the reader awaits their recomputes, which fail because the row is missing. Once that row is there,
      they are up to date again as they are and publish nothing, and the reader hears nothing more. */
  lemma LostUpstreamDeadlocks(ups: Graph, st: System)
    requires |st| == |ups| && Acyclic(ups) && Initial(st) && Stranding(ups, st)
    ensures SomeRunDeadlocks(ups, st, true)
  {
    var path, k := StrandedPath(ups, st);
    var b := Freeze(ups, st, path, k);
    var f := ServeAll(ups, st, st, true, b, path, 0, k, st[k]);
    LastReads(ups, st, f, path, k);
    var g := f[k := Computing(AWAKE, Bound(path + [k], |path|))];
    ServedFalls(ups, st, f, path, k, st[k], g);
    FallingDeadlocks(ups, st, true, g, path + [k]);
  }

  /** Some orderly run leaves an asked aggregation without data for ever exactly when some missing aggregation
      reads a stored one that has a missing row somewhere upstream. */
  lemma ColdDeadlockIff(ups: Graph, st: System)
    requires |st| == |ups| && Acyclic(ups) && Initial(st)
    ensures SomeRunDeadlocks(ups, st, true) <==> Stranding(ups, st)
  {
    if Stranding(ups, st) {
      LostUpstreamDeadlocks(ups, st);
    } else if f: System :| Reaches(ups, st, f, true) && Deadlocked(f) {
      var es :| RunOf(ups, st, es) && After(ups, st, es) == f && OrderlyRun(ups, st, es);
      var i :| 0 <= i < |f| && f[i].called && !f[i].data;
      assert Upstream(ups, i, i);
      NoColdDeadlock(ups, st, es, i, i);
    }
  }

  /** Every orderly run that ends quiet with only cold failures serves whoever was asked, and all upstream. */
  ghost predicate AlwaysServed(ups: Graph, st: System)
    requires |st| == |ups| && Acyclic(ups)
  {
    forall f, i, j :: Reaches(ups, st, f, true) && AtRest(f, i) && Upstream(ups, i, j) ==> Holds(f, j)
  }

  predicate AtRest(f: System, i: nat) {
    Quiet(f) && OnlyCold(f) && Called(f, i)
  }

  /** From a session that has just begun, whoever is asked gets data, with everything upstream, exactly when no
      missing aggregation reads a stored one that has a missing row somewhere upstream. */
  lemma NoColdDeadlockIff(ups: Graph, st: System)
    requires |st| == |ups| && Acyclic(ups) && Initial(st)
    ensures AlwaysServed(ups, st) <==> !Stranding(ups, st)
  {
    ColdDeadlockIff(ups, st);
    if Stranding(ups, st) {
      var f: System :| Reaches(ups, st, f, true) && Deadlocked(f);
      var i :| 0 <= i < |f| && f[i].called && !f[i].data;
      assert Upstream(ups, i, i) && AtRest(f, i) && !Holds(f, i);
    } else {
      forall f, i, j | Reaches(ups, st, f, true) && AtRest(f, i) && Upstream(ups, i, j) ensures Holds(f, j) {
        var es :| RunOf(ups, st, es) && After(ups, st, es) == f && OrderlyRun(ups, st, es);
        NoColdDeadlock(ups, st, es, i, j);
      }
    }
  }

  // ---------------------------------------------------------------------------------------------
  // When `refresh()` may come before `get()`
  // ---------------------------------------------------------------------------------------------

  lemma Disorderly(ups: Graph, a: System, b: System)
    requires |a| == |ups| && Reaches(ups, a, b, true)
    ensures Reaches(ups, a, b, false)
  {
    var es :| RunOf(ups, a, es) && After(ups, a, es) == b && OrderlyRun(ups, a, es);
  }

  /** `k` is refreshed before anybody has asked it, and reads the missing `j`. */
  lemma RefreshedReads(ups: Graph, a: System, k: nat, j: nat) returns (d: System, n: Node)
    requires |a| == |ups| && Acyclic(ups) && Initial(a)
    requires k < |a| && !a[k].data && j in ups[k] && !a[j].data
    ensures n == Computing(ASLEEP, Reads({j}, {}, Some(Aggregation.Cold), false))
    ensures |d| == |a| && Reaches(ups, a, d, false) && IsPath(ups, a, [j]) && Serving(ups, a, d, [j], 0, k, n)
  {
    AskAll(ups, a, k);
    var b := AskedTo(a, k);
    Disorderly(ups, a, b);
    AskedServes(ups, a, j, k);
    n := Computing(ASLEEP, Reads({j}, {}, Some(Aggregation.Cold), false));
    var c := b[k := Computing(ASLEEP, NO_READS)];
    Reach(ups, a, b, false, RefreshCalled(k), c);
    ReadsCold(ups, a, c, k, j);
    d := c[k := n];
    assert d == b[k := n];
  }

  lemma ReadsCold(ups: Graph, a: System, c: System, k: nat, j: nat)
    requires |a| == |ups| == |c| && k < |a| && j < k && j in ups[k] && Reaches(ups, a, c, false)
    requires c[k] == Computing(ASLEEP, NO_READS) && c[j].called && !c[j].data && c[j].inFlight.Some?
    ensures Reaches(ups, a, c[k := Computing(ASLEEP, Reads({j}, {}, Some(Aggregation.Cold), false))], false)
  {
    var d := c[k := Computing(ASLEEP, Reads({j}, {}, Some(Aggregation.Cold), false))];
    assert Get(c[j], ups[j], false) == c[j] && {} + {j} == {j};
    Reach(ups, a, c, false, Looks(k, j, false), d);
  }

  /** `refresh()` before the first `get()`: while the upstream's own compute is in flight, the instance reads
      it cold; the upstream then publishes to somebody not yet subscribed; and the first `get()`, arriving before
      the doomed compute has settled, starts nothing. */
  lemma RefreshBeforeGetDeadlocks(ups: Graph, st: System, k: nat, j: nat)
    requires |st| == |ups| && Acyclic(ups) && Initial(st)
    requires k < |st| && !st[k].data && j in ups[k] && !st[j].data
    ensures SomeRunDeadlocks(ups, st, false)
  {
    var d, n := RefreshedReads(ups, st, k, j);
    var path := [j];
    assert path[1..] == [] && path + [k] == [j, k];
    var f := ServeAll(ups, st, st, false, d, path, 0, k, n);
    var g := f[k := Computing(AWAKE, Bound([j, k], 1))];
    Reach(ups, st, f, false, GetCalled(k, false), g);
    ServedFalls(ups, st, f, path, k, n, g);
    FallingDeadlocks(ups, st, false, g, [j, k]);
  }

  /** A missing aggregation reads a missing one. */
  predicate ReadsMissing(ups: Graph, st: System, k: nat)
    requires |st| == |ups|
  {
    k < |st| && !st[k].data && exists j :: j in ups[k] && j < |st| && !st[j].data
  }

  /** What it reads is there, so it fails only for real. */
  ghost predicate Lone(ups: Graph, st: System, i: nat)
    requires |st| == |ups| && i < |st|
  {
    var n := st[i];
    && AllHold(st, ups[i])
    && (n.inFlight.Some? ==> n.inFlight.value.doomed != Some(Aggregation.Cold))
    && (n.called && !n.data && Idle(n) ==> n.lastError == Some(Aggregation.Other))
  }

  ghost predicate LoneInv(ups: Graph, clean: set<nat>, st: System)
    requires |st| == |ups|
  {
    && Downward(ups, clean) && AllTidy(ups, st)
    && forall i :: 0 <= i < |st| ==> if i in clean then Lone(ups, st, i) else st[i].data
  }

  lemma OwnKeepsLone(ups: Graph, clean: set<nat>, st: System, e: Event)
    requires |st| == |ups| && LoneInv(ups, clean, st) && Enabled(ups, st, e) && OwnEvent(e)
    ensures LoneInv(ups, clean, Step(ups, st, e))
  {
    StepKeepsTidy(ups, st, e);
    OwnEventKeeps(ups, st, e);
    var st' := Step(ups, st, e);
    forall k | 0 <= k < |st| && k in clean ensures Lone(ups, st', k) {
      assert Lone(ups, st, k);
    }
  }

  lemma ReadKeepsLone(ups: Graph, clean: set<nat>, st: System, e: Event)
    requires |st| == |ups| && LoneInv(ups, clean, st) && Enabled(ups, st, e) && (e.Asks? || e.Looks?)
    ensures LoneInv(ups, clean, Step(ups, st, e))
  {
    StepKeepsTidy(ups, st, e);
    assert Tidy(ups, st, e.j);
    GetKeeps(st[e.j], ups[e.j], e.stale);
    var st' := Step(ups, st, e);
    forall k | 0 <= k < |st| && k in clean ensures Lone(ups, st', k) {
      assert Lone(ups, st, k);
    }
  }

  lemma SaveKeepsLone(ups: Graph, clean: set<nat>, st: System, e: Event)
    requires |st| == |ups| && LoneInv(ups, clean, st) && Enabled(ups, st, e) && e.Saves?
    ensures LoneInv(ups, clean, Step(ups, st, e))
  {
    StepKeepsTidy(ups, st, e);
    var st' := Step(ups, st, e);
    forall k | 0 <= k < |st| && k in clean ensures Lone(ups, st', k) {
      assert Lone(ups, st, k);
    }
  }

  lemma SettleKeepsLone(ups: Graph, clean: set<nat>, st: System, i: nat, error: Option<ComputeError>, upToDate: bool)
    requires |st| == |ups| && LoneInv(ups, clean, st) && InFlight(st, i)
    requires (upToDate ==> st[i].data) && (error.None? ==> st[i].data)
    requires i in clean ==> error != Some(Aggregation.Cold)
    ensures LoneInv(ups, clean, Settled(st, i, error, upToDate))
  {
    SettleKeepsTidy(ups, st, i, error, upToDate);
    var st' := Settled(st, i, error, upToDate);
    SettleMoves(ups, st, i, error, upToDate);
    forall k | 0 <= k < |st| && k in clean ensures Lone(ups, st', k) {
      assert Lone(ups, st, k) && Tidy(ups, st, k);
      if k == i {
        assert error.None? || error.value.Other?;
        assert st'[k] == Settle(st[k], error, upToDate);
      } else {
        assert st[k].inFlight.Some? && i in st[k].inFlight.value.waiting ==> i in clean;
      }
    }
  }

  lemma EndKeepsLone(ups: Graph, clean: set<nat>, st: System, e: Event)
    requires |st| == |ups| && LoneInv(ups, clean, st) && Enabled(ups, st, e) && (e.Succeeds? || e.Fails?)
    ensures LoneInv(ups, clean, Step(ups, st, e))
  {
    assert Tidy(ups, st, e.i) && (e.i in clean ==> Lone(ups, st, e.i));
    SettleKeepsLone(ups, clean, st, e.i, if e.Fails? then Some(e.error) else None, e.upToDate);
  }

  lemma {:induction false} RunKeepsLone(ups: Graph, clean: set<nat>, st: System, es: seq<Event>)
    requires |st| == |ups| && LoneInv(ups, clean, st) && RunOf(ups, st, es)
    ensures !Deadlocked(After(ups, st, es))
    decreases |es|
  {
    if es == [] {
      if i :| 0 <= i < |st| && st[i].called && !st[i].data {
        assert Lone(ups, st, i);
      }
    } else {
      if OwnEvent(es[0]) {
        OwnKeepsLone(ups, clean, st, es[0]);
      } else if es[0].Asks? || es[0].Looks? {
        ReadKeepsLone(ups, clean, st, es[0]);
      } else if es[0].Saves? {
        SaveKeepsLone(ups, clean, st, es[0]);
      } else {
        EndKeepsLone(ups, clean, st, es[0]);
      }
      RunKeepsLone(ups, clean, Step(ups, st, es[0]), es[1..]);
    }
  }

  lemma InitialIsLone(ups: Graph, st: System)
    requires |st| == |ups| && Acyclic(ups) && Initial(st) && !Stranding(ups, st)
    requires forall k: nat :: !ReadsMissing(ups, st, k)
    ensures LoneInv(ups, Clean(ups, st), st)
  {
    CleanIsDownward(ups, st);
    forall i | 0 <= i < |st| && i in Clean(ups, st) ensures Lone(ups, st, i) {
      forall j | j in ups[i] ensures Holds(st, j) {
        if st[i].data {
          ReadsFullyStored(ups, st, i, j);
        } else {
          assert !ReadsMissing(ups, st, i);
        }
      }
    }
  }

  /** When `refresh()` may come before `get()`, some run deadlocks exactly when a missing aggregation reads
      another missing one, or a stored one that has a missing row somewhere upstream. */
  lemma RefreshDeadlocksIff(ups: Graph, st: System)
    requires |st| == |ups| && Acyclic(ups) && Initial(st)
    ensures SomeRunDeadlocks(ups, st, false) <==> (exists k: nat :: ReadsMissing(ups, st, k)) || Stranding(ups, st)
  {
    if k: nat :| ReadsMissing(ups, st, k) {
      var j :| j in ups[k] && j < |st| && !st[j].data;
      RefreshBeforeGetDeadlocks(ups, st, k, j);
    } else if Stranding(ups, st) {
      LostUpstreamDeadlocks(ups, st);
      var f: System :| Reaches(ups, st, f, true) && Deadlocked(f);
      Disorderly(ups, st, f);
    } else if f: System :| Reaches(ups, st, f, false) && Deadlocked(f) {
      var es :| RunOf(ups, st, es) && After(ups, st, es) == f;
      InitialIsLone(ups, st);
      RunKeepsLone(ups, Clean(ups, st), st, es);
    }
  }
}
