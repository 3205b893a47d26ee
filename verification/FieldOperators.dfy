/**
 * The declarative form of `compute` (aggregate/compile.ts): one operator per field, `expr` fields that read
 * other fields and are resolved by retrying, and the diagnosis when they cannot be.
 */
module FieldOperators {
  import opened Wrappers

  type Name = string

  /** A field value; `Other` stands for anything that is not a number or a string. */
  datatype Value = Num(n: real) | Str(s: string) | Other(id: nat)

  // ---------------------------------------------------------------------------------------------
  // Expressions
  // ---------------------------------------------------------------------------------------------

  datatype Action = Return(v: Value) | Raise(error: string) | Get(name: Name)

  /** An `expr` function as what it does next, given the answers to the fields it has read: which field it
      reads may depend on what it has read before. It reads at most `depth` fields. */
  datatype Expr = Expr(depth: nat, next: seq<Value> -> Action)

  datatype Outcome = Ok(v: Value) | NotReady(name: Name) | Error(error: string)

  type Fields = map<Name, Value>

  /** What the fields proxy answers, and what comes of it: a declared field that is not computed yet ends
      the attempt, an undeclared one is an error. */
  function Eval(e: Expr, declared: set<Name>, fields: Fields, answers: seq<Value> := []): Outcome
    decreases e.depth + 1 - |answers|
  {
    if |answers| > e.depth then Error("too many reads")
    else
      match e.next(answers)
      case Return(v) => Ok(v)
      case Raise(error) => Error(error)
      case Get(name) =>
        if name in fields then Eval(e, declared, fields, answers + [fields[name]])
        else if name in declared then NotReady(name)
        else Error(name + " is not declared")
  }

  /** `more` has every field of `fields`, with the same value. */
  predicate Extends(more: Fields, fields: Fields) {
    forall n :: n in fields ==> n in more && more[n] == fields[n]
  }

  /** An attempt that ended ends the same way when more fields are computed; one that met a field not ready
      meets it again as long as that field is not. */
  lemma {:induction false} EvalMonotone(e: Expr, declared: set<Name>, fields: Fields, more: Fields, answers: seq<Value>)
    requires Extends(more, fields)
    ensures var before, after := Eval(e, declared, fields, answers), Eval(e, declared, more, answers);
            && (before.Ok? ==> after == before)
            && (before.NotReady? && before.name !in more ==> after == before)
            && (before.Error? && more.Keys <= declared ==> after == before)
    decreases e.depth + 1 - |answers|
  {
    if |answers| <= e.depth && e.next(answers).Get? && e.next(answers).name in fields {
      EvalMonotone(e, declared, fields, more, answers + [fields[e.next(answers).name]]);
    }
  }

  /** `answers` are what the fields say to the reads an expression makes, one after the other. */
  ghost predicate Transcript(e: Expr, fields: Fields, answers: seq<Value>) {
    forall i :: 0 <= i < |answers| ==> Answers(e, fields, answers, i)
  }

  predicate Answers(e: Expr, fields: Fields, answers: seq<Value>, i: nat)
    requires i < |answers|
  {
    var action := e.next(answers[..i]);
    action.Get? && action.name in fields && fields[action.name] == answers[i]
  }

  /** What an attempt comes to: the expression runs on the answers of the fields that are there, and returns,
      raises, or asks for one that is not: one still to come if it is declared, an error if not. */
  lemma {:induction false} EvalIsARun(e: Expr, declared: set<Name>, fields: Fields, answers: seq<Value>)
    returns (all: seq<Value>)
    requires Transcript(e, fields, answers)
    ensures Transcript(e, fields, all) && answers <= all
    ensures var out := Eval(e, declared, fields, answers);
            if |all| > e.depth then out.Error?
            else match e.next(all)
                 case Return(v) => out == Ok(v)
                 case Raise(error) => out == Error(error)
                 case Get(name) => name !in fields && if name in declared then out == NotReady(name) else out.Error?
    decreases e.depth + 1 - |answers|
  {
    all := answers;
    if |answers| <= e.depth && e.next(answers).Get? && e.next(answers).name in fields {
      var more := answers + [fields[e.next(answers).name]];
      forall i | 0 <= i < |more| ensures Answers(e, fields, more, i) {
        assert more[..i] == answers[..i];
        assert i < |answers| ==> Answers(e, fields, answers, i);
      }
      all := EvalIsARun(e, declared, fields, more);
    }
  }

  lemma {:induction false} NotReadyIsDeclared(e: Expr, declared: set<Name>, fields: Fields, answers: seq<Value>)
    requires Eval(e, declared, fields, answers).NotReady?
    ensures var name := Eval(e, declared, fields, answers).name; name in declared && name !in fields
    decreases e.depth + 1 - |answers|
  {
    if e.next(answers).name in fields {
      NotReadyIsDeclared(e, declared, fields, answers + [fields[e.next(answers).name]]);
    }
  }

  // ---------------------------------------------------------------------------------------------
  // The field equations
  // ---------------------------------------------------------------------------------------------

  /** The `expr` fields, the fields already there (phase 1), and the fields that come last (phase 3). */
  datatype Program = Program(exprs: map<Name, Expr>, base: Fields, customs: set<Name>)

  predicate Proper(p: Program) {
    p.exprs.Keys !! p.base.Keys && p.exprs.Keys !! p.customs && p.base.Keys !! p.customs
  }

  function Declared(p: Program): set<Name> {
    p.exprs.Keys + p.base.Keys + p.customs
  }

  function Attempt(p: Program, n: Name, fields: Fields): Outcome
    requires n in p.exprs
  {
    Eval(p.exprs[n], Declared(p), fields)
  }

  /** Computing the fields in the given order, each from the ones before it; `None` if that is impossible. */
  function Resolve(p: Program, order: seq<Name>): Option<Fields> {
    if order == [] then Some(p.base)
    else
      var before := Resolve(p, order[..|order| - 1]);
      var n := order[|order| - 1];
      if before.None? || n !in p.exprs || n in before.value then None
      else
        var out := Attempt(p, n, before.value);
        if out.Ok? then Some(before.value[n := out.v]) else None
  }

  /** An order that leaves nothing to compute gives the fields of phase 1. */
  lemma NothingToCompute(p: Program)
    ensures Resolve(p, []) == Some(p.base)
  {
  }

  /** A record in which every listed field equals its own expression. */
  predicate Solves(p: Program, names: set<Name>, fields: Fields) {
    Extends(fields, p.base) && forall n :: n in names ==>
      n in p.exprs && n in fields && Attempt(p, n, fields) == Ok(fields[n])
  }

  function Names(order: seq<Name>): set<Name> {
    set n | n in order
  }

  lemma {:induction false} ResolvedSolves(p: Program, order: seq<Name>)
    requires Proper(p) && Resolve(p, order).Some?
    ensures Solves(p, Names(order), Resolve(p, order).value)
    ensures Resolve(p, order).value.Keys == p.base.Keys + Names(order)
  {
    if order != [] {
      var before, n := order[..|order| - 1], order[|order| - 1];
      ResolvedSolves(p, before);
      var fields, more := Resolve(p, before).value, Resolve(p, order).value;
      assert Names(order) == Names(before) + {n};
      forall m | m in Names(order) ensures Attempt(p, m, more) == Ok(more[m]) {
        EvalMonotone(p.exprs[m], Declared(p), fields, more, []);
      }
    }
  }

  /** Whatever solves the equations has the values an order computes. */
  lemma {:induction false} SolutionIsUnique(p: Program, order: seq<Name>, other: Fields)
    requires Proper(p) && Resolve(p, order).Some? && Solves(p, Names(order), other)
    ensures Extends(other, Resolve(p, order).value)
  {
    if order != [] {
      var before, n := order[..|order| - 1], order[|order| - 1];
      assert Names(order) == Names(before) + {n};
      SolutionIsUnique(p, before, other);
      EvalMonotone(p.exprs[n], Declared(p), Resolve(p, before).value, other, []);
    }
  }

  /** The result does not depend on the order. */
  lemma OrderDoesNotMatter(p: Program, order: seq<Name>, order': seq<Name>)
    requires Proper(p) && Resolve(p, order).Some? && Resolve(p, order').Some? && Names(order) == Names(order')
    ensures Resolve(p, order) == Resolve(p, order')
  {
    ResolvedSolves(p, order);
    ResolvedSolves(p, order');
    SolutionIsUnique(p, order, Resolve(p, order').value);
    SolutionIsUnique(p, order', Resolve(p, order).value);
    assert Resolve(p, order).value == Resolve(p, order').value;
  }

  /** A field that can be attempted successfully on less is already there, with that value. */
  lemma AlreadyThere(p: Program, order: seq<Name>, stuck: set<Name>, less: Fields, n: Name)
    requires Proper(p) && Resolve(p, order).Some? && Extends(Resolve(p, order).value, less)
    requires p.exprs.Keys == Names(order) + stuck
    requires n in p.exprs && Attempt(p, n, less).Ok?
    requires n in stuck ==> !Attempt(p, n, Resolve(p, order).value).Ok?
    ensures n in Names(order) && n in Resolve(p, order).value
    ensures Resolve(p, order).value[n] == Attempt(p, n, less).v
  {
    EvalMonotone(p.exprs[n], Declared(p), less, Resolve(p, order).value, []);
    ResolvedSolves(p, order);
  }

  /** Where no field of `stuck` can be attempted successfully, no order ever gets to one of them, and every
      order stays within what is there. */
  lemma {:induction false} NothingBeyond(p: Program, order: seq<Name>, stuck: set<Name>, other: seq<Name>)
    requires Proper(p) && Resolve(p, order).Some? && Resolve(p, other).Some?
    requires p.exprs.Keys == Names(order) + stuck
    requires forall n :: n in stuck ==> n in p.exprs && !Attempt(p, n, Resolve(p, order).value).Ok?
    ensures Names(other) <= Names(order) && Extends(Resolve(p, order).value, Resolve(p, other).value)
    decreases |other|
  {
    if other == [] {
      ResolvedSolves(p, order);
    } else {
      var before, n := other[..|other| - 1], other[|other| - 1];
      NothingBeyond(p, order, stuck, before);
      AlreadyThere(p, order, stuck, Resolve(p, before).value, n);
      assert Names(other) == Names(before) + {n};
    }
  }

  // ---------------------------------------------------------------------------------------------
  // The retry loop
  // ---------------------------------------------------------------------------------------------

  /** Why the loop gave up: an `expr` raised, or a whole pass resolved nothing. */
  datatype Failed =
    | Raised(name: Name, error: string)
    | Stalled(pending: seq<Name>, blockedOn: map<Name, Name>)

  predicate Distinct(names: seq<Name>) {
    forall i, j :: 0 <= i < j < |names| ==> names[i] != names[j]
  }

  /** Every pending field was attempted on `fields` and met a field that is not ready. */
  predicate Blocked(p: Program, fields: Fields, pending: seq<Name>, blockedOn: map<Name, Name>) {
    forall n :: n in pending ==> n in p.exprs && n in blockedOn && Attempt(p, n, fields) == NotReady(blockedOn[n])
  }

  lemma ResolveOneMore(p: Program, order: seq<Name>, n: Name)
    requires Resolve(p, order).Some? && n in p.exprs && n !in Resolve(p, order).value
    requires Attempt(p, n, Resolve(p, order).value).Ok?
    ensures Resolve(p, order + [n])
            == Some(Resolve(p, order).value[n := Attempt(p, n, Resolve(p, order).value).v])
  {
    assert (order + [n])[..|order|] == order;
  }

  /** A pass that has attempted the first `i` of the pending fields: each is computed or still pending, and
      as long as none has been computed every one of them is blocked on the fields there were. */
  ghost predicate InPass(p: Program, pending: seq<Name>, computed: Fields, i: nat, order: seq<Name>, fields: Fields,
                         still: seq<Name>, blockedOn: map<Name, Name>)
    requires i <= |pending|
  {
    && Resolve(p, order) == Some(fields)
    && Distinct(still) && |still| <= i
    && (forall n :: n in still ==> n in pending[..i] && n !in fields)
    && (forall n :: n in pending[..i] ==> n in still || n in fields)
    && (forall n :: n in pending[i..] ==> n !in fields)
    && (forall n :: n in fields ==> n in computed || n in pending[..i])
    && (forall n :: n in computed ==> n in fields)
    && (|still| == i ==> still == pending[..i] && fields == computed && Blocked(p, computed, still, blockedOn))
  }

  lemma PassResolves(p: Program, pending: seq<Name>, computed: Fields, i: nat, order: seq<Name>, fields: Fields,
                     still: seq<Name>, blockedOn: map<Name, Name>)
    requires Distinct(pending) && i < |pending| && InPass(p, pending, computed, i, order, fields, still, blockedOn)
    requires pending[i] in p.exprs && Attempt(p, pending[i], fields).Ok?
    ensures InPass(p, pending, computed, i + 1, order + [pending[i]],
                   fields[pending[i] := Attempt(p, pending[i], fields).v], still, blockedOn)
  {
    var n := pending[i];
    assert n in pending[i..];
    ResolveOneMore(p, order, n);
    assert pending[..i + 1] == pending[..i] + [n] && pending[i..] == [n] + pending[i + 1..];
    assert n !in pending[..i] && n !in pending[i + 1..];
  }

  lemma PassDefers(p: Program, pending: seq<Name>, computed: Fields, i: nat, order: seq<Name>, fields: Fields,
                   still: seq<Name>, blockedOn: map<Name, Name>)
    requires Distinct(pending) && i < |pending| && InPass(p, pending, computed, i, order, fields, still, blockedOn)
    requires pending[i] in p.exprs && Attempt(p, pending[i], fields).NotReady?
    ensures InPass(p, pending, computed, i + 1, order, fields, still + [pending[i]],
                   blockedOn[pending[i] := Attempt(p, pending[i], fields).name])
  {
    var n := pending[i];
    assert n in pending[i..];
    assert pending[..i + 1] == pending[..i] + [n] && pending[i..] == [n] + pending[i + 1..];
    assert n !in pending[..i];
  }

  /** One pass over the pending fields: those that resolve are computed at once, so that later ones in the
      same pass see them. */
  method Pass(p: Program, pending: seq<Name>, computed: Fields, ghost order: seq<Name>)
    returns (fields: Fields, still: seq<Name>, blockedOn: map<Name, Name>, raised: Option<(Name, string)>,
             ghost order': seq<Name>)
    requires Resolve(p, order) == Some(computed) && Distinct(pending)
    requires forall n :: n in pending ==> n in p.exprs && n !in computed
    ensures Resolve(p, order') == Some(fields)
    ensures raised.Some? ==> raised.value.0 in p.exprs && Attempt(p, raised.value.0, fields) == Error(raised.value.1)
    ensures raised.None? ==> InPass(p, pending, computed, |pending|, order', fields, still, blockedOn)
  {
    fields, still, blockedOn, raised, order' := computed, [], map[], None, order;
    for i := 0 to |pending|
      invariant InPass(p, pending, computed, i, order', fields, still, blockedOn)
    {
      var n := pending[i];
      match Attempt(p, n, fields) {
        case Ok(v) =>
          PassResolves(p, pending, computed, i, order', fields, still, blockedOn);
          fields := fields[n := v];
          order' := order' + [n];
        case Error(error) =>
          raised := Some((n, error));
          return;
        case NotReady(m) =>
          PassDefers(p, pending, computed, i, order', fields, still, blockedOn);
          blockedOn := blockedOn[n := m];
          still := still + [n];
      }
    }
  }

  ghost predicate Solvable(p: Program) {
    exists order :: Resolve(p, order).Some? && Names(order) == p.exprs.Keys
  }

  /** Phase 2. It ends; it succeeds exactly when the fields can be computed in some order, and then the
      record is the one every such order computes; a stall comes with what blocks each pending field. */
  method ResolveExprs(p: Program, names: seq<Name>) returns (r: Result<Fields, Failed>, ghost order: seq<Name>)
    requires Proper(p) && Distinct(names) && Names(names) == p.exprs.Keys
    ensures Resolve(p, order).Some?
    ensures r.Success? <==> Solvable(p)
    ensures r.Success? ==> Names(order) == p.exprs.Keys && Resolve(p, order) == Some(r.value)
    ensures r.Failure? && r.error.Raised? ==>
              r.error.name in p.exprs && Attempt(p, r.error.name, Resolve(p, order).value) == Error(r.error.error)
    ensures r.Failure? && r.error.Stalled? ==>
              r.error.pending != [] && IsStall(p, Resolve(p, order).value, r.error.pending, r.error.blockedOn)
  {
    var computed, pending := p.base, names;
    order := [];
    assert forall n :: n in names <==> n in Names(names);
    while pending != []
      invariant Resolve(p, order) == Some(computed) && Distinct(pending)
      invariant forall n :: n in pending ==> n in p.exprs && n !in computed
      invariant forall n :: n in p.exprs ==> n in computed || n in pending
      decreases |pending|
    {
      var fields, still, blockedOn, raised, order' := Pass(p, pending, computed, order);
      if raised.Some? {
        order := order';
        RaisingIsUnsolvable(p, order, raised.value.0);
        return Failure(Raised(raised.value.0, raised.value.1)), order;
      }
      assert pending[..|pending|] == pending;
      if |still| == |pending| {
        StallIsUnsolvable(p, order, pending, blockedOn);
        return Failure(Stalled(pending, blockedOn)), order;
      }
      computed, pending, order := fields, still, order';
    }
    ResolvedSolves(p, order);
    ResolvedNames(p, order);
    assert Names(order) == p.exprs.Keys;
    return Success(computed), order;
  }

  lemma {:induction false} ResolvedNames(p: Program, order: seq<Name>)
    requires Resolve(p, order).Some?
    ensures Names(order) <= p.exprs.Keys
  {
    if order != [] {
      ResolvedNames(p, order[..|order| - 1]);
      assert Names(order) == Names(order[..|order| - 1]) + {order[|order| - 1]};
    }
  }

  lemma RaisingIsUnsolvable(p: Program, order: seq<Name>, n: Name)
    requires Proper(p) && Resolve(p, order).Some? && n in p.exprs && Attempt(p, n, Resolve(p, order).value).Error?
    ensures !Solvable(p)
  {
    if Solvable(p) {
      var full :| Resolve(p, full).Some? && Names(full) == p.exprs.Keys;
      var fields := Resolve(p, full).value;
      ResolvedSolves(p, full);
      ResolvedNames(p, order);
      SolutionIsUnique(p, order, fields);
      EvalMonotone(p.exprs[n], Declared(p), Resolve(p, order).value, fields, []);
      assert false;
    }
  }

  lemma StallIsUnsolvable(p: Program, order: seq<Name>, pending: seq<Name>, blockedOn: map<Name, Name>)
    requires Proper(p) && Resolve(p, order).Some? && pending != []
    requires forall n :: n in pending ==> n in p.exprs && n !in Resolve(p, order).value
    requires forall n :: n in p.exprs ==> n in Resolve(p, order).value || n in pending
    requires Blocked(p, Resolve(p, order).value, pending, blockedOn)
    ensures !Solvable(p) && IsStall(p, Resolve(p, order).value, pending, blockedOn)
  {
    ResolvedSolves(p, order);
    ResolvedNames(p, order);
    var fields := Resolve(p, order).value;
    assert fields.Keys == p.base.Keys + (p.exprs.Keys - Names(pending));
    assert p.exprs.Keys == Names(order) + Names(pending);
    assert pending[0] in Names(pending);
    if Solvable(p) {
      var full :| Resolve(p, full).Some? && Names(full) == p.exprs.Keys;
      NothingBeyond(p, order, Names(pending), full);
      assert false;
    }
  }

  /** The loop over the fields in two different declaration orders gives the same record. */
  lemma DeclarationOrderDoesNotMatter(p: Program, order: seq<Name>, order': seq<Name>, r: Fields, r': Fields)
    requires Proper(p) && Names(order) == p.exprs.Keys == Names(order')
    requires Resolve(p, order) == Some(r) && Resolve(p, order') == Some(r')
    ensures r == r' && Solves(p, p.exprs.Keys, r)
    ensures forall other :: Solves(p, p.exprs.Keys, other) ==> Extends(other, r)
  {
    OrderDoesNotMatter(p, order, order');
    ResolvedSolves(p, order);
    forall other | Solves(p, p.exprs.Keys, other) ensures Extends(other, r) {
      SolutionIsUnique(p, order, other);
    }
  }

  // ---------------------------------------------------------------------------------------------
  // What a stall means
  // ---------------------------------------------------------------------------------------------

  /** A stall as the loop reports it. */
  ghost predicate IsStall(p: Program, fields: Fields, pending: seq<Name>, blockedOn: map<Name, Name>) {
    && Proper(p) && Blocked(p, fields, pending, blockedOn)
    && fields.Keys == p.base.Keys + (p.exprs.Keys - Names(pending))
  }

  lemma BlockerIsPendingOrCustom(p: Program, fields: Fields, pending: seq<Name>, blockedOn: map<Name, Name>, n: Name)
    requires IsStall(p, fields, pending, blockedOn) && n in pending
    ensures blockedOn[n] in pending || blockedOn[n] in p.customs
  {
    NotReadyIsDeclared(p.exprs[n], Declared(p), fields, []);
  }

  /** The field `n` waits for after `k` steps along what blocks what, staying put at a field nothing blocks. */
  function Chain(blockedOn: map<Name, Name>, pending: seq<Name>, n: Name, k: nat): Name {
    if k == 0 then n
    else
      var m := Chain(blockedOn, pending, n, k - 1);
      if m in pending && m in blockedOn then blockedOn[m] else m
  }

  /** Following what blocks `n` never ends: the fields it runs through repeat. */
  ghost predicate WaitsOnCycle(blockedOn: map<Name, Name>, pending: seq<Name>, n: Name) {
    exists i: nat, j: nat :: i < j && Repeats(blockedOn, pending, n, i, j)
  }

  predicate Repeats(blockedOn: map<Name, Name>, pending: seq<Name>, n: Name, i: nat, j: nat) {
    Chain(blockedOn, pending, n, i) == Chain(blockedOn, pending, n, j) && Chain(blockedOn, pending, n, i) in pending
  }

  ghost predicate WaitsOnCustom(p: Program, blockedOn: map<Name, Name>, pending: seq<Name>, n: Name) {
    exists k: nat :: Chain(blockedOn, pending, n, k) in p.customs
  }

  lemma {:induction false} ChainStays(p: Program, fields: Fields, pending: seq<Name>, blockedOn: map<Name, Name>,
                                      n: Name, k: nat)
    requires IsStall(p, fields, pending, blockedOn) && n in pending
    ensures Chain(blockedOn, pending, n, k) in pending || Chain(blockedOn, pending, n, k) in p.customs
  {
    if k > 0 {
      ChainStays(p, fields, pending, blockedOn, n, k - 1);
      var m := Chain(blockedOn, pending, n, k - 1);
      if m in pending {
        BlockerIsPendingOrCustom(p, fields, pending, blockedOn, m);
      }
    }
  }

  lemma {:induction false} CustomEndsChain(p: Program, fields: Fields, pending: seq<Name>, blockedOn: map<Name, Name>,
                                           n: Name, k: nat, l: nat)
    requires IsStall(p, fields, pending, blockedOn) && n in pending
    requires Chain(blockedOn, pending, n, k) in p.customs && k <= l
    ensures Chain(blockedOn, pending, n, l) == Chain(blockedOn, pending, n, k)
  {
    if k < l {
      CustomEndsChain(p, fields, pending, blockedOn, n, k, l - 1);
      assert forall m :: m in pending ==> m !in p.customs;
    }
  }

  /** A field repeated along a chain is repeated for ever. */
  lemma {:induction false} RepeatsForEver(blockedOn: map<Name, Name>, pending: seq<Name>, n: Name, i: nat, j: nat, d: nat)
    requires i < j && Chain(blockedOn, pending, n, i) == Chain(blockedOn, pending, n, j)
    ensures Chain(blockedOn, pending, n, i + d) == Chain(blockedOn, pending, n, j + d)
  {
    if d > 0 {
      RepeatsForEver(blockedOn, pending, n, i, j, d - 1);
    }
  }

  lemma {:induction false} CycleComesBack(blockedOn: map<Name, Name>, pending: seq<Name>, n: Name, i: nat, j: nat, t: nat)
    requires i < j && Chain(blockedOn, pending, n, i) == Chain(blockedOn, pending, n, j)
    ensures Chain(blockedOn, pending, n, i + t * (j - i)) == Chain(blockedOn, pending, n, i)
  {
    if t > 0 {
      CycleComesBack(blockedOn, pending, n, i, j, t - 1);
      RepeatsForEver(blockedOn, pending, n, i, j, (t - 1) * (j - i));
      assert t * (j - i) == (t - 1) * (j - i) + (j - i);
    }
  }

  function Visited(blockedOn: map<Name, Name>, pending: seq<Name>, n: Name, k: nat): seq<Name> {
    seq(k, i requires 0 <= i < k => Chain(blockedOn, pending, n, i))
  }

  /** More places than names: two hold the same. */
  lemma {:induction false} Pigeonhole(s: seq<Name>, names: set<Name>) returns (i: nat, j: nat)
    requires |s| > |names| && forall x :: x in s ==> x in names
    ensures i < j < |s| && s[i] == s[j]
  {
    var last := s[|s| - 1];
    if k :| 0 <= k < |s| - 1 && s[k] == last {
      i, j := k, |s| - 1;
    } else {
      i, j := Pigeonhole(s[..|s| - 1], names - {last});
    }
  }

  lemma NeverWaitsOnBoth(p: Program, fields: Fields, pending: seq<Name>, blockedOn: map<Name, Name>, n: Name)
    requires IsStall(p, fields, pending, blockedOn) && n in pending && WaitsOnCustom(p, blockedOn, pending, n)
    ensures !WaitsOnCycle(blockedOn, pending, n)
  {
    var k: nat :| Chain(blockedOn, pending, n, k) in p.customs;
    if WaitsOnCycle(blockedOn, pending, n) {
      var i: nat, j: nat :| i < j && Repeats(blockedOn, pending, n, i, j);
      CycleComesBack(blockedOn, pending, n, i, j, k);
      AtLeast(k, j - i);
      CustomEndsChain(p, fields, pending, blockedOn, n, k, i + k * (j - i));
      assert false;
    }
  }

  /** A pending field waits on a cycle or on a `custom` field, never on both. */
  lemma WaitsOnOneOfTwo(p: Program, fields: Fields, pending: seq<Name>, blockedOn: map<Name, Name>, n: Name)
    requires IsStall(p, fields, pending, blockedOn) && n in pending
    ensures WaitsOnCycle(blockedOn, pending, n) <==> !WaitsOnCustom(p, blockedOn, pending, n)
  {
    if WaitsOnCustom(p, blockedOn, pending, n) {
      NeverWaitsOnBoth(p, fields, pending, blockedOn, n);
    } else {
      var names := Names(pending);
      var s := Visited(blockedOn, pending, n, |names| + 1);
      forall x | x in s ensures x in names {
        var i :| 0 <= i < |s| && s[i] == x;
        ChainStays(p, fields, pending, blockedOn, n, i);
      }
      var i, j := Pigeonhole(s, names);
      assert s[i] in names;
      assert Repeats(blockedOn, pending, n, i, j);
    }
  }

  lemma AtLeast(k: nat, d: nat)
    requires d >= 1
    ensures k * d >= k
  {
  }

  /** Without `custom` fields a stall is a real dependency cycle: every pending field leads to one. */
  lemma StallMeansCycle(p: Program, fields: Fields, pending: seq<Name>, blockedOn: map<Name, Name>)
    requires IsStall(p, fields, pending, blockedOn) && p.customs == {}
    ensures forall n :: n in pending ==> WaitsOnCycle(blockedOn, pending, n)
  {
    forall n | n in pending ensures WaitsOnCycle(blockedOn, pending, n) {
      WaitsOnOneOfTwo(p, fields, pending, blockedOn, n);
    }
  }

  /** The message calls a field circular when what blocks it directly is not a `custom` field. */
  predicate CalledCircular(p: Program, blockedOn: map<Name, Name>, n: Name)
    requires n in blockedOn
  {
    blockedOn[n] !in p.customs
  }

  /** The label is wrong exactly for the fields that wait on a `custom` field through other fields. */
  lemma CircularLabelWrongIff(p: Program, fields: Fields, pending: seq<Name>, blockedOn: map<Name, Name>, n: Name)
    requires IsStall(p, fields, pending, blockedOn) && n in pending
    ensures WaitsOnCycle(blockedOn, pending, n) ==> CalledCircular(p, blockedOn, n)
    ensures CalledCircular(p, blockedOn, n) && !WaitsOnCycle(blockedOn, pending, n) <==>
            blockedOn[n] in pending && WaitsOnCustom(p, blockedOn, pending, n)
  {
    WaitsOnOneOfTwo(p, fields, pending, blockedOn, n);
    BlockerIsPendingOrCustom(p, fields, pending, blockedOn, n);
    assert forall m :: m in pending ==> m !in p.customs;
    if blockedOn[n] in p.customs {
      assert Chain(blockedOn, pending, n, 0) == n;
      assert Chain(blockedOn, pending, n, 1) == blockedOn[n];
    }
  }

  /** A field that gives what another field holds. */
  function Copy(of: Name): Expr {
    Expr(1, (answers: seq<Value>) => if answers == [] then Get(of) else Return(answers[0]))
  }

  /** "a" reads "b", and "b" reads the custom field "c": there is no cycle, and "a" is called circular. */
  lemma TransitiveCustomCalledCircular()
    ensures var p := Program(map["a" := Copy("b"), "b" := Copy("c")], map[], {"c"});
            var blockedOn := map["a" := "b", "b" := "c"];
            && IsStall(p, map[], ["a", "b"], blockedOn) && CalledCircular(p, blockedOn, "a")
            && !WaitsOnCycle(blockedOn, ["a", "b"], "a")
  {
    var p := Program(map["a" := Copy("b"), "b" := Copy("c")], map[], {"c"});
    var blockedOn: map<Name, Name> := map["a" := "b", "b" := "c"];
    var none: Fields := map[];
    assert Attempt(p, "a", none) == NotReady("b") && Attempt(p, "b", none) == NotReady("c");
    assert Names(["a", "b"]) == {"a", "b"};
    assert Chain(blockedOn, ["a", "b"], "a", 0) == "a";
    assert Chain(blockedOn, ["a", "b"], "a", 1) == "b";
    assert Chain(blockedOn, ["a", "b"], "a", 2) == "c";
    WaitsOnOneOfTwo(p, none, ["a", "b"], blockedOn, "a");
  }
}
