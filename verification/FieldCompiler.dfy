/** The compiled `compute` (aggregate/compile.ts): its three phases over a record of operators. */
module FieldCompiler {
  import opened Wrappers
  import opened FieldOperators

  /** A missing member reads as this value. */
  const UNDEFINED: Value := Other(0)

  type Row = map<string, Value>

  datatype Source = Rows(rows: seq<Row>) | NotAnArray

  type Sources = map<string, Source>

  datatype Operator =
    | Sum(source: string, field: string, where: Row)
    | SumWith(source: string, fn: Row -> Option<Value>, where: Row)
    | LastDelta(source: string, field: string)
    | Expression(e: Expr)
    | Custom(run: (Fields, Sources) -> Option<Value>)

  /** `Number(value)` when that is a finite number. */
  type Coercion = Value -> Option<real>

  function Member(row: Row, key: string): Value {
    if key in row then row[key] else UNDEFINED
  }

  predicate MatchesWhere(row: Row, where: Row) {
    forall key :: key in where ==> Member(row, key) == where[key]
  }

  function ReadRows(sources: Sources, name: string): Option<seq<Row>> {
    if name in sources && sources[name].Rows? then Some(sources[name].rows) else None
  }

  // ---------------------------------------------------------------------------------------------
  // Sums
  // ---------------------------------------------------------------------------------------------

  /** What a row contributes; `None` when it makes the sum throw. */
  type Term = Row -> Option<real>

  function FieldTerm(field: string, number: Coercion): Term {
    row => number(Member(row, field))
  }

  function FnTerm(fn: Row -> Option<Value>, number: Coercion): Term {
    row => if fn(row).None? then None else number(fn(row).value)
  }

  /** The sum over the matching rows, where all of them have a term. */
  function Total(rows: seq<Row>, where: Row, term: Term): Option<real> {
    if rows == [] then Some(0.0)
    else
      var before := Total(rows[..|rows| - 1], where, term);
      var row := rows[|rows| - 1];
      if before.None? || !MatchesWhere(row, where) then before
      else if term(row).None? then None
      else Some(before.value + term(row).value)
  }

  method SumRows(rows: seq<Row>, where: Row, term: Term) returns (total: Option<real>)
    ensures total == Total(rows, where, term)
    ensures total.Some? <==> forall row :: row in rows && MatchesWhere(row, where) ==> term(row).Some?
  {
    var acc := 0.0;
    for i := 0 to |rows|
      invariant Total(rows[..i], where, term) == Some(acc)
      invariant forall row :: row in rows[..i] && MatchesWhere(row, where) ==> term(row).Some?
    {
      assert rows[..i + 1][..i] == rows[..i];
      if MatchesWhere(rows[i], where) {
        if term(rows[i]).None? {
          TotalStopsAt(rows, where, term, i);
          return None;
        }
        acc := acc + term(rows[i]).value;
      }
    }
    assert rows[..|rows|] == rows;
    return Some(acc);
  }

  lemma {:induction false} TotalStopsAt(rows: seq<Row>, where: Row, term: Term, i: nat)
    requires i < |rows| && MatchesWhere(rows[i], where) && term(rows[i]).None?
    ensures Total(rows, where, term).None?
  {
    if i < |rows| - 1 {
      TotalStopsAt(rows[..|rows| - 1], where, term, i);
    }
  }

  function Plus(a: Option<real>, b: Option<real>): Option<real> {
    if a.None? || b.None? then None else Some(a.value + b.value)
  }

  lemma {:induction false} TotalSplits(a: seq<Row>, b: seq<Row>, where: Row, term: Term)
    ensures Total(a + b, where, term) == Plus(Total(a, where, term), Total(b, where, term))
  {
    if b == [] {
      assert a + b == a;
    } else {
      TotalSplits(a, b[..|b| - 1], where, term);
      assert (a + b)[..|a + b| - 1] == a + b[..|b| - 1];
    }
  }

  /** What each row contributes: its term where it matches, nothing where it does not. With `TotalSplits` this
      fixes the sum of any rows. */
  lemma TotalOfOne(row: Row, where: Row, term: Term)
    ensures Total([], where, term) == Some(0.0)
    ensures Total([row], where, term) == if MatchesWhere(row, where) then term(row) else Some(0.0)
  {
    assert [row][..0] == [];
  }

  /** No condition lets every row through, and each further one only the rows with that member. */
  lemma EachConditionCounts(row: Row, where: Row, key: string, value: Value)
    ensures MatchesWhere(row, map[])
    ensures key !in where ==>
              (MatchesWhere(row, where[key := value]) <==>
                 MatchesWhere(row, where) && (if key in row then row[key] else UNDEFINED) == value)
  {
    if key !in where {
      assert forall k :: k in where ==> k in where[key := value] && where[key := value][k] == where[k];
      assert key in where[key := value];
    }
  }

  lemma TotalMoves(left: seq<Row>, row: Row, right: seq<Row>, where: Row, term: Term)
    ensures Total(left + [row] + right, where, term) == Total((left + right) + [row], where, term)
  {
    TotalSplits(left + [row], right, where, term);
    TotalSplits(left, [row], where, term);
    TotalSplits(left + right, [row], where, term);
    TotalSplits(left, right, where, term);
  }

  lemma Extract(b: seq<Row>, row: Row) returns (left: seq<Row>, right: seq<Row>)
    requires row in multiset(b)
    ensures b == left + [row] + right && multiset(left + right) == multiset(b) - multiset{row}
  {
    var i :| 0 <= i < |b| && b[i] == row;
    left, right := b[..i], b[i + 1..];
    assert b == left + [row] + right;
  }

  /** The order of the rows does not matter to a sum. */
  lemma {:induction false} TotalOfPermutation(a: seq<Row>, b: seq<Row>, where: Row, term: Term)
    requires multiset(a) == multiset(b)
    ensures Total(a, where, term) == Total(b, where, term)
    decreases |a|
  {
    if a == [] {
      assert |multiset(b)| == |b|;
    } else {
      var rest, last := a[..|a| - 1], a[|a| - 1];
      assert a == rest + [last];
      var left, right := Extract(b, last);
      assert multiset(rest) == multiset(a) - multiset{last};
      TotalOfPermutation(rest, left + right, where, term);
      TotalMoves(left, last, right, where, term);
      TotalSplits(rest, [last], where, term);
      TotalSplits(left + right, [last], where, term);
    }
  }

  // ---------------------------------------------------------------------------------------------
  // The three phases
  // ---------------------------------------------------------------------------------------------

  predicate Direct(op: Operator) {
    op.Sum? || op.SumWith? || op.LastDelta?
  }

  function AsValue(total: Option<real>): Option<Value> {
    if total.None? then None else Some(Num(total.value))
  }

  /** What a phase 1 operator reads from the sources. */
  function DirectValue(op: Operator, sources: Sources, number: Coercion): Option<Value>
    requires Direct(op)
  {
    var rows := ReadRows(sources, op.source);
    if rows.None? then None
    else
      match op
      case Sum(_, field, where) => AsValue(Total(rows.value, where, FieldTerm(field, number)))
      case SumWith(_, fn, where) => AsValue(Total(rows.value, where, FnTerm(fn, number)))
      case LastDelta(_, field) =>
        if rows.value == [] then None else Some(Member(rows.value[|rows.value| - 1], field))
  }

  method ComputeDirect(op: Operator, sources: Sources, number: Coercion) returns (v: Option<Value>)
    requires Direct(op)
    ensures v == DirectValue(op, sources, number)
  {
    var rows := ReadRows(sources, op.source);
    if rows.None? {
      return None;
    }
    match op {
      case Sum(_, field, where) =>
        var total := SumRows(rows.value, where, FieldTerm(field, number));
        return AsValue(total);
      case SumWith(_, fn, where) =>
        var total := SumRows(rows.value, where, FnTerm(fn, number));
        return AsValue(total);
      case LastDelta(_, field) =>
        return if rows.value == [] then None else Some(Member(rows.value[|rows.value| - 1], field));
    }
  }

  /** A sum adds the member of each matching row, as a number, and a computed sum what its function makes of the
      row: one more row adds its own term to what the rows before it come to. */
  lemma OneMoreRow(sources: Sources, source: string, rows: seq<Row>, row: Row, where: Row, number: Coercion,
                   field: string, fn: Row -> Option<Value>)
    ensures var before, after := sources[source := Rows(rows)], sources[source := Rows(rows + [row])];
            var byField, byFn := Sum(source, field, where), SumWith(source, fn, where);
            && DirectValue(byField, sources[source := Rows([])], number) == Some(Num(0.0))
            && DirectValue(byFn, sources[source := Rows([])], number) == Some(Num(0.0))
            && DirectValue(byField, after, number)
               == Added(DirectValue(byField, before, number),
                        if MatchesWhere(row, where) then number(Member(row, field)) else Some(0.0))
            && DirectValue(byFn, after, number)
               == Added(DirectValue(byFn, before, number),
                        if !MatchesWhere(row, where) then Some(0.0)
                        else if fn(row).None? then None else number(fn(row).value))
  {
    TotalSplits(rows, [row], where, FieldTerm(field, number));
    TotalSplits(rows, [row], where, FnTerm(fn, number));
    TotalOfOne(row, where, FieldTerm(field, number));
    TotalOfOne(row, where, FnTerm(fn, number));
  }

  function Added(v: Option<Value>, more: Option<real>): Option<Value> {
    if v.Some? && v.value.Num? && more.Some? then Some(Num(v.value.n + more.value)) else None
  }

  /** The last row decides a delta, whatever came before it, and without a row there is none. */
  lemma LastRowDecides(sources: Sources, source: string, rows: seq<Row>, row: Row, field: string, number: Coercion)
    ensures DirectValue(LastDelta(source, field), sources[source := Rows(rows + [row])], number)
            == Some(if field in row then row[field] else UNDEFINED)
    ensures DirectValue(LastDelta(source, field), sources[source := Rows([])], number).None?
  {
  }

  /** A source that is missing or no array makes every phase 1 operator throw. */
  lemma OnlyArraysAreRead(op: Operator, sources: Sources, number: Coercion)
    requires Direct(op) && (op.source !in sources || sources[op.source].NotAnArray?)
    ensures DirectValue(op, sources, number).None?
  {
  }

  type Operators = map<Name, Operator>

  predicate Lists(names: seq<Name>, ops: Operators) {
    Distinct(names) && Names(names) == ops.Keys
  }

  /** The fields of one kind, in declaration order. */
  function Kind(names: seq<Name>, ops: Operators, n: nat, kind: Operator -> bool): (r: seq<Name>)
    requires n <= |names| && forall m :: m in names ==> m in ops
    ensures forall m :: m in r <==> m in names[..n] && kind(ops[m])
    ensures Distinct(names) ==> Distinct(r)
  {
    if n == 0 then []
    else
      assert names[..n] == names[..n - 1] + [names[n - 1]];
      Kind(names, ops, n - 1, kind) + if kind(ops[names[n - 1]]) then [names[n - 1]] else []
  }

  /** The fields of a kind keep their declaration order. */
  lemma {:induction false} KindKeepsOrder(names: seq<Name>, ops: Operators, n: nat, kind: Operator -> bool, i: nat, j: nat)
    returns (a: nat, b: nat)
    requires n <= |names| && (forall m :: m in names ==> m in ops) && i < j < |Kind(names, ops, n, kind)|
    ensures a < b < n && names[a] == Kind(names, ops, n, kind)[i] && names[b] == Kind(names, ops, n, kind)[j]
    decreases n
  {
    var before := Kind(names, ops, n - 1, kind);
    if j < |before| {
      a, b := KindKeepsOrder(names, ops, n - 1, kind, i, j);
    } else {
      b := n - 1;
      assert before[i] in names[..n - 1];
      a :| 0 <= a < n - 1 && names[a] == before[i];
    }
  }

  /** The expression fields and what they start from. */
  function ProgramOf(ops: Operators, base: Fields): Program {
    Program(map n | n in ops && ops[n].Expression? :: ops[n].e, base, set n | n in ops && ops[n].Custom?)
  }

  /** Phase 3 over the first `n` custom fields: each sees everything before it, other customs included. */
  function WithCustoms(ops: Operators, customs: seq<Name>, fields: Fields, sources: Sources, n: nat): Option<Fields>
    requires n <= |customs| && forall m :: m in customs ==> m in ops && ops[m].Custom?
  {
    if n == 0 then Some(fields)
    else
      var before := WithCustoms(ops, customs, fields, sources, n - 1);
      var name := customs[n - 1];
      if before.None? || ops[name].run(before.value, sources).None? then None
      else Some(before.value[name := ops[name].run(before.value, sources).value])
  }

  lemma {:induction false} CustomsOnlyAdd(ops: Operators, customs: seq<Name>, fields: Fields, sources: Sources, n: nat)
    requires n <= |customs| && forall m :: m in customs ==> m in ops && ops[m].Custom? && m !in fields
    requires WithCustoms(ops, customs, fields, sources, n).Some?
    ensures Extends(WithCustoms(ops, customs, fields, sources, n).value, fields)
    ensures WithCustoms(ops, customs, fields, sources, n).value.Keys == fields.Keys + Names(customs[..n])
  {
    if n > 0 {
      CustomsOnlyAdd(ops, customs, fields, sources, n - 1);
      assert customs[..n] == customs[..n - 1] + [customs[n - 1]];
      assert Names(customs[..n]) == Names(customs[..n - 1]) + {customs[n - 1]};
    }
  }

  /** The custom fields fail only where one of their functions throws, on exactly the fields before it. */
  lemma {:induction false} CustomsThrowOnlyWhere(ops: Operators, customs: seq<Name>, fields: Fields, sources: Sources, n: nat)
    returns (i: nat, seen: Fields)
    requires n <= |customs| && forall m :: m in customs ==> m in ops && ops[m].Custom? && m !in fields
    requires WithCustoms(ops, customs, fields, sources, n).None?
    ensures i < n && seen.Keys == fields.Keys + Names(customs[..i]) && ops[customs[i]].run(seen, sources).None?
  {
    if WithCustoms(ops, customs, fields, sources, n - 1).None? {
      i, seen := CustomsThrowOnlyWhere(ops, customs, fields, sources, n - 1);
    } else {
      CustomsOnlyAdd(ops, customs, fields, sources, n - 1);
      i, seen := n - 1, WithCustoms(ops, customs, fields, sources, n - 1).value;
    }
  }

  lemma CustomAdded(ops: Operators, customs: seq<Name>, fields: Fields, sources: Sources, n: nat)
    requires n < |customs| && Distinct(customs)
    requires forall m :: m in customs ==> m in ops && ops[m].Custom? && m !in fields
    requires WithCustoms(ops, customs, fields, sources, n + 1).Some?
    ensures var before, after := WithCustoms(ops, customs, fields, sources, n),
                                 WithCustoms(ops, customs, fields, sources, n + 1).value;
            && before.Some? && Extends(after, before.value) && before.value.Keys == fields.Keys + Names(customs[..n])
            && customs[n] in after && ops[customs[n]].run(before.value, sources) == Some(after[customs[n]])
  {
    CustomsOnlyAdd(ops, customs, fields, sources, n);
    assert customs[n] !in Names(customs[..n]);
  }

  /** Each custom field is what its function makes of the sources and of exactly the fields before it, the
      earlier customs included. */
  lemma {:induction false} CustomSeesWhatIsBefore(ops: Operators, customs: seq<Name>, fields: Fields, sources: Sources,
                                                  n: nat, i: nat) returns (seen: Fields)
    requires i < n <= |customs| && Distinct(customs)
    requires forall m :: m in customs ==> m in ops && ops[m].Custom? && m !in fields
    requires WithCustoms(ops, customs, fields, sources, n).Some?
    ensures var all := WithCustoms(ops, customs, fields, sources, n).value;
            && Extends(all, seen) && seen.Keys == fields.Keys + Names(customs[..i])
            && customs[i] in all && ops[customs[i]].run(seen, sources) == Some(all[customs[i]])
  {
    CustomAdded(ops, customs, fields, sources, n - 1);
    if i == n - 1 {
      seen := WithCustoms(ops, customs, fields, sources, i).value;
    } else {
      seen := CustomSeesWhatIsBefore(ops, customs, fields, sources, n - 1, i);
    }
  }

  /** What the final record is: phase 1 fields as the sources say, every expression equal to its own value in
      the record itself, and custom fields on top. */
  ghost predicate Meets(ops: Operators, sources: Sources, number: Coercion, fields: Fields) {
    && fields.Keys == ops.Keys
    && (forall n :: n in ops && Direct(ops[n]) ==> DirectValue(ops[n], sources, number) == Some(fields[n]))
    && (forall n :: n in ops && ops[n].Expression? ==> Eval(ops[n].e, ops.Keys, fields) == Ok(fields[n]))
  }

  /** Phase 1. */
  method ComputeAllDirect(names: seq<Name>, ops: Operators, sources: Sources, number: Coercion)
    returns (r: Option<Fields>)
    requires forall m :: m in names ==> m in ops
    ensures r.Some? <==> forall n :: n in names && Direct(ops[n]) ==> DirectValue(ops[n], sources, number).Some?
    ensures r.Some? ==> r.value.Keys == set n | n in names && Direct(ops[n])
    ensures r.Some? ==> forall n :: n in r.value ==> DirectValue(ops[n], sources, number) == Some(r.value[n])
  {
    var computed: Fields := map[];
    for i := 0 to |names|
      invariant forall n :: n in computed <==> n in names[..i] && Direct(ops[n])
      invariant forall n :: n in computed ==> DirectValue(ops[n], sources, number) == Some(computed[n])
    {
      assert names[..i + 1] == names[..i] + [names[i]];
      if Direct(ops[names[i]]) {
        var v := ComputeDirect(ops[names[i]], sources, number);
        if v.None? {
          return None;
        }
        computed := computed[names[i] := v.value];
      }
    }
    assert names[..|names|] == names;
    return Some(computed);
  }

  /** Phase 3. */
  method ComputeCustoms(ops: Operators, customs: seq<Name>, resolved: Fields, sources: Sources) returns (r: Option<Fields>)
    requires forall m :: m in customs ==> m in ops && ops[m].Custom?
    ensures r == WithCustoms(ops, customs, resolved, sources, |customs|)
  {
    var fields := resolved;
    for i := 0 to |customs|
      invariant WithCustoms(ops, customs, resolved, sources, i) == Some(fields)
    {
      var v := ops[customs[i]].run(fields, sources);
      if v.None? {
        CustomsStopAt(ops, customs, resolved, sources, i + 1, |customs|);
        return None;
      }
      fields := fields[customs[i] := v.value];
    }
    return Some(fields);
  }

  lemma {:induction false} CustomsStopAt(ops: Operators, customs: seq<Name>, fields: Fields, sources: Sources,
                                         n: nat, m: nat)
    requires n <= m <= |customs| && forall c :: c in customs ==> c in ops && ops[c].Custom?
    requires WithCustoms(ops, customs, fields, sources, n).None?
    ensures WithCustoms(ops, customs, fields, sources, m).None?
  {
    if n < m {
      CustomsStopAt(ops, customs, fields, sources, n, m - 1);
    }
  }

  ghost predicate Phase1Done(ops: Operators, sources: Sources, number: Coercion, base: Fields) {
    && base.Keys == (set n | n in ops && Direct(ops[n]))
    && forall n :: n in base ==> DirectValue(ops[n], sources, number) == Some(base[n])
  }

  lemma ProgramIsProper(ops: Operators, sources: Sources, number: Coercion, base: Fields)
    requires Phase1Done(ops, sources, number, base)
    ensures Proper(ProgramOf(ops, base)) && Declared(ProgramOf(ops, base)) == ops.Keys
  {
    forall n | n in ops ensures n in Declared(ProgramOf(ops, base)) {
      assert Direct(ops[n]) || ops[n].Expression? || ops[n].Custom?;
    }
  }

  function DirectFields(ops: Operators, sources: Sources, number: Coercion): Fields {
    map n | n in ops && Direct(ops[n]) && DirectValue(ops[n], sources, number).Some? ::
      DirectValue(ops[n], sources, number).value
  }

  function CustomNames(names: seq<Name>, ops: Operators): (r: seq<Name>)
    requires forall m :: m in names ==> m in ops
    ensures forall m :: m in r <==> m in names && ops[m].Custom?
  {
    assert names[..|names|] == names;
    Kind(names, ops, |names|, (op: Operator) => op.Custom?)
  }

  /** The record is what phase 1 reads, what some order of the expressions makes of it, and the custom fields
      on top, in declaration order. */
  ghost predicate Computes(names: seq<Name>, ops: Operators, sources: Sources, number: Coercion, order: seq<Name>,
                           fields: Fields)
    requires forall m :: m in names ==> m in ops
  {
    && (forall n :: n in ops && Direct(ops[n]) ==> DirectValue(ops[n], sources, number).Some?)
    && var p := ProgramOf(ops, DirectFields(ops, sources, number));
       && Names(order) == p.exprs.Keys && Resolve(p, order).Some?
       && WithCustoms(ops, CustomNames(names, ops), Resolve(p, order).value, sources, |CustomNames(names, ops)|)
          == Some(fields)
  }

  lemma CustomNamesAreAll(names: seq<Name>, ops: Operators, base: Fields)
    requires Lists(names, ops) && forall m :: m in names ==> m in ops
    ensures Names(CustomNames(names, ops)) == ProgramOf(ops, base).customs
  {
    assert forall m :: m in names <==> m in Names(names);
  }

  lemma ComputedMeets(names: seq<Name>, ops: Operators, sources: Sources, number: Coercion, order: seq<Name>,
                      fields: Fields)
    requires Lists(names, ops) && forall m :: m in names ==> m in ops
    requires Computes(names, ops, sources, number, order, fields)
    ensures Meets(ops, sources, number, fields)
  {
    var base := DirectFields(ops, sources, number);
    var p := ProgramOf(ops, base);
    ProgramIsProper(ops, sources, number, base);
    ResolvedSolves(p, order);
    CustomNamesAreAll(names, ops, base);
    CustomsKeepEquations(ops, base, CustomNames(names, ops), Resolve(p, order).value, sources, number, fields);
  }

  /** The compiled function. It gives a record exactly when there is one to give, and that record meets every
      operator's meaning. */
  method Compute(names: seq<Name>, ops: Operators, sources: Sources, number: Coercion) returns (r: Option<Fields>)
    requires Lists(names, ops) && forall m :: m in names ==> m in ops
    ensures r.Some? ==> Meets(ops, sources, number, r.value)
    ensures r.Some? ==> exists order :: Computes(names, ops, sources, number, order, r.value)
    ensures r.None? ==> forall order, fields :: !Computes(names, ops, sources, number, order, fields)
  {
    assert forall m :: m in names <==> m in Names(names);
    var base := ComputeAllDirect(names, ops, sources, number);
    if base.None? {
      return None;
    }
    assert base.value == DirectFields(ops, sources, number);
    var exprNames := Kind(names, ops, |names|, (op: Operator) => op.Expression?);
    assert names[..|names|] == names;
    var p := ProgramOf(ops, base.value);
    ProgramIsProper(ops, sources, number, base.value);
    assert Names(exprNames) == p.exprs.Keys;
    var resolved, order := ResolveExprs(p, exprNames);
    if resolved.Failure? {
      return None;
    }
    r := ComputeCustoms(ops, CustomNames(names, ops), resolved.value, sources);
    OneRecord(p, order);
    if r.Some? {
      assert Computes(names, ops, sources, number, order, r.value);
      ComputedMeets(names, ops, sources, number, order, r.value);
    }
  }

  lemma OneRecord(p: Program, order: seq<Name>)
    requires Proper(p) && Resolve(p, order).Some? && Names(order) == p.exprs.Keys
    ensures forall other ::
      Resolve(p, other).Some? && Names(other) == p.exprs.Keys ==> Resolve(p, other) == Resolve(p, order)
  {
    forall other | Resolve(p, other).Some? && Names(other) == p.exprs.Keys
      ensures Resolve(p, other) == Resolve(p, order)
    {
      OrderDoesNotMatter(p, other, order);
    }
  }

  lemma CustomsKeepEquations(ops: Operators, base: Fields, customs: seq<Name>, fields: Fields, sources: Sources,
                             number: Coercion, after: Fields)
    requires Phase1Done(ops, sources, number, base)
    requires var p := ProgramOf(ops, base);
             && Solves(p, p.exprs.Keys, fields) && fields.Keys == base.Keys + p.exprs.Keys
             && Names(customs) == p.customs
    requires forall m :: m in customs ==> m in ops && ops[m].Custom?
    requires WithCustoms(ops, customs, fields, sources, |customs|) == Some(after)
    ensures Meets(ops, sources, number, after)
  {
    var p := ProgramOf(ops, base);
    ProgramIsProper(ops, sources, number, base);
    CustomsAreNew(ops, base, customs, fields);
    CustomsOnlyAdd(ops, customs, fields, sources, |customs|);
    assert customs[..|customs|] == customs;
    forall n | n in ops && Direct(ops[n]) ensures DirectValue(ops[n], sources, number) == Some(after[n]) {
      assert n in base && n in fields;
    }
    forall n | n in ops && ops[n].Expression? ensures Eval(ops[n].e, ops.Keys, after) == Ok(after[n]) {
      ExpressionKept(ops, base, fields, after, n);
    }
  }

  lemma CustomsAreNew(ops: Operators, base: Fields, customs: seq<Name>, fields: Fields)
    requires forall n :: n in base ==> n in ops && Direct(ops[n])
    requires fields.Keys == base.Keys + ProgramOf(ops, base).exprs.Keys
    requires forall m :: m in customs ==> m in ops && ops[m].Custom?
    ensures forall m :: m in customs ==> m !in fields
  {
  }

  lemma ExpressionKept(ops: Operators, base: Fields, fields: Fields, after: Fields, n: Name)
    requires Declared(ProgramOf(ops, base)) == ops.Keys && n in ops && ops[n].Expression?
    requires Solves(ProgramOf(ops, base), ProgramOf(ops, base).exprs.Keys, fields) && Extends(after, fields)
    ensures n in after && Eval(ops[n].e, ops.Keys, after) == Ok(after[n])
  {
    var p := ProgramOf(ops, base);
    assert n in p.exprs.Keys && Attempt(p, n, fields) == Ok(fields[n]);
    EvalMonotone(ops[n].e, ops.Keys, fields, after, []);
  }
}
