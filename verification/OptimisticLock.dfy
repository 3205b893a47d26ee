/**
 * `mutate` on an `optimisticLock` store: any number of clients that load a row through their caches, transform
 * it and write it back under its content hash (core/store.ts, `saveRowIfMatch` of core/rowStore.ts), over the
 * conditional write that `putIfMatch` of adapters/storage/supabaseStorageAdapter.ts issues as one or two
 * statements.
 */
module OptimisticLock {
  import opened Wrappers

  type Val = string

  /** A transform gives the next value or throws. */
  type Fn = Val -> Option<Val>

  /** A `perUser` store validates whatever it serves, a `perKey` store only what a full load reads. `parse` is
      the schema: it may change a value, and rejects some. */
  datatype Config = Config(perUser: bool, parse: Val -> Option<Val>, empty: Val)

  /** The schema accepts its own output as it is. */
  ghost predicate Proper(c: Config) {
    forall v :: c.parse(v).Some? ==> c.parse(c.parse(v).value) == c.parse(v)
  }

  /** How the row was written: as it would be written now, at an older schema version, or under the previous
      key of a rotation. */
  datatype Stamp = UpToDate | OldShape | OldKey

  datatype Row = Absent | Present(value: Val, hashed: bool, stamp: Stamp)

  /** The content hash is a keyed digest of the versioned envelope. */
  datatype Hash = Hash(value: Val, stamp: Stamp)

  function HashOf(row: Row): Option<Hash> {
    if row.Present? && row.hashed then Some(Hash(row.value, row.stamp)) else None
  }

  function Content(c: Config, row: Row): Val {
    if row.Absent? then c.empty else row.value
  }

  /** What a reader of the row gets. */
  function Meaning(c: Config, row: Row): Option<Val> {
    c.parse(Content(c, row))
  }

  function Written(v: Val): Row {
    Present(v, true, UpToDate)
  }

  predicate Stale(row: Row) {
    row.Present? && row.stamp != UpToDate
  }

  /** The conditional write as one atomic step. */
  function PutIfMatch(row: Row, next: Val, expected: Option<Hash>): (Row, bool) {
    if HashOf(row) == expected then (Written(next), true) else (row, false)
  }

  // ---------------------------------------------------------------------------------------------
  // The cache of a client
  // ---------------------------------------------------------------------------------------------

  datatype Entry = Entry(data: Val, hash: Option<Hash>)

  /** Served without a full load: the server's hash matches the cached one. */
  predicate Served(row: Row, slot: Option<Entry>) {
    slot.Some? && slot.value.hash.Some? && HashOf(row) == slot.value.hash
  }

  /** The entry a full load caches; `None` when it throws. */
  function FullEntry(c: Config, raw: Val, hash: Option<Hash>): Option<Entry> {
    if c.perUser then Some(Entry(raw, hash))
    else if c.parse(raw).Some? then Some(Entry(c.parse(raw).value, hash))
    else None
  }

  /** What a caller gets from an entry. */
  function Answer(c: Config, e: Entry): Option<Val> {
    if c.perUser then c.parse(e.data) else Some(e.data)
  }

  /** The entry answers what a reader of any row with its hash gets. */
  predicate Sound(c: Config, slot: Option<Entry>) {
    slot.Some? && slot.value.hash.Some? ==> Answer(c, slot.value) == c.parse(slot.value.hash.value.value)
  }

  // ---------------------------------------------------------------------------------------------
  // Two statements
  // ---------------------------------------------------------------------------------------------

  class Table {
    var row: Row

    constructor (row: Row)
      ensures this.row == row
    {
      this.row := row;
    }

    /** A plain insert fails on the unique constraint when the row exists. */
    method Insert(next: Val) returns (inserted: bool)
      modifies this
      ensures inserted == old(row).Absent? && row == if inserted then Written(next) else old(row)
    {
      inserted := row.Absent?;
      if inserted {
        row := Written(next);
      }
    }

    /** An update guarded by the row's content hash; it reports whether it matched a row. */
    method UpdateWhere(next: Val, hash: Option<Hash>) returns (matched: bool)
      modifies this
      ensures matched == (old(row).Present? && HashOf(old(row)) == hash)
      ensures row == if matched then Written(next) else old(row)
    {
      matched := row.Present? && HashOf(row) == hash;
      if matched {
        row := Written(next);
      }
    }

    /** The adapter's conditional write. `meanwhile` is whatever the row has become when the second statement
        runs. It answers and writes what the atomic conditional write does at its last statement, except that
        a row deleted between the two is a conflict, which leaves it deleted. */
    method PutIfMatchStatements(next: Val, expected: Option<Hash>, meanwhile: Row) returns (ok: bool)
      modifies this
      ensures var second := expected.None? && old(row).Present?;
              if second && meanwhile.Absent? then !ok && row == Absent
              else (row, ok) == PutIfMatch(if second then meanwhile else old(row), next, expected)
    {
      if expected.None? {
        ok := Insert(next);
        if ok {
          return;
        }
        row := meanwhile;
        ok := UpdateWhere(next, None);
      } else {
        ok := UpdateWhere(next, expected);
      }
    }
  }

  // ---------------------------------------------------------------------------------------------
  // One call
  // ---------------------------------------------------------------------------------------------

  class Cache {
    var slot: Option<Entry>

    constructor ()
      ensures slot == None
    {
      slot := None;
    }
  }

  datatype MutateError = LoadFailed | TransformFailed | OptimisticLockConflict

  function MaxAttempts(retryOnConflict: Option<int>): nat {
    if retryOnConflict.None? || retryOnConflict.value < 1 then 1 else retryOnConflict.value
  }

  /** One attempt unless more are asked for, and then as many as are asked for. */
  lemma AttemptsAreAsAsked(retryOnConflict: Option<int>)
    ensures MaxAttempts(None) == 1
    ensures retryOnConflict.Some? ==> MaxAttempts(retryOnConflict) >= retryOnConflict.value
    ensures MaxAttempts(retryOnConflict) > 1 ==> retryOnConflict == Some(MaxAttempts(retryOnConflict))
    ensures MaxAttempts(retryOnConflict) >= 1
  {
  }

  /** Others leave the row alone or write it as it is written now. No operation of these stores deletes one. */
  predicate Others(row: Row, row': Row) {
    row' == row || (row'.Present? && row'.hashed && row'.stamp == UpToDate)
  }

  /** Others may write any value, and what they write has a hash that tells it apart from every other. */
  lemma OthersWriteAnything(row: Row, row': Row)
    ensures Others(row, row') <==> row' == row || exists v :: row' == Written(v)
    ensures forall v, v' :: v != v' ==> HashOf(Written(v)) != HashOf(Written(v'))
  {
    assert row'.Present? && row'.hashed && row'.stamp == UpToDate ==> row' == Written(row'.value);
  }

  /** What others do to the row at their `n`th opportunity. */
  type Interference = (nat, Row) -> Row

  ghost predicate OnlyWrites(others: Interference) {
    forall n, row :: Others(row, others(n, row))
  }

  /** The row after `n` such opportunities, from the `at`th on, and nothing else. */
  function Alone(others: Interference, row: Row, at: nat, n: nat): Row {
    if n == 0 then row else others(at + n - 1, Alone(others, row, at, n - 1))
  }

  /** The revalidated load. It answers what the row means when the slot is sound, keeps the slot sound, and
      leaves the row as it is, except for a full load of a row under the previous key: that puts it under the
      new one, with another hash, and still answers with the old hash. */
  method LoadRevalidated(c: Config, table: Table, cache: Cache) returns (r: Option<Val>, hash: Option<Hash>)
    modifies table, cache
    ensures hash == HashOf(old(table.row))
    ensures Sound(c, old(cache.slot)) ==> Sound(c, cache.slot) && r == Meaning(c, old(table.row))
    ensures table.row ==
              if old(table.row).Present? && old(table.row).stamp == OldKey && !Served(old(table.row), old(cache.slot))
              then old(table.row).(stamp := UpToDate) else old(table.row)
  {
    hash := HashOf(table.row);
    if Served(table.row, cache.slot) {
      return Answer(c, cache.slot.value), hash;
    }
    var raw := Content(c, table.row);
    if table.row.Present? && table.row.stamp == OldKey {
      table.row := table.row.(stamp := UpToDate);
    }
    var e := FullEntry(c, raw, hash);
    if e.None? {
      return None, hash;
    }
    cache.slot := e;
    return Answer(c, e.value), hash;
  }

  datatype Try = Done(next: Val) | Conflicted | Unreadable | Rejected

  /** A commit: the transform and the schema have been applied to exactly what the others left in the row. */
  ghost predicate Applied(c: Config, fn: Fn, left: Row, next: Val, row: Row, slot: Option<Entry>) {
    && Meaning(c, left).Some? && fn(Meaning(c, left).value) == Some(next) && c.parse(next).Some?
    && row == Written(c.parse(next).value) && slot == Some(Entry(next, HashOf(row)))
  }

  /** One attempt: load, transform, validate, write. `moves` is how often the others could write meanwhile. */
  method Attempt(c: Config, table: Table, cache: Cache, fn: Fn, others: Interference, at: nat)
    returns (r: Try, moves: nat)
    requires OnlyWrites(others) && !Stale(table.row) && Sound(c, cache.slot)
    modifies table, cache
    ensures !Stale(table.row) && moves <= 2
    ensures var left := Alone(others, old(table.row), at, moves);
            if r.Done? then Applied(c, fn, left, r.next, table.row, cache.slot)
            else table.row == left && Sound(c, cache.slot)
  {
    ghost var loaded := table.row;
    var current, expected := LoadRevalidated(c, table, cache);
    if current.None? {
      return Unreadable, 0;
    }
    var next := fn(current.value);
    if next.None? || c.parse(next.value).None? {
      return Rejected, 0;
    }
    var valid := c.parse(next.value).value;
    table.row := others(at, table.row);
    var meanwhile := others(at + 1, table.row);
    moves := if expected.None? && table.row.Present? then 2 else 1;
    SameUnlessHashed(c, loaded, table.row, meanwhile);
    AloneFew(others, loaded, at);
    var ok := table.PutIfMatchStatements(valid, expected, meanwhile);
    if !ok {
      return Conflicted, moves;
    }
    cache.slot := Some(Entry(next.value, Some(Hash(valid, UpToDate))));
    return Done(next.value), moves;
  }

  lemma AloneFew(others: Interference, row: Row, at: nat)
    ensures var once := others(at, row);
            && Alone(others, row, at, 0) == row && Alone(others, row, at, 1) == once
            && Alone(others, row, at, 2) == others(at + 1, once)
  {
    assert Alone(others, row, at, 1) == others(at, Alone(others, row, at, 0));
    assert Alone(others, row, at, 2) == others(at + 1, Alone(others, row, at, 1));
  }

  lemma {:induction false} AloneTwice(others: Interference, row: Row, at: nat, moves: nat)
    ensures Alone(others, Alone(others, row, 0, at), at, moves) == Alone(others, row, 0, at + moves)
  {
    if moves > 0 {
      AloneTwice(others, row, at, moves - 1);
    }
  }

  /** One call of `mutate`, with others writing between its load and its write, and between the two
      statements of its write. `at` counts their opportunities before the call ends: on an up-to-date row with
      a sound cache, a success applies the transform and the schema to exactly what they have left in the row,
      and a failure leaves the row to them. */
  method Mutate(c: Config, table: Table, cache: Cache, fn: Fn, retryOnConflict: Option<int>, others: Interference)
    returns (r: Result<Val, MutateError>, attempts: nat, at: nat)
    requires OnlyWrites(others) && !Stale(table.row) && Sound(c, cache.slot)
    modifies table, cache
    ensures 1 <= attempts <= MaxAttempts(retryOnConflict)
    ensures var left := Alone(others, old(table.row), 0, at);
            if r.Success? then Applied(c, fn, left, r.value, table.row, cache.slot)
            else table.row == left && Sound(c, cache.slot)
    ensures r == Failure(OptimisticLockConflict) ==> attempts == MaxAttempts(retryOnConflict)
  {
    var maxAttempts := MaxAttempts(retryOnConflict);
    attempts, at := 0, 0;
    while attempts < maxAttempts
      invariant 0 <= attempts <= maxAttempts
      invariant table.row == Alone(others, old(table.row), 0, at) && !Stale(table.row) && Sound(c, cache.slot)
    {
      attempts := attempts + 1;
      var once, moves := Attempt(c, table, cache, fn, others, at);
      AloneTwice(others, old(table.row), at, moves);
      at := at + moves;
      match once {
        case Done(next) => return Success(next), attempts, at;
        case Unreadable => return Failure(LoadFailed), attempts, at;
        case Rejected => return Failure(TransformFailed), attempts, at;
        case Conflicted =>
      }
    }
    return Failure(OptimisticLockConflict), attempts, at;
  }

  lemma SameUnlessHashed(c: Config, loaded: Row, row: Row, row': Row)
    requires Others(loaded, row) && Others(row, row')
    ensures HashOf(row) == HashOf(loaded) ==> Content(c, row) == Content(c, loaded)
    ensures HashOf(row') == HashOf(loaded) ==> Content(c, row') == Content(c, loaded)
    ensures row.Present? ==> row'.Present?
  {
  }

  // ---------------------------------------------------------------------------------------------
  // The clients
  // ---------------------------------------------------------------------------------------------

  datatype Phase =
    | Idle
    | Loading
    | Converging(read: Val, expected: Option<Hash>)
    | Loaded(current: Val, expected: Option<Hash>)
    | Saving(current: Val, next: Val, valid: Val, expected: Option<Hash>)
    | Guarding(current: Val, next: Val, valid: Val)

  /** One caller of `mutate`: the cache it works through, where it is, its transform, its attempt, and how often
      it has read the row. */
  datatype Client = Client(home: nat, phase: Phase, fn: Fn, attempt: nat, maxAttempts: nat, reads': nat)

  datatype Commit = Commit(client: nat, fn: Fn)

  /** `slots` are the caches of the devices; callers on one device share its slot. `lazySaves` are the re-saves
      that loads have fired and forgotten. */
  datatype State = State(
    row: Row,
    clients: seq<Client>,
    slots: seq<Option<Entry>>,
    lazySaves: multiset<Val>,
    log: seq<Commit>
  )

  datatype Event =
    | Starts(i: nat, fn: Fn, retryOnConflict: Option<int>)
    | Reads(i: nat)
    | Converges(i: nat)
    | Decides(i: nat)
    | Saves(i: nat)
    | Inserts(i: nat)
    | Guards(i: nat)
    | LazySave(v: Val)

  predicate Enabled(st: State, e: Event) {
    match e
    case LazySave(v) => v in st.lazySaves
    case _ =>
      e.i < |st.clients| && st.clients[e.i].home < |st.slots| &&
      var phase := st.clients[e.i].phase;
      match e
      case Starts(_, _, _) => phase.Idle?
      case Reads(_) => phase.Loading?
      case Converges(_) => phase.Converging?
      case Decides(_) => phase.Loaded?
      case Saves(_) => phase.Saving? && phase.expected.Some?
      case Inserts(_) => phase.Saving? && phase.expected.None?
      case Guards(_) => phase.Guarding?
      case LazySave(_) => true
  }

  function Move(st: State, i: nat, phase: Phase): State
    requires i < |st.clients|
  {
    st.(clients := st.clients[i := st.clients[i].(phase := phase)])
  }

  /** A conflict: one more attempt, or `OptimisticLockConflictError`. */
  function Retried(st: State, i: nat): State
    requires i < |st.clients|
  {
    var cl := st.clients[i];
    st.(clients := st.clients[i := if cl.attempt >= cl.maxAttempts then cl.(phase := Idle)
                                   else cl.(phase := Loading, attempt := cl.attempt + 1)])
  }

  /** A conflict on any attempt but the last loads again; on the last the call ends. Nothing else changes. */
  lemma ConflictMeans(st: State, i: nat)
    requires i < |st.clients|
    ensures var cl, f := st.clients[i], Retried(st, i);
            && f == st.(clients := f.clients) && |f.clients| == |st.clients|
            && (forall k :: 0 <= k < |st.clients| && k != i ==> f.clients[k] == st.clients[k])
            && (cl.attempt < cl.maxAttempts ==> f.clients[i] == cl.(phase := Loading, attempt := cl.attempt + 1))
            && (cl.attempt >= cl.maxAttempts ==> f.clients[i] == cl.(phase := Idle))
  {
  }

  /** The validated value is stored, the raw one is cached. */
  function Committed(st: State, i: nat, next: Val, valid: Val): State
    requires i < |st.clients| && st.clients[i].home < |st.slots|
  {
    Move(st, i, Idle).(row := Written(valid),
                       slots := st.slots[st.clients[i].home := Some(Entry(next, Some(Hash(valid, UpToDate))))],
                       log := st.log + [Commit(i, st.clients[i].fn)])
  }

  /** The caller gets an answer, or the load throws. */
  function Answered(st: State, i: nat, answer: Option<Val>, hash: Option<Hash>): State
    requires i < |st.clients|
  {
    Move(st, i, if answer.None? then Idle else Loaded(answer.value, hash))
  }

  /** A full load caches what it has read. */
  function FullyLoaded(c: Config, st: State, i: nat, raw: Val, hash: Option<Hash>): State
    requires i < |st.clients| && st.clients[i].home < |st.slots|
  {
    var e := FullEntry(c, raw, hash);
    if e.None? then Move(st, i, Idle)
    else Answered(st.(slots := st.slots[st.clients[i].home := e]), i, Answer(c, e.value), hash)
  }

  function OneMoreRead(st: State, i: nat): State
    requires i < |st.clients|
  {
    st.(clients := st.clients[i := st.clients[i].(reads' := st.clients[i].reads' + 1)])
  }

  /** A re-save of `v` that will run some time. */
  function Later(st: State, v: Val): State {
    st.(lazySaves := st.lazySaves + multiset{v})
  }

  /** A load reads the row once. A row under the previous key is first put back under the new one; any row not
      up to date is re-saved later, without a condition. */
  function Read(c: Config, st: State, i: nat): State
    requires i < |st.clients| && st.clients[i].home < |st.slots|
  {
    var st1 := OneMoreRead(st, i);
    var slot := st.slots[st.clients[i].home];
    var raw, hash := Content(c, st.row), HashOf(st.row);
    if Served(st.row, slot) then Answered(st1, i, Answer(c, slot.value), hash)
    else if Stale(st.row) && st.row.stamp == OldKey then Move(st1, i, Converging(raw, hash))
    else FullyLoaded(c, if Stale(st.row) then Later(st1, raw) else st1, i, raw, hash)
  }

  /** `perKey` stores validate a re-save, `perUser` stores do not. */
  function Resaved(c: Config, row: Row, v: Val): Row {
    if c.perUser then Written(v) else if c.parse(v).Some? then Written(c.parse(v).value) else row
  }

  function Step(c: Config, st: State, e: Event): State
    requires Enabled(st, e)
  {
    match e
    case Starts(i, fn, retry) =>
      st.(clients := st.clients[i := Client(st.clients[i].home, Loading, fn, 1, MaxAttempts(retry), 0)])
    case Reads(i) => Read(c, st, i)
    case Converges(i) =>
      var phase := st.clients[i].phase;
      FullyLoaded(c, Later(st.(row := Present(phase.read, phase.expected.Some?, UpToDate)), phase.read),
                  i, phase.read, phase.expected)
    case Decides(i) =>
      var cl := st.clients[i];
      var next := cl.fn(cl.phase.current);
      Move(st, i, if next.None? || c.parse(next.value).None? then Idle
                  else Saving(cl.phase.current, next.value, c.parse(next.value).value, cl.phase.expected))
    case Saves(i) =>
      var phase := st.clients[i].phase;
      if HashOf(st.row) == phase.expected then Committed(st, i, phase.next, phase.valid) else Retried(st, i)
    case Inserts(i) =>
      var phase := st.clients[i].phase;
      if st.row.Absent? then Committed(st, i, phase.next, phase.valid)
      else Move(st, i, Guarding(phase.current, phase.next, phase.valid))
    case Guards(i) =>
      var phase := st.clients[i].phase;
      if st.row.Present? && HashOf(st.row).None? then Committed(st, i, phase.next, phase.valid) else Retried(st, i)
    case LazySave(v) => st.(row := Resaved(c, st.row, v), lazySaves := st.lazySaves - multiset{v})
  }

  /** A re-save happens once for each load that fired one, whatever the row has become. The value is stored as it
      was read on a `perUser` store and validated on a `perKey` store, where one that the schema rejects is not
      stored; a reader gets it back, and nobody's cache or call hears of it. */
  lemma ResavedOnce(c: Config, st: State, v: Val)
    requires Proper(c) && v in st.lazySaves
    ensures var f := Step(c, st, LazySave(v));
            && f.lazySaves + multiset{v} == st.lazySaves && f == st.(row := f.row, lazySaves := f.lazySaves)
            && (c.parse(v).Some? ==> !Stale(f.row) && HashOf(f.row).Some? && Meaning(c, f.row) == c.parse(v))
            && (c.parse(v).None? ==> if c.perUser then Meaning(c, f.row).None? else f.row == st.row)
            && (c.perUser && f.row.Present? ==> f.row.value == v)
            && (!c.perUser && c.parse(v).Some? ==> f.row.Present? && Some(f.row.value) == c.parse(v))
  {
  }

  predicate RunOf(c: Config, st: State, es: seq<Event>)
    decreases |es|
  {
    es == [] || (Enabled(st, es[0]) && RunOf(c, Step(c, st, es[0]), es[1..]))
  }

  function After(c: Config, st: State, es: seq<Event>): State
    requires RunOf(c, st, es)
    decreases |es|
  {
    if es == [] then st else After(c, Step(c, st, es[0]), es[1..])
  }

  predicate Initial(st: State) {
    && st.lazySaves == multiset{} && st.log == []
    && (forall i :: 0 <= i < |st.clients| ==> st.clients[i].phase.Idle? && st.clients[i].home < |st.slots|)
    && (forall k :: 0 <= k < |st.slots| ==> st.slots[k].None?)
  }

  // ---------------------------------------------------------------------------------------------
  // Linearizability
  // ---------------------------------------------------------------------------------------------

  /** The successful transforms, each followed by the schema, one after the other in commit order. */
  function Fold(c: Config, v: Option<Val>, log: seq<Commit>): Option<Val> {
    if log == [] then v
    else
      var before := Fold(c, v, log[..|log| - 1]);
      if before.None? then None
      else
        var next := log[|log| - 1].fn(before.value);
        if next.None? then None else c.parse(next.value)
  }

  lemma FoldOneMore(c: Config, v: Option<Val>, log: seq<Commit>, x: Commit)
    requires Fold(c, v, log).Some? && x.fn(Fold(c, v, log).value).Some?
    ensures Fold(c, v, log + [x]) == c.parse(x.fn(Fold(c, v, log).value).value)
  {
    assert (log + [x])[..|log|] == log;
  }

  /** The stored value is the fold of exactly the successful transforms, in commit order. */
  predicate Serial(c: Config, start: State, f: State) {
    Fold(c, Meaning(c, start.row), f.log) == Meaning(c, f.row)
  }

  ghost predicate Linearizable(c: Config, st: State) {
    forall es :: RunOf(c, st, es) ==> Serial(c, st, After(c, st, es))
  }

  /** The schema leaves every value it accepts unchanged. */
  ghost predicate SchemaFixes(c: Config) {
    forall v :: c.parse(v).Some? ==> c.parse(v) == Some(v)
  }

  /** The raw value in a cache is as good as the stored one. */
  ghost predicate Transparent(c: Config) {
    c.perUser || SchemaFixes(c)
  }

  /** What a client has loaded is what the row means as long as the row still matches what it expects. */
  ghost predicate ClientInv(c: Config, row: Row, cl: Client, slots: nat) {
    && cl.home < slots
    && (cl.phase.Loaded? || cl.phase.Saving? ==>
          if cl.phase.expected.Some? then c.parse(cl.phase.expected.value.value) == Some(cl.phase.current)
          else HashOf(row).None? ==> Meaning(c, row) == Some(cl.phase.current))
    && (cl.phase.Saving? || cl.phase.Guarding? ==>
          cl.fn(cl.phase.current) == Some(cl.phase.next) && c.parse(cl.phase.next) == Some(cl.phase.valid))
    && (cl.phase.Guarding? ==> row.Present? && (HashOf(row).None? ==> Meaning(c, row) == Some(cl.phase.current)))
    && !cl.phase.Converging?
  }

  ghost predicate Inv(c: Config, start: Option<Val>, st: State) {
    && !Stale(st.row) && st.lazySaves == multiset{}
    && Fold(c, start, st.log) == Meaning(c, st.row)
    && (forall i :: 0 <= i < |st.clients| ==> ClientInv(c, st.row, st.clients[i], |st.slots|))
    && (forall k :: 0 <= k < |st.slots| ==> Sound(c, st.slots[k]))
  }

  lemma CommitKeepsInv(c: Config, start: Option<Val>, st: State, i: nat)
    requires Proper(c) && Transparent(c) && Inv(c, start, st) && i < |st.clients|
    requires st.clients[i].phase.Saving? || st.clients[i].phase.Guarding?
    requires Meaning(c, st.row) == Some(st.clients[i].phase.current)
    ensures Inv(c, start, Committed(st, i, st.clients[i].phase.next, st.clients[i].phase.valid))
  {
    var phase := st.clients[i].phase;
    var st' := Committed(st, i, phase.next, phase.valid);
    assert ClientInv(c, st.row, st.clients[i], |st.slots|);
    FoldOneMore(c, start, st.log, Commit(i, st.clients[i].fn));
    forall k | 0 <= k < |st'.clients| ensures ClientInv(c, st'.row, st'.clients[k], |st'.slots|) {
      assert ClientInv(c, st.row, st.clients[k], |st.slots|);
    }
  }

  /** Between reading and committing nothing is written. */
  lemma ReadKeepsInv(c: Config, start: Option<Val>, st: State, i: nat)
    requires Inv(c, start, st) && Enabled(st, Reads(i))
    ensures Inv(c, start, Read(c, st, i))
  {
    var st' := Read(c, st, i);
    assert Sound(c, st.slots[st.clients[i].home]);
    forall k | 0 <= k < |st'.clients| ensures ClientInv(c, st'.row, st'.clients[k], |st'.slots|) {
      assert ClientInv(c, st.row, st.clients[k], |st.slots|);
    }
  }

  lemma OthersKeepInv(c: Config, start: Option<Val>, st: State, e: Event)
    requires Inv(c, start, st) && Enabled(st, e) && !e.Reads? && Step(c, st, e).log == st.log
    ensures Inv(c, start, Step(c, st, e))
  {
    var st' := Step(c, st, e);
    assert ClientInv(c, st.row, st.clients[e.i], |st.slots|);
    forall k | 0 <= k < |st'.clients| ensures ClientInv(c, st'.row, st'.clients[k], |st'.slots|) {
      assert ClientInv(c, st.row, st.clients[k], |st.slots|);
    }
  }

  lemma StepKeepsInv(c: Config, start: Option<Val>, st: State, e: Event)
    requires Proper(c) && Transparent(c) && Inv(c, start, st) && Enabled(st, e)
    ensures Inv(c, start, Step(c, st, e))
  {
    assert ClientInv(c, st.row, st.clients[e.i], |st.slots|);
    if e.Reads? {
      ReadKeepsInv(c, start, st, e.i);
    } else if Step(c, st, e).log != st.log {
      CommitKeepsInv(c, start, st, e.i);
    } else {
      OthersKeepInv(c, start, st, e);
    }
  }

  lemma {:induction false} RunKeepsInv(c: Config, start: Option<Val>, st: State, es: seq<Event>)
    requires Proper(c) && Transparent(c) && Inv(c, start, st) && RunOf(c, st, es)
    ensures Inv(c, start, After(c, st, es))
    decreases |es|
  {
    if es != [] {
      StepKeepsInv(c, start, st, es[0]);
      RunKeepsInv(c, start, Step(c, st, es[0]), es[1..]);
    }
  }

  /** `mutate` is linearizable on a row that is up to date, when what is cached is as good as what is stored:
      whatever any number of clients on any number of devices do, the stored value is the fold of exactly the
      successful transforms, in commit order. */
  lemma MutateIsLinearizable(c: Config, st: State, es: seq<Event>)
    requires Proper(c) && Transparent(c) && Initial(st) && !Stale(st.row) && RunOf(c, st, es)
    ensures Serial(c, st, After(c, st, es))
  {
    RunKeepsInv(c, Meaning(c, st.row), st, es);
  }

  /** A step that does not commit leaves an up-to-date row alone, so a `mutate` that fails has changed nothing;
      and a client's transform is logged by the very step that ends its call. */
  lemma OnlyCommitsWrite(c: Config, start: Option<Val>, st: State, e: Event)
    requires Inv(c, start, st) && Enabled(st, e)
    ensures var st' := Step(c, st, e);
            && (st'.log == st.log ==> st'.row == st.row)
            && (st'.log != st.log ==> st'.log == st.log + [Commit(e.i, st.clients[e.i].fn)]
                                      && st'.clients[e.i].phase.Idle?)
  {
    assert ClientInv(c, st.row, st.clients[e.i], |st.slots|);
  }

  predicate Budgeted(cl: Client) {
    !cl.phase.Idle? ==>
      1 <= cl.attempt <= cl.maxAttempts && cl.reads' == if cl.phase.Loading? then cl.attempt - 1 else cl.attempt
  }

  lemma OnlyOneMoves(c: Config, st: State, e: Event)
    requires Enabled(st, e) && !e.LazySave?
    ensures var f := Step(c, st, e);
            |f.clients| == |st.clients| && f.clients == st.clients[e.i := f.clients[e.i]]
    ensures Budgeted(st.clients[e.i]) ==> Budgeted(Step(c, st, e).clients[e.i])
  {
    if e.Reads? {
      ReadWithinBudget(c, st, e.i);
    }
  }

  lemma ReadWithinBudget(c: Config, st: State, i: nat)
    requires Enabled(st, Reads(i))
    ensures var f := Read(c, st, i);
            |f.clients| == |st.clients| && f.clients == st.clients[i := f.clients[i]]
    ensures Budgeted(st.clients[i]) ==> Budgeted(Read(c, st, i).clients[i])
  {
  }

  lemma StepWithinBudget(c: Config, st: State, e: Event)
    requires Enabled(st, e) && forall i :: 0 <= i < |st.clients| ==> Budgeted(st.clients[i])
    ensures var f := Step(c, st, e);
            |f.clients| == |st.clients| && forall i :: 0 <= i < |f.clients| ==> Budgeted(f.clients[i])
  {
    if !e.LazySave? {
      OnlyOneMoves(c, st, e);
      assert Budgeted(st.clients[e.i]);
    }
  }

  /** No call reads the row, and so attempts to write it, more often than `retryOnConflict` allows. */
  lemma {:induction false} AttemptsWithinBudget(c: Config, st: State, es: seq<Event>)
    requires RunOf(c, st, es) && forall i :: 0 <= i < |st.clients| ==> Budgeted(st.clients[i])
    ensures var f := After(c, st, es);
            |f.clients| == |st.clients| && forall i :: 0 <= i < |f.clients| ==> Budgeted(f.clients[i])
    decreases |es|
  {
    if es != [] {
      StepWithinBudget(c, st, es[0]);
      AttemptsWithinBudget(c, Step(c, st, es[0]), es[1..]);
    }
  }

  // ---------------------------------------------------------------------------------------------
  // Where linearizability ends
  // ---------------------------------------------------------------------------------------------

  lemma RunCons(c: Config, st: State, e: Event, st': State, es: seq<Event>)
    requires Enabled(st, e) && Step(c, st, e) == st' && RunOf(c, st', es)
    ensures RunOf(c, st, [e] + es) && After(c, st, [e] + es) == After(c, st', es)
  {
    assert ([e] + es)[1..] == es;
  }

  /** `f` is `st` after client 0 has committed `next`. */
  ghost predicate CommitsFirst(c: Config, st: State, fn: Fn, next: Val, f: State)
    requires st.clients != [] && st.clients[0].home < |st.slots| && c.parse(next).Some?
  {
    var valid := c.parse(next).value;
    && f.row == Written(valid) && f.log == st.log + [Commit(0, fn)]
    && f.slots == st.slots[st.clients[0].home := Some(Entry(next, Some(Hash(valid, UpToDate))))]
    && |f.clients| == |st.clients| && f.clients[0].phase.Idle? && f.clients[0].home == st.clients[0].home
  }

  /** A client that has loaded what the row still is commits. */
  lemma CommitLoaded(c: Config, st: State, m: Val, next: Val) returns (es: seq<Event>)
    requires st.clients != [] && st.clients[0].home < |st.slots| && st.clients[0].phase == Loaded(m, HashOf(st.row))
    requires st.clients[0].fn(m) == Some(next) && c.parse(next).Some?
    ensures RunOf(c, st, es) && CommitsFirst(c, st, st.clients[0].fn, next, After(c, st, es))
    ensures After(c, st, es).lazySaves == st.lazySaves
  {
    var valid := c.parse(next).value;
    var s1 := Move(st, 0, Saving(m, next, valid, HashOf(st.row)));
    var s2 := Committed(s1, 0, next, valid);
    es := [];
    if HashOf(st.row).Some? {
      RunCons(c, s1, Saves(0), s2, es);
      es := [Saves(0)] + es;
    } else if st.row.Absent? {
      RunCons(c, s1, Inserts(0), s2, es);
      es := [Inserts(0)] + es;
    } else {
      var s3 := Move(s1, 0, Guarding(m, next, valid));
      assert Committed(s3, 0, next, valid) == s2;
      RunCons(c, s3, Guards(0), s2, es);
      RunCons(c, s1, Inserts(0), s3, [Guards(0)] + es);
      es := [Inserts(0)] + ([Guards(0)] + es);
    }
    RunCons(c, st, Decides(0), s1, es);
    es := [Decides(0)] + es;
  }

  predicate NotYet(c: Config, st: State, attempt: nat)
    requires st.clients != []
  {
    && st.clients[0].home < |st.slots| && st.clients[0].phase.Loading?
    && st.clients[0].attempt == attempt && st.clients[0].maxAttempts == 2
    && !Served(st.row, st.slots[st.clients[0].home])
  }

  /** Reading a row that is not under the previous key. */
  lemma CommitRead(c: Config, st: State, m: Val, next: Val, attempt: nat) returns (es: seq<Event>)
    requires st.clients != [] && NotYet(c, st, attempt) && !(Stale(st.row) && st.row.stamp == OldKey)
    requires Meaning(c, st.row) == Some(m) && st.clients[0].fn(m) == Some(next) && c.parse(next).Some?
    ensures RunOf(c, st, es) && CommitsFirst(c, st, st.clients[0].fn, next, After(c, st, es))
    ensures st.lazySaves <= After(c, st, es).lazySaves
    ensures Stale(st.row) ==> st.row.value in After(c, st, es).lazySaves
  {
    var s1 := Read(c, st, 0);
    es := CommitLoaded(c, s1, m, next);
    RunCons(c, st, Reads(0), s1, es);
    es := [Reads(0)] + es;
  }

  /** Reading a row under the previous key: converged by the load, it costs a hashed row one conflict. */
  lemma CommitOldKey(c: Config, st: State, m: Val, next: Val) returns (es: seq<Event>)
    requires st.clients != [] && NotYet(c, st, 1) && Stale(st.row) && st.row.stamp == OldKey
    requires Meaning(c, st.row) == Some(m) && st.clients[0].fn(m) == Some(next) && c.parse(next).Some?
    ensures RunOf(c, st, es) && CommitsFirst(c, st, st.clients[0].fn, next, After(c, st, es))
    ensures st.row.value in After(c, st, es).lazySaves
  {
    var raw, h := st.row.value, HashOf(st.row);
    var s1 := Read(c, st, 0);
    var s2 := Step(c, s1, Converges(0));
    assert s2.clients[0].phase == Loaded(m, h) && s2.row == Present(raw, h.Some?, UpToDate);
    if h.None? {
      es := CommitLoaded(c, s2, m, next);
    } else {
      var s3 := Move(s2, 0, Saving(m, next, c.parse(next).value, h));
      var s4 := Retried(s3, 0);
      es := CommitRead(c, s4, m, next, 2);
      RunCons(c, s3, Saves(0), s4, es);
      RunCons(c, s2, Decides(0), s3, [Saves(0)] + es);
      es := [Decides(0)] + ([Saves(0)] + es);
    }
    RunCons(c, s1, Converges(0), s2, es);
    RunCons(c, st, Reads(0), s1, [Converges(0)] + es);
    es := [Reads(0)] + ([Converges(0)] + es);
  }

  /** From the beginning, a client alone commits any transform of what the row means. */
  lemma CommitFromStart(c: Config, st: State, fn: Fn, m: Val, next: Val) returns (es: seq<Event>)
    requires Initial(st) && st.clients != [] && Meaning(c, st.row) == Some(m)
    requires fn(m) == Some(next) && c.parse(next).Some?
    ensures RunOf(c, st, es) && CommitsFirst(c, st, fn, next, After(c, st, es))
    ensures Stale(st.row) ==> st.row.value in After(c, st, es).lazySaves
  {
    var s1 := Step(c, st, Starts(0, fn, Some(2)));
    if Stale(st.row) && st.row.stamp == OldKey {
      es := CommitOldKey(c, s1, m, next);
    } else {
      es := CommitRead(c, s1, m, next, 1);
    }
    RunCons(c, st, Starts(0, fn, Some(2)), s1, es);
    es := [Starts(0, fn, Some(2))] + es;
  }

  lemma {:induction false} RunAppend(c: Config, st: State, xs: seq<Event>, ys: seq<Event>)
    requires RunOf(c, st, xs) && RunOf(c, After(c, st, xs), ys)
    ensures RunOf(c, st, xs + ys) && After(c, st, xs + ys) == After(c, After(c, st, xs), ys)
    decreases |xs|
  {
    hide Step, Enabled;
    if xs == [] {
      assert xs + ys == ys;
    } else {
      RunAppend(c, Step(c, st, xs[0]), xs[1..], ys);
      assert (xs + ys)[1..] == xs[1..] + ys;
    }
  }

  /** The schema accepts two values it tells apart. */
  ghost predicate Varied(c: Config) {
    exists a, b :: c.parse(a).Some? && c.parse(b).Some? && c.parse(a) != c.parse(b)
  }

  /** The re-save of an old row is unconditional: delayed past the commit of the very client whose load fired
      it, it puts the old value back. */
  lemma LazySaveUndoes(c: Config, st: State) returns (es: seq<Event>)
    requires Proper(c) && Initial(st) && st.clients != [] && Stale(st.row) && Meaning(c, st.row).Some? && Varied(c)
    ensures RunOf(c, st, es) && !Serial(c, st, After(c, st, es))
  {
    var a, b :| c.parse(a).Some? && c.parse(b).Some? && c.parse(a) != c.parse(b);
    var m := Meaning(c, st.row).value;
    var next := if c.parse(a) == Some(m) then b else a;
    var fn: Fn := v => Some(next);
    var raw := st.row.value;
    es := CommitFromStart(c, st, fn, m, next);
    var f := After(c, st, es);
    FoldOneMore(c, Some(m), [], Commit(0, fn));
    assert f.log == [] + [Commit(0, fn)];
    var f' := Step(c, f, LazySave(raw));
    assert Meaning(c, f'.row) == Some(m);
    RunCons(c, f, LazySave(raw), f', []);
    RunAppend(c, st, es, [LazySave(raw)] + []);
    es := es + ([LazySave(raw)] + []);
  }

  /** The second call starts from a cache that holds the raw value of the first. */
  lemma CommitServed(c: Config, st: State, second: Fn, raw: Val, valid: Val) returns (es: seq<Event>)
    requires !c.perUser && st.clients != [] && st.clients[0].phase.Idle? && st.clients[0].home < |st.slots|
    requires st.slots[st.clients[0].home] == Some(Entry(raw, HashOf(st.row))) && HashOf(st.row).Some?
    requires second(raw) == Some(valid) && c.parse(valid).Some?
    ensures RunOf(c, st, es) && After(c, st, es).log == st.log + [Commit(0, second)]
    ensures After(c, st, es).row == Written(c.parse(valid).value)
  {
    var s1 := Step(c, st, Starts(0, second, None));
    var s2 := Read(c, s1, 0);
    assert s2.clients[0].phase == Loaded(raw, HashOf(s2.row));
    es := CommitLoaded(c, s2, raw, valid);
    RunCons(c, s1, Reads(0), s2, es);
    RunCons(c, st, Starts(0, second, None), s1, [Reads(0)] + es);
    es := [Starts(0, second, None)] + ([Reads(0)] + es);
  }

  /** What a `perKey` cache serves after a commit is the raw value: a transform that knows it from the stored
      one is applied to something that was never stored. */
  lemma RawValueIsTransformed(c: Config, st: State) returns (es: seq<Event>)
    requires Proper(c) && !Transparent(c) && Initial(st) && st.clients != [] && Meaning(c, st.row).Some?
    ensures RunOf(c, st, es) && !Serial(c, st, After(c, st, es))
  {
    var raw :| c.parse(raw).Some? && c.parse(raw) != Some(raw);
    var valid, m := c.parse(raw).value, Meaning(c, st.row).value;
    var first: Fn := v => Some(raw);
    var second: Fn := v => if v == raw then Some(valid) else None;
    var es1 := CommitFromStart(c, st, first, m, raw);
    var s1 := After(c, st, es1);
    var es2 := CommitServed(c, s1, second, raw, valid);
    RunAppend(c, st, es1, es2);
    es := es1 + es2;
    FoldStops(c, m, first, second, valid);
    assert After(c, st, es).log == [Commit(0, first), Commit(0, second)];
  }

  lemma FoldStops(c: Config, m: Val, first: Fn, second: Fn, valid: Val)
    requires first(m).Some? && c.parse(first(m).value) == Some(valid) && second(valid).None?
    ensures Fold(c, Some(m), [Commit(0, first), Commit(0, second)]) == None
  {
    var log := [Commit(0, first), Commit(0, second)];
    assert log[..1] == [] + [Commit(0, first)];
    FoldOneMore(c, Some(m), [], Commit(0, first));
  }

  /** With a schema of one value there is nothing to lose. */
  ghost predicate OneValueInv(c: Config, w: Val, st: State) {
    && Fold(c, Some(w), st.log) == Some(w) && Meaning(c, st.row) == Some(w)
    && (forall v :: v in st.lazySaves ==> c.parse(v) == Some(w))
    && (forall k :: 0 <= k < |st.slots| && st.slots[k].Some? ==>
          c.parse(st.slots[k].value.data) == Some(w) && (!c.perUser ==> st.slots[k].value.data == w))
    && (forall i :: 0 <= i < |st.clients| ==> OneValueClient(c, w, st.clients[i].phase, st.clients[i].fn))
  }

  ghost predicate OneValueClient(c: Config, w: Val, phase: Phase, fn: Fn) {
    && (phase.Converging? ==> c.parse(phase.read) == Some(w))
    && (phase.Loaded? || phase.Saving? || phase.Guarding? ==> phase.current == w)
    && (phase.Saving? || phase.Guarding? ==>
          fn(w) == Some(phase.next) && c.parse(phase.next) == Some(w) && phase.valid == w
          && (!c.perUser ==> phase.next == w))
  }

  lemma OneValueCommit(c: Config, w: Val, st: State, i: nat)
    requires OneValueInv(c, w, st) && i < |st.clients| && st.clients[i].home < |st.slots|
    requires st.clients[i].phase.Saving? || st.clients[i].phase.Guarding?
    requires c.parse(w) == Some(w)
    ensures OneValueInv(c, w, Committed(st, i, st.clients[i].phase.next, st.clients[i].phase.valid))
  {
    assert OneValueClient(c, w, st.clients[i].phase, st.clients[i].fn);
    FoldOneMore(c, Some(w), st.log, Commit(i, st.clients[i].fn));
  }

  lemma OneValueCounted(c: Config, w: Val, st: State, i: nat)
    requires OneValueInv(c, w, st) && i < |st.clients|
    ensures OneValueInv(c, w, OneMoreRead(st, i))
  {
  }

  lemma OneValueLater(c: Config, w: Val, st: State, v: Val)
    requires OneValueInv(c, w, st) && c.parse(v) == Some(w)
    ensures OneValueInv(c, w, Later(st, v))
  {
  }

  lemma OneValueLoad(c: Config, w: Val, st: State, i: nat, raw: Val, hash: Option<Hash>)
    requires Transparent(c) && OneValueInv(c, w, st) && i < |st.clients| && st.clients[i].home < |st.slots|
    requires c.parse(raw) == Some(w) && c.parse(w) == Some(w)
    ensures OneValueInv(c, w, FullyLoaded(c, st, i, raw, hash))
  {
  }

  lemma OneValueConverge(c: Config, w: Val, st: State, i: nat)
    requires Transparent(c) && OneValueInv(c, w, st) && Enabled(st, Converges(i)) && c.parse(w) == Some(w)
    ensures OneValueInv(c, w, Step(c, st, Converges(i)))
  {
    var phase := st.clients[i].phase;
    assert OneValueClient(c, w, phase, st.clients[i].fn);
    var st1 := Later(st.(row := Present(phase.read, phase.expected.Some?, UpToDate)), phase.read);
    OneValueLoad(c, w, st1, i, phase.read, phase.expected);
  }

  lemma OneValueRead(c: Config, w: Val, st: State, i: nat)
    requires Transparent(c) && OneValueInv(c, w, st) && Enabled(st, Reads(i)) && c.parse(w) == Some(w)
    ensures OneValueInv(c, w, Read(c, st, i))
  {
    var raw, hash, slot := Content(c, st.row), HashOf(st.row), st.slots[st.clients[i].home];
    var st1 := OneMoreRead(st, i);
    OneValueCounted(c, w, st, i);
    if Served(st.row, slot) {
      assert Read(c, st, i) == Move(st1, i, Loaded(w, hash));
    } else if Stale(st.row) && st.row.stamp == OldKey {
      assert Read(c, st, i) == Move(st1, i, Converging(raw, hash));
    } else {
      OneValueLater(c, w, st1, raw);
      var st2 := if Stale(st.row) then Later(st1, raw) else st1;
      OneValueLoad(c, w, st2, i, raw, hash);
      assert Read(c, st, i) == FullyLoaded(c, st2, i, raw, hash);
    }
  }

  lemma OneValueResave(c: Config, w: Val, st: State, v: Val)
    requires OneValueInv(c, w, st) && v in st.lazySaves && c.parse(w) == Some(w)
    ensures OneValueInv(c, w, Step(c, st, LazySave(v)))
  {
  }

  lemma OneValueClientMoves(c: Config, w: Val, st: State, i: nat, cl: Client)
    requires OneValueInv(c, w, st) && i < |st.clients| && OneValueClient(c, w, cl.phase, cl.fn)
    ensures OneValueInv(c, w, st.(clients := st.clients[i := cl]))
  {
  }

  lemma OneValueOwn(c: Config, w: Val, st: State, e: Event)
    requires OneValueInv(c, w, st) && Enabled(st, e) && c.parse(w) == Some(w)
    requires Transparent(c) && forall v :: c.parse(v).Some? ==> c.parse(v) == Some(w)
    requires e.Starts? || e.Decides? || e.Saves? || e.Inserts? || e.Guards?
    ensures OneValueInv(c, w, Step(c, st, e))
  {
    var f := Step(c, st, e);
    assert OneValueClient(c, w, st.clients[e.i].phase, st.clients[e.i].fn);
    if f.log != st.log {
      var phase := st.clients[e.i].phase;
      assert f == Committed(st, e.i, phase.next, phase.valid);
      OneValueCommit(c, w, st, e.i);
    } else {
      assert f == st.(clients := st.clients[e.i := f.clients[e.i]]);
      OneValueClientMoves(c, w, st, e.i, f.clients[e.i]);
    }
  }

  lemma OneValueStep(c: Config, w: Val, st: State, e: Event)
    requires Proper(c) && Transparent(c) && !Varied(c) && OneValueInv(c, w, st) && Enabled(st, e)
    ensures OneValueInv(c, w, Step(c, st, e))
  {
    assert forall v :: c.parse(v).Some? ==> c.parse(v) == Some(w);
    assert c.parse(w) == Some(w);
    if e.Reads? {
      OneValueRead(c, w, st, e.i);
    } else if e.Converges? {
      OneValueConverge(c, w, st, e.i);
    } else if e.LazySave? {
      OneValueResave(c, w, st, e.v);
    } else {
      OneValueOwn(c, w, st, e);
    }
  }

  lemma {:induction false} OneValueRun(c: Config, w: Val, st: State, es: seq<Event>)
    requires Proper(c) && Transparent(c) && !Varied(c) && OneValueInv(c, w, st) && RunOf(c, st, es)
    ensures OneValueInv(c, w, After(c, st, es))
    decreases |es|
  {
    if es != [] {
      OneValueStep(c, w, st, es[0]);
      OneValueRun(c, w, Step(c, st, es[0]), es[1..]);
    }
  }

  /** A row the schema rejects is never transformed. */
  ghost predicate UnreadableInv(c: Config, st: State) {
    && Meaning(c, st.row).None? && st.log == []
    && (forall v :: v in st.lazySaves ==> c.parse(v).None?)
    && (forall k :: 0 <= k < |st.slots| && st.slots[k].Some? ==>
          c.perUser && c.parse(st.slots[k].value.data).None?)
    && (forall i :: 0 <= i < |st.clients| ==>
          var phase := st.clients[i].phase;
          phase.Idle? || phase.Loading? || (phase.Converging? && c.parse(phase.read).None?))
  }

  lemma UnreadableLoad(c: Config, st: State, i: nat, raw: Val, hash: Option<Hash>)
    requires UnreadableInv(c, st) && c.parse(raw).None? && i < |st.clients| && st.clients[i].home < |st.slots|
    ensures UnreadableInv(c, FullyLoaded(c, st, i, raw, hash))
  {
  }

  lemma UnreadableLater(c: Config, st: State, v: Val)
    requires UnreadableInv(c, st) && c.parse(v).None?
    ensures UnreadableInv(c, Later(st, v))
  {
  }

  lemma UnreadableRead(c: Config, st: State, i: nat)
    requires UnreadableInv(c, st) && Enabled(st, Reads(i))
    ensures UnreadableInv(c, Read(c, st, i))
  {
    var raw, hash, slot := Content(c, st.row), HashOf(st.row), st.slots[st.clients[i].home];
    var st1 := OneMoreRead(st, i);
    assert UnreadableInv(c, st1);
    if Served(st.row, slot) {
      assert Read(c, st, i) == Answered(st1, i, Answer(c, slot.value), hash);
    } else if Stale(st.row) && st.row.stamp == OldKey {
      assert Read(c, st, i) == Move(st1, i, Converging(raw, hash));
    } else {
      UnreadableLater(c, st1, raw);
      var st2 := if Stale(st.row) then Later(st1, raw) else st1;
      UnreadableLoad(c, st2, i, raw, hash);
      assert Read(c, st, i) == FullyLoaded(c, st2, i, raw, hash);
    }
  }

  lemma UnreadableConverge(c: Config, st: State, i: nat)
    requires UnreadableInv(c, st) && Enabled(st, Converges(i))
    ensures UnreadableInv(c, Step(c, st, Converges(i)))
  {
    var phase := st.clients[i].phase;
    var st1 := st.(row := Present(phase.read, phase.expected.Some?, UpToDate));
    UnreadableLater(c, st1, phase.read);
    UnreadableLoad(c, Later(st1, phase.read), i, phase.read, phase.expected);
  }

  lemma UnreadableResave(c: Config, st: State, v: Val)
    requires UnreadableInv(c, st) && v in st.lazySaves
    ensures UnreadableInv(c, Step(c, st, LazySave(v)))
  {
  }

  lemma UnreadableStep(c: Config, st: State, e: Event)
    requires UnreadableInv(c, st) && Enabled(st, e)
    ensures UnreadableInv(c, Step(c, st, e))
  {
    if e.Reads? {
      UnreadableRead(c, st, e.i);
    } else if e.Converges? {
      UnreadableConverge(c, st, e.i);
    } else if e.LazySave? {
      UnreadableResave(c, st, e.v);
    }
  }

  lemma {:induction false} UnreadableRun(c: Config, st: State, es: seq<Event>)
    requires UnreadableInv(c, st) && RunOf(c, st, es)
    ensures UnreadableInv(c, After(c, st, es))
    decreases |es|
  {
    if es != [] {
      UnreadableStep(c, st, es[0]);
      UnreadableRun(c, Step(c, st, es[0]), es[1..]);
    }
  }

  lemma SerialRuns(c: Config, st: State, es: seq<Event>)
    requires Proper(c) && Initial(st) && RunOf(c, st, es)
    requires Meaning(c, st.row).None? || (Transparent(c) && (!Stale(st.row) || !Varied(c)))
    ensures Serial(c, st, After(c, st, es))
  {
    if Meaning(c, st.row).None? {
      UnreadableRun(c, st, es);
    } else if !Stale(st.row) {
      MutateIsLinearizable(c, st, es);
    } else {
      OneValueRun(c, Meaning(c, st.row).value, st, es);
    }
  }

  /** `mutate` is linearizable, for all transforms, exactly when the row needs no lazy upgrade and the cache is
      as good as the row: the store validates on serving, or the schema changes no value it accepts. (A row the
      schema rejects is never transformed, and a schema of one value has nothing to undo.) */
  lemma LinearizableIff(c: Config, st: State)
    requires Proper(c) && Initial(st) && st.clients != []
    ensures Linearizable(c, st) <==>
              Meaning(c, st.row).None? || (Transparent(c) && (!Stale(st.row) || !Varied(c)))
  {
    if Meaning(c, st.row).None? || (Transparent(c) && (!Stale(st.row) || !Varied(c))) {
      forall es | RunOf(c, st, es) ensures Serial(c, st, After(c, st, es)) {
        SerialRuns(c, st, es);
      }
    } else if !Transparent(c) {
      var es := RawValueIsTransformed(c, st);
    } else {
      var es := LazySaveUndoes(c, st);
    }
  }

  /** During a rotation, the load of a row still under the previous key rewrites the row, hash and all, and
      then hands the old hash to the conditional write: with nobody else around, a `mutate` with a single
      attempt conflicts with itself whatever its transform, and the row holds what it held. */
  lemma ConflictsWithItself(c: Config, st: State, fn: Fn, next: Val)
    requires Initial(st) && st.clients != [] && st.row.Present? && st.row.hashed && st.row.stamp == OldKey
    requires Meaning(c, st.row).Some? && fn(Meaning(c, st.row).value) == Some(next) && c.parse(next).Some?
    ensures var es := [Starts(0, fn, None), Reads(0), Converges(0), Decides(0), Saves(0)];
            && RunOf(c, st, es)
            && var f := After(c, st, es);
               f.log == [] && f.clients != [] && f.clients[0].phase.Idle? && f.row == Written(st.row.value)
  {
    var m, h := Meaning(c, st.row).value, HashOf(st.row);
    var s1 := Step(c, st, Starts(0, fn, None));
    var s2 := Read(c, s1, 0);
    var s3 := Step(c, s2, Converges(0));
    assert s3.clients[0].phase == Loaded(m, h) && s3.row == Written(st.row.value);
    var s4 := Move(s3, 0, Saving(m, next, c.parse(next).value, h));
    var s5 := Retried(s4, 0);
    RunCons(c, s4, Saves(0), s5, []);
    RunCons(c, s3, Decides(0), s4, [Saves(0)] + []);
    RunCons(c, s2, Converges(0), s3, [Decides(0)] + ([Saves(0)] + []));
    var es := [Converges(0)] + ([Decides(0)] + ([Saves(0)] + []));
    RunCons(c, s1, Reads(0), s2, es);
    RunCons(c, st, Starts(0, fn, None), s1, [Reads(0)] + es);
    assert [Starts(0, fn, None)] + ([Reads(0)] + es)
           == [Starts(0, fn, None), Reads(0), Converges(0), Decides(0), Saves(0)];
  }

  /** Nobody is around but client 0, in the one call it has started, and the re-saves its loads have fired. */
  predicate Lonely(es: seq<Event>) {
    forall k :: 0 <= k < |es| ==> es[k].LazySave? || (es[k].i == 0 && !es[k].Starts?)
  }

  predicate GaveUp(f: State) {
    f.log == [] && f.clients != [] && f.clients[0].phase.Idle?
  }

  /** Some such run ends a single-attempt call with nothing committed. */
  ghost predicate CanGiveUp(c: Config, st: State, fn: Fn)
    requires Initial(st) && st.clients != []
  {
    var s1 := Step(c, st, Starts(0, fn, None));
    exists es :: Lonely(es) && RunOf(c, s1, es) && GaveUp(After(c, s1, es))
  }

  /** The first attempt on an up-to-date row, on its way to the commit, or there. */
  ghost predicate OnTheWay(c: Config, row: Row, fn: Fn, m: Val, next: Val, st: State) {
    && st.lazySaves == multiset{} && st.clients != []
    && (st.log == [] ==>
          var cl := st.clients[0];
          && st.row == row && cl.home < |st.slots| && st.slots[cl.home].None? == cl.phase.Loading?
          && cl.fn == fn
          && match cl.phase
             case Loading => true
             case Loaded(current, expected) => current == m && expected == HashOf(row)
             case Saving(current, next', valid, expected) =>
               next' == next && Some(valid) == c.parse(next) && expected == HashOf(row)
             case Guarding(_, next', valid) =>
               next' == next && Some(valid) == c.parse(next) && row.Present? && HashOf(row).None?
             case _ => false)
  }

  lemma StaysOnTheWay(c: Config, row: Row, fn: Fn, m: Val, next: Val, st: State, e: Event)
    requires !Stale(row) && Meaning(c, row) == Some(m) && fn(m) == Some(next) && c.parse(next).Some?
    requires OnTheWay(c, row, fn, m, next, st) && Enabled(st, e) && Lonely([e])
    ensures Step(c, st, e).log == [] ==> OnTheWay(c, row, fn, m, next, Step(c, st, e))
  {
    assert [e][0] == e;
  }

  lemma {:induction false} NeverGivesUp(c: Config, row: Row, fn: Fn, m: Val, next: Val, st: State, es: seq<Event>)
    requires !Stale(row) && Meaning(c, row) == Some(m) && fn(m) == Some(next) && c.parse(next).Some?
    requires (st.log == [] ==> OnTheWay(c, row, fn, m, next, st)) && Lonely(es) && RunOf(c, st, es)
    ensures !GaveUp(After(c, st, es))
    decreases |es|
  {
    if es != [] {
      if st.log == [] {
        assert Lonely([es[0]]);
        StaysOnTheWay(c, row, fn, m, next, st, es[0]);
      } else {
        LogGrows(c, st, es[0]);
      }
      NeverGivesUp(c, row, fn, m, next, Step(c, st, es[0]), es[1..]);
    }
  }

  lemma LogGrows(c: Config, st: State, e: Event)
    requires Enabled(st, e) && st.log != []
    ensures Step(c, st, e).log != []
  {
  }

  /** The re-save that a load of an old row fires lands before the write. */
  lemma ResavedBeforeWrite(c: Config, st: State, raw: Val, m: Val, next: Val) returns (es: seq<Event>)
    requires st.clients != [] && st.clients[0].home < |st.slots| && st.clients[0].attempt >= st.clients[0].maxAttempts
    requires st.clients[0].phase.Loaded? && st.clients[0].phase.current == m && st.log == []
    requires st.clients[0].fn(m) == Some(next) && c.parse(next).Some?
    requires raw in st.lazySaves && c.parse(raw).Some? && st.row.Present?
    requires var h := st.clients[0].phase.expected; h.Some? ==> h.value.stamp != UpToDate
    ensures Lonely(es) && RunOf(c, st, es) && GaveUp(After(c, st, es))
  {
    var valid, h := c.parse(next).value, st.clients[0].phase.expected;
    var s1 := Move(st, 0, Saving(m, next, valid, h));
    var s2 := Step(c, s1, LazySave(raw));
    assert s2.row.Present? && HashOf(s2.row).Some? && HashOf(s2.row) != h;
    if h.Some? {
      es := [Saves(0)] + [];
      RunCons(c, s2, Saves(0), Retried(s2, 0), []);
    } else {
      var s3 := Move(s2, 0, Guarding(m, next, valid));
      RunCons(c, s3, Guards(0), Retried(s3, 0), []);
      RunCons(c, s2, Inserts(0), s3, [Guards(0)] + []);
      es := [Inserts(0)] + ([Guards(0)] + []);
    }
    RunCons(c, s1, LazySave(raw), s2, es);
    RunCons(c, st, Decides(0), s1, [LazySave(raw)] + es);
    es := [Decides(0)] + ([LazySave(raw)] + es);
  }

  lemma GivesUpOnOldShape(c: Config, st: State, fn: Fn, next: Val)
    requires Initial(st) && st.clients != [] && Stale(st.row) && st.row.stamp == OldShape
    requires Meaning(c, st.row).Some? && fn(Meaning(c, st.row).value) == Some(next) && c.parse(next).Some?
    ensures CanGiveUp(c, st, fn)
  {
    var s1 := Step(c, st, Starts(0, fn, None));
    var s2 := Read(c, s1, 0);
    var es := ResavedBeforeWrite(c, s2, st.row.value, Meaning(c, st.row).value, next);
    RunCons(c, s1, Reads(0), s2, es);
    assert Lonely([Reads(0)] + es);
  }

  lemma UnhashedOldKeyLoads(c: Config, st: State, fn: Fn, m: Val) returns (s1: State, s2: State)
    requires st.clients != [] && st.clients[0].home < |st.slots| && st.log == []
    requires st.row.Present? && !st.row.hashed && st.row.stamp == OldKey && Meaning(c, st.row) == Some(m)
    requires st.clients[0] == Client(st.clients[0].home, Loading, fn, 1, 1, 0)
    ensures Enabled(st, Reads(0)) && Step(c, st, Reads(0)) == s1
    ensures Enabled(s1, Converges(0)) && Step(c, s1, Converges(0)) == s2
    ensures s2.clients != [] && s2.clients[0] == Client(st.clients[0].home, Loaded(m, None), fn, 1, 1, 1)
    ensures s2.clients[0].home < |s2.slots| && s2.log == [] && s2.row.Present? && st.row.value in s2.lazySaves
  {
    s1 := Read(c, st, 0);
    assert s1.clients[0].phase == Converging(st.row.value, None);
    s2 := Step(c, s1, Converges(0));
  }

  lemma UnhashedOldKeyGivesUp(c: Config, st: State, fn: Fn, m: Val, next: Val) returns (es: seq<Event>)
    requires st.clients != [] && st.clients[0].home < |st.slots| && st.log == []
    requires st.row.Present? && !st.row.hashed && st.row.stamp == OldKey && Meaning(c, st.row) == Some(m)
    requires st.clients[0] == Client(st.clients[0].home, Loading, fn, 1, 1, 0)
    requires fn(m) == Some(next) && c.parse(next).Some?
    ensures Lonely(es) && RunOf(c, st, es) && GaveUp(After(c, st, es))
  {
    hide Step, Enabled;
    var s1, s2 := UnhashedOldKeyLoads(c, st, fn, m);
    es := ResavedBeforeWrite(c, s2, st.row.value, m, next);
    RunCons(c, s1, Converges(0), s2, es);
    es := [Converges(0)] + es;
    RunCons(c, st, Reads(0), s1, es);
    es := [Reads(0)] + es;
  }

  lemma GivesUpOnUnhashedOldKey(c: Config, st: State, fn: Fn, next: Val)
    requires Initial(st) && st.clients != [] && st.row.Present? && !st.row.hashed && st.row.stamp == OldKey
    requires Meaning(c, st.row).Some? && fn(Meaning(c, st.row).value) == Some(next) && c.parse(next).Some?
    ensures CanGiveUp(c, st, fn)
  {
    var s1 := Step(c, st, Starts(0, fn, None));
    var es := UnhashedOldKeyGivesUp(c, s1, fn, Meaning(c, st.row).value, next);
  }

  lemma GivesUpOnHashedOldKey(c: Config, st: State, fn: Fn, next: Val)
    requires Initial(st) && st.clients != [] && st.row.Present? && st.row.hashed && st.row.stamp == OldKey
    requires Meaning(c, st.row).Some? && fn(Meaning(c, st.row).value) == Some(next) && c.parse(next).Some?
    ensures CanGiveUp(c, st, fn)
  {
    ConflictsWithItself(c, st, fn, next);
    var es := [Reads(0), Converges(0), Decides(0), Saves(0)];
    assert [Starts(0, fn, None), Reads(0), Converges(0), Decides(0), Saves(0)][1..] == es;
    assert Lonely(es);
  }

  /** With nobody else around, a `mutate` with a single attempt, whose transform the schema accepts, can give up
      with a conflict exactly when the row needs a lazy upgrade: the load rewrites the row, or has it rewritten,
      between its own read and its own write. */
  lemma GivesUpAloneIff(c: Config, st: State, fn: Fn, next: Val)
    requires Initial(st) && st.clients != [] && Meaning(c, st.row).Some?
    requires fn(Meaning(c, st.row).value) == Some(next) && c.parse(next).Some?
    ensures CanGiveUp(c, st, fn) <==> Stale(st.row)
  {
    if Stale(st.row) {
      if st.row.stamp == OldShape {
        GivesUpOnOldShape(c, st, fn, next);
      } else if st.row.hashed {
        GivesUpOnHashedOldKey(c, st, fn, next);
      } else {
        GivesUpOnUnhashedOldKey(c, st, fn, next);
      }
    } else {
      var s1 := Step(c, st, Starts(0, fn, None));
      forall es | Lonely(es) && RunOf(c, s1, es) ensures !GaveUp(After(c, s1, es)) {
        NeverGivesUp(c, st.row, fn, Meaning(c, st.row).value, next, s1, es);
      }
    }
  }
}
