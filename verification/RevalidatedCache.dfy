/**
 * The cache in front of a content-hashed store (`loadRevalidated`, `set`, `mutate` and `createMany` of
 * core/store.ts): a slot is served only after the server's hash has matched it.
 */
module RevalidatedCache {
  import opened Wrappers

  type Val = string
  type StoreKey = string

  /** The versioned payload of a row. Its digest is the row's content hash. */
  datatype Payload = Payload(data: Val, v: nat)

  datatype Row = Row(payload: Payload, hashed: bool)

  datatype Entry = Entry(data: Val, hash: Option<Payload>)

  /** `perUser` stores validate what they serve; `perKey` stores validate only what a full load reads. */
  datatype Config = Config(
    perUser: bool,
    version: nat,
    migrate: Payload -> Option<Val>,
    parse: Val -> Option<Val>,
    empty: Val
  )

  /** Migrating from the current version is nothing, and the schema accepts its own output as it is. */
  ghost predicate Proper(c: Config) {
    && (forall data :: c.migrate(Payload(data, c.version)) == Some(data))
    && (forall data :: c.parse(data).Some? ==> c.parse(c.parse(data).value) == c.parse(data))
  }

  function HashOf(row: Option<Row>): Option<Payload> {
    if row.Some? && row.value.hashed then Some(row.value.payload) else None
  }

  /** `None` stands for a load that throws. */
  function LoadFull(c: Config, row: Option<Row>): Option<Entry> {
    var raw := if row.None? then Some(c.empty) else c.migrate(row.value.payload);
    if raw.None? then None
    else if c.perUser then Some(Entry(raw.value, HashOf(row)))
    else if c.parse(raw.value).None? then None
    else Some(Entry(c.parse(raw.value).value, HashOf(row)))
  }

  /** What the caller of a load gets from an entry. */
  function Answer(c: Config, e: Entry): Option<Val> {
    if c.perUser then c.parse(e.data) else Some(e.data)
  }

  function FullAnswer(c: Config, row: Option<Row>): Option<Val> {
    var e := LoadFull(c, row);
    if e.None? then None else Answer(c, e.value)
  }

  predicate Served(row: Option<Row>, slot: Option<Entry>) {
    slot.Some? && slot.value.hash.Some? && HashOf(row) == slot.value.hash
  }

  /** The entry a revalidated load works with, and the slot it leaves. */
  function LoadRevalidated(c: Config, row: Option<Row>, slot: Option<Entry>): (Option<Entry>, Option<Entry>) {
    if Served(row, slot) then (slot, slot)
    else
      var full := LoadFull(c, row);
      if full.None? then (None, slot) else (full, full)
  }

  function Saved(c: Config, valid: Val): Row {
    Row(Payload(valid, c.version), true)
  }

  // ---------------------------------------------------------------------------------------------
  // The store
  // ---------------------------------------------------------------------------------------------

  /** Rows, cache slots, the write counter of the store's ranges, and the keys of the last write. */
  datatype State = State(rows: map<StoreKey, Row>, slots: map<StoreKey, Entry>, rangeEpoch: nat, writtenKeys: seq<StoreKey>)

  function RowAt(st: State, k: StoreKey): Option<Row> {
    if k in st.rows then Some(st.rows[k]) else None
  }

  function SlotAt(st: State, k: StoreKey): Option<Entry> {
    if k in st.slots then Some(st.slots[k]) else None
  }

  type Fn = Val -> Option<Val>

  datatype Op =
    | Load(k: StoreKey)
    | Set(k: StoreKey, data: Val)
    | Mutate(k: StoreKey, fn: Fn)
    | MutateLocked(k: StoreKey, fn: Fn)
    | CreateMany(entries: seq<(StoreKey, Val)>)
    | ForeignWrite(k: StoreKey, row: Row)
    | ForeignDelete(k: StoreKey)

  function WriteThrough(st: State, k: StoreKey, row: Row, e: Entry): State {
    State(st.rows[k := row], st.slots[k := e], st.rangeEpoch + 1, [k])
  }

  /** The load every `mutate` starts with: what its transform is given, the hash, and the state after. */
  function Loaded(c: Config, st: State, k: StoreKey): (Option<(Val, Option<Payload>)>, State) {
    var (e, slot) := LoadRevalidated(c, RowAt(st, k), SlotAt(st, k));
    var st' := if slot.Some? then st.(slots := st.slots[k := slot.value]) else st;
    if e.None? || Answer(c, e.value).None? then (None, st')
    else (Some((Answer(c, e.value).value, e.value.hash)), st')
  }

  function Mutated(c: Config, st: State, k: StoreKey, fn: Fn): (Option<Val>, State) {
    var (loaded, st') := Loaded(c, st, k);
    if loaded.None? then (None, st')
    else
      var next := fn(loaded.value.0);
      if next.None? || c.parse(next.value).None? then (None, st')
      else
        var row := Saved(c, c.parse(next.value).value);
        if loaded.value.1 == Some(row.payload) then (next, st')
        else (next, WriteThrough(st', k, row, Entry(next.value, Some(row.payload))))
  }

  function MutatedLocked(c: Config, st: State, k: StoreKey, fn: Fn): (Option<Val>, State) {
    var (loaded, st') := Loaded(c, st, k);
    if loaded.None? then (None, st')
    else
      var next := fn(loaded.value.0);
      if next.None? || c.parse(next.value).None? || HashOf(RowAt(st, k)) != loaded.value.1 then (None, st')
      else
        var row := Saved(c, c.parse(next.value).value);
        (next, WriteThrough(st', k, row, Entry(next.value, Some(row.payload))))
  }

  /** All entries are validated before anything is written, and inserting an existing key fails. */
  predicate CanCreate(c: Config, st: State, entries: seq<(StoreKey, Val)>) {
    && (forall i :: 0 <= i < |entries| ==> c.parse(entries[i].1).Some? && entries[i].0 !in st.rows)
    && (forall i, j :: 0 <= i < j < |entries| ==> entries[i].0 != entries[j].0)
  }

  function Created(c: Config, st: State, entries: seq<(StoreKey, Val)>, n: nat): State
    requires n <= |entries| && CanCreate(c, st, entries)
  {
    if n == 0 then st
    else
      var st' := Created(c, st, entries, n - 1);
      var (k, data) := entries[n - 1];
      var row := Saved(c, c.parse(data).value);
      st'.(rows := st'.rows[k := row], slots := st'.slots[k := Entry(row.payload.data, Some(row.payload))])
  }

  function Keys(entries: seq<(StoreKey, Val)>): seq<StoreKey> {
    seq(|entries|, i requires 0 <= i < |entries| => entries[i].0)
  }

  function Step(c: Config, st: State, op: Op): State {
    match op
    case Load(k) => Loaded(c, st, k).1
    case Set(k, data) =>
      if c.parse(data).None? then st
      else
        var row := Saved(c, c.parse(data).value);
        WriteThrough(st, k, row, Entry(row.payload.data, Some(row.payload)))
    case Mutate(k, fn) => Mutated(c, st, k, fn).1
    case MutateLocked(k, fn) => MutatedLocked(c, st, k, fn).1
    case CreateMany(entries) =>
      if entries == [] || !CanCreate(c, st, entries) then st
      else Created(c, st, entries, |entries|).(rangeEpoch := st.rangeEpoch + 1, writtenKeys := Keys(entries))
    case ForeignWrite(k, row) => st.(rows := st.rows[k := row])
    case ForeignDelete(k) => st.(rows := st.rows - {k})
  }

  function After(c: Config, st: State, ops: seq<Op>): State
    decreases |ops|
  {
    if ops == [] then st else After(c, Step(c, st, ops[0]), ops[1..])
  }

  /** Operations take effect one after the other. */
  lemma {:induction false} OneAfterTheOther(c: Config, st: State, ops: seq<Op>, op: Op)
    ensures After(c, st, []) == st && After(c, st, ops + [op]) == Step(c, After(c, st, ops), op)
    decreases |ops|
  {
    if ops == [] {
      assert [op][1..] == [];
    } else {
      OneAfterTheOther(c, Step(c, st, ops[0]), ops[1..], op);
      assert (ops + [op])[1..] == ops[1..] + [op];
    }
  }

  // ---------------------------------------------------------------------------------------------
  // Transparency
  // ---------------------------------------------------------------------------------------------

  /** Serving the entry is the same as loading any row with its hash. Nothing else is asked of the state. */
  ghost predicate Sound(c: Config, e: Entry) {
    forall row :: e.hash.Some? && HashOf(row) == e.hash ==> Answer(c, e) == FullAnswer(c, row)
  }

  ghost predicate AllSound(c: Config, st: State) {
    forall k :: k in st.slots ==> Sound(c, st.slots[k])
  }

  /** A value the schema leaves unchanged: what a transform must give on a `perKey` store. */
  predicate Fixed(c: Config, v: Val) {
    c.perUser || c.parse(v) == Some(v)
  }

  lemma FullLoadIsSound(c: Config, row: Option<Row>)
    requires LoadFull(c, row).Some?
    ensures Sound(c, LoadFull(c, row).value)
  {
    var e := LoadFull(c, row).value;
    forall row' | e.hash.Some? && HashOf(row') == e.hash ensures Answer(c, e) == FullAnswer(c, row') {
      assert row'.value.payload == row.value.payload;
    }
  }

  /** The entry a write leaves behind is sound exactly when the schema leaves the cached value unchanged, or
      validates it on every serve anyway. */
  lemma WriteEntrySoundIff(c: Config, data: Val)
    requires Proper(c) && c.parse(data).Some?
    ensures Sound(c, Entry(data, Some(Saved(c, c.parse(data).value).payload))) <==> Fixed(c, data)
  {
    var valid := c.parse(data).value;
    var e := Entry(data, Some(Saved(c, valid).payload));
    assert c.migrate(Payload(valid, c.version)) == Some(valid);
    forall row | HashOf(row) == e.hash ensures FullAnswer(c, row) == Some(valid) {
      assert row.value.payload == Payload(valid, c.version);
    }
    var written := Some(Saved(c, valid));
    assert HashOf(written) == e.hash && FullAnswer(c, written) == Some(valid);
  }

  lemma ParsedIsFixed(c: Config, data: Val)
    requires Proper(c) && c.parse(data).Some?
    ensures Fixed(c, c.parse(data).value)
  {
  }

  lemma LoadKeepsSound(c: Config, st: State, k: StoreKey)
    requires AllSound(c, st)
    ensures AllSound(c, Loaded(c, st, k).1)
  {
    if LoadFull(c, RowAt(st, k)).Some? {
      FullLoadIsSound(c, RowAt(st, k));
    }
  }

  /** No transform gives a value the schema would change. */
  ghost predicate FixedOp(c: Config, op: Op) {
    op.Mutate? || op.MutateLocked? ==> forall v :: op.fn(v).Some? ==> Fixed(c, op.fn(v).value)
  }

  lemma {:induction false} CreateKeepsSound(c: Config, st: State, entries: seq<(StoreKey, Val)>, n: nat)
    requires Proper(c) && AllSound(c, st) && n <= |entries| && CanCreate(c, st, entries)
    ensures AllSound(c, Created(c, st, entries, n))
  {
    if n > 0 {
      CreateKeepsSound(c, st, entries, n - 1);
      var valid := c.parse(entries[n - 1].1).value;
      ParsedIsFixed(c, entries[n - 1].1);
      WriteEntrySoundIff(c, valid);
    }
  }

  lemma MutateKeepsSound(c: Config, st: State, k: StoreKey, fn: Fn)
    requires Proper(c) && AllSound(c, st) && forall v :: fn(v).Some? ==> Fixed(c, fn(v).value)
    ensures AllSound(c, Mutated(c, st, k, fn).1) && AllSound(c, MutatedLocked(c, st, k, fn).1)
  {
    LoadKeepsSound(c, st, k);
    var (loaded, _) := Loaded(c, st, k);
    if loaded.Some? && fn(loaded.value.0).Some? && c.parse(fn(loaded.value.0).value).Some? {
      WriteEntrySoundIff(c, fn(loaded.value.0).value);
    }
  }

  lemma StepKeepsSound(c: Config, st: State, op: Op)
    requires Proper(c) && AllSound(c, st) && FixedOp(c, op)
    ensures AllSound(c, Step(c, st, op))
  {
    match op
    case Load(k) => LoadKeepsSound(c, st, k);
    case Set(k, data) =>
      if c.parse(data).Some? {
        ParsedIsFixed(c, data);
        WriteEntrySoundIff(c, c.parse(data).value);
      }
    case Mutate(k, fn) => MutateKeepsSound(c, st, k, fn);
    case MutateLocked(k, fn) => MutateKeepsSound(c, st, k, fn);
    case CreateMany(entries) =>
      if CanCreate(c, st, entries) {
        CreateKeepsSound(c, st, entries, |entries|);
      }
    case ForeignWrite(_, _) =>
    case ForeignDelete(_) =>
  }

  lemma {:induction false} RunKeepsSound(c: Config, st: State, ops: seq<Op>)
    requires Proper(c) && AllSound(c, st) && forall i :: 0 <= i < |ops| ==> FixedOp(c, ops[i])
    ensures AllSound(c, After(c, st, ops))
    decreases |ops|
  {
    if ops != [] {
      StepKeepsSound(c, st, ops[0]);
      RunKeepsSound(c, Step(c, st, ops[0]), ops[1..]);
    }
  }

  /** What a load answers. */
  function Loads(c: Config, st: State, k: StoreKey): Option<Val> {
    var loaded := Loaded(c, st, k).0;
    if loaded.None? then None else Some(loaded.value.0)
  }

  /** Transparency over every run of writes, loads and foreign writes: a load, served from the cache or not,
      answers what the full load would. */
  lemma CacheIsTransparent(c: Config, st: State, ops: seq<Op>, k: StoreKey)
    requires Proper(c) && AllSound(c, st) && forall i :: 0 <= i < |ops| ==> FixedOp(c, ops[i])
    ensures var f := After(c, st, ops); Loads(c, f, k) == FullAnswer(c, RowAt(f, k))
  {
    RunKeepsSound(c, st, ops);
    var f := After(c, st, ops);
    if Served(RowAt(f, k), SlotAt(f, k)) {
      assert Sound(c, f.slots[k]);
    }
  }

  /** `mutate` caches what its transform gave, not what it stored. On either kind of `mutate`, the next load
      of the key is the full load's answer exactly when the schema leaves that value unchanged, or the store
      is `perUser`. */
  lemma RawNextServedIff(c: Config, st: State, k: StoreKey, fn: Fn, locked: bool)
    requires Proper(c) && AllSound(c, st)
    requires var out := if locked then MutatedLocked(c, st, k, fn) else Mutated(c, st, k, fn);
             out.0.Some? && out.1.rangeEpoch > st.rangeEpoch
    ensures var (next, f) := if locked then MutatedLocked(c, st, k, fn) else Mutated(c, st, k, fn);
            Loads(c, f, k) == FullAnswer(c, RowAt(f, k)) <==> Fixed(c, next.value)
  {
    var (next, f) := if locked then MutatedLocked(c, st, k, fn) else Mutated(c, st, k, fn);
    var valid := c.parse(next.value).value;
    assert RowAt(f, k) == Some(Saved(c, valid)) && SlotAt(f, k) == Some(Entry(next.value, Some(Payload(valid, c.version))));
    assert c.migrate(Payload(valid, c.version)) == Some(valid);
    assert FullAnswer(c, RowAt(f, k)) == Some(valid);
  }

  /** A write is skipped only when it would have stored exactly what is stored. */
  lemma SkippedWriteChangesNothing(c: Config, st: State, k: StoreKey, fn: Fn)
    requires Mutated(c, st, k, fn).0.Some? && Mutated(c, st, k, fn).1.rangeEpoch == st.rangeEpoch
    ensures var (next, f) := Mutated(c, st, k, fn);
            && f.rows == st.rows && c.parse(next.value).Some?
            && RowAt(st, k) == Some(Saved(c, c.parse(next.value).value))
  {
  }

  // ---------------------------------------------------------------------------------------------
  // What each operation does
  // ---------------------------------------------------------------------------------------------

  /** A full load answers the schema's reading of the stored value, brought to the current version, or of the empty
      value where there is no row; with the row's hash, if it has one. */
  lemma FullAnswerIs(c: Config, row: Option<Row>)
    requires Proper(c)
    ensures var raw := if row.None? then Some(c.empty) else c.migrate(row.value.payload);
            FullAnswer(c, row) == if raw.None? then None else c.parse(raw.value)
    ensures LoadFull(c, row).Some? ==>
              LoadFull(c, row).value.hash == if row.Some? && row.value.hashed then Some(row.value.payload) else None
  {
  }

  /** `k` alone is written: its row holds `valid` at the current version under its hash, the ranges see it, and the
      next load answers `loaded`, from the cache. */
  ghost predicate Writes(c: Config, st: State, f: State, k: StoreKey, valid: Val, loaded: Val) {
    && f.rows == st.rows[k := Row(Payload(valid, c.version), true)]
    && f.rangeEpoch == st.rangeEpoch + 1 && f.writtenKeys == [k]
    && (forall x :: x in st.slots && x != k ==> x in f.slots && f.slots[x] == st.slots[x])
    && Loads(c, f, k) == Some(loaded) && Served(RowAt(f, k), SlotAt(f, k))
  }

  /** A load of a hashed row leaves it to be served from the cache. */
  lemma LoadFillsTheSlot(c: Config, st: State, k: StoreKey)
    requires Loaded(c, st, k).0.Some? && HashOf(RowAt(st, k)).Some?
    ensures var f := Step(c, st, Load(k)); f.rows == st.rows && Served(RowAt(f, k), SlotAt(f, k))
  {
  }

  /** What another device writes or deletes is what the next load answers. */
  lemma ForeignWritesAreSeen(c: Config, st: State, k: StoreKey, row: Row)
    requires Proper(c) && AllSound(c, st)
    ensures Loads(c, Step(c, st, ForeignWrite(k, row)), k) == FullAnswer(c, Some(row))
    ensures Loads(c, Step(c, st, ForeignDelete(k)), k) == FullAnswer(c, None)
  {
    CacheIsTransparent(c, Step(c, st, ForeignWrite(k, row)), [], k);
    CacheIsTransparent(c, Step(c, st, ForeignDelete(k)), [], k);
  }

  /** `set` stores the validated value, and a load then answers it; a value the schema rejects changes nothing. */
  lemma SetIsLoaded(c: Config, st: State, k: StoreKey, data: Val)
    requires Proper(c)
    ensures var f := Step(c, st, Set(k, data));
            if c.parse(data).Some? then Writes(c, st, f, k, c.parse(data).value, c.parse(data).value) else f == st
  {
  }

  /** A load gives what the full load would, with the row's hash, and touches no slot but its own. */
  lemma LoadedIsFull(c: Config, st: State, k: StoreKey)
    requires AllSound(c, st)
    ensures var (loaded, f) := Loaded(c, st, k);
            && (loaded.Some? <==> FullAnswer(c, RowAt(st, k)).Some?)
            && (loaded.Some? ==> loaded.value.0 == FullAnswer(c, RowAt(st, k)).value
                                 && loaded.value.1 == HashOf(RowAt(st, k)))
            && f == st.(slots := f.slots) && (forall x :: x in st.slots && x != k ==> x in f.slots && f.slots[x] == st.slots[x])
  {
    if Served(RowAt(st, k), SlotAt(st, k)) {
      assert Sound(c, st.slots[k]);
    }
  }

  lemma WrittenThrough(c: Config, st: State, k: StoreKey, next: Val)
    requires Proper(c) && c.parse(next).Some?
    ensures var valid := c.parse(next).value;
            var row := Saved(c, valid);
            Writes(c, st, WriteThrough(st, k, row, Entry(next, Some(row.payload))), k, valid, if c.perUser then valid else next)
  {
  }

  /** What a `mutate` that transforms what a load answers may come to: it changes no row but its own, which holds the
      validated result; a load then answers that, or the raw result on a store that does not validate what it
      serves. A transform that throws or gives what the schema rejects changes no row. */
  ghost predicate Transforms(c: Config, st: State, k: StoreKey, fn: Fn, next: Option<Val>, f: State) {
    var read := FullAnswer(c, RowAt(st, k));
    && (next.Some? <==> read.Some? && fn(read.value).Some? && c.parse(fn(read.value).value).Some?)
    && (next.None? ==> f.rows == st.rows && f.rangeEpoch == st.rangeEpoch)
    && (next.Some? ==> next == fn(read.value))
  }

  /** A write is left out exactly when the row holds the validated result already, at the current version and under
      its hash. */
  lemma MutateStores(c: Config, st: State, k: StoreKey, fn: Fn)
    requires Proper(c) && AllSound(c, st)
    ensures var next, f := Mutated(c, st, k, fn).0, Step(c, st, Mutate(k, fn));
            && Transforms(c, st, k, fn, next, f)
            && (next.Some? ==>
                  var valid := c.parse(next.value).value;
                  if RowAt(st, k) == Some(Row(Payload(valid, c.version), true)) then f == st.(slots := f.slots)
                  else Writes(c, st, f, k, valid, if c.perUser then valid else next.value))
  {
    var (loaded, st') := Loaded(c, st, k);
    LoadedIsFull(c, st, k);
    if loaded.Some? && fn(loaded.value.0).Some? && c.parse(fn(loaded.value.0).value).Some? {
      WrittenThrough(c, st', k, fn(loaded.value.0).value);
    }
  }

  lemma MutateLockedStores(c: Config, st: State, k: StoreKey, fn: Fn)
    requires Proper(c) && AllSound(c, st)
    ensures var next, f := MutatedLocked(c, st, k, fn).0, Step(c, st, MutateLocked(k, fn));
            && Transforms(c, st, k, fn, next, f)
            && (next.Some? ==>
                  var valid := c.parse(next.value).value;
                  Writes(c, st, f, k, valid, if c.perUser then valid else next.value))
  {
    var (loaded, st') := Loaded(c, st, k);
    LoadedIsFull(c, st, k);
    if loaded.Some? && fn(loaded.value.0).Some? && c.parse(fn(loaded.value.0).value).Some? {
      WrittenThrough(c, st', k, fn(loaded.value.0).value);
    }
  }

  /** `createMany` creates every entry, validated, and a load of each then answers it; or it changes nothing. */
  lemma {:induction false} CreatedEntries(c: Config, st: State, entries: seq<(StoreKey, Val)>, n: nat, k: StoreKey)
    requires n <= |entries| && CanCreate(c, st, entries)
    ensures var f := Created(c, st, entries, n);
            && (forall i :: 0 <= i < n && entries[i].0 == k ==>
                  && k in f.rows && f.rows[k] == Row(Payload(c.parse(entries[i].1).value, c.version), true)
                  && k in f.slots && f.slots[k] == Entry(c.parse(entries[i].1).value, Some(f.rows[k].payload)))
            && ((forall i :: 0 <= i < n ==> entries[i].0 != k) ==>
                  RowAt(f, k) == RowAt(st, k) && SlotAt(f, k) == SlotAt(st, k))
            && f.rangeEpoch == st.rangeEpoch && f.writtenKeys == st.writtenKeys
  {
    if n > 0 {
      CreatedEntries(c, st, entries, n - 1, k);
    }
  }

  lemma CreateManyIsLoaded(c: Config, st: State, entries: seq<(StoreKey, Val)>, i: nat)
    requires Proper(c) && i < |entries|
    ensures var f := Step(c, st, CreateMany(entries));
            var allowed := forall a :: 0 <= a < |entries| ==>
                             && c.parse(entries[a].1).Some? && entries[a].0 !in st.rows
                             && forall b :: 0 <= b < |entries| && b != a ==> entries[b].0 != entries[a].0;
            if allowed then
              && f.rangeEpoch == st.rangeEpoch + 1 && |f.writtenKeys| == |entries| && f.writtenKeys[i] == entries[i].0
              && Loads(c, f, entries[i].0) == c.parse(entries[i].1)
              && Served(RowAt(f, entries[i].0), SlotAt(f, entries[i].0))
            else f == st
  {
    if CanCreate(c, st, entries) {
      CreatedEntries(c, st, entries, |entries|, entries[i].0);
    }
  }

  // ---------------------------------------------------------------------------------------------
  // The store as its methods change it
  // ---------------------------------------------------------------------------------------------

  class CachedStore {
    const config: Config
    var rows: map<StoreKey, Row>
    var slots: map<StoreKey, Entry>
    var rangeEpoch: nat
    var writtenKeys: seq<StoreKey>

    ghost function Abs(): State
      reads this
    {
      State(rows, slots, rangeEpoch, writtenKeys)
    }

    constructor (c: Config)
      ensures config == c && Abs() == State(map[], map[], 0, []) && AllSound(c, Abs())
    {
      config, rows, slots, rangeEpoch, writtenKeys := c, map[], map[], 0, [];
    }

    method WriteThroughCache(k: StoreKey, data: Val, hash: Option<Payload>)
      modifies this`slots
      ensures slots == old(slots)[k := Entry(data, hash)]
    {
      slots := slots[k := Entry(data, hash)];
    }

    method BumpRangeEpoch(keys: seq<StoreKey>)
      modifies this`rangeEpoch, this`writtenKeys
      ensures rangeEpoch == old(rangeEpoch) + 1 && writtenKeys == keys
    {
      rangeEpoch, writtenKeys := rangeEpoch + 1, keys;
    }

    method LoadInternal(k: StoreKey) returns (e: Option<Entry>)
      modifies this`slots
      ensures var (loaded, slot) := LoadRevalidated(config, old(RowAt(Abs(), k)), old(SlotAt(Abs(), k)));
              e == loaded && slots == if slot.Some? then old(slots)[k := slot.value] else old(slots)
    {
      var row := if k in rows then Some(rows[k]) else None;
      if k in slots && slots[k].hash.Some? {
        var serverHash := HashOf(row);
        if serverHash.Some? && serverHash == slots[k].hash {
          assert old(slots)[k := slots[k]] == slots;
          return Some(slots[k]);
        }
      }
      var full := LoadFull(config, row);
      if full.None? {
        if k in slots {
          assert old(slots)[k := slots[k]] == slots;
        }
        return None;
      }
      slots := slots[k := full.value];
      return full;
    }

    method SetValue(k: StoreKey, data: Val) returns (ok: bool)
      modifies this
      ensures Abs() == Step(config, old(Abs()), Set(k, data)) && ok == config.parse(data).Some?
    {
      var valid := config.parse(data);
      if valid.None? {
        return false;
      }
      var row := Saved(config, valid.value);
      rows := rows[k := row];
      WriteThroughCache(k, valid.value, Some(row.payload));
      BumpRangeEpoch([k]);
      return true;
    }

    method MutateValue(k: StoreKey, fn: Fn) returns (r: Option<Val>)
      modifies this
      ensures (r, Abs()) == Mutated(config, old(Abs()), k, fn)
    {
      var e := LoadInternal(k);
      if e.None? || Answer(config, e.value).None? {
        return None;
      }
      var next := fn(Answer(config, e.value).value);
      if next.None? {
        return None;
      }
      var validated := config.parse(next.value);
      if validated.None? {
        return None;
      }
      var row := Saved(config, validated.value);
      if e.value.hash.Some? && e.value.hash.value == row.payload {
        return next;
      }
      rows := rows[k := row];
      WriteThroughCache(k, next.value, Some(row.payload));
      BumpRangeEpoch([k]);
      return next;
    }

    method InsertMany(entries: seq<(StoreKey, Val)>)
      requires CanCreate(config, Abs(), entries)
      modifies this`rows
      ensures rows == Created(config, old(Abs()), entries, |entries|).rows
    {
      for i := 0 to |entries|
        invariant rows == Created(config, old(Abs()), entries, i).rows
      {
        var (k, data) := entries[i];
        rows := rows[k := Saved(config, config.parse(data).value)];
      }
    }

    method CreateManyValues(entries: seq<(StoreKey, Val)>) returns (ok: bool)
      modifies this
      ensures Abs() == Step(config, old(Abs()), CreateMany(entries))
      ensures ok == CanCreate(config, old(Abs()), entries)
    {
      ok := CanCreate(config, State(rows, slots, rangeEpoch, writtenKeys), entries);
      if entries == [] || !ok {
        return;
      }
      InsertMany(entries);
      for i := 0 to |entries|
        invariant rows == Created(config, old(Abs()), entries, |entries|).rows
        invariant slots == Created(config, old(Abs()), entries, i).slots
        invariant rangeEpoch == old(rangeEpoch) && writtenKeys == old(writtenKeys)
      {
        var (k, data) := entries[i];
        var row := Saved(config, config.parse(data).value);
        WriteThroughCache(k, row.payload.data, Some(row.payload));
      }
      CreatedKeepsCounters(config, old(Abs()), entries, |entries|);
      BumpRangeEpoch(Keys(entries));
    }
  }

  lemma {:induction false} CreatedKeepsCounters(c: Config, st: State, entries: seq<(StoreKey, Val)>, n: nat)
    requires n <= |entries| && CanCreate(c, st, entries)
    ensures Created(c, st, entries, n).rangeEpoch == st.rangeEpoch
  {
    if n > 0 {
      CreatedKeepsCounters(c, st, entries, n - 1);
    }
  }
}
