/**
 * The batch engine of a rotation (`migrateRotationBatch` of core/rotationMigration.ts): rows are listed,
 * re-encrypted and saved under a content-hash guard while their owners go on editing them.
 */
module RotationBatch {
  import opened Wrappers
  import opened Versioning
  import opened BlobCodec
  import opened RotationPass
  import opened RotationMigration
  import opened RotationRuns
  import Crypto

  /** The conditional write: `None` expects a row without a hash, or no row. */
  predicate Matches(rows: Table, k: RowKey, expected: Option<Mac>) {
    if k in rows then rows[k].contentHash == expected else expected.None?
  }

  datatype BatchResult = BatchResult(
    migrated: nat,
    alreadyMigrated: nat,
    conflicted: nat,
    failed: seq<RowKey>,
    processedThisBatch: nat
  )

  /** What becomes of one listed row when the table has meanwhile become `rows`. */
  datatype Fate = Fails | AlreadyMigrated | Conflicts | Migrates(saved: BlobRecord)

  function FateOf(f: Decision, row: Row, rows: Table): Fate {
    var out := f(row.0, row.1);
    if out.Failure? then Fails
    else if out.value.None? then AlreadyMigrated
    else if Matches(rows, row.0, row.1.contentHash) then Migrates(out.value.value)
    else Conflicts
  }

  function Save(row: Row, fate: Fate, rows: Table): Table {
    if fate.Migrates? then rows[row.0 := fate.saved] else rows
  }

  function Count(row: Row, fate: Fate, b: BatchResult): BatchResult {
    match fate
    case Fails => b.(failed := b.failed + [row.0])
    case AlreadyMigrated => b.(alreadyMigrated := b.alreadyMigrated + 1)
    case Conflicts => b.(conflicted := b.conflicted + 1)
    case Migrates(_) => b.(migrated := b.migrated + 1)
  }

  /** The table and the counters after `n` rows, when others write `edits[i]` before the `i`th save. */
  function Batched(f: Decision, listed: seq<Row>, edits: seq<Table>, rows: Table, n: nat): (Table, BatchResult)
    requires n <= |listed| == |edits|
  {
    if n == 0 then (rows, BatchResult(0, 0, 0, [], |listed|))
    else
      var (before, b) := Batched(f, listed, edits, rows, n - 1);
      var edited := before + edits[n - 1];
      var fate := FateOf(f, listed[n - 1], edited);
      (Save(listed[n - 1], fate, edited), Count(listed[n - 1], fate, b))
  }

  method MigrateRotationBatch(f: Decision, listed: seq<Row>, edits: seq<Table>, store: StoredRows)
    returns (b: BatchResult)
    requires |edits| == |listed|
    modifies store
    ensures (store.rows, b) == Batched(f, listed, edits, old(store.rows), |listed|)
  {
    var migrated: nat, alreadyMigrated: nat, conflicted: nat, failed: seq<RowKey> := 0, 0, 0, [];
    for i := 0 to |listed|
      invariant (store.rows, BatchResult(migrated, alreadyMigrated, conflicted, failed, |listed|))
                == Batched(f, listed, edits, old(store.rows), i)
    {
      store.rows := store.rows + edits[i];
      var (k, record) := listed[i];
      var result := f(k, record);
      if result.Failure? {
        failed := failed + [k];
        continue;
      }
      if result.value.None? {
        alreadyMigrated := alreadyMigrated + 1;
        continue;
      }
      var ok := SaveIfMatch(store, k, result.value.value, record.contentHash);
      if ok {
        migrated := migrated + 1;
      } else {
        conflicted := conflicted + 1;
      }
    }
    b := BatchResult(migrated, alreadyMigrated, conflicted, failed, |listed|);
  }

  method SaveIfMatch(store: StoredRows, k: RowKey, record: BlobRecord, expected: Option<Mac>) returns (ok: bool)
    modifies store
    ensures ok == Matches(old(store.rows), k, expected)
    ensures store.rows == if ok then old(store.rows)[k := record] else old(store.rows)
  {
    ok := if k in store.rows then store.rows[k].contentHash == expected else expected.None?;
    if ok {
      store.Put(k, record);
    }
  }

  lemma {:induction false} EveryListedRowIsCounted(f: Decision, listed: seq<Row>, edits: seq<Table>, rows: Table, n: nat)
    requires n <= |listed| == |edits|
    ensures var b := Batched(f, listed, edits, rows, n).1;
            b.migrated + b.alreadyMigrated + b.conflicted + |b.failed| == n
            && b.processedThisBatch == |listed|
  {
    if n > 0 {
      EveryListedRowIsCounted(f, listed, edits, rows, n - 1);
    }
  }

  /** What became of the `i`th row: decided on the record that was listed, saved over the table as it was by then. */
  function FateAt(f: Decision, listed: seq<Row>, edits: seq<Table>, rows: Table, i: nat): Fate
    requires i < |listed| == |edits|
  {
    FateOf(f, listed[i], Batched(f, listed, edits, rows, i).0 + edits[i])
  }

  function CountFates(test: Fate -> bool, f: Decision, listed: seq<Row>, edits: seq<Table>, rows: Table, n: nat): nat
    requires n <= |listed| == |edits|
  {
    if n == 0 then 0
    else CountFates(test, f, listed, edits, rows, n - 1)
         + if test(FateAt(f, listed, edits, rows, n - 1)) then 1 else 0
  }

  /** Each counter counts its own: rows saved, rows that needed nothing, rows whose guard did not match; and the
      failures are the keys of exactly the rows that could not be decided. */
  lemma {:induction false} CountersMean(f: Decision, listed: seq<Row>, edits: seq<Table>, rows: Table, n: nat)
    requires n <= |listed| == |edits|
    ensures var b := Batched(f, listed, edits, rows, n).1;
            && b.migrated == CountFates((x: Fate) => x.Migrates?, f, listed, edits, rows, n)
            && b.alreadyMigrated == CountFates((x: Fate) => x.AlreadyMigrated?, f, listed, edits, rows, n)
            && b.conflicted == CountFates((x: Fate) => x.Conflicts?, f, listed, edits, rows, n)
            && forall k :: k in b.failed <==>
                 exists i :: 0 <= i < n && listed[i].0 == k && f(listed[i].0, listed[i].1).Failure?
  {
    if n > 0 {
      CountersMean(f, listed, edits, rows, n - 1);
      var b, before := Batched(f, listed, edits, rows, n).1, Batched(f, listed, edits, rows, n - 1).1;
      var fate := FateAt(f, listed, edits, rows, n - 1);
      assert b == Count(listed[n - 1], fate, before);
      assert fate.Fails? <==> f(listed[n - 1].0, listed[n - 1].1).Failure?;
    }
  }

  /** A row is decided from the record that was listed, and its save goes through exactly when the row still has
      the hash it was listed with, or neither has one. */
  lemma FateMeans(f: Decision, row: Row, rows: Table)
    ensures var out, fate := f(row.0, row.1), FateOf(f, row, rows);
            var stored := if row.0 in rows then rows[row.0].contentHash else None;
            && (fate.Fails? <==> out.Failure?) && (fate.AlreadyMigrated? <==> out == Success(None))
            && (fate.Migrates? <==> out.Success? && out.value.Some? && stored == row.1.contentHash)
            && (fate.Migrates? ==> out.value == Some(fate.saved))
            && Save(row, fate, rows) == if fate.Migrates? then rows[row.0 := fate.saved] else rows
  {
  }

  // ---------------------------------------------------------------------------------------------
  // No concurrent edit is lost
  // ---------------------------------------------------------------------------------------------

  /** The row's hash is the digest of the envelope inside it, under the handle it is encrypted for. */
  ghost predicate HonestUnder(c: Rotation, h: Handle, k: RowKey, r: BlobRecord) {
    exists data, v: int :: DecryptBlob(h, SlotOf(c, h, k), r.blob) == Success(ToEnvelope(data, v))
                           && r.contentHash == Some(Mac(h.key, ToEnvelope(data, v)))
  }

  ghost predicate Honest(c: Rotation, k: RowKey, r: BlobRecord) {
    HonestUnder(c, c.from, k, r) || HonestUnder(c, c.to, k, r)
  }

  function HeldBy(c: Rotation, data: Json, v: int): Option<Json> {
    var m := Migrated(data, v, c.schema.version, c.schema.migrators);
    if m.Success? then Some(m.value.0) else None
  }

  lemma EnvelopeDetermines(data: Json, v: int, data': Json, v': int)
    requires ToEnvelope(data, v) == ToEnvelope(data', v')
    ensures data == data' && v == v'
  {
    AuthenticatedVersionWins(data, v, 0);
    AuthenticatedVersionWins(data', v', 0);
  }

  /** What a row holds is in its payload. */
  lemma PayloadHolds(c: Rotation, h: Handle, k: RowKey, r: BlobRecord, data: Json, v: int)
    requires Proper(c) && (h == c.from || h == c.to)
    requires DecryptBlob(h, SlotOf(c, h, k), r.blob) == Success(ToEnvelope(data, v))
    ensures Holds(c, k, r) == HeldBy(c, data, v)
  {
    AuthenticatedVersionWins(data, v, DbVersion(r));
  }

  /** Two honest rows with one hash hold the same. */
  lemma SameHashSameContent(c: Rotation, k: RowKey, r: BlobRecord, r': BlobRecord)
    requires Proper(c) && Honest(c, k, r) && Honest(c, k, r') && r.contentHash == r'.contentHash
    ensures Holds(c, k, r) == Holds(c, k, r')
  {
    var h := if HonestUnder(c, c.from, k, r) then c.from else c.to;
    var h' := if HonestUnder(c, c.from, k, r') then c.from else c.to;
    var data, v: int :| DecryptBlob(h, SlotOf(c, h, k), r.blob) == Success(ToEnvelope(data, v))
                        && r.contentHash == Some(Mac(h.key, ToEnvelope(data, v)));
    var data', v': int :| DecryptBlob(h', SlotOf(c, h', k), r'.blob) == Success(ToEnvelope(data', v'))
                          && r'.contentHash == Some(Mac(h'.key, ToEnvelope(data', v')));
    EnvelopeDetermines(data, v, data', v');
    PayloadHolds(c, h, k, r, data, v);
    PayloadHolds(c, h', k, r', data', v');
  }

  /** With content-hashed rows a save that goes through replaces a row by one that holds the same, however
      the row was edited since it was listed; and a row that conflicts, fails or needed nothing is left
      exactly as it was found. */
  lemma SavesLoseNoEdit(c: Rotation, nonce: Crypto.Nonce, row: Row, rows: Table)
    requires Proper(c) && row.0 in rows && Honest(c, row.0, row.1) && Honest(c, row.0, rows[row.0])
    ensures var fate := FateOf(DecisionOf(c, nonce), row, rows);
            var after := Save(row, fate, rows);
            && after.Keys == rows.Keys
            && (forall k :: k in rows && (k != row.0 || !fate.Migrates?) ==> after[k] == rows[k])
            && Holds(c, row.0, after[row.0]) == Holds(c, row.0, rows[row.0])
            && (fate.Migrates? ==> AtNew(c, row.0, after[row.0]))
  {
    var fate := FateOf(DecisionOf(c, nonce), row, rows);
    if fate.Migrates? {
      SameHashSameContent(c, row.0, row.1, rows[row.0]);
      ReencryptedHolds(c, nonce, row.0, row.1);
    }
  }

  lemma SavedIsHonest(c: Rotation, nonce: Crypto.Nonce, row: Row, rows: Table)
    requires Proper(c) && Honest(c, row.0, row.1)
    ensures var fate := FateOf(DecisionOf(c, nonce), row, rows);
            fate.Migrates? ==> Honest(c, row.0, fate.saved)
  {
    var (k, r) := row;
    var fate := FateOf(DecisionOf(c, nonce), row, rows);
    if fate.Migrates? {
      var payload := ToEnvelope(DecodeOld(c, k, r).value.data, c.schema.version);
      Crypto.JsonRoundTrip(c.to.key, nonce, payload, NewSlot(c, k), SlotOf(c, c.to, k));
      assert HonestUnder(c, c.to, k, fate.saved);
    }
  }

  type Meaning = (RowKey, BlobRecord) -> Option<Json>

  /** Re-encrypting a row with the hash of the stored one changes neither its honesty nor its meaning. */
  ghost predicate Discreet(f: Decision, honest: RowTest, holds: Meaning) {
    forall k, r, current ::
      (&& honest(k, r) && honest(k, current) && r.contentHash == current.contentHash
       && f(k, r).Success? && f(k, r).value.Some?) ==>
      honest(k, f(k, r).value.value) && holds(k, f(k, r).value.value) == holds(k, current)
  }

  /** The table as the others leave it, had there been no batch. */
  function EditsOnly(rows: Table, edits: seq<Table>, n: nat): Table
    requires n <= |edits|
  {
    if n == 0 then rows else EditsOnly(rows, edits, n - 1) + edits[n - 1]
  }

  /** Row `k` is honest, and holds what it holds in `base`. */
  ghost predicate HoldsTheSame(honest: RowTest, holds: Meaning, k: RowKey, rows: Table, base: Table) {
    k in rows && k in base && honest(k, rows[k]) && holds(k, rows[k]) == holds(k, base[k])
  }

  lemma EditAndSave(f: Decision, honest: RowTest, holds: Meaning, k: RowKey, row: Row, rows: Table, base: Table, edit: Table)
    requires Discreet(f, honest, holds) && HoldsTheSame(honest, holds, k, rows, base)
    requires row.0 == k ==> honest(k, row.1)
    requires k in edit ==> honest(k, edit[k])
    ensures HoldsTheSame(honest, holds, k, Save(row, FateOf(f, row, rows + edit), rows + edit), base + edit)
  {
    assert HoldsTheSame(honest, holds, k, rows + edit, base + edit);
  }

  lemma {:induction false} DiscreetBatch(f: Decision, honest: RowTest, holds: Meaning, k: RowKey, listed: seq<Row>,
                                         edits: seq<Table>, rows: Table, n: nat)
    requires Discreet(f, honest, holds) && n <= |listed| == |edits| && k in rows && honest(k, rows[k])
    requires forall i :: 0 <= i < |listed| && listed[i].0 == k ==> honest(k, listed[i].1)
    requires forall i :: 0 <= i < |edits| && k in edits[i] ==> honest(k, edits[i][k])
    ensures HoldsTheSame(honest, holds, k, Batched(f, listed, edits, rows, n).0, EditsOnly(rows, edits, n))
  {
    if n > 0 {
      DiscreetBatch(f, honest, holds, k, listed, edits, rows, n - 1);
      var before := Batched(f, listed, edits, rows, n - 1).0;
      EditAndSave(f, honest, holds, k, listed[n - 1], before, EditsOnly(rows, edits, n - 1), edits[n - 1]);
    }
  }

  ghost function HonestFor(c: Rotation): RowTest {
    (k, r) => Honest(c, k, r)
  }

  function HeldFor(c: Rotation): Meaning {
    (k, r) => Holds(c, k, r)
  }

  lemma RotationIsDiscreet(c: Rotation, nonce: Crypto.Nonce)
    requires Proper(c)
    ensures Discreet(DecisionOf(c, nonce), HonestFor(c), HeldFor(c))
  {
    var f := DecisionOf(c, nonce);
    forall k, r, current | Honest(c, k, r) && Honest(c, k, current) && r.contentHash == current.contentHash
                           && f(k, r).Success? && f(k, r).value.Some?
      ensures Honest(c, k, f(k, r).value.value) && Holds(c, k, f(k, r).value.value) == Holds(c, k, current)
    {
      SavesLoseNoEdit(c, nonce, (k, r), map[k := current]);
      SavedIsHonest(c, nonce, (k, r), map[k := current]);
    }
  }

  /** A whole batch is invisible to readers of any content-hashed row, whatever the other rows are: with any
      edits by others between its reads and its saves, the row holds exactly what those edits alone would have
      left in it. */
  lemma BatchIsInvisible(c: Rotation, nonce: Crypto.Nonce, k: RowKey, listed: seq<Row>, edits: seq<Table>, rows: Table)
    requires Proper(c) && |listed| == |edits| && k in rows && Honest(c, k, rows[k])
    requires forall i :: 0 <= i < |listed| && listed[i].0 == k ==> Honest(c, k, listed[i].1)
    requires forall i :: 0 <= i < |edits| && k in edits[i] ==> Honest(c, k, edits[i][k])
    ensures var after := Batched(DecisionOf(c, nonce), listed, edits, rows, |listed|).0;
            var alone := EditsOnly(rows, edits, |edits|);
            k in after && k in alone && Holds(c, k, after[k]) == Holds(c, k, alone[k])
  {
    RotationIsDiscreet(c, nonce);
    DiscreetBatch(DecisionOf(c, nonce), HonestFor(c), HeldFor(c), k, listed, edits, rows, |listed|);
  }

  /** Without a hash the guard has nothing to compare: a row that still has none is replaced whatever it
      holds by now, so that an edit survives exactly when it made no difference. */
  lemma UnhashedEditSurvivesIff(c: Rotation, nonce: Crypto.Nonce, row: Row, rows: Table)
    requires Proper(c) && row.0 in rows && row.1.contentHash.None? && rows[row.0].contentHash.None?
    requires Holds(c, row.0, row.1).Some? && !AtNew(c, row.0, row.1)
    ensures var after := Save(row, FateOf(DecisionOf(c, nonce), row, rows), rows);
            Holds(c, row.0, after[row.0]) == Holds(c, row.0, rows[row.0])
            <==> Holds(c, row.0, row.1) == Holds(c, row.0, rows[row.0])
  {
    ReencryptedHolds(c, nonce, row.0, row.1);
  }

  // ---------------------------------------------------------------------------------------------
  // Looping until nothing is processed
  // ---------------------------------------------------------------------------------------------

  /** The rows a table still lists for migration. */
  function Due(due: RowTest, rows: Table): set<RowKey> {
    set k | k in rows && due(k, rows[k])
  }

  /** A listing: some rows that are due, and at least one as long as there is one. */
  ghost predicate ListsDue(due: RowTest, listed: seq<Row>, rows: Table) {
    && (forall i :: 0 <= i < |listed| ==>
          listed[i].0 in rows && rows[listed[i].0] == listed[i].1 && due(listed[i].0, listed[i].1))
    && (forall i, j :: 0 <= i < j < |listed| ==> listed[i].0 != listed[j].0)
    && (listed == [] ==> Due(due, rows) == {})
  }

  /** A migrated row is no longer due. */
  ghost predicate Retires(f: Decision, due: RowTest) {
    forall k, r :: f(k, r).Success? && f(k, r).value.Some? ==> !due(k, f(k, r).value.value)
  }

  function NoEdits(n: nat): seq<Table> {
    seq(n, _ => map[])
  }

  /** One more row of an undisturbed batch. */
  lemma UndisturbedRow(f: Decision, listed: seq<Row>, rows: Table, n: nat)
    requires n < |listed|
    requires var before := Batched(f, listed, NoEdits(|listed|), rows, n).0;
             listed[n].0 in before && before[listed[n].0] == listed[n].1
    ensures var (before, b) := Batched(f, listed, NoEdits(|listed|), rows, n);
            var (after, b') := Batched(f, listed, NoEdits(|listed|), rows, n + 1);
            && after == before[listed[n].0 := Passed(f, listed[n].0, listed[n].1)]
            && b'.conflicted == b.conflicted
            && b'.migrated == b.migrated + Bit(f(listed[n].0, listed[n].1))
  {
    var before := Batched(f, listed, NoEdits(|listed|), rows, n).0;
    assert before + NoEdits(|listed|)[n] == before;
    assert before == before[listed[n].0 := listed[n].1];
  }

  function Bit(out: Result<Option<BlobRecord>, CodecError>): nat {
    if out.Success? && out.value.Some? then 1 else 0
  }

  lemma OneLessDue(f: Decision, due: RowTest, rows: Table, k: RowKey)
    requires Retires(f, due) && k in rows && due(k, rows[k])
    ensures |Due(due, rows[k := Passed(f, k, rows[k])])| + Bit(f(k, rows[k])) == |Due(due, rows)|
  {
    var after := rows[k := Passed(f, k, rows[k])];
    if Bit(f(k, rows[k])) == 1 {
      assert Due(due, rows) == Due(due, after) + {k};
    } else {
      assert after == rows;
    }
  }

  /** Undisturbed, a batch passes exactly the listed rows and leaves the rest alone. */
  lemma {:induction false} UndisturbedBatch(f: Decision, listed: seq<Row>, rows: Table, n: nat)
    requires Present(listed, rows) && n <= |listed|
    ensures PassedFirst(f, listed, n, rows, Batched(f, listed, NoEdits(|listed|), rows, n).0)
  {
    if n > 0 {
      UndisturbedBatch(f, listed, rows, n - 1);
      PassesOneMore(f, listed, n - 1, rows, Batched(f, listed, NoEdits(|listed|), rows, n - 1).0);
      UndisturbedRow(f, listed, rows, n - 1);
    }
  }

  /** The next row of the batch is still as it was listed. */
  lemma UndisturbedNext(f: Decision, listed: seq<Row>, rows: Table, n: nat)
    requires Present(listed, rows) && n < |listed|
    ensures var before := Batched(f, listed, NoEdits(|listed|), rows, n).0;
            listed[n].0 in before && before[listed[n].0] == listed[n].1
  {
    UndisturbedBatch(f, listed, rows, n);
    PassesOneMore(f, listed, n, rows, Batched(f, listed, NoEdits(|listed|), rows, n).0);
  }

  function DueAfter(f: Decision, due: RowTest, listed: seq<Row>, rows: Table, n: nat): nat
    requires n <= |listed|
  {
    var (after, b) := Batched(f, listed, NoEdits(|listed|), rows, n);
    |Due(due, after)| + b.migrated + b.conflicted
  }

  lemma UndisturbedDueRow(f: Decision, due: RowTest, listed: seq<Row>, rows: Table, n: nat)
    requires Retires(f, due) && ListsDue(due, listed, rows) && n < |listed|
    ensures DueAfter(f, due, listed, rows, n + 1) == DueAfter(f, due, listed, rows, n)
    ensures var c := Batched(f, listed, NoEdits(|listed|), rows, n).1.conflicted;
            Batched(f, listed, NoEdits(|listed|), rows, n + 1).1.conflicted == c
  {
    UndisturbedNext(f, listed, rows, n);
    UndisturbedRow(f, listed, rows, n);
    OneLessDue(f, due, Batched(f, listed, NoEdits(|listed|), rows, n).0, listed[n].0);
  }

  /** And as many rows stop being due as it counts as migrated. */
  lemma {:induction false} UndisturbedDue(f: Decision, due: RowTest, listed: seq<Row>, rows: Table, n: nat)
    requires Retires(f, due) && ListsDue(due, listed, rows) && n <= |listed|
    ensures DueAfter(f, due, listed, rows, n) == |Due(due, rows)|
    ensures Batched(f, listed, NoEdits(|listed|), rows, n).1.conflicted == 0
  {
    if n > 0 {
      UndisturbedDue(f, due, listed, rows, n - 1);
      UndisturbedDueRow(f, due, listed, rows, n - 1);
    }
  }

  /** Every row that is due can be migrated. */
  predicate AllMigratable(f: Decision, due: RowTest, rows: Table) {
    forall k :: k in rows && due(k, rows[k]) ==> f(k, rows[k]).Success? && f(k, rows[k]).value.Some?
  }

  lemma {:induction false} NothingElseHappens(f: Decision, listed: seq<Row>, rows: Table, n: nat)
    requires n <= |listed|
    requires forall i :: 0 <= i < |listed| ==>
               f(listed[i].0, listed[i].1).Success? && f(listed[i].0, listed[i].1).value.Some?
    ensures var b := Batched(f, listed, NoEdits(|listed|), rows, n).1; b.alreadyMigrated == 0 && b.failed == []
  {
    if n > 0 {
      NothingElseHappens(f, listed, rows, n - 1);
    }
  }

  lemma BatchMakesProgress(f: Decision, due: RowTest, listed: seq<Row>, rows: Table)
    requires Retires(f, due) && ListsDue(due, listed, rows) && AllMigratable(f, due, rows)
    ensures var after := Batched(f, listed, NoEdits(|listed|), rows, |listed|).0;
            && |Due(due, after)| + |listed| == |Due(due, rows)|
            && AllMigratable(f, due, after) && after.Keys == rows.Keys
            && forall k :: k in rows ==> after[k] == rows[k] || after[k] == Passed(f, k, rows[k])
  {
    UndisturbedBatch(f, listed, rows, |listed|);
    UndisturbedDue(f, due, listed, rows, |listed|);
    EveryListedRowIsCounted(f, listed, NoEdits(|listed|), rows, |listed|);
    NothingElseHappens(f, listed, rows, |listed|);
  }

  /** The caller's loop. It ends when every due row can be migrated, and then nothing is due any more and
      every row is as one complete pass would have left it. */
  method MigrateUntilDone(f: Decision, due: RowTest, list: Table -> seq<Row>, store: StoredRows) returns (migrated: nat)
    requires Retires(f, due) && AllMigratable(f, due, store.rows)
    requires forall rows :: ListsDue(due, list(rows), rows)
    modifies store
    ensures Due(due, store.rows) == {} && migrated == |Due(due, old(store.rows))|
    ensures store.rows.Keys == old(store.rows).Keys
    ensures forall k :: k in store.rows ==>
              store.rows[k] == (if due(k, old(store.rows)[k]) then Passed(f, k, old(store.rows)[k]) else old(store.rows)[k])
  {
    migrated := 0;
    var processed := 1;
    while processed != 0
      invariant AllMigratable(f, due, store.rows)
      invariant migrated + |Due(due, store.rows)| == |Due(due, old(store.rows))|
      invariant processed == 0 ==> Due(due, store.rows) == {}
      invariant store.rows.Keys == old(store.rows).Keys
      invariant forall k :: k in store.rows ==>
                  store.rows[k] == old(store.rows)[k] ||
                  (due(k, old(store.rows)[k]) && store.rows[k] == Passed(f, k, old(store.rows)[k]))
      decreases |Due(due, store.rows)|, processed
    {
      var listed := list(store.rows);
      UndisturbedBatch(f, listed, store.rows, |listed|);
      UndisturbedDue(f, due, listed, store.rows, |listed|);
      BatchMakesProgress(f, due, listed, store.rows);
      EveryListedRowIsCounted(f, listed, NoEdits(|listed|), store.rows, |listed|);
      NothingElseHappens(f, listed, store.rows, |listed|);
      var b := MigrateRotationBatch(f, listed, NoEdits(|listed|), store);
      migrated := migrated + b.migrated;
      processed := b.processedThisBatch;
    }
    forall k | k in store.rows && due(k, old(store.rows)[k])
      ensures store.rows[k] == Passed(f, k, old(store.rows)[k])
    {
      assert k !in Due(due, store.rows);
    }
  }

  /** A row that is due but fails, or is taken for migrated already, stays due through every batch: the
      loop never sees an empty listing. */
  lemma StuckRowStays(f: Decision, due: RowTest, listed: seq<Row>, rows: Table, k: RowKey)
    requires Retires(f, due) && ListsDue(due, listed, rows)
    requires k in rows && due(k, rows[k]) && (f(k, rows[k]).Failure? || f(k, rows[k]).value.None?)
    ensures listed != []
    ensures var after := Batched(f, listed, NoEdits(|listed|), rows, |listed|).0; k in after && after[k] == rows[k]
  {
    UndisturbedBatch(f, listed, rows, |listed|);
    UndisturbedDue(f, due, listed, rows, |listed|);
    assert k in Due(due, rows);
  }

  /** The table after `n` batches. */
  function Looped(f: Decision, list: Table -> seq<Row>, rows: Table, n: nat): Table {
    if n == 0 then rows
    else
      var before := Looped(f, list, rows, n - 1);
      Batched(f, list(before), NoEdits(|list(before)|), before, |list(before)|).0
  }

  lemma {:induction false} LoopShrinks(f: Decision, due: RowTest, list: Table -> seq<Row>, rows: Table, n: nat)
    requires Retires(f, due) && AllMigratable(f, due, rows) && forall t :: ListsDue(due, list(t), t)
    ensures AllMigratable(f, due, Looped(f, list, rows, n))
    ensures Due(due, Looped(f, list, rows, n)) == {} || |Due(due, Looped(f, list, rows, n))| + n <= |Due(due, rows)|
  {
    if n > 0 {
      LoopShrinks(f, due, list, rows, n - 1);
      var before := Looped(f, list, rows, n - 1);
      BatchMakesProgress(f, due, list(before), before);
    }
  }

  lemma {:induction false} LoopSticks(f: Decision, due: RowTest, list: Table -> seq<Row>, rows: Table, k: RowKey, n: nat)
    requires Retires(f, due) && forall t :: ListsDue(due, list(t), t)
    requires k in rows && due(k, rows[k]) && (f(k, rows[k]).Failure? || f(k, rows[k]).value.None?)
    ensures var after := Looped(f, list, rows, n); k in after && after[k] == rows[k] && k in Due(due, after)
  {
    if n > 0 {
      LoopSticks(f, due, list, rows, k, n - 1);
      var before := Looped(f, list, rows, n - 1);
      StuckRowStays(f, due, list(before), before, k);
    }
  }

  lemma FirstIsDue(due: RowTest, listed: seq<Row>, rows: Table)
    requires ListsDue(due, listed, rows)
    ensures listed != [] ==> listed[0].0 in Due(due, rows)
  {
  }

  /** Undisturbed, looping until nothing is processed ends exactly when every due row can be migrated. */
  lemma LoopEndsIff(f: Decision, due: RowTest, list: Table -> seq<Row>, rows: Table)
    requires Retires(f, due) && forall t :: ListsDue(due, list(t), t)
    ensures (exists n :: list(Looped(f, list, rows, n)) == []) <==> AllMigratable(f, due, rows)
  {
    if AllMigratable(f, due, rows) {
      var n := |Due(due, rows)| + 1;
      LoopShrinks(f, due, list, rows, n);
      var end := Looped(f, list, rows, n);
      FirstIsDue(due, list(end), end);
      assert list(Looped(f, list, rows, n)) == [];
    } else {
      var k :| k in rows && due(k, rows[k]) && !(f(k, rows[k]).Success? && f(k, rows[k]).value.Some?);
      forall n: nat ensures list(Looped(f, list, rows, n)) != [] {
        LoopSticks(f, due, list, rows, k, n);
      }
    }
  }

  /** The rows a rotation lists: those not tagged with its epoch. */
  function Untagged(c: Rotation): RowTest {
    (_: RowKey, r: BlobRecord) => !(r.blob.Sealed? && r.blob.enc.epoch == Some(c.epoch))
  }

  lemma RotationRetires(c: Rotation, nonce: Crypto.Nonce)
    requires Proper(c)
    ensures Retires(DecisionOf(c, nonce), Untagged(c))
  {
    forall k, r | DecisionOf(c, nonce)(k, r).Success? && DecisionOf(c, nonce)(k, r).value.Some?
      ensures !Untagged(c)(k, DecisionOf(c, nonce)(k, r).value.value)
    {
      ReencryptedHolds(c, nonce, k, r);
    }
  }

  /** A row a rotation lists can be migrated exactly when it still needs the old handle and has it. */
  lemma RotationMigratesIff(c: Rotation, nonce: Crypto.Nonce, rows: Table)
    requires Proper(c)
    ensures AllMigratable(DecisionOf(c, nonce), Untagged(c), rows) <==>
            forall k :: k in rows && Untagged(c)(k, rows[k]) ==> !AtNew(c, k, rows[k]) && Holds(c, k, rows[k]).Some?
  {
    forall k | k in rows
      ensures DecisionOf(c, nonce)(k, rows[k]).Success? && DecisionOf(c, nonce)(k, rows[k]).value.Some?
              <==> !AtNew(c, k, rows[k]) && Holds(c, k, rows[k]).Some?
    {
      ReencryptedHolds(c, nonce, k, rows[k]);
    }
  }

  /** The loop of a rotation, undisturbed, ends exactly when no row without its tag decodes under the new
      handle already, or under neither. */
  lemma RotationLoopEndsIff(c: Rotation, nonce: Crypto.Nonce, list: Table -> seq<Row>, rows: Table)
    requires Proper(c) && forall t :: ListsDue(Untagged(c), list(t), t)
    ensures (exists n :: list(Looped(DecisionOf(c, nonce), list, rows, n)) == []) <==>
            forall k :: k in rows && Untagged(c)(k, rows[k]) ==> !AtNew(c, k, rows[k]) && Holds(c, k, rows[k]).Some?
  {
    RotationRetires(c, nonce);
    LoopEndsIff(DecisionOf(c, nonce), Untagged(c), list, rows);
    RotationMigratesIff(c, nonce, rows);
  }

  /** One row that a read has converged keeps the loop of a rotation going for ever. */
  lemma ConvergedRowBlocksLoop(c: Rotation, nonce: Crypto.Nonce, list: Table -> seq<Row>, rows: Table,
                               k: RowKey, read: BlobRecord, other: Crypto.Nonce)
    requires Proper(c) && forall t :: ListsDue(Untagged(c), list(t), t)
    requires k in rows && Written(c, Converges(k, read, other)) == Some(rows[k])
    ensures forall n :: list(Looped(DecisionOf(c, nonce), list, rows, n)) != []
  {
    ConvergedRowStaysUntagged(c, k, read, other, nonce);
    ReencryptedHolds(c, nonce, k, rows[k]);
    RotationLoopEndsIff(c, nonce, list, rows);
    assert Untagged(c)(k, rows[k]) && AtNew(c, k, rows[k]);
  }
}
