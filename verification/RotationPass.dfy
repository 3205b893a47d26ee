/**
 * The loops of a rotation over the rows of a store (`rotateEpoch` and `verifyRotatedRows` of core/store.ts),
 * for any decision about one row.
 */
module RotationPass {
  import opened Wrappers
  import opened BlobCodec
  import Text

  type RowKey = Text.Text

  type Table = map<RowKey, BlobRecord>

  type Row = (RowKey, BlobRecord)

  /** What is to be done with one row: an error, nothing because it has been migrated, or a new record. */
  type Decision = (RowKey, BlobRecord) -> Result<Option<BlobRecord>, CodecError>

  type RowTest = (RowKey, BlobRecord) -> bool

  class StoredRows {
    var rows: Table

    method Put(k: RowKey, r: BlobRecord)
      modifies this
      ensures rows == old(rows)[k := r]
    {
      rows := rows[k := r];
    }
  }

  /** A row after the pass has dealt with it. */
  function Passed(f: Decision, k: RowKey, r: BlobRecord): BlobRecord {
    if f(k, r).Success? && f(k, r).value.Some? then f(k, r).value.value else r
  }

  function PassedAll(f: Decision, rows: Table): Table {
    map k | k in rows :: Passed(f, k, rows[k])
  }

  datatype Tally = Tally(migrated: nat, alreadyMigrated: nat, failed: seq<RowKey>)

  /** What the pass reports of the first `n` rows it listed. */
  function Tallied(f: Decision, listed: seq<Row>, n: nat): Tally
    requires n <= |listed|
  {
    if n == 0 then Tally(0, 0, [])
    else
      var t := Tallied(f, listed, n - 1);
      var (k, r) := listed[n - 1];
      if f(k, r).Failure? then t.(failed := t.failed + [k])
      else if f(k, r).value.None? then t.(alreadyMigrated := t.alreadyMigrated + 1)
      else t.(migrated := t.migrated + 1)
  }

  predicate Lists(listed: seq<Row>, rows: Table) {
    && (forall i :: 0 <= i < |listed| ==> listed[i].0 in rows && rows[listed[i].0] == listed[i].1)
    && (forall i, j :: 0 <= i < j < |listed| ==> listed[i].0 != listed[j].0)
    && (forall k :: k in rows ==> exists i :: 0 <= i < |listed| && listed[i].0 == k)
  }

  /** Every table can be listed. */
  lemma {:induction false} EveryTableIsListed(rows: Table) returns (listed: seq<Row>)
    ensures Lists(listed, rows) && |listed| == |rows|
    decreases |rows|
  {
    if k :| k in rows {
      var rest := rows - {k};
      assert rest.Keys == rows.Keys - {k};
      var before := EveryTableIsListed(rest);
      listed := before + [(k, rows[k])];
      assert listed[|before|] == (k, rows[k]);
      forall x | x in rows ensures exists i :: 0 <= i < |listed| && listed[i].0 == x {
        if x != k {
          assert x in rest;
          var i :| 0 <= i < |before| && before[i].0 == x;
          assert listed[i].0 == x;
        }
      }
    } else {
      listed := [];
    }
  }

  predicate Present(listed: seq<Row>, rows: Table) {
    && (forall i :: 0 <= i < |listed| ==> listed[i].0 in rows && rows[listed[i].0] == listed[i].1)
    && (forall i, j :: 0 <= i < j < |listed| ==> listed[i].0 != listed[j].0)
  }

  function Keys(listed: seq<Row>, n: nat): set<RowKey>
    requires n <= |listed|
  {
    set i | 0 <= i < n :: listed[i].0
  }

  /** The table once the first `n` listed rows have been dealt with. */
  ghost predicate PassedFirst(f: Decision, listed: seq<Row>, n: nat, rows: Table, after: Table)
    requires n <= |listed|
  {
    && after.Keys == rows.Keys
    && (forall k :: k in rows ==> after[k] == if k in Keys(listed, n) then Passed(f, k, rows[k]) else rows[k])
  }

  lemma PassesOneMore(f: Decision, listed: seq<Row>, n: nat, rows: Table, after: Table)
    requires Present(listed, rows) && n < |listed| && PassedFirst(f, listed, n, rows, after)
    ensures listed[n].0 in after && after[listed[n].0] == listed[n].1
    ensures PassedFirst(f, listed, n + 1, rows, after[listed[n].0 := Passed(f, listed[n].0, listed[n].1)])
    ensures Passed(f, listed[n].0, listed[n].1) == listed[n].1 ==> PassedFirst(f, listed, n + 1, rows, after)
  {
    assert Keys(listed, n + 1) == Keys(listed, n) + {listed[n].0};
    assert listed[n].0 !in Keys(listed, n);
  }

  lemma NonePassed(f: Decision, listed: seq<Row>, rows: Table)
    ensures PassedFirst(f, listed, 0, rows, rows)
  {
    assert Keys(listed, 0) == {};
  }

  lemma EveryonePassed(f: Decision, listed: seq<Row>, rows: Table, after: Table)
    requires Keys(listed, |listed|) == rows.Keys && PassedFirst(f, listed, |listed|, rows, after)
    ensures after == PassedAll(f, rows)
  {
  }

  lemma ListsPresent(listed: seq<Row>, rows: Table)
    requires Lists(listed, rows)
    ensures Present(listed, rows) && Keys(listed, |listed|) == rows.Keys
  {
    forall k | k in rows ensures k in Keys(listed, |listed|) {
      var i :| 0 <= i < |listed| && listed[i].0 == k;
    }
  }

  /** What one row adds to the table and to the counters. */
  lemma CountsOneMore(f: Decision, listed: seq<Row>, n: nat, rows: Table, after: Table)
    requires Present(listed, rows) && n < |listed| && PassedFirst(f, listed, n, rows, after)
    ensures var t, (k, r) := Tallied(f, listed, n), listed[n];
            if f(k, r).Success? && f(k, r).value.Some? then
              && PassedFirst(f, listed, n + 1, rows, after[k := f(k, r).value.value])
              && Tallied(f, listed, n + 1) == t.(migrated := t.migrated + 1)
            else
              && PassedFirst(f, listed, n + 1, rows, after)
              && Tallied(f, listed, n + 1) == if f(k, r).Failure? then t.(failed := t.failed + [k])
                                              else t.(alreadyMigrated := t.alreadyMigrated + 1)
  {
    PassesOneMore(f, listed, n, rows, after);
  }

  /** The table and the counters once the first `n` listed rows have been dealt with. */
  ghost predicate Rotated(f: Decision, listed: seq<Row>, n: nat, rows: Table, after: Table, t: Tally)
    requires n <= |listed|
  {
    PassedFirst(f, listed, n, rows, after) && t == Tallied(f, listed, n)
  }

  /** The loop over the listed rows. */
  method RotateListed(f: Decision, listed: seq<Row>, store: StoredRows) returns (outcome: Tally)
    requires Present(listed, store.rows)
    modifies store
    ensures Rotated(f, listed, |listed|, old(store.rows), store.rows, outcome)
  {
    var migrated: nat, alreadyMigrated: nat, failed: seq<RowKey> := 0, 0, [];
    NonePassed(f, listed, store.rows);
    for i := 0 to |listed|
      invariant Rotated(f, listed, i, old(store.rows), store.rows, Tally(migrated, alreadyMigrated, failed))
    {
      var (k, r) := listed[i];
      CountsOneMore(f, listed, i, old(store.rows), store.rows);
      var result := f(k, r);
      if result.Failure? {
        failed := failed + [k];
        continue;
      }
      if result.value.None? {
        alreadyMigrated := alreadyMigrated + 1;
        continue;
      }
      store.Put(k, result.value.value);
      migrated := migrated + 1;
    }
    outcome := Tally(migrated, alreadyMigrated, failed);
  }

  method RotateEpoch(f: Decision, listed: seq<Row>, store: StoredRows) returns (outcome: Tally)
    requires Lists(listed, store.rows)
    modifies store
    ensures store.rows == PassedAll(f, old(store.rows))
    ensures outcome == Tallied(f, listed, |listed|)
  {
    ListsPresent(listed, store.rows);
    outcome := RotateListed(f, listed, store);
    EveryonePassed(f, listed, old(store.rows), store.rows);
  }

  /** How many of the first `n` rows pass the test. */
  function Count(test: RowTest, listed: seq<Row>, n: nat): nat
    requires n <= |listed|
  {
    if n == 0 then 0 else Count(test, listed, n - 1) + if test(listed[n - 1].0, listed[n - 1].1) then 1 else 0
  }

  function Migrates(f: Decision): RowTest {
    (k, r) => f(k, r).Success? && f(k, r).value.Some?
  }

  function NeedsNothing(f: Decision): RowTest {
    (k, r) => f(k, r) == Success(None)
  }

  /** The counters say how many rows were migrated and how many needed nothing, and the failures are reported key
      by key: exactly those of the rows whose decision fails. */
  lemma {:induction false} TalliesMean(f: Decision, listed: seq<Row>, n: nat)
    requires n <= |listed|
    ensures var t := Tallied(f, listed, n);
            && t.migrated == Count(Migrates(f), listed, n) && t.alreadyMigrated == Count(NeedsNothing(f), listed, n)
            && forall k :: k in t.failed <==>
                 exists i :: 0 <= i < n && listed[i].0 == k && f(listed[i].0, listed[i].1).Failure?
  {
    if n > 0 {
      TalliesMean(f, listed, n - 1);
      var t, before := Tallied(f, listed, n), Tallied(f, listed, n - 1);
      var (k, r) := listed[n - 1];
      assert t.failed == if f(k, r).Failure? then before.failed + [k] else before.failed;
    }
  }

  /** Every row a pass meets is counted once, and the counters say which rows were which. */
  lemma {:induction false} TalliesEveryRow(f: Decision, listed: seq<Row>, n: nat)
    requires n <= |listed|
    ensures var t := Tallied(f, listed, n);
            && t.migrated + t.alreadyMigrated + |t.failed| == n
            && (t.failed == [] <==> forall i :: 0 <= i < n ==> f(listed[i].0, listed[i].1).Success?)
            && (t.migrated == 0 && t.failed == [] <==>
                  forall i :: 0 <= i < n ==> f(listed[i].0, listed[i].1) == Success(None))
  {
    if n > 0 {
      TalliesEveryRow(f, listed, n - 1);
    }
  }

  /** The counters of a pass over a whole table, in terms of its rows. */
  lemma TallyOfTable(f: Decision, listed: seq<Row>, rows: Table)
    requires Lists(listed, rows)
    ensures var t := Tallied(f, listed, |listed|);
            && (t.failed == [] <==> forall k :: k in rows ==> f(k, rows[k]).Success?)
            && (t.migrated == 0 && t.failed == [] <==> forall k :: k in rows ==> f(k, rows[k]) == Success(None))
  {
    TalliesEveryRow(f, listed, |listed|);
    forall k | k in rows
      ensures exists i :: 0 <= i < |listed| && listed[i] == (k, rows[k])
    {
      var i :| 0 <= i < |listed| && listed[i].0 == k;
      assert listed[i] == (k, rows[k]);
    }
  }

  datatype Verification = Verification(atNewEpoch: nat, atOldEpoch: nat, failed: seq<RowKey>)

  function Either(a: RowTest, b: RowTest): RowTest {
    (k, r) => a(k, r) || b(k, r)
  }

  lemma {:induction false} CountsAll(test: RowTest, listed: seq<Row>, n: nat)
    requires n <= |listed|
    ensures Count(test, listed, n) <= n
    ensures Count(test, listed, n) == n <==> forall i :: 0 <= i < n ==> test(listed[i].0, listed[i].1)
  {
    if n > 0 {
      CountsAll(test, listed, n - 1);
    }
  }

  /** A row is counted at the new key exactly if it decodes there, and otherwise at the old one if it decodes
      there; the keys of all others are reported. The count at the new key is that of the listing exactly when
      every listed row decodes there. */
  method VerifyRotatedRows(decodesNew: RowTest, decodesOld: RowTest, listed: seq<Row>) returns (v: Verification)
    ensures v.atNewEpoch == Count(decodesNew, listed, |listed|)
    ensures v.atNewEpoch == |listed| <==> forall i :: 0 <= i < |listed| ==> decodesNew(listed[i].0, listed[i].1)
    ensures v.atNewEpoch + v.atOldEpoch == Count(Either(decodesNew, decodesOld), listed, |listed|)
    ensures v.atNewEpoch + v.atOldEpoch + |v.failed| == |listed|
    ensures forall k :: k in v.failed <==>
              exists i :: 0 <= i < |listed| && listed[i].0 == k && !decodesNew(k, listed[i].1) && !decodesOld(k, listed[i].1)
  {
    var atNewEpoch: nat, atOldEpoch: nat, failed: seq<RowKey> := 0, 0, [];
    for i := 0 to |listed|
      invariant atNewEpoch == Count(decodesNew, listed, i)
      invariant atNewEpoch + atOldEpoch == Count(Either(decodesNew, decodesOld), listed, i)
      invariant atNewEpoch + atOldEpoch + |failed| == i
      invariant forall k :: k in failed <==>
                  exists j :: 0 <= j < i && listed[j].0 == k && !decodesNew(k, listed[j].1) && !decodesOld(k, listed[j].1)
    {
      var (k, r) := listed[i];
      if decodesNew(k, r) {
        atNewEpoch := atNewEpoch + 1;
        continue;
      }
      if decodesOld(k, r) {
        atOldEpoch := atOldEpoch + 1;
      } else {
        failed := failed + [k];
      }
    }
    CountsAll(decodesNew, listed, |listed|);
    v := Verification(atNewEpoch, atOldEpoch, failed);
  }
}
