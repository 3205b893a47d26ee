/**
 * Before an old key is thrown away (core/rotationRetirement.ts): every row claiming the new epoch is
 * decrypted, page by page, and the key may go only when nothing is left at the old epoch and nothing failed.
 */
module RotationRetirement {
  import opened Wrappers
  import opened BlobCodec
  import opened RotationBatch
  import opened RotationMigration
  import opened RotationPass
  import opened RotationRuns
  import opened Versioning

  /** The rows of a store claiming an epoch, in their listing order: an order without repetitions. */
  predicate InOrder(rows: seq<Row>) {
    forall i, j :: 0 <= i < j < |rows| ==> rows[i].0 != rows[j].0
  }

  /** Where the listing goes on after `key`. */
  function Position(rows: seq<Row>, key: Option<RowKey>): (n: nat)
    ensures n <= |rows|
  {
    if key.None? || rows == [] then 0
    else if rows[0].0 == key.value then 1
    else 1 + Position(rows[1..], key)
  }

  function Min(a: nat, b: nat): nat {
    if a < b then a else b
  }

  /** A page: at most `limit` rows, the ones that come right after `afterKey`. */
  function Page(rows: seq<Row>, limit: nat, afterKey: Option<RowKey>): seq<Row> {
    var from := Position(rows, afterKey);
    rows[from..Min(from + limit, |rows|)]
  }

  /** A page is as long as allowed, unless the listing ends, and goes on where the last one stopped. */
  lemma PageIs(rows: seq<Row>, limit: nat, afterKey: Option<RowKey>)
    ensures var page, from := Page(rows, limit, afterKey), Position(rows, afterKey);
            && |page| <= limit && (|page| < limit ==> from + |page| == |rows|)
            && forall i :: 0 <= i < |page| ==> page[i] == rows[from + i]
  {
  }

  lemma {:induction false} PositionAfter(rows: seq<Row>, i: nat)
    requires InOrder(rows) && i < |rows|
    ensures Position(rows, Some(rows[i].0)) == i + 1
    decreases i
  {
    if i > 0 {
      assert rows[0].0 != rows[i].0;
      assert rows[1..][i - 1] == rows[i];
      assert forall a, b :: 0 <= a < b < |rows| - 1 ==> rows[1..][a] == rows[a + 1] && rows[1..][b] == rows[b + 1];
      PositionAfter(rows[1..], i - 1);
    }
  }

  datatype PageResult = PageResult(
    verified: nat,
    failures: seq<RowKey>,
    lastKey: Option<RowKey>,
    processedThisBatch: nat
  )

  /** The keys of the rows that do not decode, in order. */
  function Failing(decodes: RowTest, rows: seq<Row>): seq<RowKey> {
    if rows == [] then []
    else
      var last := rows[|rows| - 1];
      Failing(decodes, rows[..|rows| - 1]) + if decodes(last.0, last.1) then [] else [last.0]
  }

  method VerifyRowsDecryptAtEpoch(decodes: RowTest, rows: seq<Row>, batchSize: nat, afterKey: Option<RowKey>)
    returns (r: PageResult)
    ensures var page := Page(rows, batchSize, afterKey);
            && r.failures == Failing(decodes, page) && r.verified == |page| - |r.failures|
            && r.processedThisBatch == |page|
            && r.lastKey == if page == [] then None else Some(page[|page| - 1].0)
  {
    var page := Page(rows, batchSize, afterKey);
    var verified: nat, failures: seq<RowKey> := 0, [];
    for i := 0 to |page|
      invariant failures == Failing(decodes, page[..i]) && verified + |failures| == i
    {
      var (k, record) := page[i];
      assert page[..i + 1][..i] == page[..i];
      if decodes(k, record) {
        verified := verified + 1;
      } else {
        failures := failures + [k];
      }
    }
    assert page[..|page|] == page;
    r := PageResult(verified, failures, if |page| > 0 then Some(page[|page| - 1].0) else None, |page|);
  }

  lemma {:induction false} FailingConcat(decodes: RowTest, a: seq<Row>, b: seq<Row>)
    ensures Failing(decodes, a + b) == Failing(decodes, a) + Failing(decodes, b)
  {
    if b == [] {
      assert a + b == a;
    } else {
      FailingConcat(decodes, a, b[..|b| - 1]);
      assert (a + b)[..|a + b| - 1] == a + b[..|b| - 1];
    }
  }

  lemma {:induction false} FailingMeans(decodes: RowTest, rows: seq<Row>)
    ensures Failing(decodes, rows) == [] <==> forall i :: 0 <= i < |rows| ==> decodes(rows[i].0, rows[i].1)
    ensures |Failing(decodes, rows)| <= |rows|
  {
    if rows != [] {
      FailingMeans(decodes, rows[..|rows| - 1]);
      assert forall i :: 0 <= i < |rows| - 1 ==> rows[..|rows| - 1][i] == rows[i];
    }
  }

  /** The failures are the keys of exactly the rows that do not decode. */
  lemma {:induction false} FailingKeys(decodes: RowTest, rows: seq<Row>, key: RowKey)
    ensures key in Failing(decodes, rows) <==> exists row :: row in rows && row.0 == key && !decodes(row.0, row.1)
  {
    if rows != [] {
      var rest, last := rows[..|rows| - 1], rows[|rows| - 1];
      FailingKeys(decodes, rest, key);
      assert rows == rest + [last];
    }
  }

  /** After the first `n` rows of a listing comes the page that starts with the next one. */
  lemma PageAfter(rows: seq<Row>, n: nat, batchSize: nat, afterKey: Option<RowKey>)
    requires InOrder(rows) && n <= |rows| && batchSize > 0 && Position(rows, afterKey) == n
    ensures var page := Page(rows, batchSize, afterKey);
            && n + |page| <= |rows| && rows[..n] + page == rows[..n + |page|]
            && (page == [] ==> n == |rows|)
            && (page != [] ==> Position(rows, Some(page[|page| - 1].0)) == n + |page|)
  {
    var page := Page(rows, batchSize, afterKey);
    assert rows[..n] + page == rows[..n + |page|];
    if page != [] {
      assert page[|page| - 1] == rows[n + |page| - 1];
      PositionAfter(rows, n + |page| - 1);
    }
  }

  /** The caller's loop over pages. For every positive page size it ends having looked at the whole listing,
      each row once: `visited` rows, in listing order. */
  method VerifyAll(decodes: RowTest, rows: seq<Row>, batchSize: nat)
    returns (verified: nat, failures: seq<RowKey>, visited: seq<Row>)
    requires InOrder(rows) && batchSize > 0
    ensures visited == rows
    ensures failures == Failing(decodes, rows) && verified == |rows| - |failures|
  {
    verified, failures, visited := 0, [], [];
    var afterKey: Option<RowKey> := None;
    var processed := 1;
    while processed != 0
      invariant |visited| <= |rows| && visited == rows[..|visited|]
      invariant failures == Failing(decodes, visited) && verified + |failures| == |visited|
      invariant Position(rows, afterKey) == |visited|
      invariant processed == 0 ==> |visited| == |rows|
      decreases |rows| - |visited|, processed
    {
      PageAfter(rows, |visited|, batchSize, afterKey);
      FailingConcat(decodes, visited, Page(rows, batchSize, afterKey));
      FailingMeans(decodes, Page(rows, batchSize, afterKey));
      var r := VerifyRowsDecryptAtEpoch(decodes, rows, batchSize, afterKey);
      visited := visited + Page(rows, batchSize, afterKey);
      verified, failures := verified + r.verified, failures + r.failures;
      afterKey := if r.lastKey.Some? then r.lastKey else afterKey;
      processed := r.processedThisBatch;
    }
    assert rows[..|visited|] == rows;
  }

  datatype Reason = RowsNotFullyMigrated | VerificationFailures | Eligible

  function CheckRetirementEligibility(remainingRowsAtOldEpoch: nat, verificationFailureCount: nat): (bool, Reason) {
    if remainingRowsAtOldEpoch > 0 then (false, RowsNotFullyMigrated)
    else if verificationFailureCount > 0 then (false, VerificationFailures)
    else (true, Eligible)
  }

  /** The rows of a table that claim the new epoch, in listing order. */
  function Claiming(atOld: RowTest, listed: seq<Row>): seq<Row> {
    if listed == [] then []
    else
      var last := listed[|listed| - 1];
      Claiming(atOld, listed[..|listed| - 1]) + if atOld(last.0, last.1) then [] else [last]
  }

  lemma {:induction false} ClaimingMeans(atOld: RowTest, listed: seq<Row>)
    ensures var claiming := Claiming(atOld, listed);
            && |claiming| <= |listed|
            && (|claiming| == |listed| <==> forall row :: row in listed ==> !atOld(row.0, row.1))
            && (forall row :: row in claiming <==> row in listed && !atOld(row.0, row.1))
  {
    if listed != [] {
      var rest, last := listed[..|listed| - 1], listed[|listed| - 1];
      ClaimingMeans(atOld, rest);
      assert listed == rest + [last];
    }
  }

  /** The rows to verify are listed in order too. */
  lemma {:induction false} ClaimingInOrder(atOld: RowTest, listed: seq<Row>)
    requires InOrder(listed)
    ensures InOrder(Claiming(atOld, listed))
  {
    if listed != [] {
      var rest, last := listed[..|listed| - 1], listed[|listed| - 1];
      ClaimingInOrder(atOld, rest);
      ClaimingMeans(atOld, rest);
      forall row | row in Claiming(atOld, rest) ensures row.0 != last.0 {
        var j :| 0 <= j < |rest| && rest[j] == row;
      }
    }
  }

  predicate EveryRow(test: RowTest, listed: seq<Row>) {
    forall i :: 0 <= i < |listed| ==> test(listed[i].0, listed[i].1)
  }

  predicate EveryKey(test: RowTest, table: Table) {
    forall k :: k in table ==> test(k, table[k])
  }

  lemma ListingsAreInOrder(listed: seq<Row>, table: Table)
    requires Lists(listed, table)
    ensures InOrder(listed)
  {
  }

  lemma RowsAreKeys(test: RowTest, listed: seq<Row>, table: Table)
    requires Lists(listed, table)
    ensures EveryRow(test, listed) <==> EveryKey(test, table)
  {
    if EveryRow(test, listed) {
      forall k | k in table ensures test(k, table[k]) {
        var i :| 0 <= i < |listed| && listed[i].0 == k;
      }
    }
  }

  function Claims(atOld: RowTest): RowTest {
    (k, r) => !atOld(k, r)
  }

  function ClaimsAndDecodes(atOld: RowTest, decodes: RowTest): RowTest {
    (k, r) => !atOld(k, r) && decodes(k, r)
  }

  lemma AllClaim(atOld: RowTest, listed: seq<Row>)
    ensures |Claiming(atOld, listed)| <= |listed|
    ensures |Claiming(atOld, listed)| == |listed| <==> EveryRow(Claims(atOld), listed)
  {
    ClaimingMeans(atOld, listed);
    if |Claiming(atOld, listed)| == |listed| {
      forall i | 0 <= i < |listed| ensures Claims(atOld)(listed[i].0, listed[i].1) {
        assert listed[i] in listed;
      }
    }
  }

  lemma AllClaimingDecode(decodes: RowTest, atOld: RowTest, listed: seq<Row>)
    ensures Failing(decodes, Claiming(atOld, listed)) == [] <==>
            forall i :: 0 <= i < |listed| && !atOld(listed[i].0, listed[i].1) ==> decodes(listed[i].0, listed[i].1)
  {
    var claiming := Claiming(atOld, listed);
    ClaimingMeans(atOld, listed);
    FailingMeans(decodes, claiming);
    if Failing(decodes, claiming) == [] {
      forall i | 0 <= i < |listed| && !atOld(listed[i].0, listed[i].1) ensures decodes(listed[i].0, listed[i].1) {
        assert listed[i] in claiming;
      }
    } else {
      var j :| 0 <= j < |claiming| && !decodes(claiming[j].0, claiming[j].1);
      assert claiming[j] in listed;
    }
  }

  lemma GateOfRows(decodes: RowTest, atOld: RowTest, listed: seq<Row>)
    ensures var claiming := Claiming(atOld, listed);
            && |claiming| <= |listed|
            && (|claiming| == |listed| <==> EveryRow(Claims(atOld), listed))
            && (|claiming| == |listed| && Failing(decodes, claiming) == []
                <==> EveryRow(ClaimsAndDecodes(atOld, decodes), listed))
  {
    AllClaim(atOld, listed);
    AllClaimingDecode(decodes, atOld, listed);
    if EveryRow(ClaimsAndDecodes(atOld, decodes), listed) {
      forall i | 0 <= i < |listed| ensures Claims(atOld)(listed[i].0, listed[i].1) && decodes(listed[i].0, listed[i].1) {
        assert ClaimsAndDecodes(atOld, decodes)(listed[i].0, listed[i].1);
      }
    }
    if EveryRow(Claims(atOld), listed) && Failing(decodes, Claiming(atOld, listed)) == [] {
      forall i | 0 <= i < |listed| ensures ClaimsAndDecodes(atOld, decodes)(listed[i].0, listed[i].1) {
        assert Claims(atOld)(listed[i].0, listed[i].1);
      }
    }
  }

  /** Retirement is sound: whatever the page size, counting what is left at the old epoch and verifying
      everything else lets the old key go exactly when every row of the table claims the new epoch and
      decodes under the new handle. */
  lemma RetirementIsSound(decodes: RowTest, atOld: RowTest, listed: seq<Row>, table: Table)
    requires Lists(listed, table)
    ensures var claiming := Claiming(atOld, listed);
            && |claiming| <= |listed|
            && var (eligible, reason) :=
                 CheckRetirementEligibility(|listed| - |claiming|, |Failing(decodes, claiming)|);
               && (eligible <==> EveryKey(ClaimsAndDecodes(atOld, decodes), table))
               && (eligible <==> reason == Eligible)
               && (reason == RowsNotFullyMigrated <==> !EveryKey(Claims(atOld), table))
  {
    GateOfRows(decodes, atOld, listed);
    RowsAreKeys(Claims(atOld), listed, table);
    RowsAreKeys(ClaimsAndDecodes(atOld, decodes), listed, table);
  }

  function DecodesAtNew(c: Rotation): RowTest {
    (k, r) => AtNew(c, k, r)
  }

  /** The canonical slot of the new handle is tried first, and the tag has no say in whether it opens. */
  lemma NewHandleReads(c: Rotation, k: RowKey, r: BlobRecord)
    requires AtNew(c, k, r)
    ensures Reads(c, k, r) == Some(DecodeNew(c, k, r).value.data)
  {
    assert DecodeBlob(c.to, SlotOf(c, c.to, k), Some(r), c.schema) == DecodeNew(c, k, r);
  }

  /** A row that decodes under the new handle reads the same whatever the previous handle is. */
  lemma NewHandleIsEnough(c: Rotation, k: RowKey, r: BlobRecord, other: Handle)
    requires AtNew(c, k, r)
    ensures Reads(c, k, r) == Some(DecodeNew(c, k, r).value.data)
    ensures Reads(c.(from := other), k, r) == Reads(c, k, r)
  {
    var c' := c.(from := other);
    NewHandleReads(c, k, r);
    assert NewSlot(c', k) == NewSlot(c, k);
    assert DecodeNew(c', k, r) == DecodeNew(c, k, r);
    NewHandleReads(c', k, r);
  }

  /** Dropping the old key loses nothing: when the gate of a rotation says eligible, every row of the table is
      tagged and read by the new handle alone, and it says so exactly then. */
  lemma OldKeyMayGo(c: Rotation, listed: seq<Row>, table: Table, other: Handle)
    requires Lists(listed, table)
    ensures var claiming := Claiming(Untagged(c), listed);
            |claiming| <= |listed| &&
            var (eligible, _) :=
              CheckRetirementEligibility(|listed| - |claiming|, |Failing(DecodesAtNew(c), claiming)|);
            && (eligible <==> forall k :: k in table ==> !Untagged(c)(k, table[k]) && AtNew(c, k, table[k]))
            && (eligible ==> forall k :: k in table ==>
                  && Reads(c, k, table[k]) == Some(DecodeNew(c, k, table[k]).value.data)
                  && Reads(c.(from := other), k, table[k]) == Reads(c, k, table[k]))
  {
    RetirementIsSound(DecodesAtNew(c), Untagged(c), listed, table);
    forall k | k in table && AtNew(c, k, table[k])
      ensures Reads(c, k, table[k]) == Some(DecodeNew(c, k, table[k]).value.data)
      ensures Reads(c.(from := other), k, table[k]) == Reads(c, k, table[k])
    {
      NewHandleIsEnough(c, k, table[k], other);
    }
  }

  ghost predicate AllRetired(c: Rotation, table: Table) {
    forall k :: k in table ==> !Untagged(c)(k, table[k]) && AtNew(c, k, table[k])
  }

  ghost predicate OldKeyUnneeded(c: Rotation, table: Table) {
    forall k, other :: k in table ==> Reads(c.(from := other), k, table[k]) == Reads(c, k, table[k])
  }

  lemma RetiredReadsAlone(c: Rotation, table: Table)
    requires AllRetired(c, table)
    ensures OldKeyUnneeded(c, table)
  {
    forall k, other | k in table ensures Reads(c.(from := other), k, table[k]) == Reads(c, k, table[k]) {
      NewHandleIsEnough(c, k, table[k], other);
    }
  }

  lemma RetiredMeans(c: Rotation, table: Table)
    ensures EveryKey(ClaimsAndDecodes(Untagged(c), DecodesAtNew(c)), table) <==> AllRetired(c, table)
    ensures EveryKey(Claims(Untagged(c)), table) <==> forall k :: k in table ==> !Untagged(c)(k, table[k])
  {
    if AllRetired(c, table) {
      forall k | k in table ensures ClaimsAndDecodes(Untagged(c), DecodesAtNew(c))(k, table[k]) {
      }
    }
    if EveryKey(ClaimsAndDecodes(Untagged(c), DecodesAtNew(c)), table) {
      forall k | k in table ensures !Untagged(c)(k, table[k]) && AtNew(c, k, table[k]) {
        assert ClaimsAndDecodes(Untagged(c), DecodesAtNew(c))(k, table[k]);
      }
    }
  }

  /** Count what is left at the old epoch, page through everything else, and ask the gate. */
  method VerifyThenCheck(decodes: RowTest, atOld: RowTest, listed: seq<Row>, batchSize: nat, ghost table: Table)
    returns (eligible: bool, reason: Reason)
    requires Lists(listed, table) && batchSize > 0
    ensures eligible <==> EveryKey(ClaimsAndDecodes(atOld, decodes), table)
    ensures reason == RowsNotFullyMigrated <==> !EveryKey(Claims(atOld), table)
  {
    var claiming := Claiming(atOld, listed);
    ClaimingInOrder(atOld, listed);
    RetirementIsSound(decodes, atOld, listed, table);
    var _, failures, _ := VerifyAll(decodes, claiming, batchSize);
    var gate := CheckRetirementEligibility(|listed| - |claiming|, |failures|);
    eligible, reason := gate.0, gate.1;
  }

  /** What a caller does before the old key goes. Whatever the page size, it says eligible exactly when every row
      of the table is tagged and decodes under the new handle, and then every row reads the same under any
      previous handle. */
  method VerifyAndCheck(c: Rotation, listed: seq<Row>, batchSize: nat, ghost table: Table)
    returns (eligible: bool, reason: Reason)
    requires Lists(listed, table) && batchSize > 0
    ensures eligible <==> AllRetired(c, table)
    ensures eligible ==> OldKeyUnneeded(c, table)
    ensures reason == RowsNotFullyMigrated <==> exists k :: k in table && Untagged(c)(k, table[k])
  {
    RetiredMeans(c, table);
    eligible, reason := VerifyThenCheck(DecodesAtNew(c), Untagged(c), listed, batchSize, table);
    if eligible {
      RetiredReadsAlone(c, table);
    }
  }
}
