/** Moving one row, and then all of them, to a new key (core/rotationMigration.ts, `rotateEpoch` of core/store.ts). */
module RotationMigration {
  import opened Wrappers
  import opened Versioning
  import opened Aad
  import opened BlobCodec
  import opened LegacyFallback
  import opened RotationPass
  import opened RowStore
  import Crypto
  import Text

  /** A store in the middle of a rotation. A `perUser` row is addressed by the handle's own pid, so its slot
      changes with the handle; any other row keeps its key. */
  datatype Rotation = Rotation(
    table: Text.Text,
    perUser: bool,
    from: Handle,
    to: Handle,
    epoch: nat,
    schema: Schema,
    contentHash: bool,
    legacy: (Handle, RowKey) -> seq<FieldAAD>
  )

  predicate Proper(c: Rotation) {
    c.from.key != c.to.key && c.to.hashes
  }

  function SlotOf(c: Rotation, h: Handle, k: RowKey): FieldAAD {
    CanonicalAAD(h, c.table, if c.perUser then h.pid else k)
  }

  /** Two handles share a row's slot exactly when they share the pid and, but for a `perUser` store, the key. */
  lemma SharedSlotIff(c: Rotation, h: Handle, h': Handle, k: RowKey, k': RowKey)
    ensures SameSlot(SlotOf(c, h, k), SlotOf(c, h', k')) <==> h.pid == h'.pid && (c.perUser || k == k')
  {
  }

  function NewSlot(c: Rotation, k: RowKey): FieldAAD {
    SlotOf(c, c.to, k).(epoch := Some(c.epoch))
  }

  function DecodeNew(c: Rotation, k: RowKey, r: BlobRecord): Result<Decoded, CodecError> {
    DecodeBlob(c.to, NewSlot(c, k), Some(r), c.schema)
  }

  function DecodeOld(c: Rotation, k: RowKey, r: BlobRecord): Result<Decoded, CodecError> {
    DecodeBlob(c.from, SlotOf(c, c.from, k), Some(r), c.schema)
  }

  predicate AtNew(c: Rotation, k: RowKey, r: BlobRecord) {
    DecodeNew(c, k, r).Success?
  }

  /** `None` stands for "already-migrated". */
  function ReencryptRowIfNeeded(c: Rotation, nonce: Crypto.Nonce, k: RowKey, r: BlobRecord)
    : Result<Option<BlobRecord>, CodecError>
  {
    if DecodeNew(c, k, r).Success? then Success(None)
    else
      var old' := DecodeOld(c, k, r);
      if old'.Failure? then Failure(old'.error)
      else
        var encoded := EncodeBlob(c.to, nonce, NewSlot(c, k), old'.value.data, c.schema.version, r.contentHash.Some?);
        if encoded.Failure? then Failure(encoded.error) else Success(Some(encoded.value))
  }

  /** The data a row holds, for a reader that has both handles. */
  function Holds(c: Rotation, k: RowKey, r: BlobRecord): Option<Json> {
    if DecodeNew(c, k, r).Success? then Some(DecodeNew(c, k, r).value.data)
    else if DecodeOld(c, k, r).Success? then Some(DecodeOld(c, k, r).value.data)
    else None
  }

  /** A re-encrypted row is at the new key, up to date, tagged with the epoch, and holds what it held. */
  lemma ReencryptedHolds(c: Rotation, nonce: Crypto.Nonce, k: RowKey, r: BlobRecord)
    requires Proper(c)
    ensures var out := ReencryptRowIfNeeded(c, nonce, k, r);
            && (out.Failure? <==> Holds(c, k, r).None?)
            && (out == Success(None) <==> AtNew(c, k, r))
            && (out.Success? && out.value.Some? ==>
                  && AtNew(c, k, out.value.value) && Holds(c, k, out.value.value) == Holds(c, k, r)
                  && !DecodeNew(c, k, out.value.value).value.upgraded
                  && out.value.value.blob.enc.epoch == Some(c.epoch))
  {
    if !AtNew(c, k, r) && DecodeOld(c, k, r).Success? {
      EncodedDecodes(c.to, nonce, NewSlot(c, k), DecodeOld(c, k, r).value.data, c.schema.version,
                     r.contentHash.Some?, NewSlot(c, k), c.schema);
    }
  }

  // ---------------------------------------------------------------------------------------------
  // One pass over a store
  // ---------------------------------------------------------------------------------------------

  function DecisionOf(c: Rotation, nonce: Crypto.Nonce): Decision {
    (k, r) => ReencryptRowIfNeeded(c, nonce, k, r)
  }

  lemma PassedRow(c: Rotation, nonce: Crypto.Nonce, k: RowKey, r: BlobRecord)
    requires Proper(c)
    ensures var f := DecisionOf(c, nonce);
            var after := Passed(f, k, r);
            && Holds(c, k, after) == Holds(c, k, r)
            && (AtNew(c, k, after) <==> f(k, r).Success?)
            && (f(k, after) == Success(None) <==> AtNew(c, k, after))
  {
    ReencryptedHolds(c, nonce, k, r);
  }

  /** A pass keeps what every row holds. It reports no failure exactly when it leaves every row at the new
      key, and then another pass migrates nothing. */
  lemma CompletePass(c: Rotation, nonce: Crypto.Nonce, rows: Table, listed: seq<Row>, relisted: seq<Row>)
    requires Proper(c)
    requires var after := PassedAll(DecisionOf(c, nonce), rows); Lists(listed, rows) && Lists(relisted, after)
    ensures var f := DecisionOf(c, nonce);
            var after := PassedAll(f, rows);
            var first, second := Tallied(f, listed, |listed|), Tallied(f, relisted, |relisted|);
            && (forall k :: k in rows ==> Holds(c, k, after[k]) == Holds(c, k, rows[k]))
            && (first.failed == [] <==> forall k :: k in after ==> AtNew(c, k, after[k]))
            && (first.failed == [] <==> second.failed == [] && second.migrated == 0)
  {
    var f := DecisionOf(c, nonce);
    var after := PassedAll(f, rows);
    forall k | k in rows
      ensures Holds(c, k, after[k]) == Holds(c, k, rows[k])
      ensures AtNew(c, k, after[k]) <==> f(k, rows[k]).Success?
      ensures f(k, after[k]) == Success(None) <==> AtNew(c, k, after[k])
    {
      PassedRow(c, nonce, k, rows[k]);
    }
    TallyOfTable(f, listed, rows);
    TallyOfTable(f, relisted, after);
  }
}
