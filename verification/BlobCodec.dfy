/**
 * One encrypted record: encoding, decoding with migrations, and the move from an old AAD to the canonical
 * one (core/blobCodec.ts, core/legacyMigration.ts, core/wireFormat.ts). A stored blob string is represented
 * by what the wire format makes of it.
 */
module BlobCodec {
  import opened Wrappers
  import opened Versioning
  import opened Aad
  import Crypto

  /** A key handle: its pseudonymous id, its key, and whether it implements `hashContent`. */
  datatype Handle = Handle(pid: Text.Text, key: Crypto.Key, hashes: bool)

  /** A keyed digest of the plaintext envelope. */
  datatype Mac = Mac(key: Crypto.Key, payload: Json)

  /** No or an empty string, a string without the `enc:` prefix, one that does not parse, an envelope. */
  datatype Blob = Missing | Unencrypted | Unparsable | Sealed(enc: Crypto.EncryptedField<Json>)

  datatype BlobRecord = BlobRecord(schemaVersion: Option<int>, blob: Blob, contentHash: Option<Mac>)

  datatype CodecError =
    | Malformed
    | BlobMissing
    | NotEncrypted
    | NoHashCapability
    | NoCandidates
    | Undecryptable(cause: Crypto.Error)
    | Unmigratable(reason: Versioning.Error)

  datatype Decoded = Decoded(data: Json, upgraded: bool)

  /** What a store's definition contributes to decoding. */
  datatype Schema = Schema(version: int, migrators: seq<Migrator>, empty: Json)

  /** A zero version is rejected like any other missing member. */
  function ParseEncField(blob: Blob): Result<Crypto.EncryptedField<Json>, CodecError> {
    if blob.Sealed? && blob.enc.v != 0 then Success(blob.enc) else Failure(Malformed)
  }

  function DecryptBlob(h: Handle, aad: FieldAAD, blob: Blob): Result<Json, CodecError> {
    var parsed := ParseEncField(blob);
    if parsed.Failure? then Failure(parsed.error)
    else
      var raw := Crypto.DecryptJson(h.key, parsed.value, aad);
      if raw.Failure? then Failure(Undecryptable(raw.error)) else Success(raw.value)
  }

  function EncodeBlob(h: Handle, nonce: Crypto.Nonce, aad: FieldAAD, data: Json, version: int, hash: bool)
    : Result<BlobRecord, CodecError>
  {
    var envelope := ToEnvelope(data, version);
    if hash && !h.hashes then Failure(NoHashCapability)
    else Success(BlobRecord(Some(version), Sealed(Crypto.EncryptJson(h.key, nonce, envelope, aad)),
                            if hash then Some(Mac(h.key, envelope)) else None))
  }

  predicate HasBlob(record: Option<BlobRecord>) {
    record.Some? && record.value.blob != Missing && record.value.blob != Unencrypted
  }

  function DbVersion(record: BlobRecord): int {
    if record.schemaVersion.Some? then record.schemaVersion.value else 1
  }

  /** A row under a legacy AAD serialization counts as upgraded, so that it is written back. */
  function DecodeBlob(h: Handle, aad: FieldAAD, record: Option<BlobRecord>, schema: Schema)
    : Result<Decoded, CodecError>
  {
    if !HasBlob(record) then Success(Decoded(schema.empty, false))
    else
      var raw := DecryptBlob(h, aad, record.value.blob);
      if raw.Failure? then Failure(raw.error)
      else
        var opened' := FromEnvelope(raw.value, DbVersion(record.value));
        if opened'.Failure? then Failure(Unmigratable(opened'.error))
        else
          var m := Migrated(opened'.value.0, opened'.value.1, schema.version, schema.migrators);
          if m.Failure? then Failure(Unmigratable(m.error))
          else Success(Decoded(m.value.0, m.value.1 || record.value.blob.enc.v <= 2))
  }

  /** `None` when there is no row to migrate. */
  function MigrateLegacyAAD(h: Handle, nonce: Crypto.Nonce, record: Option<BlobRecord>,
                            oldAAD: FieldAAD, newAAD: FieldAAD): Result<Option<BlobRecord>, CodecError>
  {
    if record.None? then Success(None)
    else if record.value.blob.Missing? then Failure(BlobMissing)
    else if record.value.blob.Unencrypted? then Failure(NotEncrypted)
    else
      var raw := DecryptBlob(h, oldAAD, record.value.blob);
      if raw.Failure? then Failure(raw.error)
      else Success(Some(record.value.(blob := Sealed(Crypto.EncryptJson(h.key, nonce, raw.value, newAAD)))))
  }

  // ---------------------------------------------------------------------------------------------
  // Round trips
  // ---------------------------------------------------------------------------------------------

  /** What was encoded decodes in its slot to the same data, migrated from the version it was written at. */
  lemma EncodedDecodes(h: Handle, nonce: Crypto.Nonce, aad: FieldAAD, data: Json, version: int, hash: bool,
                       reader: FieldAAD, schema: Schema)
    requires SameSlot(aad, reader) && EncodeBlob(h, nonce, aad, data, version, hash).Success?
    ensures var record := EncodeBlob(h, nonce, aad, data, version, hash).value;
            var m := Migrated(data, version, schema.version, schema.migrators);
            DecodeBlob(h, reader, Some(record), schema) ==
            if m.Success? then Success(Decoded(m.value.0, m.value.1)) else Failure(Unmigratable(m.error))
  {
    Crypto.JsonRoundTrip(h.key, nonce, ToEnvelope(data, version), aad, reader);
    AuthenticatedVersionWins(data, version, version);
  }

  /** Under another key, or in another slot, nothing that was encoded decodes. */
  lemma EncodedStaysInPlace(h: Handle, nonce: Crypto.Nonce, aad: FieldAAD, data: Json, version: int, hash: bool,
                            other: Handle, reader: FieldAAD, schema: Schema)
    requires EncodeBlob(h, nonce, aad, data, version, hash).Success?
    requires other.key != h.key || !SameSlot(aad, reader)
    ensures DecodeBlob(other, reader, Some(EncodeBlob(h, nonce, aad, data, version, hash).value), schema).Failure?
  {
    Crypto.OpensOnlyInPlace(h.key, nonce, ToEnvelope(data, version), true, aad, other.key,
                            Crypto.EncryptJson(h.key, nonce, ToEnvelope(data, version), aad), reader);
  }

  /** Moving a row to the canonical AAD changes nothing a reader under that AAD can see, except that the row
      no longer needs rewriting for its serialization. */
  lemma MigrationKeepsPlaintext(h: Handle, nonce: Crypto.Nonce, record: BlobRecord, oldAAD: FieldAAD,
                                newAAD: FieldAAD, reader: FieldAAD, schema: Schema)
    requires SameSlot(newAAD, reader) && MigrateLegacyAAD(h, nonce, Some(record), oldAAD, newAAD).Success?
    ensures var moved := MigrateLegacyAAD(h, nonce, Some(record), oldAAD, newAAD).value;
            && moved.Some? && moved.value.contentHash == record.contentHash
            && var before := DecodeBlob(h, oldAAD, Some(record), schema);
               var after := DecodeBlob(h, reader, moved, schema);
               && (before.Success? <==> after.Success?)
               && (before.Failure? ==> after == before)
               && (before.Success? ==>
                     && after.value.data == before.value.data
                     && (before.value.upgraded <==> after.value.upgraded || record.blob.enc.v <= 2))
  {
    var raw := DecryptBlob(h, oldAAD, record.blob).value;
    Crypto.JsonRoundTrip(h.key, nonce, raw, newAAD, reader);
  }

  /** What is written: an envelope at the given version, which is also the database column's, and its digest when
      one is asked for. It fails exactly when a digest is asked of a handle that cannot hash. */
  lemma EncodedRecordIs(h: Handle, nonce: Crypto.Nonce, aad: FieldAAD, data: Json, version: int, hash: bool)
    ensures var r := EncodeBlob(h, nonce, aad, data, version, hash);
            && (r.Failure? <==> hash && !h.hashes) && (r.Failure? ==> r.error == NoHashCapability)
            && (r.Success? ==>
                  && r.value.schemaVersion == Some(version)
                  && DecryptBlob(h, aad, r.value.blob) == Success(ToEnvelope(data, version))
                  && r.value.contentHash == if hash then Some(Mac(h.key, ToEnvelope(data, version))) else None)
  {
    Crypto.JsonRoundTrip(h.key, nonce, ToEnvelope(data, version), aad, aad);
  }

  /** Only an envelope with a version is tried; from there on the key, the nonce and the AAD decide. */
  lemma MalformedIff(h: Handle, aad: FieldAAD, blob: Blob)
    ensures DecryptBlob(h, aad, blob) == Failure(Malformed) <==> !blob.Sealed? || blob.enc.v == 0
    ensures blob.Sealed? && blob.enc.v != 0 ==>
              var opened' := Crypto.DecryptJson(h.key, blob.enc, aad);
              if opened'.Success? then DecryptBlob(h, aad, blob) == Success(opened'.value)
              else DecryptBlob(h, aad, blob) == Failure(Undecryptable(opened'.error))
  {
  }

  /** No row, or a row without an encrypted blob, reads as the empty value. */
  lemma NothingStoredIsEmpty(h: Handle, aad: FieldAAD, record: Option<BlobRecord>, schema: Schema)
    requires record.None? || record.value.blob.Missing? || record.value.blob.Unencrypted?
    ensures DecodeBlob(h, aad, record, schema) == Success(Decoded(schema.empty, false))
  {
  }

  /** A payload from before envelopes is at the version of the database column, or at version 1 without one. */
  lemma UnversionedRow(h: Handle, aad: FieldAAD, record: BlobRecord, raw: Json, schema: Schema)
    requires DecryptBlob(h, aad, record.blob) == Success(raw) && HasBlob(Some(record))
    requires raw.Arr? || raw.Obj?
    requires raw.Obj? ==> "_v" !in raw.members || "d" !in raw.members || !raw.members["_v"].Number?
    ensures var m := Migrated(raw, if record.schemaVersion.Some? then record.schemaVersion.value else 1,
                              schema.version, schema.migrators);
            var d := DecodeBlob(h, aad, Some(record), schema);
            if m.Success? then d.Success? && d.value.data == m.value.0 else d == Failure(Unmigratable(m.error))
  {
    UnversionedIsTakenAsIs(raw, DbVersion(record));
  }

  /** The hash of a row, if it has one, is the digest of the envelope inside it. */
  ghost predicate HashFits(h: Handle, aad: FieldAAD, r: BlobRecord) {
    r.contentHash.Some? && HasBlob(Some(r)) ==>
      DecryptBlob(h, aad, r.blob).Success? && r.contentHash == Some(Mac(h.key, DecryptBlob(h, aad, r.blob).value))
  }

  lemma EncodedHashFits(h: Handle, nonce: Crypto.Nonce, aad: FieldAAD, data: Json, version: int, hash: bool)
    requires EncodeBlob(h, nonce, aad, data, version, hash).Success?
    ensures var r := EncodeBlob(h, nonce, aad, data, version, hash).value;
            HashFits(h, aad, r) && (r.contentHash.Some? <==> hash)
  {
    EncodedRecordIs(h, nonce, aad, data, version, hash);
  }

  /** The move to another AAD keeps a fitting hash fitting. */
  lemma MigrationKeepsHash(h: Handle, nonce: Crypto.Nonce, record: BlobRecord, oldAAD: FieldAAD, newAAD: FieldAAD)
    requires MigrateLegacyAAD(h, nonce, Some(record), oldAAD, newAAD).Success? && HashFits(h, oldAAD, record)
    ensures var moved := MigrateLegacyAAD(h, nonce, Some(record), oldAAD, newAAD).value;
            moved.Some? && HashFits(h, newAAD, moved.value) && moved.value.contentHash == record.contentHash
  {
    Crypto.JsonRoundTrip(h.key, nonce, DecryptBlob(h, oldAAD, record.blob).value, newAAD, newAAD);
  }
}
