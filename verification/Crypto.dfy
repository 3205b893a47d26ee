/**
 * The field encryption engine (core/crypto.ts) over a symbolic AEAD: a ciphertext opens only under the key,
 * the nonce and the AAD bytes it was sealed with (AES-GCM, section 7 of NIST SP 800-38D), and gzip is a pair
 * of inverses. Base64 is left out. The payload type is a parameter: encoded text for `encryptField`, the
 * JSON value itself for `encryptJson`.
 */
module Crypto {
  import opened Wrappers
  import opened Text
  import opened Aad

  type Key = nat
  type Nonce = nat

  const COMPRESS_THRESHOLD: nat := 64

  datatype Packed<+T> = Plain(value: T) | Gzipped(value: T)

  datatype Cipher<+T> = Cipher(key: Key, nonce: Nonce, aad: Text, payload: Packed<T>)

  /** `v` says how the payload is packed and which AAD serialization was used. */
  datatype EncryptedField<+T> = EncryptedField(ct: Cipher<T>, n: Nonce, v: nat, epoch: Option<nat>)

  datatype Error = UnknownVersion | MissingEpoch | AuthenticationFailed | NotGzip | NotText

  function BuildAADBytes(aad: FieldAAD, v: nat, epoch: Option<nat>): Result<Text, Error> {
    if v <= 2 then Success(BytesV1(aad))
    else if v <= 4 then Success(BytesV2(aad))
    else if epoch.None? then Failure(MissingEpoch)
    else Success(BytesV3(aad, epoch.value))
  }

  function Seal<T>(key: Key, nonce: Nonce, value: T, compress: bool, aad: FieldAAD): EncryptedField<T> {
    var payload := if compress then Gzipped(value) else Plain(value);
    if aad.epoch.Some? then
      EncryptedField(Cipher(key, nonce, BytesV3(aad, aad.epoch.value), payload), nonce,
                     if compress then 6 else 5, aad.epoch)
    else
      EncryptedField(Cipher(key, nonce, BytesV2(aad), payload), nonce, if compress then 4 else 3, None)
  }

  function Unpack<T>(payload: Packed<T>, v: nat): Result<T, Error> {
    if v == 2 || v == 4 || v == 6 then
      if payload.Gzipped? then Success(payload.value) else Failure(NotGzip)
    else
      if payload.Plain? then Success(payload.value) else Failure(NotText)
  }

  function Open<T>(key: Key, enc: EncryptedField<T>, aad: FieldAAD): Result<T, Error> {
    if enc.v < 1 || enc.v > 6 then Failure(UnknownVersion)
    else
      var bytes := BuildAADBytes(aad, enc.v, enc.epoch);
      if bytes.Failure? then Failure(bytes.error)
      else if enc.ct.key != key || enc.ct.nonce != enc.n || enc.ct.aad != bytes.value then
        Failure(AuthenticationFailed)
      else Unpack(enc.ct.payload, enc.v)
  }

  function EncryptField(key: Key, nonce: Nonce, plaintext: Text, aad: FieldAAD): EncryptedField<Text> {
    Seal(key, nonce, Encode(plaintext), ByteLength(Encode(plaintext)) > COMPRESS_THRESHOLD, aad)
  }

  function DecryptField(key: Key, enc: EncryptedField<Text>, aad: FieldAAD): Result<Text, Error> {
    var opened' := Open(key, enc, aad);
    if opened'.Failure? then opened' else Success(Decode(opened'.value))
  }

  /** JSON is always compressed. */
  function EncryptJson<T>(key: Key, nonce: Nonce, value: T, aad: FieldAAD): EncryptedField<T> {
    Seal(key, nonce, value, true, aad)
  }

  function DecryptJson<T>(key: Key, enc: EncryptedField<T>, aad: FieldAAD): Result<T, Error> {
    Open(key, enc, aad)
  }

  // ---------------------------------------------------------------------------------------------
  // Where an envelope opens
  // ---------------------------------------------------------------------------------------------

  /** However a sealed envelope is relabelled among the versions written today, it opens for exactly one
      key, slot, version and epoch: the ones it was sealed for. */
  lemma OpensOnlyInPlace<T>(key: Key, nonce: Nonce, value: T, compress: bool, aad: FieldAAD,
                            key': Key, enc: EncryptedField<T>, aad': FieldAAD)
    requires enc.ct == Seal(key, nonce, value, compress, aad).ct && 3 <= enc.v <= 6
    ensures Open(key', enc, aad').Success? <==>
            && key' == key && enc.n == nonce && SameSlot(aad, aad')
            && enc.v == Seal(key, nonce, value, compress, aad).v
            && (aad.epoch.Some? ==> enc.epoch == aad.epoch)
    ensures Open(key', enc, aad').Success? ==> Open(key', enc, aad') == Success(value)
  {
    V2Injective(aad, aad');
    if aad.epoch.Some? {
      V2NeverV3(aad', aad, aad.epoch.value);
      if enc.epoch.Some? {
        V3Injective(aad, aad.epoch.value, aad', enc.epoch.value);
      }
    } else if enc.epoch.Some? {
      V2NeverV3(aad, aad', enc.epoch.value);
    }
  }

  /** Relabelled as one of the legacy versions, a sealed envelope opens in some slot exactly for its own key and
      nonce, under the label that packs as it does, if its own slot names carry at least three separators. */
  lemma LegacyLabelOpensIff<T>(key: Key, nonce: Nonce, value: T, compress: bool, aad: FieldAAD,
                               key': Key, enc: EncryptedField<T>)
    requires enc.ct == Seal(key, nonce, value, compress, aad).ct && enc.v <= 2
    ensures (exists aad' :: Open(key', enc, aad').Success?) <==>
            && key' == key && enc.n == nonce && enc.v == (if compress then 2 else 1)
            && Pipes(aad.userId) + Pipes(aad.table) + Pipes(aad.field) + Pipes(aad.rowId) >= 3
  {
    var tail := if aad.epoch.Some? then [COMMA] + Decimal(aad.epoch.value) + [CLOSE] else [CLOSE];
    assert enc.ct.aad == Encode(Tuple(aad, tail));
    if aad.epoch.Some? {
      DecimalProper(aad.epoch.value);
    }
    assert forall i :: 0 <= i < |tail| ==> tail[i] < 0x7C;
    if aad' :| Open(key', enc, aad').Success? {
      LegacyNeedsPipes(aad, aad', tail);
    }
    if Pipes(aad.userId) + Pipes(aad.table) + Pipes(aad.field) + Pipes(aad.rowId) >= 3 {
      TuplePipes(aad, tail);
      var aad' := SplitFirst(Tuple(aad, tail));
      assert BytesV1(aad') == enc.ct.aad;
      assert key' == key && enc.n == nonce && enc.v == (if compress then 2 else 1) ==>
               Open(key', enc, aad').Success?;
    }
  }

  lemma JsonRoundTrip<T>(key: Key, nonce: Nonce, value: T, aad: FieldAAD, reader: FieldAAD)
    requires SameSlot(aad, reader)
    ensures DecryptJson(key, EncryptJson(key, nonce, value, aad), reader) == Success(value)
  {
    OpensOnlyInPlace(key, nonce, value, true, aad, key, EncryptJson(key, nonce, value, aad), reader);
  }

  /** A text field always decrypts in its slot, and to the original text exactly when that text has no
      unpaired surrogate and does not start with a byte order mark. */
  lemma FieldRoundTripIff(key: Key, nonce: Nonce, plaintext: Text, aad: FieldAAD, reader: FieldAAD)
    requires SameSlot(aad, reader)
    ensures var back := DecryptField(key, EncryptField(key, nonce, plaintext, aad), reader);
            && back.Success?
            && (back.value == plaintext <==>
                  WellFormed(plaintext) && (plaintext == [] || plaintext[0] != BYTE_ORDER_MARK))
  {
    var bytes := Encode(plaintext);
    var compress := ByteLength(bytes) > COMPRESS_THRESHOLD;
    OpensOnlyInPlace(key, nonce, bytes, compress, aad, key, EncryptField(key, nonce, plaintext, aad), reader);
    EncodeProper(plaintext);
    EncodeFixes(plaintext);
  }

  /** The version says whether the payload is compressed and whether an epoch is bound, which it then carries. */
  lemma SealSays<T>(key: Key, nonce: Nonce, value: T, compress: bool, aad: FieldAAD)
    ensures var enc := Seal(key, nonce, value, compress, aad);
            && enc.n == nonce && enc.epoch == aad.epoch && enc.ct.key == key
            && enc.v == (if aad.epoch.None? then 3 else 5) + (if compress then 1 else 0)
            && (enc.ct.payload.Gzipped? <==> compress)
  {
  }

  /** A text field is compressed exactly when it takes more than 64 bytes; JSON always is. */
  lemma CompressedIff<T>(key: Key, nonce: Nonce, plaintext: Text, value: T, aad: FieldAAD)
    ensures EncryptField(key, nonce, plaintext, aad).ct.payload.Gzipped? <==> ByteLength(plaintext) > 64
    ensures EncryptJson(key, nonce, value, aad).ct.payload.Gzipped?
  {
    EncodingKeepsLength(plaintext);
  }

  /** What cannot be a version, and a tagged version without its epoch, is refused before any key is tried. */
  lemma RefusedUnread<T>(key: Key, enc: EncryptedField<T>, aad: FieldAAD)
    ensures Open(key, enc, aad) == Failure(UnknownVersion) <==> enc.v == 0 || enc.v > 6
    ensures Open(key, enc, aad) == Failure(MissingEpoch) <==> 5 <= enc.v <= 6 && enc.epoch.None?
  {
  }
}
