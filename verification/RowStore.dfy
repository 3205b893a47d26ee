/** One row of a store: load, save, and the lazy write-back that makes a row converge (core/rowStore.ts). */
module RowStore {
  import opened Wrappers
  import opened Versioning
  import opened Aad
  import opened BlobCodec
  import opened LegacyFallback
  import Crypto
  import Text

  /** The one slot every cardinality converges on: field "data". */
  function CanonicalAAD(h: Handle, table: Text.Text, rowId: Text.Text): FieldAAD {
    FieldAAD(h.pid, table, [0x64, 0x61, 0x74, 0x61], rowId, None)
  }

  datatype Loaded = Loaded(data: Json, hash: Option<Mac>, upgraded: bool)

  /** The read, and the hash the row had when it was fetched. `upgraded` asks the caller for a re-save. */
  method LoadRow(cs: seq<Candidate>, nonce: Crypto.Nonce, schema: Schema, slot: RowSlot)
    returns (r: Result<Loaded, CodecError>)
    modifies slot
    ensures var (read, after) := Read(cs, nonce, old(slot.stored), schema, old(slot.stored));
            && slot.stored == after
            && (read.Failure? ==> r == Failure(read.error))
            && (read.Success? ==> r.Success? && r.value.data == read.value.data && r.value.upgraded == read.value.upgraded)
    ensures r.Success? ==>
              r.value.hash == if old(slot.stored).Some? then old(slot.stored).value.contentHash else None
    ensures slot.puts >= old(slot.puts) && (slot.puts == old(slot.puts) ==> slot.stored == old(slot.stored))
    ensures cs != [] && DecodeBlob(cs[0].handle, cs[0].canonical, old(slot.stored), schema).Success? ==>
              slot.puts == old(slot.puts)
  {
    var record := slot.stored;
    var read := DecodeWithCandidates(cs, nonce, record, schema, slot);
    match read {
      case Failure(error) => return Failure(error);
      case Success(decoded) =>
        return Success(Loaded(decoded.data, if record.Some? then record.value.contentHash else None, decoded.upgraded));
    }
  }

  method SaveRow(h: Handle, nonce: Crypto.Nonce, aad: FieldAAD, data: Json, version: int, contentHash: bool, slot: RowSlot)
    returns (r: Result<(), CodecError>)
    modifies slot
    ensures var encoded := EncodeBlob(h, nonce, aad, data, version, contentHash);
            if encoded.Success? then
              r == Success(()) && slot.stored == Some(encoded.value) && slot.puts == old(slot.puts) + 1
            else
              r == Failure(encoded.error) && slot.stored == old(slot.stored) && slot.puts == old(slot.puts)
  {
    var encoded := EncodeBlob(h, nonce, aad, data, version, contentHash);
    if encoded.Failure? {
      return Failure(encoded.error);
    }
    slot.Put(encoded.value);
    return Success(());
  }

  /** What a row holds: the data a read under the first candidate gives. */
  function Content(c: Candidate, record: Option<BlobRecord>, schema: Schema): Result<Json, CodecError> {
    var r := DecodeBlob(c.handle, c.canonical, record, schema);
    if r.Success? then Success(r.value.data) else Failure(r.error)
  }

  /** Nothing is left to write back. */
  predicate Settled(c: Candidate, record: Option<BlobRecord>, schema: Schema) {
    var r := DecodeBlob(c.handle, c.canonical, record, schema);
    r.Success? && !r.value.upgraded
  }

  /** A load followed by the re-save it asks for. */
  method LoadAndConverge(cs: seq<Candidate>, nonce: Crypto.Nonce, schema: Schema, contentHash: bool, slot: RowSlot)
    returns (r: Result<Loaded, CodecError>)
    requires cs != [] && (contentHash ==> cs[0].handle.hashes)
    modifies slot
    ensures r.Success? ==> Content(cs[0], slot.stored, schema) == Success(r.value.data)
    ensures r.Success? ==> Settled(cs[0], slot.stored, schema)
  {
    r := LoadRow(cs, nonce, schema, slot);
    if r.Success? {
      ReadRowOpens(cs, nonce, old(slot.stored), schema);
      if r.value.upgraded {
        var _ := SaveRow(cs[0].handle, nonce, cs[0].canonical, r.value.data, schema.version, contentHash, slot);
        EncodedDecodes(cs[0].handle, nonce, cs[0].canonical, r.value.data, schema.version, contentHash,
                       cs[0].canonical, schema);
      }
    }
  }

  /** Any number of loads of a row nothing is left to write back: every one returns the same data, asks for
      nothing and writes nothing. */
  method LoadManyTimes(cs: seq<Candidate>, nonces: seq<Crypto.Nonce>, schema: Schema, slot: RowSlot)
    returns (loads: seq<Loaded>)
    requires cs != [] && Settled(cs[0], slot.stored, schema)
    modifies slot
    ensures slot.stored == old(slot.stored) && slot.puts == old(slot.puts) && |loads| == |nonces|
    ensures forall k :: 0 <= k < |loads| ==>
              Success(loads[k].data) == Content(cs[0], old(slot.stored), schema) && !loads[k].upgraded
  {
    loads := [];
    for k := 0 to |nonces|
      invariant slot.stored == old(slot.stored) && slot.puts == old(slot.puts) && |loads| == k
      invariant forall j :: 0 <= j < k ==>
                  Success(loads[j].data) == Content(cs[0], old(slot.stored), schema) && !loads[j].upgraded
    {
      DecodableIsReadAsIs(cs, nonces[k], slot.stored, schema);
      var r := LoadRow(cs, nonces[k], schema, slot);
      loads := loads + [r.value];
    }
  }
}
