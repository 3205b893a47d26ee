/**
 * Reading a row that may still be under an old AAD, or under the key of before a rotation
 * (core/legacyFallback.ts): candidates are tried in order, and the first that opens moves the row to where
 * it belongs.
 */
module LegacyFallback {
  import opened Wrappers
  import opened Versioning
  import opened Aad
  import opened BlobCodec
  import Crypto

  /** The stored row, as the IO callbacks see it. */
  class RowSlot {
    var stored: Option<BlobRecord>
    var puts: nat

    method Put(record: BlobRecord)
      modifies this
      ensures stored == Some(record) && puts == old(puts) + 1
    {
      stored, puts := Some(record), puts + 1;
    }
  }

  datatype Candidate = Candidate(handle: Handle, canonical: FieldAAD, legacy: seq<FieldAAD>)

  /** What a read returns, and the record it has put in the row on the way. */
  datatype Outcome = Outcome(result: Result<Decoded, CodecError>, written: Option<BlobRecord>)

  /** The row moved to the canonical AAD by the first legacy AAD that opens it. */
  function FirstMove(c: Candidate, nonce: Crypto.Nonce, record: Option<BlobRecord>, k: nat): Option<BlobRecord>
    requires k <= |c.legacy|
    decreases |c.legacy| - k
  {
    if k == |c.legacy| then None
    else
      var m := MigrateLegacyAAD(c.handle, nonce, record, c.legacy[k], c.canonical);
      if m.Success? && m.value.Some? then m.value else FirstMove(c, nonce, record, k + 1)
  }

  function Fallback(c: Candidate, nonce: Crypto.Nonce, record: Option<BlobRecord>, schema: Schema): Outcome {
    var canonical := DecodeBlob(c.handle, c.canonical, record, schema);
    if canonical.Success? then Outcome(canonical, None)
    else
      var moved := FirstMove(c, nonce, record, 0);
      if moved.None? then Outcome(canonical, None)
      else Outcome(DecodeBlob(c.handle, c.canonical, moved, schema), moved)
  }

  method DecodeWithLegacyFallback(c: Candidate, nonce: Crypto.Nonce, record: Option<BlobRecord>, schema: Schema,
                                  slot: RowSlot) returns (r: Result<Decoded, CodecError>)
    modifies slot
    ensures var out := Fallback(c, nonce, record, schema);
            && r == out.result
            && slot.stored == (if out.written.Some? then out.written else old(slot.stored))
            && slot.puts == old(slot.puts) + if out.written.Some? then 1 else 0
  {
    var canonical := DecodeBlob(c.handle, c.canonical, record, schema);
    if canonical.Success? {
      return canonical;
    }
    for k := 0 to |c.legacy|
      invariant FirstMove(c, nonce, record, 0) == FirstMove(c, nonce, record, k)
      invariant slot.stored == old(slot.stored) && slot.puts == old(slot.puts)
    {
      var migration := MigrateLegacyAAD(c.handle, nonce, record, c.legacy[k], c.canonical);
      if migration.Failure? || migration.value.None? {
        continue;
      }
      slot.Put(migration.value.value);
      return DecodeBlob(c.handle, c.canonical, migration.value, schema);
    }
    return canonical;
  }

  /** What the read of each candidate on its own would come to. */
  function Outcomes(cs: seq<Candidate>, nonce: Crypto.Nonce, record: Option<BlobRecord>, schema: Schema): (r: seq<Outcome>)
    ensures |r| == |cs|
    ensures forall i :: 0 <= i < |cs| ==> r[i] == Fallback(cs[i], nonce, record, schema)
  {
    seq(|cs|, i requires 0 <= i < |cs| => Fallback(cs[i], nonce, record, schema))
  }

  function Kept(out: Outcome, stored: Option<BlobRecord>): Option<BlobRecord> {
    if out.written.Some? then out.written else stored
  }

  /** The first outcome from `i` on that is a success, and the row as the reads on the way leave it. */
  function Winner(outs: seq<Outcome>, i: nat, stored: Option<BlobRecord>): (Option<(nat, Decoded)>, Option<BlobRecord>)
    requires i <= |outs|
    decreases |outs| - i
  {
    if i == |outs| then (None, stored)
    else if outs[i].result.Success? then (Some((i, outs[i].result.value)), Kept(outs[i], stored))
    else Winner(outs, i + 1, Kept(outs[i], stored))
  }

  function Hashed(record: Option<BlobRecord>): bool {
    record.Some? && record.value.contentHash.Some?
  }

  /** The read's result and the row after it. A row read by any but the first candidate is re-encrypted
      for the first. */
  function Read(cs: seq<Candidate>, nonce: Crypto.Nonce, record: Option<BlobRecord>, schema: Schema,
                stored: Option<BlobRecord>): (Result<Decoded, CodecError>, Option<BlobRecord>)
  {
    if cs == [] then (Failure(NoCandidates), stored)
    else
      var outs := Outcomes(cs, nonce, record, schema);
      var (won, after) := Winner(outs, 0, stored);
      if won.None? then
        (if outs[0].result.Failure? then outs[0].result else Failure(NoCandidates), after)
      else if won.value.0 == 0 then (Success(won.value.1), after)
      else Converged(cs[0], nonce, won.value.1.data, schema.version, Hashed(record), after)
  }

  /** The row re-encrypted for the current handle, and the read's result. */
  function Converged(target: Candidate, nonce: Crypto.Nonce, data: Json, version: int, hash: bool,
                     stored: Option<BlobRecord>): (Result<Decoded, CodecError>, Option<BlobRecord>)
  {
    var encoded := EncodeBlob(target.handle, nonce, target.canonical, data, version, hash);
    if encoded.Failure? then (Failure(encoded.error), stored)
    else (Success(Decoded(data, true)), Some(encoded.value))
  }

  method Converge(target: Candidate, nonce: Crypto.Nonce, data: Json, version: int, hash: bool, slot: RowSlot)
    returns (r: Result<Decoded, CodecError>)
    modifies slot
    ensures (r, slot.stored) == Converged(target, nonce, data, version, hash, old(slot.stored))
    ensures r.Success? ==> slot.stored.Some? && HashFits(target.handle, target.canonical, slot.stored.value)
                           && (slot.stored.value.contentHash.Some? <==> hash)
    ensures slot.puts >= old(slot.puts) && (slot.puts == old(slot.puts) ==> slot.stored == old(slot.stored))
  {
    var encoded := EncodeBlob(target.handle, nonce, target.canonical, data, version, hash);
    if encoded.Failure? {
      return Failure(encoded.error);
    }
    slot.Put(encoded.value);
    EncodedHashFits(target.handle, nonce, target.canonical, data, version, hash);
    return Success(Decoded(data, true));
  }

  /** The loop over the candidates: each is read on its own, up to the first success. */
  method TryCandidates(cs: seq<Candidate>, nonce: Crypto.Nonce, record: Option<BlobRecord>, schema: Schema,
                       slot: RowSlot) returns (won: Option<(nat, Decoded)>, firstError: Option<CodecError>)
    requires cs != []
    modifies slot
    ensures (won, slot.stored) == Winner(Outcomes(cs, nonce, record, schema), 0, old(slot.stored))
    ensures won.None? ==> firstError.Some? && Fallback(cs[0], nonce, record, schema).result == Failure(firstError.value)
    ensures slot.puts >= old(slot.puts) && (slot.puts == old(slot.puts) ==> slot.stored == old(slot.stored))
    ensures Fallback(cs[0], nonce, record, schema).written.None? && won.Some? && won.value.0 == 0 ==>
              slot.puts == old(slot.puts)
  {
    ghost var outs := Outcomes(cs, nonce, record, schema);
    firstError := None;
    for i := 0 to |cs|
      invariant Winner(outs, 0, old(slot.stored)) == Winner(outs, i, slot.stored)
      invariant i == 0 <==> firstError.None?
      invariant i > 0 ==> outs[0].result == Failure(firstError.value)
      invariant slot.puts >= old(slot.puts) && (slot.puts == old(slot.puts) ==> slot.stored == old(slot.stored))
      invariant i == 0 ==> slot.puts == old(slot.puts)
    {
      var result := DecodeWithLegacyFallback(cs[i], nonce, record, schema, slot);
      if result.Success? {
        return Some((i, result.value)), firstError;
      }
      if firstError.None? {
        firstError := Some(result.error);
      }
    }
    return None, firstError;
  }

  method DecodeWithCandidates(cs: seq<Candidate>, nonce: Crypto.Nonce, record: Option<BlobRecord>, schema: Schema,
                              slot: RowSlot) returns (r: Result<Decoded, CodecError>)
    modifies slot
    ensures (r, slot.stored) == Read(cs, nonce, record, schema, old(slot.stored))
    ensures slot.puts >= old(slot.puts) && (slot.puts == old(slot.puts) ==> slot.stored == old(slot.stored))
    ensures cs != [] && DecodeBlob(cs[0].handle, cs[0].canonical, record, schema).Success? ==> slot.puts == old(slot.puts)
  {
    if cs == [] {
      return Failure(NoCandidates);
    }
    var won, firstError := TryCandidates(cs, nonce, record, schema, slot);
    if won.None? {
      return Failure(firstError.value);
    }
    if won.value.0 == 0 {
      return Success(won.value.1);
    }
    r := Converge(cs[0], nonce, won.value.1.data, schema.version, Hashed(record), slot);
  }

  // ---------------------------------------------------------------------------------------------
  // What the fallbacks amount to
  // ---------------------------------------------------------------------------------------------

  predicate LegacyOpens(c: Candidate, record: Option<BlobRecord>, k: nat)
    requires k < |c.legacy|
  {
    record.Some? && HasBlob(record) && DecryptBlob(c.handle, c.legacy[k], record.value.blob).Success?
  }

  lemma {:induction false} FirstMoveIs(c: Candidate, nonce: Crypto.Nonce, record: Option<BlobRecord>, k: nat, first: nat)
    requires k <= first < |c.legacy| && LegacyOpens(c, record, first)
    requires forall j :: k <= j < first ==> !LegacyOpens(c, record, j)
    ensures FirstMove(c, nonce, record, k) ==
            MigrateLegacyAAD(c.handle, nonce, record, c.legacy[first], c.canonical).value
    ensures FirstMove(c, nonce, record, k).Some?
    decreases first - k
  {
    if k < first {
      assert !LegacyOpens(c, record, k);
      FirstMoveIs(c, nonce, record, k + 1, first);
    }
  }

  lemma {:induction false} NoMove(c: Candidate, nonce: Crypto.Nonce, record: Option<BlobRecord>, k: nat)
    requires k <= |c.legacy| && forall j :: k <= j < |c.legacy| ==> !LegacyOpens(c, record, j)
    ensures FirstMove(c, nonce, record, k).None?
    decreases |c.legacy| - k
  {
    if k < |c.legacy| {
      assert !LegacyOpens(c, record, k);
      NoMove(c, nonce, record, k + 1);
    }
  }

  /** When the canonical AAD fails, the answer is what the first legacy AAD that opens the row would give,
      and the row is moved; when none opens it, the answer is the canonical error and the row is untouched. */
  lemma FallbackIsFirstThatOpens(c: Candidate, nonce: Crypto.Nonce, record: BlobRecord, schema: Schema, first: nat)
    requires DecodeBlob(c.handle, c.canonical, Some(record), schema).Failure?
    requires first <= |c.legacy|
    requires forall j :: 0 <= j < first ==> !LegacyOpens(c, Some(record), j)
    requires first < |c.legacy| ==> LegacyOpens(c, Some(record), first)
    ensures var out := Fallback(c, nonce, Some(record), schema);
            if first == |c.legacy| then
              out == Outcome(DecodeBlob(c.handle, c.canonical, Some(record), schema), None)
            else
              && out.written == MigrateLegacyAAD(c.handle, nonce, Some(record), c.legacy[first], c.canonical).value
              && out.written.Some?
              && var legacy := DecodeBlob(c.handle, c.legacy[first], Some(record), schema);
                 && (legacy.Failure? ==> out.result == legacy)
                 && (legacy.Success? ==> out.result.Success? && out.result.value.data == legacy.value.data)
  {
    if first == |c.legacy| {
      NoMove(c, nonce, Some(record), 0);
    } else {
      FirstMoveIs(c, nonce, Some(record), 0, first);
      MigrationKeepsPlaintext(c.handle, nonce, record, c.legacy[first], c.canonical, c.canonical, schema);
    }
  }

  /** The read of one candidate leaves a row, if it writes one, that reads the same under its canonical AAD. */
  lemma FallbackRowOpens(c: Candidate, nonce: Crypto.Nonce, record: Option<BlobRecord>, schema: Schema)
    ensures var out := Fallback(c, nonce, record, schema);
            out.result.Success? ==>
              DecodeBlob(c.handle, c.canonical, if out.written.Some? then out.written else record, schema) == out.result
  {
  }

  lemma {:induction false} WinnerIsAtLeast(outs: seq<Outcome>, i: nat, stored: Option<BlobRecord>)
    requires i <= |outs|
    ensures var (won, _) := Winner(outs, i, stored); won.Some? ==> i <= won.value.0 < |outs|
    decreases |outs| - i
  {
    if i < |outs| {
      WinnerIsAtLeast(outs, i + 1, Kept(outs[i], stored));
    }
  }

  lemma {:induction false} WinnerIs(outs: seq<Outcome>, i: nat, stored: Option<BlobRecord>, first: nat)
    requires i <= first <= |outs|
    requires forall j :: i <= j < first ==> outs[j].result.Failure?
    requires first < |outs| ==> outs[first].result.Success?
    ensures var (won, _) := Winner(outs, i, stored);
            won == if first == |outs| then None else Some((first, outs[first].result.value))
    decreases first - i
  {
    if i < first {
      WinnerIs(outs, i + 1, Kept(outs[i], stored), first);
    }
  }

  /** Candidates in order: the first one that reads the row decides what is read, and when none does the
      error is the first candidate's. Only re-encrypting for the first candidate can still fail, when the
      row is hashed and that candidate's handle cannot hash. */
  lemma ReadIsFirstThatReads(cs: seq<Candidate>, nonce: Crypto.Nonce, record: Option<BlobRecord>, schema: Schema,
                             first: nat)
    requires cs != [] && first <= |cs|
    requires forall j :: 0 <= j < first ==> Fallback(cs[j], nonce, record, schema).result.Failure?
    requires first < |cs| ==> Fallback(cs[first], nonce, record, schema).result.Success?
    ensures var r := Read(cs, nonce, record, schema, record).0;
            if first == |cs| then
              r == Failure(Fallback(cs[0], nonce, record, schema).result.error)
            else if first > 0 && Hashed(record) && !cs[0].handle.hashes then
              r == Failure(NoHashCapability)
            else
              && r.Success? && r.value.data == Fallback(cs[first], nonce, record, schema).result.value.data
              && (first > 0 ==> r.value.upgraded)
  {
    WinnerIs(Outcomes(cs, nonce, record, schema), 0, record, first);
  }

  lemma ConvergedOpens(target: Candidate, nonce: Crypto.Nonce, data: Json, schema: Schema, hash: bool,
                       stored: Option<BlobRecord>)
    requires Converged(target, nonce, data, schema.version, hash, stored).0.Success?
    ensures var (r, after) := Converged(target, nonce, data, schema.version, hash, stored);
            && r == Success(Decoded(data, true))
            && DecodeBlob(target.handle, target.canonical, after, schema) == Success(Decoded(data, false))
  {
    EncodedDecodes(target.handle, nonce, target.canonical, data, schema.version, hash, target.canonical, schema);
  }

  /** After any successful read the row decodes for the first candidate, under its canonical AAD, to the
      data that was read; what is left to upgrade is never more than the read reported. */
  lemma ReadRowOpens(cs: seq<Candidate>, nonce: Crypto.Nonce, record: Option<BlobRecord>, schema: Schema)
    requires Read(cs, nonce, record, schema, record).0.Success?
    ensures var (r, after) := Read(cs, nonce, record, schema, record);
            && cs != []
            && var again := DecodeBlob(cs[0].handle, cs[0].canonical, after, schema);
               && again.Success? && again.value.data == r.value.data
               && (again.value.upgraded ==> r.value.upgraded)
  {
    var outs := Outcomes(cs, nonce, record, schema);
    var (won, after) := Winner(outs, 0, record);
    if outs[0].result.Success? {
      assert won == Some((0, outs[0].result.value)) && after == Kept(outs[0], record);
      FallbackRowOpens(cs[0], nonce, record, schema);
    } else {
      WinnerIsAtLeast(outs, 1, Kept(outs[0], record));
      var data := won.value.1.data;
      assert Read(cs, nonce, record, schema, record)
             == Converged(cs[0], nonce, data, schema.version, Hashed(record), after);
      ConvergedOpens(cs[0], nonce, data, schema, Hashed(record), after);
    }
  }

  /** A row that decodes for the first candidate is read as it is: nothing is tried and nothing is written. */
  lemma DecodableIsReadAsIs(cs: seq<Candidate>, nonce: Crypto.Nonce, record: Option<BlobRecord>, schema: Schema)
    requires cs != [] && DecodeBlob(cs[0].handle, cs[0].canonical, record, schema).Success?
    ensures Read(cs, nonce, record, schema, record)
            == (DecodeBlob(cs[0].handle, cs[0].canonical, record, schema), record)
  {
  }

  /** Wherever the row opens for the candidate, its hash is the digest of what is inside. */
  ghost predicate HashFitsFor(c: Candidate, r: BlobRecord) {
    forall aad :: (aad == c.canonical || aad in c.legacy) && DecryptBlob(c.handle, aad, r.blob).Success? ==>
      HashFits(c.handle, aad, r)
  }

  lemma {:induction false} MovedByOne(c: Candidate, nonce: Crypto.Nonce, record: BlobRecord, k: nat) returns (j: nat)
    requires k <= |c.legacy| && FirstMove(c, nonce, Some(record), k).Some?
    ensures j < |c.legacy| && MigrateLegacyAAD(c.handle, nonce, Some(record), c.legacy[j], c.canonical)
                              == Success(FirstMove(c, nonce, Some(record), k))
    decreases |c.legacy| - k
  {
    var m := MigrateLegacyAAD(c.handle, nonce, Some(record), c.legacy[k], c.canonical);
    if m.Success? && m.value.Some? {
      j := k;
    } else {
      j := MovedByOne(c, nonce, record, k + 1);
    }
  }

  lemma FallbackKeepsHash(c: Candidate, nonce: Crypto.Nonce, record: BlobRecord, schema: Schema)
    requires HashFitsFor(c, record) && Fallback(c, nonce, Some(record), schema).result.Success?
    ensures var after := Kept(Fallback(c, nonce, Some(record), schema), Some(record));
            && after.Some? && HashFits(c.handle, c.canonical, after.value)
            && after.value.contentHash == record.contentHash
  {
    var out := Fallback(c, nonce, Some(record), schema);
    if out.written.Some? {
      var j := MovedByOne(c, nonce, record, 0);
      MigrationKeepsHash(c.handle, nonce, record, c.legacy[j], c.canonical);
    }
  }

  /** A successful read leaves a hashed row hashed, with the digest of the envelope that is then inside it under
      the current handle, and an unhashed row unhashed. */
  lemma ReadKeepsHash(cs: seq<Candidate>, nonce: Crypto.Nonce, record: BlobRecord, schema: Schema)
    requires cs != [] && Read(cs, nonce, Some(record), schema, Some(record)).0.Success? && HashFitsFor(cs[0], record)
    ensures var after := Read(cs, nonce, Some(record), schema, Some(record)).1;
            && after.Some? && HashFits(cs[0].handle, cs[0].canonical, after.value)
            && (after.value.contentHash.Some? <==> record.contentHash.Some?)
  {
    var outs := Outcomes(cs, nonce, Some(record), schema);
    var (won, after) := Winner(outs, 0, Some(record));
    if outs[0].result.Success? {
      FallbackKeepsHash(cs[0], nonce, record, schema);
    } else {
      WinnerIsAtLeast(outs, 1, Kept(outs[0], Some(record)));
      EncodedHashFits(cs[0].handle, nonce, cs[0].canonical, won.value.1.data, schema.version, record.contentHash.Some?);
    }
  }
}
