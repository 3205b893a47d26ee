/**
 * A rotation as it really runs: passes cut at any row, reads that fall back to the previous key and write
 * back, lazy re-saves, all interleaved. Every write is decided from a record its author has read, which may
 * be any record the row has ever been.
 */
module RotationRuns {
  import opened Wrappers
  import opened Versioning
  import opened Aad
  import opened BlobCodec
  import opened LegacyFallback
  import opened RowStore
  import opened RotationPass
  import opened RotationMigration
  import Crypto

  /** The rows, and every record a row has ever been. */
  datatype State = State(rows: Table, seen: set<Row>)

  /** One write, by somebody who has read `r`: a rotation pass; a read moving the row to its handle's
      canonical AAD, for the new or for the previous handle; a read converging the row to the new handle;
      the re-save a read asks for. */
  datatype Write =
    | Rotates(k: RowKey, r: BlobRecord, nonce: Crypto.Nonce)
    | MovesToNewSlot(k: RowKey, r: BlobRecord, nonce: Crypto.Nonce)
    | MovesToOldSlot(k: RowKey, r: BlobRecord, nonce: Crypto.Nonce)
    | Converges(k: RowKey, r: BlobRecord, nonce: Crypto.Nonce)
    | Resaves(k: RowKey, r: BlobRecord, nonce: Crypto.Nonce)

  function NewCandidate(c: Rotation, k: RowKey): Candidate {
    Candidate(c.to, SlotOf(c, c.to, k), c.legacy(c.to, k))
  }

  function OldCandidate(c: Rotation, k: RowKey): Candidate {
    Candidate(c.from, SlotOf(c, c.from, k), c.legacy(c.from, k))
  }

  function ByNew(c: Rotation, k: RowKey, nonce: Crypto.Nonce, r: BlobRecord): Outcome {
    Fallback(NewCandidate(c, k), nonce, Some(r), c.schema)
  }

  function ByOld(c: Rotation, k: RowKey, nonce: Crypto.Nonce, r: BlobRecord): Outcome {
    Fallback(OldCandidate(c, k), nonce, Some(r), c.schema)
  }

  function Rewritten(c: Rotation, k: RowKey, nonce: Crypto.Nonce, data: Json, hash: bool): Option<BlobRecord> {
    var encoded := EncodeBlob(c.to, nonce, SlotOf(c, c.to, k), data, c.schema.version, hash);
    if encoded.Success? then Some(encoded.value) else None
  }

  /** The record written, if the author has a reason to write. */
  function Written(c: Rotation, w: Write): Option<BlobRecord> {
    match w
    case Rotates(k, r, nonce) =>
      var out := ReencryptRowIfNeeded(c, nonce, k, r);
      if out.Success? then out.value else None
    case MovesToNewSlot(k, r, nonce) => ByNew(c, k, nonce, r).written
    case MovesToOldSlot(k, r, nonce) =>
      if ByNew(c, k, nonce, r).result.Failure? then ByOld(c, k, nonce, r).written else None
    case Converges(k, r, nonce) =>
      if ByNew(c, k, nonce, r).result.Failure? && ByOld(c, k, nonce, r).result.Success? then
        Rewritten(c, k, nonce, ByOld(c, k, nonce, r).result.value.data, r.contentHash.Some?)
      else None
    case Resaves(k, r, nonce) =>
      if Reads(c, k, r).Some? then Rewritten(c, k, nonce, Reads(c, k, r).value, c.contentHash) else None
  }

  /** What a reader that has both handles gets. */
  function Reads(c: Rotation, k: RowKey, r: BlobRecord): Option<Json> {
    if ByNew(c, k, 0, r).result.Success? then Some(ByNew(c, k, 0, r).result.value.data)
    else if ByOld(c, k, 0, r).result.Success? then Some(ByOld(c, k, 0, r).result.value.data)
    else None
  }

  /** The row is encrypted under the new key. */
  predicate UnderNewKey(c: Rotation, r: BlobRecord) {
    r.blob.Sealed? && r.blob.enc.ct.key == c.to.key
  }

  predicate Enabled(st: State, w: Write) {
    w.k in st.rows && (w.k, w.r) in st.seen
  }

  function Step(c: Rotation, st: State, w: Write): State {
    var written := Written(c, w);
    if written.None? then st
    else State(st.rows[w.k := written.value], st.seen + {(w.k, written.value)})
  }

  predicate RunOf(c: Rotation, st: State, ws: seq<Write>)
    decreases |ws|
  {
    ws == [] || (Enabled(st, ws[0]) && RunOf(c, Step(c, st, ws[0]), ws[1..]))
  }

  function After(c: Rotation, st: State, ws: seq<Write>): State
    decreases |ws|
  {
    if ws == [] then st else After(c, Step(c, st, ws[0]), ws[1..])
  }

  // ---------------------------------------------------------------------------------------------
  // One write
  // ---------------------------------------------------------------------------------------------

  lemma {:induction false} WrongKeyMovesNothing(a: Candidate, nonce: Crypto.Nonce, r: BlobRecord, j: nat)
    requires r.blob.Sealed? && r.blob.enc.ct.key != a.handle.key && j <= |a.legacy|
    ensures FirstMove(a, nonce, Some(r), j).None?
    decreases |a.legacy| - j
  {
    if j < |a.legacy| {
      WrongKeyMovesNothing(a, nonce, r, j + 1);
    }
  }

  lemma WrongKeyReadsNothing(a: Candidate, nonce: Crypto.Nonce, r: BlobRecord, schema: Schema)
    requires r.blob.Sealed? && r.blob.enc.ct.key != a.handle.key
    ensures var out := Fallback(a, nonce, Some(r), schema); out.result.Failure? && out.written.None?
  {
    WrongKeyMovesNothing(a, nonce, r, 0);
  }

  /** The nonce a read would encrypt with has no say in what it reads or whether it writes. */
  lemma NonceDoesNotMatter(a: Candidate, nonce: Crypto.Nonce, r: BlobRecord, schema: Schema)
    ensures var out, out0 := Fallback(a, nonce, Some(r), schema), Fallback(a, 0, Some(r), schema);
            && (out.result.Success? <==> out0.result.Success?) && (out.written.Some? <==> out0.written.Some?)
            && (out.result.Success? ==> out.result.value.data == out0.result.value.data)
  {
    if DecodeBlob(a.handle, a.canonical, Some(r), schema).Failure? {
      var first := FirstLegacy(a, r, 0);
      FallbackIsFirstThatOpens(a, nonce, r, schema, first);
      FallbackIsFirstThatOpens(a, 0, r, schema, first);
    }
  }

  lemma {:induction false} FirstLegacy(a: Candidate, r: BlobRecord, j: nat) returns (first: nat)
    requires j <= |a.legacy|
    ensures j <= first <= |a.legacy| && (forall i :: j <= i < first ==> !LegacyOpens(a, Some(r), i))
    ensures first < |a.legacy| ==> LegacyOpens(a, Some(r), first)
    decreases |a.legacy| - j
  {
    if j == |a.legacy| || LegacyOpens(a, Some(r), j) {
      first := j;
    } else {
      first := FirstLegacy(a, r, j + 1);
    }
  }

  /** A record a candidate has just written reads back under its canonical AAD. */
  lemma OwnRowReads(c: Rotation, k: RowKey, r: BlobRecord, data: Json)
    requires DecodeBlob(c.to, SlotOf(c, c.to, k), Some(r), c.schema).Success?
    requires DecodeBlob(c.to, SlotOf(c, c.to, k), Some(r), c.schema).value.data == data
    ensures Reads(c, k, r) == Some(data)
  {
  }

  lemma RewrittenReads(c: Rotation, k: RowKey, nonce: Crypto.Nonce, data: Json, hash: bool)
    requires Rewritten(c, k, nonce, data, hash).Some?
    ensures var w := Rewritten(c, k, nonce, data, hash).value;
            Reads(c, k, w) == Some(data) && UnderNewKey(c, w)
  {
    EncodedDecodes(c.to, nonce, SlotOf(c, c.to, k), data, c.schema.version, hash, SlotOf(c, c.to, k), c.schema);
    OwnRowReads(c, k, Rewritten(c, k, nonce, data, hash).value, data);
  }

  /** A pass has something to write exactly for a row that decodes with the old handle and not with the new one;
      a load can re-save exactly what it can read. */
  lemma WritesIff(c: Rotation, k: RowKey, r: BlobRecord, nonce: Crypto.Nonce)
    requires Proper(c)
    ensures Written(c, Rotates(k, r, nonce)).Some? <==>
            DecodeNew(c, k, r).Failure? && DecodeOld(c, k, r).Success?
    ensures Written(c, Resaves(k, r, nonce)).Some? <==>
            ByNew(c, k, nonce, r).result.Success? || ByOld(c, k, nonce, r).result.Success?
  {
    NonceDoesNotMatter(NewCandidate(c, k), nonce, r, c.schema);
    NonceDoesNotMatter(OldCandidate(c, k), nonce, r, c.schema);
  }

  lemma RotatedReads(c: Rotation, k: RowKey, r: BlobRecord, nonce: Crypto.Nonce)
    requires Proper(c) && Written(c, Rotates(k, r, nonce)).Some?
    ensures var w := Written(c, Rotates(k, r, nonce)).value;
            Reads(c, k, w) == Reads(c, k, r) && Reads(c, k, r).Some? && UnderNewKey(c, w)
  {
    var w := Written(c, Rotates(k, r, nonce)).value;
    var data := DecodeOld(c, k, r).value.data;
    WrongKeyReadsNothing(NewCandidate(c, k), 0, r, c.schema);
    EncodedDecodes(c.to, nonce, NewSlot(c, k), data, c.schema.version, r.contentHash.Some?, SlotOf(c, c.to, k), c.schema);
    OwnRowReads(c, k, w, data);
  }

  /** A legacy AAD that opened the row was used with the row's own key. */
  lemma {:induction false} MoverHasTheKey(a: Candidate, nonce: Crypto.Nonce, r: BlobRecord, j: nat)
    requires j <= |a.legacy| && FirstMove(a, nonce, Some(r), j).Some?
    ensures var w := FirstMove(a, nonce, Some(r), j).value;
            && r.blob.Sealed? && r.blob.enc.ct.key == a.handle.key
            && w.blob.Sealed? && w.blob.enc.ct.key == a.handle.key
    decreases |a.legacy| - j
  {
    var m := MigrateLegacyAAD(a.handle, nonce, Some(r), a.legacy[j], a.canonical);
    if m.Failure? || m.value.None? {
      MoverHasTheKey(a, nonce, r, j + 1);
    }
  }

  lemma MovedReads(c: Rotation, k: RowKey, r: BlobRecord, nonce: Crypto.Nonce)
    requires Proper(c) && Reads(c, k, r).Some?
    ensures var w := Written(c, MovesToNewSlot(k, r, nonce));
            w.Some? ==> Reads(c, k, w.value) == Reads(c, k, r) && UnderNewKey(c, w.value)
  {
    var w := Written(c, MovesToNewSlot(k, r, nonce));
    if w.Some? {
      MoverHasTheKey(NewCandidate(c, k), nonce, r, 0);
      WrongKeyReadsNothing(OldCandidate(c, k), 0, r, c.schema);
      NonceDoesNotMatter(NewCandidate(c, k), nonce, r, c.schema);
      OwnRowReads(c, k, w.value, Reads(c, k, r).value);
    }
  }

  lemma MovedBackReads(c: Rotation, k: RowKey, r: BlobRecord, nonce: Crypto.Nonce)
    requires Proper(c) && Reads(c, k, r).Some?
    ensures var w := Written(c, MovesToOldSlot(k, r, nonce));
            w.Some? ==> Reads(c, k, w.value) == Reads(c, k, r) && !UnderNewKey(c, w.value)
  {
    var w := Written(c, MovesToOldSlot(k, r, nonce));
    if w.Some? {
      MoverHasTheKey(OldCandidate(c, k), nonce, r, 0);
      WrongKeyReadsNothing(NewCandidate(c, k), 0, r, c.schema);
      WrongKeyReadsNothing(NewCandidate(c, k), 0, w.value, c.schema);
      NonceDoesNotMatter(OldCandidate(c, k), nonce, r, c.schema);
      assert DecodeOld(c, k, w.value) == ByOld(c, k, nonce, r).result;
    }
  }

  lemma ConvergedReads(c: Rotation, k: RowKey, r: BlobRecord, nonce: Crypto.Nonce)
    requires Written(c, Converges(k, r, nonce)).Some?
    ensures var w := Written(c, Converges(k, r, nonce)).value;
            Reads(c, k, w) == Reads(c, k, r) && UnderNewKey(c, w)
  {
    NonceDoesNotMatter(NewCandidate(c, k), nonce, r, c.schema);
    NonceDoesNotMatter(OldCandidate(c, k), nonce, r, c.schema);
    RewrittenReads(c, k, nonce, Reads(c, k, r).value, r.contentHash.Some?);
  }

  /** Every write keeps what a reader gets, and only the move to the old handle's slot leaves the row under
      the old key. */
  lemma WriteKeepsData(c: Rotation, w: Write)
    requires Proper(c) && Reads(c, w.k, w.r).Some? && Written(c, w).Some?
    ensures Reads(c, w.k, Written(c, w).value) == Reads(c, w.k, w.r)
    ensures UnderNewKey(c, Written(c, w).value) <==> !w.MovesToOldSlot?
  {
    match w
    case Rotates(k, r, nonce) => RotatedReads(c, k, r, nonce);
    case MovesToNewSlot(k, r, nonce) => MovedReads(c, k, r, nonce);
    case MovesToOldSlot(k, r, nonce) => MovedBackReads(c, k, r, nonce);
    case Converges(k, r, nonce) => ConvergedReads(c, k, r, nonce);
    case Resaves(k, r, nonce) => RewrittenReads(c, k, nonce, Reads(c, k, r).value, c.contentHash);
  }

  // ---------------------------------------------------------------------------------------------
  // Whole runs
  // ---------------------------------------------------------------------------------------------

  /** Everything row `k` has ever been reads as its data. The other rows may be anything. */
  ghost predicate RowReads(c: Rotation, st: State, k: RowKey, data: Json) {
    k in st.rows && (k, st.rows[k]) in st.seen && forall r :: (k, r) in st.seen ==> Reads(c, k, r) == Some(data)
  }

  lemma StepKeepsData(c: Rotation, st: State, w: Write, k: RowKey, data: Json)
    requires Proper(c) && RowReads(c, st, k, data) && Enabled(st, w)
    ensures RowReads(c, Step(c, st, w), k, data)
  {
    if w.k == k && Written(c, w).Some? {
      WriteKeepsData(c, w);
    }
  }

  /** Rotation preserves data over whole runs: whatever passes, reads and re-saves do in whatever order, and
      wherever they are cut, a row that can be read still reads as what it was. */
  lemma {:induction false} RotationKeepsData(c: Rotation, st: State, ws: seq<Write>, k: RowKey, data: Json)
    requires Proper(c) && RowReads(c, st, k, data) && RunOf(c, st, ws)
    ensures var f := After(c, st, ws);
            f.rows.Keys == st.rows.Keys && Reads(c, k, f.rows[k]) == Some(data) && RowReads(c, f, k, data)
    decreases |ws|
  {
    if ws != [] {
      StepKeepsData(c, st, ws[0], k, data);
      RotationKeepsData(c, Step(c, st, ws[0]), ws[1..], k, data);
    }
  }

  /** A write takes a row from the new key back to the old one exactly when it is the move to the old
      handle's canonical slot. */
  lemma MovesBackIff(c: Rotation, st: State, w: Write, k: RowKey, data: Json)
    requires Proper(c) && RowReads(c, st, k, data) && Enabled(st, w) && UnderNewKey(c, st.rows[k])
    ensures !UnderNewKey(c, Step(c, st, w).rows[k]) <==> w.MovesToOldSlot? && w.k == k && Written(c, w).Some?
  {
    if w.k == k && Written(c, w).Some? {
      WriteKeepsData(c, w);
    }
  }

  /** A store without `legacyAAD` has no such move. */
  lemma NoLegacyNoMove(c: Rotation, w: Write)
    requires w.MovesToOldSlot? && c.legacy(c.from, w.k) == []
    ensures Written(c, w).None?
  {
  }

  /** A run rotates `k` when one of its passes meets the row and re-encrypts it. */
  predicate RotatesRow(c: Rotation, ws: seq<Write>, k: RowKey) {
    exists i :: 0 <= i < |ws| && ws[i].Rotates? && ws[i].k == k && Written(c, ws[i]).Some?
  }

  /** Without `legacyAAD` a row under the new key stays there, so that a row some pass has rotated is under
      the new key at the end, whatever else runs. */
  lemma {:induction false} RotatedRowsStay(c: Rotation, st: State, ws: seq<Write>, k: RowKey, data: Json)
    requires Proper(c) && RowReads(c, st, k, data) && RunOf(c, st, ws) && c.legacy(c.from, k) == []
    requires UnderNewKey(c, st.rows[k]) || RotatesRow(c, ws, k)
    ensures k in After(c, st, ws).rows && UnderNewKey(c, After(c, st, ws).rows[k])
    decreases |ws|
  {
    if ws != [] {
      var next := Step(c, st, ws[0]);
      StepKeepsData(c, st, ws[0], k, data);
      if UnderNewKey(c, st.rows[k]) {
        MovesBackIff(c, st, ws[0], k, data);
        if ws[0].MovesToOldSlot? && ws[0].k == k {
          NoLegacyNoMove(c, ws[0]);
        }
      } else {
        var i :| 0 <= i < |ws| && ws[i].Rotates? && ws[i].k == k && Written(c, ws[i]).Some?;
        if i == 0 {
          WriteKeepsData(c, ws[0]);
        } else {
          assert ws[1..][i - 1] == ws[i];
        }
      }
      RotatedRowsStay(c, next, ws[1..], k, data);
    }
  }

  /** With `legacyAAD`, a reader that fetched the row before it was converged can still put its own move to
      the old slot afterwards, taking the row back under the old key. */
  lemma StaleMoveGoesBack(c: Rotation, st: State, k: RowKey, nonce: Crypto.Nonce, data: Json)
    requires Proper(c) && RowReads(c, st, k, data)
    requires Written(c, MovesToOldSlot(k, st.rows[k], nonce)).Some?
    ensures var converge, move := Converges(k, st.rows[k], nonce), MovesToOldSlot(k, st.rows[k], nonce);
            var st1 := Step(c, st, converge);
            && Enabled(st, converge) && k in st1.rows && UnderNewKey(c, st1.rows[k])
            && Enabled(st1, move) && k in Step(c, st1, move).rows && !UnderNewKey(c, Step(c, st1, move).rows[k])
  {
    var r := st.rows[k];
    ConvergesToo(c, k, r, nonce);
    WriteKeepsData(c, Converges(k, r, nonce));
    WriteKeepsData(c, MovesToOldSlot(k, r, nonce));
  }

  lemma ConvergesToo(c: Rotation, k: RowKey, r: BlobRecord, nonce: Crypto.Nonce)
    requires Proper(c) && Reads(c, k, r).Some? && Written(c, MovesToOldSlot(k, r, nonce)).Some?
    ensures Written(c, Converges(k, r, nonce)).Some?
  {
    NonceDoesNotMatter(NewCandidate(c, k), nonce, r, c.schema);
    NonceDoesNotMatter(OldCandidate(c, k), nonce, r, c.schema);
  }

  // ---------------------------------------------------------------------------------------------
  // Two things a pass does not do
  // ---------------------------------------------------------------------------------------------

  /** `rotateEpoch` writes without looking at the row again: a row that was edited since the pass listed it
      as `listed` keeps its edit exactly when the pass had nothing to write, or the edit changed nothing. */
  lemma EditSurvivesIff(c: Rotation, k: RowKey, listed: BlobRecord, edited: BlobRecord, nonce: Crypto.Nonce)
    requires Proper(c)
    ensures var w := Written(c, Rotates(k, listed, nonce));
            var after := if w.Some? then w.value else edited;
            Reads(c, k, after) == Reads(c, k, edited) <==> w.None? || Reads(c, k, edited) == Reads(c, k, listed)
  {
    if Written(c, Rotates(k, listed, nonce)).Some? {
      RotatedReads(c, k, listed, nonce);
    }
  }

  /** A row that a read has converged carries no epoch, and every pass then takes it for migrated. */
  lemma ConvergedRowStaysUntagged(c: Rotation, k: RowKey, r: BlobRecord, nonce: Crypto.Nonce, other: Crypto.Nonce)
    requires Written(c, Converges(k, r, nonce)).Some?
    ensures var w := Written(c, Converges(k, r, nonce)).value;
            && w.blob.Sealed? && w.blob.enc.v == 4 && w.blob.enc.epoch == None
            && ReencryptRowIfNeeded(c, other, k, w) == Success(None)
  {
    NonceDoesNotMatter(NewCandidate(c, k), nonce, r, c.schema);
    NonceDoesNotMatter(OldCandidate(c, k), nonce, r, c.schema);
    EncodedDecodes(c.to, nonce, SlotOf(c, c.to, k), Reads(c, k, r).value, c.schema.version, r.contentHash.Some?,
                   NewSlot(c, k), c.schema);
  }

  predicate FirstOpens(a: Candidate, r: BlobRecord, j: nat)
    requires j < |a.legacy|
  {
    LegacyOpens(a, Some(r), j) && forall i: nat :: i < j ==> !LegacyOpens(a, Some(r), i)
  }

  /** The first legacy AAD that opens the row gives data at the schema's version. */
  ghost predicate LegacyReads(a: Candidate, r: BlobRecord, schema: Schema) {
    exists j: nat :: j < |a.legacy| && FirstOpens(a, r, j) && DecodeBlob(a.handle, a.legacy[j], Some(r), schema).Success?
  }

  lemma FallsBackIff(a: Candidate, nonce: Crypto.Nonce, r: BlobRecord, schema: Schema)
    requires DecodeBlob(a.handle, a.canonical, Some(r), schema).Failure?
    ensures Fallback(a, nonce, Some(r), schema).result.Success? <==> LegacyReads(a, r, schema)
  {
    var first := FirstLegacy(a, r, 0);
    FallbackIsFirstThatOpens(a, nonce, r, schema, first);
    if LegacyReads(a, r, schema) {
      var j: nat :| j < |a.legacy| && FirstOpens(a, r, j) && DecodeBlob(a.handle, a.legacy[j], Some(r), schema).Success?;
      assert j == first;
    }
  }

  /** A pass tries only canonical slots. It fails on a row that a reader can still read exactly when the row
      decodes in neither handle's canonical slot, but in the first legacy one that opens it for one of them. */
  lemma PassMissesReadableIff(c: Rotation, nonce: Crypto.Nonce, k: RowKey, r: BlobRecord)
    requires Proper(c)
    ensures ReencryptRowIfNeeded(c, nonce, k, r).Failure? && Reads(c, k, r).Some? <==>
            && Holds(c, k, r).None?
            && (LegacyReads(NewCandidate(c, k), r, c.schema) || LegacyReads(OldCandidate(c, k), r, c.schema))
  {
    ReencryptedHolds(c, nonce, k, r);
    if Holds(c, k, r).None? {
      FallsBackIff(NewCandidate(c, k), 0, r, c.schema);
      FallsBackIff(OldCandidate(c, k), 0, r, c.schema);
    }
  }

  /** The writes of these runs are those of a read that has both handles: it leaves the row as the last of them
      does, converging where only the previous handle reads it. */
  lemma ReadsWriteThese(c: Rotation, nonce: Crypto.Nonce, k: RowKey, r: BlobRecord)
    ensures var (result, after) := Read([NewCandidate(c, k), OldCandidate(c, k)], nonce, Some(r), c.schema, Some(r));
            var toNew, toOld := Written(c, MovesToNewSlot(k, r, nonce)), Written(c, MovesToOldSlot(k, r, nonce));
            var converged := Written(c, Converges(k, r, nonce));
            after == if converged.Some? then converged
                     else if toOld.Some? then toOld
                     else if toNew.Some? then toNew else Some(r)
    ensures Read([NewCandidate(c, k), OldCandidate(c, k)], nonce, Some(r), c.schema, Some(r)).0.Success? ==>
              (Written(c, Converges(k, r, nonce)).Some? <==> ByNew(c, k, nonce, r).result.Failure?)
  {
    var cs := [NewCandidate(c, k), OldCandidate(c, k)];
    var outs := Outcomes(cs, nonce, Some(r), c.schema);
    assert outs[0] == ByNew(c, k, nonce, r) && outs[1] == ByOld(c, k, nonce, r);
    var first := Kept(outs[0], Some(r));
    var second := Kept(outs[1], first);
    assert Winner(outs, 2, second) == (None, second);
    assert Winner(outs, 1, first) == if outs[1].result.Success? then (Some((1, outs[1].result.value)), second)
                                     else (None, second);
    assert Winner(outs, 0, Some(r)) == if outs[0].result.Success? then (Some((0, outs[0].result.value)), first)
                                       else Winner(outs, 1, first);
    if outs[0].result.Failure? && outs[1].result.Success? {
      assert Read(cs, nonce, Some(r), c.schema, Some(r))
             == Converged(cs[0], nonce, outs[1].result.value.data, c.schema.version, r.contentHash.Some?, second);
    }
  }
}
