/**
 * The additional authenticated data of a field (core/crypto.ts): the three serializations of where a
 * ciphertext lives, and which tuples they keep apart. Strings are quoted as `JSON.stringify` does (section 7
 * of RFC 8259, with the lower-case `\u` escapes of ECMAScript for controls and unpaired surrogates).
 */
module Aad {
  import opened Wrappers
  import opened Text

  datatype FieldAAD = FieldAAD(userId: Text, table: Text, field: Text, rowId: Text, epoch: Option<nat>)

  const QUOTE: Unit := 0x22
  const COMMA: Unit := 0x2C
  const OPEN: Unit := 0x5B
  const BACKSLASH: Unit := 0x5C
  const CLOSE: Unit := 0x5D
  const LETTER_U: Unit := 0x75
  const PIPE: Unit := 0x7C

  // ---------------------------------------------------------------------------------------------
  // JSON strings and naturals
  // ---------------------------------------------------------------------------------------------

  function HexDigit(n: nat): Unit
    requires n < 16
  {
    if n < 10 then 0x30 + n else 0x57 + n
  }

  function HexValue(u: Unit): Option<nat> {
    if 0x30 <= u < 0x3A then Some(u - 0x30) else if 0x61 <= u < 0x67 then Some(u - 0x57) else None
  }

  function Hex4(u: Unit): Text {
    [HexDigit(u / 0x1000), HexDigit(u / 0x100 % 0x10), HexDigit(u / 0x10 % 0x10), HexDigit(u % 0x10)]
  }

  /** The letter of a two-character escape. */
  function ShortEscape(u: Unit): Option<Unit> {
    match u
    case 0x08 => Some(0x62)
    case 0x09 => Some(0x74)
    case 0x0A => Some(0x6E)
    case 0x0C => Some(0x66)
    case 0x0D => Some(0x72)
    case 0x22 => Some(0x22)
    case 0x5C => Some(0x5C)
    case _ => None
  }

  function ShortMeaning(u: Unit): Option<Unit> {
    match u
    case 0x62 => Some(0x08)
    case 0x74 => Some(0x09)
    case 0x6E => Some(0x0A)
    case 0x66 => Some(0x0C)
    case 0x72 => Some(0x0D)
    case 0x22 => Some(0x22)
    case 0x5C => Some(0x5C)
    case _ => None
  }

  function Escape(u: Unit): Text {
    if ShortEscape(u).Some? then [BACKSLASH, ShortEscape(u).value] else [BACKSLASH, LETTER_U] + Hex4(u)
  }

  predicate NeedsEscape(s: Text)
    requires s != []
  {
    s[0] < 0x20 || s[0] == QUOTE || s[0] == BACKSLASH || Lone(s)
  }

  /** The characters of `s` and the closing quote. */
  function QuotedRest(s: Text): Text {
    if s == [] then [QUOTE]
    else if Paired(s) then s[..2] + QuotedRest(s[2..])
    else if NeedsEscape(s) then Escape(s[0]) + QuotedRest(s[1..])
    else [s[0]] + QuotedRest(s[1..])
  }

  function Quote(s: Text): Text {
    [QUOTE] + QuotedRest(s)
  }

  function Decimal(n: nat): Text {
    if n < 10 then [0x30 + n] else Decimal(n / 10) + [0x30 + n % 10]
  }

  function Unescaped(t: Text): Option<(Unit, Text)>
    requires t != [] && t[0] == BACKSLASH
  {
    if |t| > 5 && t[1] == LETTER_U && HexValue(t[2]).Some? && HexValue(t[3]).Some?
       && HexValue(t[4]).Some? && HexValue(t[5]).Some? then
      Some((HexValue(t[2]).value * 0x1000 + HexValue(t[3]).value * 0x100
            + HexValue(t[4]).value * 0x10 + HexValue(t[5]).value, t[6..]))
    else if |t| > 1 && ShortMeaning(t[1]).Some? then Some((ShortMeaning(t[1]).value, t[2..]))
    else None
  }

  /** Reads a quoted string after its opening quote: what it says, and what follows it. */
  function ReadString(t: Text): Option<(Text, Text)> {
    if t == [] then None
    else if t[0] == QUOTE then Some(([], t[1..]))
    else if t[0] == BACKSLASH then
      var u := Unescaped(t);
      if u.None? then None else Prefixed(u.value.0, ReadString(u.value.1))
    else Prefixed(t[0], ReadString(t[1..]))
  }

  function Prefixed(u: Unit, r: Option<(Text, Text)>): Option<(Text, Text)> {
    if r.None? then None else Some(([u] + r.value.0, r.value.1))
  }

  /** Quoting leaves ordinary characters as they are. */
  lemma {:induction false} PlainIsKept(s: Text)
    requires forall i :: 0 <= i < |s| ==>
               s[i] >= 0x20 && s[i] != QUOTE && s[i] != BACKSLASH && !High(s[i]) && !Low(s[i])
    ensures Quote(s) == [QUOTE] + s + [QUOTE]
  {
    if s != [] {
      PlainIsKept(s[1..]);
      assert QuotedRest(s) == [s[0]] + QuotedRest(s[1..]);
      assert Quote(s[1..]) == [QUOTE] + QuotedRest(s[1..]);
      assert Quote(s[1..])[1..] == QuotedRest(s[1..]) == s[1..] + [QUOTE];
      assert s == [s[0]] + s[1..];
    }
  }

  /** Backspace, tab, line feed, form feed, carriage return, quote and backslash have two-character escapes, all
      others are written in hexadecimal. */
  lemma EscapeLength(u: Unit)
    ensures |Escape(u)| == if 0x08 <= u <= 0x0A || 0x0C <= u <= 0x0D || u == QUOTE || u == BACKSLASH then 2 else 6
  {
  }

  lemma HexReads(n: nat)
    requires n < 16
    ensures HexValue(HexDigit(n)) == Some(n)
  {
  }

  lemma HexSum(u: Unit)
    ensures u / 0x1000 * 0x1000 + u / 0x100 % 0x10 * 0x100 + u / 0x10 % 0x10 * 0x10 + u % 0x10 == u
    ensures u / 0x1000 < 16
  {
    var a := u / 0x10;
    var b := u / 0x100;
    assert u == 0x10 * a + u % 0x10;
    assert b == a / 0x10 && a == 0x10 * b + a % 0x10;
    assert u / 0x1000 == b / 0x10 && b == 0x10 * (b / 0x10) + b % 0x10;
  }

  lemma HexEscapeReads(u: Unit, x: Text)
    ensures var t := [BACKSLASH, LETTER_U] + Hex4(u) + x; t[0] == BACKSLASH && Unescaped(t) == Some((u, x))
  {
    var t := [BACKSLASH, LETTER_U] + Hex4(u) + x;
    HexSum(u);
    HexReads(u / 0x1000);
    HexReads(u / 0x100 % 0x10);
    HexReads(u / 0x10 % 0x10);
    HexReads(u % 0x10);
    assert t[2..6] == Hex4(u) && t[6..] == x;
    assert t[2] == Hex4(u)[0] && t[3] == Hex4(u)[1] && t[4] == Hex4(u)[2] && t[5] == Hex4(u)[3];
  }

  lemma EscapeReads(u: Unit, x: Text)
    ensures (Escape(u) + x)[0] == BACKSLASH && Unescaped(Escape(u) + x) == Some((u, x))
  {
    var t := Escape(u) + x;
    if ShortEscape(u).Some? {
      assert t[2..] == x;
    } else {
      HexEscapeReads(u, x);
    }
  }

  lemma ReadsEscaped(u: Unit, x: Text)
    ensures ReadString(Escape(u) + x) == Prefixed(u, ReadString(x))
  {
    EscapeReads(u, x);
  }

  lemma ReadsPlain(u: Unit, x: Text)
    requires u != QUOTE && u != BACKSLASH
    ensures ReadString([u] + x) == Prefixed(u, ReadString(x))
  {
    assert ([u] + x)[1..] == x;
  }

  lemma ReadsPair(s: Text, x: Text)
    requires Paired(s)
    ensures ReadString(QuotedRest(s) + x)
            == Prefixed(s[0], Prefixed(s[1], ReadString(QuotedRest(s[2..]) + x)))
  {
    var rest := QuotedRest(s[2..]) + x;
    assert QuotedRest(s) + x == [s[0]] + ([s[1]] + rest);
    ReadsPlain(s[0], [s[1]] + rest);
    ReadsPlain(s[1], rest);
  }

  lemma ReadsUnit(s: Text, x: Text)
    requires s != [] && !Paired(s)
    ensures ReadString(QuotedRest(s) + x) == Prefixed(s[0], ReadString(QuotedRest(s[1..]) + x))
  {
    var rest := QuotedRest(s[1..]) + x;
    if NeedsEscape(s) {
      assert QuotedRest(s) + x == Escape(s[0]) + rest;
      ReadsEscaped(s[0], rest);
    } else {
      assert QuotedRest(s) + x == [s[0]] + rest;
      ReadsPlain(s[0], rest);
    }
  }

  /** Every quoted string reads back as itself, whatever follows it. */
  lemma {:induction false} QuoteReadsBack(s: Text, x: Text)
    ensures ReadString(QuotedRest(s) + x) == Some((s, x))
  {
    if s == [] {
      assert ([QUOTE] + x)[1..] == x;
    } else if Paired(s) {
      ReadsPair(s, x);
      QuoteReadsBack(s[2..], x);
      assert s == [s[0]] + ([s[1]] + s[2..]);
    } else {
      ReadsUnit(s, x);
      QuoteReadsBack(s[1..], x);
      assert s == [s[0]] + s[1..];
    }
  }

  lemma QuoteDelimits(s: Text, x: Text, s': Text, x': Text)
    requires Quote(s) + x == Quote(s') + x'
    ensures s == s' && x == x'
  {
    assert (Quote(s) + x)[1..] == QuotedRest(s) + x;
    assert (Quote(s') + x')[1..] == QuotedRest(s') + x';
    QuoteReadsBack(s, x);
    QuoteReadsBack(s', x');
  }

  lemma {:induction false} DecimalDetermines(n: nat, m: nat)
    requires Decimal(n) == Decimal(m)
    ensures n == m
  {
    DecimalProper(n);
    DecimalProper(m);
    if n >= 10 && m >= 10 {
      var a, b := Decimal(n), Decimal(m);
      assert a[..|a| - 1] == Decimal(n / 10) && b[..|b| - 1] == Decimal(m / 10);
      assert a[|a| - 1] == 0x30 + n % 10 && b[|b| - 1] == 0x30 + m % 10;
      DecimalDetermines(n / 10, m / 10);
    }
  }

  lemma {:induction false} DecimalProper(n: nat)
    ensures Decimal(n) != [] && (n >= 10 ==> |Decimal(n)| > 1)
    ensures forall i :: 0 <= i < |Decimal(n)| ==> Decimal(n)[i] < 0x3A
  {
    if n >= 10 {
      DecimalProper(n / 10);
    }
  }

  lemma {:induction false} QuotedRestWellFormed(s: Text)
    ensures WellFormed(QuotedRest(s))
  {
    if s == [] {
    } else if Paired(s) {
      QuotedRestWellFormed(s[2..]);
      assert QuotedRest(s)[2..] == QuotedRest(s[2..]);
    } else if NeedsEscape(s) {
      QuotedRestWellFormed(s[1..]);
      WellFormedWhole(Escape(s[0]));
      WellFormedConcat(Escape(s[0]), QuotedRest(s[1..]));
    } else {
      QuotedRestWellFormed(s[1..]);
      WellFormedWhole([s[0]]);
      WellFormedConcat([s[0]], QuotedRest(s[1..]));
    }
  }

  // ---------------------------------------------------------------------------------------------
  // The three serializations
  // ---------------------------------------------------------------------------------------------

  function Joined(aad: FieldAAD): Text {
    aad.userId + [PIPE] + aad.table + [PIPE] + aad.field + [PIPE] + aad.rowId
  }

  function Tuple(aad: FieldAAD, tail: Text): Text {
    [OPEN] + (Quote(aad.userId) + ([COMMA] + (Quote(aad.table) + ([COMMA]
    + (Quote(aad.field) + ([COMMA] + (Quote(aad.rowId) + tail)))))))
  }

  function BytesV1(aad: FieldAAD): Text {
    Encode(Joined(aad))
  }

  function BytesV2(aad: FieldAAD): Text {
    Encode(Tuple(aad, [CLOSE]))
  }

  function BytesV3(aad: FieldAAD, epoch: nat): Text {
    Encode(Tuple(aad, [COMMA] + Decimal(epoch) + [CLOSE]))
  }

  predicate SameSlot(a: FieldAAD, b: FieldAAD) {
    a.userId == b.userId && a.table == b.table && a.field == b.field && a.rowId == b.rowId
  }

  lemma TupleWellFormed(aad: FieldAAD, tail: Text)
    requires forall i :: 0 <= i < |tail| ==> tail[i] < 0x80
    ensures Encode(Tuple(aad, tail)) == Tuple(aad, tail)
  {
    WellFormedWhole(tail);
    WellFormedWhole([QUOTE]);
    WellFormedWhole([COMMA]);
    WellFormedWhole([OPEN]);
    var t := tail;
    t := Enclosed(aad.rowId, t);
    t := Enclosed(aad.field, [COMMA] + t);
    t := Enclosed(aad.table, [COMMA] + t);
    t := Enclosed(aad.userId, [COMMA] + t);
    WellFormedConcat([OPEN], t);
    EncodeFixes([OPEN] + t);
  }

  lemma Enclosed(s: Text, x: Text) returns (t: Text)
    requires WellFormed(x)
    ensures t == Quote(s) + x && WellFormed(t) && WellFormed([COMMA] + t)
  {
    WellFormedWhole([QUOTE]);
    WellFormedWhole([COMMA]);
    QuotedRestWellFormed(s);
    WellFormedConcat([QUOTE], QuotedRest(s));
    WellFormedConcat(Quote(s), x);
    t := Quote(s) + x;
    WellFormedConcat([COMMA], t);
  }

  lemma TupleDetermines(a: FieldAAD, b: FieldAAD, x: Text, y: Text)
    requires Tuple(a, x) == Tuple(b, y)
    ensures SameSlot(a, b) && x == y
  {
    var x1, y1 := Quote(a.rowId) + x, Quote(b.rowId) + y;
    var x2, y2 := Quote(a.field) + ([COMMA] + x1), Quote(b.field) + ([COMMA] + y1);
    var x3, y3 := Quote(a.table) + ([COMMA] + x2), Quote(b.table) + ([COMMA] + y2);
    var x4, y4 := Quote(a.userId) + ([COMMA] + x3), Quote(b.userId) + ([COMMA] + y3);
    assert Tuple(a, x)[1..] == x4 && Tuple(b, y)[1..] == y4;
    QuoteDelimits(a.userId, [COMMA] + x3, b.userId, [COMMA] + y3);
    assert ([COMMA] + x3)[1..] == x3 && ([COMMA] + y3)[1..] == y3;
    QuoteDelimits(a.table, [COMMA] + x2, b.table, [COMMA] + y2);
    assert ([COMMA] + x2)[1..] == x2 && ([COMMA] + y2)[1..] == y2;
    QuoteDelimits(a.field, [COMMA] + x1, b.field, [COMMA] + y1);
    assert ([COMMA] + x1)[1..] == x1 && ([COMMA] + y1)[1..] == y1;
    QuoteDelimits(a.rowId, x, b.rowId, y);
  }

  /** AAD-v2 keeps every two slots apart. */
  lemma V2Injective(a: FieldAAD, b: FieldAAD)
    ensures BytesV2(a) == BytesV2(b) <==> SameSlot(a, b)
  {
    TupleWellFormed(a, [CLOSE]);
    TupleWellFormed(b, [CLOSE]);
    if BytesV2(a) == BytesV2(b) {
      TupleDetermines(a, b, [CLOSE], [CLOSE]);
    }
  }

  lemma EpochTailPlain(epoch: nat) returns (tail: Text)
    ensures tail == [COMMA] + Decimal(epoch) + [CLOSE] && tail[0] == COMMA
    ensures forall i :: 0 <= i < |tail| ==> tail[i] < 0x80
  {
    DecimalProper(epoch);
    tail := [COMMA] + Decimal(epoch) + [CLOSE];
  }

  /** AAD-v3 keeps every two slots, and every two epochs of one slot, apart. */
  lemma V3Injective(a: FieldAAD, e: nat, b: FieldAAD, f: nat)
    ensures BytesV3(a, e) == BytesV3(b, f) <==> SameSlot(a, b) && e == f
  {
    var x := EpochTailPlain(e);
    var y := EpochTailPlain(f);
    TupleWellFormed(a, x);
    TupleWellFormed(b, y);
    if BytesV3(a, e) == BytesV3(b, f) {
      TupleDetermines(a, b, x, y);
      assert x[1..|x| - 1] == Decimal(e) && y[1..|y| - 1] == Decimal(f);
      DecimalDetermines(e, f);
    }
  }

  /** No AAD-v2 is an AAD-v3. */
  lemma V2NeverV3(a: FieldAAD, b: FieldAAD, e: nat)
    ensures BytesV2(a) != BytesV3(b, e)
  {
    var y := EpochTailPlain(e);
    TupleWellFormed(a, [CLOSE]);
    TupleWellFormed(b, y);
    if BytesV2(a) == BytesV3(b, e) {
      TupleDetermines(a, b, [CLOSE], y);
      assert false;
    }
  }

  // ---------------------------------------------------------------------------------------------
  // The pipe-join
  // ---------------------------------------------------------------------------------------------

  function Pipes(s: Text): nat {
    if s == [] then 0 else (if s[0] == PIPE then 1 else 0) + Pipes(s[1..])
  }

  lemma {:induction false} PipesConcat(s: Text, t: Text)
    ensures Pipes(s + t) == Pipes(s) + Pipes(t)
  {
    if s == [] {
      assert s + t == t;
    } else {
      PipesConcat(s[1..], t);
      assert (s + t)[1..] == s[1..] + t;
    }
  }

  lemma {:induction false} PipesZero(s: Text)
    ensures Pipes(s) == 0 <==> PIPE !in s
  {
    if s != [] {
      PipesZero(s[1..]);
      assert s == [s[0]] + s[1..];
    }
  }

  lemma JoinedPipes(a: FieldAAD)
    ensures Pipes(Joined(a)) == 3 + Pipes(a.userId) + Pipes(a.table) + Pipes(a.field) + Pipes(a.rowId)
  {
    var s1 := a.userId + [PIPE];
    var s2 := s1 + a.table;
    var s3 := s2 + [PIPE];
    var s4 := s3 + a.field;
    PipesConcat(a.userId, [PIPE]);
    PipesConcat(s1, a.table);
    PipesConcat(s2, [PIPE]);
    PipesConcat(s3, a.field);
    PipesConcat(s4, [PIPE]);
    PipesConcat(s4 + [PIPE], a.rowId);
  }

  /** The text before and after the first pipe. */
  function Cut(s: Text): (r: (Text, Text))
    requires PIPE in s
    ensures s == r.0 + [PIPE] + r.1 && PIPE !in r.0
  {
    if s[0] == PIPE then ([], s[1..])
    else
      assert s == [s[0]] + s[1..];
      var (x, y) := Cut(s[1..]);
      ([s[0]] + x, y)
  }

  /** The slot whose first three components have no pipe, with the given join. */
  lemma SplitFirst(s: Text) returns (a: FieldAAD)
    requires Pipes(s) >= 3
    ensures Joined(a) == s && PIPE !in a.userId && PIPE !in a.table && PIPE !in a.field && a.epoch == None
  {
    var u, t, f, rest := [], [], [], s;
    u, rest := CutCounts(rest);
    t, rest := CutCounts(rest);
    f, rest := CutCounts(rest);
    a := FieldAAD(u, t, f, rest, None);
    assert s == u + [PIPE] + (t + [PIPE] + (f + [PIPE] + rest));
  }

  lemma CutCounts(s: Text) returns (x: Text, y: Text)
    requires Pipes(s) >= 1
    ensures s == x + [PIPE] + y && PIPE !in x && Pipes(y) == Pipes(s) - 1
  {
    PipesZero(s);
    x, y := Cut(s).0, Cut(s).1;
    PipesConcat(x + [PIPE], y);
    PipesConcat(x, [PIPE]);
    PipesZero(x);
  }

  lemma SeparatorFreeJoin(a: FieldAAD, b: FieldAAD)
    requires PIPE !in a.userId && PIPE !in a.table && PIPE !in a.field
    requires PIPE !in b.userId && PIPE !in b.table && PIPE !in b.field
    requires Joined(a) == Joined(b)
    ensures SameSlot(a, b)
  {
    var x3, y3 := a.field + [PIPE] + a.rowId, b.field + [PIPE] + b.rowId;
    var x2, y2 := a.table + [PIPE] + x3, b.table + [PIPE] + y3;
    assert Joined(a) == a.userId + [PIPE] + x2 && Joined(b) == b.userId + [PIPE] + y2;
    FirstPipe(a.userId, x2, b.userId, y2);
    FirstPipe(a.table, x3, b.table, y3);
    FirstPipe(a.field, a.rowId, b.field, b.rowId);
  }

  lemma FirstPipe(x: Text, y: Text, x': Text, y': Text)
    requires PIPE !in x && PIPE !in x' && x + [PIPE] + y == x' + [PIPE] + y'
    ensures x == x' && y == y'
  {
    var s := x + [PIPE] + y;
    assert s[|x|] == PIPE && s[|x'|] == PIPE;
    assert |x| == |x'|;
    assert x == s[..|x|] && y == s[|x| + 1..] && x' == s[..|x'|] && y' == s[|x'| + 1..];
  }

  predicate SeparatorFree(a: FieldAAD) {
    PIPE !in a.userId && PIPE !in a.table && PIPE !in a.field && PIPE !in a.rowId
  }

  /** No other slot has the AAD-v1 bytes of `a`. */
  ghost predicate V1Determines(a: FieldAAD) {
    forall b :: BytesV1(b) == BytesV1(a) ==> SameSlot(a, b)
  }

  /** A slot with the same join, given one whose components contain a pipe. */
  lemma MovedBoundary(a: FieldAAD) returns (b: FieldAAD)
    requires !SeparatorFree(a)
    ensures Joined(b) == Joined(a) && !SameSlot(a, b)
  {
    var s := Joined(a);
    JoinedPipes(a);
    PipesZero(a.userId);
    PipesZero(a.table);
    PipesZero(a.field);
    PipesZero(a.rowId);
    b := SplitFirst(s);
    if SameSlot(a, b) {
      var x, y := CutCounts(a.rowId);
      b := FieldAAD(a.userId + [PIPE] + a.table, a.field, x, y, None);
      assert Joined(b) == s;
      assert PIPE in b.userId by {
        assert b.userId[|a.userId|] == PIPE;
      }
    }
  }

  /** AAD-v1 identifies a slot exactly when no component contains the separator and the join contains
      nothing UTF-8 cannot tell from U+FFFD. */
  lemma V1DeterminesIff(a: FieldAAD)
    ensures V1Determines(a) <==> SeparatorFree(a) && Clean(Joined(a))
  {
    if !SeparatorFree(a) {
      var b := MovedBoundary(a);
      assert BytesV1(b) == BytesV1(a);
    } else if !Clean(Joined(a)) {
      var s := Joined(a);
      TwinLooksTheSame(s);
      JoinedPipes(a);
      SamePipes(s, Twin(s));
      var b := SplitFirst(Twin(s));
      assert BytesV1(b) == BytesV1(a);
      assert !SameSlot(a, b);
    } else {
      forall b | BytesV1(b) == BytesV1(a) ensures SameSlot(a, b) {
        EncodeFixes(Joined(a));
        EncodeDetermines(Joined(b), Joined(a));
        NoMorePipes(a, b);
        SeparatorFreeJoin(a, b);
      }
    }
  }

  lemma NoMorePipes(a: FieldAAD, b: FieldAAD)
    requires SeparatorFree(a) && Joined(a) == Joined(b)
    ensures SeparatorFree(b)
  {
    JoinedPipes(a);
    JoinedPipes(b);
    forall s | s in {a.userId, a.table, a.field, a.rowId, b.userId, b.table, b.field, b.rowId}
      ensures Pipes(s) == 0 <==> PIPE !in s
    {
      PipesZero(s);
    }
  }

  lemma {:induction false} SamePipes(s: Text, t: Text)
    requires |s| == |t| && forall i :: 0 <= i < |s| && s[i] < 0x80 ==> t[i] == s[i]
    ensures Pipes(t) >= Pipes(s)
  {
    if s != [] {
      assert forall i :: 0 <= i < |s| - 1 ==> s[1..][i] == s[i + 1] && t[1..][i] == t[i + 1];
      SamePipes(s[1..], t[1..]);
    }
  }

  /** Bytes that are both an AAD-v1 and a JSON tuple need three pipes in the tuple's own components. */
  lemma LegacyNeedsPipes(a: FieldAAD, b: FieldAAD, tail: Text)
    requires forall i :: 0 <= i < |tail| ==> tail[i] < 0x7C
    requires BytesV1(b) == Encode(Tuple(a, tail))
    ensures Pipes(a.userId) + Pipes(a.table) + Pipes(a.field) + Pipes(a.rowId) >= 3
  {
    TupleWellFormed(a, tail);
    JoinedPipes(b);
    EncodedPipes(Joined(b));
    TuplePipes(a, tail);
  }

  lemma {:induction false} EncodedPipes(s: Text)
    ensures Pipes(Encode(s)) == Pipes(s)
  {
    if s == [] {
    } else if Paired(s) {
      EncodedPipes(s[2..]);
      PipesConcat(s[..2], Encode(s[2..]));
      PipesConcat(s[..2], s[2..]);
      assert s == s[..2] + s[2..];
    } else {
      EncodedPipes(s[1..]);
      assert Encode(s)[1..] == Encode(s[1..]);
    }
  }

  lemma {:induction false} QuotedPipes(s: Text)
    ensures Pipes(QuotedRest(s)) == Pipes(s)
  {
    if s == [] {
    } else if Paired(s) {
      QuotedPipes(s[2..]);
      PipesConcat(s[..2], QuotedRest(s[2..]));
      PipesConcat(s[..2], s[2..]);
      assert s == s[..2] + s[2..];
    } else if NeedsEscape(s) {
      QuotedPipes(s[1..]);
      PipesConcat(Escape(s[0]), QuotedRest(s[1..]));
      PipesZero(Escape(s[0]));
    } else {
      QuotedPipes(s[1..]);
      assert QuotedRest(s)[1..] == QuotedRest(s[1..]);
    }
  }

  lemma PartPipes(s: Text, x: Text)
    ensures Pipes(Quote(s) + x) == Pipes(s) + Pipes(x) && Pipes([COMMA] + x) == Pipes(x)
  {
    QuotedPipes(s);
    PipesConcat([QUOTE], QuotedRest(s));
    PipesConcat(Quote(s), x);
    PipesConcat([COMMA], x);
  }

  lemma TuplePipes(a: FieldAAD, tail: Text)
    requires forall i :: 0 <= i < |tail| ==> tail[i] < 0x7C
    ensures Pipes(Tuple(a, tail)) == Pipes(a.userId) + Pipes(a.table) + Pipes(a.field) + Pipes(a.rowId)
  {
    PipesZero(tail);
    var x1 := Quote(a.rowId) + tail;
    var x2 := Quote(a.field) + ([COMMA] + x1);
    var x3 := Quote(a.table) + ([COMMA] + x2);
    var x4 := Quote(a.userId) + ([COMMA] + x3);
    PartPipes(a.rowId, tail);
    PartPipes(a.field, [COMMA] + x1);
    PartPipes(a.table, [COMMA] + x2);
    PartPipes(a.userId, [COMMA] + x3);
    PartPipes([], x1);
    PartPipes([], x2);
    PartPipes([], x3);
    PipesConcat([OPEN], x4);
  }

  // ---------------------------------------------------------------------------------------------
  // What the serializations say
  // ---------------------------------------------------------------------------------------------

  function DecimalValue(t: Text): int {
    if t == [] then 0 else 10 * DecimalValue(t[..|t| - 1]) + t[|t| - 1] as int - 0x30
  }

  lemma {:induction false} DecimalReads(n: nat)
    ensures DecimalValue(Decimal(n)) == n
  {
    if n >= 10 {
      DecimalReads(n / 10);
      assert Decimal(n)[..|Decimal(n)| - 1] == Decimal(n / 10);
    } else {
      assert Decimal(n)[..0] == [];
    }
  }

  /** A reader of a string that starts with the given unit and a quote: what it says, and what follows. */
  function ReadAfter(lead: Unit, t: Text): Option<(Text, Text)> {
    if |t| > 1 && t[0] == lead && t[1] == QUOTE then ReadString(t[2..]) else None
  }

  lemma ReadsAfter(lead: Unit, s: Text, x: Text)
    ensures ReadAfter(lead, [lead] + (Quote(s) + x)) == Some((s, x))
  {
    QuoteReadsBack(s, x);
    assert ([lead] + (Quote(s) + x))[2..] == QuotedRest(s) + x;
  }

  /** A reader of JSON finds the user, the table, the field and the row in a tuple, in this order, before the tail. */
  lemma TupleReadsBack(a: FieldAAD, tail: Text) returns (afterUser: Text, afterTable: Text, afterField: Text)
    ensures ReadAfter(OPEN, Tuple(a, tail)) == Some((a.userId, afterUser))
    ensures ReadAfter(COMMA, afterUser) == Some((a.table, afterTable))
    ensures ReadAfter(COMMA, afterTable) == Some((a.field, afterField))
    ensures ReadAfter(COMMA, afterField) == Some((a.rowId, tail))
  {
    afterField := [COMMA] + (Quote(a.rowId) + tail);
    afterTable := [COMMA] + (Quote(a.field) + afterField);
    afterUser := [COMMA] + (Quote(a.table) + afterTable);
    ReadsAfter(OPEN, a.userId, afterUser);
    ReadsAfter(COMMA, a.table, afterTable);
    ReadsAfter(COMMA, a.field, afterField);
    ReadsAfter(COMMA, a.rowId, tail);
  }

  /** The bytes are the tuple as it stands, closed by a bracket, or by the epoch and a bracket. */
  lemma SerializationsAreTuples(a: FieldAAD, epoch: nat)
    ensures BytesV2(a) == Tuple(a, [0x5D])
    ensures BytesV3(a, epoch) == Tuple(a, [0x2C] + Decimal(epoch) + [0x5D]) && DecimalValue(Decimal(epoch)) == epoch
  {
    TupleWellFormed(a, [CLOSE]);
    var tail := EpochTailPlain(epoch);
    TupleWellFormed(a, tail);
    DecimalReads(epoch);
  }

  lemma CutAt(x: Text, y: Text)
    requires PIPE !in x
    ensures PIPE in x + [PIPE] + y && Cut(x + [PIPE] + y) == (x, y)
  {
    var s := x + [PIPE] + y;
    assert s[|x|] == PIPE;
    FirstPipe(x, y, Cut(s).0, Cut(s).1);
  }

  /** Cutting a separator-free AAD-v1 at its pipes gives the user, the table, the field and the row, in this order. */
  lemma JoinReadsBack(a: FieldAAD) returns (afterUser: Text, afterTable: Text)
    requires SeparatorFree(a)
    ensures PIPE in Joined(a) && Cut(Joined(a)) == (a.userId, afterUser)
    ensures PIPE in afterUser && Cut(afterUser) == (a.table, afterTable)
    ensures PIPE in afterTable && Cut(afterTable) == (a.field, a.rowId)
  {
    afterTable := a.field + [PIPE] + a.rowId;
    afterUser := a.table + [PIPE] + afterTable;
    assert Joined(a) == a.userId + [PIPE] + afterUser;
    CutAt(a.userId, afterUser);
    CutAt(a.table, afterTable);
    CutAt(a.field, a.rowId);
  }
}
