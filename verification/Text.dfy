/**
 * Strings as the source's runtime has them: sequences of 16-bit code units, in which surrogates may be
 * unpaired. UTF-8 encoding replaces every unpaired surrogate by U+FFFD and is one-to-one on the rest, so the
 * bytes of a text are represented by its well-formed version.
 */
module Text {
  type Unit = u: nat | u < 0x1_0000
  type Text = seq<Unit>

  const REPLACEMENT: Unit := 0xFFFD
  const BYTE_ORDER_MARK: Unit := 0xFEFF

  predicate High(u: Unit) {
    0xD800 <= u < 0xDC00
  }

  predicate Low(u: Unit) {
    0xDC00 <= u < 0xE000
  }

  /** `s` starts with a surrogate pair. */
  predicate Paired(s: Text) {
    |s| > 1 && High(s[0]) && Low(s[1])
  }

  predicate Lone(s: Text) {
    s != [] && !Paired(s) && (High(s[0]) || Low(s[0]))
  }

  predicate WellFormed(s: Text) {
    s == [] || (!Lone(s) && if Paired(s) then WellFormed(s[2..]) else WellFormed(s[1..]))
  }

  /** What `TextEncoder` makes of a string. */
  function Encode(s: Text): Text {
    if s == [] then []
    else if Paired(s) then s[..2] + Encode(s[2..])
    else [if Lone(s) then REPLACEMENT else s[0]] + Encode(s[1..])
  }

  /** What a fatal `TextDecoder` makes of the bytes: a leading byte order mark is dropped. */
  function Decode(s: Text): Text {
    if s != [] && s[0] == BYTE_ORDER_MARK then s[1..] else s
  }

  /** The number of bytes of an encoded string. */
  function ByteLength(s: Text): nat {
    if s == [] then 0
    else if Paired(s) then 4 + ByteLength(s[2..])
    else (if s[0] < 0x80 then 1 else if s[0] < 0x800 then 2 else 3) + ByteLength(s[1..])
  }

  /** The two code units of a code point above the 16-bit ones (section 3.9 of the Unicode Standard). */
  function PairOf(point: nat): (nat, nat)
    requires 0x1_0000 <= point < 0x11_0000
  {
    (0xD800 + (point - 0x1_0000) / 0x400, 0xDC00 + (point - 0x1_0000) % 0x400)
  }

  /** The surrogate pairs are exactly the pairs of such code points. */
  lemma PairsAreCodePoints(h: Unit, l: Unit)
    ensures High(h) && Low(l) <==>
            exists point :: 0x1_0000 <= point < 0x11_0000 && PairOf(point) == (h, l)
  {
    if High(h) && Low(l) {
      var point := 0x1_0000 + (h - 0xD800) * 0x400 + (l - 0xDC00);
      assert (point - 0x1_0000) / 0x400 == h - 0xD800 && (point - 0x1_0000) % 0x400 == l - 0xDC00;
      assert PairOf(point) == (h, l);
    }
  }

  lemma {:induction false} EncodeProper(s: Text)
    ensures |Encode(s)| == |s| && WellFormed(Encode(s))
  {
    if s == [] {
    } else if Paired(s) {
      EncodeProper(s[2..]);
      assert Encode(s)[2..] == Encode(s[2..]);
    } else {
      EncodeProper(s[1..]);
      assert Encode(s)[1..] == Encode(s[1..]);
    }
  }

  lemma {:induction false} EncodeFixes(s: Text)
    ensures WellFormed(s) <==> Encode(s) == s
  {
    if s == [] {
    } else if Paired(s) {
      EncodeFixes(s[2..]);
      assert s == s[..2] + s[2..];
      assert Encode(s)[2..] == Encode(s[2..]);
    } else {
      EncodeFixes(s[1..]);
      assert s == [s[0]] + s[1..];
      assert Encode(s)[1..] == Encode(s[1..]);
    }
  }

  lemma {:induction false} WellFormedConcat(s: Text, t: Text)
    requires WellFormed(s) && WellFormed(t)
    ensures WellFormed(s + t)
  {
    if s == [] {
      assert s + t == t;
    } else if Paired(s) {
      WellFormedConcat(s[2..], t);
      assert (s + t)[2..] == s[2..] + t;
    } else {
      WellFormedConcat(s[1..], t);
      assert (s + t)[1..] == s[1..] + t;
    }
  }

  lemma {:induction false} WellFormedWhole(s: Text)
    requires forall i :: 0 <= i < |s| ==> !High(s[i]) && !Low(s[i])
    ensures WellFormed(s)
  {
    if s != [] {
      WellFormedWhole(s[1..]);
    }
  }

  /** Encoding loses nothing but unpaired surrogates, which it makes look like U+FFFD. */
  lemma {:induction false} EncodeDetermines(s: Text, t: Text)
    requires Encode(s) == t && REPLACEMENT !in t
    ensures s == t
  {
    if s == [] {
    } else if Paired(s) {
      assert t[2..] == Encode(s[2..]);
      EncodeDetermines(s[2..], t[2..]);
      assert s == s[..2] + s[2..] && t == t[..2] + t[2..];
    } else {
      assert t[1..] == Encode(s[1..]);
      EncodeDetermines(s[1..], t[1..]);
      assert s == [s[0]] + s[1..] && t == [t[0]] + t[1..];
    }
  }

  /** Texts whose bytes belong to no other text. */
  predicate Clean(s: Text) {
    WellFormed(s) && REPLACEMENT !in s
  }

  /** Another text with the bytes of `s`: the first unpaired surrogate and U+FFFD stand in for each other. */
  function Twin(s: Text): Text {
    if s == [] then []
    else if Paired(s) then s[..2] + Twin(s[2..])
    else if Lone(s) then [REPLACEMENT] + s[1..]
    else if s[0] == REPLACEMENT then [0xDC00] + s[1..]
    else [s[0]] + Twin(s[1..])
  }

  lemma {:induction false} TwinLooksTheSame(s: Text)
    requires !Clean(s)
    ensures Twin(s) != s && Encode(Twin(s)) == Encode(s) && |Twin(s)| == |s|
    ensures forall i :: 0 <= i < |s| && s[i] < 0x80 ==> Twin(s)[i] == s[i]
  {
    var t := Twin(s);
    if Paired(s) {
      TwinLooksTheSame(s[2..]);
      assert t[2..] == Twin(s[2..]);
      assert s == s[..2] + s[2..];
      assert forall i :: 2 <= i < |s| ==> s[i] == s[2..][i - 2] && t[i] == t[2..][i - 2];
    } else if Lone(s) || s[0] == REPLACEMENT {
      assert t[1..] == s[1..];
      assert t[0] != s[0];
    } else {
      TwinLooksTheSame(s[1..]);
      assert t[1..] == Twin(s[1..]);
      assert s == [s[0]] + s[1..];
      assert forall i :: 1 <= i < |s| ==> s[i] == s[1..][i - 1] && t[i] == t[1..][i - 1];
    }
  }

  /** UTF-8 takes one to three bytes for a unit on its own, an unpaired surrogate included, and four for a pair. */
  lemma {:induction false} ByteLengthConcat(s: Text, t: Text)
    requires WellFormed(s)
    ensures ByteLength(s + t) == ByteLength(s) + ByteLength(t)
  {
    if s == [] {
      assert s + t == t;
    } else if Paired(s) {
      ByteLengthConcat(s[2..], t);
      assert (s + t)[2..] == s[2..] + t;
    } else {
      ByteLengthConcat(s[1..], t);
      assert (s + t)[1..] == s[1..] + t;
    }
  }

  lemma ByteLengthOfOne(u: Unit, v: Unit)
    ensures ByteLength([u]) == if u <= 0x7F then 1 else if u <= 0x7FF then 2 else 3
    ensures High(u) && Low(v) ==> ByteLength([u, v]) == 4
  {
  }

  /** Replacing an unpaired surrogate by U+FFFD costs nothing: what is measured is what is written. */
  lemma {:induction false} EncodingKeepsLength(s: Text)
    ensures ByteLength(Encode(s)) == ByteLength(s)
  {
    if s == [] {
    } else if Paired(s) {
      EncodingKeepsLength(s[2..]);
      assert Encode(s)[2..] == Encode(s[2..]) && Paired(Encode(s));
    } else {
      EncodingKeepsLength(s[1..]);
      assert Encode(s)[1..] == Encode(s[1..]);
      EncodeProper(s);
      assert !Paired(Encode(s));
    }
  }
}
