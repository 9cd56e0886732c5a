/**
 What `Buffer.from` makes of a JavaScript string: its UTF-16 code units in UTF-8 (section 3 of
 RFC 3629), with U+FFFD for every surrogate that has no partner.
 */
module Utf8 {
  import opened Bytes

  type Unit = u: int | 0 <= u < 0x1_0000

  type Text = seq<Unit>

  predicate High(u: Unit) { 0xD800 <= u < 0xDC00 }

  predicate Low(u: Unit) { 0xDC00 <= u < 0xE000 }

  predicate Paired(s: Text) { |s| >= 2 && High(s[0]) && Low(s[1]) }

  const REPLACEMENT: Buffer := [0xEF, 0xBF, 0xBD]

  /** One code unit outside the surrogate range. */
  function EncodeUnit(u: Unit): (r: Buffer)
    ensures 1 <= |r| <= 3
  {
    if u < 0x80 then [u]
    else if u < 0x800 then [0xC0 + u / 64, 0x80 + u % 64]
    else [0xE0 + u / 4096, 0x80 + u / 64 % 64, 0x80 + u % 64]
  }

  /** The code point of a surrogate pair, in four bytes. */
  function EncodePair(high: Unit, low: Unit): (r: Buffer)
    requires High(high) && Low(low)
    ensures |r| == 4
  {
    var c := 0x1_0000 + (high - 0xD800) * 0x400 + (low - 0xDC00);
    [0xF0 + c / 0x4_0000, 0x80 + c / 4096 % 64, 0x80 + c / 64 % 64, 0x80 + c % 64]
  }

  function Encode(s: Text): Buffer
  {
    if s == [] then []
    else if Paired(s) then EncodePair(s[0], s[1]) + Encode(s[2..])
    else if High(s[0]) || Low(s[0]) then REPLACEMENT + Encode(s[1..])
    else EncodeUnit(s[0]) + Encode(s[1..])
  }

  /** Every surrogate has its partner. */
  predicate WellFormed(s: Text)
  {
    s == [] || if Paired(s) then WellFormed(s[2..]) else !High(s[0]) && !Low(s[0]) && WellFormed(s[1..])
  }

  lemma NulFreeConcat(a: Buffer, b: Buffer)
    ensures NulFree(a + b) <==> NulFree(a) && NulFree(b)
  {
    assert forall i :: 0 <= i < |a| ==> (a + b)[i] == a[i];
    assert forall i :: 0 <= i < |b| ==> (a + b)[|a| + i] == b[i];
  }

  lemma HasNul(s: Text, k: nat)
    requires k <= |s|
    ensures 0 in s <==> 0 in s[..k] || 0 in s[k..]
  {
    assert s == s[..k] + s[k..];
  }

  /** The first code unit, or the first pair, as bytes. */
  lemma FirstHasNul(s: Text)
    requires s != []
    ensures Paired(s) ==> NulFree(EncodePair(s[0], s[1])) && 0 !in s[..2]
    ensures !Paired(s) ==> (NulFree(if High(s[0]) || Low(s[0]) then REPLACEMENT else EncodeUnit(s[0])) <==>
            0 !in s[..1])
  {
    assert s[..1] == [s[0]];
    if Paired(s) {
      assert s[..2] == [s[0], s[1]];
    }
  }

  /** UTF-8 emits a zero byte only for U+0000. */
  lemma {:induction false} EncodeNul(s: Text)
    ensures NulFree(Encode(s)) <==> 0 !in s
    decreases |s|
  {
    if s != [] {
      var k := if Paired(s) then 2 else 1;
      FirstHasNul(s);
      HasNul(s, k);
      EncodeNul(s[k..]);
      if Paired(s) {
        NulFreeConcat(EncodePair(s[0], s[1]), Encode(s[2..]));
      } else {
        NulFreeConcat(if High(s[0]) || Low(s[0]) then REPLACEMENT else EncodeUnit(s[0]), Encode(s[1..]));
      }
    }
  }

  lemma {:induction false} EncodeEmpty(s: Text)
    ensures Encode(s) == [] <==> s == []
  {
  }

  lemma SplitAtNul(s: Text, rest: Text)
    requires s != []
    ensures var t := s + [0] + rest;
            && t != [] && t[0] == s[0] && t[1..] == s[1..] + [0] + rest
            && (Paired(t) <==> Paired(s))
            && (Paired(s) ==> t[1] == s[1] && t[2..] == s[2..] + [0] + rest)
  {
  }

  /** The encoding of the first code unit, or of the first pair. */
  function EncodeFirst(s: Text): Buffer
    requires s != []
  {
    if Paired(s) then EncodePair(s[0], s[1]) else if High(s[0]) || Low(s[0]) then REPLACEMENT else EncodeUnit(s[0])
  }

  function AfterFirst(s: Text): Text
    requires s != []
  {
    if Paired(s) then s[2..] else s[1..]
  }

  lemma FirstAcrossNul(s: Text, rest: Text)
    requires s != []
    ensures var t := s + [0] + rest;
            t != [] && EncodeFirst(t) == EncodeFirst(s) && AfterFirst(t) == AfterFirst(s) + [0] + rest
  {
    SplitAtNul(s, rest);
  }

  lemma EncodeStep(s: Text)
    requires s != []
    ensures Encode(s) == EncodeFirst(s) + Encode(AfterFirst(s))
  {
  }

  lemma Regroup(first: Buffer, a: Buffer, b: Buffer)
    ensures first + (a + [0] + b) == first + a + [0] + b
  {
  }

  /** A NUL is never part of a surrogate pair, so encoding goes string by string. */
  lemma {:induction false} EncodeAcrossNul(s: Text, rest: Text)
    ensures Encode(s + [0] + rest) == Encode(s) + [0] + Encode(rest)
    decreases |s|
  {
    if s == [] {
      NulFirst(rest);
    } else {
      FirstAcrossNul(s, rest);
      EncodeStep(s + [0] + rest);
      EncodeStep(s);
      EncodeAcrossNul(AfterFirst(s), rest);
      Regroup(EncodeFirst(s), Encode(AfterFirst(s)), Encode(rest));
    }
  }

  lemma NulFirst(rest: Text)
    ensures Encode([] + [0] + rest) == Encode([]) + [0] + Encode(rest)
  {
    var t := [0] + rest;
    assert [] + [0] + rest == t && t[1..] == rest;
    EncodeStep(t);
    assert EncodeFirst(t) == [0] && [] + [0] == [0];
  }

  // ---------------------------------------------------------------- the standard's form

  predicate Tail(b: Byte) { 0x80 <= b < 0xC0 }

  /** What is left of `b` above the marker. */
  function Bits(b: int, marker: int): int { b - marker }

  /** `b` is the UTF-8 form of the code point `c`, by the table in section 3 of RFC 3629. */
  predicate IsUtf8(c: int, b: Buffer)
  {
    if c < 0x80 then |b| == 1 && 0 <= c == b[0]
    else if c < 0x800 then
      |b| == 2 && 0xC0 <= b[0] < 0xE0 && Tail(b[1]) && c == Bits(b[0], 0xC0) * 64 + Bits(b[1], 0x80)
    else if c < 0x1_0000 then
      && |b| == 3 && 0xE0 <= b[0] < 0xF0 && Tail(b[1]) && Tail(b[2])
      && c == Bits(b[0], 0xE0) * 4096 + Bits(b[1], 0x80) * 64 + Bits(b[2], 0x80)
    else
      && c < 0x11_0000 && |b| == 4 && 0xF0 <= b[0] < 0xF8 && Tail(b[1]) && Tail(b[2]) && Tail(b[3])
      && c == Bits(b[0], 0xF0) * 0x4_0000 + Bits(b[1], 0x80) * 4096 + Bits(b[2], 0x80) * 64 + Bits(b[3], 0x80)
  }

  /** The bytes behind the first hold six bits each. */
  lemma Sextets(a: int, b: int, a': int, b': int)
    requires 0 <= b < 64 && 0 <= b' < 64 && a * 64 + b == a' * 64 + b'
    ensures a == a' && b == b'
  {
  }

  /** A code point has one form only. */
  lemma Utf8Unique(c: int, b: Buffer, b': Buffer)
    requires IsUtf8(c, b) && IsUtf8(c, b')
    ensures b == b'
  {
    var x := seq(|b|, i requires 0 <= i < |b| => Bits(b[i], 0x80));
    var y := seq(|b'|, i requires 0 <= i < |b'| => Bits(b'[i], 0x80));
    if |b| == 2 {
      Sextets(Bits(b[0], 0xC0), x[1], Bits(b'[0], 0xC0), y[1]);
    } else if |b| == 3 {
      Sextets(Bits(b[0], 0xE0) * 64 + x[1], x[2], Bits(b'[0], 0xE0) * 64 + y[1], y[2]);
      Sextets(Bits(b[0], 0xE0), x[1], Bits(b'[0], 0xE0), y[1]);
    } else if |b| == 4 {
      Sextets((Bits(b[0], 0xF0) * 64 + x[1]) * 64 + x[2], x[3], (Bits(b'[0], 0xF0) * 64 + y[1]) * 64 + y[2], y[3]);
      Sextets(Bits(b[0], 0xF0) * 64 + x[1], x[2], Bits(b'[0], 0xF0) * 64 + y[1], y[2]);
      Sextets(Bits(b[0], 0xF0), x[1], Bits(b'[0], 0xF0), y[1]);
    }
  }

  lemma Digits(c: nat)
    ensures c == c / 64 * 64 + c % 64
    ensures c == c / 4096 * 4096 + c / 64 % 64 * 64 + c % 64
    ensures c == c / 0x4_0000 * 0x4_0000 + c / 4096 % 64 * 4096 + c / 64 % 64 * 64 + c % 64
  {
    assert c / 4096 == c / 64 / 64;
    assert c / 0x4_0000 == c / 4096 / 64;
  }

  lemma UnitForm(u: Unit)
    requires !High(u) && !Low(u)
    ensures IsUtf8(u, EncodeUnit(u))
  {
    Digits(u);
  }

  lemma PairForm(high: Unit, low: Unit)
    requires High(high) && Low(low)
    ensures IsUtf8(0x1_0000 + Bits(high, 0xD800) * 0x400 + Bits(low, 0xDC00), EncodePair(high, low))
  {
    Digits(0x1_0000 + Bits(high, 0xD800) * 0x400 + Bits(low, 0xDC00));
  }

  /**
   What `Buffer.from` makes of a text, from its first unit on: the UTF-8 form of a surrogate pair's code point,
   of U+FFFD for a surrogate without its partner, or of the unit, and then what it makes of the rest.
   */
  lemma EncodeForm(s: Text) returns (form: Buffer)
    requires s != []
    ensures var paired := |s| > 1 && 0xD800 <= s[0] <= 0xDBFF && 0xDC00 <= s[1] <= 0xDFFF;
            && Encode(s) == form + Encode(if paired then s[2..] else s[1..])
            && IsUtf8(if paired then 0x1_0000 + Bits(s[0], 0xD800) * 0x400 + Bits(s[1], 0xDC00)
                      else if 0xD800 <= s[0] <= 0xDFFF then 0xFFFD
                      else s[0], form)
    ensures Encode([]) == []
  {
    form := EncodeFirst(s);
    EncodeStep(s);
    if Paired(s) { PairForm(s[0], s[1]); }
    else if !High(s[0]) && !Low(s[0]) { UnitForm(s[0]); }
  }

  // ---------------------------------------------------------------- injectivity

  /** The reading of UTF-8 that undoes `Encode`; it does not check its input. */
  function Decode(b: Buffer): seq<int>
  {
    if b == [] then []
    else if b[0] < 0x80 then [b[0]] + Decode(b[1..])
    else if b[0] < 0xE0 then
      if |b| < 2 then [] else [Bits(b[0], 0xC0) * 64 + Bits(b[1], 0x80)] + Decode(b[2..])
    else if b[0] < 0xF0 then
      if |b| < 3 then [] else [Bits(b[0], 0xE0) * 4096 + Bits(b[1], 0x80) * 64 + Bits(b[2], 0x80)] + Decode(b[3..])
    else if |b| < 4 then []
    else
      var c := Bits(b[0], 0xF0) * 0x4_0000 + Bits(b[1], 0x80) * 4096 + Bits(b[2], 0x80) * 64 + Bits(b[3], 0x80);
      var v := c - 0x1_0000;
      [0xD800 + v / 0x400, 0xDC00 + v % 0x400] + Decode(b[4..])
  }

  lemma DecodeUnit(u: Unit, rest: Buffer)
    requires !High(u) && !Low(u)
    ensures Decode(EncodeUnit(u) + rest) == [u] + Decode(rest)
  {
    var b := EncodeUnit(u) + rest;
    Digits(u);
    assert b[|EncodeUnit(u)|..] == rest;
  }

  lemma DecodePair(high: Unit, low: Unit, rest: Buffer)
    requires High(high) && Low(low)
    ensures Decode(EncodePair(high, low) + rest) == [high, low] + Decode(rest)
  {
    var b := EncodePair(high, low) + rest;
    var v := (high - 0xD800) * 0x400 + (low - 0xDC00);
    Digits(0x1_0000 + v);
    assert v / 0x400 == high - 0xD800 && v % 0x400 == low - 0xDC00;
    assert b[4..] == rest;
  }

  /** Well-formed text survives the way to bytes and back. */
  lemma {:induction false} DecodeEncode(s: Text)
    requires WellFormed(s)
    ensures Decode(Encode(s)) == s
    decreases |s|
  {
    if s != [] {
      if Paired(s) {
        DecodeEncode(s[2..]);
        DecodePair(s[0], s[1], Encode(s[2..]));
        assert s == [s[0], s[1]] + s[2..];
      } else {
        DecodeEncode(s[1..]);
        DecodeUnit(s[0], Encode(s[1..]));
        assert s == [s[0]] + s[1..];
      }
    }
  }

  /** The text with every lone surrogate replaced by U+FFFD. */
  function Repaired(s: Text): Text
  {
    if s == [] then []
    else if Paired(s) then [s[0], s[1]] + Repaired(s[2..])
    else if High(s[0]) || Low(s[0]) then [0xFFFD] + Repaired(s[1..])
    else [s[0]] + Repaired(s[1..])
  }

  lemma EncodeOrdinary(u: Unit, rest: Text)
    requires !High(u) && !Low(u)
    ensures Encode([u] + rest) == EncodeUnit(u) + Encode(rest) && WellFormed([u] + rest) == WellFormed(rest)
  {
    assert ([u] + rest)[1..] == rest;
  }

  lemma EncodePaired(high: Unit, low: Unit, rest: Text)
    requires High(high) && Low(low)
    ensures Encode([high, low] + rest) == EncodePair(high, low) + Encode(rest) &&
            WellFormed([high, low] + rest) == WellFormed(rest)
  {
    assert ([high, low] + rest)[2..] == rest;
  }

  /** Repaired text is well-formed and has the same encoding; well-formed text needs no repair. */
  lemma {:induction false} RepairKeepsEncoding(s: Text)
    ensures WellFormed(Repaired(s)) && Encode(Repaired(s)) == Encode(s)
    ensures Repaired(s) == s <==> WellFormed(s)
    decreases |s|
  {
    if s != [] {
      if Paired(s) {
        RepairKeepsEncoding(s[2..]);
        EncodePaired(s[0], s[1], Repaired(s[2..]));
        assert s == [s[0], s[1]] + s[2..] && Repaired(s)[2..] == Repaired(s[2..]);
      } else {
        RepairKeepsEncoding(s[1..]);
        EncodeOrdinary(if High(s[0]) || Low(s[0]) then 0xFFFD else s[0], Repaired(s[1..]));
        assert EncodeUnit(0xFFFD) == REPLACEMENT;
        assert s == [s[0]] + s[1..] && Repaired(s)[1..] == Repaired(s[1..]);
      }
    }
  }

  /** Exactly which texts have the same bytes: those that agree once lone surrogates are replaced. */
  lemma EncodeEqualIff(s: Text, t: Text)
    ensures Encode(s) == Encode(t) <==> Repaired(s) == Repaired(t)
  {
    RepairKeepsEncoding(s);
    RepairKeepsEncoding(t);
    DecodeEncode(Repaired(s));
    DecodeEncode(Repaired(t));
  }
}
