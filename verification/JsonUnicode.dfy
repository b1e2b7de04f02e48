/**
  The two encodings behind the unicode escapes: UTF-8 (section 3 of RFC 3629) and UTF-16
  (section 2 of RFC 2781), and what `decode_unicode_char` has to do with them.
 */
module JsonUnicode {
  import opened JsonTypes
  import opened JsonMachine

  /** A unicode scalar value: a code point that is not a surrogate. */
  predicate IsScalarValue(cp: nat) {
    cp < 0xD800 || 0xE000 <= cp < 0x110000
  }

  /** Section 3 of RFC 3629. */
  function Utf8(cp: nat): Bytes
    requires IsScalarValue(cp)
  {
    if cp < 0x80 then [cp]
    else if cp < 0x800 then [0xC0 + cp / 0x40, 0x80 + cp % 0x40]
    else if cp < 0x10000 then [0xE0 + cp / 0x1000, 0x80 + cp / 0x40 % 0x40, 0x80 + cp % 0x40]
    else [0xF0 + cp / 0x40000, 0x80 + cp / 0x1000 % 0x40, 0x80 + cp / 0x40 % 0x40, 0x80 + cp % 0x40]
  }

  /** The number the bits of a UTF-8 sequence spell, header bits removed. */
  function Utf8Value(b: seq<int>): int
    requires 1 <= |b| <= 4
  {
    if |b| == 1 then b[0]
    else if |b| == 2 then (b[0] - 0xC0) * 0x40 + (b[1] - 0x80)
    else if |b| == 3 then (b[0] - 0xE0) * 0x1000 + (b[1] - 0x80) * 0x40 + (b[2] - 0x80)
    else (b[0] - 0xF0) * 0x40000 + (b[1] - 0x80) * 0x1000 + (b[2] - 0x80) * 0x40 + (b[3] - 0x80)
  }

  /** The shape of section 3 of RFC 3629: what the first byte says, continuation bytes, and no longer form than needed. */
  predicate IsUtf8(b: seq<int>) {
    && 1 <= |b| <= 4
    && (forall i :: 1 <= i < |b| ==> 0x80 <= b[i] < 0xC0)
    && (|b| == 1 ==> 0 <= b[0] < 0x80) && (|b| == 2 ==> 0xC2 <= b[0] < 0xE0)
    && (|b| == 3 ==> 0xE0 <= b[0] < 0xF0 && (b[0] == 0xE0 ==> b[1] >= 0xA0) && (b[0] == 0xED ==> b[1] < 0xA0))
    && (|b| == 4 ==> 0xF0 <= b[0] < 0xF5 && (b[0] == 0xF0 ==> b[1] >= 0x90) && (b[0] == 0xF4 ==> b[1] < 0x90))
  }

  /** UTF-8 has the required bits and loses nothing. */
  lemma Utf8Spells(cp: nat)
    requires IsScalarValue(cp)
    ensures IsUtf8(Utf8(cp)) && Utf8Value(Utf8(cp)) == cp
  {
    assert cp / 0x1000 == cp / 0x40 / 0x40 && cp / 0x40000 == cp / 0x1000 / 0x40;
  }

  /** And the other way: every sequence of that shape is the UTF-8 of the scalar value it spells. */
  lemma Utf8Unique(b: Bytes)
    requires IsUtf8(b)
    ensures Utf8Value(b) >= 0 && IsScalarValue(Utf8Value(b)) && Utf8(Utf8Value(b)) == b
  {
    if |b| == 2 {
      Digits(b[0] as int - 0xC0, b[1] as int - 0x80);
    } else if |b| == 3 {
      ThreeBytesUnique(b);
    } else if |b| == 4 {
      FourBytesUnique(b);
    }
  }

  lemma ThreeBytesUnique(b: Bytes)
    requires IsUtf8(b) && |b| == 3
    ensures 0x800 <= Utf8Value(b) < 0x10000 && IsScalarValue(Utf8Value(b)) && Utf8(Utf8Value(b)) == b
  {
    var x, y, z := b[0] as int - 0xE0, b[1] as int - 0x80, b[2] as int - 0x80;
    assert Utf8Value(b) == (x * 0x40 + y) * 0x40 + z;
    Digits(x * 0x40 + y, z);
    Digits(x, y);
    assert Utf8Value(b) / 0x1000 == Utf8Value(b) / 0x40 / 0x40;
  }

  lemma FourBytesUnique(b: Bytes)
    requires IsUtf8(b) && |b| == 4
    ensures 0x10000 <= Utf8Value(b) < 0x110000 && Utf8(Utf8Value(b)) == b
  {
    var w, x, y, z := b[0] as int - 0xF0, b[1] as int - 0x80, b[2] as int - 0x80, b[3] as int - 0x80;
    var cp := Utf8Value(b);
    assert cp == ((w * 0x40 + x) * 0x40 + y) * 0x40 + z;
    Digits((w * 0x40 + x) * 0x40 + y, z);
    Digits(w * 0x40 + x, y);
    Digits(w, x);
    assert cp / 0x1000 == cp / 0x40 / 0x40 && cp / 0x40000 == cp / 0x1000 / 0x40;
  }

  lemma Digits(a: nat, b: nat)
    requires b < 0x40
    ensures (a * 0x40 + b) / 0x40 == a && (a * 0x40 + b) % 0x40 == b
  {}

  /** Section 2.1 of RFC 2781. */
  function Utf16(cp: nat): seq<nat>
    requires IsScalarValue(cp)
  {
    if cp < 0x10000 then [cp]
    else [0xD800 + (cp - 0x10000) / 0x400, 0xDC00 + (cp - 0x10000) % 0x400]
  }

  /** The scalar value of a surrogate pair: section 2.2 of RFC 2781. */
  function PairValue(high: nat, low: nat): nat
    requires IsHighSurrogate(high) && IsLowSurrogate(low)
  {
    0x10000 + (high - 0xD800) * 0x400 + (low - 0xDC00)
  }

  lemma PairValueUtf16(high: nat, low: nat)
    requires IsHighSurrogate(high) && IsLowSurrogate(low)
    ensures IsScalarValue(PairValue(high, low)) && Utf16(PairValue(high, low)) == [high, low]
  {
    var cp := PairValue(high, low);
    assert cp - 0x10000 == (high - 0xD800) * 0x400 + (low - 0xDC00);
    assert (cp - 0x10000) / 0x400 == high - 0xD800 && (cp - 0x10000) % 0x400 == low - 0xDC00;
  }

  /** The bytes written for a unit are the UTF-8 of the scalar the unit is the UTF-16 of. */
  lemma EncodeUnitIsUtf8(cp: nat)
    requires IsScalarValue(cp) && |Utf16(cp)| == 1
    ensures EncodeUnit(Utf16(cp)[0]) == Utf8(cp)
  {
  }

  lemma LowBits(high: nat, low: nat)
    requires high < 0x400 && low < 0x400
    ensures (0xD800 + high) % 0x400 == high && (0xDC00 + low) % 0x400 == low
  {}

  /** The same for a pair of units. */
  lemma EncodePairIsUtf8(cp: nat)
    requires IsScalarValue(cp) && |Utf16(cp)| == 2
    ensures IsHighSurrogate(Utf16(cp)[0]) && IsLowSurrogate(Utf16(cp)[1])
    ensures EncodePair(Utf16(cp)[0], Utf16(cp)[1]) == Utf8(cp)
  {
    var d := cp - 0x10000;
    LowBits(d / 0x400, d % 0x400);
    var u := 0x10000 + Utf16(cp)[0] % 0x400 * 0x400 + Utf16(cp)[1] % 0x400;
    assert u == cp;
  }
}
