/** UTF-8 as section 4 of RFC 3629 defines it, UTF-16 surrogate pairs as section 2.2 of
    RFC 2781 does, and the encoder at the end of utf16_literal_to_utf8. */
module Utf8 {
  import opened Bytes

  predicate IsHighSurrogate(u: int) {
    0xD800 <= u <= 0xDBFF
  }

  predicate IsLowSurrogate(u: int) {
    0xDC00 <= u <= 0xDFFF
  }

  predicate IsScalar(cp: int) {
    0 <= cp <= 0x10FFFF && !(0xD800 <= cp <= 0xDFFF)
  }

  function Tail(b: byte): Option<nat> {
    if 0x80 <= b <= 0xBF then Some(b as nat - 0x80) else None
  }

  /** The code point that a whole byte sequence encodes, if it is one well-formed encoding. */
  function DecodeUtf8(s: Text): Option<nat> {
    if |s| == 1 && s[0] < 0x80 then Some(s[0] as nat)
    else if |s| == 2 && 0xC2 <= s[0] <= 0xDF && Tail(s[1]).Some? then
      Some((s[0] as nat - 0xC0) * 0x40 + Tail(s[1]).value)
    else if |s| == 3 && 0xE0 <= s[0] <= 0xEF && Tail(s[1]).Some? && Tail(s[2]).Some?
            && (s[0] == 0xE0 ==> 0xA0 <= s[1]) && (s[0] == 0xED ==> s[1] <= 0x9F) then
      Some(((s[0] as nat - 0xE0) * 0x40 + Tail(s[1]).value) * 0x40 + Tail(s[2]).value)
    else if |s| == 4 && 0xF0 <= s[0] <= 0xF4 && Tail(s[1]).Some? && Tail(s[2]).Some? && Tail(s[3]).Some?
            && (s[0] == 0xF0 ==> 0x90 <= s[1]) && (s[0] == 0xF4 ==> s[1] <= 0x8F) then
      Some((((s[0] as nat - 0xF0) * 0x40 + Tail(s[1]).value) * 0x40 + Tail(s[2]).value) * 0x40 + Tail(s[3]).value)
    else None
  }

  function LengthUtf8(cp: nat): nat {
    if cp < 0x80 then 1 else if cp < 0x800 then 2 else if cp < 0x10000 then 3 else 4
  }

  /** The mark of a first byte, by the length it announces. */
  function FirstByteMark(length: nat): nat {
    if length == 2 then 0xC0 else if length == 3 then 0xE0 else if length == 4 then 0xF0 else 0
  }

  /** What is left of cp after length - 1 shifts by six bits fits in a first byte with mark. */
  predicate Fits(cp: nat, length: nat, mark: nat) {
    if length <= 1 then length == 1 && cp + mark < 256 else Fits(cp / 0x40, length - 1, mark)
  }

  /** The bytes of an encoding of the given length that ends with the low six bits of cp. */
  function EncodeBytes(cp: nat, length: nat, mark: nat): (s: Text)
    requires Fits(cp, length, mark)
    ensures |s| == length
  {
    if length == 1 then [(cp + mark) as byte]
    else EncodeBytes(cp / 0x40, length - 1, mark) + [(0x80 + cp % 0x40) as byte]
  }

  lemma EncodingFits(cp: nat)
    requires cp <= 0x10FFFF
    ensures Fits(cp, LengthUtf8(cp), FirstByteMark(LengthUtf8(cp)))
  {
    var length, mark := LengthUtf8(cp), FirstByteMark(LengthUtf8(cp));
    if length == 2 {
      assert Fits(cp / 0x40, 1, mark);
    } else if length == 3 {
      assert Fits(cp / 0x40 / 0x40, 1, mark);
      assert Fits(cp / 0x40, 2, mark);
    } else if length == 4 {
      assert Fits(cp / 0x40 / 0x40 / 0x40, 1, mark);
      assert Fits(cp / 0x40 / 0x40, 2, mark);
      assert Fits(cp / 0x40, 3, mark);
    }
  }

  function EncodeUtf8(cp: nat): (s: Text)
    requires cp <= 0x10FFFF
    ensures |s| == LengthUtf8(cp)
  {
    EncodingFits(cp);
    EncodeBytes(cp, LengthUtf8(cp), FirstByteMark(LengthUtf8(cp)))
  }

  /** The encoder's bytes, by length. */
  lemma EncodedBytes(cp: nat)
    requires cp <= 0x10FFFF
    ensures var s, a, b := EncodeUtf8(cp), cp / 0x40, cp / 0x40 / 0x40;
            && (|s| == 1 ==> s[0] as nat == cp)
            && (|s| == 2 ==> s[0] as nat == 0xC0 + a && s[1] as nat == 0x80 + cp % 0x40)
            && (|s| == 3 ==> s[0] as nat == 0xE0 + b && s[1] as nat == 0x80 + a % 0x40
                             && s[2] as nat == 0x80 + cp % 0x40)
            && (|s| == 4 ==> s[0] as nat == 0xF0 + b / 0x40 && s[1] as nat == 0x80 + b % 0x40
                             && s[2] as nat == 0x80 + a % 0x40 && s[3] as nat == 0x80 + cp % 0x40)
  {
    EncodingFits(cp);
    var s, mark := EncodeUtf8(cp), FirstByteMark(LengthUtf8(cp));
    if |s| >= 2 {
      var t := EncodeBytes(cp / 0x40, |s| - 1, mark);
      if |s| >= 3 {
        var u := EncodeBytes(cp / 0x40 / 0x40, |s| - 2, mark);
        if |s| == 4 {
          assert u == EncodeBytes(cp / 0x40 / 0x40 / 0x40, 1, mark) + [(0x80 + cp / 0x40 / 0x40 % 0x40) as byte];
        }
      }
    }
  }

  /** The encoder's bytes are an encoding of cp. */
  lemma EncodingDecodes(cp: nat)
    requires IsScalar(cp)
    ensures DecodeUtf8(EncodeUtf8(cp)) == Some(cp)
  {
    hide EncodeUtf8;
    EncodedBytes(cp);
  }

  lemma SixBitDigit(q: nat, x: nat)
    requires x < 0x40
    ensures (q * 0x40 + x) / 0x40 == q && (q * 0x40 + x) % 0x40 == x
  {
  }

  lemma ThreeBytes(s: Text, cp: nat)
    requires DecodeUtf8(s) == Some(cp) && |s| == LengthUtf8(cp) == 3
    ensures cp <= 0x10FFFF && s == EncodeUtf8(cp)
  {
    hide EncodeUtf8;
    var first, x, y := s[0] as nat - 0xE0, Tail(s[1]).value, Tail(s[2]).value;
    SixBitDigit(first, x);
    SixBitDigit(first * 0x40 + x, y);
    EncodedBytes(cp);
  }

  lemma FourBytes(s: Text, cp: nat)
    requires DecodeUtf8(s) == Some(cp) && |s| == LengthUtf8(cp) == 4
    ensures cp <= 0x10FFFF && s == EncodeUtf8(cp)
  {
    hide EncodeUtf8;
    var first, x, y, z := s[0] as nat - 0xF0, Tail(s[1]).value, Tail(s[2]).value, Tail(s[3]).value;
    SixBitDigit(first, x);
    SixBitDigit(first * 0x40 + x, y);
    SixBitDigit((first * 0x40 + x) * 0x40 + y, z);
    EncodedBytes(cp);
  }

  lemma DecodedLength(s: Text, cp: nat)
    requires DecodeUtf8(s) == Some(cp)
    ensures IsScalar(cp) && LengthUtf8(cp) == |s|
  {
  }

  /** No other bytes are. */
  lemma EncodingIsUnique(s: Text, cp: nat)
    requires DecodeUtf8(s) == Some(cp)
    ensures IsScalar(cp) && s == EncodeUtf8(cp)
  {
    hide EncodeUtf8;
    DecodedLength(s, cp);
    if |s| == 4 {
      FourBytes(s, cp);
    } else if |s| == 3 {
      ThreeBytes(s, cp);
    } else {
      if |s| == 2 {
        SixBitDigit(s[0] as nat - 0xC0, Tail(s[1]).value);
      }
      EncodedBytes(cp);
    }
  }

  function CombineSurrogates(high: nat, low: nat): nat {
    0x10000 + (high % 0x400) * 0x400 + low % 0x400
  }

  /** Surrogate pairs and the code points above the basic plane correspond one to one. */
  lemma SurrogatePairs(high: nat, low: nat)
    requires IsHighSurrogate(high) && IsLowSurrogate(low)
    ensures 0x10000 <= CombineSurrogates(high, low) <= 0x10FFFF
    ensures high == 0xD800 + (CombineSurrogates(high, low) - 0x10000) / 0x400
    ensures low == 0xDC00 + (CombineSurrogates(high, low) - 0x10000) % 0x400
  {
  }

  lemma SurrogatesOf(cp: nat)
    requires 0x10000 <= cp <= 0x10FFFF
    ensures IsHighSurrogate(0xD800 + (cp - 0x10000) / 0x400)
    ensures IsLowSurrogate(0xDC00 + (cp - 0x10000) % 0x400)
    ensures CombineSurrogates(0xD800 + (cp - 0x10000) / 0x400, 0xDC00 + (cp - 0x10000) % 0x400) == cp
  {
  }
}
