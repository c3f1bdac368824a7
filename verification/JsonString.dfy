/** JSON string literals: print_string_ptr and the two passes of parse_string (cjson.c). */
module JsonString {
  import opened Bytes
  import opened Utf8

  // ---- printing ----

  function HexDigit(d: nat): (b: byte)
    requires d < 16
  {
    if d < 10 then (0x30 + d) as byte else (0x61 + d - 10) as byte
  }

  /** How print_string_ptr writes one byte of a string. */
  function EscapeByte(b: byte): (s: Text)
    ensures |s| > 0
  {
    if b > 31 && b != QUOTE && b != BACKSLASH then [b]
    else if b == BACKSLASH || b == QUOTE then [BACKSLASH, b]
    else if b == 0x08 then [BACKSLASH, LOWER_B]
    else if b == 0x0C then [BACKSLASH, LOWER_F]
    else if b == 0x0A then [BACKSLASH, LOWER_N]
    else if b == 0x0D then [BACKSLASH, LOWER_R]
    else if b == 0x09 then [BACKSLASH, LOWER_T]
    else [BACKSLASH, LOWER_U, DIGIT_0, DIGIT_0, HexDigit(b as nat / 16), HexDigit(b as nat % 16)]
  }

  function EscapeText(s: Text): Text {
    if s == [] then [] else EscapeByte(s[0]) + EscapeText(s[1..])
  }

  function QuotedText(s: Text): Text {
    [QUOTE] + EscapeText(s) + [QUOTE]
  }

  // ---- the first pass: find the closing quote, count the escape introducers ----

  datatype Scanned = Unterminated | Closed(end: nat, skipped: nat)

  function ScanString(c: Text, i: nat): (r: Scanned)
    requires i <= |c|
    ensures r.Closed? ==> i <= r.end < |c| && c[r.end] == QUOTE
    decreases |c| - i
  {
    if i == |c| then Unterminated
    else if c[i] == QUOTE then Closed(i, 0)
    else if c[i] != BACKSLASH then ScanString(c, i + 1)
    else if i + 1 == |c| then Unterminated
    else
      match ScanString(c, i + 2)
      case Unterminated => Unterminated
      case Closed(end, skipped) => Closed(end, skipped + 1)
  }

  // ---- the second pass: decode up to the quote found by the first ----

  function HexValue(b: byte): (v: Option<nat>)
    ensures v.Some? ==> v.value < 16
  {
    if DIGIT_0 <= b <= DIGIT_9 then Some(b as nat - 0x30)
    else if UPPER_A <= b <= UPPER_F then Some(10 + b as nat - 0x41)
    else if LOWER_A <= b <= LOWER_F then Some(10 + b as nat - 0x61)
    else None
  }

  /** The value of four hexadecimal digits, if all four are digits. */
  function Hex4(c: Text, i: nat): (u: Option<nat>)
    requires i + 4 <= |c|
    ensures u.Some? ==> u.value < 0x10000
  {
    var h0, h1, h2, h3 := HexValue(c[i]), HexValue(c[i + 1]), HexValue(c[i + 2]), HexValue(c[i + 3]);
    if h0.Some? && h1.Some? && h2.Some? && h3.Some? then
      Some(((h0.value * 16 + h1.value) * 16 + h2.value) * 16 + h3.value)
    else None
  }

  /** parse_hex4: an invalid digit makes the whole number 0. */
  function ParseHex4(c: Text, i: nat): (u: nat)
    requires i + 4 <= |c|
    ensures u < 0x10000
  {
    match Hex4(c, i)
    case None => 0
    case Some(u) => u
  }

  /** One step of decoding: the bytes put out and the input bytes stepped over. */
  datatype Piece = Bad | Piece(length: nat, bytes: Text)

  /** utf16_literal_to_utf8 at an escape that starts with a backslash and a 'u'. */
  function DecodeLiteral(c: Text, p: nat, end: nat): (r: Piece)
    requires p < end < |c|
  {
    if end - p < 6 then Bad
    else
      var first := ParseHex4(c, p + 2);
      if IsLowSurrogate(first) then Bad
      else if IsHighSurrogate(first) then
        if end - (p + 6) < 6 || c[p + 6] != BACKSLASH || c[p + 7] != LOWER_U then Bad
        else
          var second := ParseHex4(c, p + 8);
          if !IsLowSurrogate(second) then Bad
          else
            SurrogatePairs(first, second);
            Piece(12, EncodeUtf8(CombineSurrogates(first, second)))
      else Piece(6, EncodeUtf8(first))
  }

  /** The switch of parse_string on the character after a backslash. */
  function DecodeEscape(c: Text, p: nat, end: nat): Piece
    requires p < end < |c|
  {
    var b := c[p + 1];
    if b == LOWER_B then Piece(2, [0x08])
    else if b == LOWER_F then Piece(2, [0x0C])
    else if b == LOWER_N then Piece(2, [0x0A])
    else if b == LOWER_R then Piece(2, [0x0D])
    else if b == LOWER_T then Piece(2, [0x09])
    else if b == QUOTE || b == BACKSLASH || b == SLASH then Piece(2, [b])
    else if b == LOWER_U then DecodeLiteral(c, p, end)
    else Bad
  }

  function DecodeStep(c: Text, p: nat, end: nat): (r: Piece)
    requires p < end < |c|
    ensures r.Piece? ==> r.length > 0
  {
    if c[p] != BACKSLASH then Piece(1, [c[p]]) else DecodeEscape(c, p, end)
  }

  /** Everything the second pass writes from p on; None when it gives up. */
  function DecodeString(c: Text, p: nat, end: nat): Option<Text>
    requires end < |c|
    decreases end - p
  {
    if p >= end then Some([])
    else
      var step := DecodeStep(c, p, end);
      if step.Bad? then None
      else
        var rest := DecodeString(c, p + step.length, end);
        if rest.None? then None else Some(step.bytes + rest.value)
  }

  // ---- the allocation made from the first pass is large enough for the second ----

  /** The escape introducers that the first pass, started at i, meets before limit. */
  function Introducers(c: Text, i: nat, limit: nat): nat
    requires limit <= |c|
    decreases |c| - i
  {
    if i >= limit then 0
    else if c[i] == BACKSLASH then 1 + Introducers(c, i + 2, limit)
    else Introducers(c, i + 1, limit)
  }

  /** Whatever was decoded from the body up to p fits in p's share of the allocation. */
  function Room(c: Text, start: nat, p: nat): int
    requires p <= |c|
  {
    p - start - Introducers(c, start, p)
  }

  lemma IntroducersStep(c: Text, i: nat, limit: nat)
    requires limit < |c|
    ensures Introducers(c, i, limit) <= Introducers(c, i, limit + 1) <= Introducers(c, i, limit) + 1
    ensures c[limit] != BACKSLASH ==> Introducers(c, i, limit + 1) == Introducers(c, i, limit)
    decreases |c| - i
  {
    if i < limit {
      IntroducersStep(c, if c[i] == BACKSLASH then i + 2 else i + 1, limit);
    }
  }

  /** Introducers are never adjacent. */
  lemma IntroducersPair(c: Text, i: nat, limit: nat)
    requires limit + 2 <= |c|
    ensures Introducers(c, i, limit + 2) <= Introducers(c, i, limit) + 1
    decreases |c| - i
  {
    if i < limit {
      IntroducersPair(c, if c[i] == BACKSLASH then i + 2 else i + 1, limit);
    } else if i == limit {
      assert Introducers(c, i + 1, limit + 2) <= 1;
    }
  }

  lemma IntroducersPairs(c: Text, i: nat, limit: nat, pairs: nat)
    requires limit + 2 * pairs <= |c|
    ensures Introducers(c, i, limit + 2 * pairs) <= Introducers(c, i, limit) + pairs
  {
    if pairs > 0 {
      IntroducersPairs(c, i, limit, pairs - 1);
      IntroducersPair(c, i, limit + 2 * (pairs - 1));
    }
  }

  /** The first pass counts exactly the introducers before the quote. */
  lemma SkippedIsIntroducers(c: Text, i: nat)
    requires i <= |c| && ScanString(c, i).Closed?
    ensures Introducers(c, i, ScanString(c, i).end) == ScanString(c, i).skipped
    decreases |c| - i
  {
    if c[i] != QUOTE {
      SkippedIsIntroducers(c, if c[i] == BACKSLASH then i + 2 else i + 1);
    }
  }

  /** A backslash right before the closing quote is not an introducer: the first pass would have
      stepped over the quote. */
  lemma LastIsNoIntroducer(c: Text, i: nat)
    requires i <= |c| && ScanString(c, i).Closed? && i < ScanString(c, i).end
    ensures Introducers(c, i, ScanString(c, i).end) == Introducers(c, i, ScanString(c, i).end - 1)
    decreases |c| - i
  {
    var next := if c[i] == BACKSLASH then i + 2 else i + 1;
    if next < ScanString(c, i).end {
      LastIsNoIntroducer(c, next);
    }
  }

  function Min(a: nat, b: nat): nat {
    if a < b then a else b
  }

  lemma LiteralShape(c: Text, p: nat, end: nat)
    requires p < end < |c| && DecodeLiteral(c, p, end).Piece?
    ensures var piece := DecodeLiteral(c, p, end);
            piece.length in {6, 12} && 2 * |piece.bytes| <= piece.length && p + piece.length <= end
  {
    hide EncodeUtf8, ParseHex4;
  }

  /** A plain byte, or an escape whose bytes are at most half of those that it takes; only escapes step over the quote. */
  lemma StepShape(c: Text, p: nat, end: nat)
    requires p < end < |c| && DecodeStep(c, p, end).Piece?
    ensures var step := DecodeStep(c, p, end);
            if c[p] != BACKSLASH then step.length == 1 && |step.bytes| == 1
            else
              && step.length % 2 == 0 && 0 < step.length && 2 * |step.bytes| <= step.length
              && (p + step.length > end ==> step.length == 2 && p + 1 == end)
  {
    hide DecodeLiteral;
    if c[p] == BACKSLASH && c[p + 1] == LOWER_U {
      LiteralShape(c, p, end);
    }
  }

  /** One decoding step writes no more than the room it gains, even where the second pass is out
      of step with the first: it may then take as an escape what the first pass took as the second
      byte of one, and may step over the closing quote. */
  lemma {:induction false} StepFitsRoom(c: Text, start: nat, p: nat)
    requires start <= |c| && ScanString(c, start).Closed?
    requires start <= p < ScanString(c, start).end
    requires DecodeStep(c, p, ScanString(c, start).end).Piece?
    ensures var end := ScanString(c, start).end;
            var step := DecodeStep(c, p, end);
            |step.bytes| <= Room(c, start, Min(p + step.length, end)) - Room(c, start, p)
  {
    hide DecodeStep, Introducers;
    var end := ScanString(c, start).end;
    var step := DecodeStep(c, p, end);
    StepShape(c, p, end);
    if step.length == 1 {
      IntroducersStep(c, start, p);
    } else if p + step.length > end {
      LastIsNoIntroducer(c, start);
    } else {
      IntroducersPairs(c, start, p, step.length / 2);
    }
  }

  lemma {:induction false} RoomGrows(c: Text, start: nat, p: nat, q: nat)
    requires p <= q <= |c|
    ensures Room(c, start, p) <= Room(c, start, q)
    decreases q
  {
    if p < q {
      IntroducersStep(c, start, q - 1);
      RoomGrows(c, start, p, q - 1);
    }
  }

  /** The decoded string never outgrows the body less its introducers, whatever the body is. */
  lemma {:induction false} DecodedFits(c: Text, start: nat, p: nat)
    requires start <= |c| && ScanString(c, start).Closed?
    requires start <= p && DecodeString(c, p, ScanString(c, start).end).Some?
    ensures var scan := ScanString(c, start);
            |DecodeString(c, p, scan.end).value| + Room(c, start, Min(p, scan.end)) <= scan.end - start - scan.skipped
    decreases ScanString(c, start).end - p
  {
    var end := ScanString(c, start).end;
    SkippedIsIntroducers(c, start);
    if p < end {
      StepFitsRoom(c, start, p);
      DecodedFits(c, start, p + DecodeStep(c, p, end).length);
    }
  }

  // ---- escapes denote code points ----

  predicate IsEscapeU(c: Text, p: nat) {
    p + 6 <= |c| && c[p] == BACKSLASH && c[p + 1] == LOWER_U && Hex4(c, p + 2).Some?
  }

  /** An escape of a character of the basic plane becomes the only UTF-8 encoding of it. */
  lemma LiteralIsUtf8(c: Text, p: nat, end: nat)
    requires p + 6 <= end < |c| && IsEscapeU(c, p)
    requires IsScalar(Hex4(c, p + 2).value)
    ensures DecodeEscape(c, p, end).Piece? && DecodeEscape(c, p, end).length == 6
    ensures DecodeUtf8(DecodeEscape(c, p, end).bytes) == Some(Hex4(c, p + 2).value)
    ensures forall s :: DecodeUtf8(s) == Some(Hex4(c, p + 2).value) ==> s == DecodeEscape(c, p, end).bytes
  {
    var u := Hex4(c, p + 2).value;
    EncodingDecodes(u);
    forall s | DecodeUtf8(s) == Some(u)
      ensures s == EncodeUtf8(u)
    {
      EncodingIsUnique(s, u);
    }
  }

  /** Well-formed surrogate escapes are accepted exactly as high-low pairs, and then become the only
      UTF-8 encoding of the code point of the pair. */
  lemma SurrogateLiteralIsUtf8(c: Text, p: nat, end: nat)
    requires p + 6 <= end < |c| && IsEscapeU(c, p)
    requires !IsScalar(Hex4(c, p + 2).value)
    ensures DecodeEscape(c, p, end).Piece? <==>
            && IsHighSurrogate(Hex4(c, p + 2).value)
            && p + 12 <= end && IsEscapeU(c, p + 6) && IsLowSurrogate(Hex4(c, p + 8).value)
    ensures DecodeEscape(c, p, end).Piece? ==>
              var cp := CombineSurrogates(Hex4(c, p + 2).value, Hex4(c, p + 8).value);
              && DecodeEscape(c, p, end).length == 12
              && DecodeUtf8(DecodeEscape(c, p, end).bytes) == Some(cp)
              && forall s :: DecodeUtf8(s) == Some(cp) ==> s == DecodeEscape(c, p, end).bytes
  {
    if DecodeEscape(c, p, end).Piece? {
      var cp := CombineSurrogates(Hex4(c, p + 2).value, Hex4(c, p + 8).value);
      SurrogatePairs(Hex4(c, p + 2).value, Hex4(c, p + 8).value);
      EncodingDecodes(cp);
      forall s | DecodeUtf8(s) == Some(cp)
        ensures s == EncodeUtf8(cp)
      {
        EncodingIsUnique(s, cp);
      }
    }
  }

  // ---- printing and parsing are inverse ----

  lemma HexDigitValue(d: nat)
    requires d < 16
    ensures HexValue(HexDigit(d)) == Some(d)
    ensures HexDigit(d) != QUOTE && HexDigit(d) != BACKSLASH
  {
  }

  /** A control character without a short escape: read as a literal of one byte. */
  lemma ControlEscape(b: byte, c: Text, p: nat, end: nat)
    requires |EscapeByte(b)| == 6 && At(c, p, EscapeByte(b)) && p + 6 <= end < |c|
    ensures forall i :: p + 2 <= i < p + 6 ==> c[i] != QUOTE && c[i] != BACKSLASH
    ensures c[p] == BACKSLASH && DecodeStep(c, p, end) == Piece(6, [b])
  {
    var e := EscapeByte(b);
    AtIndex(c, p, e, 0);
    AtIndex(c, p, e, 1);
    AtIndex(c, p, e, 2);
    AtIndex(c, p, e, 3);
    AtIndex(c, p, e, 4);
    AtIndex(c, p, e, 5);
    HexDigitValue(b as nat / 16);
    HexDigitValue(b as nat % 16);
    assert HexValue(DIGIT_0) == Some(0);
    assert Hex4(c, p + 2) == Some(b as nat);
    assert EncodeUtf8(b as nat) == [b];
  }

  lemma ScanPlain(c: Text, p: nat, q: nat)
    requires p <= q <= |c| && forall i :: p <= i < q ==> c[i] != QUOTE && c[i] != BACKSLASH
    ensures ScanString(c, p) == ScanString(c, q)
    decreases q - p
  {
    if p < q {
      ScanPlain(c, p + 1, q);
    }
  }

  /** Both passes step over the escape of one byte, and the second gives the byte back. */
  lemma EscapeByteStep(b: byte, c: Text, p: nat, end: nat)
    requires b != NUL && At(c, p, EscapeByte(b))
    requires p + |EscapeByte(b)| <= end < |c|
    ensures var rest := ScanString(c, p + |EscapeByte(b)|);
            rest.Closed? ==> ScanString(c, p).Closed? && ScanString(c, p).end == rest.end
    ensures DecodeStep(c, p, end) == Piece(|EscapeByte(b)|, [b])
  {
    var e := EscapeByte(b);
    AtIndex(c, p, e, 0);
    if |e| == 6 {
      ControlEscape(b, c, p, end);
      ScanPlain(c, p + 2, p + 6);
    } else if |e| == 2 {
      AtIndex(c, p, e, 1);
    }
  }

  /** Joining one decoded byte to the rest. */
  lemma DecodeStepThen(c: Text, p: nat, end: nat, length: nat, b: byte, rest: Text)
    requires p < end < |c| && DecodeStep(c, p, end) == Piece(length, [b])
    requires DecodeString(c, p + length, end) == Some(rest)
    ensures DecodeString(c, p, end) == Some([b] + rest)
  {
  }

  lemma {:induction false} EscapedRoundTrip(s: Text, c: Text, p: nat)
    requires NulFree(s)
    requires At(c, p, EscapeText(s) + [QUOTE])
    ensures ScanString(c, p).Closed? && ScanString(c, p).end == p + |EscapeText(s)|
    ensures DecodeString(c, p, p + |EscapeText(s)|) == Some(s)
    decreases |s|
  {
    hide EscapeByte, DecodeStep;
    if s == [] {
      AtIndex(c, p, [QUOTE], 0);
    } else {
      var b, tail := s[0], s[1..];
      var q, end := p + |EscapeByte(b)|, p + |EscapeText(s)|;
      assert At(c, p, EscapeByte(b)) && At(c, q, EscapeText(tail) + [QUOTE]) by {
        assert EscapeText(s) + [QUOTE] == EscapeByte(b) + (EscapeText(tail) + [QUOTE]);
        AtConcat(c, p, EscapeByte(b), EscapeText(tail) + [QUOTE]);
      }
      EscapedRoundTrip(tail, c, q);
      EscapeByteStep(b, c, p, end);
      DecodeStepThen(c, p, end, |EscapeByte(b)|, b, tail);
      assert [b] + tail == s;
    }
  }
}
