/** Numbers in JSON text: print_number and parse_number of cjson.c, on exact integers and, as tokens, on other doubles. */
module JsonNumber {
  import opened Bytes
  import opened JsonValue

  /** The token buffer of parse_number, without its terminator. */
  const TOKEN_LIMIT: nat := 63

  predicate IsNumberChar(b: byte) {
    IsDigit(b) || b == PLUS || b == MINUS || b == LOWER_E || b == UPPER_E || b == DOT
  }

  // ---- printing ----

  function DigitOf(d: nat): (b: byte)
    requires d < 10
    ensures IsDigit(b) && b as int == 0x30 + d
  {
    (0x30 + d) as byte
  }

  function Digits(n: nat): (s: Text)
    ensures |s| > 0 && forall i :: 0 <= i < |s| ==> IsDigit(s[i])
  {
    if n < 10 then [DigitOf(n)] else Digits(n / 10) + [DigitOf(n % 10)]
  }

  /** What sprintf("%1.15g") makes of an exact integer. */
  function Decimal(n: ExactInt): (s: Text)
    ensures |s| > 0 && forall i :: 0 <= i < |s| ==> IsNumberChar(s[i])
    ensures s[0] == MINUS || IsDigit(s[0])
  {
    if n < 0 then [MINUS] + Digits(-n) else Digits(n)
  }

  // ---- strtod on the characters that parse_number lets through ----

  function SkipDigits(t: Text, i: nat): (j: nat)
    requires i <= |t|
    ensures i <= j <= |t| && forall k :: i <= k < j ==> IsDigit(t[k])
    ensures j < |t| ==> !IsDigit(t[j])
    decreases |t| - i
  {
    if i < |t| && IsDigit(t[i]) then SkipDigits(t, i + 1) else i
  }

  predicate IsSign(t: Text, i: nat) {
    i < |t| && (t[i] == PLUS || t[i] == MINUS)
  }

  function AfterSign(t: Text, i: nat): (j: nat)
    requires i <= |t|
    ensures i <= j <= |t| && j <= i + 1
  {
    if IsSign(t, i) then i + 1 else i
  }

  /** Where a point and the digits behind it end that may follow the digits up to i. */
  function AfterFraction(t: Text, i: nat): (f: nat)
    requires i <= |t|
    ensures i <= f <= |t| && forall k :: i < k < f ==> IsDigit(t[k])
  {
    if i < |t| && t[i] == DOT then SkipDigits(t, i + 1) else i
  }

  /** Where the exponent ends that may follow a mantissa ending at i: i itself if there is none. */
  function AfterExponent(t: Text, i: nat): (j: nat)
    requires i <= |t|
    ensures i <= j <= |t|
  {
    if i < |t| && (t[i] == LOWER_E || t[i] == UPPER_E) then
      var s := AfterSign(t, i + 1);
      var j := SkipDigits(t, s);
      if j > s then j else i
    else i
  }

  /** How many characters strtod converts; 0 when there is no number. */
  function StrtodLength(t: Text): (n: nat)
    ensures n <= |t|
  {
    var s := AfterSign(t, 0);
    var i := SkipDigits(t, s);
    var f := AfterFraction(t, i);
    var fraction := if i < f then f - i - 1 else 0;
    if (i - s) + fraction == 0 then 0 else AfterExponent(t, f)
  }

  function DigitsValue(t: Text): nat
    requires forall i :: 0 <= i < |t| ==> IsDigit(t[i])
  {
    if t == [] then 0
    else
      assert IsDigit(t[|t| - 1]);
      10 * DigitsValue(t[..|t| - 1]) + (t[|t| - 1] as int - 0x30)
  }

  function Power10(k: nat): (p: nat)
    ensures p > 0
  {
    if k == 0 then 1 else 10 * Power10(k - 1)
  }

  /** A token that strtod converts completely, taken apart; scale is the power of ten that the digits are multiplied by. */
  datatype Spelling = Spelling(negative: bool, whole: Text, fraction: Text, exponent: Text, scale: int)

  /** The number in an exponent that starts at f, if one does. */
  function ExponentValue(t: Text, f: nat): int
    requires f <= |t|
  {
    if f == |t| then 0
    else
      var x := AfterSign(t, f + 1);
      var n: int := DigitsValue(t[x..SkipDigits(t, x)]);
      if x > f + 1 && t[f + 1] == MINUS then -n else n
  }

  function Spell(t: Text): (r: Spelling)
    ensures forall i :: 0 <= i < |r.whole| ==> IsDigit(r.whole[i])
    ensures forall i :: 0 <= i < |r.fraction| ==> IsDigit(r.fraction[i])
  {
    var s := AfterSign(t, 0);
    var i := SkipDigits(t, s);
    var f := AfterFraction(t, i);
    var fraction := if i < f then t[i + 1..f] else [];
    Spelling(s > 0 && t[0] == MINUS, t[s..i], fraction, t[f..], ExponentValue(t, f) - |fraction|)
  }

  /** m times ten to the power of scale, if that is a whole number. */
  function Scaled(m: nat, scale: int): Option<nat> {
    if scale >= 0 then Some(m * Power10(scale))
    else if m % Power10(-scale) == 0 then Some(m / Power10(-scale))
    else None
  }

  /** The number denoted by a token that strtod converts completely: exact whenever it is an exact integer other than -0. */
  function NumberValue(t: Text): Value {
    var r := Spell(t);
    var m := DigitsValue(r.whole + r.fraction);
    match Scaled(m, r.scale)
    case Some(n) =>
      if n >= EXACT_LIMIT || (n == 0 && r.negative) then Float(t) else Num(if r.negative then -(n as int) else n)
    case None => Float(t)
  }

  // ---- what print_number writes ----

  /** What number_buffer of print_number can hold. */
  const PRINT_LIMIT: nat := 25

  predicate NoTrailingZero(s: Text) {
    s == [] || s[|s| - 1] != DIGIT_0
  }

  /** The digits of a number from the first one that is not 0. */
  function Significant(s: Text): Text {
    if s == [] || s[0] != DIGIT_0 then s else Significant(s[1..])
  }

  function WithoutTrailingZeros(s: Text): Text {
    if NoTrailingZero(s) then s else WithoutTrailingZeros(s[..|s| - 1])
  }

  /** "%g" with a precision of 15 digits, or of 17 for numbers that need more than 15: plain decimals for exponents from -4
      up to the precision, and otherwise one digit before the point and an exponent of two digits or more; no zeros behind
      the last digit of a fraction. */
  predicate IsShortest(r: Spelling) {
    && NoTrailingZero(r.fraction) && r.whole != []
    && var digits := |WithoutTrailingZeros(Significant(r.whole + r.fraction))|;
    && var precision := if digits <= 15 then 15 else 17;
    && digits <= precision
    && if r.exponent == [] then
         && |r.whole| <= precision && (|r.whole| > 1 ==> r.whole[0] != DIGIT_0)
         && (r.whole == [DIGIT_0] && r.fraction != [] ==> |r.fraction| - digits <= 3)
       else
         && |r.whole| == 1 && r.whole[0] != DIGIT_0
         && |r.exponent| >= 4 && r.exponent[0] == LOWER_E && (r.exponent[1] == PLUS || r.exponent[1] == MINUS)
         && (|r.exponent| > 4 ==> r.exponent[2] != DIGIT_0)
         && var x := r.scale + |r.fraction|; -307 <= x <= 307 && (x < -4 || x >= precision)
  }

  /** A token that can be the printed text of a double that is not an exact integer. */
  predicate IsFloatToken(t: Text) {
    && 0 < |t| <= PRINT_LIMIT && (t[0] == MINUS || IsDigit(t[0])) && (forall i :: 0 <= i < |t| ==> IsNumberChar(t[i]))
    && StrtodLength(t) == |t| && IsShortest(Spell(t)) && NumberValue(t) == Float(t)
  }

  // ---- parse_number ----

  /** Where the run of number characters from i ends, or where the token buffer is full. */
  function TokenEnd(c: Text, i: nat, room: nat): (j: nat)
    requires i <= |c|
    ensures i <= j <= |c| && j <= i + room
    ensures forall k :: i <= k < j ==> IsNumberChar(c[k])
    ensures j < i + room && j < |c| ==> !IsNumberChar(c[j])
    decreases room
  {
    if room > 0 && i < |c| && IsNumberChar(c[i]) then TokenEnd(c, i + 1, room - 1) else i
  }

  lemma TokenStep(c: Text, i: nat, room: nat)
    requires i <= |c|
    ensures TokenEnd(c, i, room) == if room > 0 && i < |c| && IsNumberChar(c[i]) then TokenEnd(c, i + 1, room - 1) else i
  {
  }

  // ---- printing and parsing are inverse ----

  lemma DigitsLength(n: nat, k: nat, p: nat)
    requires p == Power10(k) && n < p && k > 0
    ensures |Digits(n)| <= k
    decreases k
  {
    if n >= 10 {
      assert Power10(k) == 10 * Power10(k - 1);
      DigitsLength(n / 10, k - 1, Power10(k - 1));
    }
  }

  lemma DecimalLength(n: ExactInt)
    ensures |Decimal(n)| <= 16
  {
    assert Power10(15) == EXACT_LIMIT by {
      assert Power10(3) == 1000;
      assert Power10(6) == 1000_000;
      assert Power10(9) == 1000_000_000;
      assert Power10(12) == 1000_000_000_000;
    }
    DigitsLength(if n < 0 then -n else n, 15, EXACT_LIMIT);
  }

  lemma {:induction false} DigitsRoundTrip(n: nat)
    ensures DigitsValue(Digits(n)) == n
  {
    if n >= 10 {
      DigitsRoundTrip(n / 10);
      var s := Digits(n / 10) + [DigitOf(n % 10)];
      assert s[..|s| - 1] == Digits(n / 10);
    } else {
      assert [DigitOf(n)][..0] == [];
    }
  }

  lemma SkipsAllDigits(t: Text, i: nat)
    requires i <= |t| && forall k :: i <= k < |t| ==> IsDigit(t[k])
    ensures SkipDigits(t, i) == |t|
  {
  }

  lemma SpellsDecimal(n: ExactInt)
    ensures var m: nat := if n < 0 then -n else n;
            Spell(Decimal(n)) == Spelling(n < 0, Digits(m), [], [], 0) && StrtodLength(Decimal(n)) == |Decimal(n)|
  {
    hide Digits, DigitsValue;
    var t := Decimal(n);
    var m: nat := if n < 0 then -n else n;
    var s := AfterSign(t, 0);
    assert t[s..] == Digits(m);
    assert forall k :: s <= k < |t| ==> t[k] == t[s..][k - s];
    SkipsAllDigits(t, s);
  }

  /** strtod takes the whole printed integer and gives back its value. */
  lemma DecimalRoundTrip(n: ExactInt)
    ensures StrtodLength(Decimal(n)) == |Decimal(n)|
    ensures NumberValue(Decimal(n)) == Num(n)
  {
    hide Spell, StrtodLength, Decimal, Digits, DigitsValue;
    var m: nat := if n < 0 then -n else n;
    SpellsDecimal(n);
    DigitsRoundTrip(m);
    assert Digits(m) + [] == Digits(m);
    assert m * Power10(0) == m;
  }

  /** The token that starts where a printed number stands is that number's text. */
  lemma TokenOfNumber(c: Text, o: nat, t: Text)
    requires |t| <= TOKEN_LIMIT && forall i :: 0 <= i < |t| ==> IsNumberChar(t[i])
    requires At(c, o, t) && o + |t| < |c| && !IsNumberChar(c[o + |t|])
    ensures TokenEnd(c, o, TOKEN_LIMIT) == o + |t| && c[o..o + |t|] == t
  {
    var e := o + |t|;
    assert forall k :: o <= k < e ==> c[k] == c[o..e][k - o];
    var j := TokenEnd(c, o, TOKEN_LIMIT);
  }

  lemma SkipTo(t: Text, i: nat, j: nat)
    requires i <= j <= |t| && (forall k :: i <= k < j ==> IsDigit(t[k])) && (j < |t| ==> !IsDigit(t[j]))
    ensures SkipDigits(t, i) == j
    decreases j - i
  {
    if i < j {
      SkipTo(t, i + 1, j);
    }
  }

  lemma DigitsOf(a: byte, b: byte)
    requires IsDigit(a) && IsDigit(b)
    ensures DigitsValue([a]) == a as nat - 0x30
    ensures DigitsValue([a, b]) == 10 * (a as nat - 0x30) + (b as nat - 0x30)
  {
    assert [a][..0] == [] && [a, b][..1] == [a];
  }

  /** 0.5 is such a token. */
  lemma HalfIsFloatToken()
    ensures IsFloatToken([DIGIT_0, DOT, 0x35])
  {
    var t := [DIGIT_0, DOT, 0x35];
    SkipTo(t, 0, 1);
    SkipTo(t, 2, 3);
    DigitsOf(DIGIT_0, 0x35);
    assert Spell(t) == Spelling(false, [DIGIT_0], [0x35], [], -1);
    assert [DIGIT_0, 0x35][1..] == [0x35];
    assert Significant([DIGIT_0, 0x35]) == [0x35];
    assert Power10(1) == 10;
  }

  /** 1.0 and 1e5 are other spellings of exact integers. */
  lemma OtherSpellings()
    ensures NumberValue([0x31, DOT, DIGIT_0]) == Num(1)
    ensures NumberValue([0x31, LOWER_E, 0x35]) == Num(100000)
  {
    var one, many := [0x31, DOT, DIGIT_0], [0x31, LOWER_E, 0x35];
    SkipTo(one, 0, 1);
    SkipTo(one, 2, 3);
    SkipTo(many, 0, 1);
    SkipTo(many, 2, 3);
    DigitsOf(0x31, DIGIT_0);
    DigitsOf(0x31, 0x35);
    DigitsOf(0x35, 0x35);
    assert Spell(one) == Spelling(false, [0x31], [DIGIT_0], [], -1);
    assert many[2..3] == [0x35];
    assert Spell(many) == Spelling(false, [0x31], [], many[1..], 5);
    assert [0x31] + [] == [0x31];
    assert Power10(1) == 10 && Power10(5) == 100000;
  }
}
