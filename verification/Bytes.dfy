/** The characters of C text: unsigned bytes, NUL-terminated strings and the
    character classes that the JSON code of cjson.c branches on. */
module Bytes {
  datatype Option<T> = None | Some(value: T)

  newtype byte = x: int | 0 <= x < 256

  type Text = seq<byte>

  const NUL: byte := 0
  const TAB: byte := 0x09
  const NEWLINE: byte := 0x0A
  const SPACE: byte := 0x20
  const QUOTE: byte := 0x22
  const PLUS: byte := 0x2B
  const COMMA: byte := 0x2C
  const MINUS: byte := 0x2D
  const DOT: byte := 0x2E
  const SLASH: byte := 0x2F
  const DIGIT_0: byte := 0x30
  const DIGIT_9: byte := 0x39
  const COLON: byte := 0x3A
  const UPPER_A: byte := 0x41
  const UPPER_E: byte := 0x45
  const UPPER_F: byte := 0x46
  const UPPER_Z: byte := 0x5A
  const OPEN_BRACKET: byte := 0x5B
  const BACKSLASH: byte := 0x5C
  const CLOSE_BRACKET: byte := 0x5D
  const LOWER_A: byte := 0x61
  const LOWER_B: byte := 0x62
  const LOWER_E: byte := 0x65
  const LOWER_F: byte := 0x66
  const LOWER_N: byte := 0x6E
  const LOWER_R: byte := 0x72
  const LOWER_T: byte := 0x74
  const LOWER_U: byte := 0x75
  const OPEN_BRACE: byte := 0x7B
  const CLOSE_BRACE: byte := 0x7D

  const TEXT_NULL: Text := [0x6E, 0x75, 0x6C, 0x6C]
  const TEXT_TRUE: Text := [0x74, 0x72, 0x75, 0x65]
  const TEXT_FALSE: Text := [0x66, 0x61, 0x6C, 0x73, 0x65]

  predicate IsDigit(b: byte) {
    DIGIT_0 <= b <= DIGIT_9
  }

  /** A string a C program can hold: no byte of it is the terminator. */
  predicate NulFree(s: Text) {
    NUL !in s
  }

  /** A whole C buffer: text followed by its only NUL. */
  predicate Terminated(c: Text) {
    |c| > 0 && c[|c| - 1] == NUL && NulFree(c[..|c| - 1])
  }

  /** The text r stands in c at offset o. */
  predicate At(c: Text, o: nat, r: Text) {
    o + |r| <= |c| && c[o..o + |r|] == r
  }

  lemma AtIndex(c: Text, o: nat, r: Text, i: nat)
    requires At(c, o, r) && i < |r|
    ensures o + i < |c| && c[o + i] == r[i]
  {
    assert c[o..o + |r|][i] == c[o + i];
  }

  lemma AtConcat(c: Text, o: nat, r: Text, s: Text)
    ensures At(c, o, r + s) <==> At(c, o, r) && At(c, o + |r|, s)
  {
    if o + |r| + |s| <= |c| {
      var w := c[o..o + |r| + |s|];
      assert w[..|r|] == c[o..o + |r|];
      assert w[|r|..] == c[o + |r|..o + |r| + |s|];
      assert (r + s)[..|r|] == r && (r + s)[|r|..] == s;
      assert w == w[..|r|] + w[|r|..];
    }
  }

  lemma AtCons(c: Text, o: nat, b: byte, s: Text)
    ensures At(c, o, [b] + s) <==> o < |c| && c[o] == b && At(c, o + 1, s)
  {
    AtConcat(c, o, [b], s);
  }

  /** What a C function that reads up to the first NUL sees of s. */
  function CString(s: Text): (r: Text)
    ensures NulFree(r) && r <= s
    ensures NulFree(s) ==> r == s
  {
    if s == [] || s[0] == NUL then []
    else
      assert s == [s[0]] + s[1..];
      [s[0]] + CString(s[1..])
  }
}
