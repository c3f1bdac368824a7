/** The text that print_value of cjson.c produces for a value at a nesting depth. */
module JsonRender {
  import opened Bytes
  import opened JsonValue
  import opened JsonNumber
  import opened JsonString

  /** Strings fit in C strings, and the token of a number that is no exact integer is one that can be printed. */
  predicate Printable(v: Value) {
    match v
    case Null => true
    case Bool(_) => true
    case Num(_) => true
    case Float(token) => IsFloatToken(token)
    case Str(s) => NulFree(s)
    case Arr(vs) => forall i :: 0 <= i < |vs| ==> Printable(vs[i])
    case Obj(ms) => forall i :: 0 <= i < |ms| ==> NulFree(ms[i].key) && Printable(ms[i].value)
  }

  function Tabs(n: nat): (s: Text)
    ensures |s| == n && forall i :: 0 <= i < n ==> s[i] == TAB
  {
    seq(n, _ => TAB)
  }

  function Separator(format: bool): Text {
    if format then [COMMA, SPACE] else [COMMA]
  }

  function Opening(format: bool): Text {
    if format then [OPEN_BRACE, NEWLINE] else [OPEN_BRACE]
  }

  function Closing(depth: nat, format: bool): Text {
    if format then Tabs(depth) + [CLOSE_BRACE] else [CLOSE_BRACE]
  }

  /** Everything that print_object writes before a member's value, at the depth of its members. */
  function KeyText(key: Text, depth: nat, format: bool): Text {
    (if format then Tabs(depth) else []) + QuotedText(key) + (if format then [COLON, TAB] else [COLON])
  }

  function MemberEnd(last: bool, format: bool): Text {
    (if last then [] else [COMMA]) + (if format then [NEWLINE] else [])
  }

  function Render(v: Value, depth: nat, format: bool): Text
    decreases v, 1
  {
    match v
    case Null => TEXT_NULL
    case Bool(b) => if b then TEXT_TRUE else TEXT_FALSE
    case Num(n) => Decimal(n)
    case Float(token) => token
    case Str(s) => QuotedText(s)
    case Arr(vs) => [OPEN_BRACKET] + RenderElems(vs, depth + 1, format) + [CLOSE_BRACKET]
    case Obj(ms) => Opening(format) + RenderMembers(ms, depth + 1, format) + Closing(depth, format)
  }

  function RenderElems(vs: seq<Value>, depth: nat, format: bool): Text
    decreases vs, 0
  {
    if vs == [] then []
    else if |vs| == 1 then Render(vs[0], depth, format)
    else Render(vs[0], depth, format) + Separator(format) + RenderElems(vs[1..], depth, format)
  }

  function RenderMembers(ms: seq<Member>, depth: nat, format: bool): Text
    decreases ms, 0
  {
    if ms == [] then []
    else
      KeyText(ms[0].key, depth, format) + Render(ms[0].value, depth, format)
      + MemberEnd(|ms| == 1, format) + RenderMembers(ms[1..], depth, format)
  }

  // ---- printed text is C text ----

  lemma {:induction false} EscapedNulFree(s: Text)
    requires NulFree(s)
    ensures NulFree(EscapeText(s))
  {
    if s != [] {
      EscapedNulFree(s[1..]);
      assert NulFree(EscapeByte(s[0]));
    }
  }

  lemma {:induction false} RenderNulFree(v: Value, depth: nat, format: bool)
    requires Printable(v)
    ensures NulFree(Render(v, depth, format))
    decreases v, 1
  {
    match v
    case Null =>
    case Bool(_) =>
    case Num(n) => assert !IsNumberChar(NUL);
    case Float(_) => assert !IsNumberChar(NUL);
    case Str(s) => EscapedNulFree(s);
    case Arr(vs) => ElemsNulFree(vs, depth + 1, format);
    case Obj(ms) => MembersNulFree(ms, depth + 1, format);
  }

  lemma {:induction false} ElemsNulFree(vs: seq<Value>, depth: nat, format: bool)
    requires forall i :: 0 <= i < |vs| ==> Printable(vs[i])
    ensures NulFree(RenderElems(vs, depth, format))
    decreases vs, 0
  {
    if vs != [] {
      RenderNulFree(vs[0], depth, format);
      ElemsNulFree(vs[1..], depth, format);
    }
  }

  lemma {:induction false} MembersNulFree(ms: seq<Member>, depth: nat, format: bool)
    requires forall i :: 0 <= i < |ms| ==> NulFree(ms[i].key) && Printable(ms[i].value)
    ensures NulFree(RenderMembers(ms, depth, format))
    decreases ms, 0
  {
    if ms != [] {
      EscapedNulFree(ms[0].key);
      RenderNulFree(ms[0].value, depth, format);
      MembersNulFree(ms[1..], depth, format);
    }
  }
}
