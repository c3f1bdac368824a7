/** The recursive-descent parser of cjson.c as functions of the text: which value each parse
    function reads at an offset of a NUL-terminated buffer, and where it stops. */
module JsonGrammar {
  import opened Bytes
  import opened JsonValue
  import opened JsonNumber
  import opened JsonString

  datatype Parsed<T> = Fail | Ok(value: T, end: nat)

  /** Whitespace is every byte up to 32. The terminator is one of them too, but the parser steps
      back onto it from the end of the buffer. */
  function Skip(c: Text, o: nat): (r: nat)
    requires o < |c|
    ensures o <= r < |c|
    ensures r + 1 < |c| ==> c[r] > 32
    ensures forall i :: o <= i < r ==> c[i] <= 32
    decreases |c| - o
  {
    if o + 1 < |c| && c[o] <= 32 then Skip(c, o + 1) else o
  }

  function ParseNumber(c: Text, o: nat): (r: Parsed<Value>)
    requires Terminated(c) && o < |c|
    ensures r.Ok? ==> o < r.end < |c|
  {
    var t := c[o..TokenEnd(c, o, TOKEN_LIMIT)];
    var n := StrtodLength(t);
    if n == 0 then Fail else Ok(NumberValue(t[..n]), o + n)
  }

  /** A C reader sees the decoded string up to its first NUL. */
  function ParseString(c: Text, o: nat): (r: Parsed<Text>)
    requires Terminated(c) && o < |c|
    ensures r.Ok? ==> o < r.end < |c| && NulFree(r.value)
  {
    if c[o] != QUOTE then Fail
    else
      match ScanString(c, o + 1)
      case Unterminated => Fail
      case Closed(end, _) =>
        match DecodeString(c, o + 1, end)
        case None => Fail
        case Some(s) => Ok(CString(s), end + 1)
  }

  function ParseValue(c: Text, o: nat, depth: nat): (r: Parsed<Value>)
    requires Terminated(c) && o < |c|
    ensures r.Ok? ==> o < r.end < |c|
    decreases |c| - o, 2
  {
    if At(c, o, TEXT_NULL) then Ok(Null, o + 4)
    else if At(c, o, TEXT_FALSE) then Ok(Bool(false), o + 5)
    else if At(c, o, TEXT_TRUE) then Ok(Bool(true), o + 4)
    else if c[o] == QUOTE then
      match ParseString(c, o)
      case Fail => Fail
      case Ok(s, end) => Ok(Str(s), end)
    else if c[o] == MINUS || IsDigit(c[o]) then ParseNumber(c, o)
    else if c[o] == OPEN_BRACKET then ParseArray(c, o, depth)
    else if c[o] == OPEN_BRACE then ParseObject(c, o, depth)
    else Fail
  }

  function ParseArray(c: Text, o: nat, depth: nat): (r: Parsed<Value>)
    requires Terminated(c) && o < |c| && c[o] == OPEN_BRACKET
    ensures r.Ok? ==> o < r.end < |c|
    decreases |c| - o, 1
  {
    if depth >= NESTING_LIMIT then Fail
    else
      var first := Skip(c, o + 1);
      if c[first] == CLOSE_BRACKET then Ok(Arr([]), first + 1)
      else
        match ParseElems(c, first, depth + 1)
        case Fail => Fail
        case Ok(vs, end) => Ok(Arr(vs), end)
  }

  /** The elements from after an opening bracket or a comma up to and with the closing bracket. */
  function ParseElems(c: Text, o: nat, depth: nat): (r: Parsed<seq<Value>>)
    requires Terminated(c) && o < |c|
    ensures r.Ok? ==> o < r.end < |c| && |r.value| > 0
    decreases |c| - o, 3
  {
    var v := ParseValue(c, Skip(c, o), depth);
    if v.Fail? then Fail
    else
      var next := Skip(c, v.end);
      if c[next] == COMMA then
        var rest := ParseElems(c, next + 1, depth);
        if rest.Fail? then Fail else Ok([v.value] + rest.value, rest.end)
      else if c[next] == CLOSE_BRACKET then Ok([v.value], next + 1)
      else Fail
  }

  function ParseObject(c: Text, o: nat, depth: nat): (r: Parsed<Value>)
    requires Terminated(c) && o < |c| && c[o] == OPEN_BRACE
    ensures r.Ok? ==> o < r.end < |c|
    decreases |c| - o, 1
  {
    if depth >= NESTING_LIMIT then Fail
    else
      var first := Skip(c, o + 1);
      if c[first] == CLOSE_BRACE then Ok(Obj([]), first + 1)
      else
        match ParseMembers(c, first, depth + 1)
        case Fail => Fail
        case Ok(ms, end) => Ok(Obj(ms), end)
  }

  /** One key, colon and value; stops right after the value. */
  function ParseMember(c: Text, o: nat, depth: nat): (r: Parsed<Member>)
    requires Terminated(c) && o < |c|
    ensures r.Ok? ==> o < r.end < |c|
    decreases |c| - o, 3
  {
    var key := ParseString(c, Skip(c, o));
    if key.Fail? then Fail
    else
      var colon := Skip(c, key.end);
      if c[colon] != COLON then Fail
      else
        var v := ParseValue(c, Skip(c, colon + 1), depth);
        if v.Fail? then Fail else Ok(Member(key.value, v.value), v.end)
  }

  function ParseMembers(c: Text, o: nat, depth: nat): (r: Parsed<seq<Member>>)
    requires Terminated(c) && o < |c|
    ensures r.Ok? ==> o < r.end < |c| && |r.value| > 0
    decreases |c| - o, 4
  {
    var m := ParseMember(c, o, depth);
    if m.Fail? then Fail
    else
      var next := Skip(c, m.end);
      if c[next] == COMMA then
        var rest := ParseMembers(c, next + 1, depth);
        if rest.Fail? then Fail else Ok([m.value] + rest.value, rest.end)
      else if c[next] == CLOSE_BRACE then Ok([m.value], next + 1)
      else Fail
  }

  /** The three bytes EF BB BF, skipped when at least two more follow. */
  function SkipBom(c: Text): (o: nat)
    requires |c| > 0
    ensures o < |c|
  {
    if 4 < |c| && c[0] == 0xEF && c[1] == 0xBB && c[2] == 0xBF then 3 else 0
  }

  /** cJSON_ParseWithOpts on the text before the terminator. */
  function ParseDocument(text: Text, requireEnd: bool): (r: Parsed<Value>)
    requires NulFree(text)
  {
    var c := text + [NUL];
    assert c[..|c| - 1] == text;
    var v := ParseValue(c, Skip(c, SkipBom(c)), 0);
    if v.Fail? then Fail
    else if !requireEnd then v
    else
      var end := Skip(c, v.end);
      if c[end] == NUL then Ok(v.value, end) else Fail
  }

  // ---- accepted trees are at most NESTING_LIMIT levels deep ----

  lemma {:induction false} ParsedHeight(c: Text, o: nat, depth: nat)
    requires Terminated(c) && o < |c| && depth <= NESTING_LIMIT
    ensures var r := ParseValue(c, o, depth); r.Ok? ==> depth + Height(r.value) <= NESTING_LIMIT
    decreases |c| - o, 2
  {
    hide ParseElems, ParseMembers, ParseString, StrtodLength, TokenEnd, Spell, Scaled, DigitsValue, Skip, At, Terminated;
    var r := ParseValue(c, o, depth);
    if r.Ok? && depth < NESTING_LIMIT {
      if r.value.Arr? && c[Skip(c, o + 1)] != CLOSE_BRACKET {
        ParsedElemsHeight(c, Skip(c, o + 1), depth + 1);
      } else if r.value.Obj? && c[Skip(c, o + 1)] != CLOSE_BRACE {
        ParsedMembersHeight(c, Skip(c, o + 1), depth + 1);
      }
    }
  }

  lemma {:induction false} ParsedElemsHeight(c: Text, o: nat, depth: nat)
    requires Terminated(c) && o < |c| && depth <= NESTING_LIMIT
    ensures var r := ParseElems(c, o, depth); r.Ok? ==> depth + ElemsHeight(r.value) <= NESTING_LIMIT
    decreases |c| - o, 3
  {
    hide ParseValue, Height;
    var v := ParseValue(c, Skip(c, o), depth);
    ParsedHeight(c, Skip(c, o), depth);
    if v.Ok? && c[Skip(c, v.end)] == COMMA {
      ParsedElemsHeight(c, Skip(c, v.end) + 1, depth);
    }
  }

  lemma {:induction false} ParsedMemberHeight(c: Text, o: nat, depth: nat)
    requires Terminated(c) && o < |c| && depth <= NESTING_LIMIT
    ensures var r := ParseMember(c, o, depth); r.Ok? ==> depth + Height(r.value.value) <= NESTING_LIMIT
    decreases |c| - o, 3
  {
    hide ParseValue, ParseString, Height;
    if ParseMember(c, o, depth).Ok? {
      var key := ParseString(c, Skip(c, o));
      ParsedHeight(c, Skip(c, Skip(c, key.end) + 1), depth);
    }
  }

  lemma {:induction false} ParsedMembersHeight(c: Text, o: nat, depth: nat)
    requires Terminated(c) && o < |c| && depth <= NESTING_LIMIT
    ensures var r := ParseMembers(c, o, depth); r.Ok? ==> depth + MembersHeight(r.value) <= NESTING_LIMIT
    decreases |c| - o, 4
  {
    hide ParseMember, Height;
    var m := ParseMember(c, o, depth);
    ParsedMemberHeight(c, o, depth);
    if m.Ok? && c[Skip(c, m.end)] == COMMA {
      ParsedMembersHeight(c, Skip(c, m.end) + 1, depth);
    }
  }
}
