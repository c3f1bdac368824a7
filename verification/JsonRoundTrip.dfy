/** Parsing the printed text of a value gives that value back. */
module JsonRoundTrip {
  import opened Bytes
  import opened JsonValue
  import opened JsonNumber
  import opened JsonString
  import opened JsonRender
  import opened JsonGrammar

  lemma SkipStops(c: Text, o: nat)
    requires o < |c| && c[o] > 32
    ensures Skip(c, o) == o
  {
  }

  lemma SkipSpaces(c: Text, o: nat, p: nat)
    requires o <= p < |c| && c[p] > 32 && forall i :: o <= i < p ==> c[i] <= 32
    ensures Skip(c, o) == p
    decreases p - o
  {
    if o < p {
      SkipSpaces(c, o + 1, p);
    }
  }

  lemma ScalarParts(v: Value, depth: nat, format: bool)
    requires Printable(v)
    ensures v.Num? ==> Render(v, depth, format) == Decimal(v.n)
    ensures v.Float? ==>
              && Render(v, depth, format) == v.token && 0 < |v.token| <= TOKEN_LIMIT && (v.token[0] == MINUS || IsDigit(v.token[0]))
              && (forall i :: 0 <= i < |v.token| ==> IsNumberChar(v.token[i]))
              && StrtodLength(v.token) == |v.token| && NumberValue(v.token) == v
    ensures v.Str? ==> Render(v, depth, format) == QuotedText(v.s) && QuotedText(v.s)[0] == QUOTE && NulFree(v.s)
  {
    hide StrtodLength, NumberValue;
  }

  lemma ElemsParts(vs: seq<Value>, depth: nat, format: bool)
    requires vs != []
    ensures RenderElems(vs, depth, format)
         == if |vs| == 1 then Render(vs[0], depth, format)
            else Render(vs[0], depth, format) + Separator(format) + RenderElems(vs[1..], depth, format)
    ensures Height(vs[0]) <= ElemsHeight(vs) && ElemsHeight(vs[1..]) <= ElemsHeight(vs)
  {
    hide Render, Separator, Height;
  }

  lemma MemberHeights(ms: seq<Member>)
    requires ms != []
    ensures Height(ms[0].value) <= MembersHeight(ms) && MembersHeight(ms[1..]) <= MembersHeight(ms)
  {
    hide Height;
  }

  lemma FirstAndRest<T>(s: seq<T>)
    requires s != []
    ensures s == [s[0]] + s[1..] && (|s| == 1 ==> s == [s[0]])
  {
  }

  lemma ArrayParts(vs: seq<Value>, depth: nat, format: bool)
    requires Printable(Arr(vs))
    ensures forall i :: 0 <= i < |vs| ==> Printable(vs[i])
    ensures Height(Arr(vs)) == 1 + ElemsHeight(vs)
    ensures Render(Arr(vs), depth, format) == [OPEN_BRACKET] + RenderElems(vs, depth + 1, format) + [CLOSE_BRACKET]
  {
  }

  lemma ObjectParts(ms: seq<Member>, depth: nat, format: bool)
    requires Printable(Obj(ms))
    ensures forall i :: 0 <= i < |ms| ==> NulFree(ms[i].key) && Printable(ms[i].value)
    ensures Height(Obj(ms)) == 1 + MembersHeight(ms)
    ensures Render(Obj(ms), depth, format) == Opening(format) + RenderMembers(ms, depth + 1, format) + Closing(depth, format)
  {
  }

  lemma RenderStart(v: Value, depth: nat, format: bool)
    requires Printable(v)
    ensures var r := Render(v, depth, format);
            |r| > 0 && 32 < r[0] < 0x80 && r[0] != CLOSE_BRACKET && r[0] != CLOSE_BRACE
  {
  }

  lemma StringRoundTrip(s: Text, c: Text, o: nat)
    requires NulFree(s) && Terminated(c) && At(c, o, QuotedText(s)) && o + |QuotedText(s)| < |c|
    ensures ParseString(c, o) == Ok(s, o + |QuotedText(s)|)
  {
    hide EscapeText, ScanString, DecodeString, At, Terminated;
    AtIndex(c, o, QuotedText(s), 0);
    assert QuotedText(s) == [QUOTE] + (EscapeText(s) + [QUOTE]);
    AtCons(c, o, QUOTE, EscapeText(s) + [QUOTE]);
    EscapedRoundTrip(s, c, o + 1);
  }

  lemma TokenRoundTrip(t: Text, c: Text, o: nat)
    requires 0 < |t| <= TOKEN_LIMIT && (forall i :: 0 <= i < |t| ==> IsNumberChar(t[i])) && StrtodLength(t) == |t|
    requires Terminated(c) && At(c, o, t) && o + |t| < |c| && !IsNumberChar(c[o + |t|])
    ensures ParseNumber(c, o) == Ok(NumberValue(t), o + |t|)
  {
    hide TokenEnd, StrtodLength, NumberValue, Terminated, At;
    TokenOfNumber(c, o, t);
    assert t[..|t|] == t;
  }

  lemma NumberRoundTrip(n: ExactInt, c: Text, o: nat)
    requires Terminated(c) && At(c, o, Decimal(n)) && o + |Decimal(n)| < |c|
    requires !IsNumberChar(c[o + |Decimal(n)|])
    ensures ParseNumber(c, o) == Ok(Num(n), o + |Decimal(n)|)
  {
    DecimalLength(n);
    DecimalRoundTrip(n);
    TokenRoundTrip(Decimal(n), c, o);
  }

  lemma LastElem(c: Text, o: nat, nesting: nat, v: Value, end: nat)
    requires Terminated(c) && o < |c| && end < |c|
    requires ParseValue(c, Skip(c, o), nesting) == Ok(v, end) && c[end] == CLOSE_BRACKET
    ensures ParseElems(c, o, nesting) == Ok([v], end + 1)
  {
    hide ParseValue;
    SkipStops(c, end);
  }

  lemma NextElem(c: Text, o: nat, nesting: nat, v: Value, end: nat, rest: seq<Value>, stop: nat)
    requires Terminated(c) && o < |c| && end + 1 < |c|
    requires ParseValue(c, Skip(c, o), nesting) == Ok(v, end) && c[end] == COMMA
    requires ParseElems(c, end + 1, nesting) == Ok(rest, stop)
    ensures ParseElems(c, o, nesting) == Ok([v] + rest, stop)
  {
    hide ParseValue;
    SkipStops(c, end);
  }

  lemma MemberRead(c: Text, o: nat, nesting: nat, m: Member, colon: nat, end: nat)
    requires Terminated(c) && o < |c| && colon + 1 < |c|
    requires ParseString(c, Skip(c, o)) == Ok(m.key, colon) && c[colon] == COLON
    requires ParseValue(c, Skip(c, colon + 1), nesting) == Ok(m.value, end)
    ensures ParseMember(c, o, nesting) == Ok(m, end)
  {
    hide ParseValue, ParseString;
    SkipStops(c, colon);
  }

  lemma LastMember(c: Text, o: nat, nesting: nat, m: Member, end: nat, brace: nat)
    requires Terminated(c) && o < |c| && end < |c|
    requires ParseMember(c, o, nesting) == Ok(m, end)
    requires Skip(c, end) == brace && c[brace] == CLOSE_BRACE
    ensures ParseMembers(c, o, nesting) == Ok([m], brace + 1)
  {
    hide ParseMember, Skip;
  }

  lemma NextMember(c: Text, o: nat, nesting: nat, m: Member, end: nat, rest: seq<Member>, stop: nat)
    requires Terminated(c) && o < |c| && end + 1 < |c|
    requires ParseMember(c, o, nesting) == Ok(m, end) && c[end] == COMMA
    requires ParseMembers(c, end + 1, nesting) == Ok(rest, stop)
    ensures ParseMembers(c, o, nesting) == Ok([m] + rest, stop)
  {
    hide ParseMember;
    SkipStops(c, end);
  }

  // ---- where the pieces of a rendering stand ----

  lemma At3(c: Text, o: nat, r: Text, s: Text, t: Text)
    ensures At(c, o, r + s + t) <==> At(c, o, r) && At(c, o + |r|, s) && At(c, o + |r| + |s|, t)
  {
    AtConcat(c, o, r + s, t);
    AtConcat(c, o, r, s);
  }

  lemma AtFirst(c: Text, o: nat, r: Text)
    requires At(c, o, r) && r != []
    ensures o < |c| && c[o] == r[0]
  {
    AtIndex(c, o, r, 0);
  }

  /** The literals, by their first letters. */
  lemma NoLiteral(c: Text, o: nat)
    requires o < |c| && c[o] !in {LOWER_N, LOWER_T, LOWER_F}
    ensures !At(c, o, TEXT_NULL) && !At(c, o, TEXT_FALSE) && !At(c, o, TEXT_TRUE)
  {
    if At(c, o, TEXT_NULL) {
      AtFirst(c, o, TEXT_NULL);
    }
    if At(c, o, TEXT_FALSE) {
      AtFirst(c, o, TEXT_FALSE);
    }
    if At(c, o, TEXT_TRUE) {
      AtFirst(c, o, TEXT_TRUE);
    }
  }

  lemma OneLiteral(c: Text, o: nat, r: Text, s: Text)
    requires At(c, o, r) && r != [] && s != [] && r[0] != s[0]
    ensures !At(c, o, s)
  {
    AtFirst(c, o, r);
    if At(c, o, s) {
      AtFirst(c, o, s);
    }
  }

  lemma LiteralRoundTrip(v: Value, c: Text, o: nat, nesting: nat, depth: nat, format: bool)
    requires v.Null? || v.Bool?
    requires Terminated(c) && At(c, o, Render(v, depth, format)) && o < |c|
    ensures ParseValue(c, o, nesting) == Ok(v, o + |Render(v, depth, format)|)
  {
    hide At;
    if v == Bool(true) {
      OneLiteral(c, o, TEXT_TRUE, TEXT_NULL);
      OneLiteral(c, o, TEXT_TRUE, TEXT_FALSE);
    } else if v == Bool(false) {
      OneLiteral(c, o, TEXT_FALSE, TEXT_NULL);
    }
  }

  /** What parse_value makes of the first byte. */
  lemma Dispatches(c: Text, o: nat, nesting: nat)
    requires Terminated(c) && o < |c|
    ensures c[o] == QUOTE ==> ParseValue(c, o, nesting) == match ParseString(c, o) case Fail => Fail case Ok(s, end) => Ok(Str(s), end)
    ensures c[o] == MINUS || IsDigit(c[o]) ==> ParseValue(c, o, nesting) == ParseNumber(c, o)
    ensures c[o] == OPEN_BRACKET ==> ParseValue(c, o, nesting) == ParseArray(c, o, nesting)
    ensures c[o] == OPEN_BRACE ==> ParseValue(c, o, nesting) == ParseObject(c, o, nesting)
  {
    hide ParseArray, ParseObject, ParseString, ParseNumber, At;
    if c[o] !in {LOWER_N, LOWER_T, LOWER_F} {
      NoLiteral(c, o);
    }
  }

  /** Where the rendering of a value stands, ParseValue reads that value and stops right after it. */
  lemma {:induction false} ValueRoundTrip(v: Value, c: Text, o: nat, nesting: nat, depth: nat, format: bool)
    requires Printable(v) && nesting + Height(v) <= NESTING_LIMIT
    requires Terminated(c) && At(c, o, Render(v, depth, format))
    requires o + |Render(v, depth, format)| < |c| && !IsNumberChar(c[o + |Render(v, depth, format)|])
    ensures ParseValue(c, o, nesting) == Ok(v, o + |Render(v, depth, format)|)
    decreases v, 1
  {
    hide ParseValue, ParseArray, ParseObject, ParseString, ParseNumber, Render, Printable, Height, Terminated, At, IsNumberChar;
    hide QuotedText, StrtodLength, NumberValue;
    RenderStart(v, depth, format);
    ScalarParts(v, depth, format);
    AtFirst(c, o, Render(v, depth, format));
    Dispatches(c, o, nesting);
    match v
    case Null => LiteralRoundTrip(v, c, o, nesting, depth, format);
    case Bool(_) => LiteralRoundTrip(v, c, o, nesting, depth, format);
    case Num(n) =>
      assert c[o] == MINUS || IsDigit(c[o]);
      NumberRoundTrip(n, c, o);
    case Float(token) =>
      assert c[o] == MINUS || IsDigit(c[o]);
      TokenRoundTrip(token, c, o);
    case Str(s) => StringRoundTrip(s, c, o);
    case Arr(vs) => ArrayRoundTrip(vs, c, o, nesting, depth, format);
    case Obj(ms) => ObjectRoundTrip(ms, c, o, nesting, depth, format);
  }

  lemma EmptyElems(depth: nat, format: bool)
    ensures RenderElems([], depth, format) == []
  {
  }

  lemma ElemsStart(vs: seq<Value>, depth: nat, format: bool)
    requires vs != [] && Printable(vs[0])
    ensures var r := RenderElems(vs, depth, format); |r| > 0 && r[0] > 32 && r[0] != CLOSE_BRACKET
  {
    hide Render;
    RenderStart(vs[0], depth, format);
  }

  lemma EmptyArray(c: Text, o: nat, nesting: nat)
    requires Terminated(c) && o + 1 < |c| && c[o] == OPEN_BRACKET && nesting < NESTING_LIMIT && c[Skip(c, o + 1)] == CLOSE_BRACKET
    ensures ParseArray(c, o, nesting) == Ok(Arr([]), Skip(c, o + 1) + 1)
  {
  }

  lemma FullArray(c: Text, o: nat, nesting: nat, vs: seq<Value>)
    requires Terminated(c) && o + 1 < |c| && c[o] == OPEN_BRACKET && nesting < NESTING_LIMIT && c[Skip(c, o + 1)] != CLOSE_BRACKET
    requires ParseElems(c, Skip(c, o + 1), nesting + 1).Ok? && ParseElems(c, Skip(c, o + 1), nesting + 1).value == vs
    ensures ParseArray(c, o, nesting) == Ok(Arr(vs), ParseElems(c, Skip(c, o + 1), nesting + 1).end)
  {
    hide ParseElems;
  }

  lemma {:induction false} ArrayRoundTrip(vs: seq<Value>, c: Text, o: nat, nesting: nat, depth: nat, format: bool)
    requires Printable(Arr(vs)) && nesting + Height(Arr(vs)) <= NESTING_LIMIT
    requires Terminated(c) && At(c, o, Render(Arr(vs), depth, format))
    requires o + |Render(Arr(vs), depth, format)| < |c|
    ensures c[o] == OPEN_BRACKET
    ensures ParseArray(c, o, nesting) == Ok(Arr(vs), o + |Render(Arr(vs), depth, format)|)
    decreases vs, 2
  {
    hide ParseArray, ParseElems, Skip, At, Render, RenderElems, Printable, Height, ElemsHeight, Terminated;
    ArrayParts(vs, depth, format);
    var elems := RenderElems(vs, depth + 1, format);
    At3(c, o, [OPEN_BRACKET], elems, [CLOSE_BRACKET]);
    AtFirst(c, o, [OPEN_BRACKET]);
    AtFirst(c, o + 1 + |elems|, [CLOSE_BRACKET]);
    if vs == [] {
      EmptyElems(depth + 1, format);
      SkipStops(c, o + 1);
      EmptyArray(c, o, nesting);
    } else {
      ElemsStart(vs, depth + 1, format);
      AtFirst(c, o + 1, elems);
      SkipStops(c, o + 1);
      ElemsRoundTrip(vs, c, o + 1, o + 1, nesting + 1, depth + 1, format);
      FullArray(c, o, nesting, vs);
    }
  }

  lemma SkipSeparator(c: Text, q: nat, format: bool)
    requires At(c, q, Separator(format)) && q + |Separator(format)| < |c| && c[q + |Separator(format)|] > 32
    ensures |Separator(format)| >= 1 && c[q] == COMMA && Skip(c, q + 1) == q + |Separator(format)|
  {
    AtIndex(c, q, Separator(format), 0);
    if format {
      AtIndex(c, q, Separator(format), 1);
    }
  }

  lemma NotNumbers()
    ensures !IsNumberChar(CLOSE_BRACKET) && !IsNumberChar(COMMA)
  {
  }

  /** The pieces of the first element, and the other elements after it. */
  lemma ElemsLayout(vs: seq<Value>, c: Text, p: nat, depth: nat, format: bool)
    requires |vs| > 1 && At(c, p, RenderElems(vs, depth, format))
    ensures var q, sep := p + |Render(vs[0], depth, format)|, Separator(format);
            && At(c, p, Render(vs[0], depth, format)) && At(c, q, sep)
            && At(c, q + |sep|, RenderElems(vs[1..], depth, format))
            && q + |sep| + |RenderElems(vs[1..], depth, format)| == p + |RenderElems(vs, depth, format)|
  {
    hide Render, RenderElems, Separator, At;
    ElemsParts(vs, depth, format);
    At3(c, p, Render(vs[0], depth, format), Separator(format), RenderElems(vs[1..], depth, format));
  }

  lemma {:induction false} MoreElemsRoundTrip(
      vs: seq<Value>, c: Text, o: nat, p: nat, nesting: nat, depth: nat, format: bool)
    requires |vs| > 1 && (forall i :: 0 <= i < |vs| ==> Printable(vs[i]))
    requires nesting + ElemsHeight(vs) <= NESTING_LIMIT
    requires Terminated(c) && o < |c| && Skip(c, o) == p
    requires At(c, p, RenderElems(vs, depth, format))
    requires p + |RenderElems(vs, depth, format)| + 1 < |c|
    requires c[p + |RenderElems(vs, depth, format)|] == CLOSE_BRACKET
    ensures ParseElems(c, o, nesting) == Ok(vs, p + |RenderElems(vs, depth, format)| + 1)
    decreases vs, 0
  {
    hide ParseElems, ParseValue, Skip, Render, RenderElems, Separator, Printable, Height, ElemsHeight, At, Terminated, IsNumberChar;
    ElemsParts(vs, depth, format);
    FirstAndRest(vs);
    ElemsLayout(vs, c, p, depth, format);
    NotNumbers();
    var q := p + |Render(vs[0], depth, format)|;
    var next := q + |Separator(format)|;
    ElemsStart(vs[1..], depth, format);
    AtFirst(c, next, RenderElems(vs[1..], depth, format));
    SkipSeparator(c, q, format);
    ValueRoundTrip(vs[0], c, p, nesting, depth, format);
    ElemsRoundTrip(vs[1..], c, q + 1, next, nesting, depth, format);
    NextElem(c, o, nesting, vs[0], q, vs[1..], next + |RenderElems(vs[1..], depth, format)| + 1);
  }

  /** The elements with their separators, from an offset o whose whitespace ends at p. */
  lemma {:induction false} ElemsRoundTrip(
      vs: seq<Value>, c: Text, o: nat, p: nat, nesting: nat, depth: nat, format: bool)
    requires vs != [] && (forall i :: 0 <= i < |vs| ==> Printable(vs[i]))
    requires nesting + ElemsHeight(vs) <= NESTING_LIMIT
    requires Terminated(c) && o < |c| && Skip(c, o) == p
    requires At(c, p, RenderElems(vs, depth, format))
    requires p + |RenderElems(vs, depth, format)| + 1 < |c|
    requires c[p + |RenderElems(vs, depth, format)|] == CLOSE_BRACKET
    ensures ParseElems(c, o, nesting) == Ok(vs, p + |RenderElems(vs, depth, format)| + 1)
    decreases vs, 1
  {
    hide ParseElems, ParseValue, Skip, Render, RenderElems, Printable, Height, ElemsHeight, At, Terminated, IsNumberChar;
    ElemsParts(vs, depth, format);
    FirstAndRest(vs);
    NotNumbers();
    if |vs| == 1 {
      ValueRoundTrip(vs[0], c, p, nesting, depth, format);
      LastElem(c, o, nesting, vs[0], p + |Render(vs[0], depth, format)|);
    } else {
      MoreElemsRoundTrip(vs, c, o, p, nesting, depth, format);
    }
  }

  lemma AfterBrace(c: Text, o: nat, format: bool)
    requires At(c, o, Opening(format))
    ensures o < |c| && c[o] == OPEN_BRACE && |Opening(format)| == if format then 2 else 1
    ensures format ==> o + 1 < |c| && c[o + 1] == NEWLINE
  {
    AtIndex(c, o, Opening(format), 0);
    if format {
      AtIndex(c, o, Opening(format), 1);
    }
  }

  lemma EmptyObject(c: Text, o: nat, nesting: nat)
    requires Terminated(c) && o + 1 < |c| && c[o] == OPEN_BRACE && nesting < NESTING_LIMIT && c[Skip(c, o + 1)] == CLOSE_BRACE
    ensures ParseObject(c, o, nesting) == Ok(Obj([]), Skip(c, o + 1) + 1)
  {
  }

  function KeyIndent(depth: nat, format: bool): Text {
    if format then Tabs(depth) else []
  }

  /** A newline and indentation are skipped in formatted text; unformatted text has neither. */
  lemma SkipIndent(c: Text, o: nat, p: nat, tabs: Text, format: bool)
    requires p == (if format then o + 1 else o) && At(c, p, tabs) && p + |tabs| < |c| && c[p + |tabs|] > 32
    requires format ==> c[o] == NEWLINE
    requires forall i :: 0 <= i < |tabs| ==> tabs[i] == TAB
    ensures Skip(c, o) == p + |tabs|
  {
    forall i | p <= i < p + |tabs|
      ensures c[i] == TAB
    {
      AtIndex(c, p, tabs, i - p);
    }
    SkipSpaces(c, o, p + |tabs|);
  }

  /** After a brace, or a comma and its newline, only whitespace stands before the closing brace. */
  lemma SkipToClosing(c: Text, o: nat, p: nat, depth: nat, format: bool)
    requires p == (if format then o + 1 else o) && At(c, p, Closing(depth, format))
    requires format ==> o < |c| && c[o] == NEWLINE
    ensures var brace := p + |Closing(depth, format)| - 1;
            o <= brace < |c| && Skip(c, o) == brace && c[brace] == CLOSE_BRACE
  {
    hide At, Skip;
    var tabs := KeyIndent(depth, format);
    assert Closing(depth, format) == tabs + [CLOSE_BRACE];
    AtConcat(c, p, tabs, [CLOSE_BRACE]);
    AtFirst(c, p + |tabs|, [CLOSE_BRACE]);
    SkipIndent(c, o, p, tabs, format);
  }

  lemma EmptyObjectRoundTrip(c: Text, o: nat, nesting: nat, depth: nat, format: bool)
    requires nesting < NESTING_LIMIT && Terminated(c) && At(c, o, Opening(format))
    requires At(c, o + |Opening(format)|, Closing(depth, format)) && o + |Opening(format)| + |Closing(depth, format)| < |c|
    ensures c[o] == OPEN_BRACE
    ensures ParseObject(c, o, nesting) == Ok(Obj([]), o + |Opening(format)| + |Closing(depth, format)|)
  {
    hide Skip, At, Opening, Closing, ParseObject;
    AfterBrace(c, o, format);
    SkipToClosing(c, o + 1, o + |Opening(format)|, depth, format);
    EmptyObject(c, o, nesting);
  }

  lemma EmptyMembers(depth: nat, format: bool)
    ensures RenderMembers([], depth, format) == []
  {
  }

  lemma {:induction false} ObjectRoundTrip(ms: seq<Member>, c: Text, o: nat, nesting: nat, depth: nat, format: bool)
    requires Printable(Obj(ms)) && nesting + Height(Obj(ms)) <= NESTING_LIMIT
    requires Terminated(c) && At(c, o, Render(Obj(ms), depth, format))
    requires o + |Render(Obj(ms), depth, format)| < |c|
    ensures c[o] == OPEN_BRACE
    ensures ParseObject(c, o, nesting) == Ok(Obj(ms), o + |Render(Obj(ms), depth, format)|)
    decreases ms, 3
  {
    hide Render, RenderMembers, At, Opening, Closing, ParseObject, Printable, Height, MembersHeight, Terminated;
    ObjectParts(ms, depth, format);
    At3(c, o, Opening(format), RenderMembers(ms, depth + 1, format), Closing(depth, format));
    AfterBrace(c, o, format);
    if ms == [] {
      EmptyMembers(depth + 1, format);
      EmptyObjectRoundTrip(c, o, nesting, depth, format);
    } else {
      FullObjectRoundTrip(ms, c, o, nesting, depth, format);
    }
  }

  lemma FullObject(c: Text, o: nat, nesting: nat, ms: seq<Member>)
    requires Terminated(c) && o + 1 < |c| && c[o] == OPEN_BRACE && nesting < NESTING_LIMIT && c[Skip(c, o + 1)] != CLOSE_BRACE
    requires ParseMembers(c, Skip(c, o + 1), nesting + 1).Ok? && ParseMembers(c, Skip(c, o + 1), nesting + 1).value == ms
    ensures ParseObject(c, o, nesting) == Ok(Obj(ms), ParseMembers(c, Skip(c, o + 1), nesting + 1).end)
  {
    hide ParseMembers;
  }

  /** The pieces of the first member, and the other members after it. */
  lemma MembersLayout(ms: seq<Member>, c: Text, p: nat, depth: nat, format: bool)
    requires ms != [] && At(c, p, RenderMembers(ms, depth, format))
    ensures var key, value := KeyText(ms[0].key, depth, format), Render(ms[0].value, depth, format);
            var q, sep := p + |key| + |value|, MemberEnd(|ms| == 1, format);
            && At(c, p, key) && At(c, p + |key|, value) && At(c, q, sep)
            && At(c, q + |sep|, RenderMembers(ms[1..], depth, format))
            && q + |sep| + |RenderMembers(ms[1..], depth, format)| == p + |RenderMembers(ms, depth, format)|
  {
    hide Render, At, KeyText, MemberEnd;
    var key, value := KeyText(ms[0].key, depth, format), Render(ms[0].value, depth, format);
    var sep, rest := MemberEnd(|ms| == 1, format), RenderMembers(ms[1..], depth, format);
    AtConcat(c, p, key + value + sep, rest);
    At3(c, p, key, value, sep);
  }

  /** ... or before the next key. */
  lemma SkipToKey(ms: seq<Member>, c: Text, o: nat, p: nat, depth: nat, format: bool)
    requires ms != [] && At(c, p, RenderMembers(ms, depth, format))
    requires p == (if format then o + 1 else o)
    requires format ==> o < |c| && c[o] == NEWLINE
    ensures var key := p + |KeyIndent(depth, format)|;
            o <= key < |c| && Skip(c, o) == key && c[key] == QUOTE
  {
    hide Render, RenderMembers, MemberEnd, At, Skip;
    var tabs, quoted := KeyIndent(depth, format), QuotedText(ms[0].key);
    MembersLayout(ms, c, p, depth, format);
    At3(c, p, tabs, quoted, if format then [COLON, TAB] else [COLON]);
    AtFirst(c, p + |tabs|, quoted);
    SkipIndent(c, o, p, tabs, format);
  }

  lemma {:induction false} FullObjectRoundTrip(ms: seq<Member>, c: Text, o: nat, nesting: nat, depth: nat, format: bool)
    requires ms != [] && (forall i :: 0 <= i < |ms| ==> NulFree(ms[i].key) && Printable(ms[i].value))
    requires nesting + 1 + MembersHeight(ms) <= NESTING_LIMIT && Terminated(c) && At(c, o, Opening(format))
    requires At(c, o + |Opening(format)|, RenderMembers(ms, depth + 1, format))
    requires At(c, o + |Opening(format)| + |RenderMembers(ms, depth + 1, format)|, Closing(depth, format))
    requires o + |Opening(format)| + |RenderMembers(ms, depth + 1, format)| + |Closing(depth, format)| < |c|
    ensures c[o] == OPEN_BRACE
    ensures ParseObject(c, o, nesting)
         == Ok(Obj(ms), o + |Opening(format)| + |RenderMembers(ms, depth + 1, format)| + |Closing(depth, format)|)
    decreases ms, 2
  {
    hide ParseMembers, Skip, RenderMembers, At, Opening, Closing, ParseObject, Printable, MembersHeight, KeyIndent;
    AfterBrace(c, o, format);
    var p := o + |Opening(format)|;
    SkipToKey(ms, c, o + 1, p, depth + 1, format);
    SkipStops(c, p + |KeyIndent(depth + 1, format)|);
    MembersRoundTrip(ms, c, p + |KeyIndent(depth + 1, format)|, p, nesting + 1, depth, format);
    FullObject(c, o, nesting, ms);
  }

  /** What follows a member's value: a comma unless it is the last, and a newline if formatted. */
  lemma MemberDelimiter(c: Text, q: nat, last: bool, depth: nat, format: bool)
    requires At(c, q, MemberEnd(last, format))
    requires last ==> At(c, q + |MemberEnd(last, format)|, Closing(depth, format))
    requires q < |c|
    ensures !IsNumberChar(c[q])
    ensures !last ==> c[q] == COMMA
    ensures var p := q + |MemberEnd(last, format)|;
            && p == q + (if last then 0 else 1) + (if format then 1 else 0)
            && (format ==> q < p <= |c| && c[p - 1] == NEWLINE)
  {
    var sep := MemberEnd(last, format);
    if sep != [] {
      AtFirst(c, q, sep);
      AtIndex(c, q, sep, |sep| - 1);
    } else {
      AtFirst(c, q, Closing(depth, format));
    }
  }

  /** The members of an object at the given depth, from an offset o whose whitespace ends at the
      first key, with the closing brace after them. */
  lemma {:induction false} MembersRoundTrip(
      ms: seq<Member>, c: Text, o: nat, p: nat, nesting: nat, depth: nat, format: bool)
    requires ms != [] && (forall i :: 0 <= i < |ms| ==> NulFree(ms[i].key) && Printable(ms[i].value))
    requires nesting + MembersHeight(ms) <= NESTING_LIMIT
    requires Terminated(c) && o < |c| && Skip(c, o) == p + |KeyIndent(depth + 1, format)|
    requires At(c, p, RenderMembers(ms, depth + 1, format))
    requires At(c, p + |RenderMembers(ms, depth + 1, format)|, Closing(depth, format))
    requires p + |RenderMembers(ms, depth + 1, format)| + |Closing(depth, format)| < |c|
    ensures ParseMembers(c, o, nesting)
         == Ok(ms, p + |RenderMembers(ms, depth + 1, format)| + |Closing(depth, format)|)
    decreases ms, 1
  {
    hide ParseMembers, ParseMember, ParseValue, Skip, Render, RenderMembers, KeyText, Printable, Height, At, Closing;
    hide MemberEnd, Terminated, NulFree, IsNumberChar, KeyIndent, MembersHeight;
    MemberHeights(ms);
    FirstAndRest(ms);
    var m, last := ms[0], |ms| == 1;
    var key, value, sep := KeyText(m.key, depth + 1, format), Render(m.value, depth + 1, format), MemberEnd(last, format);
    var rest := RenderMembers(ms[1..], depth + 1, format);
    var q := p + |key| + |value|;
    MembersLayout(ms, c, p, depth + 1, format);
    if last { EmptyMembers(depth + 1, format); }
    MemberDelimiter(c, q, last, depth, format);
    AtConcat(c, p, key, value);
    MemberRoundTrip(m, c, o, p, nesting, depth + 1, format);
    if last {
      SkipToClosing(c, q, q + |sep|, depth, format);
      LastMember(c, o, nesting, m, q, q + |sep| + |Closing(depth, format)| - 1);
    } else {
      SkipToKey(ms[1..], c, q + 1, q + |sep|, depth + 1, format);
      MembersRoundTrip(ms[1..], c, q + 1, q + |sep|, nesting, depth, format);
      NextMember(c, o, nesting, m, q, ms[1..], q + |sep| + |rest| + |Closing(depth, format)|);
    }
  }

  /** One member, up to the end of its value. */
  lemma {:induction false} MemberRoundTrip(m: Member, c: Text, o: nat, p: nat, nesting: nat, depth: nat, format: bool)
    requires NulFree(m.key) && Printable(m.value) && nesting + Height(m.value) <= NESTING_LIMIT
    requires Terminated(c) && o < |c| && Skip(c, o) == p + |KeyIndent(depth, format)|
    requires At(c, p, KeyText(m.key, depth, format) + Render(m.value, depth, format))
    requires p + |KeyText(m.key, depth, format)| + |Render(m.value, depth, format)| < |c|
    requires !IsNumberChar(c[p + |KeyText(m.key, depth, format)| + |Render(m.value, depth, format)|])
    ensures ParseMember(c, o, nesting)
         == Ok(m, p + |KeyText(m.key, depth, format)| + |Render(m.value, depth, format)|)
    decreases m, 2
  {
    hide ParseMember, ParseValue, ParseString, Skip, Render, Printable, Height, At, QuotedText;
    var tabs, quoted, value := KeyIndent(depth, format), QuotedText(m.key), Render(m.value, depth, format);
    var colon := if format then [COLON, TAB] else [COLON];
    var key := KeyText(m.key, depth, format);
    AtConcat(c, p, key, value);
    At3(c, p, tabs, quoted, colon);
    var k := p + |tabs| + |quoted|;
    AtFirst(c, k, colon);
    RenderStart(m.value, depth, format);
    AtFirst(c, k + |colon|, value);
    assert Skip(c, k + 1) == k + |colon| by {
      if format { AtIndex(c, k, colon, 1); }
      SkipSpaces(c, k + 1, k + |colon|);
    }
    StringRoundTrip(m.key, c, p + |tabs|);
    ValueRoundTrip(m.value, c, k + |colon|, nesting, depth, format);
    MemberRead(c, o, nesting, m, k, k + |colon| + |value|);
  }

  /** Parsing printed text gives back the printed value, and consumes the text up to its NUL. */
  lemma PrintThenParse(v: Value, format: bool, requireEnd: bool)
    requires Printable(v) && Height(v) <= NESTING_LIMIT
    ensures NulFree(Render(v, 0, format))
    ensures ParseDocument(Render(v, 0, format), requireEnd) == Ok(v, |Render(v, 0, format)|)
  {
    var text := Render(v, 0, format);
    RenderNulFree(v, 0, format);
    var c := text + [NUL];
    assert c[..|text|] == text;
    RenderStart(v, 0, format);
    SkipStops(c, 0);
    ValueRoundTrip(v, c, 0, 0, 0, format);
  }
}
