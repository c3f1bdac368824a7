/** The parser of cjson.c as it runs: a buffer with an offset and a depth, string output written
    into an array sized by a first pass, items linked into lists as they are read. Each method is
    proved to read exactly what JsonGrammar says. */
module JsonReader {
  import opened Bytes
  import opened Utf8
  import opened JsonValue
  import opened JsonNumber
  import opened JsonString
  import opened JsonGrammar
  import opened JsonTree

  ghost function MemberValues(ms: seq<Member>): (vals: seq<Value>)
    ensures |vals| == |ms| && forall i :: 0 <= i < |ms| ==> vals[i] == ms[i].value
  {
    seq(|ms|, i requires 0 <= i < |ms| => ms[i].value)
  }

  lemma MoreValues(ms: seq<Member>, m: Member)
    ensures MemberValues(ms + [m]) == MemberValues(ms) + [m.value]
  {
  }

  ghost predicate KeysOf(items: seq<Node>, ms: seq<Member>)
    reads items
  {
    |items| == |ms| && forall i :: 0 <= i < |items| ==> items[i].key == Some(ms[i].key)
  }

  lemma NoKeys()
    ensures KeysOf([], []) && MemberValues([]) == []
  {
  }

  /** What follows a member that ends before next. */
  ghost function AfterMember(c: Text, next: nat, depth: nat): Parsed<seq<Member>>
    requires Terminated(c) && next < |c|
  {
    if c[next] == COMMA && next + 1 < |c| then ParseMembers(c, next + 1, depth)
    else if c[next] == CLOSE_BRACE then Ok([], next + 1)
    else Fail
  }

  /** What the parser's loop still has to give when vs has been read already. */
  ghost function Continue<T>(vs: seq<T>, rest: Parsed<seq<T>>): Parsed<seq<T>> {
    match rest
    case Fail => Fail
    case Ok(ws, end) => Ok(vs + ws, end)
  }

  lemma ContinueLaws<T>(a: seq<T>, b: seq<T>, rest: Parsed<seq<T>>)
    ensures Continue([], rest) == rest
    ensures Continue(a, Continue(b, rest)) == Continue(a + b, rest)
    ensures rest.Ok? && rest.value == [] ==> Continue(a, rest) == Ok(a, rest.end)
  {
    if rest.Ok? {
      assert [] + rest.value == rest.value;
      assert a + (b + rest.value) == (a + b) + rest.value;
      assert a + [] == a;
    }
  }

  lemma MembersRound(c: Text, o: nat, depth: nat)
    requires Terminated(c) && o < |c|
    ensures var m := ParseMember(c, o, depth);
            && ParseMembers(c, o, depth)
               == (if m.Fail? then Fail else Continue([m.value], AfterMember(c, Skip(c, m.end), depth)))
            && (m.Ok? && c[Skip(c, m.end)] == COMMA ==> Skip(c, m.end) + 1 < |c|)
  {
    hide ParseMember;
    var m := ParseMember(c, o, depth);
    if m.Ok? {
      ContinueLaws([m.value], [], Ok([], Skip(c, m.end) + 1));
    }
  }

  /** A list as the parser builds it, of items that denote vals with their descendants in family. */
  ghost predicate ListOf(items: seq<Node>, vals: seq<Value>, family: set<Node>)
    reads items, family
  {
    && Chain(items, null)
    && (items != [] ==> items[0].prev == null)
    && (forall k :: k in items ==> k !in family)
    && |vals| == |items|
    && exists parts :: Parted(items, family, parts) && forall i :: 0 <= i < |items| ==> Denotes(items[i], vals[i], parts[i])
  }

  /** An item with a parsed list as its children denotes the object of their keys and values. */
  lemma ObjectDenotes(n: Node, ms: seq<Member>, family: set<Node>)
    requires n.kind == ObjectKind && n.child == First(n.kids)
    requires ListOf(n.kids, MemberValues(ms), family) && KeysOf(n.kids, ms)
    ensures Denotes(n, Obj(ms), family + set k | k in n.kids)
  {
    var vals := MemberValues(ms);
    var parts :| Parted(n.kids, family, parts) && forall i :: 0 <= i < |vals| ==> Denotes(n.kids[i], vals[i], parts[i]);
    assert Parted(n.kids, family + (set k | k in n.kids), parts);
  }

  /** What follows an element that ends before next. */
  ghost function AfterElem(c: Text, next: nat, depth: nat): Parsed<seq<Value>>
    requires Terminated(c) && next < |c|
  {
    if c[next] == COMMA && next + 1 < |c| then ParseElems(c, next + 1, depth)
    else if c[next] == CLOSE_BRACKET then Ok([], next + 1)
    else Fail
  }

  lemma ElemsRound(c: Text, o: nat, depth: nat)
    requires Terminated(c) && o < |c|
    ensures var v := ParseValue(c, Skip(c, o), depth);
            && ParseElems(c, o, depth)
               == (if v.Fail? then Fail else Continue([v.value], AfterElem(c, Skip(c, v.end), depth)))
            && (v.Ok? && c[Skip(c, v.end)] == COMMA ==> Skip(c, v.end) + 1 < |c|)
  {
    hide ParseValue;
    var v := ParseValue(c, Skip(c, o), depth);
    if v.Ok? {
      ContinueLaws([v.value], [], Ok([], Skip(c, v.end) + 1));
    }
  }

  lemma EmptyList()
    ensures ListOf([], [], {})
  {
    assert Parted([], {}, []);
  }

  /** Such a list when its last item is already followed by the next one. */
  ghost predicate OpenList(items: seq<Node>, vals: seq<Value>, family: set<Node>, item: Node)
    reads items, family
  {
    && Chain(items, item)
    && (items != [] ==> items[0].prev == null)
    && (forall k :: k in items ==> k !in family)
    && |vals| == |items|
    && exists parts :: Parted(items, family, parts) && forall i :: 0 <= i < |items| ==> Denotes(items[i], vals[i], parts[i])
  }

  lemma ChainGrows(items: seq<Node>, item: Node)
    requires Chain(items, item) && item.next == null && item !in items && item.prev == Last(items)
    ensures Chain(items + [item], null)
  {
    var all := items + [item];
    forall i | 0 <= i < |all|
      ensures all[i].next == Follower(all, i, null)
      ensures i > 0 ==> all[i].prev == all[i - 1]
    {
      assert i < |items| ==> all[i] == items[i];
    }
  }

  lemma ListGrows(items: seq<Node>, vals: seq<Value>, family: set<Node>, item: Node, v: Value, below: set<Node>)
    requires OpenList(items, vals, family, item)
    requires item.next == null && item !in items && item.prev == Last(items)
    requires forall k :: k in items + [item] ==> k !in family + below
    requires Denotes(item, v, below) && family !! below
    ensures ListOf(items + [item], vals + [v], family + below)
  {
    hide Denotes;
    var all, values := items + [item], vals + [v];
    var parts :| Parted(items, family, parts) && forall i :: 0 <= i < |items| ==> Denotes(items[i], vals[i], parts[i]);
    assert Parted(all, family + below, parts + [below]);
    forall i | 0 <= i < |all|
      ensures Denotes(all[i], values[i], (parts + [below])[i])
    {
      assert i < |items| ==> all[i] == items[i];
    }
    ChainGrows(items, item);
  }

  /** An item with a parsed list as its children denotes the array of their values. */
  lemma ArrayDenotes(n: Node, vals: seq<Value>, family: set<Node>)
    requires n.kind == ArrayKind && n.child == First(n.kids) && ListOf(n.kids, vals, family)
    ensures Denotes(n, Arr(vals), family + set k | k in n.kids)
  {
    var parts :| Parted(n.kids, family, parts) && forall i :: 0 <= i < |vals| ==> Denotes(n.kids[i], vals[i], parts[i]);
    assert Parted(n.kids, family + (set k | k in n.kids), parts);
  }

  lemma SkippedBound(c: Text, i: nat)
    requires i <= |c| && ScanString(c, i).Closed?
    ensures ScanString(c, i).skipped <= ScanString(c, i).end - i
    decreases |c| - i
  {
    if c[i] != QUOTE {
      SkippedBound(c, if c[i] == BACKSLASH then i + 2 else i + 1);
    }
  }

  /** A scan that has already met some introducers. */
  ghost function Beyond(skipped: nat, rest: Scanned): Scanned {
    match rest
    case Unterminated => Unterminated
    case Closed(end, more) => Closed(end, skipped + more)
  }

  /** A new item, linked in behind the last one of a list. */
  method NewItem(current: Node?, ghost items: seq<Node>, ghost vals: seq<Value>, ghost family: set<Node>)
    returns (item: Node)
    requires current == Last(items) && ListOf(items, vals, family)
    modifies if current == null then {} else {current}
    ensures fresh(item) && item.Blank() && item.next == null && item.prev == current
    ensures OpenList(items, vals, family, item)
    ensures forall k :: k in items ==> k !in family && k.key == old(k.key)
  {
    hide Denotes;
    item := new Node();
    if current != null {
      current.next := item;
      item.prev := current;
    }
  }

  /** The bytes of s stand in out at w. */
  ghost predicate Wrote(out: array<byte>, w: nat, s: Text)
    reads out
  {
    w + |s| <= out.Length && out[w..w + |s|] == s
  }

  /** A decoded piece has been written at w, and the writing position moved behind it. */
  ghost predicate Put(out: array<byte>, w: nat, w': nat, piece: Piece, length: nat)
    reads out
  {
    piece.Piece? && length == piece.length && w' == w + |piece.bytes| && Wrote(out, w, piece.bytes)
  }

  /** parse_hex4. */
  method ReadHex4(c: Text, i: nat) returns (h: nat)
    requires i + 4 <= |c|
    ensures h == ParseHex4(c, i)
  {
    h := 0;
    var k := 0;
    while k < 4
      invariant k <= 4
      invariant k >= 1 ==> HexValue(c[i]).Some?
      invariant k >= 2 ==> HexValue(c[i + 1]).Some?
      invariant k >= 3 ==> HexValue(c[i + 2]).Some?
      invariant k == 0 ==> h == 0
      invariant k == 1 ==> h == HexValue(c[i]).value * 16
      invariant k == 2 ==> h == (HexValue(c[i]).value * 16 + HexValue(c[i + 1]).value) * 16
      invariant k == 3 ==> h == ((HexValue(c[i]).value * 16 + HexValue(c[i + 1]).value) * 16 + HexValue(c[i + 2]).value) * 16
      invariant k == 4 ==> Hex4(c, i) == Some(h)
    {
      var b := c[i + k];
      if DIGIT_0 <= b <= DIGIT_9 {
        h := h + (b as nat - 0x30);
      } else if UPPER_A <= b <= UPPER_F {
        h := h + (10 + b as nat - 0x41);
      } else if LOWER_A <= b <= LOWER_F {
        h := h + (10 + b as nat - 0x61);
      } else {
        return 0;
      }
      if k < 3 {
        h := h * 16;
      }
      k := k + 1;
    }
  }

  /** The encoding loop at the end of utf16_literal_to_utf8: continuation bytes from the last one
      down, then the first byte. */
  method WriteUtf8(codepoint: nat, out: array<byte>, w: nat) returns (length: nat)
    requires codepoint <= 0x10FFFF && w + LengthUtf8(codepoint) <= out.Length
    modifies out
    ensures length == LengthUtf8(codepoint)
    ensures Wrote(out, w, EncodeUtf8(codepoint)) && out[..w] == old(out[..w])
  {
    length := LengthUtf8(codepoint);
    EncodingFits(codepoint);
    var mark := FirstByteMark(length);
    var cp, position := codepoint, length - 1;
    ghost var tail: Text := [];
    while position > 0
      invariant 0 <= position < length && Fits(cp, position + 1, mark)
      invariant EncodeUtf8(codepoint) == EncodeBytes(cp, position + 1, mark) + tail
      invariant |tail| == length - 1 - position && out[w + position + 1..w + length] == tail
      invariant out[..w] == old(out[..w])
    {
      out[w + position] := (0x80 + cp % 0x40) as byte;
      tail := [out[w + position]] + tail;
      cp := cp / 0x40;
      position := position - 1;
    }
    out[w] := (cp + mark) as byte;
  }

  /** The code point of utf16_literal_to_utf8, and how many characters it takes; none when it is malformed. */
  method ReadCodePoint(c: Text, p: nat, end: nat) returns (length: nat, codepoint: nat)
    requires p < end < |c|
    ensures length == 0 <==> DecodeLiteral(c, p, end).Bad?
    ensures codepoint <= 0x10FFFF && (length > 0 ==> DecodeLiteral(c, p, end) == Piece(length, EncodeUtf8(codepoint)))
  {
    hide ParseHex4, EncodeUtf8;
    if end - p < 6 {
      return 0, 0;
    }
    codepoint := ReadHex4(c, p + 2);
    if 0xDC00 <= codepoint <= 0xDFFF {
      return 0, codepoint;
    }
    if codepoint < 0xD800 || 0xDBFF < codepoint {
      return 6, codepoint;
    }
    if end - (p + 6) < 6 || c[p + 6] != BACKSLASH || c[p + 7] != LOWER_U {
      return 0, codepoint;
    }
    var second := ReadHex4(c, p + 8);
    if second < 0xDC00 || second > 0xDFFF {
      return 0, codepoint;
    }
    SurrogatePairs(codepoint, second);
    length, codepoint := 12, 0x10000 + ((codepoint % 0x400) * 0x400 + second % 0x400);
  }

  /** utf16_literal_to_utf8; length 0 reports failure. */
  method ReadLiteral(c: Text, p: nat, end: nat, out: array<byte>, w: nat) returns (length: nat, w': nat)
    requires p < end < |c| && w <= out.Length
    requires DecodeLiteral(c, p, end).Piece? ==> w + |DecodeLiteral(c, p, end).bytes| <= out.Length
    modifies out
    ensures length == 0 <==> DecodeLiteral(c, p, end).Bad?
    ensures length > 0 ==> Put(out, w, w', DecodeLiteral(c, p, end), length)
    ensures out[..w] == old(out[..w])
  {
    hide DecodeLiteral;
    w' := w;
    var codepoint;
    length, codepoint := ReadCodePoint(c, p, end);
    if length > 0 {
      var n := WriteUtf8(codepoint, out, w);
      w' := w + n;
    }
  }

  /** One round of the second pass of parse_string; length 0 reports failure. */
  method DecodeOne(c: Text, p: nat, end: nat, out: array<byte>, w: nat) returns (length: nat, w': nat)
    requires p < end < |c| && w <= out.Length
    requires DecodeStep(c, p, end).Piece? ==> w + |DecodeStep(c, p, end).bytes| <= out.Length
    modifies out
    ensures length == 0 <==> DecodeStep(c, p, end).Bad?
    ensures length > 0 ==> Put(out, w, w', DecodeStep(c, p, end), length)
    ensures out[..w] == old(out[..w])
  {
    hide DecodeLiteral;
    length, w' := 2, w + 1;
    if c[p] != BACKSLASH {
      out[w] := c[p];
      length := 1;
    } else if c[p + 1] == LOWER_B {
      out[w] := 0x08;
    } else if c[p + 1] == LOWER_F {
      out[w] := 0x0C;
    } else if c[p + 1] == LOWER_N {
      out[w] := 0x0A;
    } else if c[p + 1] == LOWER_R {
      out[w] := 0x0D;
    } else if c[p + 1] == LOWER_T {
      out[w] := 0x09;
    } else if c[p + 1] == QUOTE || c[p + 1] == BACKSLASH || c[p + 1] == SLASH {
      out[w] := c[p + 1];
    } else if c[p + 1] == LOWER_U {
      length, w' := ReadLiteral(c, p, end, out, w);
    } else {
      return 0, w;
    }
  }

  /** What DecodeString still has to give when done has been decoded already. */
  ghost function Resume(done: Text, rest: Option<Text>): Option<Text> {
    if rest.None? then None else Some(done + rest.value)
  }

  lemma ResumeLaws(a: Text, b: Text, rest: Option<Text>)
    ensures Resume([], rest) == rest
    ensures Resume(a, Resume(b, rest)) == Resume(a + b, rest)
  {
    if rest.Some? {
      assert [] + rest.value == rest.value;
      assert a + (b + rest.value) == (a + b) + rest.value;
    }
  }

  lemma NoneYet(c: Text, start: nat)
    requires start <= |c|
    ensures Room(c, start, start) == 0
  {
  }

  /** A step leads at most one byte past the closing quote. */
  lemma StepInside(c: Text, p: nat, end: nat)
    requires p < end < |c| && DecodeStep(c, p, end).Piece?
    ensures p + DecodeStep(c, p, end).length <= end + 1
  {
  }

  /** The second pass of parse_string. No write leaves the array, which was sized by the first pass. */
  method DecodeBody(c: Text, start: nat, end: nat, skipped: nat, out: array<byte>) returns (ok: bool, w: nat, p: nat)
    requires start <= |c| && ScanString(c, start) == Closed(end, skipped)
    requires out.Length == end - start + 2 - skipped
    modifies out
    ensures ok <==> DecodeString(c, start, end).Some?
    ensures ok ==> w < out.Length && out[..w] == DecodeString(c, start, end).value
    ensures p <= |c|
  {
    hide DecodeStep, ScanString, Introducers;
    p, w := start, 0;
    SkippedIsIntroducers(c, start);
    assert Room(c, start, start) >= 0 by { NoneYet(c, start); }
    ResumeLaws([], [], DecodeString(c, start, end));
    assert out[..0] == [];
    while p < end
      invariant start <= p <= |c| && w <= out.Length
      invariant w <= Room(c, start, Min(p, end))
      invariant DecodeString(c, start, end) == Resume(out[..w], DecodeString(c, p, end))
    {
      ghost var step, done := DecodeStep(c, p, end), out[..w];
      if step.Piece? {
        StepFitsRoom(c, start, p);
        RoomGrows(c, start, Min(p + step.length, end), end);
      }
      var length, w' := DecodeOne(c, p, end, out, w);
      if length == 0 {
        return false, w, p;
      }
      assert out[..w'] == done + step.bytes;
      ResumeLaws(done, step.bytes, DecodeString(c, p + length, end));
      StepInside(c, p, end);
      p, w := p + length, w';
    }
    ResumeLaws(out[..w], [], Some([]));
    ok := true;
  }

  lemma OneMoreByte(c: Text, i: nat, j: nat)
    requires i <= j < |c|
    ensures c[i..j + 1] == c[i..j] + [c[j]]
  {
  }

  class ParseBuffer {
    const content: Text
    var offset: nat
    var depth: nat

    constructor (content: Text)
      ensures this.content == content && offset == 0 && depth == 0
    {
      this.content, offset, depth := content, 0, 0;
    }

    ghost predicate Ready()
      reads this`offset
    {
      Terminated(content) && offset < |content|
    }

    /** buffer_skip_whitespace: past the end it steps back onto the terminator. */
    method SkipWhitespace()
      requires Ready()
      modifies this`offset
      ensures Ready() && offset == Skip(content, old(offset))
    {
      while offset < |content| && content[offset] <= 32
        invariant old(offset) <= offset <= |content|
        invariant offset < |content| ==> Skip(content, offset) == Skip(content, old(offset))
        invariant offset == |content| ==> Skip(content, old(offset)) == |content| - 1
      {
        offset := offset + 1;
      }
      if offset == |content| {
        offset := offset - 1;
      }
    }

    /** skip_utf8_bom. */
    method SkipUtf8Bom()
      requires Ready() && offset == 0
      modifies this`offset
      ensures Ready() && offset == SkipBom(content)
    {
      if offset + 4 < |content| && content[0] == 0xEF && content[1] == 0xBB && content[2] == 0xBF {
        offset := offset + 3;
      }
    }

    /** The loop of parse_number that copies the characters of a number. */
    method ReadToken() returns (token: Text)
      requires Ready()
      ensures token == content[offset..TokenEnd(content, offset, TOKEN_LIMIT)]
    {
      hide TokenEnd, IsNumberChar, Terminated;
      var i := 0;
      token := [];
      while i < TOKEN_LIMIT && offset + i < |content| && IsNumberChar(content[offset + i])
        invariant i <= TOKEN_LIMIT && offset + i <= |content|
        invariant token == content[offset..offset + i]
        invariant TokenEnd(content, offset, TOKEN_LIMIT) == TokenEnd(content, offset + i, TOKEN_LIMIT - i)
      {
        TokenStep(content, offset + i, TOKEN_LIMIT - i);
        OneMoreByte(content, offset, offset + i);
        token := token + [content[offset + i]];
        i := i + 1;
      }
      TokenStep(content, offset + i, TOKEN_LIMIT - i);
    }

    /** parse_number; strtod is the function StrtodLength with its value NumberValue. */
    method ReadNumber(item: Node) returns (ok: bool)
      requires Ready() && item.child == null && item.kids == []
      modifies this`offset, item`kind, item`number
      ensures ok <==> ParseNumber(content, old(offset)).Ok?
      ensures ok ==> Ready() && offset == ParseNumber(content, old(offset)).end
      ensures ok ==> Denotes(item, ParseNumber(content, old(offset)).value, {})
    {
      var token := ReadToken();
      var length := StrtodLength(token);
      if length == 0 {
        return false;
      }
      item.number := NumberValue(token[..length]);
      item.kind := NumberKind;
      offset := offset + length;
      ok := true;
    }

    /** The first pass of parse_string: the closing quote, and the number of escape introducers. */
    method FindQuote(start: nat) returns (found: bool, end: nat, skipped: nat)
      requires start <= |content|
      ensures found <==> ScanString(content, start).Closed?
      ensures found ==> ScanString(content, start) == Closed(end, skipped)
    {
      end, skipped := start, 0;
      while end < |content| && content[end] != QUOTE
        invariant start <= end <= |content|
        invariant ScanString(content, start) == Beyond(skipped, ScanString(content, end))
      {
        if content[end] == BACKSLASH {
          if end + 1 >= |content| {
            return false, end, skipped;
          }
          skipped := skipped + 1;
          end := end + 1;
        }
        end := end + 1;
      }
      found := end < |content|;
    }

    /** parse_string. */
    method ReadString(item: Node) returns (ok: bool)
      requires Ready()
      modifies this`offset, item`kind, item`text
      ensures ok <==> ParseString(content, old(offset)).Ok?
      ensures ok ==> Ready() && offset == ParseString(content, old(offset)).end
      ensures ok ==> item.kind == StringKind && item.text == Some(ParseString(content, old(offset)).value)
    {
      hide ScanString, DecodeString;
      if content[offset] != QUOTE {
        return false;
      }
      var start := offset + 1;
      var found, end, skipped := FindQuote(start);
      if !found {
        offset := start;
        return false;
      }
      SkippedBound(content, start);
      var output := new byte[end - start + 2 - skipped];
      var decoded, w, p := DecodeBody(content, start, end, skipped, output);
      if !decoded {
        offset := p;
        return false;
      }
      output[w] := NUL;
      item.kind := StringKind;
      item.text := Some(CString(output[..w]));
      offset := end + 1;
      ok := true;
    }

    /** parse_value. */
    method ReadValue(item: Node) returns (ok: bool, ghost family: set<Node>)
      requires Ready() && item.child == null && item.kids == []
      modifies this`offset, this`depth, item`kind, item`number, item`text, item`child, item`kids
      ensures var r := ParseValue(content, old(offset), old(depth));
              && (ok <==> r.Ok?)
              && (ok ==> Ready() && offset == r.end && depth == old(depth) && Denotes(item, r.value, family))
      ensures fresh(family)
      decreases |content| - offset, 2
    {
      hide ParseString, ParseNumber, ParseArray, ParseObject;
      family := {};
      if At(content, offset, TEXT_NULL) {
        item.kind := NullKind;
        offset := offset + 4;
        ok := true;
      } else if At(content, offset, TEXT_FALSE) {
        item.kind := FalseKind;
        offset := offset + 5;
        ok := true;
      } else if At(content, offset, TEXT_TRUE) {
        item.kind := TrueKind;
        offset := offset + 4;
        ok := true;
      } else if content[offset] == QUOTE {
        ok := ReadString(item);
      } else if content[offset] == MINUS || IsDigit(content[offset]) {
        ok := ReadNumber(item);
      } else if content[offset] == OPEN_BRACKET {
        ok, family := ReadArray(item);
      } else if content[offset] == OPEN_BRACE {
        ok, family := ReadObject(item);
      } else {
        ok := false;
      }
    }

    /** The success part of parse_array and parse_object. */
    method CloseList(item: Node, kind: Kind, head: Node?, ghost items: seq<Node>, ghost family: set<Node>)
      returns (ghost all: set<Node>)
      requires depth > 0 && item !in items && item !in family && head == First(items)
      modifies this`offset, this`depth, item`kind, item`child, item`kids
      ensures depth == old(depth) - 1 && offset == old(offset) + 1
      ensures item.kind == kind && item.child == head && item.kids == items
      ensures all == family + set k | k in items
      ensures forall vals :: old(ListOf(items, vals, family)) ==> ListOf(items, vals, family)
      ensures forall k :: k in items ==> k.key == old(k.key)
    {
      depth := depth - 1;
      item.kind, item.child, item.kids := kind, head, items;
      offset := offset + 1;
      all := family + set k | k in items;
    }

    /** parse_array. */
    method ReadArray(item: Node) returns (ok: bool, ghost family: set<Node>)
      requires Ready() && item.child == null && item.kids == [] && content[offset] == OPEN_BRACKET
      modifies this`offset, this`depth, item`kind, item`child, item`kids
      ensures var r := ParseArray(content, old(offset), old(depth));
              && (ok <==> r.Ok?)
              && (ok ==> Ready() && offset == r.end && depth == old(depth) && Denotes(item, r.value, family))
      ensures fresh(family)
      decreases |content| - offset, 1
    {
      hide ParseElems, Skip, Denotes, ListOf, Chain;
      if depth >= NESTING_LIMIT {
        return false, {};
      }
      depth := depth + 1;
      offset := offset + 1;
      SkipWhitespace();
      ghost var items, vals := [], [];
      family := {};
      EmptyList();
      var head: Node? := null;
      if content[offset] != CLOSE_BRACKET {
        offset := offset - 1;
        ok, head, items, vals, family := ReadElems();
        if !ok {
          return;
        }
      }
      ghost var all := CloseList(item, ArrayKind, head, items, family);
      ok := true;
      ArrayDenotes(item, vals, family);
      family := all;
    }

    /** The loop of parse_array over the elements; stops on the closing bracket. */
    method ReadElems()
      returns (ok: bool, head: Node?, ghost items: seq<Node>, ghost vals: seq<Value>, ghost family: set<Node>)
      requires Terminated(content) && offset + 1 < |content|
      modifies this`offset, this`depth
      ensures var r := ParseElems(content, old(offset) + 1, old(depth));
              && (ok <==> r.Ok?)
              && (ok ==> Ready() && r == Ok(vals, offset + 1) && depth == old(depth))
      ensures ok ==> head == First(items) && ListOf(items, vals, family)
      ensures fresh(family) && forall k :: k in items ==> fresh(k)
      decreases |content| - offset - 1, 4
    {
      hide ParseElems, ParseValue, Skip, Denotes, ListOf, Chain, Terminated;
      ghost var goal := ParseElems(content, offset + 1, depth);
      EmptyList();
      ContinueLaws([], [], goal);
      head, items, vals, family := null, [], [], {};
      var current: Node? := null;
      while true
        invariant Terminated(content) && old(offset) <= offset && offset + 1 < |content| && depth == old(depth)
        invariant goal == Continue(vals, ParseElems(content, offset + 1, depth))
        invariant head == First(items) && current == Last(items) && ListOf(items, vals, family)
        invariant fresh(family) && (forall k :: k in items ==> fresh(k)) && (current != null ==> fresh(current))
        decreases |content| - offset
      {
        ElemsRound(content, offset + 1, depth);
        var item;
        ghost var v;
        ok, item, v, family := ReadElem(current, items, vals, family);
        if !ok {
          return;
        }
        ContinueLaws(vals, [v], AfterElem(content, offset, depth));
        head, current := if head == null then item else head, item;
        items, vals := items + [item], vals + [v];
        if content[offset] != COMMA {
          break;
        }
      }
      ContinueLaws(vals, [], Ok([], offset + 1));
      ok := content[offset] == CLOSE_BRACKET;
    }

    /** One round of that loop: a new item is linked in and a value read into it. */
    method ReadElem(current: Node?, ghost items: seq<Node>, ghost vals: seq<Value>, ghost family: set<Node>)
      returns (ok: bool, item: Node, ghost v: Value, ghost more: set<Node>)
      requires Terminated(content) && offset + 1 < |content|
      requires current == Last(items) && ListOf(items, vals, family)
      modifies this`offset, this`depth, if current == null then {} else {current}
      ensures var r := ParseValue(content, Skip(content, old(offset) + 1), old(depth));
              && (ok <==> r.Ok?)
              && (ok ==> Ready() && offset == Skip(content, r.end) && depth == old(depth) && v == r.value)
      ensures ok ==> ListOf(items + [item], vals + [v], more)
      ensures fresh(item) && fresh(more - family)
      decreases |content| - offset - 1, 3
    {
      hide ParseValue, Denotes, ListOf, OpenList, Skip;
      item := NewItem(current, items, vals, family);
      offset := offset + 1;
      SkipWhitespace();
      ghost var below;
      v := Null;
      ghost var r := ParseValue(content, offset, depth);
      ok, below := ReadValue(item);
      more := family + below;
      if !ok {
        return;
      }
      v := r.value;
      SkipWhitespace();
      ListGrows(items, vals, family, item, v, below);
    }

    /** parse_object. */
    method ReadObject(item: Node) returns (ok: bool, ghost family: set<Node>)
      requires Ready() && item.child == null && item.kids == [] && content[offset] == OPEN_BRACE
      modifies this`offset, this`depth, item`kind, item`child, item`kids
      ensures var r := ParseObject(content, old(offset), old(depth));
              && (ok <==> r.Ok?)
              && (ok ==> Ready() && offset == r.end && depth == old(depth) && Denotes(item, r.value, family))
      ensures fresh(family)
      decreases |content| - offset, 1
    {
      hide ParseMembers, Skip, Denotes, ListOf, Chain;
      if depth >= NESTING_LIMIT {
        return false, {};
      }
      depth := depth + 1;
      offset := offset + 1;
      SkipWhitespace();
      ghost var items, ms := [], [];
      family := {};
      EmptyList();
      var head: Node? := null;
      if content[offset] != CLOSE_BRACE {
        offset := offset - 1;
        ok, head, items, ms, family := ReadMembers();
        if !ok {
          return;
        }
      }
      ghost var all := CloseList(item, ObjectKind, head, items, family);
      ok := true;
      ObjectDenotes(item, ms, family);
      family := all;
    }

    /** The loop of parse_object over the members; stops on the closing brace. */
    method ReadMembers()
      returns (ok: bool, head: Node?, ghost items: seq<Node>, ghost ms: seq<Member>, ghost family: set<Node>)
      requires Terminated(content) && offset + 1 < |content|
      modifies this`offset, this`depth
      ensures var r := ParseMembers(content, old(offset) + 1, old(depth));
              && (ok <==> r.Ok?)
              && (ok ==> Ready() && r == Ok(ms, offset + 1) && depth == old(depth))
      ensures ok ==> head == First(items) && ListOf(items, MemberValues(ms), family) && KeysOf(items, ms)
      ensures fresh(family) && forall k :: k in items ==> fresh(k)
      decreases |content| - offset - 1, 5
    {
      hide ParseMembers, ParseMember, Skip, Denotes, ListOf, Chain, Terminated, MemberValues, KeysOf;
      ghost var goal := ParseMembers(content, offset + 1, depth);
      EmptyList();
      NoKeys();
      ContinueLaws([], [], goal);
      head, items, ms, family := null, [], [], {};
      var current: Node? := null;
      while true
        invariant Terminated(content) && old(offset) <= offset && offset + 1 < |content| && depth == old(depth)
        invariant goal == Continue(ms, ParseMembers(content, offset + 1, depth))
        invariant head == First(items) && current == Last(items)
        invariant ListOf(items, MemberValues(ms), family) && KeysOf(items, ms)
        invariant fresh(family) && (forall k :: k in items ==> fresh(k)) && (current != null ==> fresh(current))
        decreases |content| - offset
      {
        MembersRound(content, offset + 1, depth);
        var item;
        ghost var m;
        ok, item, m, family := ReadMember(current, items, ms, family);
        if !ok {
          return;
        }
        ContinueLaws(ms, [m], AfterMember(content, offset, depth));
        head, current := if head == null then item else head, item;
        items, ms := items + [item], ms + [m];
        if content[offset] != COMMA {
          break;
        }
      }
      ContinueLaws(ms, [], Ok([], offset + 1));
      ok := content[offset] == CLOSE_BRACE;
    }

    /** One round of that loop: a new item is linked in, then its key and its value are read. */
    method ReadMember(current: Node?, ghost items: seq<Node>, ghost ms: seq<Member>, ghost family: set<Node>)
      returns (ok: bool, item: Node, ghost m: Member, ghost more: set<Node>)
      requires Terminated(content) && offset + 1 < |content|
      requires current == Last(items) && ListOf(items, MemberValues(ms), family) && KeysOf(items, ms)
      modifies this`offset, this`depth, if current == null then {} else {current}
      ensures var r := ParseMember(content, old(offset) + 1, old(depth));
              && (ok <==> r.Ok?)
              && (ok ==> Ready() && offset == Skip(content, r.end) && depth == old(depth) && m == r.value)
      ensures ok ==> ListOf(items + [item], MemberValues(ms + [m]), more) && KeysOf(items + [item], ms + [m])
      ensures fresh(item) && fresh(more - family)
      decreases |content| - offset - 1, 4
    {
      hide ParseMember, Denotes, ListOf, OpenList, Skip, MemberValues;
      item := NewItem(current, items, MemberValues(ms), family);
      ghost var below;
      ok, m, below := ReadKeyValue(item);
      more := family + below;
      if ok {
        SkipWhitespace();
        ListGrows(items, MemberValues(ms), family, item, m.value, below);
        MoreValues(ms, m);
      }
    }

    /** The key of a member and the colon; stops on the first character of the value. */
    method ReadKey(item: Node) returns (ok: bool)
      requires Terminated(content) && offset + 1 < |content|
      modifies this`offset, item`kind, item`text, item`key
      ensures ok ==> Ready() && item.key.Some?
      ensures var key := ParseString(content, Skip(content, old(offset) + 1));
              && (ok <==> key.Ok? && content[Skip(content, key.end)] == COLON)
              && (ok ==> item.key == Some(key.value)
                         && Skip(content, key.end) + 1 < |content|
                         && offset == Skip(content, Skip(content, key.end) + 1))
    {
      hide ParseString, Skip;
      offset := offset + 1;
      SkipWhitespace();
      ok := ReadString(item);
      if !ok {
        return;
      }
      SkipWhitespace();
      item.key := item.text;
      item.text := None;
      if content[offset] != COLON {
        return false;
      }
      offset := offset + 1;
      SkipWhitespace();
    }

    method ReadKeyValue(item: Node) returns (ok: bool, ghost m: Member, ghost family: set<Node>)
      requires Terminated(content) && offset + 1 < |content| && item.child == null && item.kids == []
      modifies this`offset, this`depth, item`kind, item`number, item`text, item`key, item`child, item`kids
      ensures var r := ParseMember(content, old(offset) + 1, old(depth));
              && (ok <==> r.Ok?)
              && (ok ==> Ready() && r == Ok(m, offset) && depth == old(depth))
      ensures ok ==> item.key == Some(m.key) && Denotes(item, m.value, family)
      ensures fresh(family)
      decreases |content| - offset - 1, 3
    {
      hide ParseValue, ParseString, Denotes;
      ok := ReadKey(item);
      m, family := Member([], Null), {};
      if !ok {
        return;
      }
      ghost var r := ParseValue(content, offset, depth);
      ok, family := ReadValue(item);
      if ok {
        m := Member(item.key.value, r.value);
      }
    }
  }

  /** cJSON_ParseWithOpts: the tree it builds is new and denotes what ParseDocument reads. */
  method ParseWithOpts(text: Text, requireEnd: bool) returns (item: Node?, end: nat, ghost family: set<Node>)
    requires NulFree(text)
    ensures item != null <==> ParseDocument(text, requireEnd).Ok?
    ensures item != null ==> fresh(item) && fresh(family) && item !in family
    ensures item != null ==>
              end == ParseDocument(text, requireEnd).end && Denotes(item, ParseDocument(text, requireEnd).value, family)
  {
    hide ParseValue, Denotes;
    var content := text + [NUL];
    assert content[..|content| - 1] == text;
    var buffer := new ParseBuffer(content);
    var root := new Node();
    buffer.SkipUtf8Bom();
    buffer.SkipWhitespace();
    var ok;
    ok, family := buffer.ReadValue(root);
    item, end := null, 0;
    if !ok {
      return;
    }
    end := buffer.offset;
    if requireEnd {
      buffer.SkipWhitespace();
      end := buffer.offset;
      if content[end] != NUL {
        return;
      }
    }
    item := root;
  }
}
