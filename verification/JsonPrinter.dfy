/** The printer of cjson.c as it runs: into a byte buffer that grows on demand, or into a fixed one.
    Text is written behind offset and terminated by a NUL; offset catches up with it later. */
module JsonPrinter {
  import opened Bytes
  import opened JsonValue
  import opened JsonNumber
  import opened JsonString
  import opened JsonRender
  import opened JsonTree

  const SIZE_MAX: nat := 0xFFFF_FFFF_FFFF_FFFF

  /** The memory hooks: whether the n-th request is granted is up to the system. */
  class Allocator {
    const grants: nat -> bool
    var asked: nat

    constructor (grants: nat -> bool)
      ensures this.grants == grants && asked == 0
    {
      this.grants, asked := grants, 0;
    }

    /** All requests since the mark were granted. */
    ghost predicate Granted(mark: nat)
      reads this
    {
      mark <= asked && forall n :: mark <= n < asked ==> grants(n)
    }

    method Allocate(size: nat) returns (block: array?<byte>)
      modifies this`asked
      ensures asked == old(asked) + 1 && (block != null <==> grants(old(asked)))
      ensures block != null ==> fresh(block) && block.Length == size
    {
      asked := asked + 1;
      if grants(asked - 1) {
        block := new byte[size];
      } else {
        block := null;
      }
    }
  }

  method PutAt(out: array<byte>, w: nat, s: Text)
    requires w + |s| <= out.Length
    modifies out
    ensures out[..w + |s|] == old(out[..w]) + s
    ensures out[w + |s|..] == old(out[w + |s|..])
  {
    var i := 0;
    while i < |s|
      invariant i <= |s| && out[..w + i] == old(out[..w]) + s[..i]
      invariant out[w + |s|..] == old(out[w + |s|..])
    {
      out[w + i] := s[i];
      i := i + 1;
    }
  }

  /** What one round of the loop of print_array writes. */
  ghost function ElemText(vs: seq<Value>, i: nat, depth: nat, format: bool): Text
    requires i < |vs|
  {
    Render(vs[i], depth, format) + if i + 1 < |vs| then Separator(format) else []
  }

  lemma ElemsFrom(done: Text, vs: seq<Value>, i: nat, depth: nat, format: bool)
    requires i < |vs|
    ensures done + ElemText(vs, i, depth, format) + RenderElems(vs[i + 1..], depth, format)
         == done + RenderElems(vs[i..], depth, format)
  {
    hide Render;
    assert vs[i..][1..] == vs[i + 1..];
    assert RenderElems(vs[i..], depth, format) == ElemText(vs, i, depth, format) + RenderElems(vs[i + 1..], depth, format);
  }

  /** What one round of the loop of print_object writes. */
  ghost function MemberText(ms: seq<Member>, i: nat, depth: nat, format: bool): Text
    requires i < |ms|
  {
    KeyText(ms[i].key, depth, format) + Render(ms[i].value, depth, format) + MemberEnd(i + 1 == |ms|, format)
  }

  lemma MembersFrom(done: Text, ms: seq<Member>, i: nat, depth: nat, format: bool)
    requires i < |ms|
    ensures done + MemberText(ms, i, depth, format) + RenderMembers(ms[i + 1..], depth, format)
         == done + RenderMembers(ms[i..], depth, format)
  {
    hide Render, KeyText, MemberEnd;
    assert ms[i..][1..] == ms[i + 1..];
    assert RenderMembers(ms[i..], depth, format) == MemberText(ms, i, depth, format) + RenderMembers(ms[i + 1..], depth, format);
  }

  lemma MembersFromEnd(done: Text, depth: nat, format: bool)
    ensures done + RenderMembers([], depth, format) == done
  {
  }

  lemma ObjectKids(item: Node, ms: seq<Member>, family: set<Node>)
    requires Denotes(item, Obj(ms), family)
    ensures item.child == First(item.kids) && |item.kids| == |ms|
    ensures forall i {:trigger item.kids[i].next} :: 0 <= i < |ms| ==> item.kids[i].next == Follower(item.kids, i, null)
  {
  }

  lemma MemberFacts(current: Node, ms: seq<Member>, i: nat, item: Node, family: set<Node>)
    requires i < |ms| && Denotes(item, Obj(ms), family) && Printable(Obj(ms)) && current == item.kids[i]
    ensures current.key == Some(ms[i].key) && NulFree(ms[i].key)
    ensures Denotes(current, ms[i].value, family) && Printable(ms[i].value)
    ensures current.next == null <==> i + 1 == |ms|
  {
    MemberDenotes(item, ms, family, i);
    assert item.kids[i].next == Follower(item.kids, i, null);
  }

  lemma MemberEndLength(last: bool, format: bool)
    ensures |MemberEnd(last, format)| == (if last then 0 else 1) + (if format then 1 else 0)
  {
  }

  lemma OpeningLength(format: bool)
    ensures |Opening(format)| == if format then 2 else 1
  {
  }

  lemma ObjectText(ms: seq<Member>, depth: nat, format: bool)
    ensures Render(Obj(ms), depth, format)
         == Opening(format) + RenderMembers(ms, depth + 1, format) + Closing(depth, format)
    ensures |Closing(depth, format)| == (if format then depth + 1 else 1) && NulFree(Closing(depth, format))
  {
  }

  lemma ElemsFromEnd(done: Text, depth: nat, format: bool)
    ensures done + RenderElems([], depth, format) == done
  {
  }

  lemma ArrayKids(item: Node, vs: seq<Value>, family: set<Node>)
    requires Denotes(item, Arr(vs), family)
    ensures item.child == First(item.kids) && |item.kids| == |vs|
    ensures forall i {:trigger item.kids[i].next} :: 0 <= i < |vs| ==> item.kids[i].next == Follower(item.kids, i, null)
  {
  }

  lemma ArrayText(was: Text, vs: seq<Value>, depth: nat, format: bool)
    ensures Render(Arr(vs), depth, format) == [OPEN_BRACKET] + RenderElems(vs, depth + 1, format) + [CLOSE_BRACKET]
    ensures was + [OPEN_BRACKET] + RenderElems(vs, depth + 1, format) + [CLOSE_BRACKET] == was + Render(Arr(vs), depth, format)
  {
    hide RenderElems;
  }

  lemma ElemPieces(was: Text, vs: seq<Value>, i: nat, depth: nat, format: bool)
    requires i < |vs|
    ensures |ElemText(vs, i, depth, format)|
         == |Render(vs[i], depth, format)| + if i + 1 < |vs| then if format then 2 else 1 else 0
    ensures was + ElemText(vs, i, depth, format)
         == if i + 1 < |vs| then was + Render(vs[i], depth, format) + Separator(format) else was + Render(vs[i], depth, format)
    ensures |Separator(format)| == if format then 2 else 1
  {
    hide Render;
  }

  lemma MemberPieces(was: Text, ms: seq<Member>, i: nat, depth: nat, format: bool)
    requires i < |ms|
    ensures var key, value, sep := KeyText(ms[i].key, depth, format), Render(ms[i].value, depth, format), MemberEnd(i + 1 == |ms|, format);
            && |MemberText(ms, i, depth, format)| == |key| + |value| + |sep|
            && was + key + value + sep == was + MemberText(ms, i, depth, format)
  {
    hide Render, KeyText, MemberEnd;
  }

  lemma QuotedPieces(was: Text, s: Text)
    ensures |QuotedText(s)| == |EscapeText(s)| + 2
    ensures was + [QUOTE] + EscapeText(s) + [QUOTE] == was + QuotedText(s)
  {
    hide EscapeText;
  }

  /** What is left to escape from an index on. */
  lemma EscapePieces(s: Text, i: nat)
    requires i <= |s|
    ensures s[0..] == s
    ensures EscapeText(s[i..]) == if i == |s| then [] else EscapeByte(s[i]) + EscapeText(s[i + 1..])
  {
  }

  lemma {:induction false} NoEscapes(s: Text)
    ensures |EscapeText(s)| >= |s|
    ensures |EscapeText(s)| == |s| ==> EscapeText(s) == s
  {
    if s != [] {
      NoEscapes(s[1..]);
      assert s == [s[0]] + s[1..];
    }
  }

  /** The counting loop of print_string_ptr; a string that needs no escapes is its own escape text. */
  method CountEscapes(s: Text) returns (extra: nat)
    ensures |s| + extra == |EscapeText(s)|
    ensures extra == 0 ==> EscapeText(s) == s
  {
    extra := 0;
    var i := 0;
    while i < |s|
      invariant i <= |s|
      invariant extra + |EscapeText(s[i..])| + i == |EscapeText(s)|
    {
      EscapePieces(s, i);
      var b := s[i];
      if b == QUOTE || b == BACKSLASH || b == 0x08 || b == 0x0C || b == NEWLINE || b == 0x0D || b == TAB {
        extra := extra + 1;
      } else if b < 32 {
        extra := extra + 5;
      }
      i := i + 1;
    }
    assert s[i..] == [];
    if |EscapeText(s)| == |s| {
      NoEscapes(s);
    }
  }

  lemma QuotedNulFree(s: Text)
    requires NulFree(s)
    ensures NulFree(QuotedText(s))
  {
    EscapedNulFree(s);
  }

  method CopyPrefix(from: array<byte>, to: array<byte>, n: nat)
    requires n <= from.Length && n <= to.Length && from != to
    modifies to
    ensures to[..n] == from[..n]
  {
    var i := 0;
    while i < n
      invariant i <= n && to[..i] == from[..i]
    {
      to[i] := from[i];
      i := i + 1;
    }
  }

  class PrintBuffer {
    var buffer: array?<byte>
    var length: nat
    var offset: nat
    var depth: nat
    const noalloc: bool
    const format: bool
    const reallocates: bool  // hooks.reallocate is available
    const heap: Allocator
    ghost var text: Text  // what has been written

    /** How far a buffer of that length can be made to reach. */
    function Limit(room: nat): nat {
      if noalloc then room else SIZE_MAX
    }

    /** The text written so far stands at the start of the buffer, and offset lies within it. */
    ghost predicate Valid()
      reads this`buffer, this`length, this`offset, this`text, buffer
    {
      && buffer != null && buffer.Length == length
      && |text| <= length && buffer[..|text|] == text
      && offset <= |text| && offset < length && length <= Limit(length)
    }

    constructor (buffer: array<byte>, noalloc: bool, format: bool, reallocates: bool, heap: Allocator)
      requires buffer.Length > 0 && (!noalloc ==> buffer.Length <= SIZE_MAX)
      ensures this.buffer == buffer && this.noalloc == noalloc && this.format == format && this.heap == heap
      ensures Valid() && text == [] && offset == 0 && length == buffer.Length && depth == 0
    {
      this.buffer, length, offset, depth := buffer, buffer.Length, 0, 0;
      this.noalloc, this.format, this.reallocates, this.heap := noalloc, format, reallocates, heap;
      text := [];
    }

    /** What lies behind offset is a C string. */
    ghost predicate Pending()
      reads this`buffer, this`length, this`offset, this`text, buffer
    {
      Valid() && |text| < length && buffer[|text|] == NUL && NulFree(text[offset..])
    }

    /** How printing r ended: with exactly r behind the text there was, if and only if every request for memory was granted
        and the limit leaves room for one byte more than r and its NUL. A fixed buffer makes no requests. */
    ghost predicate Printed(ok: bool, r: Text, was: Text, room: nat, mark: nat)
      reads this`buffer, this`length, this`offset, this`text, buffer, heap
    {
      && (ok ==> Valid() && text == was + r)
      && (ok <==> heap.Granted(mark) && |was| + |r| + 2 <= Limit(room))
      && mark <= heap.asked && (noalloc ==> length == room && heap.asked == mark)
    }

    /** How a step ended that writes s and takes offset along, and asks for need more bytes than the text before it. */
    ghost predicate Moved(ok: bool, s: Text, was: Text, room: nat, mark: nat, need: nat)
      reads this`buffer, this`length, this`offset, this`text, buffer, heap
    {
      && (ok ==> Valid() && text == was + s && offset == |text|)
      && (ok <==> heap.Granted(mark) && |was| + need <= Limit(room))
      && mark <= heap.asked && (noalloc ==> length == room && heap.asked == mark)
    }

    lemma StandsStill()
      requires Valid() && offset == |text|
      ensures Moved(true, [], text, length, heap.asked, 0)
    {
      assert text + [] == text;
    }

    /** ensure: room for needed more bytes and one behind them, in the same buffer or a larger one. */
    method Ensure(needed: nat) returns (ok: bool)
      requires Valid() && offset == |text|
      modifies this`buffer, this`length, heap
      ensures ok ==> Valid() && offset + needed + 1 <= length
      ensures ok ==> buffer == old(buffer) || (!noalloc && fresh(buffer))
      ensures ok <==> heap.Granted(old(heap.asked)) && offset + needed + 1 <= Limit(old(length))
      ensures old(heap.asked) <= heap.asked
      ensures noalloc ==> buffer == old(buffer) && length == old(length) && heap.asked == old(heap.asked)
    {
      if needed + offset + 1 <= length {
        return true;
      }
      if noalloc {
        return false;
      }
      var wanted := needed + offset + 1;
      if wanted > SIZE_MAX {
        return false;
      }
      var newsize := if wanted > SIZE_MAX / 2 then SIZE_MAX else wanted * 2;
      var newbuffer := heap.Allocate(newsize);
      if newbuffer == null {
        length, buffer := 0, null;
        return false;
      }
      var copied := if reallocates then length else offset + 1;
      CopyPrefix(buffer, newbuffer, copied);
      assert newbuffer[..|text|] == buffer[..|text|];
      length, buffer := newsize, newbuffer;
      ok := true;
    }

    /** update_offset: strlen from offset on. */
    method UpdateOffset()
      requires Pending()
      modifies this`offset
      ensures Valid() && offset == |text|
    {
      assert forall j :: offset <= j < |text| ==> text[j] == text[offset..][j - offset];
      var i := offset;
      while buffer[i] != NUL
        invariant offset <= i <= |text|
        decreases |text| - i
      {
        assert buffer[i] == text[i];
        i := i + 1;
      }
      offset := i;
    }

    /** Stores bytes at the output pointer, which is at the end of the text. */
    method Put(out: nat, s: Text) returns (next: nat)
      requires Valid() && out == |text| && out + |s| <= length
      modifies buffer, this`text
      ensures Valid() && text == old(text) + s && next == |text|
    {
      PutAt(buffer, out, s);
      text := text + s;
      next := out + |s|;
    }

    /** Stores the NUL behind the text. */
    method Terminate(out: nat)
      requires Valid() && out == |text| < length && NulFree(text[offset..])
      modifies buffer
      ensures Pending()
    {
      buffer[out] := NUL;
    }

    /** ensure and strcpy of a fixed text. */
    method PrintText(s: Text) returns (ok: bool)
      requires Valid() && offset == |text| && NulFree(s)
      modifies this, buffer, heap
      ensures Printed(ok, s, old(text), old(length), old(heap.asked))
      ensures ok ==> Pending() && (buffer == old(buffer) || (!noalloc && fresh(buffer)))
      ensures depth == old(depth)
    {
      ok := Ensure(|s| + 1);
      if ok {
        var out := Put(offset, s);
        Terminate(out);
      }
    }

    /** print_number; it moves offset behind the number itself. What sprintf makes of a Float is its token. */
    method PrintNumber(item: Node) returns (ok: bool)
      requires Valid() && offset == |text| && (item.number.Num? || item.number.Float?) && Printable(item.number)
      modifies this, buffer, heap
      ensures Printed(ok, Render(item.number, depth, format), old(text), old(length), old(heap.asked))
      ensures ok ==> Pending() && (buffer == old(buffer) || (!noalloc && fresh(buffer)))
      ensures depth == old(depth)
    {
      var number := if item.number.Num? then Decimal(item.number.n) else item.number.token;
      ok := Ensure(|number| + 1);
      if ok {
        assert !IsNumberChar(NUL);
        var out := Put(offset, number);
        Terminate(out);
        offset := offset + |number|;
      }
    }

    method PutEscapedByte(out: nat, b: byte) returns (next: nat)
      requires Valid() && out == |text| && out + |EscapeByte(b)| <= length
      modifies buffer, this`text
      ensures Valid() && text == old(text) + EscapeByte(b) && next == |text|
    {
      if b > 31 && b != QUOTE && b != BACKSLASH {
        next := Put(out, [b]);
        return;
      }
      next := Put(out, [BACKSLASH]);
      if b == BACKSLASH || b == QUOTE {
        next := Put(next, [b]);
      } else if b == 0x08 {
        next := Put(next, [LOWER_B]);
      } else if b == 0x0C {
        next := Put(next, [LOWER_F]);
      } else if b == 0x0A {
        next := Put(next, [LOWER_N]);
      } else if b == 0x0D {
        next := Put(next, [LOWER_R]);
      } else if b == 0x09 {
        next := Put(next, [LOWER_T]);
      } else {
        next := Put(next, [LOWER_U, DIGIT_0, DIGIT_0, HexDigit(b as nat / 16), HexDigit(b as nat % 16)]);
      }
    }

    /** The loop of print_string_ptr that writes a string with its escapes. */
    method PutEscaped(out: nat, s: Text) returns (next: nat)
      requires Valid() && out == |text| && out + |EscapeText(s)| <= length
      modifies buffer, this`text
      ensures Valid() && text == old(text) + EscapeText(s) && next == |text|
    {
      hide EscapeText, EscapeByte;
      EscapePieces(s, 0);
      next := out;
      var i := 0;
      while i < |s|
        invariant i <= |s| && Valid() && next == |text|
        invariant text + EscapeText(s[i..]) == old(text) + EscapeText(s)
      {
        EscapePieces(s, i);
        next := PutEscapedByte(next, s[i]);
        i := i + 1;
      }
      EscapePieces(s, i);
    }

    method PutQuoted(out: nat, s: Text, escapes: nat) returns (next: nat)
      requires Valid() && out == |text| && out + |QuotedText(s)| <= length
      requires escapes == 0 ==> EscapeText(s) == s
      modifies buffer, this`text
      ensures Valid() && text == old(text) + QuotedText(s) && next == |text|
    {
      hide EscapeText, QuotedText;
      QuotedPieces(text, s);
      next := Put(out, [QUOTE]);
      if escapes == 0 {
        next := Put(next, s);
      } else {
        next := PutEscaped(next, s);
      }
      next := Put(next, [QUOTE]);
    }

    /** print_string_ptr. */
    method PrintStringPtr(input: Option<Text>) returns (ok: bool)
      requires Valid() && offset == |text|
      requires input.Some? ==> NulFree(input.value)
      modifies this, buffer, heap
      ensures Printed(ok, if input.Some? then QuotedText(input.value) else [QUOTE, QUOTE], old(text), old(length), old(heap.asked))
      ensures ok ==> Pending() && (buffer == old(buffer) || (!noalloc && fresh(buffer)))
      ensures depth == old(depth)
    {
      hide EscapeText;
      if input.None? {
        ok := PrintText([QUOTE, QUOTE]);
        return;
      }
      var s := input.value;
      var escapes := CountEscapes(s);
      var outputLength := |s| + escapes;
      ok := Ensure(outputLength + 3);
      if !ok {
        return;
      }
      QuotedNulFree(s);
      var out := PutQuoted(offset, s, escapes);
      assert text[offset..] == QuotedText(s);
      Terminate(out);
    }

    /** print_value: the printed text is the rendering of the value that the item denotes. */
    method PrintValue(item: Node, ghost v: Value, ghost family: set<Node>) returns (ok: bool)
      requires Valid() && offset == |text|
      requires Denotes(item, v, family) && Printable(v)
      modifies this, buffer, heap
      ensures Printed(ok, Render(v, old(depth), format), old(text), old(length), old(heap.asked))
      ensures ok ==> Pending() && (buffer == old(buffer) || (!noalloc && fresh(buffer))) && depth == old(depth)
      decreases v, 2
    {
      match item.kind
      case Invalid => assert false;
      case NullKind => ok := PrintText(TEXT_NULL);
      case FalseKind => ok := PrintText(TEXT_FALSE);
      case TrueKind => ok := PrintText(TEXT_TRUE);
      case NumberKind => ok := PrintNumber(item);
      case StringKind => ok := PrintStringPtr(item.text);
      case ArrayKind => ok := PrintArray(item, v.elems, family);
      case ObjectKind => ok := PrintObject(item, v.members, family);
    }

    /** ensure, the stores of a short text with or without a NUL behind it, and the step of offset. */
    method Emit(needed: nat, s: Text, terminated: bool) returns (ok: bool)
      requires Valid() && offset == |text| && |s| + (if terminated then 1 else 0) <= needed
      modifies this`buffer, this`length, this`offset, this`text, heap, buffer
      ensures Moved(ok, s, old(text), old(length), old(heap.asked), needed + 1)
      ensures ok ==> buffer == old(buffer) || (!noalloc && fresh(buffer))
    {
      ok := Ensure(needed);
      if ok {
        var out := Put(offset, s);
        if terminated {
          buffer[out] := NUL;
        }
        offset := out;
      }
    }

    /** ensure and the stores of a short text and a NUL, behind which offset stays. */
    method Close(needed: nat, s: Text) returns (ok: bool)
      requires Valid() && offset == |text| && |s| <= needed && NulFree(s)
      modifies this`buffer, this`length, this`text, heap, buffer
      ensures ok ==> Pending() && text == old(text) + s && (buffer == old(buffer) || (!noalloc && fresh(buffer)))
      ensures ok <==> heap.Granted(old(heap.asked)) && |old(text)| + needed + 1 <= Limit(old(length))
      ensures old(heap.asked) <= heap.asked && (noalloc ==> length == old(length) && heap.asked == old(heap.asked))
    {
      ok := Ensure(needed);
      if ok {
        var out := Put(offset, s);
        assert text[offset..] == s;
        Terminate(out);
      }
    }

    /** print_value and update_offset. */
    method PrintAndCatchUp(item: Node, ghost v: Value, ghost family: set<Node>) returns (ok: bool)
      requires Valid() && offset == |text|
      requires Denotes(item, v, family) && Printable(v)
      modifies this, buffer, heap
      ensures var r := Render(v, old(depth), format); Moved(ok, r, old(text), old(length), old(heap.asked), |r| + 2)
      ensures ok ==> (buffer == old(buffer) || (!noalloc && fresh(buffer))) && depth == old(depth)
      decreases v, 3
    {
      hide Render, Denotes, Printable;
      ok := PrintValue(item, v, family);
      if ok {
        UpdateOffset();
      }
    }

    /** print_array. */
    method PrintArray(item: Node, ghost vs: seq<Value>, ghost family: set<Node>) returns (ok: bool)
      requires Valid() && offset == |text|
      requires Denotes(item, Arr(vs), family) && Printable(Arr(vs))
      modifies this, buffer, heap
      ensures Printed(ok, Render(Arr(vs), old(depth), format), old(text), old(length), old(heap.asked))
      ensures ok ==> Pending() && (buffer == old(buffer) || (!noalloc && fresh(buffer))) && depth == old(depth)
      decreases vs, 5
    {
      hide Render, RenderElems, Denotes, Printable, NulFree, PrintBuffer.Valid, PrintBuffer.Pending;
      ArrayText(text, vs, depth, format);
      ok := Emit(1, [OPEN_BRACKET], false);
      if !ok {
        return;
      }
      depth := depth + 1;
      ok := PrintElems(item, vs, family);
      if !ok {
        return;
      }
      ok := Close(2, [CLOSE_BRACKET]);
      if !ok {
        return;
      }
      depth := depth - 1;
    }

    /** The loop of print_array. */
    method PrintElems(item: Node, ghost vs: seq<Value>, ghost family: set<Node>) returns (ok: bool)
      requires Valid() && offset == |text|
      requires Denotes(item, Arr(vs), family) && Printable(Arr(vs))
      modifies this, buffer, heap
      ensures var r := RenderElems(vs, old(depth), format);
              Moved(ok, r, old(text), old(length), old(heap.asked), if vs == [] then 0 else |r| + 2)
      ensures ok ==> (buffer == old(buffer) || (!noalloc && fresh(buffer))) && depth == old(depth)
      decreases vs, 4
    {
      hide RenderElems, ElemText, Denotes, Printable, NulFree, PrintBuffer.Valid;
      StandsStill();
      ArrayKids(item, vs, family);
      var current := item.child;
      ghost var i, done := 0, [];
      assert vs[0..] == vs && [] + RenderElems(vs, depth, format) == RenderElems(vs, depth, format);
      while current != null
        invariant i <= |vs| && current == (if i < |vs| then item.kids[i] else null)
        invariant current != null ==> current.next == Follower(item.kids, i, null)
        invariant done + RenderElems(vs[i..], depth, format) == RenderElems(vs, depth, format)
        invariant Moved(true, done, old(text), old(length), old(heap.asked), if i == 0 then 0 else |done| + 2)
        invariant buffer == old(buffer) || (!noalloc && fresh(buffer))
        invariant depth == old(depth)
        decreases |vs| - i
      {
        ElemsFrom(done, vs, i, depth, format);
        ArrayKids(item, vs, family);
        ok := PrintElem(current, vs, i, item, family);
        if !ok {
          return;
        }
        done := done + ElemText(vs, i, depth, format);
        current := current.next;
        i := i + 1;
      }
      assert vs[i..] == [];
      ElemsFromEnd(done, depth, format);
      ok := true;
    }

    /** One round of the loop of print_array. */
    method PrintElem(current: Node, ghost vs: seq<Value>, ghost i: nat, ghost item: Node, ghost family: set<Node>)
      returns (ok: bool)
      requires Valid() && offset == |text|
      requires i < |vs| && Denotes(item, Arr(vs), family) && Printable(Arr(vs)) && current == item.kids[i]
      modifies this, buffer, heap
      ensures var r := ElemText(vs, i, old(depth), format); Moved(ok, r, old(text), old(length), old(heap.asked), |r| + 2)
      ensures ok ==> (buffer == old(buffer) || (!noalloc && fresh(buffer))) && depth == old(depth)
      decreases vs, 3
    {
      hide Render, Denotes, ElemText, Separator, PrintBuffer.Valid;
      ElemPieces(text, vs, i, depth, format);
      ElemDenotes(item, vs, family, i);
      assert item.kids[i].next == Follower(item.kids, i, null) by { ArrayKids(item, vs, family); }
      ok := PrintAndCatchUp(current, vs[i], family);
      if ok && current.next != null {
        ok := Emit(if format then 3 else 2, Separator(format), true);
      }
    }

    /** print_object. */
    method PrintObject(item: Node, ghost ms: seq<Member>, ghost family: set<Node>) returns (ok: bool)
      requires Valid() && offset == |text|
      requires Denotes(item, Obj(ms), family) && Printable(Obj(ms))
      modifies this, buffer, heap
      ensures Printed(ok, Render(Obj(ms), old(depth), format), old(text), old(length), old(heap.asked))
      ensures ok ==> Pending() && (buffer == old(buffer) || (!noalloc && fresh(buffer))) && depth == old(depth)
      decreases ms, 7
    {
      hide Render, RenderMembers, Opening, Closing, Denotes, Printable, NulFree, PrintBuffer.Valid, PrintBuffer.Pending;
      ObjectText(ms, depth, format);
      ok := OpenObject(item, ms, family);
      if ok {
        ok := Close(if format then depth + 1 else 2, Closing(depth - 1, format));
        if ok {
          depth := depth - 1;
        }
      }
    }

    /** print_object up to the last member. */
    method OpenObject(item: Node, ghost ms: seq<Member>, ghost family: set<Node>) returns (ok: bool)
      requires Valid() && offset == |text|
      requires Denotes(item, Obj(ms), family) && Printable(Obj(ms))
      modifies this, buffer, heap
      ensures var r := Opening(format) + RenderMembers(ms, old(depth) + 1, format);
              Moved(ok, r, old(text), old(length), old(heap.asked), |r| + 2)
      ensures ok ==> (buffer == old(buffer) || (!noalloc && fresh(buffer))) && depth == old(depth) + 1
      decreases ms, 6
    {
      hide RenderMembers, Denotes, Printable, Opening, PrintBuffer.Valid;
      MembersFromEnd([], depth + 1, format);
      ghost var r := RenderMembers(ms, depth + 1, format);
      assert text + (Opening(format) + r) == text + Opening(format) + r;
      assert |Opening(format)| == if format then 2 else 1 by { OpeningLength(format); }
      ok := Emit(if format then 3 else 2, Opening(format), false);
      if !ok {
        return;
      }
      depth := depth + 1;
      ok := PrintMembers(item, ms, family);
    }

    /** The loop of print_object. */
    method PrintMembers(item: Node, ghost ms: seq<Member>, ghost family: set<Node>) returns (ok: bool)
      requires Valid() && offset == |text|
      requires Denotes(item, Obj(ms), family) && Printable(Obj(ms))
      modifies this, buffer, heap
      ensures var r := RenderMembers(ms, old(depth), format);
              Moved(ok, r, old(text), old(length), old(heap.asked), if ms == [] then 0 else |r| + 2)
      ensures ok ==> (buffer == old(buffer) || (!noalloc && fresh(buffer))) && depth == old(depth)
      decreases ms, 5
    {
      hide RenderMembers, MemberText, Denotes, Printable, NulFree, PrintBuffer.Valid;
      StandsStill();
      ObjectKids(item, ms, family);
      var current := item.child;
      ghost var i, done := 0, [];
      assert ms[0..] == ms && [] + RenderMembers(ms, depth, format) == RenderMembers(ms, depth, format);
      while current != null
        invariant i <= |ms| && current == (if i < |ms| then item.kids[i] else null)
        invariant current != null ==> current.next == Follower(item.kids, i, null)
        invariant done + RenderMembers(ms[i..], depth, format) == RenderMembers(ms, depth, format)
        invariant Moved(true, done, old(text), old(length), old(heap.asked), if i == 0 then 0 else |done| + 2)
        invariant buffer == old(buffer) || (!noalloc && fresh(buffer))
        invariant depth == old(depth)
        decreases |ms| - i
      {
        MembersFrom(done, ms, i, depth, format);
        ObjectKids(item, ms, family);
        ok := PrintMember(current, ms, i, item, family);
        if !ok {
          return;
        }
        done := done + MemberText(ms, i, depth, format);
        current := current.next;
        i := i + 1;
      }
      assert ms[i..] == [];
      MembersFromEnd(done, depth, format);
      ok := true;
    }

    /** The indentation, key and colon of a member. */
    method PrintKey(current: Node) returns (ok: bool)
      requires Valid() && offset == |text|
      requires current.key.Some? && NulFree(current.key.value)
      modifies this, buffer, heap
      ensures var r := KeyText(current.key.value, old(depth), format);
              && (ok ==> Moved(true, r, old(text), old(length), old(heap.asked), |r| + 1))
              && (!ok ==> Moved(false, r, old(text), old(length), old(heap.asked), |r| + 1))
      ensures ok ==> (buffer == old(buffer) || (!noalloc && fresh(buffer))) && depth == old(depth)
    {
      hide QuotedText, NulFree, PrintBuffer.Valid, PrintBuffer.Pending;
      if format {
        ok := Emit(depth, Tabs(depth), false);
        if !ok {
          return;
        }
      }
      ok := PrintStringPtr(current.key);
      if !ok {
        return;
      }
      UpdateOffset();
      ok := Emit(if format then 2 else 1, if format then [COLON, TAB] else [COLON], false);
    }

    /** One round of the loop of print_object. */
    method PrintMember(current: Node, ghost ms: seq<Member>, ghost i: nat, ghost item: Node, ghost family: set<Node>)
      returns (ok: bool)
      requires Valid() && offset == |text|
      requires i < |ms| && Denotes(item, Obj(ms), family) && Printable(Obj(ms)) && current == item.kids[i]
      modifies this, buffer, heap
      ensures var r := MemberText(ms, i, old(depth), format); Moved(ok, r, old(text), old(length), old(heap.asked), |r| + 2)
      ensures ok ==> (buffer == old(buffer) || (!noalloc && fresh(buffer))) && depth == old(depth)
      decreases ms, 4
    {
      hide Render, Denotes, Printable, KeyText, MemberText, MemberEnd, NulFree, PrintBuffer.Valid;
      MemberPieces(text, ms, i, depth, format);
      MemberEndLength(current.next == null, format);
      MemberFacts(current, ms, i, item, family);
      ok := PrintKey(current);
      if !ok {
        return;
      }
      ok := PrintAndCatchUp(current, ms[i].value, family);
      if !ok {
        return;
      }
      ok := Emit((if format then 1 else 0) + (if current.next != null then 1 else 0) + 1,
                 MemberEnd(current.next == null, format), true);
    }
  }

  const DEFAULT_BUFFER_SIZE: nat := 256

  /** The end of print: the first n bytes of a block and a NUL in a new one. */
  method CutToSize(block: array<byte>, n: nat, heap: Allocator) returns (printed: array?<byte>)
    requires n <= block.Length
    modifies heap
    ensures heap.asked == old(heap.asked) + 1 && (printed != null <==> heap.grants(old(heap.asked)))
    ensures printed != null ==> fresh(printed) && printed[..] == block[..n] + [NUL]
  {
    printed := heap.Allocate(n + 1);
    if printed == null {
      return;
    }
    CopyPrefix(block, printed, n);
    printed[n] := NUL;
    assert printed[..] == printed[..n] + [NUL];
  }

  /** print: the rendering and its NUL in a block of exactly that size, if and only if every request for memory was granted
      and the sizes can be represented. */
  method Print(item: Node, format: bool, reallocates: bool, heap: Allocator, ghost v: Value, ghost family: set<Node>)
    returns (printed: array?<byte>)
    requires Denotes(item, v, family) && Printable(v)
    modifies heap
    ensures printed != null <==> heap.Granted(old(heap.asked)) && |Render(v, 0, format)| + 2 <= SIZE_MAX
    ensures (forall n :: heap.grants(n)) && |Render(v, 0, format)| + 2 <= SIZE_MAX ==> printed != null
    ensures printed != null ==> fresh(printed) && printed[..] == Render(v, 0, format) + [NUL]
  {
    hide Render, Printable, Denotes;
    printed := null;
    var block := heap.Allocate(DEFAULT_BUFFER_SIZE);
    if block == null {
      return;
    }
    var p := new PrintBuffer(block, false, format, reallocates, heap);
    assert [] + Render(v, 0, format) == Render(v, 0, format);
    var ok := p.PrintValue(item, v, family);
    if !ok {
      return;
    }
    p.UpdateOffset();
    printed := CutToSize(p.buffer, p.offset, heap);
  }

  /** cJSON_PrintPreallocated: two bytes more than the text always suffice, and fewer never do. */
  method PrintPreallocated(item: Node, buffer: array<byte>, format: bool, ghost v: Value, ghost family: set<Node>)
    returns (ok: bool)
    requires Denotes(item, v, family) && Printable(v)
    modifies buffer
    ensures ok <==> |Render(v, 0, format)| + 2 <= buffer.Length
    ensures ok ==> buffer[..|Render(v, 0, format)| + 1] == Render(v, 0, format) + [NUL]
  {
    hide Render, Printable, Denotes;
    if buffer.Length == 0 {
      return false;
    }
    var heap := new Allocator(_ => false);
    var p := new PrintBuffer(buffer, true, format, false, heap);
    ok := p.PrintValue(item, v, family);
    if ok {
      ghost var n := |p.text|;
      assert [] + Render(v, 0, format) == Render(v, 0, format);
      assert buffer[..n + 1] == buffer[..n] + [NUL];
    }
  }
}
