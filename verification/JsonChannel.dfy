/** JSON_write and JSON_read of iperf_api.c: a tree on the control connection is its unformatted text
    behind a length of four bytes in network order. */
module JsonChannel {
  import opened Bytes
  import opened JsonValue
  import opened JsonRender
  import opened JsonGrammar
  import JsonRoundTrip
  import opened JsonTree
  import JsonPrinter
  import JsonReader

  const UINT32: nat := 0x1_0000_0000

  /** htonl, as the bytes that go over the wire; the length is a uint32_t. */
  function NetworkOrder(n: nat): (s: Text)
    ensures |s| == 4
  {
    [(n / 0x100_0000 % 0x100) as byte, (n / 0x1_0000 % 0x100) as byte, (n / 0x100 % 0x100) as byte, (n % 0x100) as byte]
  }

  function FromNetworkOrder(s: Text): (n: nat)
    requires |s| >= 4
  {
    ((s[0] as nat * 0x100 + s[1] as nat) * 0x100 + s[2] as nat) * 0x100 + s[3] as nat
  }

  lemma NetworkOrderRoundTrip(n: nat, rest: Text)
    ensures FromNetworkOrder(NetworkOrder(n) + rest) == n % UINT32
  {
    var a := n / 0x100;
    var b := a / 0x100;
    var c := b / 0x100;
    var d := c / 0x100;
    assert n == ((d * 0x100 + c % 0x100) * 0x100 + b % 0x100) * 0x10000 + a % 0x100 * 0x100 + n % 0x100;
    assert b == n / 0x1_0000 && c == n / 0x100_0000;
    var s := NetworkOrder(n);
    assert s[0] as nat == c % 0x100 && s[1] as nat == b % 0x100 && s[2] as nat == a % 0x100 && s[3] as nat == n % 0x100;
    var low := FromNetworkOrder(s + rest);
    assert n == d * UINT32 + low;
  }

  function Frame(v: Value): Text {
    var text := Render(v, 0, false);
    NetworkOrder(|text|) + text
  }

  /** What a reader makes of the bytes of a connection: the value of the first frame, and the rest. */
  function ReadFrame(stream: Text): Option<(Value, Text)> {
    if |stream| < 4 then None
    else
      var size := FromNetworkOrder(stream);
      if |stream| - 4 < size then None
      else
        match ParseDocument(CString(stream[4..4 + size]), false)
        case Fail => None
        case Ok(v, _) => Some((v, stream[4 + size..]))
  }

  /** The reader takes exactly the frame and gets the value back, whatever follows, as long as the
      length of the text fits in its four bytes. */
  lemma FrameRoundTrip(v: Value, rest: Text)
    requires Printable(v) && Height(v) <= NESTING_LIMIT && |Render(v, 0, false)| < UINT32
    ensures ReadFrame(Frame(v) + rest) == Some((v, rest))
  {
    hide Render, ParseDocument, Printable, Height, NetworkOrder, FromNetworkOrder;
    var text := Render(v, 0, false);
    var header := NetworkOrder(|text|);
    var stream := Frame(v) + rest;
    assert stream == header + (text + rest);
    NetworkOrderRoundTrip(|text|, text + rest);
    assert stream[4..4 + |text|] == text;
    assert stream[4 + |text|..] == rest;
    JsonRoundTrip.PrintThenParse(v, false, false);
  }

  /** strlen. */
  method StringLength(s: array<byte>, ghost text: Text) returns (n: nat)
    requires s[..] == text + [NUL] && NulFree(text)
    ensures n == |text| && s[..n] == text
  {
    n := 0;
    assert forall i :: 0 <= i <= |text| ==> s[i] == (text + [NUL])[i] by {
      assert forall i :: 0 <= i <= |text| ==> s[i] == s[..][i];
    }
    while s[n] != NUL
      invariant n <= |text|
      decreases |text| - n
    {
      n := n + 1;
    }
  }

  /** JSON_write. */
  method JsonWrite(item: Node, reallocates: bool, heap: JsonPrinter.Allocator, ghost v: Value, ghost family: set<Node>)
    returns (sent: Option<Text>)
    requires Denotes(item, v, family) && Printable(v)
    modifies heap
    ensures sent.Some? <==> heap.Granted(old(heap.asked)) && |Render(v, 0, false)| + 2 <= JsonPrinter.SIZE_MAX
    ensures sent.Some? ==> sent.value == Frame(v)
  {
    hide Render, Denotes, Printable;
    var printed := JsonPrinter.Print(item, false, reallocates, heap, v, family);
    if printed == null {
      return None;
    }
    RenderNulFree(v, 0, false);
    var size := StringLength(printed, Render(v, 0, false));
    sent := Some(NetworkOrder(size) + printed[..size]);
  }

  /** JSON_read. */
  method JsonRead(stream: Text) returns (item: Node?, rest: Text, ghost family: set<Node>)
    ensures item == null <==> ReadFrame(stream) == None
    ensures item != null ==> fresh(item) && fresh(family)
    ensures item != null ==> Denotes(item, ReadFrame(stream).value.0, family) && rest == ReadFrame(stream).value.1
  {
    hide ParseDocument, Denotes;
    item, rest, family := null, [], {};
    if |stream| < 4 {
      return;
    }
    var size := FromNetworkOrder(stream);
    if |stream| - 4 < size {
      return;
    }
    var str := stream[4..4 + size];
    var end;
    item, end, family := JsonReader.ParseWithOpts(CString(str), false);
    rest := stream[4 + size..];
  }
}
