/** The messages of the control protocol as bytes: states, the cookie, and JSON trees for parameters and results. */
module ControlWire {
  import opened Bytes
  import opened JsonValue
  import opened JsonRender
  import opened JsonCompare
  import opened JsonChannel
  import opened ControlProtocol

  const COOKIE_SIZE: nat := 37

  /** A string literal of the source. */
  function Key(s: string): (t: Text)
    ensures |t| == |s| && forall i :: 0 <= i < |s| ==> t[i] == (s[i] as int % 0x100) as byte
  {
    seq(|s|, i requires 0 <= i < |s| => (s[i] as int % 0x100) as byte)
  }

  // ---- looking members up ----

  /** cJSON_GetObjectItem: the first member with the key, in any case of letters. */
  function Lookup(v: Value, key: Text): Option<Value> {
    if v.Obj? && FirstIndex(v.members, key, false) < |v.members|
    then Some(v.members[FirstIndex(v.members, key, false)].value)
    else None
  }

  /** valueint. */
  function ValueInt(v: Value): int {
    if v.Num? then v.n else 0
  }

  predicate Lacks(ms: seq<Member>, key: Text) {
    forall i :: 0 <= i < |ms| ==> !KeyMatch(key, ms[i].key, false)
  }

  lemma {:induction false} SkipMembers(ms: seq<Member>, ns: seq<Member>, key: Text)
    requires Lacks(ms, key)
    ensures FirstIndex(ms + ns, key, false) == |ms| + FirstIndex(ns, key, false)
  {
    if ms == [] {
      assert ms + ns == ns;
    } else {
      assert (ms + ns)[0] == ms[0];
      assert (ms + ns)[1..] == ms[1..] + ns;
      SkipMembers(ms[1..], ns, key);
    }
  }

  /** A key finds its own member behind members with other keys. */
  lemma FindsMember(ms: seq<Member>, key: Text, v: Value, ns: seq<Member>)
    requires Lacks(ms, key)
    ensures Lookup(Obj(ms + [Member(key, v)] + ns), key) == Some(v)
  {
    SkipMembers(ms, [Member(key, v)] + ns, key);
    KeyMatchFolds(key, key, false);
    assert ms + [Member(key, v)] + ns == ms + ([Member(key, v)] + ns);
  }

  lemma {:induction false} FindsNone(ms: seq<Member>, key: Text)
    requires Lacks(ms, key)
    ensures Lookup(Obj(ms), key) == None
  {
    SkipMembers(ms, [], key);
    assert ms + [] == ms;
  }

  lemma DifferentKeys(k: Text, l: Text)
    requires k != [] && l != [] && ToLower(k[0]) != ToLower(l[0])
    ensures !KeyMatch(k, l, false)
  {
  }

  // ---- parameters ----

  /** send_parameters: the members that the protocol depends on, among those of all the other settings. */
  function ParamsValue(num: ExactInt, reverse: bool, bidirectional: bool, before: seq<Member>, after: seq<Member>): Value {
    Obj(before + [Member(Key("parallel"), Num(num))]
        + ((if reverse then [Member(Key("reverse"), Bool(true))] else [])
           + (if bidirectional then [Member(Key("bidirectional"), Bool(true))] else [])
           + after))
  }

  /** get_parameters; without the member the number of streams stays as it was. */
  function ReadParams(v: Value, num: nat): Message {
    var n := match Lookup(v, Key("parallel")) case None => num case Some(x) => ValueInt(x);
    Params(if n < 0 then 0 else n, Lookup(v, Key("reverse")).Some?, Lookup(v, Key("bidirectional")).Some?)
  }

  predicate OtherSettings(ms: seq<Member>) {
    Lacks(ms, Key("parallel")) && Lacks(ms, Key("reverse")) && Lacks(ms, Key("bidirectional"))
  }

  /** A member that is there or not as a flag is set. */
  lemma FindsFlag(ms: seq<Member>, flag: bool, key: Text, ns: seq<Member>)
    requires Lacks(ms, key) && Lacks(ns, key)
    ensures Lookup(Obj(ms + (if flag then [Member(key, Bool(true))] else []) + ns), key).Some? <==> flag
  {
    if flag {
      FindsMember(ms, key, Bool(true), ns);
    } else {
      assert ms + [] + ns == ms + ns;
      FindsNone(ms + ns, key);
    }
  }

  lemma ParamsRead(num: ExactInt, reverse: bool, bidirectional: bool, before: seq<Member>, after: seq<Member>, default: nat)
    requires num >= 0 && OtherSettings(before) && OtherSettings(after)
    ensures ReadParams(ParamsValue(num, reverse, bidirectional, before, after), default) == Params(num, reverse, bidirectional)
  {
    hide KeyMatch, FirstIndex, Lookup;
    var p := Member(Key("parallel"), Num(num));
    var rs := if reverse then [Member(Key("reverse"), Bool(true))] else [];
    var bs := if bidirectional then [Member(Key("bidirectional"), Bool(true))] else [];
    DifferentKeys(Key("reverse"), Key("parallel"));
    DifferentKeys(Key("bidirectional"), Key("parallel"));
    DifferentKeys(Key("reverse"), Key("bidirectional"));
    DifferentKeys(Key("bidirectional"), Key("reverse"));
    FindsMember(before, p.key, p.value, rs + bs + after);
    var all := before + [p] + (rs + bs + after);
    FindsFlag(before + [p], reverse, Key("reverse"), bs + after);
    assert all == before + [p] + rs + (bs + after);
    FindsFlag(before + [p] + rs, bidirectional, Key("bidirectional"), after);
    assert all == before + [p] + rs + bs + after;
  }

  // ---- results ----

  /** What send_results reports of a stream besides its id and its bytes. */
  datatype Measures = Measures(retransmits: ExactInt, jitter: Value, errors: ExactInt, packets: ExactInt, times: seq<Member>)

  function StreamValue(r: Result, x: Measures): Value
    requires -EXACT_LIMIT < r.bytes < EXACT_LIMIT && r.id < EXACT_LIMIT
  {
    Obj([Member(Key("id"), Num(r.id)), Member(Key("bytes"), Num(r.bytes)), Member(Key("retransmits"), Num(x.retransmits)),
         Member(Key("jitter"), x.jitter), Member(Key("errors"), Num(x.errors)), Member(Key("packets"), Num(x.packets))] + x.times)
  }

  predicate Reportable(rs: seq<Result>) {
    forall k :: 0 <= k < |rs| ==> -EXACT_LIMIT < rs[k].bytes < EXACT_LIMIT && rs[k].id < EXACT_LIMIT
  }

  function StreamValues(rs: seq<Result>, xs: seq<Measures>): (vs: seq<Value>)
    requires Reportable(rs) && |xs| == |rs|
    ensures |vs| == |rs|
  {
    if rs == [] then [] else [StreamValue(rs[0], xs[0])] + StreamValues(rs[1..], xs[1..])
  }

  /** send_results: the streams come last. */
  function ResultsValue(rs: seq<Result>, xs: seq<Measures>, before: seq<Member>): Value
    requires Reportable(rs) && |xs| == |rs|
  {
    Obj(before + [Member(Key("streams"), Arr(StreamValues(rs, xs)))] + [])
  }

  /** What get_results needs to find beside the streams. */
  predicate OtherResults(v: Value) {
    && Lookup(v, Key("cpu_util_total")).Some? && Lookup(v, Key("cpu_util_user")).Some?
    && Lookup(v, Key("cpu_util_system")).Some? && Lookup(v, Key("sender_has_retransmits")).Some?
  }

  /** One round of the loop of get_results. */
  function ReadStream(v: Value): Option<Result> {
    match (Lookup(v, Key("id")), Lookup(v, Key("bytes")))
    case (Some(id), Some(bytes)) =>
      if Lookup(v, Key("retransmits")).Some? && Lookup(v, Key("jitter")).Some?
         && Lookup(v, Key("errors")).Some? && Lookup(v, Key("packets")).Some? && ValueInt(id) >= 0
      then Some(Result(ValueInt(id), ValueInt(bytes)))
      else None
    case _ => None
  }

  function ReadStreams(vs: seq<Value>): Option<seq<Result>> {
    if vs == [] then Some([])
    else
      match (ReadStream(vs[0]), ReadStreams(vs[1..]))
      case (Some(r), Some(rs)) => Some([r] + rs)
      case _ => None
  }

  /** get_results; a tree that it refuses is None. */
  function ReadResults(v: Value): Option<Message> {
    if !OtherResults(v) then None
    else
      match Lookup(v, Key("streams"))
      case Some(Arr(vs)) =>
        (match ReadStreams(vs)
         case Some(rs) => Some(Results(rs))
         case None => None)
      case _ => None
  }

  /** The keys of the first members begin with these letters, which differ. */
  ghost predicate Lettered(ms: seq<Member>, letters: string) {
    && |letters| <= |ms|
    && (forall i, j :: 0 <= j < i < |letters| ==> letters[i] != letters[j])
    && forall i :: 0 <= i < |letters| ==> 'a' <= letters[i] <= 'z' && ms[i].key != [] && ms[i].key[0] == letters[i] as int as byte
  }

  lemma FindsAt(ms: seq<Member>, i: nat, letters: string)
    requires i < |letters| && Lettered(ms, letters)
    ensures Lookup(Obj(ms), ms[i].key) == Some(ms[i].value)
  {
    forall j | 0 <= j < i
      ensures !KeyMatch(ms[i].key, ms[..i][j].key, false)
    {
      DifferentKeys(ms[i].key, ms[j].key);
    }
    FindsMember(ms[..i], ms[i].key, ms[i].value, ms[i + 1..]);
    assert ms == ms[..i] + [ms[i]] + ms[i + 1..];
  }

  lemma StreamRead(r: Result, x: Measures)
    requires -EXACT_LIMIT < r.bytes < EXACT_LIMIT && r.id < EXACT_LIMIT
    ensures ReadStream(StreamValue(r, x)) == Some(r)
  {
    hide KeyMatch, FirstIndex, Lookup;
    var v := StreamValue(r, x);
    var ms := v.members;
    assert Lettered(ms, "ibrjep");
    FindsAt(ms, 0, "ibrjep");
    FindsAt(ms, 1, "ibrjep");
    FindsAt(ms, 2, "ibrjep");
    FindsAt(ms, 3, "ibrjep");
    FindsAt(ms, 4, "ibrjep");
    FindsAt(ms, 5, "ibrjep");
  }

  lemma {:induction false} StreamsRead(rs: seq<Result>, xs: seq<Measures>)
    requires Reportable(rs) && |xs| == |rs|
    ensures ReadStreams(StreamValues(rs, xs)) == Some(rs)
  {
    hide Lookup, Key, ReadStream;
    if rs != [] {
      StreamRead(rs[0], xs[0]);
      StreamsRead(rs[1..], xs[1..]);
      assert rs == [rs[0]] + rs[1..];
    }
  }

  lemma ResultsRead(rs: seq<Result>, xs: seq<Measures>, before: seq<Member>)
    requires Reportable(rs) && |xs| == |rs|
    requires Lacks(before, Key("streams")) && OtherResults(ResultsValue(rs, xs, before))
    ensures ReadResults(ResultsValue(rs, xs, before)) == Some(Results(rs))
  {
    FindsMember(before, Key("streams"), Arr(StreamValues(rs, xs)), []);
    StreamsRead(rs, xs);
  }

  // ---- messages ----

  /** What a side is about to read. */
  datatype Kind = AState | ACookie | SomeParams | SomeResults

  function KindOf(m: Message): Kind {
    match m
    case State(_) => AState
    case Cookie(_) => ACookie
    case Params(_, _, _) => SomeParams
    case Results(_) => SomeResults
  }

  /** A tree that JSON_write can send and JSON_read can parse. */
  ghost predicate Sendable(v: Value) {
    Printable(v) && Height(v) <= NESTING_LIMIT && |Render(v, 0, false)| < UINT32
  }

  ghost predicate IsParams(v: Value, m: Message)
    requires m.Params?
  {
    exists before: seq<Member>, after: seq<Member> ::
      && OtherSettings(before) && OtherSettings(after) && m.num < EXACT_LIMIT
      && v == ParamsValue(m.num, m.reverse, m.bidirectional, before, after)
  }

  ghost predicate IsResults(v: Value, m: Message)
    requires m.Results?
  {
    Reportable(m.results) &&
    exists xs: seq<Measures>, before: seq<Member> ::
      && |xs| == |m.results| && Lacks(before, Key("streams"))
      && v == ResultsValue(m.results, xs, before) && OtherResults(v)
  }

  /** The bytes that send a message. */
  ghost predicate Sends(m: Message, bytes: Text) {
    match m
    case State(code) => -0x80 <= code < 0x80 && bytes == [(code % 0x100) as byte]
    case Cookie(cookie) => |cookie| == COOKIE_SIZE - 1 && NulFree(cookie) && bytes == cookie + [NUL]
    case Params(_, _, _) => exists v :: Sendable(v) && IsParams(v, m) && bytes == Frame(v)
    case Results(_) => exists v :: Sendable(v) && IsResults(v, m) && bytes == Frame(v)
  }

  /** A signed char. */
  function Signed(b: byte): int {
    if b < 0x80 then b as int else b as int - 0x100
  }

  /** Reads one message; num is the number of streams when the parameters say nothing of it. */
  function ReadMessage(kind: Kind, num: nat, stream: Text): Option<(Message, Text)> {
    match kind
    case AState => if stream == [] then None else Some((State(Signed(stream[0])), stream[1..]))
    case ACookie =>
      if |stream| < COOKIE_SIZE then None
      else Some((Cookie(CString(stream[..COOKIE_SIZE])), stream[COOKIE_SIZE..]))
    case SomeParams =>
      (match ReadFrame(stream)
       case Some((v, rest)) => Some((ReadParams(v, num), rest))
       case None => None)
    case SomeResults =>
      (match ReadFrame(stream)
       case Some((v, rest)) =>
         (match ReadResults(v)
          case Some(m) => Some((m, rest))
          case None => None)
       case None => None)
  }

  lemma {:induction false} UpToNul(s: Text, rest: Text)
    requires NulFree(s)
    ensures CString(s + [NUL] + rest) == s
  {
    if s != [] {
      UpToNul(s[1..], rest);
      assert (s + [NUL] + rest)[1..] == s[1..] + [NUL] + rest;
    }
  }

  lemma CookieRoundTrip(cookie: Text, rest: Text, num: nat)
    requires |cookie| == COOKIE_SIZE - 1 && NulFree(cookie)
    ensures ReadMessage(ACookie, num, cookie + [NUL] + rest) == Some((Cookie(cookie), rest))
  {
    UpToNul(cookie, []);
    assert cookie + [NUL] + [] == (cookie + [NUL] + rest)[..COOKIE_SIZE];
  }

  lemma ParamsRoundTrip(m: Message, v: Value, rest: Text, num: nat)
    requires m.Params? && Sendable(v) && IsParams(v, m)
    ensures ReadMessage(SomeParams, num, Frame(v) + rest) == Some((m, rest))
  {
    hide Frame, ReadFrame, ReadParams, ParamsValue, Render, OtherSettings, Printable, Height;
    var before, after :| OtherSettings(before) && OtherSettings(after) && v == ParamsValue(m.num, m.reverse, m.bidirectional, before, after);
    ParamsRead(m.num, m.reverse, m.bidirectional, before, after, num);
    FrameRoundTrip(v, rest);
  }

  lemma ResultsRoundTrip(m: Message, v: Value, rest: Text, num: nat)
    requires m.Results? && Sendable(v) && IsResults(v, m)
    ensures ReadMessage(SomeResults, num, Frame(v) + rest) == Some((m, rest))
  {
    hide Frame, ReadFrame, ReadResults, ResultsValue, OtherResults, Render, Printable, Height;
    var xs, before :| |xs| == |m.results| && Lacks(before, Key("streams")) && v == ResultsValue(m.results, xs, before);
    ResultsRead(m.results, xs, before);
    FrameRoundTrip(v, rest);
  }

  /** A side that reads what it expects gets the message that was sent, and leaves what follows it. */
  lemma MessageRoundTrip(m: Message, bytes: Text, rest: Text, num: nat)
    requires Sends(m, bytes)
    ensures ReadMessage(KindOf(m), num, bytes + rest) == Some((m, rest))
  {
    hide Frame, ReadFrame, IsParams, IsResults, Sendable, ReadParams, ReadResults, CString;
    match m
    case State(code) =>
    case Cookie(cookie) => CookieRoundTrip(cookie, rest, num);
    case Params(_, _, _) =>
      var v :| Sendable(v) && IsParams(v, m) && bytes == Frame(v);
      ParamsRoundTrip(m, v, rest, num);
    case Results(_) =>
      var v :| Sendable(v) && IsResults(v, m) && bytes == Frame(v);
      ResultsRoundTrip(m, v, rest, num);
  }

  /** The bytes of a queue of messages. */
  function Concat(texts: seq<Text>): Text {
    if texts == [] then [] else texts[0] + Concat(texts[1..])
  }

  function ReadMessages(kinds: seq<Kind>, num: nat, stream: Text): Option<(seq<Message>, Text)> {
    if kinds == [] then Some(([], stream))
    else
      match ReadMessage(kinds[0], num, stream)
      case None => None
      case Some((m, rest)) =>
        match ReadMessages(kinds[1..], num, rest)
        case None => None
        case Some((ms, end)) => Some(([m] + ms, end))
  }

  /** Reading the kinds in the order in which they were sent loses no message and no boundary between messages. */
  lemma {:induction false} MessagesRoundTrip(ms: seq<Message>, texts: seq<Text>, kinds: seq<Kind>, num: nat)
    requires |texts| == |ms| == |kinds|
    requires forall i :: 0 <= i < |ms| ==> Sends(ms[i], texts[i]) && kinds[i] == KindOf(ms[i])
    ensures ReadMessages(kinds, num, Concat(texts)) == Some((ms, []))
  {
    hide ReadMessage, Sends;
    if ms != [] {
      MessageRoundTrip(ms[0], texts[0], Concat(texts[1..]), num);
      MessagesRoundTrip(ms[1..], texts[1..], kinds[1..], num);
      assert ms == [ms[0]] + ms[1..];
    }
  }
}
