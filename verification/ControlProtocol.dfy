/** The control protocol of a TCP test as two processes: the client of iperf_client_api.c, the server of
    iperf_server_api.c, and between them the control connection and the server's queue of new connections. */
module ControlProtocol {
  import opened Bytes

  // ---- states, as the one-byte messages carry them ----

  const TEST_START := 1
  const TEST_RUNNING := 2
  const TEST_END := 4
  const PARAM_EXCHANGE := 9
  const CREATE_STREAMS := 10
  const CLIENT_TERMINATE := 12
  const EXCHANGE_RESULTS := 13
  const DISPLAY_RESULTS := 14
  const IPERF_START := 15
  const IPERF_DONE := 16
  const ACCESS_DENIED := -1

  /** What one side reports of a stream: what it sent after the omit period, or what it received. */
  datatype Result = Result(id: nat, bytes: int)

  datatype Message =
    | State(code: int)
    | Cookie(cookie: Text)
    | Params(num: nat, reverse: bool, bidirectional: bool)
    | Results(results: seq<Result>)

  datatype Mode = Sender | Receiver | Bidirectional

  // ---- streams ----

  datatype Stream = Stream(id: nat, sender: bool, sent: int, omitted: int, received: int)

  /** iperf_add_stream at the end of a list of n streams. */
  function StreamId(n: nat): nat {
    if n == 0 then 1 else n + 2
  }

  function AddStream(streams: seq<Stream>, sender: bool): seq<Stream> {
    streams + [Stream(StreamId(|streams|), sender, 0, 0, 0)]
  }

  /** The streams part of send_results. */
  function Report(s: Stream): Result {
    Result(s.id, if s.sender then s.sent - s.omitted else s.received)
  }

  function Reports(streams: seq<Stream>): (r: seq<Result>)
    ensures |r| == |streams|
    ensures forall k :: 0 <= k < |r| ==> r[k] == Report(streams[k])
  {
    if streams == [] then [] else [Report(streams[0])] + Reports(streams[1..])
  }

  /** The first stream with an id, or the number of streams. */
  function Find(streams: seq<Stream>, id: nat): (k: nat)
    ensures k <= |streams|
    ensures k < |streams| ==> streams[k].id == id
    ensures forall j :: 0 <= j < k ==> streams[j].id != id
  {
    if streams == [] || streams[0].id == id then 0 else 1 + Find(streams[1..], id)
  }

  /** What a stream keeps of the other side's report. */
  function Learn(s: Stream, bytes: int): Stream {
    if s.sender then s.(received := bytes) else s.(sent := bytes)
  }

  /** The loop of get_results; ok is false after a report on an unknown stream. */
  function Absorb(streams: seq<Stream>, results: seq<Result>): (r: (seq<Stream>, bool))
    ensures |r.0| == |streams|
    decreases |results|
  {
    if results == [] then (streams, true)
    else
      var k := Find(streams, results[0].id);
      if k == |streams| then (Absorb(streams, results[1..]).0, false)
      else Absorb(streams[k := Learn(streams[k], results[0].bytes)], results[1..])
  }

  /** What an interval of traffic can do to the streams of one side. */
  predicate Moved(was: seq<Stream>, now: seq<Stream>) {
    && |now| == |was|
    && forall k :: 0 <= k < |was| ==>
         && now[k].id == was[k].id && now[k].sender == was[k].sender
         && if was[k].sender then now[k].received == was[k].received
            else now[k].sent == was[k].sent && now[k].omitted == was[k].omitted
  }

  // ---- the client ----

  /** toOpen holds, while iperf_create_streams is at work, the roles of the streams still to be opened. */
  datatype Client = Client(
    cookie: Text, num: nat, mode: Mode,
    connected: bool, state: int, awaitsResults: bool, toOpen: seq<bool>, streams: seq<Stream>, failed: bool)

  function Repeat<T>(x: T, n: nat): (r: seq<T>)
    ensures |r| == n && forall k :: 0 <= k < n ==> r[k] == x
  {
    if n == 0 then [] else [x] + Repeat(x, n - 1)
  }

  /** The roles of the streams that the client creates on CREATE_STREAMS. */
  function Plan(mode: Mode, num: nat): seq<bool> {
    match mode
    case Bidirectional => Repeat(true, num) + Repeat(false, num)
    case Sender => Repeat(true, num)
    case Receiver => Repeat(false, num)
  }

  function ParamsOf(c: Client): Message {
    Params(c.num, c.mode == Receiver, c.mode == Bidirectional)
  }

  /** iperf_handle_message_client, up to the point where it waits for the server, and the messages it sends. */
  function ClientHandle(c: Client, m: Message): (Client, seq<Message>) {
    if c.awaitsResults then
      match m
      case Results(results) =>
        var (streams, ok) := Absorb(c.streams, results);
        (c.(awaitsResults := false, streams := streams, failed := !ok), [])
      case _ => (c.(failed := true), [])
    else
      match m
      case State(code) =>
        var d := c.(state := code);
        if code == PARAM_EXCHANGE then (d, [ParamsOf(c)])
        else if code == CREATE_STREAMS then (d.(toOpen := Plan(c.mode, c.num)), [])
        else if code == TEST_START || code == TEST_RUNNING || code == IPERF_DONE then (d, [])
        else if code == EXCHANGE_RESULTS then (d.(awaitsResults := true), [Results(Reports(c.streams))])
        else if code == DISPLAY_RESULTS then (d.(state := IPERF_DONE), [State(IPERF_DONE)])
        else (d.(failed := true), [])
      case _ => (c.(failed := true), [])
  }

  /** One round of iperf_create_streams. */
  function ClientOpen(c: Client): Client
    requires c.toOpen != []
  {
    c.(toOpen := c.toOpen[1..], streams := AddStream(c.streams, c.toOpen[0]))
  }

  // ---- the server ----

  /** What the server waits for: select, or a read in the middle of a handler. */
  datatype Await = Select | ForCookie | ForParams | ForResults

  datatype Server = Server(
    ctrl: bool, await: Await, state: int, cookie: Text, num: nat, mode: Mode,
    toReceive: nat, toSend: nat, receiving: nat, sending: nat, streams: seq<Stream>, failed: bool)

  /** The server's mode after iperf_set_test_reverse and iperf_set_test_bidirectional, if they are called. */
  function ServerMode(mode: Mode, reverse: bool, bidirectional: bool): Mode {
    if bidirectional then Bidirectional else if reverse then Sender else mode
  }

  function ToReceive(mode: Mode, num: nat): nat {
    if mode == Sender then 0 else num
  }

  function ToSend(mode: Mode, num: nat): nat {
    if mode == Receiver then 0 else num
  }

  /** iperf_handle_message_server and the reads of iperf_accept, up to the next wait. */
  function ServerHandle(s: Server, m: Message): (Server, seq<Message>) {
    match s.await
    case ForCookie =>
      (match m
       case Cookie(cookie) =>
         (s.(cookie := cookie, state := PARAM_EXCHANGE, await := ForParams), [State(PARAM_EXCHANGE)])
       case _ => (s.(failed := true), []))
    case ForParams =>
      (match m
       case Params(num, reverse, bidirectional) =>
         var mode := ServerMode(s.mode, reverse, bidirectional);
         (s.(num := num, mode := mode, state := CREATE_STREAMS, await := Select,
             toReceive := ToReceive(mode, num), toSend := ToSend(mode, num)),
          [State(CREATE_STREAMS)])
       case _ => (s.(failed := true), []))
    case ForResults =>
      (match m
       case Results(results) =>
         var (streams, ok) := Absorb(s.streams, results);
         if ok then
           (s.(streams := streams, state := DISPLAY_RESULTS, await := Select), [Results(Reports(streams)), State(DISPLAY_RESULTS)])
         else (s.(streams := streams, failed := true), [])
       case _ => (s.(failed := true), []))
    case Select =>
      (match m
       case State(code) =>
         var t := s.(state := code);
         if code == TEST_START || code == IPERF_DONE then (t, [])
         else if code == TEST_END then (t.(state := EXCHANGE_RESULTS, await := ForResults), [State(EXCHANGE_RESULTS)])
         else if code == CLIENT_TERMINATE then (t.(state := IPERF_DONE), [])
         else (t.(failed := true), [])
       case _ => (s.(failed := true), []))
  }

  /** What becomes of an accepted connection. */
  datatype Fate = Controls | Denied | Carries | Ignored

  /** iperf_accept, or, while streams are created, iperf_tcp_accept and the counting of iperf_run_server. */
  function ServerAccept(s: Server, cookie: Text): (Server, Fate) {
    if s.state != CREATE_STREAMS then
      if !s.ctrl then (s.(ctrl := true, await := ForCookie), Controls) else (s, Denied)
    else if cookie != s.cookie then (s, Denied)
    else if s.receiving != s.toReceive then
      (s.(receiving := s.receiving + 1, streams := AddStream(s.streams, false)), Carries)
    else if s.sending != s.toSend then
      (s.(sending := s.sending + 1, streams := AddStream(s.streams, true)), Carries)
    else (s, Ignored)
  }

  // ---- both together ----

  /** A connection to the server's port, and the cookie that its maker sends on it. */
  datatype Connection = Connection(client: bool, cookie: Text)

  /** told: what the server wrote to connections other than the control connection. */
  datatype World = World(
    client: Client, server: Server, toServer: seq<Message>, toClient: seq<Message>,
    backlog: seq<Connection>, control: seq<Connection>, carriers: seq<Connection>, told: seq<(Connection, int)>)

  datatype Step =
    | Connect
    | ClientRead
    | Open
    | End
    | ClientTraffic(client: seq<Stream>)
    | Accept
    | ServerRead
    | Start
    | ServerTraffic(server: seq<Stream>)
    | Knock(cookie: Text)  // another client connects

  function Init(cookie: Text, num: nat, mode: Mode): World {
    World(Client(cookie, num, mode, false, IPERF_START, false, [], [], false),
          Server(false, Select, IPERF_START, [], 1, Receiver, 0, 0, 0, 0, [], false), [], [], [], [], [], [])
  }

  ghost predicate Enabled(w: World, step: Step) {
    var c, s := w.client, w.server;
    match step
    case Connect => !c.connected
    case ClientRead => c.connected && !c.failed && c.state != IPERF_DONE && c.toOpen == [] && w.toClient != []
    case Open => !c.failed && c.toOpen != []
    // the end condition of iperf_run_client is met
    case End => !c.failed && c.state == TEST_RUNNING
    case ClientTraffic(now) => !c.failed && c.state == TEST_RUNNING && Moved(c.streams, now)
    case Accept => !s.failed && s.state != IPERF_DONE && s.await == Select && w.backlog != []
    case ServerRead => s.ctrl && !s.failed && s.state != IPERF_DONE && w.toServer != [] && w.control == [Connection(true, c.cookie)]
    case Start => !s.failed && s.state == CREATE_STREAMS && s.receiving == s.toReceive && s.sending == s.toSend
    case ServerTraffic(now) => !s.failed && s.state == TEST_RUNNING && Moved(s.streams, now)
    // whoever comes first is the client of the test
    case Knock(cookie) => c.connected && cookie != c.cookie
  }

  function Do(w: World, step: Step): World
    requires Enabled(w, step)
  {
    var c, s := w.client, w.server;
    match step
    case Connect =>
      w.(client := c.(connected := true), toServer := w.toServer + [Cookie(c.cookie)],
         backlog := w.backlog + [Connection(true, c.cookie)])
    case ClientRead =>
      var (d, out) := ClientHandle(c, w.toClient[0]);
      w.(client := d, toClient := w.toClient[1..], toServer := w.toServer + out)
    case Open => w.(client := ClientOpen(c), backlog := w.backlog + [Connection(true, c.cookie)])
    case End => w.(client := c.(state := TEST_END), toServer := w.toServer + [State(TEST_END)])
    case ClientTraffic(now) => w.(client := c.(streams := now))
    case Accept =>
      var (t, fate) := ServerAccept(s, w.backlog[0].cookie);
      var v := w.(server := t, backlog := w.backlog[1..]);
      (match fate
       case Controls => v.(control := w.control + [w.backlog[0]])
       case Denied => v.(told := w.told + [(w.backlog[0], ACCESS_DENIED)])
       case Carries => v.(carriers := w.carriers + [w.backlog[0]])
       case Ignored => v)
    case ServerRead =>
      var (t, out) := ServerHandle(s, w.toServer[0]);
      w.(server := t, toServer := w.toServer[1..], toClient := w.toClient + out)
    case Start =>
      w.(server := s.(state := TEST_RUNNING), toClient := w.toClient + [State(TEST_START), State(TEST_RUNNING)])
    case ServerTraffic(now) => w.(server := s.(streams := now))
    case Knock(cookie) => w.(backlog := w.backlog + [Connection(false, cookie)])
  }

  ghost predicate IsRun(w: World, steps: seq<Step>)
    decreases |steps|
  {
    steps == [] || (Enabled(w, steps[0]) && IsRun(Do(w, steps[0]), steps[1..]))
  }

  ghost function After(w: World, steps: seq<Step>): World
    requires IsRun(w, steps)
    decreases |steps|
  {
    if steps == [] then w else After(Do(w, steps[0]), steps[1..])
  }

  /** Both sides have left their loops. */
  predicate Final(w: World) {
    w.client.state == IPERF_DONE && w.server.state == IPERF_DONE
  }
}
