/** What holds throughout every run of the control protocol. */
module ControlRuns {
  import opened Bytes
  import opened ControlProtocol

  // ---- where the two sides are ----

  /** How far the client has come: it connects, reads seven messages, and in between opens its streams and ends the test. */
  function ClientAt(c: Client): (p: nat)
    ensures p <= 9
  {
    if !c.connected then 0
    else if c.state == PARAM_EXCHANGE then 2
    else if c.state == CREATE_STREAMS then 3
    else if c.state == TEST_START then 4
    else if c.state == TEST_RUNNING then 5
    else if c.state == TEST_END then 6
    else if c.state == EXCHANGE_RESULTS then if c.awaitsResults then 7 else 8
    else if c.state == IPERF_DONE then 9
    else 1
  }

  function ServerAt(s: Server): (p: nat)
    ensures p <= 7
  {
    if !s.ctrl then 0
    else if s.await == ForCookie then 1
    else if s.await == ForParams then 2
    else if s.state == CREATE_STREAMS then 3
    else if s.state == TEST_RUNNING then 4
    else if s.await == ForResults then 5
    else if s.state == DISPLAY_RESULTS then 6
    else 7
  }

  /** How many messages a client there has sent, and read. */
  function ClientSent(p: nat): nat {
    if p <= 2 then p else if p <= 5 then 2 else if p == 6 then 3 else if p <= 8 then 4 else 5
  }

  function ClientHasRead(p: nat): nat {
    if p == 0 then 0 else if p <= 5 then p - 1 else if p == 6 then 4 else p - 2
  }

  function ServerSent(p: nat): nat {
    if p <= 1 then 0 else if p <= 3 then p - 1 else if p == 4 then 4 else if p == 5 then 5 else 7
  }

  function ServerHasRead(p: nat): nat {
    if p <= 1 then 0 else if p <= 3 then p - 1 else if p == 4 then 2 else p - 2
  }

  /** The i-th message that the client sends. */
  function ClientSays(c: Client, i: int): Message {
    if i == 0 then Cookie(c.cookie)
    else if i == 1 then ParamsOf(c)
    else if i == 2 then State(TEST_END)
    else if i == 3 then Results(Reports(c.streams))
    else State(IPERF_DONE)
  }

  function ServerSays(s: Server, i: int): Message {
    if i == 0 then State(PARAM_EXCHANGE)
    else if i == 1 then State(CREATE_STREAMS)
    else if i == 2 then State(TEST_START)
    else if i == 3 then State(TEST_RUNNING)
    else if i == 4 then State(EXCHANGE_RESULTS)
    else if i == 5 then Results(Reports(s.streams))
    else State(DISPLAY_RESULTS)
  }

  /** The messages on their way to the server are those that the client has sent and the server not yet read. */
  ghost predicate ToServer(c: Client, from: nat, queue: seq<Message>) {
    var to := ClientSent(ClientAt(c));
    && from <= to && |queue| == to - from
    && forall i :: 0 <= i < |queue| ==> queue[i] == ClientSays(c, from + i)
  }

  ghost predicate ToClient(s: Server, from: nat, queue: seq<Message>) {
    var to := ServerSent(ServerAt(s));
    && from <= to && |queue| == to - from
    && forall i :: 0 <= i < |queue| ==> queue[i] == ServerSays(s, from + i)
  }

  // ---- streams ----

  ghost predicate Planned(streams: seq<Stream>, plan: seq<bool>, same: bool) {
    && |streams| <= |plan|
    && forall k :: 0 <= k < |streams| ==> streams[k].id == StreamId(k) && streams[k].sender == (plan[k] == same)
  }

  ghost predicate NothingSent(streams: seq<Stream>) {
    forall k :: 0 <= k < |streams| && !streams[k].sender ==> streams[k].sent == streams[k].omitted == 0
  }

  ghost predicate ClientOk(c: Client) {
    var p, plan := ClientAt(c), Plan(c.mode, c.num);
    && !c.failed
    && c.state in {IPERF_START, PARAM_EXCHANGE, CREATE_STREAMS, TEST_START, TEST_RUNNING, TEST_END, EXCHANGE_RESULTS, IPERF_DONE}
    && (p == 0 ==> c.state == IPERF_START)
    && (c.awaitsResults ==> p == 7)
    && Planned(c.streams, plan, true)
    && (p < 3 ==> c.streams == [])
    && (p == 3 ==> c.toOpen == plan[|c.streams|..])
    && (p != 3 ==> c.toOpen == [])
    && (p > 3 ==> |c.streams| == |plan|)
    && (p < 8 ==> NothingSent(c.streams))
  }

  /** The server's side of a test that the client with that cookie has asked for. */
  ghost predicate ServerOk(s: Server, cookie: Text, num: nat, mode: Mode) {
    var p, plan := ServerAt(s), Plan(mode, num);
    && !s.failed
    && (p == 0 ==> s.state == IPERF_START && s.await == Select)
    && (p == 1 ==> s.state == IPERF_START)
    && (p == 2 ==> s.state == PARAM_EXCHANGE)
    && (p == 5 ==> s.state == EXCHANGE_RESULTS)
    && (p == 7 ==> s.state == IPERF_DONE)
    && (p in {3, 4, 6, 7} ==> s.await == Select)
    && (p < 3 ==> s.mode == Receiver && s.receiving == s.sending == 0)
    && (p >= 2 ==> s.cookie == cookie)
    && (p >= 3 ==> s.toReceive == (if mode == Receiver then 0 else num) && s.toSend == (if mode == Sender then 0 else num))
    && |s.streams| == s.receiving + s.sending
    && s.receiving <= s.toReceive && s.sending <= s.toSend && (s.sending > 0 ==> s.receiving == s.toReceive)
    && Planned(s.streams, plan, false)
    && (p < 3 ==> s.streams == [])
    && (p > 3 ==> |s.streams| == |plan|)
    && (p < 6 ==> NothingSent(s.streams))
  }

  /** The side that has taken in the other's results knows them. */
  ghost predicate Learned(mine: seq<Stream>, theirs: seq<Stream>) {
    && |mine| == |theirs|
    && forall k :: 0 <= k < |mine| ==>
         if mine[k].sender then mine[k].received == theirs[k].received
         else mine[k].omitted == 0 && mine[k].sent == theirs[k].sent - theirs[k].omitted
  }

  // ---- connections ----

  function FromClient(backlog: seq<Connection>): (n: nat)
    ensures n <= |backlog|
  {
    if backlog == [] then 0 else (if backlog[0].client then 1 else 0) + FromClient(backlog[1..])
  }

  /** The client's connections that the server has not yet accepted, and those that it has; it has accepted the control
      connection or not. */
  ghost predicate Connections(
    cookie: Text, connected: bool, accepted: bool, made: nat, counted: nat,
    backlog: seq<Connection>, control: seq<Connection>, carriers: seq<Connection>)
  {
    && (forall k :: k in backlog ==> (k.client <==> k.cookie == cookie))
    && counted <= made
    && FromClient(backlog) == (if connected && !accepted then 1 else 0) + made - counted
    && (accepted ==> connected)
    && (!accepted ==> if connected then backlog != [] && backlog[0].client else backlog == [])
    && control == (if accepted then [Connection(true, cookie)] else [])
    && |carriers| == counted
    && forall k :: k in carriers ==> k == Connection(true, cookie)
  }

  /** Outsiders, and no one else, are told ACCESS_DENIED, and nothing else. */
  ghost predicate OnlyDenied(told: seq<(Connection, int)>, cookie: Text) {
    forall t :: t in told ==> t.1 == ACCESS_DENIED && !t.0.client && t.0.cookie != cookie
  }

  ghost predicate Inv(w: World) {
    && ClientOk(w.client) && ServerOk(w.server, w.client.cookie, w.client.num, w.client.mode)
    && ToServer(w.client, ServerHasRead(ServerAt(w.server)), w.toServer)
    && ToClient(w.server, ClientHasRead(ClientAt(w.client)), w.toClient)
    && Connections(w.client.cookie, w.client.connected, ServerAt(w.server) > 0, |w.client.streams|, |w.server.streams|,
                   w.backlog, w.control, w.carriers)
    && OnlyDenied(w.told, w.client.cookie)
    && (ServerAt(w.server) >= 6 ==> Learned(w.server.streams, w.client.streams))
    && (ClientAt(w.client) >= 8 ==> Learned(w.client.streams, w.server.streams))
  }

  // ---- auxiliary facts ----

  lemma {:induction false} FromClientAppend(backlog: seq<Connection>, k: Connection)
    ensures FromClient(backlog + [k]) == FromClient(backlog) + if k.client then 1 else 0
  {
    if backlog != [] {
      FromClientAppend(backlog[1..], k);
      assert (backlog + [k])[1..] == backlog[1..] + [k];
    }
  }

  /** Taking in, from the i-th on, the reports of the streams of the other side. */
  lemma {:induction false} AbsorbFrom(mine: seq<Stream>, theirs: seq<Stream>, i: nat)
    requires |mine| == |theirs| && i <= |mine|
    requires forall k :: 0 <= k < |mine| ==> mine[k].id == theirs[k].id == StreamId(k)
    ensures var (now, ok) := Absorb(mine, Reports(theirs)[i..]);
            ok && forall k :: 0 <= k < |mine| ==> now[k] == if k < i then mine[k] else Learn(mine[k], Report(theirs[k]).bytes)
    decreases |mine| - i
  {
    var rest := Reports(theirs)[i..];
    if i < |mine| {
      assert Find(mine, StreamId(i)) == i;
      var next := mine[i := Learn(mine[i], rest[0].bytes)];
      AbsorbFrom(next, theirs, i + 1);
      assert rest[1..] == Reports(theirs)[i + 1..];
      assert Absorb(mine, rest) == Absorb(next, rest[1..]);
    }
  }

  lemma AfterLearning(now: seq<Stream>, mine: seq<Stream>, theirs: seq<Stream>, plan: seq<bool>, same: bool)
    requires Planned(mine, plan, same) && Planned(theirs, plan, !same) && |now| == |mine| == |theirs|
    requires NothingSent(mine)
    requires forall k :: 0 <= k < |now| ==> now[k] == Learn(mine[k], Report(theirs[k]).bytes)
    ensures Planned(now, plan, same) && Learned(now, theirs) && (Learned(theirs, mine) ==> Learned(theirs, now))
    ensures forall k :: 0 <= k < |now| ==> Report(now[k]) == Report(mine[k])
  {
    forall k | 0 <= k < |now|
      ensures now[k].id == mine[k].id && now[k].sender == mine[k].sender == (plan[k] == same) != theirs[k].sender
    {
      assert theirs[k].sender == (plan[k] == !same);
    }
  }

  lemma SameReports(s: seq<Stream>, t: seq<Stream>)
    requires |s| == |t| && forall k :: 0 <= k < |s| ==> Report(s[k]) == Report(t[k])
    ensures Reports(s) == Reports(t)
  {
  }

  /** After the exchange of results a side knows what the other sent and received; its own reports are unchanged. */
  lemma Exchange(mine: seq<Stream>, theirs: seq<Stream>, plan: seq<bool>, same: bool)
    requires Planned(mine, plan, same) && Planned(theirs, plan, !same) && |mine| == |theirs|
    requires NothingSent(mine)
    ensures var (now, ok) := Absorb(mine, Reports(theirs));
            && ok && Planned(now, plan, same) && |now| == |mine| && Reports(now) == Reports(mine)
            && Learned(now, theirs) && (Learned(theirs, mine) ==> Learned(theirs, now))
  {
    hide Absorb, Learned, NothingSent;
    AbsorbFrom(mine, theirs, 0);
    assert Reports(theirs)[0..] == Reports(theirs);
    var now := Absorb(mine, Reports(theirs)).0;
    AfterLearning(now, mine, theirs, plan, same);
    SameReports(now, mine);
  }

  // ---- every step keeps the invariant ----

  lemma InitOk(cookie: Text, num: nat, mode: Mode)
    ensures Inv(Init(cookie, num, mode))
  {
  }

  lemma ConnectKeeps(w: World)
    requires Inv(w) && Enabled(w, Connect)
    ensures Inv(Do(w, Connect))
  {
    FromClientAppend(w.backlog, Connection(true, w.client.cookie));
  }

  /** The client with one stream more. */
  lemma StreamOpened(c: Client)
    requires ClientOk(c) && !c.failed && c.toOpen != []
    ensures var d := ClientOpen(c);
            && ClientOk(d) && ClientAt(d) == ClientAt(c) == 3
            && forall i :: i < 3 ==> ClientSays(d, i) == ClientSays(c, i)
  {
    hide Reports;
  }

  lemma OpenKeeps(w: World)
    requires Inv(w) && Enabled(w, Open)
    ensures Inv(Do(w, Open))
  {
    hide ClientOk, ServerOk, ToClient, ClientSays, Learned, OnlyDenied;
    StreamOpened(w.client);
    FromClientAppend(w.backlog, Connection(true, w.client.cookie));
  }

  lemma EndKeeps(w: World)
    requires Inv(w) && Enabled(w, End)
    ensures Inv(Do(w, End))
  {
    hide ServerOk, ToClient, Learned, Planned, Plan, NothingSent, Connections, OnlyDenied, Reports;
  }

  lemma ClientTrafficKeeps(w: World, step: Step)
    requires Inv(w) && Enabled(w, step) && step.ClientTraffic?
    ensures Inv(Do(w, step))
  {
    hide ServerOk, ToClient, Learned, Connections, OnlyDenied, Reports, Plan;
  }

  lemma ServerTrafficKeeps(w: World, step: Step)
    requires Inv(w) && Enabled(w, step) && step.ServerTraffic?
    ensures Inv(Do(w, step))
  {
    hide ClientOk, ToServer, Learned, Connections, OnlyDenied, Reports, Plan;
  }

  lemma KnockKeeps(w: World, cookie: Text)
    requires Inv(w) && Enabled(w, Knock(cookie))
    ensures Inv(Do(w, Knock(cookie)))
  {
    hide ClientOk, ServerOk, ToServer, ToClient, Learned, OnlyDenied;
    FromClientAppend(w.backlog, Connection(false, cookie));
  }

  lemma StartKeeps(w: World)
    requires Inv(w) && Enabled(w, Start)
    ensures Inv(Do(w, Start))
  {
    hide ClientOk, ToServer, Learned, Planned, Connections, OnlyDenied, NothingSent, Reports;
  }

  lemma ControlKeeps(w: World)
    requires Inv(w) && Enabled(w, Accept) && ServerAccept(w.server, w.backlog[0].cookie).1 == Controls
    ensures Inv(Do(w, Accept))
  {
    hide ClientOk, ToServer, Learned, Planned, OnlyDenied, NothingSent, Reports, Plan;
    assert ServerAt(w.server) == 0;
  }

  /** Connections of the client meet the server either at the beginning or while it creates streams. */
  lemma NoneWaiting(w: World)
    requires Inv(w) && ServerAt(w.server) > 3
    ensures FromClient(w.backlog) == 0
  {
    hide Learned, NothingSent, OnlyDenied, Reports;
  }

  lemma OnlyOthersDenied(w: World)
    requires Inv(w) && Enabled(w, Accept) && ServerAccept(w.server, w.backlog[0].cookie).1 == Denied
    ensures !w.backlog[0].client && ServerAt(w.server) > 0
  {
    hide ClientOk, ToServer, ToClient, Learned, Planned, NothingSent, Plan;
    if ServerAt(w.server) > 3 {
      NoneWaiting(w);
    }
  }

  lemma DenialKeeps(w: World)
    requires Inv(w) && Enabled(w, Accept) && ServerAccept(w.server, w.backlog[0].cookie).1 == Denied
    ensures Inv(Do(w, Accept))
    ensures !w.backlog[0].client
  {
    hide ClientOk, ServerOk, ToServer, ToClient, Learned, ServerAt;
    OnlyOthersDenied(w);
  }

  /** A connection with the client's cookie meets a server that still wants a stream. */
  lemma Wanted(w: World)
    requires Inv(w) && Enabled(w, Accept) && ServerAccept(w.server, w.backlog[0].cookie).1 in {Carries, Ignored}
    ensures ServerAt(w.server) == 3 && w.backlog[0].client && |w.server.streams| < |w.client.streams|
    ensures ServerAccept(w.server, w.backlog[0].cookie).1 == Carries
  {
    hide ServerSays, ClientSays, Learned, Absorb, Reports, NothingSent;
  }

  /** The server with one stream more. */
  lemma StreamAccepted(s: Server, cookie: Text, num: nat, mode: Mode)
    requires ServerOk(s, cookie, num, mode) && ServerAt(s) == 3 && ServerAccept(s, cookie).1 == Carries
    ensures var t := ServerAccept(s, cookie).0;
            && ServerOk(t, cookie, num, mode) && ServerAt(t) == 3 && |t.streams| == |s.streams| + 1
            && forall i :: i < 5 ==> ServerSays(t, i) == ServerSays(s, i)
  {
    hide Reports;
  }

  lemma CarrierKeeps(w: World)
    requires Inv(w) && Enabled(w, Accept) && ServerAccept(w.server, w.backlog[0].cookie).1 in {Carries, Ignored}
    ensures Inv(Do(w, Accept))
  {
    hide ClientOk, ServerOk, ServerAccept, ToServer, ServerSays, Learned, OnlyDenied, Planned;
    Wanted(w);
    StreamAccepted(w.server, w.client.cookie, w.client.num, w.client.mode);
  }

  lemma AcceptKeeps(w: World)
    requires Inv(w) && Enabled(w, Accept)
    ensures Inv(Do(w, Accept))
  {
    var fate := ServerAccept(w.server, w.backlog[0].cookie).1;
    if fate == Controls {
      ControlKeeps(w);
    } else if fate == Denied {
      DenialKeeps(w);
    } else {
      CarrierKeeps(w);
    }
  }

  lemma ClientStateKeeps(w: World)
    requires Inv(w) && Enabled(w, ClientRead) && !w.client.awaitsResults
    ensures Inv(Do(w, ClientRead))
  {
    hide ServerOk, Learned, NothingSent, Reports, Connections, OnlyDenied, Absorb;
    assert w.toClient[0] == ServerSays(w.server, ClientHasRead(ClientAt(w.client)));
  }

  lemma ClientAwaits(w: World)
    requires Inv(w) && Enabled(w, ClientRead) && w.client.awaitsResults
    ensures ClientAt(w.client) == 7 && w.toClient[0] == ServerSays(w.server, 5) && |w.client.streams| == |w.server.streams|
    ensures Planned(w.client.streams, Plan(w.client.mode, w.client.num), true) && NothingSent(w.client.streams)
    ensures Planned(w.server.streams, Plan(w.client.mode, w.client.num), false)
    ensures ServerAt(w.server) >= 6
  {
    hide Planned, Plan, Connections, OnlyDenied, Learned, NothingSent, Absorb, Reports;
  }

  lemma ClientResultsKeep(w: World)
    requires Inv(w) && Enabled(w, ClientRead) && w.client.awaitsResults
    ensures Inv(Do(w, ClientRead))
  {
    hide ServerOk, Connections, OnlyDenied, NothingSent, Planned, Learned, Absorb, Reports, Plan;
    ClientAwaits(w);
    Exchange(w.client.streams, w.server.streams, Plan(w.client.mode, w.client.num), true);
  }

  lemma ClientReadKeeps(w: World)
    requires Inv(w) && Enabled(w, ClientRead)
    ensures Inv(Do(w, ClientRead))
  {
    if w.client.awaitsResults {
      ClientResultsKeep(w);
    } else {
      ClientStateKeeps(w);
    }
  }

  lemma ServerStateKeeps(w: World)
    requires Inv(w) && Enabled(w, ServerRead) && w.server.await != ForResults
    ensures Inv(Do(w, ServerRead))
  {
    hide ClientOk, Learned, Reports, Connections, OnlyDenied, Absorb, StreamId;
    assert w.toServer[0] == ClientSays(w.client, ServerHasRead(ServerAt(w.server)));
  }

  lemma ResultsHandled(s: Server, results: seq<Result>, now: seq<Stream>)
    requires s.await == ForResults && Absorb(s.streams, results) == (now, true)
    ensures ServerHandle(s, Results(results))
         == (s.(streams := now, state := DISPLAY_RESULTS, await := Select), [Results(Reports(now)), State(DISPLAY_RESULTS)])
  {
    hide Absorb, Reports;
  }

  lemma DisplaysResults(s: Server, now: seq<Stream>, cookie: Text, num: nat, mode: Mode)
    requires ServerOk(s, cookie, num, mode) && ServerAt(s) == 5
    requires Planned(now, Plan(mode, num), false) && |now| == |s.streams|
    ensures var t := s.(streams := now, state := DISPLAY_RESULTS, await := Select);
            ServerOk(t, cookie, num, mode) && ServerAt(t) == 6
  {
    hide NothingSent;
  }

  lemma AbsorbLength(streams: seq<Stream>)
    ensures forall results :: |Absorb(streams, results).0| == |streams|
  {
  }

  lemma ReadyToExchange(s: Server, cookie: Text, num: nat, mode: Mode)
    requires ServerOk(s, cookie, num, mode) && ServerAt(s) == 5
    ensures s.await == ForResults && Planned(s.streams, Plan(mode, num), false) && NothingSent(s.streams)
  {
    hide Planned, NothingSent;
  }

  /** The server with the results of the client. */
  lemma ResultsTaken(s: Server, theirs: seq<Stream>, cookie: Text, num: nat, mode: Mode)
    requires ServerOk(s, cookie, num, mode) && ServerAt(s) == 5
    requires Planned(theirs, Plan(mode, num), true) && |theirs| == |s.streams|
    ensures var (t, out) := ServerHandle(s, Results(Reports(theirs)));
            && ServerOk(t, cookie, num, mode) && ServerAt(t) == 6
            && |t.streams| == |s.streams| && Learned(t.streams, theirs)
            && out == [Results(Reports(t.streams)), State(DISPLAY_RESULTS)]
  {
    hide ServerHandle, ServerOk, ServerAt, Planned, NothingSent, Learned, Absorb, Reports;
    ReadyToExchange(s, cookie, num, mode);
    Exchange(s.streams, theirs, Plan(mode, num), false);
    AbsorbLength(s.streams);
    var now := Absorb(s.streams, Reports(theirs)).0;
    DisplaysResults(s, now, cookie, num, mode);
    ResultsHandled(s, Reports(theirs), now);
  }

  lemma ServerAwaits(w: World)
    requires Inv(w) && Enabled(w, ServerRead) && w.server.await == ForResults
    ensures ServerAt(w.server) == 5 && w.toServer[0] == ClientSays(w.client, 3) && |w.client.streams| == |w.server.streams|
    ensures Planned(w.client.streams, Plan(w.client.mode, w.client.num), true)
  {
    hide Planned, Plan, Connections, OnlyDenied, Learned, NothingSent, Absorb, Reports;
  }

  lemma ServerResultsKeep(w: World)
    requires Inv(w) && Enabled(w, ServerRead) && w.server.await == ForResults
    ensures Inv(Do(w, ServerRead))
  {
    hide ClientOk, ServerOk, ServerHandle, Connections, OnlyDenied, Plan, Planned, Learned, Reports;
    ServerAwaits(w);
    ResultsTaken(w.server, w.client.streams, w.client.cookie, w.client.num, w.client.mode);
  }

  lemma ServerReadKeeps(w: World)
    requires Inv(w) && Enabled(w, ServerRead)
    ensures Inv(Do(w, ServerRead))
  {
    if w.server.await == ForResults {
      ServerResultsKeep(w);
    } else {
      ServerStateKeeps(w);
    }
  }

  lemma StepKeeps(w: World, step: Step)
    requires Inv(w) && Enabled(w, step)
    ensures Inv(Do(w, step))
  {
    hide Inv, Do, Enabled;
    match step
    case Connect => ConnectKeeps(w);
    case ClientRead => ClientReadKeeps(w);
    case Open => OpenKeeps(w);
    case End => EndKeeps(w);
    case ClientTraffic(_) => ClientTrafficKeeps(w, step);
    case Accept => AcceptKeeps(w);
    case ServerRead => ServerReadKeeps(w);
    case Start => StartKeeps(w);
    case ServerTraffic(_) => ServerTrafficKeeps(w, step);
    case Knock(cookie) => KnockKeeps(w, cookie);
  }

  // ---- progress ----

  /** The steps that belong to the test itself: not traffic, and not the coming and going of other clients. */
  ghost predicate Advances(w: World, step: Step)
    requires Enabled(w, step)
  {
    match step
    case ClientTraffic(_) => false
    case ServerTraffic(_) => false
    case Knock(_) => false
    case Accept => w.backlog[0].client
    case _ => true
  }

  /** How many of them are still to come. */
  function Remaining(w: World): int {
    var all := |Plan(w.client.mode, w.client.num)|;
    9 - ClientAt(w.client) + 7 - ServerAt(w.server) + 2 * all - |w.client.streams| - |w.server.streams|
  }

  lemma ClientAdvances(w: World)
    requires Inv(w) && Enabled(w, ClientRead)
    ensures Remaining(Do(w, ClientRead)) == Remaining(w) - 1
  {
    hide Planned, ServerOk, Learned, NothingSent, Reports, FromClient, Plan, Connections, OnlyDenied, Absorb;
    assert w.toClient[0] == ServerSays(w.server, ClientHasRead(ClientAt(w.client)));
    AbsorbLength(w.client.streams);
  }

  lemma ServerAdvances(w: World)
    requires Inv(w) && Enabled(w, ServerRead)
    ensures Remaining(Do(w, ServerRead)) == Remaining(w) - 1
  {
    hide Planned, ClientOk, Learned, NothingSent, Reports, FromClient, Plan, Connections, OnlyDenied, Absorb;
    assert w.toServer[0] == ClientSays(w.client, ServerHasRead(ServerAt(w.server)));
    AbsorbLength(w.server.streams);
    ServerReadKeeps(w);
  }

  lemma AcceptAdvances(w: World)
    requires Inv(w) && Enabled(w, Accept)
    ensures Remaining(Do(w, Accept)) == Remaining(w) - if w.backlog[0].client then 1 else 0
  {
    hide Planned, ClientOk, Learned, NothingSent, Plan, OnlyDenied, ToServer, ToClient;
    var fate := ServerAccept(w.server, w.backlog[0].cookie).1;
    if fate == Denied {
      DenialKeeps(w);
    } else if fate != Controls {
      Wanted(w);
    }
  }

  lemma OtherAdvances(w: World, step: Step)
    requires Inv(w) && Enabled(w, step) && !step.ClientRead? && !step.ServerRead? && !step.Accept?
    ensures Remaining(Do(w, step)) == Remaining(w) - if Advances(w, step) then 1 else 0
  {
    hide Planned, Learned, NothingSent, Plan, OnlyDenied, Connections;
  }

  /** Each of them takes one of these from its place to the next, or opens or counts one stream. */
  lemma RemainingFalls(w: World, step: Step)
    requires Inv(w) && Enabled(w, step)
    ensures Remaining(Do(w, step)) == Remaining(w) - if Advances(w, step) then 1 else 0
  {
    match step
    case ClientRead => ClientAdvances(w);
    case ServerRead => ServerAdvances(w);
    case Accept => AcceptAdvances(w);
    case _ => OtherAdvances(w, step);
  }

  lemma NoneRemaining(w: World)
    requires Inv(w)
    ensures Remaining(w) >= 0
    ensures Remaining(w) == 0 <==> Final(w)
  {
  }

  /** A step with which a test that is not over can go on. */
  function NextStep(w: World): Step {
    var c, at := w.client, ServerAt(w.server);
    if !c.connected then Connect
    else if c.toOpen != [] then Open
    else if c.state == TEST_RUNNING then End
    else if c.state != IPERF_DONE && w.toClient != [] then ClientRead
    else if at == 0 || (at == 3 && w.backlog != []) then Accept
    else if at == 3 then Start
    else ServerRead
  }

  /** Unless both sides are done, the test can go on, if need be after another client has been turned away. */
  lemma NeverStuck(w: World)
    requires Inv(w) && !Final(w)
    ensures var step := NextStep(w);
            Enabled(w, step) && (Advances(w, step) || (step == Accept && !w.backlog[0].client))
  {
    hide Planned, Learned, NothingSent, OnlyDenied;
  }
}
