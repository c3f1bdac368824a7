/** The two sides as the programs run them: objects that change their fields and write to the control connection
    as they handle each message. Each method does what the process of ControlProtocol does in one step. */
module ControlParties {
  import opened Bytes
  import opened ControlProtocol

  /** One direction of the control connection. */
  class Wire {
    var queue: seq<Message>

    constructor ()
      ensures queue == []
    {
      queue := [];
    }

    method Send(m: Message)
      modifies this
      ensures queue == old(queue) + [m]
    {
      queue := queue + [m];
    }

    method Receive() returns (m: Message)
      requires queue != []
      modifies this
      ensures m == old(queue[0]) && queue == old(queue[1..])
    {
      m := queue[0];
      queue := queue[1..];
    }
  }

  /** The server's listening socket. */
  class Port {
    var backlog: seq<Connection>

    constructor ()
      ensures backlog == []
    {
      backlog := [];
    }

    method Dial(k: Connection)
      modifies this
      ensures backlog == old(backlog) + [k]
    {
      backlog := backlog + [k];
    }

    method Take() returns (k: Connection)
      requires backlog != []
      modifies this
      ensures k == old(backlog[0]) && backlog == old(backlog[1..])
    {
      k := backlog[0];
      backlog := backlog[1..];
    }
  }

  /** The list of streams of a test. */
  class Streams {
    var list: seq<Stream>

    constructor ()
      ensures list == []
    {
      list := [];
    }

    /** iperf_add_stream: the counter starts at 2 and moves on once for every stream that is there. */
    method Add(sender: bool)
      modifies this
      ensures list == AddStream(old(list), sender)
    {
      var id := 1;
      if list != [] {
        id := 2;
        for n := 0 to |list|
          invariant id == n + 2
        {
          id := id + 1;
        }
      }
      list := list + [Stream(id, sender, 0, 0, 0)];
    }

    method FindStream(id: nat) returns (k: nat)
      ensures k == Find(list, id)
    {
      k := 0;
      while k < |list| && list[k].id != id
        invariant k <= |list| && forall j :: 0 <= j < k ==> list[j].id != id
      {
        k := k + 1;
      }
    }

    /** The loop of get_results. */
    method GetResults(results: seq<Result>) returns (ok: bool)
      modifies this
      ensures (list, ok) == Absorb(old(list), results)
    {
      ok := true;
      for n := 0 to |results|
        invariant Absorb(old(list), results) == (Absorb(list, results[n..]).0, ok && Absorb(list, results[n..]).1)
      {
        assert results[n..][1..] == results[n + 1..];
        var k := FindStream(results[n].id);
        if k == |list| {
          ok := false;
        } else {
          list := list[k := Learn(list[k], results[n].bytes)];
        }
      }
    }

    /** The loop of send_results. */
    method SendResults() returns (results: seq<Result>)
      ensures results == Reports(list)
    {
      results := [];
      for n := 0 to |list|
        invariant |results| == n && forall k :: 0 <= k < n ==> results[k] == Report(list[k])
      {
        results := results + [Report(list[n])];
      }
    }
  }

  // ---- the client ----

  /** The client after it has opened all the streams that it is to open. */
  function OpenRest(c: Client): Client
    decreases |c.toOpen|
  {
    if c.toOpen == [] then c else OpenRest(ClientOpen(c))
  }

  function Opens(n: nat): seq<Step> {
    if n == 0 then [] else [Open] + Opens(n - 1)
  }

  /** Opening them all is what the steps Open do one by one. */
  lemma {:induction false} OpenRestIsOpens(w: World)
    requires !w.client.failed
    ensures IsRun(w, Opens(|w.client.toOpen|))
    ensures After(w, Opens(|w.client.toOpen|))
         == w.(client := OpenRest(w.client), backlog := w.backlog + Repeat(Connection(true, w.client.cookie), |w.client.toOpen|))
    decreases |w.client.toOpen|
  {
    var k := Connection(true, w.client.cookie);
    if w.client.toOpen == [] {
      assert w.backlog + Repeat(k, 0) == w.backlog;
    } else {
      OpenRestIsOpens(Do(w, Open));
      var n := |w.client.toOpen|;
      assert w.backlog + [k] + Repeat(k, n - 1) == w.backlog + Repeat(k, n);
    }
  }

  class ClientTest {
    const cookie: Text
    const num: nat
    const mode: Mode
    const streams: Streams
    var connected: bool
    var state: int
    var awaitsResults: bool
    var failed: bool

    function Value(): Client
      reads this, streams
    {
      Client(cookie, num, mode, connected, state, awaitsResults, [], streams.list, failed)
    }

    constructor (cookie: Text, num: nat, mode: Mode)
      ensures Value() == Init(cookie, num, mode).client && fresh(streams)
    {
      this.cookie, this.num, this.mode := cookie, num, mode;
      this.streams := new Streams();
      connected, state, awaitsResults, failed := false, IPERF_START, false, false;
    }

    /** iperf_set_send_state. */
    method SetSendState(code: int, out: Wire)
      modifies this`state, out
      ensures state == code && out.queue == old(out.queue) + [State(code)]
    {
      state := code;
      out.Send(State(code));
    }

    /** iperf_connect. */
    method Connect(out: Wire, port: Port)
      modifies this`connected, out, port
      ensures Value() == old(Value()).(connected := true)
      ensures out.queue == old(out.queue) + [Cookie(cookie)]
      ensures port.backlog == old(port.backlog) + [Connection(true, cookie)]
    {
      connected := true;
      port.Dial(Connection(true, cookie));
      out.Send(Cookie(cookie));
    }

    /** iperf_create_streams, as the steps Open of the process. */
    method CreateStreams(sender: bool, port: Port, ghost rest: seq<bool>)
      modifies streams, port
      ensures OpenRest(Value().(toOpen := rest)) == OpenRest(old(Value()).(toOpen := Repeat(sender, num) + rest))
      ensures port.backlog == old(port.backlog) + Repeat(Connection(true, cookie), num)
    {
      ghost var all := Repeat(sender, num) + rest;
      assert all == Repeat(sender, num - 0) + rest;
      for i := 0 to num
        invariant OpenRest(old(Value()).(toOpen := all)) == OpenRest(Value().(toOpen := Repeat(sender, num - i) + rest))
        invariant port.backlog == old(port.backlog) + Repeat(Connection(true, cookie), i)
      {
        ghost var now := Repeat(sender, num - i) + rest;
        assert now[0] == sender && now[1..] == Repeat(sender, num - (i + 1)) + rest;
        ghost var before := Value().(toOpen := now);
        port.Dial(Connection(true, cookie));
        streams.Add(sender);
        assert Value().(toOpen := now[1..]) == ClientOpen(before);
      }
      assert Repeat(sender, 0) + rest == rest;
    }

    /** The branch of the message handler for CREATE_STREAMS. */
    method CreateAll(port: Port)
      modifies streams, port
      ensures Value() == OpenRest(old(Value()).(toOpen := Plan(mode, num)))
      ensures port.backlog == old(port.backlog) + Repeat(Connection(true, cookie), |Plan(mode, num)|)
    {
      var k := Connection(true, cookie);
      if mode == Bidirectional {
        assert Repeat(false, num) + [] == Repeat(false, num);
        CreateStreams(true, port, Repeat(false, num));
        CreateStreams(false, port, []);
        assert Repeat(k, num) + Repeat(k, num) == Repeat(k, num + num);
      } else {
        assert Repeat(mode == Sender, num) + [] == Repeat(mode == Sender, num);
        CreateStreams(mode == Sender, port, []);
      }
    }

    /** iperf_handle_message_client, outside an exchange of results. */
    method HandleMessage(inbox: Wire, out: Wire, port: Port)
      requires inbox != out && inbox.queue != [] && !awaitsResults
      modifies this, streams, inbox, out, port
      ensures inbox.queue == old(inbox.queue[1..])
      ensures var (c, sent) := ClientHandle(old(Value()), old(inbox.queue[0]));
              && Value() == OpenRest(c) && out.queue == old(out.queue) + sent
              && port.backlog == old(port.backlog) + Repeat(Connection(true, cookie), |c.toOpen|)
    {
      assert port.backlog + Repeat(Connection(true, cookie), 0) == port.backlog;
      var m := inbox.Receive();
      if !m.State? {
        failed := true;
        return;
      }
      state := m.code;
      if state == PARAM_EXCHANGE {
        out.Send(Params(num, mode == Receiver, mode == Bidirectional));
      } else if state == CREATE_STREAMS {
        CreateAll(port);
      } else if state == EXCHANGE_RESULTS {
        var results := streams.SendResults();
        out.Send(Results(results));
        awaitsResults := true;
      } else if state == DISPLAY_RESULTS {
        SetSendState(IPERF_DONE, out);
      } else if state != TEST_START && state != TEST_RUNNING && state != IPERF_DONE {
        failed := true;
      }
    }

    /** The second half of iperf_exchange_results. */
    method GetResults(inbox: Wire)
      requires inbox.queue != [] && awaitsResults
      modifies this, streams, inbox
      ensures inbox.queue == old(inbox.queue[1..])
      ensures (Value(), []) == ClientHandle(old(Value()), old(inbox.queue[0]))
    {
      var m := inbox.Receive();
      if m.Results? {
        var ok := streams.GetResults(m.results);
        awaitsResults, failed := false, !ok;
      } else {
        failed := true;
      }
    }

    /** The end of the test in iperf_run_client. */
    method End(out: Wire)
      modifies this, out
      ensures Value() == old(Value()).(state := TEST_END) && out.queue == old(out.queue) + [State(TEST_END)]
    {
      SetSendState(TEST_END, out);
    }
  }

  // ---- the server ----

  class ServerTest {
    const streams: Streams
    var ctrl: bool
    var await: Await
    var state: int
    var cookie: Text
    var num: nat
    var mode: Mode
    var toReceive: nat
    var toSend: nat
    var receiving: nat
    var sending: nat
    var failed: bool

    function Value(): Server
      reads this, streams
    {
      Server(ctrl, await, state, cookie, num, mode, toReceive, toSend, receiving, sending, streams.list, failed)
    }

    constructor ()
      ensures Value() == Init([], 0, Sender).server && fresh(streams)
    {
      this.streams := new Streams();
      ctrl, await, state, cookie, num, mode := false, Select, IPERF_START, [], 1, Receiver;
      toReceive, toSend, receiving, sending, failed := 0, 0, 0, 0, false;
    }

    method SetSendState(code: int, out: Wire)
      modifies this`state, out
      ensures state == code && out.queue == old(out.queue) + [State(code)]
    {
      state := code;
      out.Send(State(code));
    }

    /** A new connection: iperf_accept, or the accepting part of iperf_run_server. */
    method AcceptConnection(port: Port) returns (k: Connection, fate: Fate)
      requires port.backlog != [] && await == Select
      modifies this, streams, port
      ensures k == old(port.backlog[0]) && port.backlog == old(port.backlog[1..])
      ensures (Value(), fate) == ServerAccept(old(Value()), k.cookie)
    {
      k := port.Take();
      if state != CREATE_STREAMS {
        if ctrl {
          fate := Denied;
        } else {
          ctrl, await, fate := true, ForCookie, Controls;
        }
      } else if k.cookie != cookie {
        fate := Denied;
      } else if receiving != toReceive {
        receiving, fate := receiving + 1, Carries;
        streams.Add(false);
      } else if sending != toSend {
        sending, fate := sending + 1, Carries;
        streams.Add(true);
      } else {
        fate := Ignored;
      }
    }

    /** iperf_accept once the cookie has come, up to the reading of the parameters. */
    method ReadCookie(inbox: Wire, out: Wire)
      requires inbox != out && inbox.queue != [] && await == ForCookie
      modifies this, inbox, out
      ensures inbox.queue == old(inbox.queue[1..])
      ensures var (s, sent) := ServerHandle(old(Value()), old(inbox.queue[0]));
              Value() == s && out.queue == old(out.queue) + sent
    {
      var m := inbox.Receive();
      if m.Cookie? {
        cookie, await := m.cookie, ForParams;
        SetSendState(PARAM_EXCHANGE, out);
      } else {
        failed := true;
      }
    }

    /** iperf_set_test_reverse and iperf_set_test_bidirectional, as the parameters ask for them. */
    method SetMode(reverse: bool, bidirectional: bool)
      modifies this`mode
      ensures mode == ServerMode(old(mode), reverse, bidirectional)
    {
      if reverse {
        mode := Sender;
      }
      if bidirectional {
        mode := Bidirectional;
      }
    }

    /** Set streams number in iperf_run_server. */
    method SetStreamNumbers()
      modifies this`toReceive, this`toSend
      ensures toReceive == ToReceive(mode, num) && toSend == ToSend(mode, num)
    {
      if mode == Bidirectional {
        toSend, toReceive := num, num;
      } else if mode == Receiver {
        toReceive, toSend := num, 0;
      } else {
        toSend, toReceive := num, 0;
      }
    }

    /** What follows the reading of the parameters in get_parameters, iperf_exchange_parameters and iperf_run_server. */
    method TakeParameters(m: Message, out: Wire)
      requires m.Params? && await == ForParams
      modifies this, out
      ensures Value() == ServerHandle(old(Value()), m).0 && out.queue == old(out.queue) + [State(CREATE_STREAMS)]
    {
      hide ServerMode, ToReceive, ToSend;
      num, await := m.num, Select;
      SetMode(m.reverse, m.bidirectional);
      SetSendState(CREATE_STREAMS, out);
      SetStreamNumbers();
    }

    /** get_parameters. */
    method GetParameters(inbox: Wire, out: Wire)
      requires inbox != out && inbox.queue != [] && await == ForParams
      modifies this, inbox, out
      ensures inbox.queue == old(inbox.queue[1..])
      ensures var (s, sent) := ServerHandle(old(Value()), old(inbox.queue[0]));
              Value() == s && out.queue == old(out.queue) + sent
    {
      hide ServerMode, ToReceive, ToSend;
      var m := inbox.Receive();
      if m.Params? {
        TakeParameters(m, out);
      } else {
        failed := true;
      }
    }

    /** The beginning of the test in iperf_run_server, once all streams have come. */
    method Start(out: Wire)
      requires state == CREATE_STREAMS && receiving == toReceive && sending == toSend
      modifies this`state, out
      ensures Value() == old(Value()).(state := TEST_RUNNING)
      ensures out.queue == old(out.queue) + [State(TEST_START), State(TEST_RUNNING)]
    {
      SetSendState(TEST_START, out);
      SetSendState(TEST_RUNNING, out);
    }

    /** iperf_handle_message_server, up to the reading of the results. */
    method HandleMessage(inbox: Wire, out: Wire)
      requires inbox != out && inbox.queue != [] && await == Select
      modifies this, inbox, out
      ensures inbox.queue == old(inbox.queue[1..])
      ensures var (s, sent) := ServerHandle(old(Value()), old(inbox.queue[0]));
              Value() == s && out.queue == old(out.queue) + sent
    {
      var m := inbox.Receive();
      if !m.State? {
        failed := true;
        return;
      }
      state := m.code;
      if state == TEST_END {
        SetSendState(EXCHANGE_RESULTS, out);
        await := ForResults;
      } else if state == CLIENT_TERMINATE {
        state := IPERF_DONE;
      } else if state != TEST_START && state != IPERF_DONE {
        failed := true;
      }
    }

    /** iperf_exchange_results and the rest of the message handler. */
    method ExchangeResults(inbox: Wire, out: Wire)
      requires inbox != out && inbox.queue != [] && await == ForResults
      modifies this, streams, inbox, out
      ensures inbox.queue == old(inbox.queue[1..])
      ensures var (s, sent) := ServerHandle(old(Value()), old(inbox.queue[0]));
              Value() == s && out.queue == old(out.queue) + sent
    {
      var m := inbox.Receive();
      if !m.Results? {
        failed := true;
        return;
      }
      var ok := streams.GetResults(m.results);
      if !ok {
        failed := true;
        return;
      }
      var results := streams.SendResults();
      out.Send(Results(results));
      SetSendState(DISPLAY_RESULTS, out);
      await := Select;
    }
  }
}
