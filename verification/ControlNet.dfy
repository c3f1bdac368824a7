/** One client and one server of ControlParties on a network: whatever the order in which their handlers are called, the
    objects go through a run of the processes, so that what holds for every run holds for them. */
module ControlNet {
  import opened Bytes
  import opened ControlProtocol
  import opened ControlRuns
  import opened ControlParties
  import ControlTheorems

  /** What a scheduler may let happen next; a call for which there is nothing to do has no effect. */
  datatype Call =
    | ClientConnects
    | ClientHandles
    | ClientEnds
    | ClientMoves(client: seq<Stream>)
    | ServerAccepts
    | ServerHandles
    | ServerStarts
    | ServerMoves(server: seq<Stream>)
    | AnotherConnects(cookie: Text)

  /** The step that a call asks for; the opening of streams may follow it. */
  function Asked(call: Call): Step {
    match call
    case ClientConnects => ControlProtocol.Connect
    case ClientHandles => ClientRead
    case ClientEnds => End
    case ClientMoves(now) => ClientTraffic(now)
    case ServerAccepts => Accept
    case ServerHandles => ServerRead
    case ServerStarts => Start
    case ServerMoves(now) => ServerTraffic(now)
    case AnotherConnects(cookie) => Knock(cookie)
  }

  ghost predicate Answers(w: World, call: Call, steps: seq<Step>) {
    if !Enabled(w, Asked(call)) then steps == []
    else if call == ClientHandles then steps == [ClientRead] + Opens(|Do(w, ClientRead).client.toOpen|)
    else steps == [Asked(call)]
  }

  lemma ControlOfClient(w: World)
    requires Inv(w)
    ensures w.server.ctrl ==> w.control == [Connection(true, w.client.cookie)]
  {
  }

  lemma OneStep(w: World, step: Step)
    requires Enabled(w, step)
    ensures IsRun(w, [step]) && After(w, [step]) == Do(w, step)
  {
    assert [step][1..] == [];
  }

  /** Reading a message and opening the streams that it asks for. */
  lemma ReadAndOpen(w: World)
    requires Inv(w) && Enabled(w, ClientRead)
    ensures var read := Do(w, ClientRead);
            var steps := [ClientRead] + Opens(|read.client.toOpen|);
            && IsRun(w, steps)
            && After(w, steps)
               == read.(client := OpenRest(read.client),
                        backlog := read.backlog + Repeat(Connection(true, read.client.cookie), |read.client.toOpen|))
  {
    hide Inv, Do, Enabled, OpenRest;
    var read := Do(w, ClientRead);
    var steps := [ClientRead] + Opens(|read.client.toOpen|);
    ClientReadKeeps(w);
    assert !read.client.failed by { ControlTheorems.Expected(read); }
    OpenRestIsOpens(read);
    assert steps[0] == ClientRead && steps[1..] == Opens(|read.client.toOpen|);
  }

  lemma {:induction false} RunAppend(w: World, steps: seq<Step>, more: seq<Step>)
    requires IsRun(w, steps) && IsRun(After(w, steps), more)
    ensures IsRun(w, steps + more) && After(w, steps + more) == After(After(w, steps), more)
    decreases |steps|
  {
    if steps == [] {
      assert steps + more == more;
    } else {
      assert (steps + more)[1..] == steps[1..] + more;
      RunAppend(Do(w, steps[0]), steps[1..], more);
    }
  }

  class Net {
    const client: ClientTest
    const server: ServerTest
    const toServer: Wire
    const toClient: Wire
    const port: Port
    ghost var control: seq<Connection>
    ghost var carriers: seq<Connection>
    ghost var told: seq<(Connection, int)>

    ghost function World(): World
      reads this, client, client.streams, server, server.streams, toServer, toClient, port
    {
      ControlProtocol.World(client.Value(), server.Value(), toServer.queue, toClient.queue, port.backlog, control, carriers, told)
    }

    ghost predicate Valid()
      reads this, client, client.streams, server, server.streams, toServer, toClient, port
    {
      client.streams != server.streams && toServer != toClient && Inv(World())
    }

    constructor (cookie: Text, num: nat, mode: Mode)
      ensures fresh(client) && fresh(client.streams) && fresh(server) && fresh(server.streams)
      ensures fresh(toServer) && fresh(toClient) && fresh(port)
      ensures Valid() && World() == Init(cookie, num, mode)
    {
      client := new ClientTest(cookie, num, mode);
      server := new ServerTest();
      toServer := new Wire();
      toClient := new Wire();
      port := new Port();
      control, carriers, told := [], [], [];
      new;
      InitOk(cookie, num, mode);
    }

    /** The connection is made. */
    method Connect()
      requires Valid() && Enabled(World(), ControlProtocol.Connect)
      modifies client, toServer, port
      ensures World() == Do(old(World()), ControlProtocol.Connect)
    {
      hide Inv;
      client.Connect(toServer, port);
    }

    /** A message for the client; streams that it is to open are opened at once. */
    method ClientHandle() returns (ghost steps: seq<Step>)
      requires Valid() && Enabled(World(), ClientRead)
      modifies client, client.streams, toServer, toClient, port
      ensures IsRun(old(World()), steps) && World() == After(old(World()), steps)
      ensures Answers(old(World()), ClientHandles, steps)
    {
      hide Inv, OpenRest, Absorb, Plan;
      ghost var w := World();
      ghost var read := Do(w, ClientRead);
      steps := [ClientRead] + Opens(|read.client.toOpen|);
      ReadAndOpen(w);
      if client.awaitsResults {
        client.GetResults(toClient);
        assert toServer.queue + [] == toServer.queue && port.backlog + [] == port.backlog;
      } else {
        client.HandleMessage(toClient, toServer, port);
      }
    }

    /** The end condition of the test is met. */
    method ClientEnd()
      requires Valid() && Enabled(World(), End)
      modifies client, toServer
      ensures World() == Do(old(World()), End)
    {
      hide Inv;
      client.End(toServer);
    }

    method ServerAccept()
      requires Valid() && Enabled(World(), Accept)
      modifies this, server, server.streams, port
      ensures World() == Do(old(World()), Accept)
    {
      hide Inv;
      var k, fate := server.AcceptConnection(port);
      match fate
      case Controls => control := control + [k];
      case Denied => told := told + [(k, ACCESS_DENIED)];
      case Carries => carriers := carriers + [k];
      case Ignored =>
    }

    method ServerHandle()
      requires Valid() && Enabled(World(), ServerRead)
      modifies server, server.streams, toServer, toClient
      ensures World() == Do(old(World()), ServerRead)
    {
      hide Inv;
      match server.await
      case Select => server.HandleMessage(toServer, toClient);
      case ForCookie => server.ReadCookie(toServer, toClient);
      case ForParams => server.GetParameters(toServer, toClient);
      case ForResults => server.ExchangeResults(toServer, toClient);
    }

    method ServerStart()
      requires Valid() && Enabled(World(), Start)
      modifies server, toClient
      ensures World() == Do(old(World()), Start)
    {
      hide Inv;
      server.Start(toClient);
    }

    /** Traffic changes the counters of the client. */
    method ClientMove(now: seq<Stream>)
      requires Valid() && Enabled(World(), ClientTraffic(now))
      modifies client.streams
      ensures World() == Do(old(World()), ClientTraffic(now))
    {
      hide Inv;
      client.streams.list := now;
    }

    method ServerMove(now: seq<Stream>)
      requires Valid() && Enabled(World(), ServerTraffic(now))
      modifies server.streams
      ensures World() == Do(old(World()), ServerTraffic(now))
    {
      hide Inv;
      server.streams.list := now;
    }

    method AnotherConnect(cookie: Text)
      requires Valid() && Enabled(World(), Knock(cookie))
      modifies port
      ensures World() == Do(old(World()), Knock(cookie))
    {
      hide Inv;
      port.Dial(Connection(false, cookie));
    }

    predicate ForServer(call: Call) {
      call.ServerAccepts? || call.ServerHandles? || call.ServerStarts? || call.ServerMoves?
    }

    method ServerDue(call: Call) returns (due: bool)
      requires Valid() && ForServer(call)
      ensures due <==> Enabled(World(), Asked(call))
    {
      hide Inv;
      ControlOfClient(World());
      match call
      case ServerAccepts =>
        due := !server.failed && server.state != IPERF_DONE && server.await == Select && port.backlog != [];
      case ServerHandles => due := server.ctrl && !server.failed && server.state != IPERF_DONE && toServer.queue != [];
      case ServerStarts =>
        due := !server.failed && server.state == CREATE_STREAMS
               && server.receiving == server.toReceive && server.sending == server.toSend;
      case ServerMoves(now) => due := !server.failed && server.state == TEST_RUNNING && Moved(server.streams.list, now);
    }

    method ClientDue(call: Call) returns (due: bool)
      requires Valid() && !ForServer(call)
      ensures due <==> Enabled(World(), Asked(call))
    {
      hide Inv;
      match call
      case ClientConnects => due := !client.connected;
      case ClientHandles => due := client.connected && !client.failed && client.state != IPERF_DONE && toClient.queue != [];
      case ClientEnds => due := !client.failed && client.state == TEST_RUNNING;
      case ClientMoves(now) => due := !client.failed && client.state == TEST_RUNNING && Moved(client.streams.list, now);
      case AnotherConnects(cookie) => due := client.connected && cookie != client.cookie;
    }

    /** Whether there is something to do for a call, as select, the states and the timers tell the programs. */
    method Due(call: Call) returns (due: bool)
      requires Valid()
      ensures due <==> Enabled(World(), Asked(call))
    {
      hide Inv, Enabled;
      if ForServer(call) {
        due := ServerDue(call);
      } else {
        due := ClientDue(call);
      }
    }

    method Once(call: Call)
      requires Valid() && Enabled(World(), Asked(call)) && call != ClientHandles
      modifies this, client, client.streams, server, server.streams, toServer, toClient, port
      ensures World() == Do(old(World()), Asked(call))
    {
      hide Inv, Do, Enabled;
      match call
      case ClientConnects => Connect();
      case ClientEnds => ClientEnd();
      case ClientMoves(now) => ClientMove(now);
      case ServerAccepts => ServerAccept();
      case ServerHandles => ServerHandle();
      case ServerStarts => ServerStart();
      case ServerMoves(now) => ServerMove(now);
      case AnotherConnects(cookie) => AnotherConnect(cookie);
    }

    /** One call, if there is something to do. */
    method Act(call: Call) returns (ghost steps: seq<Step>)
      requires Valid()
      modifies this, client, client.streams, server, server.streams, toServer, toClient, port
      ensures Valid() && IsRun(old(World()), steps) && World() == After(old(World()), steps)
      ensures Answers(old(World()), call, steps)
    {
      hide Inv, Do, Enabled, Opens;
      ghost var w := World();
      var due := Due(call);
      steps := [];
      if !due {
        return;
      }
      if call == ClientHandles {
        steps := ClientHandle();
      } else {
        Once(call);
        steps := [Asked(call)];
        OneStep(w, Asked(call));
      }
      ControlTheorems.RunKeeps(w, steps);
    }

    /** Any schedule of calls. */
    method Play(schedule: seq<Call>) returns (ghost steps: seq<Step>)
      requires Valid()
      modifies this, client, client.streams, server, server.streams, toServer, toClient, port
      ensures Valid() && IsRun(old(World()), steps) && World() == After(old(World()), steps)
    {
      hide Inv, Do, Enabled;
      steps := [];
      for i := 0 to |schedule|
        invariant Valid() && IsRun(old(World()), steps) && World() == After(old(World()), steps)
      {
        ghost var more := Act(schedule[i]);
        RunAppend(old(World()), steps, more);
        steps := steps + more;
      }
    }
  }

  ghost predicate Agreement(c: seq<Stream>, s: seq<Stream>) {
    && |c| == |s|
    && forall k :: 0 <= k < |c| ==>
         && ControlTheorems.Paired(c[k], s[k])
         && c[k].sent - c[k].omitted == s[k].sent - s[k].omitted
         && c[k].received == s[k].received
  }

  /** A whole test, however its calls are scheduled: no handler fails, and when both sides are done they agree on all streams. */
  method Test(cookie: Text, num: nat, mode: Mode, schedule: seq<Call>) returns (net: Net, ghost steps: seq<Step>)
    ensures fresh(net) && IsRun(Init(cookie, num, mode), steps) && net.World() == After(Init(cookie, num, mode), steps)
    ensures !net.client.failed && !net.server.failed
    ensures net.client.state == IPERF_DONE && net.server.state == IPERF_DONE ==>
              Agreement(net.client.streams.list, net.server.streams.list)
  {
    hide IsRun, After, Inv, Init;
    net := new Net(cookie, num, mode);
    steps := net.Play(schedule);
    ControlTheorems.Safety(cookie, num, mode, steps);
    if net.client.state == IPERF_DONE && net.server.state == IPERF_DONE {
      ControlTheorems.ResultsAgree(cookie, num, mode, steps);
    }
  }
}
