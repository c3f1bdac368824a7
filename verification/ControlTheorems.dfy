/** What the invariant says of whole runs: any interleaving of the two sides, of traffic and of other clients. */
module ControlTheorems {
  import opened Bytes
  import opened ControlProtocol
  import opened ControlRuns

  /** The steps of a run that belong to the test itself. */
  ghost function Advancing(w: World, steps: seq<Step>): nat
    requires IsRun(w, steps)
    decreases |steps|
  {
    if steps == [] then 0 else (if Advances(w, steps[0]) then 1 else 0) + Advancing(Do(w, steps[0]), steps[1..])
  }

  function Knocks(steps: seq<Step>): nat {
    if steps == [] then 0 else (if steps[0].Knock? then 1 else 0) + Knocks(steps[1..])
  }

  /** The other clients that the server has not yet met. */
  function Outside(w: World): nat {
    |w.backlog| - FromClient(w.backlog)
  }

  lemma AcceptCounts(w: World)
    requires Inv(w) && Enabled(w, Accept)
    ensures w.backlog[0].client <==> ServerAccept(w.server, w.backlog[0].cookie).1 != Denied
  {
    hide Learned, Planned, ToClient, ToServer, NothingSent;
    if ServerAccept(w.server, w.backlog[0].cookie).1 == Denied {
      DenialKeeps(w);
    } else if ServerAccept(w.server, w.backlog[0].cookie).1 != Controls {
      Wanted(w);
    }
  }

  /** Nobody but the other clients is turned away, and each of them once. */
  lemma OutsideCounts(w: World, step: Step)
    requires Inv(w) && Enabled(w, step)
    ensures |Do(w, step).told| + Outside(Do(w, step)) == |w.told| + Outside(w) + if step.Knock? then 1 else 0
    ensures !step.Knock? ==> Outside(Do(w, step)) <= Outside(w)
    ensures step == Accept && !w.backlog[0].client ==> Outside(Do(w, step)) == Outside(w) - 1
  {
    hide Inv;
    match step
    case Connect => FromClientAppend(w.backlog, Connection(true, w.client.cookie));
    case Open => FromClientAppend(w.backlog, Connection(true, w.client.cookie));
    case Knock(cookie) => FromClientAppend(w.backlog, Connection(false, cookie));
    case Accept => AcceptCounts(w);
    case _ =>
  }

  lemma {:induction false} RunKeeps(w: World, steps: seq<Step>)
    requires Inv(w) && IsRun(w, steps)
    ensures Inv(After(w, steps))
    ensures Advancing(w, steps) + Remaining(After(w, steps)) == Remaining(w)
    ensures |After(w, steps).told| + Outside(After(w, steps)) == |w.told| + Outside(w) + Knocks(steps)
    decreases |steps|
  {
    hide Inv, Do, Enabled, Remaining, Outside, Advances;
    if steps != [] {
      StepKeeps(w, steps[0]);
      RemainingFalls(w, steps[0]);
      OutsideCounts(w, steps[0]);
      RunKeeps(Do(w, steps[0]), steps[1..]);
    }
  }

  /** A message of the kind that the client can handle where it is. */
  predicate ClientExpects(c: Client, m: Message) {
    if c.awaitsResults then m.Results?
    else m.State? && m.code in {PARAM_EXCHANGE, CREATE_STREAMS, TEST_START, TEST_RUNNING, EXCHANGE_RESULTS, DISPLAY_RESULTS}
  }

  predicate ServerExpects(s: Server, m: Message) {
    match s.await
    case ForCookie => m.Cookie?
    case ForParams => m.Params?
    case ForResults => m.Results?
    case Select => m == State(TEST_END) || m == State(IPERF_DONE)
  }

  lemma Expected(w: World)
    requires Inv(w)
    ensures !w.client.failed && !w.server.failed
    ensures Enabled(w, ClientRead) ==> ClientExpects(w.client, w.toClient[0])
    ensures Enabled(w, ServerRead) ==> ServerExpects(w.server, w.toServer[0])
  {
    hide Learned, Planned, Connections, NothingSent, Plan;
    if Enabled(w, ClientRead) {
      assert w.toClient[0] == ServerSays(w.server, ClientHasRead(ClientAt(w.client)));
    }
    if Enabled(w, ServerRead) {
      assert w.toServer[0] == ClientSays(w.client, ServerHasRead(ServerAt(w.server)));
    }
  }

  lemma {:induction false} SameClient(w: World, steps: seq<Step>)
    requires IsRun(w, steps)
    ensures var c := After(w, steps).client;
            c.cookie == w.client.cookie && c.num == w.client.num && c.mode == w.client.mode
    decreases |steps|
  {
    if steps != [] {
      SameClient(Do(w, steps[0]), steps[1..]);
    }
  }

  /** In no run does a side read a message that it does not expect there, or take a branch that ends the test in an
      error. Other clients are turned away with ACCESS_DENIED, each of them once, and none becomes a stream. */
  lemma Safety(cookie: Text, num: nat, mode: Mode, steps: seq<Step>)
    requires IsRun(Init(cookie, num, mode), steps)
    ensures var w := After(Init(cookie, num, mode), steps);
            && !w.client.failed && !w.server.failed
            && (Enabled(w, ClientRead) ==> ClientExpects(w.client, w.toClient[0]))
            && (Enabled(w, ServerRead) ==> ServerExpects(w.server, w.toServer[0]))
            && (forall t :: t in w.told ==> t.1 == ACCESS_DENIED && !t.0.client)
            && |w.told| + Outside(w) == Knocks(steps)
            && (forall k :: k in w.control + w.carriers ==> k == Connection(true, cookie))
            && |w.carriers| == |w.server.streams|
  {
    hide After, IsRun;
    InitOk(cookie, num, mode);
    RunKeeps(Init(cookie, num, mode), steps);
    SameClient(Init(cookie, num, mode), steps);
    var w := After(Init(cookie, num, mode), steps);
    Expected(w);
    assert w.client.cookie == cookie;
  }

  /** The number of streams of a test. */
  function Total(num: nat, mode: Mode): nat {
    if mode == Bidirectional then 2 * num else num
  }

  /** A run is complete exactly when it has made 16 steps and two more for every stream; it cannot make any more of them. */
  lemma Completion(cookie: Text, num: nat, mode: Mode, steps: seq<Step>)
    requires IsRun(Init(cookie, num, mode), steps)
    ensures Advancing(Init(cookie, num, mode), steps) <= 16 + 2 * Total(num, mode)
    ensures Final(After(Init(cookie, num, mode), steps)) <==> Advancing(Init(cookie, num, mode), steps) == 16 + 2 * Total(num, mode)
  {
    hide After, IsRun, Advancing;
    var w := Init(cookie, num, mode);
    InitOk(cookie, num, mode);
    RunKeeps(w, steps);
    NoneRemaining(After(w, steps));
    assert |Plan(mode, num)| == Total(num, mode);
  }

  /** Every run can be completed, without more traffic or more clients. */
  lemma {:induction false} CanComplete(w: World) returns (rest: seq<Step>)
    requires Inv(w)
    ensures IsRun(w, rest) && Final(After(w, rest)) && |rest| <= Remaining(w) + Outside(w)
    ensures forall step :: step in rest ==> !step.Knock? && !step.ClientTraffic? && !step.ServerTraffic?
    decreases Remaining(w) + Outside(w)
  {
    hide Inv, Do, Enabled, Outside, Remaining;
    NoneRemaining(w);
    if Final(w) {
      rest := [];
    } else {
      var step := NextStep(w);
      NeverStuck(w);
      StepKeeps(w, step);
      RemainingFalls(w, step);
      OutsideCounts(w, step);
      NoneRemaining(Do(w, step));
      var more := CanComplete(Do(w, step));
      rest := [step] + more;
      assert rest[1..] == more;
    }
  }

  /** The steps of the two sides but for their traffic. */
  predicate Quiet(step: Step) {
    !step.Knock? && !step.ClientTraffic? && !step.ServerTraffic?
  }

  lemma {:induction false} QuietRunsEnd(w: World, rest: seq<Step>)
    requires Inv(w) && IsRun(w, rest) && forall step :: step in rest ==> Quiet(step)
    ensures Inv(After(w, rest)) && |rest| <= Remaining(w) + Outside(w)
    decreases |rest|
  {
    hide Inv, Do, Enabled, Remaining;
    NoneRemaining(w);
    if rest != [] {
      assert Quiet(rest[0]);
      StepKeeps(w, rest[0]);
      RemainingFalls(w, rest[0]);
      OutsideCounts(w, rest[0]);
      QuietRunsEnd(Do(w, rest[0]), rest[1..]);
    }
  }

  /** A side that is done does nothing more; and as long as one is not, some quiet step is possible. */
  lemma QuietUnlessFinal(w: World)
    requires Inv(w)
    ensures Final(w) <==> forall step :: Quiet(step) ==> !Enabled(w, step)
  {
    if !Final(w) {
      NeverStuck(w);
      assert Quiet(NextStep(w));
    }
  }

  /** Every run, however it goes on, is over after a bounded number of quiet steps: it cannot make more of them, and when it
      can make none both sides are done. */
  lemma EveryRunCompletes(cookie: Text, num: nat, mode: Mode, steps: seq<Step>, rest: seq<Step>)
    requires IsRun(Init(cookie, num, mode), steps) && IsRun(After(Init(cookie, num, mode), steps), rest)
    requires forall step :: step in rest ==> Quiet(step)
    ensures |rest| <= 16 + 2 * Total(num, mode) + Knocks(steps)
    ensures var w := After(After(Init(cookie, num, mode), steps), rest);
            Final(w) <==> forall step :: Quiet(step) ==> !Enabled(w, step)
  {
    hide After, IsRun, Advancing, Enabled;
    InitOk(cookie, num, mode);
    RunKeeps(Init(cookie, num, mode), steps);
    assert |Plan(mode, num)| == Total(num, mode);
    QuietRunsEnd(After(Init(cookie, num, mode), steps), rest);
    QuietUnlessFinal(After(After(Init(cookie, num, mode), steps), rest));
  }

  predicate OfServer(step: Step) {
    step.Accept? || step.ServerRead? || step.Start? || step.ServerTraffic?
  }

  lemma SurvivesServer(w: World, step: Step, other: Step)
    requires Inv(w) && Enabled(w, step) && Enabled(w, other) && step != other && Advances(w, step) && OfServer(other)
    ensures Enabled(Do(w, other), step) && Advances(Do(w, other), step)
  {
    hide Planned, Learned, NothingSent, OnlyDenied, Reports, Absorb;
  }

  lemma SurvivesOthers(w: World, step: Step, other: Step)
    requires Inv(w) && Enabled(w, step) && Enabled(w, other) && step != other && Advances(w, step) && !OfServer(other)
    ensures Enabled(Do(w, other), step) && Advances(Do(w, other), step)
  {
    hide Planned, Learned, NothingSent, OnlyDenied, Reports, Absorb;
  }

  /** A step of the test that is possible stays possible, whatever else happens, until it is taken. */
  lemma StaysEnabled(w: World, step: Step, other: Step)
    requires Inv(w) && Enabled(w, step) && Enabled(w, other) && step != other && Advances(w, step)
    ensures Enabled(Do(w, other), step) && Advances(Do(w, other), step)
  {
    hide Inv, Do, Enabled, Advances;
    if OfServer(other) {
      SurvivesServer(w, step, other);
    } else {
      SurvivesOthers(w, step, other);
    }
  }

  lemma NextSurvivesServer(w: World, other: Step)
    requires Inv(w) && !Final(w) && Enabled(w, other) && other != NextStep(w) && OfServer(other)
    ensures Enabled(Do(w, other), NextStep(w))
  {
    hide ClientOk, Planned, Learned, NothingSent, OnlyDenied, Connections, Reports, Absorb;
    NeverStuck(w);
  }

  lemma NextSurvivesOthers(w: World, other: Step)
    requires Inv(w) && !Final(w) && Enabled(w, other) && other != NextStep(w) && !OfServer(other)
    ensures Enabled(Do(w, other), NextStep(w))
  {
    hide ServerOk, Planned, Learned, NothingSent, OnlyDenied, Connections, Reports, Absorb;
    NeverStuck(w);
  }

  /** The same for the turning away of another client that the test has to wait for. */
  lemma NextStaysEnabled(w: World, other: Step)
    requires Inv(w) && !Final(w) && Enabled(w, other) && other != NextStep(w)
    ensures Enabled(Do(w, other), NextStep(w))
  {
    hide Inv, Do, Enabled, NextStep;
    if OfServer(other) {
      NextSurvivesServer(w, other);
    } else {
      NextSurvivesOthers(w, other);
    }
  }

  // ---- streams ----

  /** At every moment the streams of the two sides correspond: equal ids and opposite roles. */
  ghost predicate Paired(c: Stream, s: Stream) {
    c.id == s.id && c.sender != s.sender
  }

  /** The client sends in normal mode, receives in reverse mode, and in bidirectional mode sends first. */
  predicate ClientSends(mode: Mode, num: nat, k: nat) {
    mode == Sender || (mode == Bidirectional && k < num)
  }

  lemma StreamsCorrespond(cookie: Text, num: nat, mode: Mode, steps: seq<Step>)
    requires IsRun(Init(cookie, num, mode), steps)
    ensures var w := After(Init(cookie, num, mode), steps);
            var c, s := w.client.streams, w.server.streams;
            && |s| <= |c| <= Total(num, mode)
            && (forall k :: 0 <= k < |c| ==> c[k].id == StreamId(k) && c[k].sender == ClientSends(mode, num, k))
            && (forall k :: 0 <= k < |s| ==> Paired(c[k], s[k]))
            && (forall j, k :: 0 <= j < k < |c| ==> c[j].id != c[k].id)
  {
    hide Learned, ToClient, ToServer, NothingSent, OnlyDenied, FromClient;
    hide After, IsRun, Advancing;
    InitOk(cookie, num, mode);
    RunKeeps(Init(cookie, num, mode), steps);
    SameClient(Init(cookie, num, mode), steps);
    var w := After(Init(cookie, num, mode), steps);
    assert w.client.num == num && w.client.mode == mode;
    assert |Plan(mode, num)| == Total(num, mode);
    assert forall k :: 0 <= k < |Plan(mode, num)| ==> Plan(mode, num)[k] == ClientSends(mode, num, k);
  }

  /** When both sides are done they agree, stream by stream, on what was sent after the omit period and what was received. */
  lemma ResultsAgree(cookie: Text, num: nat, mode: Mode, steps: seq<Step>)
    requires IsRun(Init(cookie, num, mode), steps) && Final(After(Init(cookie, num, mode), steps))
    ensures var w := After(Init(cookie, num, mode), steps);
            var c, s := w.client.streams, w.server.streams;
            && |s| == |c| == Total(num, mode)
            && forall k :: 0 <= k < |c| ==>
                 && Paired(c[k], s[k])
                 && c[k].sent - c[k].omitted == s[k].sent - s[k].omitted
                 && c[k].received == s[k].received
  {
    hide ToClient, ToServer, NothingSent, OnlyDenied, FromClient, Planned;
    hide After, IsRun, Advancing;
    InitOk(cookie, num, mode);
    RunKeeps(Init(cookie, num, mode), steps);
    SameClient(Init(cookie, num, mode), steps);
    StreamsCorrespond(cookie, num, mode, steps);
    var w := After(Init(cookie, num, mode), steps);
    assert |Plan(mode, num)| == Total(num, mode);
    assert Learned(w.client.streams, w.server.streams) && Learned(w.server.streams, w.client.streams);
  }
}
