/** The protocol on the bytes of the control connection: no side ever mistakes where a message begins or what it is. */
module ControlBytes {
  import opened Bytes
  import opened ControlProtocol
  import opened ControlWire
  import ControlTheorems

  /** What the side's next read on the control connection is made for. */
  function ClientAwaits(c: Client): Kind {
    if c.awaitsResults then SomeResults else AState
  }

  function ServerAwaits(s: Server): Kind {
    match s.await
    case Select => AState
    case ForCookie => ACookie
    case ForParams => SomeParams
    case ForResults => SomeResults
  }

  /** The bytes of the messages on their way, however each of them is written. */
  ghost predicate Carry(texts: seq<Text>, queue: seq<Message>) {
    |texts| == |queue| && forall i :: 0 <= i < |queue| ==> Sends(queue[i], texts[i])
  }

  /** In every run, whenever a side reads, it makes out of the bytes before it the very message that the other side sent,
      and leaves the bytes of the messages behind it. */
  lemma ReadsWhatWasSent(cookie: Text, num: nat, mode: Mode, steps: seq<Step>, texts: seq<Text>)
    requires IsRun(Init(cookie, num, mode), steps)
    ensures var w := After(Init(cookie, num, mode), steps);
            && (Enabled(w, ClientRead) && Carry(texts, w.toClient) ==>
                  ReadMessage(ClientAwaits(w.client), w.client.num, Concat(texts)) == Some((w.toClient[0], Concat(texts[1..]))))
            && (Enabled(w, ServerRead) && Carry(texts, w.toServer) ==>
                  ReadMessage(ServerAwaits(w.server), w.server.num, Concat(texts)) == Some((w.toServer[0], Concat(texts[1..]))))
  {
    hide After, IsRun, Sends, ReadMessage;
    var w := After(Init(cookie, num, mode), steps);
    ControlTheorems.Safety(cookie, num, mode, steps);
    if Enabled(w, ClientRead) && Carry(texts, w.toClient) {
      MessageRoundTrip(w.toClient[0], texts[0], Concat(texts[1..]), w.client.num);
    }
    if Enabled(w, ServerRead) && Carry(texts, w.toServer) {
      MessageRoundTrip(w.toServer[0], texts[0], Concat(texts[1..]), w.server.num);
    }
  }
}
