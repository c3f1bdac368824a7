/** The byte counts of a test's streams, their intervals and the omit period (iperf_api.c, iperf_tcp.c), as values. */
module TrafficLedger {

  /** An entry of interval_results. */
  datatype Interval = Interval(bytes: nat, omitted: bool)

  /** The counters of struct iperf_stream_result. */
  datatype Account = Account(
    sender: bool, sent: nat, sentOmit: nat, received: nat, sentNow: nat, receivedNow: nat, intervals: seq<Interval>)

  /** The accounts of all streams, bytes_sent and bytes_received of the test, and whether the omit period is still running. */
  datatype Ledger = Ledger(accounts: seq<Account>, total: nat, arrived: nat, omitting: bool)

  datatype Event =
    | Wrote(k: nat, bytes: nat)
    | Got(k: nat, bytes: nat)
    | Late(k: nat, bytes: nat)  // received when the test is no longer running
    | Tick
    | OmitOver

  predicate Opened(a: Account) {
    a.sent == a.sentOmit == a.received == a.sentNow == a.receivedNow == 0 && a.intervals == []
  }

  predicate Possible(l: Ledger, e: Event) {
    match e
    case Wrote(k, _) => k < |l.accounts| && l.accounts[k].sender
    case Got(k, _) => k < |l.accounts| && !l.accounts[k].sender
    case Late(k, _) => k < |l.accounts| && !l.accounts[k].sender
    case Tick => true
    case OmitOver => l.omitting
  }

  /** The end of an interval in iperf_stats_callback. */
  function EndInterval(a: Account, omitting: bool): Account {
    var bytes := if a.sender then a.sentNow else a.receivedNow;
    a.(intervals := a.intervals + [Interval(bytes, omitting)], sentNow := 0, receivedNow := 0)
  }

  /** iperf_reset_stats. */
  function ResetCounts(a: Account): Account {
    a.(sentOmit := a.sent, received := 0, sentNow := 0, receivedNow := 0)
  }

  function EndIntervals(accounts: seq<Account>, omitting: bool): (r: seq<Account>)
    ensures |r| == |accounts| && forall k :: 0 <= k < |r| ==> r[k] == EndInterval(accounts[k], omitting)
  {
    seq(|accounts|, k requires 0 <= k < |accounts| => EndInterval(accounts[k], omitting))
  }

  function ResetAll(accounts: seq<Account>): (r: seq<Account>)
    ensures |r| == |accounts| && forall k :: 0 <= k < |r| ==> r[k] == ResetCounts(accounts[k])
  {
    seq(|accounts|, k requires 0 <= k < |accounts| => ResetCounts(accounts[k]))
  }

  function Apply(l: Ledger, e: Event): Ledger
    requires Possible(l, e)
  {
    match e
    case Wrote(k, bytes) =>
      var a := l.accounts[k];
      l.(accounts := l.accounts[k := a.(sent := a.sent + bytes, sentNow := a.sentNow + bytes)], total := l.total + bytes)
    case Got(k, bytes) =>
      var a := l.accounts[k];
      l.(accounts := l.accounts[k := a.(received := a.received + bytes, receivedNow := a.receivedNow + bytes)],
         arrived := l.arrived + bytes)
    case Late(_, bytes) => l.(arrived := l.arrived + bytes)
    case Tick => l.(accounts := EndIntervals(l.accounts, l.omitting))
    case OmitOver => l.(accounts := ResetAll(l.accounts), total := 0, omitting := false)
  }

  predicate IsHistory(l: Ledger, events: seq<Event>)
    decreases |events|
  {
    events == [] || (Possible(l, events[0]) && IsHistory(Apply(l, events[0]), events[1..]))
  }

  function Replay(l: Ledger, events: seq<Event>): Ledger
    requires IsHistory(l, events)
    decreases |events|
  {
    if events == [] then l else Replay(Apply(l, events[0]), events[1..])
  }

  lemma {:induction false} ReplayAppend(l: Ledger, events: seq<Event>, e: Event)
    requires IsHistory(l, events) && Possible(Replay(l, events), e)
    ensures IsHistory(l, events + [e]) && Replay(l, events + [e]) == Apply(Replay(l, events), e)
    decreases |events|
  {
    if events != [] {
      assert (events + [e])[1..] == events[1..] + [e];
      ReplayAppend(Apply(l, events[0]), events[1..], e);
    }
  }

  lemma {:induction false} ReplayMore(l: Ledger, events: seq<Event>, more: seq<Event>)
    requires IsHistory(l, events) && IsHistory(Replay(l, events), more)
    ensures IsHistory(l, events + more) && Replay(l, events + more) == Replay(Replay(l, events), more)
    decreases |events|
  {
    if events == [] {
      assert events + more == more;
    } else {
      assert (events + more)[1..] == events[1..] + more;
      ReplayMore(Apply(l, events[0]), events[1..], more);
    }
  }

  function Flatten(logs: seq<seq<Event>>): seq<Event> {
    if logs == [] then [] else Flatten(logs[..|logs| - 1]) + logs[|logs| - 1]
  }

  lemma FlattenMore(l: Ledger, logs: seq<seq<Event>>, log: seq<Event>)
    requires IsHistory(l, Flatten(logs)) && IsHistory(Replay(l, Flatten(logs)), log)
    ensures IsHistory(l, Flatten(logs + [log])) && Replay(l, Flatten(logs + [log])) == Replay(Replay(l, Flatten(logs)), log)
  {
    assert (logs + [log])[..|logs|] == logs;
    ReplayMore(l, Flatten(logs), log);
  }

  // ---- what the counters keep ----

  /** The bytes of the intervals that are marked so. */
  function SumOf(intervals: seq<Interval>, omitted: bool): nat {
    if intervals == [] then 0
    else
      var last := intervals[|intervals| - 1];
      SumOf(intervals[..|intervals| - 1], omitted) + if last.omitted == omitted then last.bytes else 0
  }

  function Moved(a: Account): nat {
    if a.sender then a.sent else a.received
  }

  function MovedNow(a: Account): nat {
    if a.sender then a.sentNow else a.receivedNow
  }

  /** What a stream has moved since the omit period, by its counters. */
  function Counted(a: Account): int {
    if a.sender then a.sent - a.sentOmit else a.received
  }

  /** While the omit period is running its intervals are all that there are; later they no longer count. */
  predicate Balanced(a: Account, omitting: bool) {
    && Counted(a) == SumOf(a.intervals, false) + MovedNow(a) + (if omitting then SumOf(a.intervals, true) else 0)
    && (if a.sender then a.received == a.receivedNow == 0 else a.sent == a.sentOmit == a.sentNow == 0)
    && (omitting ==> a.sentOmit == 0 && SumOf(a.intervals, false) == 0)
  }

  function SumCounted(accounts: seq<Account>): int {
    if accounts == [] then 0
    else
      var last := accounts[|accounts| - 1];
      SumCounted(accounts[..|accounts| - 1]) + if last.sender then Counted(last) else 0
  }

  predicate AllBalanced(l: Ledger) {
    && (forall k :: 0 <= k < |l.accounts| ==> Balanced(l.accounts[k], l.omitting))
    && l.total == SumCounted(l.accounts)
  }

  lemma {:induction false} SumUpdated(accounts: seq<Account>, k: nat, a: Account)
    requires k < |accounts| && a.sender == accounts[k].sender
    ensures SumCounted(accounts[k := a]) == SumCounted(accounts) + if a.sender then Counted(a) - Counted(accounts[k]) else 0
  {
    var n := |accounts| - 1;
    if k < n {
      SumUpdated(accounts[..n], k, a);
      assert accounts[k := a][..n] == accounts[..n][k := a];
    } else {
      assert accounts[k := a][..n] == accounts[..n];
    }
  }

  /** Intervals and resets leave the sums of what is counted as they should be. */
  lemma {:induction false} SumSame(a: seq<Account>, b: seq<Account>)
    requires |a| == |b|
    requires forall k :: 0 <= k < |a| ==> a[k].sender == b[k].sender && (a[k].sender ==> Counted(a[k]) == Counted(b[k]))
    ensures SumCounted(a) == SumCounted(b)
  {
    if a != [] {
      SumSame(a[..|a| - 1], b[..|b| - 1]);
    }
  }

  lemma {:induction false} SumNothing(a: seq<Account>)
    requires forall k :: 0 <= k < |a| && a[k].sender ==> Counted(a[k]) == 0
    ensures SumCounted(a) == 0
  {
    if a != [] {
      SumNothing(a[..|a| - 1]);
    }
  }

  lemma IntervalAppended(intervals: seq<Interval>, i: Interval, omitted: bool)
    ensures SumOf(intervals + [i], omitted) == SumOf(intervals, omitted) + if i.omitted == omitted then i.bytes else 0
  {
    assert (intervals + [i])[..|intervals|] == intervals;
  }

  lemma IntervalKeeps(a: Account, omitting: bool)
    requires Balanced(a, omitting)
    ensures Balanced(EndInterval(a, omitting), omitting) && Counted(EndInterval(a, omitting)) == Counted(a)
    ensures EndInterval(a, omitting).sender == a.sender
  {
    hide SumOf;
    IntervalAppended(a.intervals, Interval(MovedNow(a), omitting), true);
    IntervalAppended(a.intervals, Interval(MovedNow(a), omitting), false);
  }

  lemma WroteKeeps(l: Ledger, k: nat, bytes: nat)
    requires AllBalanced(l) && Possible(l, Wrote(k, bytes))
    ensures AllBalanced(Apply(l, Wrote(k, bytes)))
  {
    hide SumCounted, SumOf;
    SumUpdated(l.accounts, k, Apply(l, Wrote(k, bytes)).accounts[k]);
  }

  lemma GotKeeps(l: Ledger, k: nat, bytes: nat)
    requires AllBalanced(l) && Possible(l, Got(k, bytes))
    ensures AllBalanced(Apply(l, Got(k, bytes)))
  {
    hide SumCounted, SumOf;
    SumUpdated(l.accounts, k, Apply(l, Got(k, bytes)).accounts[k]);
  }

  lemma TickKeeps(l: Ledger)
    requires AllBalanced(l)
    ensures AllBalanced(Apply(l, Tick))
  {
    hide SumCounted, Balanced, EndInterval, Counted;
    var m := Apply(l, Tick);
    forall k | 0 <= k < |l.accounts|
      ensures Balanced(m.accounts[k], l.omitting) && Counted(m.accounts[k]) == Counted(l.accounts[k])
      ensures m.accounts[k].sender == l.accounts[k].sender
    {
      IntervalKeeps(l.accounts[k], l.omitting);
    }
    SumSame(m.accounts, l.accounts);
  }

  lemma OmitKeeps(l: Ledger)
    requires AllBalanced(l) && Possible(l, OmitOver)
    ensures AllBalanced(Apply(l, OmitOver))
  {
    hide SumCounted, SumOf;
    SumNothing(Apply(l, OmitOver).accounts);
  }

  lemma ApplyKeeps(l: Ledger, e: Event)
    requires AllBalanced(l) && Possible(l, e)
    ensures AllBalanced(Apply(l, e))
  {
    hide Balanced, SumCounted;
    match e
    case Wrote(k, bytes) => WroteKeeps(l, k, bytes);
    case Got(k, bytes) => GotKeeps(l, k, bytes);
    case Late(_, _) =>
    case Tick => TickKeeps(l);
    case OmitOver => OmitKeeps(l);
  }

  lemma {:induction false} ReplayKeeps(l: Ledger, events: seq<Event>)
    requires AllBalanced(l) && IsHistory(l, events)
    ensures AllBalanced(Replay(l, events))
    decreases |events|
  {
    hide AllBalanced, Apply, Possible;
    if events != [] {
      ApplyKeeps(l, events[0]);
      ReplayKeeps(Apply(l, events[0]), events[1..]);
    }
  }

  /** After any history of sends, receives, intervals and the end of the omit period: bytes_sent of the test is what its
      senders have sent since the omit period, and the intervals outside the omit period together with the running one
      fall short of what each stream has moved by the bytes of the omitted ones until the omit period is over; so they make
      it up exactly when the omit period is over or has recorded no bytes. */
  lemma Accounting(accounts: seq<Account>, omitting: bool, events: seq<Event>)
    requires forall k :: 0 <= k < |accounts| ==> Opened(accounts[k])
    requires IsHistory(Ledger(accounts, 0, 0, omitting), events)
    ensures var l := Replay(Ledger(accounts, 0, 0, omitting), events);
            && l.total == SumCounted(l.accounts)
            && forall k :: 0 <= k < |l.accounts| ==>
                 var a := l.accounts[k];
                 && Counted(a) == SumOf(a.intervals, false) + MovedNow(a) + (if l.omitting then SumOf(a.intervals, true) else 0)
                 && (Counted(a) == SumOf(a.intervals, false) + MovedNow(a) <==> !l.omitting || SumOf(a.intervals, true) == 0)
  {
    SumNothing(accounts);
    ReplayKeeps(Ledger(accounts, 0, 0, omitting), events);
  }

  /** 10 bytes in an interval of the omit period are not made up by the intervals outside it. */
  lemma OmittedBytesAreMissing()
    ensures var l := Ledger([Account(true, 0, 0, 0, 0, 0, [])], 0, 0, true);
            var events := [Wrote(0, 10), Tick];
            && IsHistory(l, events) && |Replay(l, events).accounts| == 1
            && var a := Replay(l, events).accounts[0]; a.sent - a.sentOmit == 10 && SumOf(a.intervals, false) + a.sentNow == 0
  {
    var l := Ledger([Account(true, 0, 0, 0, 0, 0, [])], 0, 0, true);
    var m := Apply(l, Wrote(0, 10));
    var n := Apply(m, Tick);
    assert n.accounts[0].intervals == [Interval(10, true)];
    assert [Wrote(0, 10), Tick][1..] == [Tick] && [Tick][1..] == [];
    assert IsHistory(m, [Tick]) && Replay(m, [Tick]) == n;
    IntervalAppended([], Interval(10, true), false);
  }

  // ---- what the test has received ----

  function SumReceived(accounts: seq<Account>): nat {
    if accounts == [] then 0
    else
      var last := accounts[|accounts| - 1];
      SumReceived(accounts[..|accounts| - 1]) + if last.sender then 0 else last.received
  }

  /** The bytes received before the omit period was over. */
  function BeforeOmitOver(events: seq<Event>): nat {
    if OmitOver !in events then 0
    else (if events[0].Got? then events[0].bytes else 0) + BeforeOmitOver(events[1..])
  }

  /** The bytes received when the test was no longer running. */
  function TooLate(events: seq<Event>): nat {
    if events == [] then 0 else (if events[0].Late? then events[0].bytes else 0) + TooLate(events[1..])
  }

  lemma {:induction false} ReceivedUpdated(accounts: seq<Account>, k: nat, a: Account)
    requires k < |accounts| && a.sender == accounts[k].sender
    ensures SumReceived(accounts[k := a]) == SumReceived(accounts) + if a.sender then 0 else a.received - accounts[k].received
  {
    var n := |accounts| - 1;
    if k < n {
      ReceivedUpdated(accounts[..n], k, a);
      assert accounts[k := a][..n] == accounts[..n][k := a];
    } else {
      assert accounts[k := a][..n] == accounts[..n];
    }
  }

  lemma {:induction false} ReceivedSame(a: seq<Account>, b: seq<Account>)
    requires |a| == |b|
    requires forall k :: 0 <= k < |a| ==> a[k].sender == b[k].sender && a[k].received == b[k].received
    ensures SumReceived(a) == SumReceived(b)
  {
    if a != [] {
      ReceivedSame(a[..|a| - 1], b[..|b| - 1]);
    }
  }

  lemma {:induction false} ReceivedNothing(a: seq<Account>)
    requires forall k :: 0 <= k < |a| ==> a[k].received == 0
    ensures SumReceived(a) == 0
  {
    if a != [] {
      ReceivedNothing(a[..|a| - 1]);
    }
  }

  /** How one event changes what the receivers and the test have received. */
  lemma ReceivedStep(l: Ledger, e: Event)
    requires Possible(l, e)
    ensures Apply(l, e).arrived == l.arrived + if e.Got? || e.Late? then e.bytes else 0
    ensures SumReceived(Apply(l, e).accounts) == if e.OmitOver? then 0 else SumReceived(l.accounts) + if e.Got? then e.bytes else 0
  {
    var m := Apply(l, e);
    match e
    case Wrote(k, _) => ReceivedUpdated(l.accounts, k, m.accounts[k]);
    case Got(k, _) => ReceivedUpdated(l.accounts, k, m.accounts[k]);
    case Late(_, _) =>
    case Tick => ReceivedSame(m.accounts, l.accounts);
    case OmitOver => ReceivedNothing(m.accounts);
  }

  lemma {:induction false} OmitIsOver(l: Ledger, events: seq<Event>)
    requires IsHistory(l, events) && !l.omitting
    ensures OmitOver !in events
    decreases |events|
  {
    if events != [] {
      OmitIsOver(Apply(l, events[0]), events[1..]);
      assert events == [events[0]] + events[1..];
    }
  }

  lemma OmitEnds(l: Ledger)
    requires Possible(l, OmitOver)
    ensures !Apply(l, OmitOver).omitting
  {
  }

  lemma {:induction false} ReceivedFrom(l: Ledger, events: seq<Event>)
    requires IsHistory(l, events)
    ensures var m := Replay(l, events);
            m.arrived - SumReceived(m.accounts)
            == l.arrived - SumReceived(l.accounts) + TooLate(events)
               + if OmitOver in events then SumReceived(l.accounts) + BeforeOmitOver(events) else 0
    decreases |events|
  {
    hide Apply, Possible, SumReceived;
    if events != [] {
      var next := Apply(l, events[0]);
      ReceivedStep(l, events[0]);
      ReceivedFrom(next, events[1..]);
      assert events == [events[0]] + events[1..];
      if events[0] == OmitOver {
        OmitEnds(l);
        OmitIsOver(next, events[1..]);
      }
    }
  }

  /** bytes_received of the test exceeds what its receivers have on their accounts by exactly the bytes from before the end
      of the omit period, which only the accounts forget, and those that came too late for an account. So it is their sum
      if and only if there were no such bytes. */
  lemma ReceivedTotal(accounts: seq<Account>, omitting: bool, events: seq<Event>)
    requires forall k :: 0 <= k < |accounts| ==> Opened(accounts[k])
    requires IsHistory(Ledger(accounts, 0, 0, omitting), events)
    ensures var l := Replay(Ledger(accounts, 0, 0, omitting), events);
            && l.arrived == SumReceived(l.accounts) + BeforeOmitOver(events) + TooLate(events)
            && (l.arrived == SumReceived(l.accounts) <==> BeforeOmitOver(events) == 0 && TooLate(events) == 0)
  {
    ReceivedNothing(accounts);
    ReceivedFrom(Ledger(accounts, 0, 0, omitting), events);
  }

  /** 10 bytes of the omit period stay in bytes_received of the test when the stream has forgotten them. */
  lemma OmittedBytesStay()
    ensures var l := Ledger([Account(false, 0, 0, 0, 0, 0, [])], 0, 0, true);
            var events := [Got(0, 10), OmitOver];
            && IsHistory(l, events) && |Replay(l, events).accounts| == 1
            && Replay(l, events).arrived == 10 && Replay(l, events).accounts[0].received == 0
  {
    var l := Ledger([Account(false, 0, 0, 0, 0, 0, [])], 0, 0, true);
    var m := Apply(l, Got(0, 10));
    var n := Apply(m, OmitOver);
    assert [Got(0, 10), OmitOver][1..] == [OmitOver] && [OmitOver][1..] == [];
    assert IsHistory(m, [OmitOver]) && Replay(m, [OmitOver]) == n;
  }
}
