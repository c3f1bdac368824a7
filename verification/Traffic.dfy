/** Sending, receiving, throttling and the keeping of statistics during a TCP test (iperf_api.c, iperf_tcp.c). */
module Traffic {
  import opened IperfTime
  import opened TrafficLedger

  const NET_SOFTERROR := -1
  const NET_HARDERROR := -2

  // ---- rates ----

  /** A number of microseconds as iperf_time_in_secs gives it. */
  function Seconds(usecs: nat): real {
    usecs as real / SECOND as real
  }

  lemma SomeSeconds(usecs: nat)
    requires usecs > 0
    ensures Seconds(usecs) > 0.0
  {
  }

  /** At that elapsed time a stream may have sent at most so much, and slack bytes more. */
  predicate WithinRate(sent: nat, rate: nat, elapsed: real, slack: nat) {
    8.0 * sent as real <= rate as real * elapsed + 8.0 * slack as real
  }

  lemma AtStart(rate: nat, slack: nat)
    ensures WithinRate(0, rate, 0.0, slack)
  {
  }

  lemma Later(sent: nat, rate: nat, elapsed: real, later: real, slack: nat)
    requires WithinRate(sent, rate, elapsed, slack) && elapsed <= later
    ensures WithinRate(sent, rate, later, slack)
  {
    assert rate as real * (later - elapsed) >= 0.0;
    assert rate as real * later == rate as real * elapsed + rate as real * (later - elapsed);
  }

  lemma MoreSent(sent: nat, r: nat, rate: nat, elapsed: real, slack: nat, more: nat)
    requires WithinRate(sent, rate, elapsed, slack) && slack + r <= more
    ensures WithinRate(sent + r, rate, elapsed, more)
  {
    var allowance := rate as real * elapsed;
    assert 8.0 * r as real + 8.0 * slack as real <= 8.0 * more as real;
  }

  lemma Blocks(blksize: nat, since: nat, burst: nat)
    requires since < burst
    ensures blksize * since + blksize == blksize * (since + 1) <= blksize * burst
  {
    assert blksize * (burst - since - 1) >= 0;
    assert blksize * burst == blksize * (since + 1) + blksize * (burst - since - 1);
  }

  /** A block more after since others leaves a stream within a burst of its rate. */
  lemma OneMore(sent: nat, r: nat, rate: nat, elapsed: real, blksize: nat, since: nat, burst: nat)
    requires WithinRate(sent, rate, elapsed, blksize * since) && r <= blksize && since < burst
    ensures WithinRate(sent + r, rate, elapsed, blksize * (since + 1))
    ensures WithinRate(sent + r, rate, elapsed, blksize * burst)
  {
    hide WithinRate;
    Blocks(blksize, since, burst);
    MoreSent(sent, r, rate, elapsed, blksize * since, blksize * (since + 1));
    MoreSent(sent, r, rate, elapsed, blksize * since, blksize * burst);
  }

  lemma Quotient(bits: real, elapsed: real, x: real)
    requires elapsed > 0.0 && x == bits / elapsed
    ensures x * elapsed == bits
  {
  }

  lemma Compared(x: real, y: real, elapsed: real)
    requires elapsed > 0.0
    ensures x < y <==> x * elapsed < y * elapsed
  {
    if x < y {
      assert (y - x) * elapsed > 0.0;
    } else {
      assert (x - y) * elapsed >= 0.0;
    }
  }

  /** What the comparison of whole bits per second means. */
  lemma BelowRate(sent: nat, rate: nat, elapsed: real)
    requires elapsed > 0.0
    ensures ((sent * 8) as real / elapsed).Floor < rate <==> 8.0 * sent as real < rate as real * elapsed
    ensures 8.0 * sent as real < rate as real * elapsed ==> WithinRate(sent, rate, elapsed, 0)
  {
    var bits, r := (sent * 8) as real, rate as real;
    var x := bits / elapsed;
    Quotient(bits, elapsed, x);
    Compared(x, r, elapsed);
    assert x.Floor < rate <==> x < r;
  }

  // ---- streams ----

  class Stream {
    const sender: bool
    const start: Time  // start_time_fixed
    var greenLight: bool
    var pendingSize: nat
    var sent: nat
    var sentOmit: nat
    var received: nat
    var sentNow: nat
    var receivedNow: nat
    var intervals: seq<Interval>
    ghost var checked: real  // the elapsed time at the last check
    ghost var since: nat     // sends since then

    function Counters(): Account
      reads this`sent, this`sentOmit, this`received, this`sentNow, this`receivedNow, this`intervals
    {
      Account(sender, sent, sentOmit, received, sentNow, receivedNow, intervals)
    }

    constructor (sender: bool, start: Time)
      ensures Opened(Counters()) && this.sender == sender && this.start == start
      ensures pendingSize == 0 && greenLight && checked == 0.0 && since == 0
    {
      this.sender, this.start := sender, start;
      greenLight, pendingSize, intervals, checked, since := true, 0, [], 0.0, 0;
      sent, sentOmit, received, sentNow, receivedNow := 0, 0, 0, 0, 0;
    }

    /** The elapsed time at a time of the clock. */
    function Elapsed(now: Time): real {
      Seconds(Distance(InUsecs(start), InUsecs(now)))
    }

    ghost predicate Paced(rate: nat, blksize: nat, burst: nat)
      reads this`sent, this`checked, this`greenLight, this`since
    {
      && WithinRate(sent, rate, checked, blksize * burst)
      && (greenLight ==> WithinRate(sent, rate, checked, blksize * since))
    }

    lemma BeginsPaced(rate: nat, blksize: nat, burst: nat)
      requires Opened(Counters()) && checked == 0.0 && since == 0
      ensures Paced(rate, blksize, burst)
    {
      AtStart(rate, blksize * burst);
      AtStart(rate, blksize * 0);
    }

    /** Nwrite and Nread: how many of n bytes the kernel takes or gives, or an error. */
    method Transfer(n: nat) returns (r: int)
      ensures NET_HARDERROR <= r <= n
    {
      r :| NET_HARDERROR <= r <= n;
    }

    /** iperf_tcp_send: a block that the kernel took in part is finished by later calls. */
    method Send(blksize: nat, ghost rate: nat, ghost burst: nat) returns (r: int)
      requires pendingSize <= blksize
      modifies this
      ensures NET_HARDERROR <= r <= blksize && pendingSize <= blksize
      ensures r < 0 ==> Counters() == old(Counters())
      ensures r >= 0 ==> Counters() == old(Counters()).(sent := old(sent) + r, sentNow := old(sentNow) + r)
      ensures r >= 0 ==> pendingSize == (if old(pendingSize) == 0 then blksize else old(pendingSize)) - r
      ensures old(Paced(rate, blksize, burst)) && old(greenLight) && old(since) < burst ==> Paced(rate, blksize, burst)
      ensures greenLight == old(greenLight) && checked == old(checked) && since == old(since) + (if r < 0 then 0 else 1)
    {
      if pendingSize == 0 {
        pendingSize := blksize;
      }
      r := Transfer(pendingSize);
      if r < 0 {
        return;
      }
      if Paced(rate, blksize, burst) && greenLight && since < burst {
        OneMore(sent, r, rate, checked, blksize, since, burst);
      }
      pendingSize := pendingSize - r;
      sent := sent + r;
      sentNow := sentNow + r;
      since := since + 1;
    }

    /** iperf_tcp_recv: only what comes while the test is running counts. */
    method Receive(blksize: nat, running: bool) returns (r: int)
      modifies this`received, this`receivedNow
      ensures NET_HARDERROR <= r <= blksize
      ensures Counters() == if r < 0 || !running then old(Counters())
                           else old(Counters()).(received := old(received) + r, receivedNow := old(receivedNow) + r)
    {
      r := Transfer(blksize);
      if r < 0 {
        return;
      }
      if running {
        received := received + r;
        receivedNow := receivedNow + r;
      }
    }

    /** iperf_check_throttle, for a rate that is not 0 and a test that is not done. */
    method CheckThrottle(rate: nat, now: Time, ghost blksize: nat, ghost burst: nat)
      requires rate > 0 && Normal(start) && Normal(now) && InUsecs(start) < InUsecs(now)
      requires checked <= Elapsed(now) && WithinRate(sent, rate, checked, blksize * burst)
      modifies this`greenLight, this`checked, this`since
      ensures Paced(rate, blksize, burst) && checked == Elapsed(now) && since == 0
      ensures greenLight <==> 8.0 * sent as real < rate as real * Elapsed(now)
    {
      hide WithinRate, Seconds;
      var _, diff := Diff(start, now);
      var seconds := Seconds(InUsecs(diff));
      SomeSeconds(InUsecs(diff));
      var bitsPerSecond := ((sent * 8) as real / seconds).Floor;
      greenLight := bitsPerSecond < rate;
      BelowRate(sent, rate, seconds);
      Later(sent, rate, checked, seconds, blksize * burst);
      checked, since := seconds, 0;
    }

    /** What iperf_stats_callback does for a stream. */
    method StatsCallback(omitting: bool)
      modifies this`intervals, this`sentNow, this`receivedNow
      ensures Counters() == EndInterval(old(Counters()), omitting)
    {
      var bytes := if sender then sentNow else receivedNow;
      intervals := intervals + [Interval(bytes, omitting)];
      sentNow, receivedNow := 0, 0;
    }

    /** What iperf_reset_stats does for a stream. */
    method ResetStats()
      modifies this`sentOmit, this`received, this`sentNow, this`receivedNow
      ensures Counters() == ResetCounts(old(Counters()))
    {
      sentOmit := sent;
      received, sentNow, receivedNow := 0, 0, 0;
    }
  }

  function AccountsOf(s: seq<Stream>): (r: seq<Account>)
    reads s`sent, s`sentOmit, s`received, s`sentNow, s`receivedNow, s`intervals
    ensures |r| == |s| && forall k :: 0 <= k < |r| ==> r[k] == s[k].Counters()
  {
    if s == [] then [] else [s[0].Counters()] + AccountsOf(s[1..])
  }

  // ---- the test ----

  /** What one turn of the main loop or of a timer does to the traffic, and when. */
  datatype Turn =
    | Sending(writable: seq<bool>, now: Time)
    | Receiving(readable: seq<bool>, now: Time)
    | StatsTimer(now: Time)
    | OmitTimer(now: Time)
    | SendTimer(k: nat, now: Time)

  class Test {
    const streams: seq<Stream>
    const blksize: nat
    const rate: nat       // in bits per second, 0 for none
    const burst: nat
    const multisend: nat
    const byteLimit: nat  // settings->bytes
    const blockLimit: nat
    var bytesSent: nat
    var blocksSent: nat
    var bytesReceived: nat
    var blocksReceived: nat
    var omitting: bool
    var running: bool     // the state is TEST_RUNNING
    var done: bool

    function Accounts(): (r: seq<Account>)
      reads streams`sent, streams`sentOmit, streams`received, streams`sentNow, streams`receivedNow, streams`intervals
      ensures |r| == |streams| && forall k :: 0 <= k < |r| ==> r[k] == streams[k].Counters()
    {
      AccountsOf(streams)
    }

    function Ledger(): Ledger
      reads this`bytesSent, this`bytesReceived, this`omitting
      reads streams`sent, streams`sentOmit, streams`received, streams`sentNow, streams`receivedNow, streams`intervals
    {
      TrafficLedger.Ledger(Accounts(), bytesSent, bytesReceived, omitting)
    }

    lemma AllOpened(l: Ledger)
      requires l.total == 0 && forall k :: 0 <= k < |l.accounts| ==> Opened(l.accounts[k])
      ensures AllBalanced(l)
    {
      SumNothing(l.accounts);
    }

    /** How many blocks a stream can send between two checks. */
    function Burst(): nat {
      if burst == 0 then 1 else burst
    }

    predicate Throttled()
      reads this`done
    {
      rate > 0 && !done
    }

    /** The senders from n on have sent at most so many blocks since they were checked, those before it one more. */
    ghost predicate Sent(n: nat, rounds: nat)
      reads this`done, streams`since
    {
      Throttled() ==>
        forall k :: 0 <= k < |streams| && streams[k].sender ==> streams[k].since <= if k < n then rounds + 1 else rounds
    }

    ghost predicate Shape()
      reads streams`pendingSize
    {
      && (forall i, j :: 0 <= i < j < |streams| ==> streams[i] != streams[j])
      && forall k :: 0 <= k < |streams| ==> streams[k].pendingSize <= blksize
    }

    /** No sender is ahead of its rate by more than a burst. */
    ghost predicate AllPaced()
      reads this`done, streams`sent, streams`checked, streams`greenLight, streams`since
    {
      Throttled() ==> forall k :: 0 <= k < |streams| && streams[k].sender ==> streams[k].Paced(rate, blksize, Burst())
    }

    ghost predicate Valid()
      reads this, streams
    {
      Shape() && AllPaced() && AllBalanced(Ledger())
    }

    lemma Begins()
      requires forall i, j :: 0 <= i < j < |streams| ==> streams[i] != streams[j]
      requires forall s :: s in streams ==> Opened(s.Counters()) && s.pendingSize == 0 && s.checked == 0.0 && s.since == 0
      requires bytesSent == 0
      ensures Valid() && Sent(0, 0)
    {
      hide Stream.Paced, Opened, AccountsOf, Balanced;
      forall k | 0 <= k < |streams|
        ensures streams[k].Paced(rate, blksize, Burst())
      {
        streams[k].BeginsPaced(rate, blksize, Burst());
      }
      AllOpened(Ledger());
    }

    constructor (streams: seq<Stream>, blksize: nat, rate: nat, burst: nat, multisend: nat, byteLimit: nat, blockLimit: nat, omitting: bool)
      requires forall i, j :: 0 <= i < j < |streams| ==> streams[i] != streams[j]
      requires forall s :: s in streams ==> Opened(s.Counters()) && s.pendingSize == 0 && s.checked == 0.0 && s.since == 0
      ensures Valid() && Sent(0, 0) && this.streams == streams && this.omitting == omitting && running && !done
      ensures this.blksize == blksize && this.rate == rate && this.burst == burst
    {
      this.streams, this.blksize, this.rate, this.burst, this.multisend := streams, blksize, rate, burst, multisend;
      this.byteLimit, this.blockLimit := byteLimit, blockLimit;
      bytesSent, blocksSent, bytesReceived, blocksReceived := 0, 0, 0, 0;
      this.omitting, running, done := omitting, true, false;
      new;
      Begins();
    }

    /** The clock has moved on since the test began and does not run backwards. */
    ghost predicate Clock(now: Time)
      reads streams`checked
    {
      Normal(now) && forall k :: 0 <= k < |streams| ==>
        && Normal(streams[k].start) && InUsecs(streams[k].start) < InUsecs(now)
        && streams[k].checked <= streams[k].Elapsed(now)
    }

    lemma WroteTotal(l: Ledger, k: nat, r: nat)
      requires Possible(l, Wrote(k, r))
      ensures Apply(l, Wrote(k, r)) == TrafficLedger.Ledger(Apply(l, Wrote(k, r)).accounts, l.total + r, l.arrived, l.omitting)
    {
    }

    method Transmit(k: nat) returns (r: int)
      requires Shape() && AllPaced() && k < |streams| && streams[k].sender && streams[k].greenLight
      requires Throttled() ==> streams[k].since < Burst()
      modifies streams[k]
      ensures Shape() && AllPaced() && r >= NET_HARDERROR
      ensures Accounts() == if r < 0 then old(Accounts()) else Apply(old(Ledger()), Wrote(k, r)).accounts
      ensures streams[k].checked == old(streams[k].checked) && streams[k].since == old(streams[k].since) + if r < 0 then 0 else 1
    {
      hide WithinRate, AccountsOf;
      r := streams[k].Send(blksize, rate, Burst());
    }

    /** The counting of what a stream has sent. */
    method Count(k: nat, r: nat, ghost was: Ledger)
      requires k < |streams| && AllBalanced(was) && Possible(was, Wrote(k, r))
      requires Accounts() == Apply(was, Wrote(k, r)).accounts
      requires bytesSent == was.total && bytesReceived == was.arrived && omitting == was.omitting
      modifies this`bytesSent, this`blocksSent
      ensures Ledger() == Apply(was, Wrote(k, r)) && AllBalanced(Ledger())
      ensures blocksSent == old(blocksSent) + if streams[k].pendingSize == 0 then 1 else 0
    {
      hide Apply, AllBalanced, AccountsOf;
      WroteTotal(was, k, r);
      ApplyKeeps(was, Wrote(k, r));
      bytesSent := bytesSent + r;
      if streams[k].pendingSize == 0 {
        blocksSent := blocksSent + 1;
      }
    }

    /** The send and the counting of what it sent. */
    method Write(k: nat) returns (r: int)
      requires Valid() && k < |streams| && streams[k].sender && streams[k].greenLight
      requires Throttled() ==> streams[k].since < Burst()
      modifies this`bytesSent, this`blocksSent, streams[k]
      ensures Valid() && r >= NET_HARDERROR
      ensures Ledger() == if r < 0 then old(Ledger()) else Apply(old(Ledger()), Wrote(k, r))
      ensures streams[k].checked == old(streams[k].checked) && streams[k].since == old(streams[k].since) + if r < 0 then 0 else 1
      ensures blocksSent == old(blocksSent) + if r >= 0 && streams[k].pendingSize == 0 then 1 else 0
    {
      hide WithinRate, Apply, Balanced, AllBalanced, Shape, AllPaced, AccountsOf, Stream.Paced, SumCounted;
      ghost var was := Ledger();
      r := Transmit(k);
      if r >= 0 {
        Count(k, r, was);
      }
    }

    /** iperf_check_throttle. */
    method Check(sp: Stream, now: Time)
      requires Clock(now) && sp in streams
      requires Throttled() ==> WithinRate(sp.sent, rate, sp.checked, blksize * Burst())
      modifies sp`greenLight, sp`checked, sp`since
      ensures Clock(now)
      ensures if Throttled() then sp.Paced(rate, blksize, Burst()) && sp.since == 0 else sp.since == old(sp.since)
    {
      if !done && rate != 0 {
        sp.CheckThrottle(rate, now, blksize, Burst());
      }
    }

    /** One send of iperf_send, with its check when every send is checked. */
    method SendOne(k: nat, now: Time, checks: bool) returns (r: int)
      requires Valid() && Clock(now) && k < |streams| && streams[k].sender && streams[k].greenLight
      requires Throttled() ==> streams[k].since < Burst()
      modifies this`bytesSent, this`blocksSent, streams[k]
      ensures Valid() && Clock(now) && r >= NET_HARDERROR
      ensures Ledger() == if r < 0 then old(Ledger()) else Apply(old(Ledger()), Wrote(k, r))
      ensures Throttled() ==> streams[k].since <= if r < 0 then old(streams[k].since) else if checks then 0 else old(streams[k].since) + 1
    {
      hide WithinRate, Apply, AllBalanced, AccountsOf;
      r := Write(k);
      if r >= 0 && checks {
        Check(streams[k], now);
      }
    }

    /** A log of sends that leads from a ledger to that of the test. */
    ghost predicate Logged(was: Ledger, log: seq<Event>, writable: seq<bool>)
      reads this`bytesSent, this`bytesReceived, this`omitting, streams`sent, streams`sentOmit, streams`received, streams`sentNow, streams`receivedNow, streams`intervals
    {
      && (forall e :: e in log ==> e.Wrote? && e.k < |writable| && writable[e.k])
      && IsHistory(was, log) && Ledger() == Replay(was, log)
    }

    lemma Apart()
      requires Valid()
      ensures forall i, j :: 0 <= i < j < |streams| ==> streams[i] != streams[j]
    {
    }

    /** What one stream gets to do in a round of iperf_send. */
    method Attempt(n: nat, left: nat, writable: seq<bool>, now: Time, checks: bool,
                   ghost rounds: nat, ghost was: Ledger, ghost before: seq<Event>)
      returns (r: int, sent: bool, stop: bool, ghost log: seq<Event>)
      requires Valid() && Clock(now) && n < |streams| == |writable| && Sent(n, rounds) && Logged(was, before, writable)
      requires Throttled() ==> rounds < Burst()
      modifies this`bytesSent, this`blocksSent, streams[n]
      ensures Valid() && Clock(now) && r >= NET_HARDERROR && Logged(was, log, writable) && |log| <= |before| + 1
      ensures Sent(n + 1, rounds) && (checks && rounds == 0 && old(Sent(0, 0)) ==> Sent(0, 0))
      ensures sent ==> r >= 0 && !stop
    {
      hide WithinRate, Apply, AllBalanced, AccountsOf, Valid, Clock, Replay, IsHistory, Stream.Paced;
      Apart();
      r, sent, stop, log := 0, false, false, before;
      var sp := streams[n];
      if !(sp.greenLight && sp.sender && writable[n]) {
        return;
      }
      if left > 1 && ((byteLimit != 0 && bytesSent >= byteLimit) || (blockLimit != 0 && blocksSent >= blockLimit)) {
        stop := true;
        return;
      }
      r := SendOne(n, now, checks);
      if r < 0 {
        stop := true;
      } else {
        sent := true;
        log := before + [Wrote(n, r)];
        ReplayAppend(was, before, Wrote(n, r));
      }
    }

    /** One round of the outer loop of iperf_send, with so many rounds left. */
    method SendRound(left: nat, writable: seq<bool>, now: Time, checks: bool, ghost rounds: nat, ghost was: Ledger, ghost before: seq<Event>)
      returns (r: int, active: bool, ghost log: seq<Event>)
      requires Valid() && Clock(now) && |writable| == |streams| && Sent(0, rounds) && Logged(was, before, writable)
      requires Throttled() ==> rounds < Burst()
      modifies this`bytesSent, this`blocksSent, streams
      ensures Valid() && Clock(now) && r >= NET_HARDERROR && Logged(was, log, writable) && |log| <= |before| + |streams|
      ensures Sent(0, rounds + 1) && (checks && rounds == 0 ==> Sent(0, 0))
    {
      hide Valid, Clock, Logged;
      r, active, log := 0, false, before;
      var n := 0;
      while n < |streams|
        invariant 0 <= n <= |streams| && r == 0 && Valid() && Clock(now) && Logged(was, log, writable) && |log| <= |before| + n
        invariant Sent(n, rounds) && (checks && rounds == 0 ==> Sent(0, 0))
      {
        var w, sent, stop;
        w, sent, stop, log := Attempt(n, left, writable, now, checks, rounds, was, log);
        active := active || sent;
        n := n + 1;
        if stop {
          if w < 0 && w != NET_SOFTERROR {
            r := w;
          }
          break;
        }
      }
    }

    lemma Unlogged(writable: seq<bool>)
      ensures Logged(Ledger(), [], writable)
    {
    }

    method CheckSender(n: nat, now: Time)
      requires Valid() && Clock(now) && n < |streams| && streams[n].sender
      modifies {streams[n]}`greenLight, {streams[n]}`checked, {streams[n]}`since
      ensures Valid() && Clock(now)
      ensures Throttled() ==> streams[n].since == 0
    {
      hide WithinRate, AllBalanced, AccountsOf;
      Check(streams[n], now);
    }

    /** The checks at the end of iperf_send. */
    method CheckAll(now: Time)
      requires Valid() && Clock(now)
      modifies streams`greenLight, streams`checked, streams`since
      ensures Valid() && Clock(now) && Sent(0, 0)
    {
      hide Valid, Clock;
      Apart();
      for n := 0 to |streams|
        invariant Valid() && Clock(now)
        invariant Throttled() ==> forall k :: 0 <= k < n && streams[k].sender ==> streams[k].since == 0
      {
        if streams[n].sender {
          CheckSender(n, now);
        }
      }
    }

    /** iperf_send, in a test that has begun: its sends are in the log, and every throttled stream stays within a
        burst of its rate. An error other than a full buffer ends the test. */
    method Send(writable: seq<bool>, now: Time) returns (r: int, ghost log: seq<Event>)
      requires Valid() && Clock(now) && Sent(0, 0) && |writable| == |streams|
      modifies this`bytesSent, this`blocksSent, streams
      ensures Valid() && Clock(now) && Logged(old(Ledger()), log, writable)
      ensures r == 0 ==> Sent(0, 0)
    {
      hide Valid, Clock, Logged, Sent, AccountsOf, Replay, IsHistory;
      r, log := 0, [];
      ghost var was := Ledger();
      Unlogged(writable);
      var rounds := if burst != 0 then burst else if rate == 0 then multisend else 1;
      var checks := rate != 0 && burst == 0;
      var left := rounds;
      while left > 0
        invariant 0 <= left <= rounds && Valid() && Clock(now) && Logged(was, log, writable)
        invariant Sent(0, rounds - left) && (checks && left < rounds ==> Sent(0, 0))
      {
        var active;
        r, active, log := SendRound(left, writable, now, checks, rounds - left, was, log);
        if r < 0 {
          return;
        }
        left := left - 1;
        if !active {
          break;
        }
      }
      if !checks {
        CheckAll(now);
      }
    }

    // ---- receiving ----

    lemma OneEvent(l: Ledger, e: Event)
      requires Possible(l, e)
      ensures IsHistory(l, [e]) && Replay(l, [e]) == Apply(l, e)
    {
      assert [e][1..] == [];
    }

    lemma NoEvents(l: Ledger)
      ensures IsHistory(l, []) && Replay(l, []) == l && Flatten([]) == []
    {
    }

    ghost function Receipt(n: nat, r: nat): Event
      reads this`running
    {
      if running then Got(n, r) else Late(n, r)
    }

    method Collect(n: nat) returns (r: int)
      requires Shape() && n < |streams| && !streams[n].sender
      modifies {streams[n]}`received, {streams[n]}`receivedNow
      ensures r >= 0 ==> Possible(old(Ledger()), Receipt(n, r))
      ensures Accounts() == if r < 0 then old(Accounts()) else Apply(old(Ledger()), Receipt(n, r)).accounts
    {
      hide AccountsOf;
      r := streams[n].Receive(blksize, running);
    }

    lemma ReceiptTotal(l: Ledger, n: nat, r: nat)
      requires Possible(l, Receipt(n, r))
      ensures Apply(l, Receipt(n, r)) == TrafficLedger.Ledger(Apply(l, Receipt(n, r)).accounts, l.total, l.arrived + r, l.omitting)
    {
    }

    /** The counting of what a stream has received. */
    method CountReceived(n: nat, r: nat, ghost was: Ledger)
      requires AllBalanced(was) && Possible(was, Receipt(n, r)) && Accounts() == Apply(was, Receipt(n, r)).accounts
      requires bytesSent == was.total && bytesReceived == was.arrived && omitting == was.omitting
      modifies this`bytesReceived, this`blocksReceived
      ensures Ledger() == Apply(was, Receipt(n, r)) && AllBalanced(Ledger())
    {
      hide Apply, AllBalanced, AccountsOf, Receipt;
      ReceiptTotal(was, n, r);
      ApplyKeeps(was, Receipt(n, r));
      bytesReceived := bytesReceived + r;
      blocksReceived := blocksReceived + 1;
    }

    method ReceiveOne(n: nat) returns (r: int)
      requires Valid() && n < |streams| && !streams[n].sender
      modifies this`bytesReceived, this`blocksReceived, {streams[n]}`received, {streams[n]}`receivedNow
      ensures Valid()
      ensures Ledger() == if r < 0 then old(Ledger()) else Apply(old(Ledger()), Receipt(n, r))
      ensures r >= 0 ==> Possible(old(Ledger()), Receipt(n, r))
    {
      hide Shape, AllPaced, Apply, AllBalanced, AccountsOf, Receipt, Possible;
      ghost var was := Ledger();
      r := Collect(n);
      if r >= 0 {
        CountReceived(n, r, was);
      }
    }

    /** A log of at most one receive for each readable stream up to n, in order. */
    ghost predicate ReadOnce(log: seq<Event>, n: nat, readable: seq<bool>)
      reads this`running
    {
      && (forall i :: 0 <= i < |log| ==>
            (if running then log[i].Got? else log[i].Late?) && log[i].k < n && log[i].k < |readable| && readable[log[i].k])
      && forall i, j :: 0 <= i < j < |log| ==> (log[i].Got? || log[i].Late?) && (log[j].Got? || log[j].Late?) && log[i].k < log[j].k
    }

    /** Each readable receiver up to n has its receive in the log. */
    ghost predicate ReadAll(log: seq<Event>, n: nat, readable: seq<bool>) {
      forall k :: 0 <= k < n && k < |streams| && k < |readable| && readable[k] && !streams[k].sender ==>
        exists e :: e in log && (e.Got? || e.Late?) && e.k == k
    }

    lemma NothingRead(readable: seq<bool>)
      ensures ReadOnce([], 0, readable) && ReadAll([], 0, readable)
    {
    }

    lemma ReadOnceMore(log: seq<Event>, n: nat, m: nat, readable: seq<bool>)
      requires ReadOnce(log, n, readable) && n <= m
      ensures ReadOnce(log, m, readable)
    {
    }

    lemma NoneRead(log: seq<Event>, n: nat, readable: seq<bool>)
      requires ReadAll(log, n, readable) && n < |streams| == |readable| && !(readable[n] && !streams[n].sender)
      ensures ReadAll(log, n + 1, readable)
    {
    }

    lemma OneRead(log: seq<Event>, n: nat, readable: seq<bool>, r: nat)
      requires ReadOnce(log, n, readable) && ReadAll(log, n, readable) && n < |streams| == |readable| && readable[n]
      ensures ReadOnce(log + [Receipt(n, r)], n + 1, readable) && ReadAll(log + [Receipt(n, r)], n + 1, readable)
    {
      var all := log + [Receipt(n, r)];
      assert Receipt(n, r) in all;
      forall k | 0 <= k < n && readable[k] && !streams[k].sender
        ensures exists e :: e in all && (e.Got? || e.Late?) && e.k == k
      {
        var e :| e in log && (e.Got? || e.Late?) && e.k == k;
        assert e in all;
      }
    }

    /** iperf_recv: what comes after the test has left TEST_RUNNING is read, but not on the stream's account. */
    method Receive(readable: seq<bool>) returns (r: int, ghost log: seq<Event>)
      requires Valid() && |readable| == |streams|
      modifies this`bytesReceived, this`blocksReceived, streams`received, streams`receivedNow
      ensures Valid() && IsHistory(old(Ledger()), log) && Ledger() == Replay(old(Ledger()), log)
      ensures ReadOnce(log, |streams|, readable) && (r == 0 ==> ReadAll(log, |streams|, readable))
    {
      hide Valid, IsHistory, Replay, Apply, AccountsOf, ReadOnce, ReadAll, Receipt;
      r, log := 0, [];
      ghost var was := Ledger();
      NoEvents(was);
      NothingRead(readable);
      for n := 0 to |streams|
        invariant Valid() && ReadOnce(log, n, readable) && ReadAll(log, n, readable)
        invariant IsHistory(was, log) && Ledger() == Replay(was, log)
      {
        if readable[n] && !streams[n].sender {
          r := ReceiveOne(n);
          if r < 0 {
            ReadOnceMore(log, n, |streams|, readable);
            return;
          }
          ReplayAppend(was, log, Receipt(n, r));
          OneRead(log, n, readable, r);
          log := log + [Receipt(n, r)];
        } else {
          ReadOnceMore(log, n, n + 1, readable);
          NoneRead(log, n, readable);
        }
      }
      r := 0;
    }

    // ---- statistics ----

    method EndAll()
      requires Shape()
      modifies streams`intervals, streams`sentNow, streams`receivedNow
      ensures Accounts() == EndIntervals(old(Accounts()), omitting)
    {
      hide AccountsOf, EndInterval;
      for n := 0 to |streams|
        invariant forall k :: 0 <= k < n ==> streams[k].Counters() == EndInterval(old(streams[k].Counters()), omitting)
        invariant forall k :: n <= k < |streams| ==> streams[k].Counters() == old(streams[k].Counters())
      {
        streams[n].StatsCallback(omitting);
      }
    }

    /** iperf_stats_callback. */
    method StatsCallback()
      requires Valid()
      modifies streams`intervals, streams`sentNow, streams`receivedNow
      ensures Valid() && Ledger() == Apply(old(Ledger()), Tick)
    {
      hide AllBalanced, AccountsOf, EndIntervals, AllPaced, Shape;
      ApplyKeeps(Ledger(), Tick);
      EndAll();
    }

    method ResetStats()
      requires Shape()
      modifies streams`sentOmit, streams`received, streams`sentNow, streams`receivedNow
      ensures Accounts() == ResetAll(old(Accounts()))
    {
      hide AccountsOf, ResetCounts;
      for n := 0 to |streams|
        invariant forall k :: 0 <= k < n ==> streams[k].Counters() == ResetCounts(old(streams[k].Counters()))
        invariant forall k :: n <= k < |streams| ==> streams[k].Counters() == old(streams[k].Counters())
      {
        streams[n].ResetStats();
      }
    }

    /** The end of the omit period: omit_timer_proc with iperf_reset_stats. */
    method EndOmit()
      requires Valid() && omitting
      modifies this`omitting, this`bytesSent, this`blocksSent
      modifies streams`sentOmit, streams`received, streams`sentNow, streams`receivedNow
      ensures Valid() && Ledger() == Apply(old(Ledger()), OmitOver) && blocksSent == 0 && !omitting
    {
      hide AllBalanced, AccountsOf, ResetAll, AllPaced, Shape;
      ApplyKeeps(Ledger(), OmitOver);
      omitting := false;
      bytesSent, blocksSent := 0, 0;
      ResetStats();
    }

    // ---- whole runs ----

    ghost predicate Meant(turn: Turn) {
      match turn
      case Sending(writable, _) => |writable| == |streams|
      case Receiving(readable, _) => |readable| == |streams|
      case SendTimer(k, _) => k < |streams| && streams[k].sender
      case _ => true
    }

    /** The events of a turn, in which the omit period was still running or not. */
    ghost predicate Did(turn: Turn, omitting: bool, ok: bool, log: seq<Event>)
      reads this`running
    {
      match turn
      case Sending(writable, _) => forall e :: e in log ==> e.Wrote? && e.k < |writable| && writable[e.k]
      case Receiving(readable, _) => ReadOnce(log, |streams|, readable) && (ok ==> ReadAll(log, |streams|, readable))
      case StatsTimer(_) => log == [Tick]
      case OmitTimer(_) => log == if omitting then [OmitOver] else []
      case SendTimer(_, _) => log == []
    }

    lemma ClockLater(now: Time, later: Time)
      requires Clock(now) && Normal(later) && InUsecs(now) <= InUsecs(later)
      ensures Clock(later)
    {
    }

    /** At that time no sender has sent more bits than its rate allows, but for a burst of blocks. */
    ghost predicate AllWithinRate(now: Time)
      reads streams`sent
    {
      forall k :: 0 <= k < |streams| && streams[k].sender ==>
        WithinRate(streams[k].sent, rate, streams[k].Elapsed(now), blksize * Burst())
    }

    /** A sender that was within a burst of its rate when its light was checked is so at every later time. */
    lemma PacedNow(now: Time)
      requires AllPaced() && Clock(now) && Throttled()
      ensures AllWithinRate(now)
    {
      forall k | 0 <= k < |streams| && streams[k].sender
        ensures WithinRate(streams[k].sent, rate, streams[k].Elapsed(now), blksize * Burst())
      {
        Later(streams[k].sent, rate, streams[k].checked, streams[k].Elapsed(now), blksize * Burst());
      }
    }

    method Take(turn: Turn) returns (ok: bool, ghost log: seq<Event>)
      requires Valid() && Clock(turn.now) && Sent(0, 0) && Meant(turn)
      modifies this, streams
      ensures Valid() && Clock(turn.now) && (ok ==> Sent(0, 0)) && done == old(done) && running == old(running)
      ensures omitting == (old(omitting) && !turn.OmitTimer?)
      ensures Did(turn, old(omitting), ok, log)
      ensures IsHistory(old(Ledger()), log) && Ledger() == Replay(old(Ledger()), log)
    {
      hide Valid, Clock, AllPaced, AllBalanced, AccountsOf, Apply, IsHistory, Replay, ReadOnce, ReadAll;
      ok, log := true, [];
      NoEvents(Ledger());
      match turn
      case Sending(writable, now) =>
        var r;
        r, log := Send(writable, now);
        ok := r == 0;
      case Receiving(readable, now) =>
        var r;
        r, log := Receive(readable);
        ok := r == 0;
      case StatsTimer(now) =>
        OneEvent(Ledger(), Tick);
        StatsCallback();
        log := [Tick];
      case OmitTimer(now) =>
        if omitting {
          OneEvent(Ledger(), OmitOver);
          EndOmit();
          log := [OmitOver];
        }
      case SendTimer(k, now) =>
        CheckSender(k, now);
    }

    /** The omit period is over after the first turn of its timer. */
    ghost predicate OmitsAt(omits: bool, turns: seq<Turn>, i: nat)
      requires i <= |turns|
    {
      omits && forall j :: 0 <= j < i ==> !turns[j].OmitTimer?
    }

    /** Any turns in any order, with a clock that does not run backwards, up to the first error: each turn taken has its
        events in its log, the ledger is that of the logs, and at the time of the last turn each throttled sender is within
        a burst of its rate. */
    method Run(turns: seq<Turn>, start: Time) returns (ok: bool, ghost now: Time, ghost logs: seq<seq<Event>>)
      requires Valid() && Clock(start) && Sent(0, 0)
      requires forall i :: 0 <= i < |turns| ==> Meant(turns[i]) && Normal(turns[i].now) && InUsecs(start) <= InUsecs(turns[i].now)
      requires forall i, j :: 0 <= i < j < |turns| ==> InUsecs(turns[i].now) <= InUsecs(turns[j].now)
      modifies this, streams
      ensures |logs| <= |turns| && (ok ==> |logs| == |turns|) && now == if logs == [] then start else turns[|logs| - 1].now
      ensures forall i :: 0 <= i < |logs| ==>
                Did(turns[i], OmitsAt(old(omitting), turns, i), ok || i < |logs| - 1, logs[i])
      ensures done == old(done) && running == old(running)
      ensures Valid() && Clock(now) && (ok ==> Sent(0, 0))
      ensures rate > 0 && !old(done) ==> AllWithinRate(now)
      ensures IsHistory(old(Ledger()), Flatten(logs)) && Ledger() == Replay(old(Ledger()), Flatten(logs))
    {
      hide Clock, AllPaced, AllBalanced, Sent, IsHistory, Replay, Apply, AccountsOf, WithinRate, Shape, Did, Flatten, Meant;
      ok, now, logs := true, start, [];
      NoEvents(Ledger());
      var taken := 0;
      while ok && taken < |turns|
        invariant 0 <= taken <= |turns| && |logs| == taken && now == if taken == 0 then start else turns[taken - 1].now
        invariant forall i :: 0 <= i < taken ==>
                    Did(turns[i], OmitsAt(old(omitting), turns, i), ok || i < taken - 1, logs[i])
        invariant omitting == OmitsAt(old(omitting), turns, taken)
        invariant done == old(done) && running == old(running)
        invariant Valid() && Clock(now) && (ok ==> Sent(0, 0))
        invariant IsHistory(old(Ledger()), Flatten(logs)) && Ledger() == Replay(old(Ledger()), Flatten(logs))
        decreases |turns| - taken
      {
        ClockLater(now, turns[taken].now);
        now := turns[taken].now;
        ghost var log;
        ok, log := Take(turns[taken]);
        FlattenMore(old(Ledger()), logs, log);
        logs := logs + [log];
        taken := taken + 1;
      }
      if Throttled() {
        PacedNow(now);
      }
    }
  }
}
