/** The sequence numbers of a UDP stream (iperf_udp.c): what the receiver concludes from the packets that arrive. */
module UdpCount {

  /** packet_count, cnt_error and outoforder_packets of a receiving stream. */
  datatype Counts = Counts(packets: nat, errors: nat, outOfOrder: nat)

  /** What the arrival of a packet with number n changes. */
  function Arrive(c: Counts, n: nat): Counts {
    if n > c.packets then Counts(n, c.errors + (n - 1 - c.packets), c.outOfOrder)
    else Counts(c.packets, if c.errors > 0 then c.errors - 1 else 0, c.outOfOrder + 1)
  }

  function Arrivals(numbers: seq<nat>): Counts {
    if numbers == [] then Counts(0, 0, 0) else Arrive(Arrivals(numbers[..|numbers| - 1]), numbers[|numbers| - 1])
  }

  // ---- what they stand for ----

  /** How many of the numbers 1 to max are not among those received. */
  function Lost(max: nat, numbers: seq<nat>): nat {
    if max == 0 then 0 else Lost(max - 1, numbers) + if max in numbers then 0 else 1
  }

  function Highest(numbers: seq<nat>): (h: nat)
    ensures forall n :: n in numbers ==> n <= h
    ensures h != 0 ==> h in numbers
  {
    if numbers == [] then 0
    else
      var h := Highest(numbers[..|numbers| - 1]);
      assert numbers == numbers[..|numbers| - 1] + [numbers[|numbers| - 1]];
      if numbers[|numbers| - 1] > h then numbers[|numbers| - 1] else h
  }

  predicate Distinct(numbers: seq<nat>) {
    forall i, j :: 0 <= i < j < |numbers| ==> numbers[i] != numbers[j]
  }

  lemma {:induction false} LostAppend(max: nat, numbers: seq<nat>, n: nat)
    ensures Lost(max, numbers + [n]) == Lost(max, numbers) - if 1 <= n <= max && n !in numbers then 1 else 0
  {
    if max > 0 {
      LostAppend(max - 1, numbers, n);
    }
  }

  /** Above the highest number all are still to come. */
  lemma {:induction false} LostAbove(low: nat, max: nat, numbers: seq<nat>)
    requires low <= max && forall n :: n in numbers ==> n <= low
    ensures Lost(max, numbers) == Lost(low, numbers) + (max - low)
  {
    if low < max {
      LostAbove(low, max - 1, numbers);
    }
  }

  /** The last arrival: the highest number and the lost ones before and after it. */
  lemma LastArrival(numbers: seq<nat>)
    requires numbers != []
    ensures var before, n := numbers[..|numbers| - 1], numbers[|numbers| - 1];
            var h := Highest(before);
            if n > h then Highest(numbers) == n && Lost(n, numbers) == Lost(h, before) + (n - 1 - h)
            else Highest(numbers) == h && Lost(h, numbers) == Lost(h, before) - if n >= 1 && n !in before then 1 else 0
  {
    var before, n := numbers[..|numbers| - 1], numbers[|numbers| - 1];
    assert numbers == before + [n];
    LostAppend(Highest(numbers), before, n);
    LostAbove(Highest(before), Highest(numbers), before);
  }

  /** Whatever arrives, the packet count is the highest number seen, and no more packets are counted as lost than are. */
  lemma {:induction false} NeverTooManyErrors(numbers: seq<nat>)
    ensures Arrivals(numbers).packets == Highest(numbers)
    ensures Arrivals(numbers).errors <= Lost(Highest(numbers), numbers)
  {
    if numbers != [] {
      NeverTooManyErrors(numbers[..|numbers| - 1]);
      LastArrival(numbers);
    }
  }

  /** Without duplicates the error count is exact: with the packets received it makes up all numbers to the highest. */
  lemma {:induction false} ErrorsAreLosses(numbers: seq<nat>)
    requires Distinct(numbers) && forall n :: n in numbers ==> n >= 1
    ensures Arrivals(numbers).packets == Highest(numbers)
    ensures Arrivals(numbers).errors == Lost(Highest(numbers), numbers)
    ensures Arrivals(numbers).errors + |numbers| == Arrivals(numbers).packets
  {
    if numbers != [] {
      var before, n := numbers[..|numbers| - 1], numbers[|numbers| - 1];
      assert numbers == before + [n];
      assert forall m :: m in before ==> m in numbers;
      assert n !in before && n in numbers;
      ErrorsAreLosses(before);
      LastArrival(numbers);
    }
  }

  /** How many duplicates, or packets without a number, took an error away. */
  function TakenAway(numbers: seq<nat>): nat {
    if numbers == [] then 0
    else
      var before, n := numbers[..|numbers| - 1], numbers[|numbers| - 1];
      TakenAway(before)
      + if n <= Highest(before) && (n == 0 || n in before) && Arrivals(before).errors > 0 then 1 else 0
  }

  /** How many late packets found no error to take away. */
  function Unnoticed(numbers: seq<nat>): nat {
    if numbers == [] then 0
    else
      var before, n := numbers[..|numbers| - 1], numbers[|numbers| - 1];
      Unnoticed(before)
      + if 1 <= n <= Highest(before) && n !in before && Arrivals(before).errors == 0 then 1 else 0
  }

  /** Exactly how far the errors fall short; so they are exact just when as many late packets went unnoticed as
      duplicates took errors away. */
  lemma {:induction false} ErrorsFallShort(numbers: seq<nat>)
    ensures Arrivals(numbers).errors + TakenAway(numbers) == Lost(Highest(numbers), numbers) + Unnoticed(numbers)
  {
    if numbers != [] {
      ErrorsFallShort(numbers[..|numbers| - 1]);
      NeverTooManyErrors(numbers[..|numbers| - 1]);
      LastArrival(numbers);
    }
  }

  lemma ArrivalsAppend(numbers: seq<nat>, n: nat)
    ensures Arrivals(numbers + [n]) == Arrive(Arrivals(numbers), n)
  {
    assert (numbers + [n])[..|numbers|] == numbers;
  }

  /** Three numbers one after the other. */
  lemma ThreeArrivals(a: nat, b: nat, c: nat)
    ensures Arrivals([a, b, c]) == Arrive(Arrive(Arrive(Counts(0, 0, 0), a), b), c)
  {
    hide Arrive;
    ArrivalsAppend([], a);
    ArrivalsAppend([a], b);
    ArrivalsAppend([a, b], c);
    assert [] + [a] == [a] && [a] + [b] == [a, b] && [a, b] + [c] == [a, b, c];
  }

  lemma OnlyTwoLost(numbers: seq<nat>)
    requires 1 in numbers && 2 !in numbers && 3 in numbers
    ensures Lost(3, numbers) == 1
  {
    assert Lost(1, numbers) == Lost(0, numbers) == 0;
    assert Lost(2, numbers) == 1;
  }

  /** Of 1 and 3, and 3 again, packet 2 is still missing, but no error is left. */
  lemma DuplicatesHideLosses()
    ensures Arrivals([1, 3, 3]).errors == 0 && Lost(3, [1, 3, 3]) == 1
  {
    hide Arrivals, Lost;
    ThreeArrivals(1, 3, 3);
    OnlyTwoLost([1, 3, 3]);
  }

  /** Packets out of order are those that arrive behind a higher number. */
  function Overtaken(numbers: seq<nat>): nat {
    if numbers == [] then 0
    else
      var before := numbers[..|numbers| - 1];
      Overtaken(before) + if numbers[|numbers| - 1] <= Highest(before) then 1 else 0
  }

  lemma {:induction false} OutOfOrderIsOvertaken(numbers: seq<nat>)
    ensures Arrivals(numbers).outOfOrder == Overtaken(numbers)
  {
    if numbers != [] {
      OutOfOrderIsOvertaken(numbers[..|numbers| - 1]);
      NeverTooManyErrors(numbers[..|numbers| - 1]);
    }
  }

  // ---- the streams ----

  class UdpStream {
    var packetCount: nat
    var cntError: nat
    var outoforderPackets: nat
    ghost var wire: seq<nat>  // the numbers that were sent, or have been received, so far

    predicate Fresh()
      reads this
    {
      packetCount == cntError == outoforderPackets == 0
    }

    constructor ()
      ensures Fresh() && wire == []
    {
      packetCount, cntError, outoforderPackets, wire := 0, 0, 0, [];
    }

    /** The stream is a receiver that has received what is in wire. */
    ghost predicate Receiving()
      reads this
    {
      Counts(packetCount, cntError, outoforderPackets) == Arrivals(wire)
    }

    /** The part of iperf_udp_recv that deals with the number of a packet. */
    method Receive(pcount: nat, running: bool)
      requires Receiving()
      modifies this
      ensures Receiving() && wire == if running then old(wire) + [pcount] else old(wire)
    {
      if !running {
        return;
      }
      if pcount >= packetCount + 1 {
        if pcount > packetCount + 1 {
          cntError := cntError + ((pcount - 1) - packetCount);
        }
        packetCount := pcount;
      } else {
        outoforderPackets := outoforderPackets + 1;
        if cntError > 0 {
          cntError := cntError - 1;
        }
      }
      wire := wire + [pcount];
      assert wire[..|wire| - 1] == old(wire);
    }

    /** The stream is a sender: its numbers rise, and none is used twice. */
    ghost predicate Numbering()
      reads this
    {
      && (forall i :: 0 <= i < |wire| ==> 1 <= wire[i] <= packetCount)
      && forall i, j :: 0 <= i < j < |wire| ==> wire[i] < wire[j]
    }

    /** The numbering in iperf_udp_send: a number is used up even when the packet is not taken by the kernel. */
    method Send(taken: bool)
      requires Numbering()
      modifies this
      ensures Numbering() && packetCount == old(packetCount) + 1
      ensures wire == if taken then old(wire) + [packetCount] else old(wire)
    {
      packetCount := packetCount + 1;
      if taken {
        wire := wire + [packetCount];
      }
    }
  }

  /** Between a sender and a receiver of which the network may lose and reorder packets, but not duplicate them, the
      errors, with the packets that have come, make up the numbers up to the highest that has come. */
  lemma LossesEndToEnd(sender: UdpStream, receiver: UdpStream)
    requires sender.Numbering() && receiver.Receiving()
    requires Distinct(receiver.wire) && forall n :: n in receiver.wire ==> n in sender.wire
    ensures receiver.packetCount <= sender.packetCount
    ensures receiver.cntError + |receiver.wire| == receiver.packetCount
    ensures receiver.cntError == Lost(receiver.packetCount, receiver.wire)
  {
    ErrorsAreLosses(receiver.wire);
  }
}
