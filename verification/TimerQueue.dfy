/** The timers of timer.c: a doubly linked list of pending timers in the order in which they are due,
    and a list of timers to be used again. */
module TimerQueue {
  import opened IperfTime
  import opened Sequences

  class Timer {
    var proc: int  // timer_proc with its client_data
    var usecs: nat
    var periodic: bool
    var time: Time
    var prev: Timer?
    var next: Timer?

    constructor ()
      ensures prev == null && next == null
    {
      proc, usecs, periodic, time, prev, next := 0, 0, false, Time(0, 0), null, null;
    }

    method Set(proc: int, usecs: nat, periodic: bool, time: Time)
      modifies this`proc, this`usecs, this`periodic, this`time
      ensures this.proc == proc && this.usecs == usecs && this.periodic == periodic && this.time == time
    {
      this.proc, this.usecs, this.periodic, this.time := proc, usecs, periodic, time;
    }
  }

  // ---- lists of timers ----

  ghost function First(s: seq<Timer>): Timer? {
    if s == [] then null else s[0]
  }

  ghost function At(s: seq<Timer>, i: int): Timer? {
    if 0 <= i < |s| then s[i] else null
  }

  ghost predicate Distinct(s: seq<Timer>) {
    forall i, j :: 0 <= i < j < |s| ==> s[i] != s[j]
  }

  /** A list along next. */
  ghost predicate NextLinked(s: seq<Timer>)
    reads s`next
  {
    Distinct(s) && forall i {:trigger s[i].next} :: 0 <= i < |s| ==> s[i].next == At(s, i + 1)
  }

  /** A list along next and, backwards, along prev. */
  ghost predicate Linked(s: seq<Timer>)
    reads s`prev, s`next
  {
    NextLinked(s) && forall i {:trigger s[i].prev} :: 0 <= i < |s| ==> s[i].prev == At(s, i - 1)
  }

  // ---- their order ----

  /** When a pending timer is due, in microseconds, and when it was put on the list. */
  datatype Key = Key(due: nat, stamp: nat)

  predicate Earlier(k: Key, l: Key) {
    k.due < l.due || (k.due == l.due && k.stamp < l.stamp)
  }

  /** By deadline, and those with one deadline in the order in which they were put on the list. */
  ghost predicate Ordered(keys: seq<Key>) {
    forall i, j :: 0 <= i < j < |keys| ==> Earlier(keys[i], keys[j])
  }

  /** Where a timer with deadline d goes: before the first one that is due later. */
  function Slot(keys: seq<Key>, d: nat): (p: nat)
    ensures p <= |keys|
    ensures forall i :: 0 <= i < p ==> keys[i].due <= d
    ensures p < |keys| ==> d < keys[p].due
  {
    if keys == [] || d < keys[0].due then 0 else 1 + Slot(keys[1..], d)
  }

  lemma SlotIsUnique(keys: seq<Key>, d: nat, p: nat)
    requires p <= |keys| && Ordered(keys)
    requires forall i :: 0 <= i < p ==> keys[i].due <= d
    requires p < |keys| ==> d < keys[p].due
    ensures p == Slot(keys, d)
  {
    var q := Slot(keys, d);
  }

  lemma InsertedPair(keys: seq<Key>, p: nat, k: Key, i: nat, j: nat)
    requires Ordered(keys) && p <= |keys| && i < j <= |keys|
    requires forall m :: 0 <= m < p ==> Earlier(keys[m], k)
    requires p < |keys| ==> k.due < keys[p].due
    ensures Earlier(InsertAt(keys, p, k)[i], InsertAt(keys, p, k)[j])
  {
    var now := InsertAt(keys, p, k);
    assert i < p ==> now[i] == keys[i];
    assert i > p ==> now[i] == keys[i - 1];
    assert j < p ==> now[j] == keys[j];
    assert j > p ==> now[j] == keys[j - 1];
  }

  /** The list of a queue after a timer with a new stamp was put on it. */
  lemma InsertedOrdered(keys: seq<Key>, d: nat, stamp: nat)
    requires Ordered(keys) && forall k :: k in keys ==> k.stamp < stamp
    ensures var now := InsertAt(keys, Slot(keys, d), Key(d, stamp));
            Ordered(now) && forall k :: k in now ==> k.stamp <= stamp
  {
    var p := Slot(keys, d);
    assert forall m :: 0 <= m < p ==> Earlier(keys[m], Key(d, stamp)) by {
      assert forall m :: 0 <= m < p ==> keys[m] in keys;
    }
    hide Slot, Earlier;
    forall i, j | 0 <= i < j <= |keys|
      ensures Earlier(InsertAt(keys, p, Key(d, stamp))[i], InsertAt(keys, p, Key(d, stamp))[j])
    {
      InsertedPair(keys, p, Key(d, stamp), i, j);
    }
  }

  lemma RemovedOrdered(keys: seq<Key>, i: nat, stamp: nat)
    requires i < |keys| && Ordered(keys) && forall k :: k in keys ==> k.stamp < stamp
    ensures Ordered(RemoveAt(keys, i)) && forall k :: k in RemoveAt(keys, i) ==> k.stamp < stamp
  {
  }

  /** Each timer of the list is due when its key says. */
  ghost predicate Timed(s: seq<Timer>, keys: seq<Key>)
    reads s`time
  {
    |keys| == |s| && forall i :: 0 <= i < |s| ==> Normal(s[i].time) && InUsecs(s[i].time) == keys[i].due
  }

  ghost predicate TimedBut(s: seq<Timer>, keys: seq<Key>, i: nat)
    reads s`time
  {
    |keys| == |s| && forall j :: 0 <= j < |s| && j != i ==> Normal(s[j].time) && InUsecs(s[j].time) == keys[j].due
  }

  lemma InsertedTimed(s: seq<Timer>, keys: seq<Key>, p: nat, t: Timer, stamp: nat)
    requires Timed(s, keys) && p <= |s| && Normal(t.time)
    ensures Timed(InsertAt(s, p, t), InsertAt(keys, p, Key(InUsecs(t.time), stamp)))
  {
    var now := InsertAt(s, p, t);
    forall i | 0 <= i < |now|
      ensures Normal(now[i].time) && InUsecs(now[i].time) == InsertAt(keys, p, Key(InUsecs(t.time), stamp))[i].due
    {
      assert i < p ==> now[i] == s[i];
      assert i > p ==> now[i] == s[i - 1];
    }
  }

  lemma RemovedTimed(s: seq<Timer>, keys: seq<Key>, i: nat)
    requires i < |s| && TimedBut(s, keys, i)
    ensures Timed(RemoveAt(s, i), RemoveAt(keys, i))
  {
    var now := RemoveAt(s, i);
    forall j | 0 <= j < |now|
      ensures Normal(now[j].time) && InUsecs(now[j].time) == RemoveAt(keys, i)[j].due
    {
      assert j < i ==> now[j] == s[j];
      assert j >= i ==> now[j] == s[j + 1];
    }
  }

  lemma RemovedOthers(s: seq<Timer>, i: nat)
    requires i < |s| && Distinct(s)
    ensures s[i] !in RemoveAt(s, i) && Distinct(RemoveAt(s, i))
    ensures forall u :: u in s && u != s[i] <==> u in RemoveAt(s, i)
  {
    var rest := RemoveAt(s, i);
    forall u | u in s && u != s[i]
      ensures u in rest
    {
      var j :| 0 <= j < |s| && s[j] == u;
      assert rest[if j < i then j else j - 1] == u;
    }
  }

  lemma InsertedMembers(s: seq<Timer>, i: nat, t: Timer)
    requires i <= |s|
    ensures forall u :: u in InsertAt(s, i, t) <==> u == t || u in s
  {
    assert s == s[..i] + s[i..];
  }

  lemma InsertedLinked(was: seq<Timer>, now: seq<Timer>, p: nat, t: Timer)
    requires p <= |was| && now == InsertAt(was, p, t) && t !in was && Distinct(was)
    requires t.prev == At(was, p - 1) && t.next == At(was, p)
    requires p > 0 ==> was[p - 1].next == t
    requires p < |was| ==> was[p].prev == t
    requires forall i {:trigger was[i].next} :: 0 <= i < |was| && i != p - 1 ==> was[i].next == At(was, i + 1)
    requires forall i {:trigger was[i].prev} :: 0 <= i < |was| && i != p ==> was[i].prev == At(was, i - 1)
    ensures Linked(now)
  {
    forall i | 0 <= i < |now|
      ensures now[i].next == At(now, i + 1) && now[i].prev == At(now, i - 1)
    {
      assert i < p ==> now[i] == was[i];
      assert i > p ==> now[i] == was[i - 1];
    }
  }

  lemma RemovedLinked(was: seq<Timer>, now: seq<Timer>, p: nat)
    requires p < |was| && now == RemoveAt(was, p) && Distinct(was)
    requires p > 0 ==> was[p - 1].next == At(was, p + 1)
    requires p + 1 < |was| ==> was[p + 1].prev == At(was, p - 1)
    requires forall i {:trigger was[i].next} :: 0 <= i < |was| && i != p - 1 && i != p ==> was[i].next == At(was, i + 1)
    requires forall i {:trigger was[i].prev} :: 0 <= i < |was| && i != p + 1 && i != p ==> was[i].prev == At(was, i - 1)
    ensures Linked(now)
  {
    forall i | 0 <= i < |now|
      ensures now[i].next == At(now, i + 1) && now[i].prev == At(now, i - 1)
    {
      assert i < p ==> now[i] == was[i];
      assert i >= p ==> now[i] == was[i + 1];
    }
  }

  // ---- the queue ----

  ghost predicate EarliestOf(keys: seq<Key>, i: nat)
    requires i < |keys|
  {
    forall k :: k in keys ==> keys[i].due <= k.due
  }

  /** max(0, due - now) */
  function Left(due: nat, now: nat): nat {
    if due <= now then 0 else due - now
  }

  /** One call of a timer's callback, with the key under which the timer was pending. */
  datatype Firing = Firing(timer: Timer, key: Key)

  /** By deadline, first in first out among equal ones, and none ahead of time. */
  ghost predicate InOrder(fired: seq<Firing>, now: nat) {
    && (forall m :: 0 <= m < |fired| ==> fired[m].key.due <= now)
    && forall l, m :: 0 <= l < m < |fired| ==> Earlier(fired[l].key, fired[m].key)
  }

  /** The timer of the m-th firing fires again. */
  ghost predicate Again(fired: seq<Firing>, m: nat)
    requires m < |fired|
  {
    exists l :: m < l < |fired| && fired[l].timer == fired[m].timer
  }

  /** The timer of the m-th firing, due at d next, lands behind the one that fires next, and in time. */
  predicate Catches(fired: seq<Firing>, m: nat, d: nat, now: nat)
    requires m < |fired|
  {
    m + 1 < |fired| && fired[m + 1].key.due <= d <= now
  }

  /** No timer fires twice in a row. */
  ghost predicate TakesTurns(fired: seq<Firing>) {
    forall m :: 0 <= m < |fired| - 1 ==> fired[m].timer != fired[m + 1].timer
  }

  /** Which firings of periodic timers are followed by another one of the same timer. */
  ghost predicate CatchesUp(was: seq<Timer>, fired: seq<Firing>, now: nat)
    reads was`periodic, was`usecs
  {
    forall m :: 0 <= m < |fired| ==>
      && fired[m].timer in was
      && (fired[m].timer.periodic ==> (Again(fired, m) <==> Catches(fired, m, fired[m].key.due + fired[m].timer.usecs, now)))
  }

  /** The timer of the m-th firing, due at d next, lands in front of the one that fires next, although d is not later than now. */
  predicate Outrun(fired: seq<Firing>, m: nat, d: nat, now: nat)
    requires m < |fired|
  {
    d <= now && (m + 1 < |fired| ==> fired[m + 1].key.due > d)
  }

  /** No periodic timer is a whole period late. */
  ghost predicate KeepsUp(was: seq<Timer>, due: seq<Key>, now: nat)
    reads was`periodic, was`usecs
  {
    |was| == |due| && forall x :: 0 <= x < |was| && was[x].periodic && due[x].due <= now ==> due[x].due + was[x].usecs > now
  }

  lemma AgainAppend(fired: seq<Firing>, m: nat, f: Firing)
    requires m < |fired|
    ensures Again(fired + [f], m) <==> Again(fired, m) || f.timer == fired[m].timer
  {
    var all := fired + [f];
    assert all[m] == fired[m];
    if Again(fired, m) {
      var l :| m < l < |fired| && fired[l].timer == fired[m].timer;
      assert all[l] == fired[l];
    }
    if f.timer == fired[m].timer {
      assert all[|fired|] == f;
    }
  }

  ghost function Count(fired: seq<Firing>, t: Timer): nat {
    if fired == [] then 0 else Count(fired[..|fired| - 1], t) + if fired[|fired| - 1].timer == t then 1 else 0
  }

  lemma {:induction false} FirstFiring(fired: seq<Firing>, t: Timer) returns (m: nat)
    requires Count(fired, t) > 0
    ensures m < |fired| && fired[m].timer == t && Count(fired[..m], t) == 0
    ensures !Again(fired, m) ==> Count(fired, t) == 1
  {
    var n := |fired| - 1;
    if Count(fired[..n], t) == 0 {
      m := n;
    } else {
      m := FirstFiring(fired[..n], t);
      assert fired[..n][..m] == fired[..m];
      AgainAppend(fired[..n], m, fired[n]);
      assert fired[..n] + [fired[n]] == fired;
    }
  }

  lemma {:induction false} FiredCounts(fired: seq<Firing>, m: nat)
    requires m < |fired|
    ensures Count(fired, fired[m].timer) > 0
  {
    if m < |fired| - 1 {
      FiredCounts(fired[..|fired| - 1], m);
    }
  }

  lemma {:induction false} LastFiring(fired: seq<Firing>, t: Timer) returns (m: nat)
    requires Count(fired, t) > 0
    ensures m < |fired| && fired[m].timer == t && !Again(fired, m)
  {
    var n := |fired| - 1;
    if fired[n].timer == t {
      m := n;
    } else {
      m := LastFiring(fired[..n], t);
      AgainAppend(fired[..n], m, fired[n]);
      assert fired[..n] + [fired[n]] == fired;
    }
  }

  lemma FiredInOrder(fired: seq<Firing>, f: Firing, now: nat)
    requires InOrder(fired, now) && f.key.due <= now
    requires fired != [] ==> Earlier(fired[|fired| - 1].key, f.key)
    ensures InOrder(fired + [f], now)
  {
  }

  lemma OneMore(count: nat, usecs: nat)
    ensures (count + 1) * usecs == count * usecs + usecs
  {
  }

  lemma FiredOnce(fired: seq<Firing>, f: Firing)
    ensures forall t :: Count(fired + [f], t) == Count(fired, t) + if t == f.timer then 1 else 0
  {
    assert (fired + [f])[..|fired|] == fired;
  }

  /** Each firing is as many periods after the timer's first deadline as it was fired before. */
  ghost predicate OnTime(was: seq<Timer>, due: seq<Key>, fired: seq<Firing>)
    reads was`usecs
  {
    && |was| == |due|
    && forall m :: 0 <= m < |fired| ==>
         exists x :: 0 <= x < |was| && was[x] == fired[m].timer
                     && fired[m].key.due == due[x].due + Count(fired[..m], was[x]) * was[x].usecs
  }

  function Weight(due: nat, now: nat): nat {
    if due <= now then now - due + 1 else 0
  }

  /** How far the deadlines of a list lie behind now, all together. */
  function Lag(keys: seq<Key>, now: nat): nat {
    if keys == [] then 0 else Weight(keys[0].due, now) + Lag(keys[1..], now)
  }

  /** The timer at i was fired and its list changed; its neighbour is at j afterwards. */
  ghost predicate Advanced(was: seq<Timer>, due: seq<Key>, s: seq<Timer>, keys: seq<Key>, i: nat, j: nat, now: nat)
    requires i < |was|
  {
    && |was| == |due| && |s| == |keys| && j <= |s| && At(s, j) == At(was, i + 1)
    && (j < |s| ==> i + 1 < |was| && keys[j] == due[i + 1])
    && (forall u :: u in s[..j] ==> u == was[i] || u in was[..i])
    && (forall u :: u in s[j..] ==> u == was[i] || u in was[i..])
    && (forall u :: u in was[i..] ==> u == was[i] || u in s[j..])
    && Lag(keys, now) < Lag(due, now)
  }

  lemma {:induction false} LagAppend(k: seq<Key>, l: seq<Key>, now: nat)
    ensures Lag(k + l, now) == Lag(k, now) + Lag(l, now)
  {
    if k == [] {
      assert k + l == l;
    } else {
      LagAppend(k[1..], l, now);
      assert (k + l)[1..] == k[1..] + l;
    }
  }

  lemma LagRemove(keys: seq<Key>, i: nat, now: nat)
    requires i < |keys|
    ensures Lag(keys, now) == Lag(RemoveAt(keys, i), now) + Weight(keys[i].due, now)
  {
    assert keys == keys[..i] + ([keys[i]] + keys[i + 1..]);
    LagAppend(keys[..i], [keys[i]] + keys[i + 1..], now);
    LagAppend([keys[i]], keys[i + 1..], now);
    LagAppend(keys[..i], keys[i + 1..], now);
    assert Lag([keys[i]], now) == Weight(keys[i].due, now);
  }

  lemma LagInsert(keys: seq<Key>, i: nat, k: Key, now: nat)
    requires i <= |keys|
    ensures Lag(InsertAt(keys, i, k), now) == Lag(keys, now) + Weight(k.due, now)
  {
    var all := InsertAt(keys, i, k);
    LagRemove(all, i, now);
    assert RemoveAt(all, i) == keys;
  }

  /** What is ahead of the walk when the timer at i goes to p, counted without it. */
  lemma MovedAhead(s: seq<Timer>, i: nat, p: nat)
    requires i <= p < |s| && Distinct(s)
    ensures var s', j := InsertAt(RemoveAt(s, i), p, s[i]), if p == i then i + 1 else i;
            && (forall u :: u != s[i] ==> (u in s'[j..] <==> u in s[i..]))
            && (s[i] in s'[j..] <==> p > i)
            && (forall u :: u in s'[..j] ==> u == s[i] || u in s[..i])
  {
    var rest := RemoveAt(s, i);
    var s' := InsertAt(rest, p, s[i]);
    assert rest[..i] == s[..i];
    assert rest[i..] == s[i + 1..] && s[i..] == [s[i]] + s[i + 1..];
    if p == i {
      assert s'[i + 1..] == rest[i..] && s'[..i + 1] == s[..i] + [s[i]];
    } else {
      assert s'[..i] == s[..i];
      assert s'[i..] == rest[i..p] + [s[i]] + rest[p..];
      assert rest[i..] == rest[i..p] + rest[p..];
    }
  }

  /** A periodic timer is moved behind itself. */
  lemma MovedTo(s: seq<Timer>, keys: seq<Key>, i: nat, d: nat, stamp: nat, now: nat) returns (j: nat)
    requires i < |s| == |keys| && Distinct(s) && Ordered(keys) && keys[i].due < d && keys[i].due <= now
    ensures var p := Slot(RemoveAt(keys, i), d);
            var s', keys' := InsertAt(RemoveAt(s, i), p, s[i]), InsertAt(RemoveAt(keys, i), p, Key(d, stamp));
            && Advanced(s, keys, s', keys', i, j, now) && j <= |s'|
            && (s[i] in s'[j..] <==> j < |keys'| && keys'[j].due <= d)
  {
    hide Lag, Distinct;
    var rest := RemoveAt(keys, i);
    var p := Slot(rest, d);
    assert p < i ==> Earlier(keys[p], keys[i]);
    j := if p == i then i + 1 else i;
    MovedAhead(s, i, p);
    LagRemove(keys, i, now);
    LagInsert(rest, p, Key(d, stamp), now);
  }

  lemma LeftBehind(s: seq<Timer>, keys: seq<Key>, i: nat, now: nat)
    requires i < |s| == |keys| && keys[i].due <= now
    ensures Advanced(s, keys, RemoveAt(s, i), RemoveAt(keys, i), i, i, now)
  {
    assert RemoveAt(s, i)[i..] == s[i + 1..] && s[i..] == [s[i]] + s[i + 1..];
    LagRemove(keys, i, now);
  }

  /** Two timers take turns, so if one of them does not fire the other fires once. */
  lemma FiresOnce(fired: seq<Firing>, t: Timer, u: Timer)
    requires TakesTurns(fired) && Count(fired, t) > 0 && Count(fired, u) == 0
    requires forall m :: 0 <= m < |fired| ==> fired[m].timer == t || fired[m].timer == u
    ensures |fired| == 1 && fired[0].timer == t && Count(fired, t) == 1
  {
    forall m | 0 <= m < |fired|
      ensures fired[m].timer == t
    {
      FiredCounts(fired, m);
    }
  }

  class TimerQueue {
    var timers: Timer?
    var freeTimers: Timer?
    ghost var active: seq<Timer>
    ghost var keys: seq<Key>  // of the timers in active
    ghost var freed: seq<Timer>
    ghost var clock: nat  // later than every stamp

    ghost predicate Pending()
      reads this`timers, this`active, active`prev, active`next
    {
      timers == First(active) && Linked(active)
    }

    ghost predicate Scheduled()
      reads this`active, this`keys, this`clock, active`time
    {
      |keys| == |active| && Timed(active, keys) && Ordered(keys) && forall k :: k in keys ==> k.stamp < clock
    }

    /** Scheduled but for the timer at i, whose deadline has changed. */
    ghost predicate ScheduledBut(i: nat)
      reads this`active, this`keys, this`clock, active`time
    {
      && |keys| == |active| && TimedBut(active, keys, i)
      && Ordered(keys) && forall k :: k in keys ==> k.stamp < clock
    }

    ghost predicate Recycled()
      reads this`freeTimers, this`freed, freed`next
    {
      freeTimers == First(freed) && NextLinked(freed)
    }

    ghost predicate Valid()
      reads this, active`time, active`prev, active`next, freed`next
    {
      Pending() && Scheduled() && Recycled() && forall t :: t in active ==> t !in freed
    }

    constructor ()
      ensures Valid() && active == [] && keys == [] && freed == []
    {
      timers, freeTimers, active, keys, freed, clock := null, null, [], [], [], 0;
    }

    /** The comparison with the head and the walk of list_add. */
    method FindSlot(t: Timer) returns (before: Timer?, after: Timer?)
      requires Pending() && Scheduled() && Normal(t.time)
      ensures before == At(active, Slot(keys, InUsecs(t.time)) - 1)
      ensures after == At(active, Slot(keys, InUsecs(t.time)))
    {
      before, after := null, timers;
      ghost var p, d := 0, InUsecs(t.time);
      while after != null
        invariant 0 <= p <= |active| && before == At(active, p - 1) && after == At(active, p)
        invariant forall i :: 0 <= i < p ==> keys[i].due <= d
        decreases |active| - p
      {
        CompareIsOrder(t.time, after.time);
        if Compare(t.time, after.time) < 0 {
          break;
        }
        before, after := after, after.next;
        p := p + 1;
      }
      SlotIsUnique(keys, d, p);
    }

    /** The links of a new timer between its neighbours. */
    method LinkIn(t: Timer, before: Timer?, after: Timer?, ghost p: nat)
      requires Pending() && t !in active && p <= |active|
      requires before == At(active, p - 1) && after == At(active, p)
      modifies this`timers, t`prev, t`next, active`prev, active`next
      ensures timers == First(InsertAt(active, p, t)) && Linked(InsertAt(active, p, t))
    {
      t.prev, t.next := before, after;
      if before == null {
        timers := t;
      } else {
        before.next := t;
      }
      if after != null {
        after.prev := t;
      }
      InsertedLinked(active, InsertAt(active, p, t), p, t);
    }

    /** The bookkeeping for a timer that has been linked in. */
    method Enter(t: Timer)
      requires Scheduled() && t !in active && Normal(t.time)
      requires var now := InsertAt(active, Slot(keys, InUsecs(t.time)), t); timers == First(now) && Linked(now)
      modifies this`active, this`keys, this`clock
      ensures Pending() && Scheduled()
      ensures var d := InUsecs(t.time);
              var p := Slot(old(keys), d);
              && active == InsertAt(old(active), p, t)
              && keys == InsertAt(old(keys), p, Key(d, old(clock)))
      ensures forall u :: u in active <==> u == t || u in old(active)
    {
      hide Ordered, Timed, Slot, Linked, Earlier;
      ghost var d := InUsecs(t.time);
      ghost var p := Slot(keys, d);
      InsertedOrdered(keys, d, clock);
      InsertedTimed(active, keys, p, t, clock);
      InsertedMembers(active, p, t);
      active, keys, clock := InsertAt(active, p, t), InsertAt(keys, p, Key(d, clock)), clock + 1;
    }

    /** list_add: the new timer goes before the first one that is due later. */
    method ListAdd(t: Timer)
      requires Pending() && Scheduled() && t !in active && Normal(t.time)
      modifies this`timers, this`active, this`keys, this`clock, t`prev, t`next, active`prev, active`next
      ensures Pending() && Scheduled()
      ensures var d := InUsecs(t.time);
              var p := Slot(old(keys), d);
              && active == InsertAt(old(active), p, t)
              && keys == InsertAt(old(keys), p, Key(d, old(clock)))
      ensures forall u :: u in active <==> u == t || u in old(active)
    {
      hide Ordered, Timed, Slot, Linked, Earlier;
      var before, after := FindSlot(t);
      LinkIn(t, before, after, Slot(keys, InUsecs(t.time)));
      Enter(t);
    }

    /** The links of the neighbours of a timer that leaves. */
    method LinkOut(t: Timer, ghost i: nat)
      requires Pending() && i < |active| && active[i] == t
      modifies this`timers, active`prev, active`next
      ensures timers == First(RemoveAt(active, i)) && Linked(RemoveAt(active, i))
      ensures forall u :: u in RemoveAt(active, i) <==> u != t && u in active
    {
      RemovedOthers(active, i);
      if t.prev == null {
        timers := t.next;
      } else {
        t.prev.next := t.next;
      }
      if t.next != null {
        t.next.prev := t.prev;
      }
      RemovedLinked(active, RemoveAt(active, i), i);
    }

    /** list_remove: the neighbours are linked to each other; the timer keeps its own links. */
    method ListRemove(t: Timer, ghost i: nat)
      requires Pending() && i < |active| && active[i] == t && ScheduledBut(i)
      modifies this`timers, this`active, this`keys, active`prev, active`next
      ensures Pending() && Scheduled()
      ensures active == RemoveAt(old(active), i) && keys == RemoveAt(old(keys), i)
      ensures forall u :: u in active <==> u != t && u in old(active)
    {
      hide Ordered, Linked, Timed, TimedBut;
      RemovedOrdered(keys, i, clock);
      RemovedTimed(active, keys, i);
      LinkOut(t, i);
      active, keys := RemoveAt(active, i), RemoveAt(keys, i);
    }

    /** list_resort, after the timer's deadline has changed. */
    method ListResort(t: Timer, ghost i: nat)
      requires Pending() && i < |active| && active[i] == t && ScheduledBut(i) && Normal(t.time)
      modifies this`timers, this`active, this`keys, this`clock, active`prev, active`next
      ensures Pending() && Scheduled()
      ensures var d := InUsecs(t.time);
              var rest, restKeys := RemoveAt(old(active), i), RemoveAt(old(keys), i);
              && active == InsertAt(rest, Slot(restKeys, d), t)
              && keys == InsertAt(restKeys, Slot(restKeys, d), Key(d, old(clock)))
      ensures forall u :: u in active <==> u in old(active)
    {
      hide InsertAt, RemoveAt, Slot, Ordered, Linked, Timed;
      ListRemove(t, i);
      assert forall j :: 0 <= j < |active| ==> active[j] in old(active);
      ListAdd(t);
    }

    method TakeFree() returns (t: Timer)
      requires Valid() && freeTimers != null
      modifies this`freeTimers, this`freed
      ensures Valid() && old(freed) != [] && t == old(freed)[0] && freed == old(freed)[1..] && t !in freed
    {
      assert freed[0].next == At(freed, 1);
      assert forall i :: 0 <= i < |freed| - 1 ==> freed[1..][i] == freed[i + 1];
      t := freeTimers;
      freeTimers := freeTimers.next;
      freed := freed[1..];
    }

    /** A timer that is on no list. */
    method Obtain() returns (t: Timer?)
      requires Valid()
      modifies this`freeTimers, this`freed
      ensures Valid()
      ensures t == null ==> old(freed) == [] && freed == []
      ensures t != null ==>
                && t !in active && t !in freed
                && (if old(freed) == [] then fresh(t) && freed == [] else t == old(freed)[0] && freed == old(freed)[1..])
    {
      if freeTimers != null {
        t := TakeFree();
      } else if * {
        t := null;
      } else {
        t := new Timer();
      }
    }

    /** A timer that is on no list is put on the list of pending ones. */
    method PutIn(t: Timer)
      requires Valid() && t !in active && t !in freed && Normal(t.time)
      modifies this`timers, this`active, this`keys, this`clock, t`prev, t`next, active`prev, active`next
      ensures Valid()
      ensures var d := InUsecs(t.time);
              && active == InsertAt(old(active), Slot(old(keys), d), t)
              && keys == InsertAt(old(keys), Slot(old(keys), d), Key(d, old(clock)))
    {
      hide Slot, Ordered, Linked, NextLinked, Timed, Earlier;
      ListAdd(t);
      assert forall u :: u in freed ==> u.next == old(u.next);
    }

    /** The fields of a new timer, and its place on the list. */
    method Arm(t: Timer, now: Time, proc: int, usecs: nat, periodic: bool)
      requires Valid() && t !in active && t !in freed && Normal(now) && InUsecs(now) + usecs < TIME_LIMIT
      modifies this`timers, this`active, this`keys, this`clock, t, active`prev, active`next
      ensures Valid()
      ensures var d := InUsecs(now) + usecs;
              && active == InsertAt(old(active), Slot(old(keys), d), t)
              && keys == InsertAt(old(keys), Slot(old(keys), d), Key(d, old(clock)))
      ensures t.proc == proc && t.usecs == usecs && t.periodic == periodic
    {
      hide Valid, Slot, Ordered, Linked, NextLinked, Timed, Earlier;
      var due := AddUsecs(now, usecs);
      t.Set(proc, usecs, periodic, due);
      PutIn(t);
    }

    /** tmr_create: a timer from the free list or, when that is empty, a new one if memory suffices. */
    method Create(now: Time, proc: int, usecs: nat, periodic: bool) returns (t: Timer?)
      requires Valid() && Normal(now) && InUsecs(now) + usecs < TIME_LIMIT
      modifies this, active`prev, active`next, freed
      ensures Valid()
      ensures t == null ==> old(freed) == [] && active == old(active) && keys == old(keys) && freed == []
      ensures t != null ==>
                var d := InUsecs(now) + usecs;
                && (if old(freed) == [] then fresh(t) && freed == [] else t == old(freed)[0] && freed == old(freed)[1..])
                && active == InsertAt(old(active), Slot(old(keys), d), t)
                && keys == InsertAt(old(keys), Slot(old(keys), d), Key(d, old(clock)))
                && t.proc == proc && t.usecs == usecs && t.periodic == periodic
    {
      hide Slot, Ordered, Pending, Scheduled, Recycled;
      t := Obtain();
      if t != null {
        Arm(t, now, proc, usecs, periodic);
      }
    }

    /** A new deadline for a pending timer, and its new place. */
    method Retime(t: Timer, ghost i: nat, due: Time)
      requires Valid() && i < |active| && active[i] == t && Normal(due)
      modifies this`timers, this`active, this`keys, this`clock, t`time, active`prev, active`next
      ensures Valid() && freed == old(freed) && t.time == due
      ensures forall u :: u in active <==> u in old(active)
      ensures var d := InUsecs(due);
              var rest, restKeys := RemoveAt(old(active), i), RemoveAt(old(keys), i);
              && active == InsertAt(rest, Slot(restKeys, d), t)
              && keys == InsertAt(restKeys, Slot(restKeys, d), Key(d, old(clock)))
    {
      hide Slot, Ordered, InsertAt, RemoveAt;
      t.time := due;
      ListResort(t, i);
      assert forall u :: u in freed ==> u.next == old(u.next);
    }

    /** tmr_reset: due a period from now, behind the timers due at the same time. */
    method Reset(now: Time, t: Timer, ghost i: nat)
      requires Valid() && Normal(now) && i < |active| && active[i] == t && InUsecs(now) + t.usecs < TIME_LIMIT
      modifies this`timers, this`active, this`keys, this`clock, t`time, active`prev, active`next
      ensures Valid() && freed == old(freed)
      ensures var d := InUsecs(now) + t.usecs;
              var rest, restKeys := RemoveAt(old(active), i), RemoveAt(old(keys), i);
              && active == InsertAt(rest, Slot(restKeys, d), t)
              && keys == InsertAt(restKeys, Slot(restKeys, d), Key(d, old(clock)))
    {
      hide Slot, Ordered, Valid;
      var due := AddUsecs(now, t.usecs);
      Retime(t, i, due);
    }

    method PutFree(t: Timer)
      requires Pending() && Scheduled() && Recycled() && t !in active && t !in freed
      requires forall u :: u in active ==> u !in freed
      modifies this`freeTimers, this`freed, t`prev, t`next
      ensures Valid() && freed == [t] + old(freed)
    {
      t.next := freeTimers;
      freeTimers := t;
      t.prev := null;
      freed := [t] + freed;
    }

    /** tmr_cancel: from the list of pending timers to the free list. */
    method Cancel(t: Timer, ghost i: nat)
      requires Valid() && i < |active| && active[i] == t
      modifies this`timers, this`active, this`keys, this`freeTimers, this`freed, active`prev, active`next
      ensures Valid() && active == RemoveAt(old(active), i) && keys == RemoveAt(old(keys), i)
      ensures freed == [t] + old(freed)
      ensures forall u :: u in active <==> u != t && u in old(active)
    {
      hide Slot, Ordered, RemoveAt, Linked;
      ListRemove(t, i);
      assert forall u :: u in freed ==> u.next == old(u.next);
      PutFree(t);
    }

    /** tmr_cleanup: the free list is emptied and its memory given back. */
    method Cleanup()
      requires Valid()
      modifies this`freeTimers, this`freed
      ensures Valid() && freed == [] && freeTimers == null
    {
      while freeTimers != null
        invariant Valid() && active == old(active) && keys == old(keys)
        decreases |freed|
      {
        var t := TakeFree();
      }
    }

    /** tmr_destroy. */
    method Destroy()
      requires Valid()
      modifies this`timers, this`active, this`keys, this`freeTimers, this`freed, active`prev, active`next
      ensures Valid() && active == [] && freed == [] && timers == null && freeTimers == null
    {
      while timers != null
        invariant Valid() && forall t :: t in active ==> t in old(active)
        decreases |active|
      {
        assert forall j :: 0 <= j < |active| ==> active[j] in old(active);
        Cancel(timers, 0);
      }
      Cleanup();
    }

    /** What Run asks of the timers: periods that are positive and that the clock can represent. */
    ghost predicate Runnable(now: Time)
      reads this`active, active`periodic, active`usecs
    {
      forall t :: t in active && t.periodic ==> t.usecs > 0 && InUsecs(now) + t.usecs < TIME_LIMIT
    }

    /** What the firings of Run so far have done to a timer that was due at d when it began. */
    ghost predicate Progressed(t: Timer, d: nat, fired: seq<Firing>, now: nat)
      reads this`active, this`freed, t`periodic, t`usecs, t`time
    {
      && (Count(fired, t) > 0 ==> d <= now)
      && if t.periodic then t in active && InUsecs(t.time) == d + Count(fired, t) * t.usecs
         else if Count(fired, t) == 0 then t in active && InUsecs(t.time) == d
         else Count(fired, t) == 1 && t !in active && t in freed
    }

    ghost predicate AllProgressed(was: seq<Timer>, due: seq<Key>, fired: seq<Firing>, now: nat)
      reads this`active, this`freed, was`periodic, was`usecs, was`time
    {
      && |was| == |due| && (forall u :: u in active ==> u in was)
      && forall m :: 0 <= m < |was| ==> Progressed(was[m], due[m].due, fired, now)
    }

    /** Where the walk, before the timer at i, has left the periodic timer of the m-th firing: if it has not fired again, it is
        ahead of the walk exactly when the timer behind it in the walk is due no later. */
    ghost predicate Place(fired: seq<Firing>, m: nat, i: nat, now: nat)
      requires m < |fired|
      reads this`active, this`keys, {fired[m].timer}`periodic, {fired[m].timer}`usecs, {fired[m].timer}`time
    {
      var t := fired[m].timer;
      var d := fired[m].key.due + t.usecs;
      t.periodic ==>
        if Again(fired, m) then Catches(fired, m, d, now)
        else
          && t in active && InUsecs(t.time) == d && i <= |active|
          && (t in active[i..] <==> if m + 1 < |fired| then fired[m + 1].key.due <= d else i < |keys| && keys[i].due <= d)
    }

    ghost predicate AllPlaced(was: seq<Timer>, fired: seq<Firing>, i: nat, now: nat)
      reads this`active, this`keys, was`periodic, was`usecs, was`time
    {
      forall m :: 0 <= m < |fired| ==> fired[m].timer in was && Place(fired, m, i, now)
    }

    lemma IsPending(i: nat)
      requires Valid() && i < |active|
      ensures |keys| == |active| && Distinct(active) && Ordered(keys)
      ensures active[i].next == At(active, i + 1) && Normal(active[i].time) && InUsecs(active[i].time) == keys[i].due
    {
    }

    method Reschedule(t: Timer, ghost i: nat, now: Time) returns (ghost j: nat)
      requires Valid() && i < |active| && active[i] == t && InUsecs(t.time) <= InUsecs(now)
      requires t.usecs > 0 && InUsecs(now) + t.usecs < TIME_LIMIT
      modifies this`timers, this`active, this`keys, this`clock, t`time, active`prev, active`next
      ensures Valid() && freed == old(freed)
      ensures Advanced(old(active), old(keys), active, keys, i, j, InUsecs(now))
      ensures InUsecs(t.time) == old(keys)[i].due + t.usecs
      ensures |keys| == |active| && j <= |active| && (t in active[j..] <==> j < |keys| && keys[j].due <= InUsecs(t.time))
      ensures forall u :: u in active <==> u in old(active)
    {
      hide Valid, Advanced, Slot;
      IsPending(i);
      var d := AddUsecs(t.time, t.usecs);
      j := MovedTo(active, keys, i, InUsecs(d), clock, InUsecs(now));
      Retime(t, i, d);
    }

    /** The rescheduling or cancelling of a fired timer. */
    method Fire(t: Timer, ghost i: nat, now: Time) returns (ghost j: nat)
      requires Valid() && Runnable(now) && Normal(now) && i < |active| && active[i] == t && InUsecs(t.time) <= InUsecs(now)
      modifies this`timers, this`active, this`keys, this`clock, this`freeTimers, this`freed, t`time, active`prev, active`next
      ensures Valid() && Runnable(now)
      ensures Advanced(old(active), old(keys), active, keys, i, j, InUsecs(now))
      ensures t.periodic ==> InUsecs(t.time) == old(keys)[i].due + t.usecs && t in active && freed == old(freed)
      ensures !t.periodic ==> t.time == old(t.time) && t !in active && freed == [t] + old(freed)
      ensures |keys| == |active| && j <= |active|
      ensures t.periodic ==> (t in active[j..] <==> j < |keys| && keys[j].due <= InUsecs(t.time))
      ensures forall u :: u != t ==> (u in active <==> u in old(active))
      ensures forall u :: u in active || u in freed <==> u in old(active) || u in old(freed)
    {
      hide Valid, Advanced, RemoveAt;
      if t.periodic {
        j := Reschedule(t, i, now);
      } else {
        j := i;
        IsPending(i);
        LeftBehind(active, keys, i, InUsecs(now));
        Cancel(t, i);
      }
    }

    /** A timer fires on time, and not yet fired if it fires once only. */
    lemma FiredOnTime(was: seq<Timer>, due: seq<Key>, fired: seq<Firing>, t: Timer, k: Key, now: nat)
      requires AllProgressed(was, due, fired, now) && OnTime(was, due, fired)
      requires t in active && k.due == InUsecs(t.time)
      ensures OnTime(was, due, fired + [Firing(t, k)])
    {
      var all := fired + [Firing(t, k)];
      forall m | 0 <= m < |all|
        ensures exists x :: 0 <= x < |was| && was[x] == all[m].timer
                            && all[m].key.due == due[x].due + Count(all[..m], was[x]) * was[x].usecs
      {
        assert m < |fired| ==> all[m] == fired[m] && all[..m] == fired[..m];
        if m == |fired| {
          assert all[..m] == fired;
          var x :| 0 <= x < |was| && was[x] == t;
          assert Progressed(was[x], due[x].due, fired, now);
          assert Count(fired, t) == 0 ==> Count(fired, t) * t.usecs == 0;
        }
      }
    }

    /** A firing and what it has done to every timer. */
    method FireOnce(t: Timer, ghost i: nat, now: Time, ghost was: seq<Timer>, ghost due: seq<Key>, ghost fired: seq<Firing>)
      returns (ghost j: nat)
      requires Valid() && Runnable(now) && Normal(now) && i < |active| && active[i] == t && InUsecs(t.time) <= InUsecs(now)
      requires AllProgressed(was, due, fired, InUsecs(now)) && Distinct(was)
      modifies this`timers, this`active, this`keys, this`clock, this`freeTimers, this`freed, t`time, active`prev, active`next
      ensures Valid() && Runnable(now)
      ensures Advanced(old(active), old(keys), active, keys, i, j, InUsecs(now))
      ensures AllProgressed(was, due, fired + [Firing(t, old(keys)[i])], InUsecs(now))
      ensures t.periodic ==> t in active && InUsecs(t.time) == old(keys)[i].due + t.usecs
      ensures |keys| == |active| && j <= |active|
      ensures t.periodic ==> (t in active[j..] <==> j < |keys| && keys[j].due <= InUsecs(t.time))
      ensures forall u :: u != t ==> (u in active <==> u in old(active))
      ensures forall u :: u in active || u in freed <==> u in old(active) || u in old(freed)
    {
      hide Valid, Runnable, Count, Advanced;
      IsPending(i);
      ghost var fired' := fired + [Firing(t, keys[i])];
      FiredOnce(fired, Firing(t, keys[i]));
      j := Fire(t, i, now);
      forall m | 0 <= m < |was|
        ensures Progressed(was[m], due[m].due, fired', InUsecs(now))
      {
        assert old(Progressed(was[m], due[m].due, fired, InUsecs(now)));
        if was[m] == t {
          OneMore(Count(fired, t), t.usecs);
        }
      }
    }

    /** One round of the loop of tmr_run, after the callback: fires the timer at i; next is at j afterwards. */
    method Round(t: Timer, ghost i: nat, now: Time, ghost was: seq<Timer>, ghost due: seq<Key>, ghost fired: seq<Firing>)
      returns (ghost j: nat, ghost fired': seq<Firing>)
      requires Valid() && Runnable(now) && Normal(now) && i < |active| && active[i] == t && InUsecs(t.time) <= InUsecs(now)
      requires InOrder(fired, InUsecs(now)) && OnTime(was, due, fired) && AllProgressed(was, due, fired, InUsecs(now))
      requires fired != [] ==> Earlier(fired[|fired| - 1].key, keys[i])
      requires Distinct(was)
      requires forall u :: u in active[..i] ==> Count(fired, u) > 0
      modifies this`timers, this`active, this`keys, this`clock, this`freeTimers, this`freed, t`time, active`prev, active`next
      ensures Valid() && Runnable(now)
      ensures j <= |active| == |keys| && At(active, j) == old(At(active, i + 1))
      ensures forall u :: u in active || u in freed <==> u in old(active) || u in old(freed)
      ensures |fired'| == |fired| + 1 && fired' == fired + [Firing(t, old(keys[i]))]
      ensures InOrder(fired', InUsecs(now)) && OnTime(was, due, fired') && AllProgressed(was, due, fired', InUsecs(now))
      ensures j < |keys| ==> Earlier(fired'[|fired'| - 1].key, keys[j])
      ensures forall u :: u in active[..j] ==> Count(fired', u) > 0
      ensures Advanced(old(active), old(keys), active, keys, i, j, InUsecs(now))
      ensures forall u :: u != t ==> (u in active <==> u in old(active))
      ensures t.periodic ==> t in active && InUsecs(t.time) == old(keys)[i].due + t.usecs
      ensures t.periodic ==> (t in active[j..] <==> j < |keys| && keys[j].due <= InUsecs(t.time))
      ensures Lag(keys, InUsecs(now)) < old(Lag(keys, InUsecs(now)))
    {
      hide Valid, Runnable, Count, InOrder, OnTime, Earlier, Progressed;
      IsPending(i);
      ghost var k := keys[i];
      fired' := fired + [Firing(t, k)];
      FiredInOrder(fired, Firing(t, k), InUsecs(now));
      FiredOnTime(was, due, fired, t, k, InUsecs(now));
      FiredOnce(fired, Firing(t, k));
      j := FireOnce(t, i, now, was, due, fired);
    }

    /** A round of the walk with what it means for the timers that have fired. */
    method Walk(t: Timer, ghost i: nat, now: Time, ghost was: seq<Timer>, ghost due: seq<Key>, ghost fired: seq<Firing>)
      returns (ghost j: nat, ghost fired': seq<Firing>)
      requires Valid() && Runnable(now) && Normal(now) && i < |active| && active[i] == t && InUsecs(t.time) <= InUsecs(now)
      requires InOrder(fired, InUsecs(now)) && OnTime(was, due, fired) && AllProgressed(was, due, fired, InUsecs(now))
      requires fired != [] ==> Earlier(fired[|fired| - 1].key, keys[i])
      requires Distinct(was) && t in was
      requires forall u :: u in active[..i] ==> Count(fired, u) > 0
      requires AllPlaced(was, fired, i, InUsecs(now)) && TakesTurns(fired)
      requires fired != [] ==> t != fired[|fired| - 1].timer
      modifies this`timers, this`active, this`keys, this`clock, this`freeTimers, this`freed, t`time, active`prev, active`next
      ensures Valid() && Runnable(now)
      ensures j <= |active| == |keys| && At(active, j) == old(At(active, i + 1))
      ensures forall u :: u in active || u in freed <==> u in old(active) || u in old(freed)
      ensures |fired'| == |fired| + 1 && fired' == fired + [Firing(t, old(keys[i]))]
      ensures InOrder(fired', InUsecs(now)) && OnTime(was, due, fired') && AllProgressed(was, due, fired', InUsecs(now))
      ensures j < |keys| ==> Earlier(fired'[|fired'| - 1].key, keys[j])
      ensures forall u :: u in active[..j] ==> Count(fired', u) > 0
      ensures AllPlaced(was, fired', j, InUsecs(now)) && TakesTurns(fired')
      ensures j < |active| ==> active[j] != fired'[|fired'| - 1].timer
      ensures Lag(keys, InUsecs(now)) < old(Lag(keys, InUsecs(now)))
    {
      hide Valid, Runnable, Count, InOrder, OnTime, Earlier, Progressed, Lag;
      IsPending(i);
      ghost var k := keys[i];
      j, fired' := Round(t, i, now, was, due, fired);
      forall m | 0 <= m < |fired'|
        ensures fired'[m].timer in was && Place(fired', m, j, InUsecs(now))
      {
        if m < |fired| {
          assert old(Place(fired, m, i, InUsecs(now)));
          AgainAppend(fired, m, Firing(t, k));
        }
      }
    }

    /** The timers that are still due when Run returns: those that were outrun at their last firing. */
    ghost predicate StillDue(fired: seq<Firing>, now: nat)
      reads this`active, active`time, active`usecs
    {
      forall u :: u in active ==>
        (InUsecs(u.time) <= now <==>
         exists m :: 0 <= m < |fired| && fired[m].timer == u && Outrun(fired, m, fired[m].key.due + u.usecs, now))
    }

    lemma OutrunIsDue(was: seq<Timer>, fired: seq<Firing>, m: nat, now: nat, i: nat)
      requires m < |fired| && fired[m].timer.periodic && Place(fired, m, i, now) && CatchesUp(was, fired, now)
      requires Outrun(fired, m, fired[m].key.due + fired[m].timer.usecs, now)
      ensures InUsecs(fired[m].timer.time) <= now
    {
      assert !Catches(fired, m, fired[m].key.due + fired[m].timer.usecs, now);
    }

    lemma DueIsOutrun(was: seq<Timer>, fired: seq<Firing>, u: Timer, now: nat, i: nat) returns (m: nat)
      requires u.periodic && InUsecs(u.time) <= now && Count(fired, u) > 0
      requires CatchesUp(was, fired, now) && AllPlaced(was, fired, i, now)
      ensures m < |fired| && fired[m].timer == u && Outrun(fired, m, fired[m].key.due + u.usecs, now)
    {
      hide Count;
      m := LastFiring(fired, u);
      assert Place(fired, m, i, now);
    }

    lemma OnlyOutrun(was: seq<Timer>, due: seq<Key>, fired: seq<Firing>, now: Time, i: nat)
      requires AllPlaced(was, fired, i, InUsecs(now)) && CatchesUp(was, fired, InUsecs(now))
      requires AllProgressed(was, due, fired, InUsecs(now))
      requires forall m :: 0 <= m < |was| ==> (Count(fired, was[m]) > 0 <==> due[m].due <= InUsecs(now))
      ensures StillDue(fired, InUsecs(now))
    {
      hide Place, Count, CatchesUp, Outrun;
      forall u | u in active
        ensures InUsecs(u.time) <= InUsecs(now) <==>
                exists m :: 0 <= m < |fired| && fired[m].timer == u && Outrun(fired, m, fired[m].key.due + u.usecs, InUsecs(now))
      {
        var x :| 0 <= x < |was| && was[x] == u;
        assert Progressed(u, due[x].due, fired, InUsecs(now));
        if Count(fired, u) == 0 {
          assert Count(fired, u) * u.usecs == 0;
        } else if InUsecs(u.time) <= InUsecs(now) {
          var m := DueIsOutrun(was, fired, u, InUsecs(now), i);
        }
        forall m | 0 <= m < |fired| && fired[m].timer == u && Outrun(fired, m, fired[m].key.due + u.usecs, InUsecs(now))
          ensures InUsecs(u.time) <= InUsecs(now)
        {
          FiredCounts(fired, m);
          OutrunIsDue(was, fired, m, InUsecs(now), i);
        }
      }
    }

    lemma NoneLate(was: seq<Timer>, due: seq<Key>, fired: seq<Firing>, now: nat)
      requires KeepsUp(was, due, now) && OnTime(was, due, fired) && CatchesUp(was, fired, now) && Distinct(was)
      requires AllProgressed(was, due, fired, now)
      requires forall m :: 0 <= m < |was| ==> (Count(fired, was[m]) > 0 <==> due[m].due <= now)
      ensures forall m :: 0 <= m < |was| ==> Count(fired, was[m]) <= 1
      ensures forall u :: u in active ==> InUsecs(u.time) > now
    {
      hide Count;
      forall x | 0 <= x < |was|
        ensures Count(fired, was[x]) <= 1
      {
        if Count(fired, was[x]) > 0 {
          var m := FirstFiring(fired, was[x]);
          assert Count(fired[..m], was[x]) * was[x].usecs == 0;
          assert fired[m].key.due == due[x].due;
          assert Progressed(was[x], due[x].due, fired, now);
        }
      }
      forall u | u in active
        ensures InUsecs(u.time) > now
      {
        var x :| 0 <= x < |was| && was[x] == u;
        assert Progressed(u, due[x].due, fired, now);
        assert Count(fired, u) == 0 || Count(fired, u) == 1;
      }
    }

    /** When the walk stops, no timer ahead of it is due. */
    lemma AllCaught(was: seq<Timer>, fired: seq<Firing>, now: Time, i: nat)
      requires Valid() && i <= |active| && (i < |active| ==> InUsecs(active[i].time) > InUsecs(now))
      requires AllPlaced(was, fired, i, InUsecs(now))
      ensures CatchesUp(was, fired, InUsecs(now))
    {
      hide Linked, NextLinked;
      forall m | 0 <= m < |fired| && fired[m].timer.periodic
        ensures fired[m].timer in was
        ensures Again(fired, m) <==> Catches(fired, m, fired[m].key.due + fired[m].timer.usecs, InUsecs(now))
      {
        assert Place(fired, m, i, InUsecs(now));
        var t := fired[m].timer;
        if t in active[i..] {
          var x :| i <= x < |active| && active[x] == t;
          assert i < x ==> Earlier(keys[i], keys[x]);
        }
      }
    }

    lemma Heads()
      requires Valid()
      ensures timers == First(active) && |keys| == |active| && Distinct(active)
    {
    }

    lemma NothingFired(now: Time)
      requires Valid()
      ensures InOrder([], InUsecs(now)) && OnTime(active, keys, []) && AllProgressed(active, keys, [], InUsecs(now))
      ensures AllPlaced(active, [], 0, InUsecs(now)) && TakesTurns([])
    {
    }

    /** When the walk stops at the timer at i, every timer that was due has been fired. */
    lemma AllDueFired(was: seq<Timer>, due: seq<Key>, fired: seq<Firing>, now: Time, i: nat)
      requires Valid() && i <= |active| && (i < |active| ==> InUsecs(active[i].time) > InUsecs(now))
      requires AllProgressed(was, due, fired, InUsecs(now))
      requires forall u :: u in active[..i] ==> Count(fired, u) > 0
      ensures forall m :: 0 <= m < |was| ==> (Count(fired, was[m]) > 0 <==> due[m].due <= InUsecs(now))
    {
      forall m | 0 <= m < |was| && due[m].due <= InUsecs(now)
        ensures Count(fired, was[m]) > 0
      {
        assert Progressed(was[m], due[m].due, fired, InUsecs(now));
        if was[m] in active && InUsecs(was[m].time) == due[m].due {
          var x :| 0 <= x < |active| && active[x] == was[m];
          assert active[..i][x] == was[m];
        }
      }
    }

    /** The loop of tmr_run, up to the timer at i. */
    method WalkAll(now: Time) returns (calls: seq<int>, ghost fired: seq<Firing>, ghost i: nat)
      requires Valid() && Normal(now) && Runnable(now)
      modifies this`timers, this`active, this`keys, this`clock, this`freeTimers, this`freed
      modifies active`time, active`prev, active`next
      ensures Valid() && i <= |active| && (i < |active| ==> InUsecs(active[i].time) > InUsecs(now))
      ensures |calls| == |fired| && forall m :: 0 <= m < |fired| ==> calls[m] == fired[m].timer.proc
      ensures forall u :: u in active || u in freed <==> u in old(active) || u in old(freed)
      ensures InOrder(fired, InUsecs(now)) && OnTime(old(active), old(keys), fired)
      ensures AllProgressed(old(active), old(keys), fired, InUsecs(now))
      ensures forall u :: u in active[..i] ==> Count(fired, u) > 0
      ensures AllPlaced(old(active), fired, i, InUsecs(now)) && TakesTurns(fired) && Distinct(old(active))
    {
      hide Valid, Runnable, Count, InOrder, OnTime, Progressed, Earlier, Place, AllPlaced, TakesTurns, Distinct;
      ghost var was, due := active, keys;
      i := 0;
      calls, fired := [], [];
      Heads();
      NothingFired(now);
      var t := timers;
      while t != null
        invariant Valid() && Runnable(now) && i <= |active| == |keys| && t == At(active, i)
        invariant |calls| == |fired| && forall m :: 0 <= m < |fired| ==> calls[m] == fired[m].timer.proc
        invariant forall u :: u in active || u in freed <==> u in old(active) || u in old(freed)
        invariant forall u :: u in active ==> u in old(active)
        invariant InOrder(fired, InUsecs(now)) && OnTime(was, due, fired)
        invariant AllProgressed(was, due, fired, InUsecs(now))
        invariant fired != [] && i < |keys| ==> Earlier(fired[|fired| - 1].key, keys[i])
        invariant forall u :: u in active[..i] ==> Count(fired, u) > 0
        invariant AllPlaced(was, fired, i, InUsecs(now)) && TakesTurns(fired)
        invariant fired != [] && i < |active| ==> active[i] != fired[|fired| - 1].timer
        decreases Lag(keys, InUsecs(now))
      {
        IsPending(i);
        var next := t.next;
        CompareIsOrder(t.time, now);
        if Compare(t.time, now) > 0 {
          break;
        }
        calls := calls + [t.proc];
        assert forall j :: 0 <= j < |active| ==> active[j] in old(active);
        i, fired := Walk(t, i, now, was, due, fired);
        t := next;
      }
    }

    /** tmr_run, with callbacks that leave the timers alone: calls are their callbacks in order. */
    method Run(now: Time) returns (calls: seq<int>, ghost fired: seq<Firing>)
      requires Valid() && Normal(now) && Runnable(now)
      modifies this`timers, this`active, this`keys, this`clock, this`freeTimers, this`freed
      modifies active`time, active`prev, active`next
      ensures Valid()
      ensures |calls| == |fired| && forall m :: 0 <= m < |fired| ==> calls[m] == fired[m].timer.proc
      ensures forall u :: u in active || u in freed <==> u in old(active) || u in old(freed)
      ensures InOrder(fired, InUsecs(now)) && OnTime(old(active), old(keys), fired)
      ensures AllProgressed(old(active), old(keys), fired, InUsecs(now))
      ensures forall m :: 0 <= m < |old(active)| ==>
                (Count(fired, old(active)[m]) > 0 <==> old(keys)[m].due <= InUsecs(now))
      ensures TakesTurns(fired) && CatchesUp(old(active), fired, InUsecs(now))
      ensures StillDue(fired, InUsecs(now))
      ensures old(KeepsUp(active, keys, InUsecs(now))) ==>
                && (forall m :: 0 <= m < |old(active)| ==> Count(fired, old(active)[m]) <= 1)
                && forall u :: u in active ==> InUsecs(u.time) > InUsecs(now)
    {
      hide Valid, Runnable, Count, InOrder, OnTime, Progressed, AllProgressed, Place, AllPlaced, TakesTurns, CatchesUp, StillDue, KeepsUp;
      ghost var was, due := active, keys;
      ghost var i: nat;
      calls, fired, i := WalkAll(now);
      AllDueFired(was, due, fired, now, i);
      AllCaught(was, fired, now, i);
      OnlyOutrun(was, due, fired, now, i);
      if KeepsUp(was, due, InUsecs(now)) {
        NoneLate(was, due, fired, InUsecs(now));
      }
    }

    /** Of two timers, one of which is not yet due, only the first fires; so it fires once, however late it is. */
    lemma OnlyFirst(was: seq<Timer>, due: seq<Key>, fired: seq<Firing>, t: Timer, u: Timer)
      requires was == [t, u] && |due| == 2 && t.periodic
      requires AllProgressed(was, due, fired, 5) && OnTime(was, due, fired) && TakesTurns(fired)
      requires Count(fired, t) > 0 && Count(fired, u) == 0
      ensures |fired| == 1 && fired[0].timer == t && InUsecs(t.time) == due[0].due + t.usecs
    {
      hide Count;
      FiresOnce(fired, t, u);
      assert was[0] == t && Progressed(t, due[0].due, fired, 5);
    }

    /** tmr_timeout: the time left until the earliest deadline, or none when no timer is pending. */
    method Timeout(now: Time) returns (none: bool, secs: nat, usecs: nat)
      requires Valid() && Normal(now)
      ensures none <==> active == []
      ensures !none ==> usecs < SECOND
      ensures !none ==> exists i :: 0 <= i < |keys| && EarliestOf(keys, i)
                                    && secs * SECOND + usecs == Left(keys[i].due, InUsecs(now))
    {
      secs, usecs := 0, 0;
      none := timers == null;
      if none {
        return;
      }
      var past, diff := Diff(timers.time, now);
      var left := if past then 0 else InUsecs(diff);
      secs, usecs := left / SECOND, left % SECOND;
      assert EarliestOf(keys, 0);
    }
  }

  // ---- a timer that is late ----

  method RunLate(q: TimerQueue, t: Timer, u: Timer) returns (calls: seq<int>)
    requires q.Valid() && q.active == [t, u] && |q.keys| == 2 && q.keys[0].due == 1 && q.keys[1].due == 10
    requires t.usecs == 1 && t.periodic && !u.periodic
    modifies q, q.active
    ensures calls == [t.proc] && t.proc == old(t.proc) && t.periodic && t.usecs == 1 && InUsecs(t.time) == 2
  {
    hide Count, InOrder, Earlier, TimerQueue.Valid, TimerQueue.StillDue, KeepsUp, CatchesUp, OnTime, TimerQueue.AllProgressed, TakesTurns;
    ghost var was, due := q.active, q.keys;
    ghost var fired;
    calls, fired := q.Run(Time(0, 5));
    assert was[0] == t && was[1] == u;
    q.OnlyFirst(was, due, fired, t, u);
  }

  lemma EmptySlot(d: nat)
    ensures Slot([], d) == 0
  {
  }

  lemma SecondSlot(keys: seq<Key>, d: nat)
    requires |keys| == 1 && keys[0].due <= d
    ensures Slot(keys, d) == 1
  {
  }

  method OneTimer() returns (q: TimerQueue, t: Timer)
    ensures fresh(q) && q.Valid() && fresh(t)
    ensures q.active == [t] && q.freed == [] && |q.keys| == 1 && q.keys[0].due == 1
    ensures t.proc == 1 && t.usecs == 1 && t.periodic
  {
    hide TimerQueue.Valid, Slot;
    q := new TimerQueue();
    t := new Timer();
    EmptySlot(1);
    q.Arm(t, Time(0, 0), 1, 1, true);
  }

  method TwoTimers() returns (q: TimerQueue, t: Timer, u: Timer)
    ensures fresh(q) && q.Valid() && fresh(q.active)
    ensures q.active == [t, u] && |q.keys| == 2 && q.keys[0].due == 1 && q.keys[1].due == 10
    ensures t.proc == 1 && t.usecs == 1 && t.periodic && !u.periodic
  {
    hide TimerQueue.Valid, Slot;
    q, t := OneTimer();
    SecondSlot(q.keys, 10);
    u := new Timer();
    q.Arm(u, Time(0, 0), 2, 10, false);
  }

  /** Of a timer with period 1 that was due at 1 and one that is due at 10, tmr_run at 5 fires the first once, although it
      is due again at 2. */
  method LateTimer() returns (t: Timer, calls: seq<int>)
    ensures calls == [1] && t.periodic && t.usecs == 1 && InUsecs(t.time) == 2
  {
    var q, first, second := TwoTimers();
    t := first;
    calls := RunLate(q, t, second);
  }
}
