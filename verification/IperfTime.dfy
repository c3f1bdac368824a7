/** Timestamps of iperf_time.c: seconds and microseconds in 32 bits each. */
module IperfTime {
  const UINT32: nat := 0x1_0000_0000
  const SECOND: nat := 1_000_000

  /** The first number of microseconds that a timestamp cannot hold. */
  const TIME_LIMIT: nat := UINT32 * SECOND

  type uint32 = n: nat | n < UINT32

  datatype Time = Time(secs: uint32, usecs: uint32)

  predicate Normal(t: Time) {
    t.usecs < SECOND
  }

  /** iperf_time_in_usecs. */
  function InUsecs(t: Time): nat {
    t.secs * SECOND + t.usecs
  }

  lemma WrapsAway(wraps: nat, n: nat)
    requires n < TIME_LIMIT
    ensures (wraps * TIME_LIMIT + n) % TIME_LIMIT == n
  {
    assert (wraps * TIME_LIMIT + n) / TIME_LIMIT == wraps;
  }

  /** Carrying from microseconds to seconds, modulo the width of the seconds. */
  lemma AddedUsecs(t: Time, usecs: nat, r: Time)
    requires Normal(t) && Normal(r)
    requires var rest := t.usecs + usecs % SECOND;
             && (rest < SECOND ==> r.usecs == rest && r.secs == (t.secs + usecs / SECOND) % UINT32)
             && (rest >= SECOND ==> r.usecs == rest - SECOND && r.secs == ((t.secs + usecs / SECOND) % UINT32 + 1) % UINT32)
    ensures InUsecs(r) == (InUsecs(t) + usecs) % TIME_LIMIT
  {
    var rest := t.usecs + usecs % SECOND;
    var secs := t.secs + usecs / SECOND + if rest < SECOND then 0 else 1;
    assert usecs == usecs / SECOND * SECOND + usecs % SECOND;
    assert InUsecs(t) + usecs == secs * SECOND + r.usecs;
    var wraps := secs / UINT32;
    assert secs == wraps * UINT32 + secs % UINT32;
    assert r.secs == secs % UINT32;
    assert InUsecs(t) + usecs == wraps * TIME_LIMIT + InUsecs(r);
    WrapsAway(wraps, InUsecs(r));
  }

  /** iperf_time_add_usecs: exact up to TIME_LIMIT, where the seconds wrap around. */
  method AddUsecs(t: Time, usecs: nat) returns (r: Time)
    requires Normal(t)
    ensures Normal(r) && InUsecs(r) == (InUsecs(t) + usecs) % TIME_LIMIT
  {
    var secs := (t.secs + usecs / SECOND) % UINT32;
    var rest := (t.usecs + usecs % SECOND) % UINT32;
    if rest >= SECOND {
      secs := (secs + rest / SECOND) % UINT32;
      rest := rest % SECOND;
    }
    r := Time(secs, rest);
    AddedUsecs(t, usecs, r);
  }

  /** iperf_time_compare. */
  function Compare(a: Time, b: Time): int {
    if a.secs < b.secs then -1
    else if a.secs > b.secs then 1
    else if a.usecs < b.usecs then -1
    else if a.usecs > b.usecs then 1
    else 0
  }

  /** Comparing field by field is comparing the times they stand for. */
  lemma CompareIsOrder(a: Time, b: Time)
    requires Normal(a) && Normal(b)
    ensures Compare(a, b) < 0 <==> InUsecs(a) < InUsecs(b)
    ensures Compare(a, b) > 0 <==> InUsecs(a) > InUsecs(b)
    ensures Compare(a, b) == 0 <==> a == b
  {
    if a.secs < b.secs {
      assert (a.secs + 1) * SECOND <= b.secs * SECOND;
    } else if a.secs > b.secs {
      assert (b.secs + 1) * SECOND <= a.secs * SECOND;
    }
  }

  function Distance(m: nat, n: nat): nat {
    if m < n then n - m else m - n
  }

  /** iperf_time_diff: the distance of two times, and whether the first is not after the second. */
  method Diff(a: Time, b: Time) returns (past: bool, diff: Time)
    requires Normal(a) && Normal(b)
    ensures past <==> InUsecs(a) <= InUsecs(b)
    ensures Normal(diff) && InUsecs(diff) == Distance(InUsecs(a), InUsecs(b))
  {
    CompareIsOrder(a, b);
    var order := Compare(a, b);
    if order == 0 {
      return true, Time(0, 0);
    }
    past := order < 0;
    var later, earlier := if past then b else a, if past then a else b;
    var secs, usecs := later.secs - earlier.secs, later.usecs;
    if usecs < earlier.usecs {
      secs := secs - 1;
      usecs := usecs + SECOND;
    }
    diff := Time(secs, usecs - earlier.usecs);
  }
}
