/** Runs without end: however much traffic there is and however many other clients come, both sides end if no step of
    theirs is put off for ever. */
module ControlFairness {
  import opened Bytes
  import opened ControlProtocol
  import opened ControlRuns
  import opened ControlTheorems

  ghost predicate Next(run: nat -> World, schedule: nat -> Option<Step>, n: nat) {
    match schedule(n)
    case None => run(n + 1) == run(n)
    case Some(step) => Enabled(run(n), step) && run(n + 1) == Do(run(n), step)
  }

  /** A run that goes on for ever; nothing happens at n if schedule(n) is None. */
  ghost predicate Goes(run: nat -> World, schedule: nat -> Option<Step>) {
    forall n :: Next(run, schedule, n)
  }

  ghost predicate Served(run: nat -> World, schedule: nat -> Option<Step>, step: Step, n: nat) {
    exists m: nat :: n <= m && (schedule(m) == Some(step) || !Enabled(run(m), step))
  }

  /** Weak fairness: a quiet step is taken some time, unless it is impossible some time. */
  ghost predicate Fair(run: nat -> World, schedule: nat -> Option<Step>) {
    forall step, n: nat :: Quiet(step) ==> Served(run, schedule, step, n)
  }

  /** The quiet step of the test that is taken at n, if one is. */
  ghost predicate Moves(run: nat -> World, schedule: nat -> Option<Step>, n: nat) {
    schedule(n).Some? && Enabled(run(n), schedule(n).value) && Advances(run(n), schedule(n).value)
  }

  lemma {:induction false} AlwaysInv(run: nat -> World, schedule: nat -> Option<Step>, n: nat)
    requires Goes(run, schedule) && Inv(run(0))
    ensures Inv(run(n))
  {
    hide Inv, Do, Enabled;
    if n > 0 {
      AlwaysInv(run, schedule, n - 1);
      assert Next(run, schedule, n - 1);
      if schedule(n - 1).Some? {
        StepKeeps(run(n - 1), schedule(n - 1).value);
      }
    }
  }

  /** A possible step of the test is taken some time. */
  lemma {:induction false} TakenBy(run: nat -> World, schedule: nat -> Option<Step>, step: Step, n: nat, m: nat) returns (k: nat)
    requires Goes(run, schedule) && Inv(run(0)) && n <= m
    requires Enabled(run(n), step) && Advances(run(n), step)
    requires schedule(m) == Some(step) || !Enabled(run(m), step)
    ensures n <= k && Moves(run, schedule, k)
    decreases m - n
  {
    hide Inv, Do, Enabled, Advances;
    if schedule(n) == Some(step) {
      k := n;
    } else {
      AlwaysInv(run, schedule, n);
      assert Next(run, schedule, n);
      if schedule(n).Some? {
        StaysEnabled(run(n), step, schedule(n).value);
      }
      k := TakenBy(run, schedule, step, n + 1, m);
    }
  }

  lemma Taken(run: nat -> World, schedule: nat -> Option<Step>, step: Step, n: nat) returns (k: nat)
    requires Goes(run, schedule) && Fair(run, schedule) && Inv(run(0))
    requires Enabled(run(n), step) && Advances(run(n), step)
    ensures n <= k && Moves(run, schedule, k)
  {
    hide Inv, Do, Enabled;
    assert Quiet(step);
    assert Served(run, schedule, step, n);
    var m: nat :| n <= m && (schedule(m) == Some(step) || !Enabled(run(m), step));
    k := TakenBy(run, schedule, step, n, m);
  }

  // ---- other clients ahead of the client ----

  /** How many connections of others are ahead of the client's first one. */
  function Ahead(backlog: seq<Connection>): nat {
    if backlog == [] || backlog[0].client then 0 else 1 + Ahead(backlog[1..])
  }

  lemma {:induction false} AheadAppend(backlog: seq<Connection>, k: Connection)
    requires FromClient(backlog) > 0
    ensures Ahead(backlog + [k]) == Ahead(backlog)
  {
    if !backlog[0].client {
      AheadAppend(backlog[1..], k);
      assert (backlog + [k])[1..] == backlog[1..] + [k];
    }
  }

  /** The test can go on only after another client has been turned away. */
  ghost predicate Blocked(w: World) {
    !Final(w) && NextStep(w) == Accept && w.backlog != [] && !w.backlog[0].client && FromClient(w.backlog) > 0 && Enabled(w, Accept)
  }

  /** Either some step of the test is possible, or it waits for a connection of the client behind those of others. */
  lemma Waits(w: World)
    requires Inv(w) && !Final(w) && Enabled(w, NextStep(w)) && !Advances(w, NextStep(w))
    ensures Enabled(w, Start) || Blocked(w)
  {
    hide Learned, NothingSent, OnlyDenied;
    NeverStuck(w);
    assert ServerAt(w.server) == 3;
  }

  lemma BlockedStays(w: World, other: Step)
    requires Inv(w) && Blocked(w) && Enabled(w, other) && !Advances(w, other) && other != Accept
    ensures Blocked(Do(w, other)) && Ahead(Do(w, other).backlog) == Ahead(w.backlog)
  {
    hide Inv;
    if other.Knock? {
      AheadAppend(w.backlog, Connection(false, other.cookie));
      FromClientAppend(w.backlog, Connection(false, other.cookie));
    }
  }

  /** A test that waits for others to be turned away moves on, or one of them is turned away. */
  lemma {:induction false} Unblocked(run: nat -> World, schedule: nat -> Option<Step>, n: nat, m: nat) returns (k: nat)
    requires Goes(run, schedule) && Inv(run(0)) && n <= m && Blocked(run(n))
    requires schedule(m) == Some(Accept) || !Enabled(run(m), Accept)
    ensures n <= k
    ensures Moves(run, schedule, k) ||
            (schedule(k) == Some(Accept) && Blocked(run(k)) && Ahead(run(k).backlog) == Ahead(run(n).backlog))
    decreases m - n
  {
    hide Inv, Do, Advances, NextStep, Final, Ahead;
    AlwaysInv(run, schedule, n);
    assert Next(run, schedule, n);
    if schedule(n) == Some(Accept) || Moves(run, schedule, n) {
      k := n;
    } else {
      if schedule(n).Some? {
        BlockedStays(run(n), schedule(n).value);
      }
      k := Unblocked(run, schedule, n + 1, m);
    }
  }

  // ---- every fair run ends ----

  lemma HeadTaken(w: World)
    requires Enabled(w, Accept)
    ensures Do(w, Accept).backlog == w.backlog[1..]
  {
  }

  lemma TurnedAway(w: World)
    requires Inv(w) && Blocked(w)
    ensures Ahead(Do(w, Accept).backlog) == Ahead(w.backlog) - 1 && !Final(Do(w, Accept))
  {
    hide Inv, Remaining, Do, Final;
    StepKeeps(w, Accept);
    RemainingFalls(w, Accept);
    NoneRemaining(w);
    NoneRemaining(Do(w, Accept));
    HeadTaken(w);
  }

  /** While a side is not done, a step of the test is taken some time. */
  lemma {:induction false} MovesOn(run: nat -> World, schedule: nat -> Option<Step>, n: nat) returns (k: nat)
    requires Goes(run, schedule) && Fair(run, schedule) && Inv(run(0)) && !Final(run(n))
    ensures n <= k && Moves(run, schedule, k)
    decreases Ahead(run(n).backlog)
  {
    hide Inv, Do, Enabled;
    AlwaysInv(run, schedule, n);
    NeverStuck(run(n));
    if Advances(run(n), NextStep(run(n))) {
      k := Taken(run, schedule, NextStep(run(n)), n);
      return;
    }
    Waits(run(n));
    if Enabled(run(n), Start) {
      k := Taken(run, schedule, Start, n);
      return;
    }
    assert Served(run, schedule, Accept, n);
    var m: nat :| n <= m && (schedule(m) == Some(Accept) || !Enabled(run(m), Accept));
    k := Unblocked(run, schedule, n, m);
    if !Moves(run, schedule, k) {
      AlwaysInv(run, schedule, k);
      assert Next(run, schedule, k);
      TurnedAway(run(k));
      k := MovesOn(run, schedule, k + 1);
    }
  }

  lemma {:induction false} RemainingLater(run: nat -> World, schedule: nat -> Option<Step>, n: nat, m: nat)
    requires Goes(run, schedule) && Inv(run(0)) && n <= m
    ensures Remaining(run(m)) <= Remaining(run(n))
    decreases m
  {
    hide Inv, Do, Enabled, Remaining;
    if n < m {
      RemainingLater(run, schedule, n, m - 1);
      AlwaysInv(run, schedule, m - 1);
      assert Next(run, schedule, m - 1);
      if schedule(m - 1).Some? {
        RemainingFalls(run(m - 1), schedule(m - 1).value);
      }
    }
  }

  lemma {:induction false} Ends(run: nat -> World, schedule: nat -> Option<Step>, n: nat) returns (m: nat)
    requires Goes(run, schedule) && Fair(run, schedule) && Inv(run(0))
    ensures Final(run(m))
    decreases Remaining(run(n))
  {
    hide Inv, Do, Enabled, Remaining, Advances;
    AlwaysInv(run, schedule, n);
    NoneRemaining(run(n));
    if Final(run(n)) {
      m := n;
    } else {
      var k := MovesOn(run, schedule, n);
      RemainingLater(run, schedule, n, k);
      AlwaysInv(run, schedule, k);
      assert Next(run, schedule, k);
      RemainingFalls(run(k), schedule(k).value);
      AlwaysInv(run, schedule, k + 1);
      NoneRemaining(run(k + 1));
      m := Ends(run, schedule, k + 1);
    }
  }

  /** Every fair run of a test comes to a point where both sides are done. */
  lemma FairRunsEnd(cookie: Text, num: nat, mode: Mode, run: nat -> World, schedule: nat -> Option<Step>)
    requires run(0) == Init(cookie, num, mode) && Goes(run, schedule) && Fair(run, schedule)
    ensures exists n :: Final(run(n))
  {
    InitOk(cookie, num, mode);
    var n := Ends(run, schedule, 0);
  }
}
