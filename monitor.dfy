/** The monitor of philo/pl_monitor.c without its locks: the fullness
    tracker, the starvation check and the loop that runs them. Clock
    readings are parameters. */
module Monitor {
  import opened Machine
  import opened Types
  import Messages
  import Seats

  /** How many entries of a table of `full` fields are FULL. */
  function FullCount(fulls: seq<int>): nat
  {
    if fulls == [] then 0
    else (if fulls[0] == FULL then 1 else 0) + FullCount(fulls[1..])
  }

  /** Marking one more philosopher FULL adds exactly one to the count. */
  lemma {:induction false} FullCountMark(fulls: seq<int>, i: int)
    requires 0 <= i < |fulls| && fulls[i] != FULL
    ensures FullCount(fulls[i := FULL]) == FullCount(fulls) + 1
  {
    if i > 0 {
      FullCountMark(fulls[1..], i - 1);
      assert fulls[i := FULL][1..] == fulls[1..][i - 1 := FULL];
    }
  }

  /** Every philosopher in the table is FULL. */
  predicate EveryoneFull(fulls: seq<int>)
  {
    forall i :: 0 <= i < |fulls| ==> fulls[i] == FULL
  }

  /** The count never exceeds the table, and reaches it exactly when every
      philosopher is FULL. */
  lemma {:induction false} FullCountAll(fulls: seq<int>)
    ensures FullCount(fulls) <= |fulls|
    ensures FullCount(fulls) == |fulls| <==> EveryoneFull(fulls)
  {
    if fulls != [] {
      var tail := fulls[1..];
      FullCountAll(tail);
      assert forall i :: 1 <= i < |fulls| ==> fulls[i] == tail[i - 1];
    }
  }

  /** The shared counter agrees with a table of every philosopher's `full`
      field, and `p` has its own entry in it. */
  ghost predicate Tallied(p: Philosopher, table: seq<int>)
    reads p, p.rules
  {
    && 0 <= p.id < |table| && table[p.id] == p.full
    && p.rules.philoFull == FullCount(table)
  }

  /** pl_full_tracker as it was evidently meant: without a meal target it
      reports 0 and changes nothing; a philosopher that has eaten enough and
      is still NOTFULL becomes FULL and is counted once; the result is 1
      exactly when the count reaches the number of philosophers. It keeps
      the counter equal to the number of FULL philosophers. */
  method FullTracker(p: Philosopher, ghost table: seq<int>) returns (r: int)
    modifies p`full, p.rules`philoFull
    ensures var target := p.rules.iteration;
      if target != 0 && p.mealCount >= target && old(p.full) == NOTFULL
      then p.full == FULL && p.rules.philoFull == old(p.rules.philoFull) + 1
      else p.full == old(p.full) && p.rules.philoFull == old(p.rules.philoFull)
    ensures r == (if p.rules.iteration != 0 && p.rules.philoFull == p.rules.philoTotal then 1 else 0)
    ensures old(Tallied(p, table)) ==> Tallied(p, table[p.id := p.full])
    ensures old(Tallied(p, table)) && |table| == p.rules.philoTotal && p.rules.iteration != 0 ==>
      (r == 1 <==> EveryoneFull(table[p.id := p.full]))
  {
    ghost var before := Tallied(p, table);
    if before {
      assert table[p.id := p.full] == table;
    }
    if p.rules.iteration == 0 {
      return 0;
    }
    if p.mealCount >= p.rules.iteration && p.full == NOTFULL {
      p.rules.philoFull := p.rules.philoFull + 1;
      p.full := FULL;
      if before {
        FullCountMark(table, p.id);
      }
    }
    if before {
      FullCountAll(table[p.id := p.full]);
    }
    if p.rules.philoFull == p.rules.philoTotal {
      return 1;
    }
    return 0;
  }

  /** pl_full_tracker as written: it tests `full` against 0 and sets it to
      1, while pl_philo_init sets it to NOTFULL, so a philosopher that
      starts NOTFULL is never counted. */
  method FullTrackerAsWritten(p: Philosopher) returns (r: int)
    modifies p`full, p.rules`philoFull
    ensures var target := p.rules.iteration;
      if target != 0 && p.mealCount >= target && old(p.full) == 0
      then p.full == 1 && p.rules.philoFull == old(p.rules.philoFull) + 1
      else p.full == old(p.full) && p.rules.philoFull == old(p.rules.philoFull)
    ensures r == (if p.rules.iteration != 0 && p.rules.philoFull == p.rules.philoTotal then 1 else 0)
    ensures old(p.full) == NOTFULL ==> p.full == NOTFULL && p.rules.philoFull == old(p.rules.philoFull)
  {
    if p.rules.iteration == 0 {
      return 0;
    }
    if p.mealCount >= p.rules.iteration && p.full == 0 {
      p.rules.philoFull := p.rules.philoFull + 1;
      p.full := 1;
    }
    if p.rules.philoFull == p.rules.philoTotal {
      return 1;
    }
    return 0;
  }

  /** A single philosopher with a target of one meal, freshly initialised
      and after that meal: the tracker as written does not report the table
      full, the corrected one does. */
  method FullnessScenario() returns (asWritten: int, corrected: int)
    ensures asWritten == 0 && corrected == 1
  {
    var rules := new Rules(Run, 0, 1, 800, 200, 200, 1, 0);
    var p := new Philosopher(rules);
    var ok := Seats.PhiloInit(p, rules, 0, 0, true);
    p.mealCount := 1;
    asWritten := FullTrackerAsWritten(p);
    var rules2 := new Rules(Run, 0, 1, 800, 200, 200, 1, 0);
    var q := new Philosopher(rules2);
    ok := Seats.PhiloInit(q, rules2, 0, 0, true);
    q.mealCount := 1;
    corrected := FullTracker(q, [NOTFULL]);
  }

  /** The thread variant's starvation test: a philosopher with a recorded
      meal has starved once at least `timeToDie` has passed since it. */
  predicate Starved(lastAte: int, now: int, timeToDie: int)
  {
    lastAte != 0 && now - lastAte >= timeToDie
  }

  /** Starvation is final: a later clock reading still finds the
      philosopher starved. */
  lemma StarvationPersists(lastAte: int, now: int, later: int, timeToDie: int)
    requires Starved(lastAte, now, timeToDie) && now <= later
    ensures Starved(lastAte, later, timeToDie)
  {
  }

  /** pl_check_dead at clock reading `now`: 1 and the DIED line when the
      philosopher has starved, 0 and nothing otherwise. It changes nothing. */
  method CheckDead(p: Philosopher, now: int) returns (r: int, line: string)
    ensures r == 1 <==> Starved(p.lastAte, now, p.rules.timeToDie)
    ensures r == 0 || r == 1
    ensures r == 1 ==> line == Messages.DeclareState(Some(p.id), Died, now, p.rules.startTime)
    ensures r == 0 ==> line == []
  {
    if p.lastAte == 0 {
      return 0, [];
    }
    if now - p.lastAte >= p.rules.timeToDie {
      line := Messages.DeclareState(Some(p.id), Died, now, p.rules.startTime);
      return 1, line;
    }
    return 0, [];
  }

  /** Why a monitor stopped: starvation, every philosopher full, or no
      further clock reading. */
  datatype Exit = Death | AllFull | ClockStopped

  /** pl_monitor: round after round, the starvation check first, then the
      tracker; the first check that reports 1 ends the loop. `clock` holds
      the clock reading of each round; the loop also stops when it runs
      out. It keeps the counter equal to the number of FULL philosophers. */
  method MonitorLoop(p: Philosopher, clock: seq<int>, ghost table: seq<int>) returns (rounds: nat, why: Exit, out: string)
    modifies p`full, p.rules`philoFull
    ensures rounds <= |clock|
    ensures why == ClockStopped ==> rounds == |clock|
    ensures why != ClockStopped ==> 0 < rounds
    ensures forall k :: 0 <= k < rounds && (k < rounds - 1 || why != Death) ==> !Starved(p.lastAte, clock[k], p.rules.timeToDie)
    ensures why == Death ==> Starved(p.lastAte, clock[rounds - 1], p.rules.timeToDie)
    ensures why == Death ==> out == Messages.DeclareState(Some(p.id), Died, clock[rounds - 1], p.rules.startTime)
    ensures why != Death ==> out == []
    ensures why == AllFull <==> 0 < rounds && !Starved(p.lastAte, clock[rounds - 1], p.rules.timeToDie)
                                && p.rules.iteration != 0 && p.rules.philoFull == p.rules.philoTotal
    ensures old(Tallied(p, table)) ==> Tallied(p, table[p.id := p.full])
  {
    if Tallied(p, table) {
      assert table[p.id := p.full] == table;
    }
    rounds, why, out := 0, ClockStopped, [];
    while rounds < |clock|
      invariant rounds <= |clock|
      invariant forall k :: 0 <= k < rounds ==> !Starved(p.lastAte, clock[k], p.rules.timeToDie)
      invariant 0 < rounds ==> !(p.rules.iteration != 0 && p.rules.philoFull == p.rules.philoTotal)
      invariant old(Tallied(p, table)) ==> Tallied(p, table[p.id := p.full])
    {
      var dead, line := CheckDead(p, clock[rounds]);
      rounds := rounds + 1;
      if dead == 1 {
        return rounds, Death, line;
      }
      ghost var now := if 0 <= p.id < |table| then table[p.id := p.full] else table;
      var full := FullTracker(p, now);
      if 0 <= p.id < |table| {
        assert now[p.id := p.full] == table[p.id := p.full];
      }
      if full == 1 {
        return rounds, AllFull, [];
      }
    }
  }
}
