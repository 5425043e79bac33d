/** The monitor of philo_bonus/pl_monitor.c without its semaphores: the
    fullness tracker and the starvation check both end the simulation by
    setting END, which is the only value either writes to the simulation
    state. Clock readings are parameters. */
module BonusMonitor {
  import opened Machine
  import opened Types
  import BonusMessages
  import Monitor

  /** pl_full_tracker: without a meal target it reports 0 and changes
      nothing; a philosopher that has eaten enough and is still NOTFULL
      becomes FULL and is counted once; when the count reaches the number of
      philosophers the simulation state becomes END and the result is 1,
      otherwise the state is left alone and the result is 0. */
  method FullTracker(p: Philosopher, ghost table: seq<int>) returns (r: int)
    modifies p`full, p.rules`philoFull, p.rules`simState
    ensures var target := p.rules.iteration;
      if target != 0 && p.mealCount >= target && old(p.full) == NOTFULL
      then p.full == FULL && p.rules.philoFull == old(p.rules.philoFull) + 1
      else p.full == old(p.full) && p.rules.philoFull == old(p.rules.philoFull)
    ensures r == (if p.rules.iteration != 0 && p.rules.philoFull == p.rules.philoTotal then 1 else 0)
    ensures p.rules.simState == if r == 1 then End else old(p.rules.simState)
    ensures old(Monitor.Tallied(p, table)) ==> Monitor.Tallied(p, table[p.id := p.full])
    ensures old(Monitor.Tallied(p, table)) && |table| == p.rules.philoTotal && p.rules.iteration != 0 ==>
      (r == 1 <==> Monitor.EveryoneFull(table[p.id := p.full]))
  {
    ghost var before := Monitor.Tallied(p, table);
    if before {
      assert table[p.id := p.full] == table;
    }
    var iteration := p.rules.iteration;
    if iteration == 0 {
      return 0;
    }
    if p.mealCount >= iteration && p.full == NOTFULL {
      p.rules.philoFull := p.rules.philoFull + 1;
      p.full := FULL;
      if before {
        Monitor.FullCountMark(table, p.id);
      }
    }
    if before {
      Monitor.FullCountAll(table[p.id := p.full]);
    }
    if p.rules.philoFull == p.rules.philoTotal {
      p.rules.simState := End;
      return 1;
    }
    return 0;
  }

  /** The process variant's starvation test: strictly more than `timeToDie`
      since the last meal, with no special case for a last meal at 0. */
  predicate Starved(lastAte: int, now: int, timeToDie: int)
  {
    now - lastAte > timeToDie
  }

  /** The two variants disagree exactly at the boundary and at a last meal
      recorded as 0: the thread variant declares death when precisely
      `timeToDie` has passed, this one only after that, and the thread
      variant never declares a philosopher whose last meal is 0 dead. */
  lemma BoundariesDiffer(lastAte: int, now: int, timeToDie: int)
    ensures Starved(lastAte, now, timeToDie) && lastAte != 0 ==> Monitor.Starved(lastAte, now, timeToDie)
    ensures lastAte != 0 ==>
      (Monitor.Starved(lastAte, now, timeToDie) && !Starved(lastAte, now, timeToDie) <==> now - lastAte == timeToDie)
    ensures !Monitor.Starved(0, now, timeToDie)
  {
  }

  /** pl_check_dead at clock reading `now`: a starved philosopher is
      declared DIED (the line is rendered under the simulation state as it
      was, so it is suppressed if the simulation had already ended), then
      the simulation state becomes END and the result is 1; otherwise the
      result is 0 and nothing changes. */
  method CheckDead(p: Philosopher, now: int) returns (r: int, line: string)
    modifies p.rules`simState
    ensures r == 0 || r == 1
    ensures r == 1 <==> Starved(p.lastAte, now, p.rules.timeToDie)
    ensures r == 1 ==> line == BonusMessages.DeclareState(Some(p.id), Died, now, p.rules.startTime, old(p.rules.simState))
    ensures r == 1 ==> p.rules.simState == End
    ensures r == 0 ==> line == [] && p.rules.simState == old(p.rules.simState)
  {
    var lastAte := p.lastAte;
    if now - lastAte > p.rules.timeToDie {
      line := BonusMessages.DeclareState(Some(p.id), Died, now, p.rules.startTime, p.rules.simState);
      p.rules.simState := End;
      return 1, line;
    }
    return 0, [];
  }

  /** Why a monitor stopped: it found the simulation ended, its philosopher
      starved, every philosopher was full, or there was no further clock
      reading. */
  datatype Exit = Ended | Death | AllFull | ClockStopped

  /** One round of pl_monitor once the simulation state has been found not
      to be END: the starvation check at clock reading `now`, then, only if
      that reports 0, the tracker. */
  method Round(p: Philosopher, now: int, ghost table: seq<int>) returns (dead: int, full: int, line: string)
    requires p.rules.simState != End
    modifies p`full, p.rules`philoFull, p.rules`simState
    ensures dead == 1 <==> Starved(p.lastAte, now, p.rules.timeToDie)
    ensures dead == 1 ==> line == BonusMessages.DeclareState(Some(p.id), Died, now, p.rules.startTime, old(p.rules.simState))
    ensures dead == 1 ==> p.rules.simState == End && full == 0
    ensures dead != 1 ==> line == []
    ensures dead != 1 ==> (full == 1 <==> p.rules.iteration != 0 && p.rules.philoFull == p.rules.philoTotal)
    ensures dead != 1 ==> p.rules.simState == if full == 1 then End else old(p.rules.simState)
    ensures old(Monitor.Tallied(p, table)) ==> Monitor.Tallied(p, table[p.id := p.full])
  {
    if Monitor.Tallied(p, table) {
      assert table[p.id := p.full] == table;
    }
    dead, line := CheckDead(p, now);
    if dead == 1 {
      return dead, 0, line;
    }
    full := FullTracker(p, table);
  }

  /** pl_monitor: each round first stops if the simulation state is END,
      then runs the starvation check and, only if that reports 0, the
      tracker; either reporting 1 stops the monitor. `clock` holds the clock
      reading of each round; the loop also stops when it runs out. The
      simulation state only ever moves to END, and only on the way out. */
  method MonitorLoop(p: Philosopher, clock: seq<int>, ghost table: seq<int>) returns (rounds: nat, why: Exit, out: string)
    modifies p`full, p.rules`philoFull, p.rules`simState
    ensures rounds <= |clock|
    ensures why == Ended <==> 0 < |clock| && old(p.rules.simState) == End
    ensures why == Ended ==> rounds == 1
    ensures why == ClockStopped ==> rounds == |clock| && p.rules.simState == old(p.rules.simState)
    ensures why == Death || why == AllFull ==> 0 < rounds && p.rules.simState == End
    ensures p.rules.simState == old(p.rules.simState) || p.rules.simState == End
    ensures why != Ended ==>
      forall k :: 0 <= k < rounds && (k < rounds - 1 || why != Death) ==> !Starved(p.lastAte, clock[k], p.rules.timeToDie)
    ensures why == Death ==> Starved(p.lastAte, clock[rounds - 1], p.rules.timeToDie)
    ensures why == Death ==> out == BonusMessages.DeclareState(Some(p.id), Died, clock[rounds - 1], p.rules.startTime, old(p.rules.simState))
    ensures why != Death ==> out == []
    ensures why == AllFull ==> p.rules.iteration != 0 && p.rules.philoFull == p.rules.philoTotal
    ensures why == ClockStopped && 0 < rounds ==> !(p.rules.iteration != 0 && p.rules.philoFull == p.rules.philoTotal)
    ensures old(Monitor.Tallied(p, table)) ==> Monitor.Tallied(p, table[p.id := p.full])
  {
    if Monitor.Tallied(p, table) {
      assert table[p.id := p.full] == table;
    }
    rounds, why, out := 0, ClockStopped, [];
    while rounds < |clock|
      invariant rounds <= |clock|
      invariant p.rules.simState == old(p.rules.simState)
      invariant 0 < rounds ==> old(p.rules.simState) != End
      invariant forall k :: 0 <= k < rounds ==> !Starved(p.lastAte, clock[k], p.rules.timeToDie)
      invariant 0 < rounds ==> !(p.rules.iteration != 0 && p.rules.philoFull == p.rules.philoTotal)
      invariant old(Monitor.Tallied(p, table)) ==> Monitor.Tallied(p, table[p.id := p.full])
    {
      if p.rules.simState == End {
        return 1, Ended, [];
      }
      ghost var current := if 0 <= p.id < |table| then table[p.id := p.full] else table;
      var dead, full, line := Round(p, clock[rounds], current);
      if 0 <= p.id < |table| {
        assert current[p.id := p.full] == table[p.id := p.full];
      }
      rounds := rounds + 1;
      if dead == 1 {
        return rounds, Death, line;
      }
      if full == 1 {
        return rounds, AllFull, [];
      }
    }
  }
}
