/** Seating of philo/pl_philo.c: philosopher `id` of `n` sits between fork
    `id` (on its left) and the fork of the seat before it (on its right),
    so the forks and the seats form one ring. Forks are indices into the
    fork array. */
module Seats {
  import opened Types

  /** The left fork of a seat is the seat's own fork. */
  function LeftFork(id: int): int
  {
    id
  }

  /** The right fork of a seat is the fork of the previous seat; seat 0
      wraps round to the last one. */
  function RightFork(id: int, n: int): int
  {
    if id == 0 then n - 1 else id - 1
  }

  /** Both forks of a seat are forks of the table, and the right one is
      the previous seat's index modulo `n`. */
  lemma ForksOnTable(id: int, n: int)
    requires 0 <= id < n
    ensures 0 <= LeftFork(id) < n && 0 <= RightFork(id, n) < n
    ensures RightFork(id, n) == (id - 1 + n) % n
  {
    if id == 0 {
      assert (id - 1 + n) % n == n - 1;
    } else {
      assert (id - 1 + n) % n == id - 1 by {
        assert id - 1 + n == (id - 1) + 1 * n;
      }
    }
  }

  /** A lone philosopher holds the same fork in both hands; with two or
      more seats the forks of a seat differ. */
  lemma TwoForksWhenTwoSeats(id: int, n: int)
    requires 0 <= id < n
    ensures LeftFork(id) == RightFork(id, n) <==> n == 1
  {
  }

  /** A seat's left fork is the right fork of the next seat round, so
      every neighbouring pair shares one fork. */
  lemma NeighboursShare(id: int, n: int)
    requires 0 <= id < n
    ensures LeftFork(id) == RightFork((id + 1) % n, n)
  {
    if id < n - 1 {
      assert (id + 1) % n == id + 1;
    }
  }

  /** The seats that use fork `f`, in either hand. */
  function Users(f: int, n: nat): set<int>
  {
    set i | 0 <= i < n && (LeftFork(i) == f || RightFork(i, n) == f)
  }

  /** With two or more seats every fork is used by exactly two philosophers:
      its own seat (left hand) and the next seat round (right hand). */
  lemma EachForkSharedByTwo(f: int, n: nat)
    requires 2 <= n && 0 <= f < n
    ensures var next := if f == n - 1 then 0 else f + 1;
      Users(f, n) == {f, next} && |Users(f, n)| == 2
  {
    var next := if f == n - 1 then 0 else f + 1;
    forall i | i in Users(f, n)
      ensures i == f || i == next
    {
    }
    assert RightFork(next, n) == f;
    assert Users(f, n) == {f, next};
  }

  /** pl_philo_init: numbers the philosopher, clears its meal count, marks
      it NOTFULL, stamps the last meal with the clock reading `now`, gives
      it its left fork and the shared rules; then, only if setting up its
      own locks succeeded (`lockOk`), its right fork. Returns 1 on success,
      0 otherwise. */
  method PhiloInit(p: Philosopher, rules: Rules, id: int, now: int, lockOk: bool) returns (r: int)
    requires 0 <= id < rules.philoTotal
    modifies p
    ensures p.id == id && p.mealCount == 0 && p.full == NOTFULL && p.lastAte == now
    ensures p.leftFork == LeftFork(id) && p.rules == rules
    ensures r == (if lockOk then 1 else 0)
    ensures lockOk ==> p.rightFork == RightFork(id, rules.philoTotal) && 0 <= p.rightFork < rules.philoTotal
    ensures !lockOk ==> p.rightFork == old(p.rightFork)
  {
    p.id := id;
    p.mealCount := 0;
    p.full := NOTFULL;
    p.lastAte := now;
    p.leftFork := id;
    p.rules := rules;
    if !lockOk {
      return 0;
    }
    if id == 0 {
      p.rightFork := rules.philoTotal - 1;
    } else {
      p.rightFork := id - 1;
    }
    return 1;
  }
}
