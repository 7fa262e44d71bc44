/** With the set of ready tasks fixed, every ready task runs again within a number of user-mode clock
    ticks that the counters and priorities bound. */
module Fairness {
  import opened Kernel
  import opened Scheduler

  /** The tasks and the running one. */
  datatype Machine = Machine(ts: seq<Slot>, current: int)

  ghost predicate Live(m: Machine) {
    Bounded(m.ts) && 0 <= m.current < NR_TASKS && m.ts[m.current].Task?
  }

  /** A clock tick in user mode: `do_timer` with cpl 3. */
  ghost function Tick(m: Machine): Machine
    requires Live(m)
  {
    var ticked := Spend(m.ts, m.current);
    if ticked[m.current].counter > 0 then Machine(ticked, m.current)
    else Machine(Scheduled(ticked), Best(Scheduled(ticked), 1))
  }

  /** It is the only thing that `do_timer` can do then. */
  lemma TickIsTimer(m: Machine, n: Machine)
    requires Live(m)
    ensures Ticked(m.ts, m.current, 3, n.ts, n.current) <==> n == Tick(m)
  {
    var ticked := Spend(m.ts, m.current);
    Refreshes(ticked);
    RecomputeBounded(ticked);
    BestIsChosen(Scheduled(ticked), n.current);
    hide Scheduled, Refreshed, Chosen, Best;
  }

  lemma TickLive(m: Machine)
    requires Live(m) && exists t :: Ready(m.ts, t)
    ensures Live(Tick(m))
    ensures forall t :: Ready(Tick(m).ts, t) <==> Ready(m.ts, t)
  {
    var ticked := Spend(m.ts, m.current);
    assert forall t :: Ready(ticked, t) <==> Ready(m.ts, t);
    RecomputeBounded(ticked);
    BestIsChosen(Scheduled(ticked), Best(Scheduled(ticked), 1));
  }

  ghost function Ticks(m: Machine, k: nat): Machine
    requires Live(m) && exists t :: Ready(m.ts, t)
    decreases k
  {
    if k == 0 then m
    else
      TickLive(m);
      assert exists t :: Ready(Tick(m).ts, t) by {
        var t :| Ready(m.ts, t);
        assert Ready(Tick(m).ts, t);
      }
      Ticks(Tick(m), k - 1)
  }

  // ---------- measures ----------

  /** What the ready tasks from slot i on have left. */
  function Left(ts: seq<Slot>, i: int): int
    requires 1 <= i
    decreases |ts| - i
  {
    if i >= |ts| then 0 else (if Runs(ts[i]) then ts[i].counter else 0) + Left(ts, i + 1)
  }

  /** The most they can be given. */
  function Epoch(ts: seq<Slot>, i: int): int
    requires 1 <= i
    decreases |ts| - i
  {
    if i >= |ts| then 0 else (if Runs(ts[i]) then 2 * ts[i].priority - 1 else 0) + Epoch(ts, i + 1)
  }

  lemma {:induction false} LeftBounds(ts: seq<Slot>, i: int)
    requires Bounded(ts) && 1 <= i
    ensures 0 <= Left(ts, i) <= Epoch(ts, i)
    ensures forall t :: i <= t && Ready(ts, t) ==> ts[t].counter <= Left(ts, i)
    decreases |ts| - i
  {
    if i < |ts| {
      LeftBounds(ts, i + 1);
    }
  }

  lemma {:induction false} LeftOfTwo(ts: seq<Slot>, i: int, t: int, u: int)
    requires Bounded(ts) && 1 <= i && i <= t && i <= u && t != u && Ready(ts, t) && Ready(ts, u)
    ensures ts[t].counter + ts[u].counter <= Left(ts, i)
    decreases |ts| - i
  {
    LeftBounds(ts, i + 1);
    if i < t && i < u {
      LeftOfTwo(ts, i + 1, t, u);
    }
  }

  lemma {:induction false} LeftSpends(ts: seq<Slot>, i: int, t: int)
    requires Bounded(ts) && 1 <= i && 0 <= t < NR_TASKS && ts[t].Task?
    ensures Left(Spend(ts, t), i) == Left(ts, i) - if i <= t && Ready(ts, t) && ts[t].counter >= 1 then 1 else 0
    ensures Epoch(Spend(ts, t), i) == Epoch(ts, i)
    decreases |ts| - i
  {
    if i < |ts| {
      LeftSpends(ts, i + 1, t);
    }
  }

  lemma {:induction false} EpochStays(ts: seq<Slot>, i: int)
    requires Bounded(ts) && 1 <= i
    ensures Epoch(Recompute(ts), i) == Epoch(ts, i)
    decreases |ts| - i
  {
    if i < |ts| {
      EpochStays(ts, i + 1);
    }
  }

  lemma {:induction false} NothingLeft(ts: seq<Slot>, i: int)
    requires Bounded(ts) && 1 <= i && Left(ts, i) == 0
    ensures forall t :: i <= t && Ready(ts, t) ==> ts[t].counter == 0
    decreases |ts| - i
  {
    LeftBounds(ts, i);
  }

  // ---------- within an epoch ----------

  /** A ready task with ticks left is running. */
  ghost predicate Running(m: Machine) {
    Live(m) && Ready(m.ts, m.current) && m.ts[m.current].counter >= 1
  }

  /** One tick of an epoch: a ready task goes on running, and unless the epoch ends everyone else keeps
      their counter and one tick less is left in all. */
  lemma TickInEpoch(m: Machine)
    requires Running(m)
    ensures var n := Tick(m);
      && Running(n)
      && (forall t :: Ready(n.ts, t) <==> Ready(m.ts, t))
      && Epoch(n.ts, 1) == Epoch(m.ts, 1)
      && (forall t :: Ready(m.ts, t) ==> n.ts[t].priority == m.ts[t].priority)
      && (if Left(m.ts, 1) > 1
          then
            && Left(n.ts, 1) == Left(m.ts, 1) - 1
            && forall t :: Ready(m.ts, t) ==> n.ts[t].counter == m.ts[t].counter - if t == m.current then 1 else 0
          else forall t :: Ready(m.ts, t) ==> n.ts[t].counter == m.ts[t].priority)
  {
    var ticked := Spend(m.ts, m.current);
    TickLive(m);
    LeftSpends(m.ts, 1, m.current);
    LeftBounds(m.ts, 1);
    LeftBounds(ticked, 1);
    assert forall t :: Ready(ticked, t) <==> Ready(m.ts, t);
    if ticked[m.current].counter == 0 {
      if Left(m.ts, 1) > 1 {
        LeftMeansSome(ticked, 1);
        BestIsChosen(ticked, Best(ticked, 1));
      } else {
        NothingLeft(ticked, 1);
        assert Ready(ticked, m.current);
        RecomputeBounded(ticked);
        Refreshes(ticked);
        EpochStays(ticked, 1);
        BestIsChosen(Recompute(ticked), Best(Recompute(ticked), 1));
      }
    }
  }

  lemma {:induction false} LeftMeansSome(ts: seq<Slot>, i: int)
    requires Bounded(ts) && 1 <= i && Left(ts, i) >= 1
    ensures exists t :: i <= t && Ready(ts, t) && ts[t].counter >= 1
    decreases |ts| - i
  {
    if Runs(ts[i]) && ts[i].counter >= 1 {
      assert Ready(ts, i);
    } else {
      LeftMeansSome(ts, i + 1);
    }
  }

  lemma TicksOne(m: Machine, k: nat)
    requires Live(m) && (exists t :: Ready(m.ts, t)) && k > 0
    ensures Live(Tick(m)) && (exists t :: Ready(Tick(m).ts, t))
    ensures Ticks(m, k) == Ticks(Tick(m), k - 1)
  {
    TickLive(m);
    var t :| Ready(m.ts, t);
    assert Ready(Tick(m).ts, t);
  }

  /** A ready task with ticks left is chosen before the epoch ends. */
  lemma {:induction false} ChosenInEpoch(m: Machine, j: int) returns (k: nat)
    requires Running(m) && Ready(m.ts, j) && m.ts[j].counter >= 1
    ensures k <= Left(m.ts, 1) && Ticks(m, k).current == j
    decreases Left(m.ts, 1)
  {
    LeftBounds(m.ts, 1);
    if m.current == j {
      k := 0;
    } else {
      LeftOfTwo(m.ts, 1, m.current, j);
      TickInEpoch(m);
      k := ChosenInEpoch(Tick(m), j);
      k := k + 1;
      TicksOne(m, k);
    }
  }

  /** The epoch ends when what is left of it is used up, and then everyone ready has exactly its priority. */
  lemma {:induction false} EpochEnds(m: Machine)
    requires Running(m)
    ensures Left(m.ts, 1) >= 1
    ensures var n := Ticks(m, Left(m.ts, 1));
      && Running(n) && Epoch(n.ts, 1) == Epoch(m.ts, 1)
      && (forall t :: Ready(n.ts, t) <==> Ready(m.ts, t))
      && (forall t :: Ready(m.ts, t) ==> n.ts[t].counter == n.ts[t].priority == m.ts[t].priority)
    decreases Left(m.ts, 1)
  {
    LeftBounds(m.ts, 1);
    TickInEpoch(m);
    TicksOne(m, Left(m.ts, 1));
    if Left(m.ts, 1) > 1 {
      EpochEnds(Tick(m));
    }
  }

  lemma {:induction false} TicksAdd(m: Machine, i: nat, k: nat)
    requires Live(m) && exists t :: Ready(m.ts, t)
    ensures Live(Ticks(m, i)) && (exists t :: Ready(Ticks(m, i).ts, t))
    ensures Ticks(Ticks(m, i), k) == Ticks(m, i + k)
    decreases i
  {
    hide Tick, Live;
    if i > 0 {
      TicksOne(m, i);
      TicksOne(m, i + k);
      TicksAdd(Tick(m), i - 1, k);
    }
  }

  /** From a running ready task on: what is left of this epoch, and the whole of the next. */
  lemma ChosenSoon(m: Machine, j: int) returns (k: nat)
    requires Running(m) && Ready(m.ts, j)
    ensures k <= Left(m.ts, 1) + Epoch(m.ts, 1) && Ticks(m, k).current == j
  {
    LeftBounds(m.ts, 1);
    if m.ts[j].counter >= 1 {
      k := ChosenInEpoch(m, j);
    } else {
      EpochEnds(m);
      var i := Left(m.ts, 1);
      var n := Ticks(m, i);
      LeftBounds(n.ts, 1);
      var l := ChosenInEpoch(n, j);
      k := i + l;
      TicksAdd(m, i, l);
    }
  }

  // ---------- shares of the processor ----------

  /** How many of the next k ticks task j runs. */
  ghost function Share(m: Machine, k: nat, j: int): nat
    requires Live(m) && exists t :: Ready(m.ts, t)
    decreases k
  {
    if k == 0 then 0
    else
      TicksOne(m, k);
      (if m.current == j then 1 else 0) + Share(Tick(m), k - 1, j)
  }

  lemma {:induction false} ShareAdds(m: Machine, i: nat, k: nat, j: int)
    requires Live(m) && exists t :: Ready(m.ts, t)
    ensures Live(Ticks(m, i)) && (exists t :: Ready(Ticks(m, i).ts, t))
    ensures Share(m, i + k, j) == Share(m, i, j) + Share(Ticks(m, i), k, j)
    decreases i
  {
    hide Tick, Live;
    if i > 0 {
      TicksOne(m, i);
      TicksOne(m, i + k);
      ShareAdds(Tick(m), i - 1, k, j);
    }
  }

  /** In what is left of an epoch each ready task runs exactly as many ticks as its counter says. */
  lemma {:induction false} EpochShare(m: Machine, j: int)
    requires Running(m) && Ready(m.ts, j)
    ensures Left(m.ts, 1) >= 0 && Share(m, Left(m.ts, 1), j) == m.ts[j].counter
    decreases Left(m.ts, 1)
  {
    LeftBounds(m.ts, 1);
    TickInEpoch(m);
    TicksOne(m, Left(m.ts, 1));
    if Left(m.ts, 1) > 1 {
      EpochShare(Tick(m), j);
    } else if m.current != j {
      LeftOfTwo(m.ts, 1, m.current, j);
    }
  }

  /** The priorities of the ready tasks from slot i on, added up. */
  function Priorities(ts: seq<Slot>, i: int): int
    requires 1 <= i
    decreases |ts| - i
  {
    if i >= |ts| then 0 else (if Runs(ts[i]) then ts[i].priority else 0) + Priorities(ts, i + 1)
  }

  lemma {:induction false} FullLeft(ts: seq<Slot>, us: seq<Slot>, i: int)
    requires Bounded(ts) && Bounded(us) && 1 <= i
    requires forall t :: Ready(us, t) <==> Ready(ts, t)
    requires forall t :: Ready(ts, t) && Ready(us, t) ==> us[t].counter == us[t].priority == ts[t].priority
    ensures Left(us, i) == Priorities(us, i) == Priorities(ts, i)
    decreases |ts| - i
  {
    if i < |ts| {
      FullLeft(ts, us, i + 1);
      assert Ready(us, i) <==> Ready(ts, i);
    }
  }

  /** Once every ready task has its priority, r rounds of as many ticks as the priorities add up to give
      every ready task r times its priority. */
  lemma {:induction false} FullRounds(m: Machine, r: nat, j: int)
    requires Running(m) && Ready(m.ts, j) && forall t :: Ready(m.ts, t) ==> m.ts[t].counter == m.ts[t].priority
    ensures Priorities(m.ts, 1) >= 1 && r * Priorities(m.ts, 1) >= 0
    ensures Share(m, r * Priorities(m.ts, 1), j) == r * m.ts[j].priority
    decreases r
  {
    FullLeft(m.ts, m.ts, 1);
    EpochEnds(m);
    var p := Priorities(m.ts, 1);
    Multiples(r, p);
    if r > 0 {
      Multiples(r - 1, p);
      Multiples(r, m.ts[j].priority);
      var n := Ticks(m, p);
      FullLeft(m.ts, n.ts, 1);
      EpochShare(m, j);
      FullRounds(n, r - 1, j);
      ShareAdds(m, p, (r - 1) * p, j);
    }
  }

  lemma Multiples(r: nat, p: int)
    requires p >= 1
    ensures r * p >= 0 && (r > 0 ==> r * p == p + (r - 1) * p)
  {
  }

  /** Priorities are what they say: from the end of the current epoch on, every ready task runs r times its
      priority in any r rounds. */
  lemma SharesByPriority(m: Machine, r: nat, j: int)
    requires Running(m) && Ready(m.ts, j)
    ensures Left(m.ts, 1) >= 1 && Running(Ticks(m, Left(m.ts, 1))) && r * Priorities(m.ts, 1) >= 0
    ensures Share(Ticks(m, Left(m.ts, 1)), r * Priorities(m.ts, 1), j) == r * m.ts[j].priority
  {
    EpochEnds(m);
    var n := Ticks(m, Left(m.ts, 1));
    FullLeft(m.ts, n.ts, 1);
    FullRounds(n, r, j);
  }

  // ---------- from any task ----------

  /** Whoever is running is made to give way when its counter is used up. */
  lemma {:induction false} GivesWay(m: Machine) returns (k: nat)
    requires Live(m) && exists t :: Ready(m.ts, t)
    ensures k <= m.ts[m.current].counter + 1
    ensures var n := Ticks(m, k);
      && Running(n) && Epoch(n.ts, 1) == Epoch(m.ts, 1)
      && (forall t :: Ready(n.ts, t) <==> Ready(m.ts, t))
    decreases m.ts[m.current].counter
  {
    if Running(m) {
      k := 0;
    } else {
      var ticked := Spend(m.ts, m.current);
      LeftSpends(m.ts, 1, m.current);
      TicksOne(m, 1);
      TickLive(m);
      if ticked[m.current].counter > 0 {
        k := GivesWay(Tick(m));
        k := k + 1;
        TicksOne(m, k);
      } else {
        k := 1;
        EpochStays(ticked, 1);
        RecomputeBounded(ticked);
        BestIsChosen(Scheduled(ticked), Best(Scheduled(ticked), 1));
        var t :| Ready(m.ts, t);
        assert Ready(ticked, t) && Ready(Scheduled(ticked), t);
        UsedUpIff(Scheduled(ticked));
      }
    }
  }

  /** No ready task waits longer than the running task's counter, one tick, and two epochs. */
  lemma Fair(m: Machine, j: int) returns (k: nat)
    requires Live(m) && Ready(m.ts, j)
    ensures k <= m.ts[m.current].counter + 1 + 2 * Epoch(m.ts, 1)
    ensures Ticks(m, k).current == j
  {
    var i := GivesWay(m);
    var n := Ticks(m, i);
    LeftBounds(n.ts, 1);
    var l := ChosenSoon(n, j);
    k := i + l;
    TicksAdd(m, i, l);
  }
}
