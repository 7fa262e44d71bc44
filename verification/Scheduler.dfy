/** `schedule` and `do_timer`: the runnable task with the largest counter runs; when all counters are
    used up, they are recomputed from the priorities. */
module Scheduler {
  import opened Kernel

  datatype Slot = Empty | Task(state: int, counter: int, priority: int)

  /** Every task has a positive priority, and a counter it can have been given. */
  predicate Bounded(ts: seq<Slot>) {
    && |ts| == NR_TASKS
    && forall t :: 0 <= t < NR_TASKS && ts[t].Task? ==> 1 <= ts[t].priority && 0 <= ts[t].counter <= 2 * ts[t].priority - 1
  }

  predicate Runs(s: Slot) {
    s.Task? && s.state == RUNNING
  }

  /** Slot t is in 1..63 and holds a runnable task. */
  predicate Ready(ts: seq<Slot>, t: int) {
    1 <= t < |ts| && Runs(ts[t])
  }

  // ---------- schedule ----------

  function CounterAt(ts: seq<Slot>, t: int): int {
    if 1 <= t < |ts| && ts[t].Task? then ts[t].counter else -1
  }

  /** The choice among the slots from i up, made by a scan from the last slot down. */
  function Best(ts: seq<Slot>, i: int): (b: int)
    requires 1 <= i
    ensures b == 0 || (i <= b < |ts| && Ready(ts, b))
    decreases |ts| - i
  {
    if i >= |ts| then 0
    else
      var b := Best(ts, i + 1);
      if Runs(ts[i]) && ts[i].counter > CounterAt(ts, b) then i else b
  }

  /** next is the ready task with the largest counter, the highest slot among equals; 0 if none is ready. */
  ghost predicate Chosen(ts: seq<Slot>, next: int) {
    if next == 0 then forall t :: !Ready(ts, t)
    else
      && Ready(ts, next)
      && forall t :: Ready(ts, t) ==> ts[t].counter < ts[next].counter || (ts[t].counter == ts[next].counter && t <= next)
  }

  lemma {:induction false} BestFrom(ts: seq<Slot>, i: int)
    requires Bounded(ts) && 1 <= i
    ensures var b := Best(ts, i);
      if b == 0 then forall t :: i <= t ==> !Ready(ts, t)
      else forall t :: i <= t && Ready(ts, t) ==> ts[t].counter < ts[b].counter || (ts[t].counter == ts[b].counter && t <= b)
    decreases |ts| - i
  {
    if i < |ts| {
      BestFrom(ts, i + 1);
    }
  }

  /** The scan makes the choice, and no other slot could be it. */
  lemma BestIsChosen(ts: seq<Slot>, next: int)
    requires Bounded(ts)
    ensures Chosen(ts, next) <==> next == Best(ts, 1)
  {
    BestFrom(ts, 1);
    if Chosen(ts, next) {
      var b := Best(ts, 1);
      if b != 0 && next != 0 {
        assert Ready(ts, b) && Ready(ts, next);
      }
    }
  }

  function Refill(s: Slot): Slot {
    if s.Task? then s.(counter := s.counter / 2 + s.priority) else s
  }

  /** Every task but task 0 gets half of what it has left and its priority. */
  function Recompute(ts: seq<Slot>): seq<Slot> {
    seq(|ts|, t requires 0 <= t < |ts| => if t == 0 then ts[t] else Refill(ts[t]))
  }

  /** Some task is ready, and all ready tasks have used up their counters. */
  ghost predicate UsedUp(ts: seq<Slot>) {
    (exists t :: Ready(ts, t)) && forall t :: Ready(ts, t) ==> ts[t].counter == 0
  }

  lemma UsedUpIff(ts: seq<Slot>)
    requires Bounded(ts)
    ensures UsedUp(ts) <==> CounterAt(ts, Best(ts, 1)) == 0
  {
    BestIsChosen(ts, Best(ts, 1));
  }

  lemma RecomputeBounded(ts: seq<Slot>)
    requires Bounded(ts)
    ensures Bounded(Recompute(ts)) && !UsedUp(Recompute(ts))
    ensures forall t :: Ready(Recompute(ts), t) <==> Ready(ts, t)
    ensures forall t :: Ready(ts, t) ==> Recompute(ts)[t].counter >= 1
  {
  }

  /** The tasks after `schedule`, which needs one recomputation or none. */
  ghost function Scheduled(ts: seq<Slot>): seq<Slot> {
    if UsedUp(ts) then Recompute(ts) else ts
  }

  /** What `schedule` does to the slots, by their contents. Unless some task is ready and every ready task
      stands at 0, nothing. Otherwise a ready task gets exactly its priority, any other task of slots 1 to 63
      its priority and half of what it had, rounded down; states, priorities, empty slots and task 0 stay. */
  ghost predicate Refreshed(before: seq<Slot>, after: seq<Slot>) {
    && |after| == |before|
    && (!UsedUp(before) ==> after == before)
    && (UsedUp(before) ==> forall t :: 0 <= t < |before| ==>
          if t == 0 || before[t] == Empty then after[t] == before[t]
          else
            && after[t].Task? && after[t].state == before[t].state && after[t].priority == before[t].priority
            && (Ready(before, t) ==> after[t].counter == before[t].priority)
            && (2 * (after[t].counter - before[t].priority) == before[t].counter
                || 2 * (after[t].counter - before[t].priority) == before[t].counter - 1))
  }

  lemma Refreshes(ts: seq<Slot>)
    ensures Refreshed(ts, Scheduled(ts))
  {
    if UsedUp(ts) {
      forall t | 1 <= t < |ts| && ts[t].Task? ensures Ready(ts, t) ==> ts[t].counter == 0 {
      }
    }
  }

  class Tasks {
    const task: array<Slot>
    var current: int

    constructor (slots: seq<Slot>)
      requires |slots| == NR_TASKS
      ensures task[..] == slots && current == 0
    {
      task := new Slot[NR_TASKS](k requires 0 <= k < NR_TASKS => slots[k]);
      current := 0;
      new;
      assert task[..] == slots;
    }

    method Schedule()
      requires Bounded(task[..])
      modifies this, task
      ensures task[..] == Scheduled(old(task[..])) && Refreshed(old(task[..]), task[..]) && Bounded(task[..])
      ensures Chosen(task[..], current)
    {
      ghost var start := task[..];
      ghost var recomputed := false;
      var next := 0;
      while true
        invariant Bounded(task[..]) && (recomputed ==> UsedUp(start) && !UsedUp(task[..]))
        invariant task[..] == if recomputed then Recompute(start) else start
        decreases !recomputed
      {
        var c := -1;
        next := 0;
        var i := NR_TASKS - 1;
        while i > 0
          invariant 0 <= i < NR_TASKS
          invariant next == Best(task[..], i + 1) && c == CounterAt(task[..], next)
        {
          if task[i].Task? && task[i].state == RUNNING && task[i].counter > c {
            c, next := task[i].counter, i;
          }
          i := i - 1;
        }
        UsedUpIff(task[..]);
        if c != 0 {
          break;
        }
        ghost var before := task[..];
        RecomputeBounded(before);
        RecomputeCounters();
        recomputed := true;
      }
      BestIsChosen(task[..], next);
      Refreshes(start);
      current := next;
    }

    method RecomputeCounters()
      requires task.Length == NR_TASKS
      modifies task
      ensures task[..] == Recompute(old(task[..]))
    {
      var p := NR_TASKS - 1;
      while p > 0
        invariant 0 <= p < NR_TASKS
        invariant forall t :: 0 <= t <= p ==> task[t] == old(task[t])
        invariant forall t :: p < t < NR_TASKS ==> task[t] == Refill(old(task[t]))
      {
        if task[p].Task? {
          task[p] := task[p].(counter := task[p].counter / 2 + task[p].priority);
        }
        p := p - 1;
      }
    }

    /** One clock tick; in kernel mode (cpl 0) it only counts. */
    method DoTimer(cpl: int)
      requires Bounded(task[..]) && 0 <= current < NR_TASKS && task[current].Task?
      modifies this, task
      ensures Bounded(task[..])
      ensures Ticked(old(task[..]), old(current), cpl, task[..], current)
    {
      ghost var ticked := Spend(task[..], current);
      var counter := task[current].counter - 1;
      if counter > 0 {
        task[current] := task[current].(counter := counter);
        assert task[..] == ticked;
        return;
      }
      task[current] := task[current].(counter := 0);
      assert task[..] == ticked;
      if cpl == 0 {
        return;
      }
      Schedule();
    }
  }

  /** A clock tick: one off the running task's counter, and a new choice in user mode when nothing is left. */
  ghost predicate Ticked(before: seq<Slot>, current: int, cpl: int, after: seq<Slot>, next: int) {
    && 0 <= current < |before| && before[current].Task?
    && var ticked := Spend(before, current);
       if before[current].counter > 1 || cpl == 0
       then after == ticked && next == current
       else after == Scheduled(ticked) && Refreshed(ticked, after) && Chosen(after, next)
  }

  /** The running task has one tick less, and not below zero. */
  function Spend(ts: seq<Slot>, current: int): (r: seq<Slot>)
    requires 0 <= current < |ts| && ts[current].Task?
    ensures |r| == |ts| && forall t :: 0 <= t < |ts| && t != current ==> r[t] == ts[t]
    ensures r[current].Task? && r[current].state == ts[current].state && r[current].priority == ts[current].priority
    ensures ts[current].counter >= 1 ==> r[current].counter == ts[current].counter - 1
    ensures ts[current].counter <= 0 ==> r[current].counter == 0
  {
    ts[current := ts[current].(counter := if ts[current].counter > 1 then ts[current].counter - 1 else 0)]
  }
}
