/** The counters over every run of the scheduler: ticks in user and kernel mode, calls of `schedule`, forks
    of the running task, and other code that changes a task's state. */
module Accounting {
  import opened Kernel
  import opened Scheduler
  import opened Fairness

  datatype Event = Timer(cpl: int) | Yields | Forks(nr: int) | Sets(t: int, state: int)

  /** Bounded counters, a running task, and task 0 to fall back on. */
  ghost predicate Sound(m: Machine) {
    Live(m) && m.ts[0].Task?
  }

  predicate Possible(m: Machine, e: Event) {
    match e
    case Timer(_) => true
    case Yields => true
    case Forks(nr) => 1 <= nr < |m.ts| && m.ts[nr] == Empty
    case Sets(t, _) => 0 <= t < |m.ts| && m.ts[t].Task?
  }

  ghost function After(m: Machine, e: Event): Machine
    requires Live(m) && Possible(m, e)
  {
    match e
    case Timer(cpl) => if cpl == 0 then m.(ts := Spend(m.ts, m.current)) else Tick(m)
    case Yields => Machine(Scheduled(m.ts), Best(Scheduled(m.ts), 1))
    case Forks(nr) => m.(ts := m.ts[nr := m.ts[m.current]])
    case Sets(t, state) => m.(ts := m.ts[t := m.ts[t].(state := state)])
  }

  /** Ticks and yields are what `do_timer` and `schedule` do, and nothing else. */
  lemma AfterIs(m: Machine, cpl: int, n: Machine)
    requires Live(m)
    ensures n == After(m, Timer(cpl)) <==> Ticked(m.ts, m.current, cpl, n.ts, n.current)
    ensures n == After(m, Yields) <==> n.ts == Scheduled(m.ts) && Chosen(n.ts, n.current)
  {
    TickIsTimer(m, n);
    RecomputeBounded(m.ts);
    BestIsChosen(Scheduled(m.ts), n.current);
    hide Scheduled, Refreshed, Chosen, Best, Spend, Bounded, Tick;
  }

  lemma {:induction false} LeftWith(ts: seq<Slot>, i: int, nr: int, child: Slot)
    requires 1 <= i && 1 <= nr < |ts| && ts[nr] == Empty && child.Task?
    ensures Left(ts[nr := child], i) == Left(ts, i) + if i <= nr && child.state == 0 then child.counter else 0
    decreases |ts| - i
  {
    if i < |ts| {
      LeftWith(ts, i + 1, nr, child);
    }
  }

  /** The child has all the ticks its parent has left, and the parent keeps them: if they can run, a fork makes
      the epoch longer by that many ticks. */
  lemma ForkAddsTicks(m: Machine, nr: int)
    requires Live(m) && Possible(m, Forks(nr))
    ensures var n := After(m, Forks(nr));
      && n.current == m.current
      && (forall t :: 0 <= t < NR_TASKS && t != nr ==> n.ts[t] == m.ts[t])
      && n.ts[nr] == m.ts[m.current]
      && Left(n.ts, 1) == Left(m.ts, 1) + if m.ts[m.current].state == 0 then m.ts[m.current].counter else 0
  {
    LeftWith(m.ts, 1, nr, m.ts[m.current]);
  }

  ghost predicate PossibleRun(m: Machine, es: seq<Event>)
    decreases |es|
  {
    es == [] || (Live(m) && Possible(m, es[0]) && PossibleRun(After(m, es[0]), es[1..]))
  }

  ghost function Run(m: Machine, es: seq<Event>): Machine
    requires PossibleRun(m, es)
    decreases |es|
  {
    if es == [] then m else Run(After(m, es[0]), es[1..])
  }

  lemma ScheduledSound(ts: seq<Slot>)
    requires Bounded(ts) && ts[0].Task?
    ensures Sound(Machine(Scheduled(ts), Best(Scheduled(ts), 1)))
  {
    RecomputeBounded(ts);
  }

  lemma SpendSound(m: Machine)
    requires Sound(m)
    ensures Bounded(Spend(m.ts, m.current)) && Spend(m.ts, m.current)[0].Task? && Spend(m.ts, m.current)[m.current].Task?
  {
  }

  lemma AfterSound(m: Machine, e: Event)
    requires Sound(m) && Possible(m, e)
    ensures Sound(After(m, e))
  {
    match e
    case Timer(cpl) =>
      SpendSound(m);
      ScheduledSound(Spend(m.ts, m.current));
      hide Scheduled, Spend, Bounded;
    case Yields => ScheduledSound(m.ts);
    case Forks(nr) =>
    case Sets(t, state) =>
  }

  /** INIT_TASK: counter and priority 15. */
  function Initial(): Machine {
    Machine([Task(RUNNING, 15, 15)] + seq(NR_TASKS - 1, _ => Empty), 0)
  }

  /** No counter ever leaves 0 .. 2 * priority - 1. */
  lemma {:induction false} CountersStayBounded(m: Machine, es: seq<Event>)
    requires Sound(m) && PossibleRun(m, es)
    ensures Sound(Run(m, es))
    decreases |es|
  {
    if es != [] {
      AfterSound(m, es[0]);
      CountersStayBounded(After(m, es[0]), es[1..]);
    }
  }

  /** From the start every priority is 15, so every counter is at most 29. */
  lemma {:induction false} AtMost29(m: Machine, es: seq<Event>)
    requires Sound(m) && PossibleRun(m, es) && forall t :: 0 <= t < NR_TASKS && m.ts[t].Task? ==> m.ts[t].priority == 15
    ensures var ts := Run(m, es).ts;
      |ts| == NR_TASKS && forall t :: 0 <= t < NR_TASKS && ts[t].Task? ==> ts[t].priority == 15 && 0 <= ts[t].counter <= 29
    decreases |es|
  {
    if es != [] {
      AfterSound(m, es[0]);
      var n := After(m, es[0]);
      PrioritiesStay(m, es[0]);
      AtMost29(n, es[1..]);
    }
  }

  lemma PrioritiesStay(m: Machine, e: Event)
    requires Sound(m) && Possible(m, e) && forall t :: 0 <= t < NR_TASKS && m.ts[t].Task? ==> m.ts[t].priority == 15
    ensures Sound(After(m, e)) && forall t :: 0 <= t < NR_TASKS && After(m, e).ts[t].Task? ==> After(m, e).ts[t].priority == 15
  {
    AfterSound(m, e);
  }

  lemma FromTheStart(es: seq<Event>)
    requires PossibleRun(Initial(), es)
    ensures var ts := Run(Initial(), es).ts;
      |ts| == NR_TASKS && forall t :: 0 <= t < NR_TASKS && ts[t].Task? ==> ts[t].priority == 15 && 0 <= ts[t].counter <= 29
  {
    AtMost29(Initial(), es);
  }
}
