/** Sleepers under the scheduler.  `schedule` decides which task runs; a sleeper that is chosen goes on inside
    `__sleep_on`, and either leaves or sleeps and calls `schedule` again.  How many clock ticks in user mode it
    takes until a queue that has been woken is empty. */
module WakeTime {
  import opened Kernel
  import opened Scheduler
  import opened Fairness
  import opened WaitQueue

  /** The tasks and the running one, and one wait queue. */
  datatype System = System(m: Machine, head: int, saved: map<int, int>)

  function States(ts: seq<Slot>): seq<int> {
    seq(|ts|, t requires 0 <= t < |ts| => if ts[t].Task? then ts[t].state else NONE)
  }

  function QueueOf(y: System): Queue {
    Queue(y.head, y.saved, States(y.m.ts))
  }

  function WithState(ts: seq<Slot>, t: int, state: int): seq<Slot> {
    if 0 <= t < |ts| && ts[t].Task? then ts[t := ts[t].(state := state)] else ts
  }

  /** c is the chain of the queue, every sleeper is a task, and there is a task 0. */
  ghost predicate Asleep(y: System, c: seq<int>) {
    && Live(y.m) && y.m.ts[0].Task?
    && Chain(QueueOf(y), c) && forall t :: t in c ==> y.m.ts[t].Task?
  }

  // ---------- what the kernel does between two ticks ----------

  /** `__sleep_on` after `schedule()` has returned to task t. */
  function Resumed(y: System, t: int): System
    requires t in y.saved
  {
    var ts := y.m.ts;
    if y.head != NONE && y.head != t then
      y.(m := y.m.(ts := WithState(WithState(ts, y.head, RUNNING), t, UNINTERRUPTIBLE)))
    else
      var next := y.saved[t];
      System(y.m.(ts := if next != NONE then WithState(ts, next, RUNNING) else ts), next, y.saved - {t})
  }

  ghost function Rescheduled(y: System): System {
    y.(m := Machine(Scheduled(y.m.ts), Best(Scheduled(y.m.ts), 1)))
  }

  /** A chosen sleeper is runnable. */
  ghost predicate Arrived(y: System) {
    y.m.current in y.saved ==> Ready(y.m.ts, y.m.current)
  }

  lemma StateSet(ts: seq<Slot>, t: int, state: int)
    requires 0 <= t < |ts| && ts[t].Task?
    ensures States(WithState(ts, t, state)) == States(ts)[t := state]
  {
  }

  /** The system does what the queue does. */
  lemma ResumedIs(y: System, c: seq<int>, t: int)
    requires Asleep(y, c) && t in y.saved
    ensures 1 <= y.head < NR_TASKS && (y.saved[t] == NONE || 1 <= y.saved[t] < NR_TASKS)
    ensures QueueOf(Resumed(y, t)) == Resume(QueueOf(y), t)
  {
    var q := QueueOf(y);
    ResumeSeesSomeone(q, c, t);
    ChainHead(q, c);
    SavedInside(c, q.head, q.saved, t);
    assert y.head in c && t in c;
    StateSet(y.m.ts, y.head, RUNNING);
    StateSet(WithState(y.m.ts, y.head, RUNNING), t, UNINTERRUPTIBLE);
    if y.saved[t] != NONE {
      StateSet(y.m.ts, y.saved[t], RUNNING);
    }
  }

  /** Counters and current may differ. */
  ghost predicate SameTasks(ts: seq<Slot>, ts': seq<Slot>) {
    |ts'| == |ts| && forall t :: 0 <= t < |ts| ==> ts'[t].Task? == ts[t].Task? && (ts[t].Task? ==> ts'[t].priority == ts[t].priority)
  }

  lemma ResumedTasks(y: System, t: int)
    requires Live(y.m) && t in y.saved
    ensures Live(Resumed(y, t).m) && SameTasks(y.m.ts, Resumed(y, t).m.ts) && Resumed(y, t).m.current == y.m.current
  {
  }

  lemma ResumedAsleep(y: System, c: seq<int>, t: int)
    requires Asleep(y, c) && t in y.saved && Ready(y.m.ts, t)
    ensures var z := Resumed(y, t);
      var d := NextChain(c, Resumes(t));
      && Asleep(z, d) && SameTasks(y.m.ts, z.m.ts) && z.m.current == y.m.current
      && Measure(QueueOf(z), d) < Measure(QueueOf(y), c)
      && (d == [] || SomeoneRuns(QueueOf(z), d))
      && (t in z.saved <==> t != c[0])
  {
    var q := QueueOf(y);
    ResumedIs(y, c, t);
    ResumedTasks(y, t);
    ChainHead(q, c);
    assert Enabled(q, Resumes(t));
    StepChain(q, c, Resumes(t));
    ResumeDescends(q, c, t);
    ResumeMakesRunner(q, c, t);
    assert forall u :: u in NextChain(c, Resumes(t)) ==> u in c;
    hide Chain, Bounded, Measure, SomeoneRuns, Resumed, Links;
  }

  lemma ScheduledEffect(ts: seq<Slot>)
    requires Bounded(ts) && ts[0].Task?
    ensures var m := Machine(Scheduled(ts), Best(Scheduled(ts), 1));
      && Live(m) && m.ts[0].Task? && States(m.ts) == States(ts) && SameTasks(ts, m.ts)
      && (m.current == 0 || Ready(m.ts, m.current))
  {
    RecomputeBounded(ts);
    assert States(Scheduled(ts)) == States(ts);
    ChosenIn(Scheduled(ts));
    hide Best;
  }

  /** What the scheduler touches is not what the queue is made of. */
  lemma SameQueueStays(y: System, m: Machine, c: seq<int>)
    requires Asleep(y, c) && Live(m) && m.ts[0].Task? && States(m.ts) == States(y.m.ts) && SameTasks(y.m.ts, m.ts)
    ensures Asleep(y.(m := m), c) && QueueOf(y.(m := m)) == QueueOf(y)
  {
    assert forall t :: t in c ==> 1 <= t < NR_TASKS;
    hide Chain, Bounded, States;
  }

  lemma RescheduledAsleep(y: System, c: seq<int>)
    requires Asleep(y, c)
    ensures var z := Rescheduled(y);
      && Asleep(z, c) && Arrived(z) && SameTasks(y.m.ts, z.m.ts) && QueueOf(z) == QueueOf(y)
  {
    ScheduledEffect(y.m.ts);
    SameQueueStays(y, Rescheduled(y).m, c);
    SleepersPositive(y, c);
    hide Chain, Bounded, States, SameTasks, Scheduled, Best, Ready;
  }

  lemma ChosenIn(ts: seq<Slot>)
    requires |ts| == NR_TASKS
    ensures 0 <= Best(ts, 1) < NR_TASKS && (Best(ts, 1) != 0 ==> Ready(ts, Best(ts, 1)))
  {
  }

  lemma SleepersPositive(y: System, c: seq<int>)
    requires Asleep(y, c)
    ensures forall t :: t in y.saved ==> 1 <= t < NR_TASKS && y.m.ts[t].Task?
  {
  }

  // ---------- until a task is in user mode ----------

  /** The chosen task goes on; as long as it is a sleeper that sleeps again, another one is chosen. */
  ghost function Settled(y: System, c: seq<int>): (System, seq<int>)
    requires Asleep(y, c) && Arrived(y)
    decreases Measure(QueueOf(y), c)
  {
    var t := y.m.current;
    if t !in y.saved then (y, c)
    else
      ResumedAsleep(y, c, t);
      var z, d := Resumed(y, t), NextChain(c, Resumes(t));
      if t !in z.saved then (z, d)
      else
        RescheduledAsleep(z, d);
        Settled(Rescheduled(z), d)
  }

  /** In user mode, with as many sleepers to resume or fewer, and none of the wakeups lost. */
  lemma {:induction false} SettledAsleep(y: System, c: seq<int>)
    requires Asleep(y, c) && Arrived(y) && (c == [] || SomeoneRuns(QueueOf(y), c))
    ensures var (z, d) := Settled(y, c);
      && Asleep(z, d) && z.m.current !in z.saved && SameTasks(y.m.ts, z.m.ts)
      && (d == [] || SomeoneRuns(QueueOf(z), d))
      && Measure(QueueOf(z), d) <= Measure(QueueOf(y), c)
      && (y.m.current in y.saved ==> Measure(QueueOf(z), d) < Measure(QueueOf(y), c))
    decreases Measure(QueueOf(y), c)
  {
    hide Asleep, SomeoneRuns, Measure, Resumed, Rescheduled, QueueOf, SameTasks, NextChain;
    var t := y.m.current;
    if t in y.saved {
      ResumedAsleep(y, c, t);
      var z, d := Resumed(y, t), NextChain(c, Resumes(t));
      if t in z.saved {
        RescheduledAsleep(z, d);
        SettledAsleep(Rescheduled(z), d);
        SameTasksTrans(y.m.ts, z.m.ts, Rescheduled(z).m.ts);
        SameTasksTrans(y.m.ts, Rescheduled(z).m.ts, Settled(Rescheduled(z), d).0.m.ts);
      } else {
        StillCurrent(y, c, z, t);
      }
    } else {
      SameTasksSelf(y.m.ts);
    }
  }

  lemma StillCurrent(y: System, c: seq<int>, z: System, t: int)
    requires t !in z.saved && z.m.current == y.m.current && t == y.m.current
    ensures z.m.current !in z.saved
  {
  }

  lemma SameTasksSelf(ts: seq<Slot>)
    ensures SameTasks(ts, ts)
  {
  }

  lemma SameTasksTrans(a: seq<Slot>, b: seq<Slot>, c: seq<Slot>)
    requires SameTasks(a, b) && SameTasks(b, c)
    ensures SameTasks(a, c)
  {
  }

  // ---------- ticks ----------

  /** A clock tick in user mode, and what follows it in the kernel. */
  ghost predicate InUserMode(y: System, c: seq<int>) {
    Asleep(y, c) && y.m.current !in y.saved && (c == [] || SomeoneRuns(QueueOf(y), c))
  }

  ghost function Ticked(y: System): System
    requires Live(y.m)
  {
    y.(m := Tick(y.m))
  }

  lemma SpendEffect(m: Machine)
    requires Live(m) && m.ts[0].Task?
    ensures var spent := Spend(m.ts, m.current);
      && Live(Machine(spent, m.current)) && spent[0].Task? && States(spent) == States(m.ts) && SameTasks(m.ts, spent)
  {
  }

  lemma TickEffect(m: Machine)
    requires Live(m) && m.ts[0].Task?
    ensures var n := Tick(m);
      && Live(n) && n.ts[0].Task? && States(n.ts) == States(m.ts) && SameTasks(m.ts, n.ts)
      && (n.current == m.current || n.current == 0 || Ready(n.ts, n.current))
  {
    SpendEffect(m);
    var spent := Spend(m.ts, m.current);
    ScheduledEffect(spent);
    SameTasksTrans(m.ts, spent, Scheduled(spent));
    hide States, SameTasks, Scheduled, Spend, Best, Ready;
  }

  lemma TickedAsleep(y: System, c: seq<int>)
    requires InUserMode(y, c)
    ensures var z := Ticked(y);
      && Asleep(z, c) && Arrived(z) && SameTasks(y.m.ts, z.m.ts) && QueueOf(z) == QueueOf(y)
  {
    TickEffect(y.m);
    SameQueueStays(y, Tick(y.m), c);
    SleepersPositive(y, c);
    hide Chain, Bounded, States, SameTasks, Tick, Ready, SomeoneRuns;
  }

  ghost function NextTick(y: System, c: seq<int>): (System, seq<int>)
    requires InUserMode(y, c)
  {
    TickedAsleep(y, c);
    Settled(Ticked(y), c)
  }

  lemma NextTickKeeps(y: System, c: seq<int>)
    requires InUserMode(y, c)
    ensures var (z, d) := NextTick(y, c);
      && InUserMode(z, d) && SameTasks(y.m.ts, z.m.ts)
      && Measure(QueueOf(z), d) <= Measure(QueueOf(y), c)
      && (Tick(y.m).current in y.saved ==> Measure(QueueOf(z), d) < Measure(QueueOf(y), c))
      && (Tick(y.m).current !in y.saved ==> z == Ticked(y) && d == c)
  {
    TickedAsleep(y, c);
    SettledAsleep(Ticked(y), c);
    SameTasksTrans(y.m.ts, Ticked(y).m.ts, NextTick(y, c).0.m.ts);
    hide Asleep, SomeoneRuns, Measure, QueueOf, SameTasks, Tick;
  }

  /** The system and its chain after k ticks. */
  ghost function TicksOf(y: System, c: seq<int>, k: nat): (System, seq<int>)
    requires InUserMode(y, c)
    decreases k
  {
    if k == 0 then (y, c)
    else
      NextTickKeeps(y, c);
      TicksOf(NextTick(y, c).0, NextTick(y, c).1, k - 1)
  }

  lemma {:induction false} TicksOfKeeps(y: System, c: seq<int>, k: nat)
    requires InUserMode(y, c)
    ensures InUserMode(TicksOf(y, c, k).0, TicksOf(y, c, k).1) && SameTasks(y.m.ts, TicksOf(y, c, k).0.m.ts)
    decreases k
  {
    hide InUserMode, SameTasks, NextTick;
    if k == 0 {
      SameTasksSelf(y.m.ts);
    } else {
      NextTickKeeps(y, c);
      var (z, d) := NextTick(y, c);
      TicksOfKeeps(z, d, k - 1);
      SameTasksTrans(y.m.ts, z.m.ts, TicksOf(z, d, k - 1).0.m.ts);
    }
  }

  lemma {:induction false} TicksOfAdd(y: System, c: seq<int>, i: nat, k: nat)
    requires InUserMode(y, c)
    ensures var (z, d) := TicksOf(y, c, i);
      InUserMode(z, d) && TicksOf(z, d, k) == TicksOf(y, c, i + k)
    decreases i
  {
    hide InUserMode, NextTick;
    TicksOfKeeps(y, c, i);
    if i > 0 {
      NextTickKeeps(y, c);
      TicksOfAdd(NextTick(y, c).0, NextTick(y, c).1, i - 1, k);
    }
  }

  // ---------- the next resumption ----------

  /** The scheduler alone would choose a sleeper after k ticks. */
  ghost predicate WouldChoose(y: System, k: nat) {
    Live(y.m) && (exists t :: Ready(y.m.ts, t)) && Ticks(y.m, k).current in y.saved
  }

  lemma QuietTick(y: System, c: seq<int>, k: nat)
    requires InUserMode(y, c) && WouldChoose(y, k) && Tick(y.m).current !in y.saved
    ensures k > 0
    ensures var (z, d) := NextTick(y, c);
      && InUserMode(z, d) && WouldChoose(z, k - 1)
      && Measure(QueueOf(z), d) == Measure(QueueOf(y), c)
  {
    assert k > 0;
    TicksOne(y.m, k);
    NextTickKeeps(y, c);
    TickedAsleep(y, c);
    hide Asleep, Measure, QueueOf, Ticks, NextTick, Tick, SameTasks, SomeoneRuns, Live;
  }

  lemma SleeperChosen(y: System, c: seq<int>)
    requires InUserMode(y, c) && Tick(y.m).current in y.saved
    ensures Measure(QueueOf(TicksOf(y, c, 1).0), TicksOf(y, c, 1).1) < Measure(QueueOf(y), c)
  {
    NextTickKeeps(y, c);
    OneTick(y, c);
    hide InUserMode, Measure, QueueOf, NextTick, Tick, TicksOf, SameTasks;
  }

  lemma ChosenLater(y: System, c: seq<int>, k: nat)
    requires InUserMode(y, c) && WouldChoose(y, k)
    ensures k > 0
  {
  }

  /** If the scheduler alone would choose a sleeper after k ticks, some sleeper is resumed by then. */
  lemma {:induction false} SomeoneResumes(y: System, c: seq<int>, k: nat) returns (i: nat)
    requires InUserMode(y, c) && WouldChoose(y, k)
    ensures 1 <= i <= k
    ensures Measure(QueueOf(TicksOf(y, c, i).0), TicksOf(y, c, i).1) < Measure(QueueOf(y), c)
    decreases k
  {
    ChosenLater(y, c, k);
    assert Live(y.m);
    hide InUserMode, Measure, QueueOf, NextTick, Tick, TicksOf, WouldChoose, Live;
    if Tick(y.m).current in y.saved {
      i := 1;
      SleeperChosen(y, c);
    } else {
      QuietTick(y, c, k);
      i := SomeoneResumes(NextTick(y, c).0, NextTick(y, c).1, k - 1);
      i := i + 1;
      MoreTicks(y, c, i);
    }
  }

  lemma OneTick(y: System, c: seq<int>)
    requires InUserMode(y, c)
    ensures TicksOf(y, c, 1) == NextTick(y, c)
  {
    NextTickKeeps(y, c);
    hide InUserMode, NextTick;
    assert TicksOf(NextTick(y, c).0, NextTick(y, c).1, 0) == NextTick(y, c);
  }

  lemma MoreTicks(y: System, c: seq<int>, i: nat)
    requires InUserMode(y, c) && i > 0
    ensures InUserMode(NextTick(y, c).0, NextTick(y, c).1)
    ensures TicksOf(y, c, i) == TicksOf(NextTick(y, c).0, NextTick(y, c).1, i - 1)
  {
    NextTickKeeps(y, c);
    hide InUserMode, NextTick;
  }

  // ---------- the bound ----------

  /** The most ticks that all tasks together can be given in an epoch. */
  function Whole(ts: seq<Slot>): int {
    if ts == [] then 0 else (if ts[0].Task? then 2 * ts[0].priority - 1 else 0) + Whole(ts[1..])
  }

  lemma {:induction false} WholeSame(ts: seq<Slot>, ts': seq<Slot>)
    requires SameTasks(ts, ts')
    ensures Whole(ts') == Whole(ts)
  {
    if ts != [] {
      WholeSame(ts[1..], ts'[1..]);
    }
  }

  predicate Positive(ts: seq<Slot>) {
    forall t :: 0 <= t < |ts| && ts[t].Task? ==> 1 <= ts[t].priority
  }

  lemma {:induction false} WholeBounds(ts: seq<Slot>, t: int)
    requires Positive(ts) && 0 <= t < |ts| && ts[t].Task?
    ensures 2 * ts[t].priority - 1 <= Whole(ts)
  {
    WholePositive(ts[1..]);
    if t > 0 {
      WholeBounds(ts[1..], t - 1);
    }
  }

  lemma {:induction false} WholePositive(ts: seq<Slot>)
    requires Positive(ts)
    ensures 0 <= Whole(ts)
  {
    if ts != [] {
      WholePositive(ts[1..]);
    }
  }

  lemma {:induction false} EpochInWhole(ts: seq<Slot>, i: int)
    requires Positive(ts) && 1 <= i <= |ts|
    ensures Epoch(ts, i) <= Whole(ts[i..])
    decreases |ts| - i
  {
    if i < |ts| {
      assert ts[i..][0] == ts[i] && ts[i..][1..] == ts[i + 1..];
      EpochInWhole(ts, i + 1);
    }
  }

  lemma EpochBound(ts: seq<Slot>)
    requires Positive(ts) && |ts| == NR_TASKS
    ensures Epoch(ts, 1) <= Whole(ts)
  {
    EpochInWhole(ts, 1);
  }

  /** What `Fair` allows until the next resumption. */
  function Patience(ts: seq<Slot>): int {
    3 * Whole(ts) + 1
  }

  lemma ReadySleeper(y: System, c: seq<int>) returns (j: int)
    requires InUserMode(y, c) && c != []
    ensures j in y.saved && Ready(y.m.ts, j)
  {
    var k :| 0 <= k < |c| && 0 <= c[k] < |States(y.m.ts)| && States(y.m.ts)[c[k]] == RUNNING;
    j := c[k];
    assert j in c;
  }

  /** Within that many ticks the measure goes down. */
  lemma Progress(y: System, c: seq<int>) returns (i: nat)
    requires InUserMode(y, c) && c != []
    ensures i <= Patience(y.m.ts)
    ensures Measure(QueueOf(TicksOf(y, c, i).0), TicksOf(y, c, i).1) < Measure(QueueOf(y), c)
  {
    var j := ReadySleeper(y, c);
    var k := Fair(y.m, j);
    var ts := y.m.ts;
    assert Positive(ts) && y.m.ts[y.m.current].counter <= 2 * ts[y.m.current].priority - 1;
    EpochBound(ts);
    WholeBounds(ts, y.m.current);
    assert WouldChoose(y, k);
    hide InUserMode, Measure, QueueOf, Ticks, TicksOf, Whole, Epoch, WouldChoose;
    i := SomeoneResumes(y, c, k);
  }

  lemma MeasureZero(q: Queue, c: seq<int>)
    ensures Measure(q, c) == 0 <==> c == []
  {
  }

  /** k ticks are no more than m times the patience. */
  predicate Within(k: int, m: int, ts: seq<Slot>) {
    k <= m * Patience(ts)
  }

  lemma WithinAdd(i: int, k: int, m: int, n: int, ts: seq<Slot>)
    requires i <= Patience(ts) && Within(k, n, ts) && n + 1 <= m && 0 <= Patience(ts)
    ensures Within(i + k, m, ts)
  {
    var b := Patience(ts);
    assert (n + 1) * b == n * b + b;
    Larger(n + 1, m, b);
  }

  lemma WithinMore(k: int, m: int, n: int, ts: seq<Slot>)
    requires Within(k, m, ts) && m <= n && 0 <= Patience(ts)
    ensures Within(k, n, ts)
  {
    Larger(m, n, Patience(ts));
  }

  lemma WithinSame(k: int, m: int, ts: seq<Slot>, ts': seq<Slot>)
    requires Within(k, m, ts') && SameTasks(ts, ts')
    ensures Within(k, m, ts)
  {
    SamePatience(ts, ts');
  }

  lemma {:induction false} Empties(y: System, c: seq<int>) returns (k: nat)
    requires InUserMode(y, c)
    ensures Within(k, Measure(QueueOf(y), c), y.m.ts) && TicksOf(y, c, k).1 == []
    decreases Measure(QueueOf(y), c)
  {
    MeasureZero(QueueOf(y), c);
    hide InUserMode, Measure, QueueOf, Whole, Patience, TicksOf, SameTasks;
    if c == [] {
      k := 0;
      NoTicks(y, c);
    } else {
      var i := Progress(y, c);
      var (z, d) := TicksOf(y, c, i);
      TicksOfKeeps(y, c, i);
      PatienceIs(y, c);
      var rest := Empties(z, d);
      TicksOfAdd(y, c, i, rest);
      k := i + rest;
      WithinSame(rest, Measure(QueueOf(z), d), y.m.ts, z.m.ts);
      WithinAdd(i, rest, Measure(QueueOf(y), c), Measure(QueueOf(z), d), y.m.ts);
    }
  }

  lemma NoTicks(y: System, c: seq<int>)
    requires InUserMode(y, c) && c == []
    ensures TicksOf(y, c, 0) == (y, c) && Within(0, Measure(QueueOf(y), c), y.m.ts)
  {
  }

  lemma SamePatience(ts: seq<Slot>, ts': seq<Slot>)
    requires SameTasks(ts, ts')
    ensures Patience(ts') == Patience(ts)
  {
    WholeSame(ts, ts');
  }

  lemma PatienceIs(y: System, c: seq<int>)
    requires InUserMode(y, c)
    ensures 0 <= Patience(y.m.ts)
  {
    WholePositive(y.m.ts);
  }

  lemma EmptyMeansNobody(y: System)
    requires InUserMode(y, [])
    ensures y.saved == map[] && y.head == NONE
  {
    assert forall t :: t !in y.saved;
  }

  /** When one of n sleepers is runnable, and nobody joins or wakes the queue, all have left within 2n - 1 times
      the longest wait the scheduler allows. */
  lemma AllLeave(y: System, c: seq<int>) returns (k: nat)
    requires InUserMode(y, c) && c != []
    ensures Within(k, 2 * |c| - 1, y.m.ts)
    ensures TicksOf(y, c, k).0.saved == map[] && TicksOf(y, c, k).0.head == NONE
  {
    hide InUserMode, Measure, QueueOf, Whole, Patience, TicksOf, SameTasks, Within;
    k := Empties(y, c);
    MeasureBound(QueueOf(y), c);
    PatienceIs(y, c);
    TicksOfKeeps(y, c, k);
    EmptyMeansNobody(TicksOf(y, c, k).0);
    WithinMore(k, Measure(QueueOf(y), c), 2 * |c| - 1, y.m.ts);
  }

  lemma Larger(a: int, b: int, p: int)
    requires a <= b && 0 <= p
    ensures a * p <= b * p
  {
  }

  // ---------- after a wakeup ----------

  function Woken(y: System): System {
    if y.head != NONE then y.(m := y.m.(ts := WithState(y.m.ts, y.head, RUNNING))) else y
  }

  /** So `wake_up` on a queue of n sleepers empties it within that time. */
  lemma WakeUpEmpties(y: System, c: seq<int>) returns (k: nat)
    requires Asleep(y, c) && y.m.current !in y.saved && c != []
    ensures QueueOf(Woken(y)) == WakeUp(QueueOf(y)) && InUserMode(Woken(y), c)
    ensures Within(k, 2 * |c| - 1, y.m.ts)
    ensures TicksOf(Woken(y), c, k).0.saved == map[] && TicksOf(Woken(y), c, k).0.head == NONE
  {
    WokenAsleep(y, c);
    hide InUserMode, QueueOf, TicksOf, Asleep, Woken, SameTasks, WakeUp, Within;
    k := AllLeave(Woken(y), c);
    WithinSame(k, 2 * |c| - 1, y.m.ts, Woken(y).m.ts);
  }

  lemma WokenAsleep(y: System, c: seq<int>)
    requires Asleep(y, c) && y.m.current !in y.saved && c != []
    ensures QueueOf(Woken(y)) == WakeUp(QueueOf(y)) && InUserMode(Woken(y), c) && SameTasks(y.m.ts, Woken(y).m.ts)
  {
    var q := QueueOf(y);
    ChainHead(q, c);
    assert y.head == c[0] && c[0] in c;
    StateSet(y.m.ts, y.head, RUNNING);
    WakeUpChain(q, c);
    assert WakeUp(q).state[c[0]] == RUNNING;
  }
}
