/** `sleep_on` and `wake_up`.  The queue is one pointer; each sleeper keeps, in a local variable of
    its own call, what the pointer was when it came.  Tasks are interleaved at the calls of
    `schedule()`: a sleeper enters, and later resumes, perhaps several times. */
module WaitQueue {
  import opened Kernel

  const NONE := -1

  /** `head` is *p; `saved[t]` is the local `tmp` of task t, for the tasks inside `__sleep_on`. */
  datatype Queue = Queue(head: int, saved: map<int, int>, state: seq<int>)

  // ---------- the steps ----------

  /** From the call of `__sleep_on` to its `schedule()`. */
  function Enter(q: Queue, t: int, state: int): Queue
    requires 0 <= t < |q.state|
  {
    Queue(t, q.saved[t := q.head], q.state[t := state])
  }

  /** From the return of `schedule()` to the next call of it, or to the end. */
  function Resume(q: Queue, t: int): Queue
    requires 0 <= t < |q.state| && t in q.saved
    requires q.head != NONE ==> 0 <= q.head < |q.state|
    requires q.saved[t] != NONE ==> 0 <= q.saved[t] < |q.state|
  {
    if q.head != NONE && q.head != t then
      q.(state := q.state[q.head := RUNNING][t := UNINTERRUPTIBLE])
    else
      var next := q.saved[t];
      Queue(next, q.saved - {t}, if next != NONE then q.state[next := RUNNING] else q.state)
  }

  function WakeUp(q: Queue): Queue
    requires q.head != NONE ==> 0 <= q.head < |q.state|
  {
    if q.head != NONE then q.(state := q.state[q.head := RUNNING]) else q
  }

  // ---------- the chain ----------

  /** Following the pointers from `head` visits exactly the tasks of c and ends in NULL. */
  ghost predicate Links(c: seq<int>, head: int, saved: map<int, int>)
    decreases |c|
  {
    if c == [] then head == NONE
    else head == c[0] && c[0] in saved && Links(c[1..], saved[c[0]], saved)
  }

  ghost predicate Distinct(c: seq<int>) {
    forall i, j :: 0 <= i < j < |c| ==> c[i] != c[j]
  }

  /** c is the list of the sleepers: no task twice, nobody missing, no way round. */
  ghost predicate Chain(q: Queue, c: seq<int>) {
    && |q.state| == NR_TASKS
    && (forall t :: t in c ==> 1 <= t < NR_TASKS)
    && (forall t :: t in q.saved <==> t in c)
    && Distinct(c)
    && Links(c, q.head, q.saved)
  }

  lemma {:induction false} LinksAgree(c: seq<int>, head: int, saved: map<int, int>, saved': map<int, int>)
    requires Links(c, head, saved)
    requires forall t :: t in c && t in saved ==> t in saved' && saved'[t] == saved[t]
    ensures Links(c, head, saved')
    decreases |c|
  {
    if c != [] {
      assert forall t :: t in c[1..] ==> t in c;
      LinksAgree(c[1..], saved[c[0]], saved, saved');
    }
  }

  /** The pointers determine the chain. */
  lemma {:induction false} ChainUnique(c: seq<int>, d: seq<int>, head: int, saved: map<int, int>)
    requires Links(c, head, saved) && Links(d, head, saved)
    requires NONE !in c && NONE !in d
    ensures c == d
    decreases |c|
  {
    if c != [] && d != [] {
      ChainUnique(c[1..], d[1..], saved[c[0]], saved);
      assert c == [c[0]] + c[1..] && d == [d[0]] + d[1..];
    }
  }

  lemma ChainHead(q: Queue, c: seq<int>)
    requires Chain(q, c)
    ensures q.head == if c == [] then NONE else c[0]
    ensures q.head != NONE <==> c != []
    ensures c != [] ==> q.saved[c[0]] == if |c| == 1 then NONE else c[1]
  {
    if c != [] {
      assert c[0] in c;
      assert Links(c[1..], q.saved[c[0]], q.saved);
      if |c| > 1 {
        assert c[1..][0] == c[1];
      } else {
        assert c[1..] == [];
      }
    }
  }

  /** What a task inside saved is a task inside, or NULL. */
  lemma {:induction false} SavedInside(c: seq<int>, head: int, saved: map<int, int>, t: int)
    requires Links(c, head, saved) && t in c
    ensures t in saved && (saved[t] == NONE || saved[t] in c)
    decreases |c|
  {
    if t == c[0] {
      if |c| > 1 {
        assert c[1..][0] == c[1] && c[1] in c;
      }
    } else {
      assert t in c[1..];
      SavedInside(c[1..], saved[c[0]], saved, t);
    }
  }

  lemma EnterChain(q: Queue, c: seq<int>, t: int, state: int)
    requires Chain(q, c) && 1 <= t < NR_TASKS && t !in q.saved
    ensures Chain(Enter(q, t, state), [t] + c)
  {
    var saved := q.saved[t := q.head];
    LinksAgree(c, q.head, q.saved, saved);
    assert ([t] + c)[1..] == c;
  }

  /** The sleeper finds the queue not empty: the warning "*P = NULL" is never printed. */
  lemma ResumeSeesSomeone(q: Queue, c: seq<int>, t: int)
    requires Chain(q, c) && t in q.saved
    ensures 1 <= q.head < NR_TASKS && (q.saved[t] == NONE || 1 <= q.saved[t] < NR_TASKS)
  {
    ChainHead(q, c);
    SavedInside(c, q.head, q.saved, t);
    assert c[0] in c;
  }

  /** The head leaves and the rest stays; anyone else stays where it is. */
  lemma ResumeChain(q: Queue, c: seq<int>, t: int)
    requires Chain(q, c) && t in q.saved
    ensures 1 <= q.head < NR_TASKS && (q.saved[t] == NONE || 1 <= q.saved[t] < NR_TASKS)
    ensures Chain(Resume(q, t), if t == c[0] then c[1..] else c)
  {
    ResumeSeesSomeone(q, c, t);
    ChainHead(q, c);
    hide Links;
    if t == c[0] {
      HeadLeaves(q, c);
    }
  }

  lemma HeadLeaves(q: Queue, c: seq<int>)
    requires Chain(q, c) && c != []
    ensures Links(c[1..], q.saved[c[0]], q.saved - {c[0]})
    ensures forall u :: u in q.saved - {c[0]} <==> u in c[1..]
    ensures Distinct(c[1..])
  {
    assert c[0] in c;
    LinksAgree(c[1..], q.saved[c[0]], q.saved, q.saved - {c[0]});
    hide Links;
    forall u ensures u in q.saved - {c[0]} <==> u in c[1..] {
      assert u in c <==> u == c[0] || u in c[1..];
    }
  }

  lemma WakeUpChain(q: Queue, c: seq<int>)
    requires Chain(q, c)
    ensures q.head == NONE || 1 <= q.head < NR_TASKS
    ensures Chain(WakeUp(q), c)
  {
    ChainHead(q, c);
    if c != [] {
      assert c[0] in c;
    }
  }

  // ---------- every interleaving ----------

  /** Signals is what other code may do to an interruptible sleeper: make it run. */
  datatype Op = Sleeps(t: int, state: int) | Resumes(t: int) | Wakes | Signals(t: int)

  /** A task runs when its state is 0; a sleeper resumes inside `__sleep_on`, another one may enter it.
      Task 0 may not sleep. */
  predicate Enabled(q: Queue, op: Op) {
    |q.state| == NR_TASKS &&
    match op
    case Sleeps(t, state) =>
      1 <= t < NR_TASKS && t !in q.saved && (state == INTERRUPTIBLE || state == UNINTERRUPTIBLE)
    case Resumes(t) =>
      && 1 <= t < NR_TASKS && t in q.saved && q.state[t] == RUNNING
      && (q.head == NONE || 0 <= q.head < NR_TASKS) && (q.saved[t] == NONE || 0 <= q.saved[t] < NR_TASKS)
    case Wakes => q.head == NONE || 0 <= q.head < NR_TASKS
    case Signals(t) => 1 <= t < NR_TASKS && t in q.saved && q.state[t] == INTERRUPTIBLE
  }

  function Step(q: Queue, op: Op): Queue
    requires Enabled(q, op)
  {
    match op
    case Sleeps(t, state) => Enter(q, t, state)
    case Resumes(t) => Resume(q, t)
    case Wakes => WakeUp(q)
    case Signals(t) => q.(state := q.state[t := RUNNING])
  }

  /** The chain after a step. */
  function NextChain(c: seq<int>, op: Op): seq<int> {
    match op
    case Sleeps(t, _) => [t] + c
    case Resumes(t) => if c != [] && t == c[0] then c[1..] else c
    case Wakes => c
    case Signals(_) => c
  }

  ghost predicate Runnable(q: Queue, ops: seq<Op>)
    decreases |ops|
  {
    ops == [] || (Enabled(q, ops[0]) && Runnable(Step(q, ops[0]), ops[1..]))
  }

  ghost function Run(q: Queue, ops: seq<Op>): Queue
    requires Runnable(q, ops)
    decreases |ops|
  {
    if ops == [] then q else Run(Step(q, ops[0]), ops[1..])
  }

  function RunChain(c: seq<int>, ops: seq<Op>): seq<int>
    decreases |ops|
  {
    if ops == [] then c else RunChain(NextChain(c, ops[0]), ops[1..])
  }

  lemma StepChain(q: Queue, c: seq<int>, op: Op)
    requires Chain(q, c) && Enabled(q, op)
    ensures Chain(Step(q, op), NextChain(c, op))
  {
    match op
    case Sleeps(t, state) => EnterChain(q, c, t, state);
    case Resumes(t) => ResumeChain(q, c, t);
    case Wakes => WakeUpChain(q, c);
    case Signals(t) =>
  }

  /** Under every interleaving the pointers form the list of exactly the sleepers. */
  lemma {:induction false} RunKeepsChain(q: Queue, c: seq<int>, ops: seq<Op>)
    requires Chain(q, c) && Runnable(q, ops)
    ensures Chain(Run(q, ops), RunChain(c, ops))
    decreases |ops|
  {
    if ops != [] {
      StepChain(q, c, ops[0]);
      RunKeepsChain(Step(q, ops[0]), NextChain(c, ops[0]), ops[1..]);
    }
  }

  // ---------- no wakeup is lost ----------

  predicate SomeoneRuns(q: Queue, c: seq<int>) {
    exists k :: 0 <= k < |c| && 0 <= c[k] < |q.state| && q.state[c[k]] == RUNNING
  }

  lemma ResumeMakesRunner(q: Queue, c: seq<int>, t: int)
    requires Chain(q, c) && Enabled(q, Resumes(t))
    ensures NextChain(c, Resumes(t)) == [] || SomeoneRuns(Step(q, Resumes(t)), NextChain(c, Resumes(t)))
  {
    var q', c' := Step(q, Resumes(t)), NextChain(c, Resumes(t));
    ChainHead(q, c);
    ResumeChain(q, c, t);
    hide Links, Distinct;
    if c' != [] {
      ChainHead(q', c');
      assert c'[0] in c';
      assert q'.state[c'[0]] == RUNNING;
    }
  }

  lemma StepKeepsRunner(q: Queue, c: seq<int>, op: Op)
    requires Chain(q, c) && Enabled(q, op) && SomeoneRuns(q, c)
    ensures NextChain(c, op) == [] || SomeoneRuns(Step(q, op), NextChain(c, op))
  {
    var k :| 0 <= k < |c| && 0 <= c[k] < |q.state| && q.state[c[k]] == RUNNING;
    assert c[k] in c;
    ChainHead(q, c);
    hide Links, Distinct;
    match op
    case Sleeps(t, state) =>
      assert t !in c;
      assert NextChain(c, op)[k + 1] == c[k];
      assert Step(q, op).state[c[k]] == RUNNING;
    case Resumes(t) => ResumeMakesRunner(q, c, t);
    case Wakes => assert Step(q, op).state[c[k]] == RUNNING;
    case Signals(t) => assert Step(q, op).state[c[k]] == RUNNING;
  }

  /** Once a sleeper is runnable some sleeper stays runnable, whoever comes, until nobody sleeps. */
  lemma {:induction false} NoLostWakeup(q: Queue, c: seq<int>, ops: seq<Op>)
    requires Chain(q, c) && Runnable(q, ops) && SomeoneRuns(q, c)
    requires forall k :: 0 <= k <= |ops| ==> RunChain(c, ops[..k]) != []
    ensures SomeoneRuns(Run(q, ops), RunChain(c, ops))
    decreases |ops|
  {
    if ops != [] {
      var op := ops[0];
      StepChain(q, c, op);
      StepKeepsRunner(q, c, op);
      assert RunChain(c, ops[..1]) == NextChain(c, op) by {
        assert ops[..1][1..] == [];
      }
      forall k | 0 <= k <= |ops[1..]| ensures RunChain(NextChain(c, op), ops[1..][..k]) != [] {
        assert ops[..k + 1][1..] == ops[1..][..k];
        assert RunChain(c, ops[..k + 1]) == RunChain(NextChain(c, op), ops[1..][..k]);
      }
      NoLostWakeup(Step(q, op), NextChain(c, op), ops[1..]);
    }
  }

  // ---------- nobody leaves unwoken ----------

  predicate Wakens(op: Op) {
    op.Wakes? || op.Signals?
  }

  /** Until someone calls `wake_up` or sends a signal, none of the sleepers runs and none leaves: those who come
      join them at the head. */
  lemma {:induction false} NobodyLeaves(q: Queue, c: seq<int>, ops: seq<Op>)
    requires Chain(q, c) && Runnable(q, ops) && !SomeoneRuns(q, c)
    requires forall k :: 0 <= k < |ops| ==> !Wakens(ops[k])
    ensures var d := RunChain(c, ops);
      && Chain(Run(q, ops), d) && !SomeoneRuns(Run(q, ops), d)
      && |d| == |c| + |ops| && d[|ops|..] == c
      && forall k :: 0 <= k < |ops| ==> ops[k].Sleeps? && ops[k].t == d[|ops| - 1 - k]
    decreases |ops|
  {
    if ops != [] {
      var op := ops[0];
      ResumesRunning(q, c, op);
      StepChain(q, c, op);
      SleepKeepsQuiet(q, c, op);
      hide Chain, SomeoneRuns, Enabled, Step;
      NobodyLeaves(Step(q, op), NextChain(c, op), ops[1..]);
      Joining(RunChain(c, ops), c, ops);
    }
  }

  lemma Joining(d: seq<int>, c: seq<int>, ops: seq<Op>)
    requires ops != [] && ops[0].Sleeps? && |d| == |c| + |ops| && d[|ops| - 1..] == [ops[0].t] + c
    requires var rest := ops[1..]; forall k :: 0 <= k < |rest| ==> rest[k].Sleeps? && rest[k].t == d[|rest| - 1 - k]
    ensures d[|ops|..] == c
    ensures forall k :: 0 <= k < |ops| ==> ops[k].Sleeps? && ops[k].t == d[|ops| - 1 - k]
  {
    var e := d[|ops| - 1..];
    assert d[|ops|..] == e[1..] && d[|ops| - 1] == e[0];
    forall k | 1 <= k < |ops| ensures ops[k].Sleeps? && ops[k].t == d[|ops| - 1 - k] {
      assert ops[k] == ops[1..][k - 1];
    }
  }

  /** Only a sleeper that is runnable can resume. */
  lemma ResumesRunning(q: Queue, c: seq<int>, op: Op)
    requires Chain(q, c) && Enabled(q, op) && !SomeoneRuns(q, c) && !Wakens(op)
    ensures op.Sleeps?
  {
    if op.Resumes? {
      ResumerRuns(q, c, op.t);
    }
  }

  lemma ResumerRuns(q: Queue, c: seq<int>, t: int)
    requires Chain(q, c) && Enabled(q, Resumes(t))
    ensures SomeoneRuns(q, c)
  {
    assert t in c;
    var k :| 0 <= k < |c| && c[k] == t;
    assert q.state[c[k]] == RUNNING;
  }

  lemma SleepKeepsQuiet(q: Queue, c: seq<int>, op: Op)
    requires Chain(q, c) && Enabled(q, op) && op.Sleeps? && !SomeoneRuns(q, c)
    ensures !SomeoneRuns(Step(q, op), NextChain(c, op))
  {
    hide Links, Distinct;
    var q', d := Step(q, op), NextChain(c, op);
    forall k | 0 <= k < |d| && 0 <= d[k] < |q'.state| ensures q'.state[d[k]] != RUNNING {
      assert k > 0 ==> d[k] == c[k - 1] && c[k - 1] in c;
    }
  }

  // ---------- how long it takes ----------

  /** How many of the tasks in c are runnable. */
  function Runners(c: seq<int>, state: seq<int>): nat {
    if c == [] then 0
    else (if 0 <= c[0] < |state| && state[c[0]] == RUNNING then 1 else 0) + Runners(c[1..], state)
  }

  lemma {:induction false} RunnersBound(c: seq<int>, state: seq<int>)
    ensures Runners(c, state) <= |c|
  {
    if c != [] {
      RunnersBound(c[1..], state);
    }
  }

  /** Changing the state of one task changes the count by that task. */
  lemma {:induction false} RunnersUpdate(c: seq<int>, state: seq<int>, t: int, v: int)
    requires Distinct(c) && 0 <= t < |state|
    ensures t !in c ==> Runners(c, state[t := v]) == Runners(c, state)
    ensures t in c ==>
      Runners(c, state[t := v]) == Runners(c, state) - (if state[t] == RUNNING then 1 else 0) + (if v == RUNNING then 1 else 0)
  {
    if c != [] {
      RunnersUpdate(c[1..], state, t, v);
      assert t in c <==> t == c[0] || t in c[1..];
      if t == c[0] {
        assert t !in c[1..];
      }
    }
  }

  /** The sleepers, and the runnable ones among them that are not first. */
  function Measure(q: Queue, c: seq<int>): nat {
    if c == [] then 0 else |c| + Runners(c[1..], q.state)
  }

  lemma MeasureBound(q: Queue, c: seq<int>)
    ensures c != [] ==> Measure(q, c) <= 2 * |c| - 1
  {
    if c != [] {
      RunnersBound(c[1..], q.state);
    }
  }

  lemma ResumeDescends(q: Queue, c: seq<int>, t: int)
    requires Chain(q, c) && Enabled(q, Resumes(t))
    ensures Measure(Resume(q, t), NextChain(c, Resumes(t))) < Measure(q, c)
  {
    ChainHead(q, c);
    ResumeSeesSomeone(q, c, t);
    var rest := c[1..];
    assert Distinct(rest);
    if t == c[0] {
      if rest != [] {
        assert rest[0] == c[1] && c[1] in c;
        RunnersUpdate(rest[1..], q.state, rest[0], RUNNING);
        assert Runners(rest[1..], q.state[rest[0] := RUNNING]) == Runners(rest[1..], q.state);
      }
    } else {
      assert t in rest && c[0] !in rest;
      RunnersUpdate(rest, q.state, c[0], RUNNING);
      RunnersUpdate(rest, q.state[c[0] := RUNNING], t, UNINTERRUPTIBLE);
    }
  }

  function ResumeAll(ts: seq<int>): seq<Op> {
    seq(|ts|, k requires 0 <= k < |ts| => Resumes(ts[k]))
  }

  lemma {:induction false} ScheduleLength(q: Queue, c: seq<int>, ts: seq<int>)
    requires Chain(q, c) && Runnable(q, ResumeAll(ts))
    ensures |ts| + Measure(Run(q, ResumeAll(ts)), RunChain(c, ResumeAll(ts))) <= Measure(q, c)
    decreases |ts|
  {
    if ts != [] {
      var ops := ResumeAll(ts);
      assert ops[1..] == ResumeAll(ts[1..]);
      StepChain(q, c, ops[0]);
      ResumeDescends(q, c, ts[0]);
      ScheduleLength(Step(q, ops[0]), NextChain(c, ops[0]), ts[1..]);
    }
  }

  /** Nobody inside can be resumed. */
  predicate Quiet(q: Queue, c: seq<int>) {
    !SomeoneRuns(q, c)
  }

  lemma {:induction false} ShrinkingChain(c: seq<int>, ts: seq<int>)
    requires c == []
    ensures RunChain(c, ResumeAll(ts)) == []
    decreases |ts|
  {
    if ts != [] {
      assert ResumeAll(ts)[1..] == ResumeAll(ts[1..]);
      ShrinkingChain(c, ts[1..]);
    }
  }

  /** If one of n sleepers is runnable and no one comes or wakes, then however the scheduler picks the
      runnable ones, it resumes at most 2n - 1 times, and when it can resume nobody, all have left. */
  lemma {:induction false} Drain(q: Queue, c: seq<int>, ts: seq<int>)
    requires Chain(q, c) && SomeoneRuns(q, c) && Runnable(q, ResumeAll(ts))
    ensures |ts| <= 2 * |c| - 1
    ensures Quiet(Run(q, ResumeAll(ts)), RunChain(c, ResumeAll(ts))) ==> RunChain(c, ResumeAll(ts)) == [] && Run(q, ResumeAll(ts)).head == NONE
    decreases |ts|
  {
    ScheduleLength(q, c, ts);
    MeasureBound(q, c);
    RunKeepsChain(q, c, ResumeAll(ts));
    ChainHead(Run(q, ResumeAll(ts)), RunChain(c, ResumeAll(ts)));
    DrainQuiet(q, c, ts);
  }

  lemma {:induction false} DrainQuiet(q: Queue, c: seq<int>, ts: seq<int>)
    requires Chain(q, c) && SomeoneRuns(q, c) && Runnable(q, ResumeAll(ts))
    ensures RunChain(c, ResumeAll(ts)) == [] || SomeoneRuns(Run(q, ResumeAll(ts)), RunChain(c, ResumeAll(ts)))
    decreases |ts|
  {
    if ts != [] {
      var ops := ResumeAll(ts);
      assert ops[1..] == ResumeAll(ts[1..]);
      StepChain(q, c, ops[0]);
      StepKeepsRunner(q, c, ops[0]);
      if NextChain(c, ops[0]) == [] {
        ShrinkingChain(NextChain(c, ops[0]), ts[1..]);
      } else {
        DrainQuiet(Step(q, ops[0]), NextChain(c, ops[0]), ts[1..]);
      }
    }
  }

  // ---------- the code ----------

  /** One wait queue and the states of the 64 tasks, updated in place. */
  class Sleepers {
    var head: int
    var saved: map<int, int>
    const state: array<int>

    ghost function Abs(): Queue
      reads this, state
    {
      Queue(head, saved, state[..])
    }

    constructor ()
      ensures Chain(Abs(), [])
    {
      head, saved := NONE, map[];
      state := new int[NR_TASKS];
    }

    /** `__sleep_on` up to `schedule()`; `tmp` stays in the task's own frame. */
    method SleepOn(current: int, newState: int, ghost c: seq<int>)
      requires Chain(Abs(), c) && Enabled(Abs(), Sleeps(current, newState))
      modifies this, state
      ensures Abs() == Step(old(Abs()), Sleeps(current, newState)) && Chain(Abs(), [current] + c)
      ensures state[current] == newState != 0 && forall u :: 0 <= u < NR_TASKS && u != current ==> state[u] == old(state[u])
      ensures head == current && saved == old(saved)[current := old(head)]
    {
      EnterChain(Abs(), c, current, newState);
      var tmp := head;
      saved := saved[current := tmp];
      head := current;
      state[current] := newState;
    }

    /** `__sleep_on` after `schedule()`; true when the task leaves. */
    method Resumed(current: int, ghost c: seq<int>) returns (leaves: bool)
      requires Chain(Abs(), c) && Enabled(Abs(), Resumes(current))
      modifies this, state
      ensures Abs() == Step(old(Abs()), Resumes(current)) && Chain(Abs(), NextChain(c, Resumes(current)))
      ensures leaves == (current == c[0]) == (current !in saved)
      ensures !leaves ==> head == old(head) == c[0] && saved == old(saved) && state[head] == 0 && state[current] == 2
      ensures leaves ==> head == (if |c| == 1 then -1 else c[1]) && saved == old(saved) - {current}
      ensures leaves ==> (head != -1 ==> state[head] == 0) && state[current] == old(state[current])
      ensures forall u :: 0 <= u < NR_TASKS && u != head && u != current ==> state[u] == old(state[u])
    {
      ResumeChain(Abs(), c, current);
      ChainHead(Abs(), c);
      if head != NONE && head != current {
        state[head] := RUNNING;
        state[current] := UNINTERRUPTIBLE;
        return false;
      }
      var tmp := saved[current];
      head := tmp;
      saved := saved - {current};
      if head != NONE {
        state[tmp] := RUNNING;
      }
      return true;
    }

    method Wake(ghost c: seq<int>)
      requires Chain(Abs(), c)
      modifies state
      ensures Abs() == WakeUp(old(Abs())) && Chain(Abs(), c)
      ensures c != [] ==> SomeoneRuns(Abs(), c) && state[c[0]] == 0
      ensures forall u :: 0 <= u < NR_TASKS && (c == [] || u != c[0]) ==> state[u] == old(state[u])
    {
      WakeUpChain(Abs(), c);
      ChainHead(Abs(), c);
      if head != NONE {
        state[head] := RUNNING;
        assert state[c[0]] == RUNNING;
      }
    }
  }
}
