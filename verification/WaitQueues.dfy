/** Many wait queues over the same tasks.  A task sleeps in one queue at most, and each step of one queue
    leaves the others alone although they share the task states. */
module WaitQueues {
  import opened Kernel
  import opened WaitQueue

  /** `heads[q]` is the pointer of queue q; a sleeper t is in queue `at[t]`, with `saved[t]` as its `tmp`. */
  datatype Queues = Queues(heads: seq<int>, at: map<int, int>, saved: map<int, int>, state: seq<int>)

  /** One queue, with the states of all tasks. */
  function One(qs: Queues, q: int): Queue
    requires 0 <= q < |qs.heads|
  {
    Queue(qs.heads[q], map t | t in qs.saved && t in qs.at && qs.at[t] == q :: qs.saved[t], qs.state)
  }

  /** Every queue has its chain, and whoever has saved a pointer is in a queue. */
  ghost predicate Chains(qs: Queues, cs: seq<seq<int>>) {
    && |cs| == |qs.heads| && |qs.state| == NR_TASKS
    && (forall t :: t in qs.saved <==> t in qs.at)
    && (forall t :: t in qs.at ==> 0 <= qs.at[t] < |qs.heads|)
    && forall q :: 0 <= q < |cs| ==> Chain(One(qs, q), cs[q])
  }

  // ---------- steps ----------

  /** A task that goes to sleep in one queue sleeps in none. */
  predicate Possible(qs: Queues, q: int, op: Op) {
    && 0 <= q < |qs.heads| && Enabled(One(qs, q), op)
    && (op.Sleeps? ==> op.t !in qs.saved && op.t !in qs.at)
  }

  function StepOn(qs: Queues, q: int, op: Op): Queues
    requires Possible(qs, q, op)
  {
    var head := qs.heads[q];
    match op
    case Sleeps(t, state) =>
      Queues(qs.heads[q := t], qs.at[t := q], qs.saved[t := head], qs.state[t := state])
    case Resumes(t) =>
      if head != NONE && head != t then
        qs.(state := qs.state[head := RUNNING][t := UNINTERRUPTIBLE])
      else
        var next := qs.saved[t];
        Queues(qs.heads[q := next], qs.at - {t}, qs.saved - {t}, if next != NONE then qs.state[next := RUNNING] else qs.state)
    case Wakes => if head != NONE then qs.(state := qs.state[head := RUNNING]) else qs
    case Signals(t) => qs.(state := qs.state[t := RUNNING])
  }

  /** On its own queue it is a step of that queue. */
  lemma SameQueue(qs: Queues, q: int, op: Op)
    requires Possible(qs, q, op)
    ensures |StepOn(qs, q, op).heads| == |qs.heads| && One(StepOn(qs, q, op), q) == Step(One(qs, q), op)
  {
    var next := StepOn(qs, q, op);
    assert One(next, q).saved == Step(One(qs, q), op).saved;
  }

  /** The tasks whose state a step can change are in its queue, or in none. */
  lemma ChangesOwn(qs: Queues, cs: seq<seq<int>>, q: int, op: Op, r: int, u: int)
    requires Chains(qs, cs) && Possible(qs, q, op) && 0 <= r < |cs| && r != q && u in cs[r]
    ensures 0 <= u < NR_TASKS && StepOn(qs, q, op).state[u] == qs.state[u]
  {
    InOneQueue(qs, cs, r, u);
    ChainHead(One(qs, q), cs[q]);
    hide Chain, Enabled;
    var head := qs.heads[q];
    if head != NONE {
      assert head in cs[q];
      InOneQueue(qs, cs, q, head);
    }
    match op
    case Sleeps(t, state) =>
    case Resumes(t) =>
      SleeperIn(qs, cs, q, t);
      if qs.saved[t] != NONE {
        InOneQueue(qs, cs, q, qs.saved[t]);
      }
    case Wakes =>
    case Signals(t) => SleeperIn(qs, cs, q, t);
  }

  lemma InOneQueue(qs: Queues, cs: seq<seq<int>>, r: int, u: int)
    requires Chains(qs, cs) && 0 <= r < |cs| && u in cs[r]
    ensures u in qs.at && u in qs.saved && qs.at[u] == r && 1 <= u < NR_TASKS
  {
    assert Chain(One(qs, r), cs[r]);
    assert u in One(qs, r).saved;
  }

  lemma SleeperIn(qs: Queues, cs: seq<seq<int>>, q: int, t: int)
    requires Chains(qs, cs) && 0 <= q < |cs| && t in One(qs, q).saved
    ensures t in cs[q] && t in qs.at && qs.at[t] == q && qs.saved[t] == One(qs, q).saved[t]
    ensures qs.saved[t] == NONE || qs.saved[t] in cs[q]
  {
    assert Chain(One(qs, q), cs[q]);
    SavedInside(cs[q], qs.heads[q], One(qs, q).saved, t);
  }

  /** On another queue nothing changes but states of tasks that are not in it. */
  lemma OtherQueue(qs: Queues, q: int, op: Op, r: int)
    requires Possible(qs, q, op) && 0 <= r < |qs.heads| && r != q
    requires forall t :: t in qs.saved <==> t in qs.at
    ensures var next := StepOn(qs, q, op);
      |next.heads| == |qs.heads| && One(next, r).head == One(qs, r).head && One(next, r).saved == One(qs, r).saved
  {
    assert One(StepOn(qs, q, op), r).saved == One(qs, r).saved;
  }

  lemma ChainStays(p: Queue, p': Queue, c: seq<int>)
    requires Chain(p, c) && p'.head == p.head && p'.saved == p.saved && |p'.state| == NR_TASKS
    ensures Chain(p', c)
  {
  }

  function NextChains(cs: seq<seq<int>>, q: int, op: Op): seq<seq<int>>
    requires 0 <= q < |cs|
  {
    cs[q := NextChain(cs[q], op)]
  }

  lemma StepOnChains(qs: Queues, cs: seq<seq<int>>, q: int, op: Op)
    requires Chains(qs, cs) && Possible(qs, q, op)
    ensures Chains(StepOn(qs, q, op), NextChains(cs, q, op))
  {
    var next := StepOn(qs, q, op);
    SameQueue(qs, q, op);
    StepChain(One(qs, q), cs[q], op);
    SleepersStay(qs, cs, q, op);
    hide Chain, Enabled, StepOn, Step, NextChain;
    forall r | 0 <= r < |cs| ensures Chain(One(next, r), NextChains(cs, q, op)[r]) {
      if r != q {
        OtherQueue(qs, q, op, r);
        ChainStays(One(qs, r), One(next, r), cs[r]);
      }
    }
  }

  lemma SleepersStay(qs: Queues, cs: seq<seq<int>>, q: int, op: Op)
    requires Chains(qs, cs) && Possible(qs, q, op)
    ensures var next := StepOn(qs, q, op);
      && |next.heads| == |qs.heads| && |next.state| == NR_TASKS
      && (forall t :: t in next.saved <==> t in next.at)
      && (forall t :: t in next.at ==> 0 <= next.at[t] < |next.heads|)
  {
    hide Chain;
  }

  // ---------- runs ----------

  datatype On = On(queue: int, op: Op)

  ghost predicate PossibleRun(qs: Queues, ops: seq<On>)
    decreases |ops|
  {
    ops == [] || (Possible(qs, ops[0].queue, ops[0].op) && PossibleRun(StepOn(qs, ops[0].queue, ops[0].op), ops[1..]))
  }

  ghost function RunAll(qs: Queues, ops: seq<On>): Queues
    requires PossibleRun(qs, ops)
    decreases |ops|
  {
    if ops == [] then qs else RunAll(StepOn(qs, ops[0].queue, ops[0].op), ops[1..])
  }

  /** What the run makes of the chain of queue r. */
  function ChainAfter(c: seq<int>, ops: seq<On>, r: int): seq<int>
    decreases |ops|
  {
    if ops == [] then c
    else ChainAfter(if ops[0].queue == r then NextChain(c, ops[0].op) else c, ops[1..], r)
  }

  /** Under every interleaving of steps on all queues, each queue's pointers form the list of exactly its
      own sleepers. */
  lemma {:induction false} RunKeepsChains(qs: Queues, cs: seq<seq<int>>, ops: seq<On>) returns (ds: seq<seq<int>>)
    requires Chains(qs, cs) && PossibleRun(qs, ops)
    ensures Chains(RunAll(qs, ops), ds) && |ds| == |cs|
    ensures forall r :: 0 <= r < |cs| ==> ds[r] == ChainAfter(cs[r], ops, r)
    decreases |ops|
  {
    hide Chains, Possible, StepOn, NextChain;
    ds := cs;
    if ops != [] {
      var (q, op) := (ops[0].queue, ops[0].op);
      QueueExists(qs, cs, q, op);
      StepOnChains(qs, cs, q, op);
      ds := RunKeepsChains(StepOn(qs, q, op), NextChains(cs, q, op), ops[1..]);
    }
  }

  lemma QueueExists(qs: Queues, cs: seq<seq<int>>, q: int, op: Op)
    requires Chains(qs, cs) && Possible(qs, q, op)
    ensures 0 <= q < |cs|
  {
  }

  lemma OthersKeepRunner(qs: Queues, cs: seq<seq<int>>, q: int, op: Op, r: int)
    requires Chains(qs, cs) && Possible(qs, q, op) && 0 <= r < |cs| && r != q && SomeoneRuns(One(qs, r), cs[r])
    ensures |StepOn(qs, q, op).heads| == |qs.heads| && SomeoneRuns(One(StepOn(qs, q, op), r), cs[r])
  {
    var k :| 0 <= k < |cs[r]| && 0 <= cs[r][k] < |qs.state| && qs.state[cs[r][k]] == RUNNING;
    OtherQueue(qs, q, op, r);
    SleepersStay(qs, cs, q, op);
    ChangesOwn(qs, cs, q, op, r, cs[r][k]);
    hide StepOn, Chains, Possible;
    assert One(StepOn(qs, q, op), r).state[cs[r][k]] == RUNNING;
  }

  /** Once a sleeper of queue r is runnable, some sleeper of r stays runnable until r is empty, whatever
      happens there and on the other queues. */
  lemma {:induction false} NoLostWakeups(qs: Queues, cs: seq<seq<int>>, ops: seq<On>, r: int)
    requires Chains(qs, cs) && PossibleRun(qs, ops) && 0 <= r < |cs| && SomeoneRuns(One(qs, r), cs[r])
    requires forall k :: 0 <= k <= |ops| ==> ChainAfter(cs[r], ops[..k], r) != []
    ensures |RunAll(qs, ops).heads| == |cs| && SomeoneRuns(One(RunAll(qs, ops), r), ChainAfter(cs[r], ops, r))
    decreases |ops|
  {
    if ops != [] {
      var (q, op) := (ops[0].queue, ops[0].op);
      QueueExists(qs, cs, q, op);
      StepOnChains(qs, cs, q, op);
      var next, ds := StepOn(qs, q, op), NextChains(cs, q, op);
      StillRunning(qs, cs, q, op, r);
      hide Chains, Possible, StepOn, NextChain, SomeoneRuns;
      assert ops[..1][1..] == [];
      assert ChainAfter(cs[r], ops[..1], r) == ds[r];
      forall k | 0 <= k <= |ops[1..]| ensures ChainAfter(ds[r], ops[1..][..k], r) != [] {
        assert ops[..k + 1][1..] == ops[1..][..k];
        assert ChainAfter(cs[r], ops[..k + 1], r) == ChainAfter(ds[r], ops[1..][..k], r);
      }
      NoLostWakeups(next, ds, ops[1..], r);
    } else {
      assert |qs.heads| == |cs|;
    }
  }

  lemma StillRunning(qs: Queues, cs: seq<seq<int>>, q: int, op: Op, r: int)
    requires Chains(qs, cs) && Possible(qs, q, op) && 0 <= r < |cs| && SomeoneRuns(One(qs, r), cs[r])
    ensures var next, ds := StepOn(qs, q, op), NextChains(cs, q, op);
      |next.heads| == |qs.heads| && (ds[r] == [] || SomeoneRuns(One(next, r), ds[r]))
  {
    if q == r {
      SameQueue(qs, q, op);
      StepKeepsRunner(One(qs, q), cs[q], op);
    } else {
      OthersKeepRunner(qs, cs, q, op, r);
    }
  }

  // ---------- draining one queue while the others go on ----------

  /** How often a sleeper of r is resumed. */
  function Resumptions(ops: seq<On>, r: int): nat
    decreases |ops|
  {
    if ops == [] then 0 else (if ops[0].queue == r then 1 else 0) + Resumptions(ops[1..], r)
  }

  lemma {:induction false} SameRunners(c: seq<int>, state: seq<int>, state': seq<int>)
    requires |state'| == |state| && forall t :: t in c && 0 <= t < |state| ==> state'[t] == state[t]
    ensures Runners(c, state') == Runners(c, state)
  {
    if c != [] {
      assert forall t :: t in c[1..] ==> t in c;
      SameRunners(c[1..], state, state');
    }
  }

  lemma OthersKeepMeasure(qs: Queues, cs: seq<seq<int>>, q: int, op: Op, r: int)
    requires Chains(qs, cs) && Possible(qs, q, op) && 0 <= r < |cs| && r != q
    ensures |StepOn(qs, q, op).heads| == |qs.heads| && Measure(One(StepOn(qs, q, op), r), cs[r]) == Measure(One(qs, r), cs[r])
  {
    SleepersStay(qs, cs, q, op);
    hide StepOn, Chains, Possible;
    var c := cs[r];
    if c != [] {
      forall t | t in c[1..] && 0 <= t < |qs.state| ensures StepOn(qs, q, op).state[t] == qs.state[t] {
        assert t in c;
        ChangesOwn(qs, cs, q, op, r, t);
      }
      assert |qs.state| == NR_TASKS by { StateSize(qs, cs); }
      SameRunners(c[1..], qs.state, StepOn(qs, q, op).state);
    }
  }

  lemma StateSize(qs: Queues, cs: seq<seq<int>>)
    requires Chains(qs, cs)
    ensures |qs.state| == NR_TASKS && |cs| == |qs.heads|
  {
  }

  lemma {:induction false} ResumptionsBounded(qs: Queues, cs: seq<seq<int>>, ops: seq<On>, r: int)
    requires Chains(qs, cs) && PossibleRun(qs, ops) && 0 <= r < |cs|
    requires forall k :: 0 <= k < |ops| && ops[k].queue == r ==> ops[k].op.Resumes?
    ensures |qs.heads| == |cs| && Resumptions(ops, r) <= Measure(One(qs, r), cs[r])
    decreases |ops|
  {
    StateSize(qs, cs);
    if ops != [] {
      var (q, op) := (ops[0].queue, ops[0].op);
      QueueExists(qs, cs, q, op);
      StepOnChains(qs, cs, q, op);
      MeasureStep(qs, cs, q, op, r);
      hide Chains, Possible, StepOn, NextChain, Measure;
      ResumptionsBounded(StepOn(qs, q, op), NextChains(cs, q, op), ops[1..], r);
    }
  }

  lemma MeasureStep(qs: Queues, cs: seq<seq<int>>, q: int, op: Op, r: int)
    requires Chains(qs, cs) && Possible(qs, q, op) && 0 <= r < |cs| && (q == r ==> op.Resumes?)
    ensures var next, ds := StepOn(qs, q, op), NextChains(cs, q, op);
      |next.heads| == |qs.heads| == |cs| &&
      Measure(One(next, r), ds[r]) + (if q == r then 1 else 0) <= Measure(One(qs, r), cs[r])
  {
    if q == r {
      SameQueue(qs, q, op);
      ResumeDescends(One(qs, q), cs[q], op.t);
    } else {
      OthersKeepMeasure(qs, cs, q, op, r);
    }
  }

  /** Whatever goes on in the other queues, n sleepers of a queue that nobody joins or wakes are resumed at
      most 2n - 1 times; and if one of them was runnable, none is left behind. */
  lemma DrainAmid(qs: Queues, cs: seq<seq<int>>, ops: seq<On>, r: int)
    requires Chains(qs, cs) && PossibleRun(qs, ops) && 0 <= r < |cs| && SomeoneRuns(One(qs, r), cs[r])
    requires forall k :: 0 <= k < |ops| && ops[k].queue == r ==> ops[k].op.Resumes?
    ensures Resumptions(ops, r) <= 2 * |cs[r]| - 1
    ensures |RunAll(qs, ops).heads| == |cs|
    ensures ChainAfter(cs[r], ops, r) == [] || SomeoneRuns(One(RunAll(qs, ops), r), ChainAfter(cs[r], ops, r))
  {
    ResumptionsBounded(qs, cs, ops, r);
    MeasureBound(One(qs, r), cs[r]);
    DrainRuns(qs, cs, ops, r);
  }

  lemma {:induction false} DrainRuns(qs: Queues, cs: seq<seq<int>>, ops: seq<On>, r: int)
    requires Chains(qs, cs) && PossibleRun(qs, ops) && 0 <= r < |cs|
    requires cs[r] == [] || SomeoneRuns(One(qs, r), cs[r])
    requires forall k :: 0 <= k < |ops| && ops[k].queue == r ==> ops[k].op.Resumes?
    ensures |RunAll(qs, ops).heads| == |cs|
    ensures ChainAfter(cs[r], ops, r) == [] || SomeoneRuns(One(RunAll(qs, ops), r), ChainAfter(cs[r], ops, r))
    decreases |ops|
  {
    StateSize(qs, cs);
    if ops != [] {
      var (q, op) := (ops[0].queue, ops[0].op);
      QueueExists(qs, cs, q, op);
      StepOnChains(qs, cs, q, op);
      if cs[r] == [] {
        assert NextChains(cs, q, op)[r] == [];
      } else {
        StillRunning(qs, cs, q, op, r);
      }
      hide Chains, Possible, StepOn, NextChain, SomeoneRuns;
      DrainRuns(StepOn(qs, q, op), NextChains(cs, q, op), ops[1..], r);
    }
  }
}
