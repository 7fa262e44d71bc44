/** `sys_fork`: the process table and the memory together.  The slot that `find_empty_process` returns is one
    that `copy_process` can use, so the two tables never disagree about which tasks exist. */
module SysFork {
  import opened Kernel
  import opened PageTables
  import opened Conservation
  import opened Forking
  import opened Boot
  import opened Faults
  import opened Isolation
  import opened Runs
  import opened Kept
  import opened MemoryManager
  import Pids

  /** One process a task structure, above task 0, whose structure is part of the kernel. */
  ghost predicate Agree(mem: State, p: Pids.Processes) {
    && Inv(mem) && Pids.Inv(p)
    && forall t :: 1 <= t < NR_TASKS ==> (p.task[t] == Pids.Empty <==> TaskFrame(mem, t) == 0)
  }

  /** They agree when task 0 starts. */
  lemma BootAgrees(mem: State)
    requires Booted(mem)
    ensures Agree(mem, Pids.Booted())
  {
    BootInv(mem);
    hide Inv;
  }

  /** The slot for the next process: 64 if there is none. */
  function NextSlot(p: Pids.Processes): int {
    Pids.EmptySlot(p.task, 1)
  }

  /** The one call: whether memory suffices is what the paging code finds. */
  function ForkCall(mem: State, p: Pids.Processes, parent: int, pcb: seq<int>): (State, Pids.Processes) {
    if NextSlot(p) >= NR_TASKS then (mem, Pids.Fork(p, false))
    else
      var (mem', ok) := Fork(mem, parent, NextSlot(p), pcb, DATA_DIRS);
      (mem', Pids.Fork(p, ok))
  }

  predicate IsLive(p: Pids.Processes, t: int) {
    0 <= t < |p.task| && p.task[t] != Pids.Empty
  }

  /** `copy_process` is only called with a slot it can fill. */
  lemma SlotCanFork(mem: State, p: Pids.Processes, parent: int, pcb: seq<int>)
    requires Agree(mem, p) && IsLive(p, parent) && |pcb| == ENTRIES && NextSlot(p) < NR_TASKS
    ensures CanFork(mem, parent, NextSlot(p), pcb, DATA_DIRS)
  {
    hide Inv, TaskFrame;
  }

  lemma ForkTasks(mem: State, parent: int, nr: int, pcb: seq<int>, dirs: int)
    requires Inv(mem) && CanFork(mem, parent, nr, pcb, dirs)
    ensures var (mem', ok) := Fork(mem, parent, nr, pcb, dirs);
      && Inv(mem') && |mem.task| == NR_TASKS
      && (if ok then FreeFrame(mem) != 0 && mem'.task == mem.task[nr := FreeFrame(mem)] else mem'.task == mem.task)
  {
    ForkKeeps(mem, parent, nr, pcb, dirs);
    if Fork(mem, parent, nr, pcb, dirs).1 {
      assert FreeFrame(mem) != 0 && Fork(mem, parent, nr, pcb, dirs) == Copied(mem, parent, nr, pcb, dirs);
      hide Fork, Copied;
      CopiedKeeps(mem, parent, nr, pcb, dirs);
    } else {
      hide Fork;
      ForkRollback(mem, parent, nr, pcb, dirs);
    }
  }

  /** After the call the tables agree again, successful or not. */
  lemma ForkCallAgrees(mem: State, p: Pids.Processes, parent: int, pcb: seq<int>)
    requires Agree(mem, p) && IsLive(p, parent) && |pcb| == ENTRIES
    ensures var (mem', p') := ForkCall(mem, p, parent, pcb);
      Agree(mem', p') && forall t :: IsLive(p, t) ==> IsLive(p', t)
  {
    var nr := NextSlot(p);
    hide Fork, Inv, CanFork;
    if nr < NR_TASKS {
      SlotCanFork(mem, p, parent, pcb);
      ForkTasks(mem, parent, nr, pcb, DATA_DIRS);
      Pids.ForkKeepsInv(p, Fork(mem, parent, nr, pcb, DATA_DIRS).1);
    } else {
      Pids.ForkKeepsInv(p, false);
    }
  }

  lemma Ready(mem: State, p: Pids.Processes)
    requires Agree(mem, p)
    ensures Inv(mem) && Pids.Inv(p) && |p.task| == NR_TASKS && 1 <= Pids.NextPid(p) && !Pids.Taken(p.task, Pids.NextPid(p))
    ensures Pids.Full(p.task) <==> NextSlot(p) >= NR_TASKS
  {
    hide Inv;
    Pids.NextPidIsFresh(p);
  }

  lemma TakenAt(task: seq<Pids.Slot>, nr: int, pid: int)
    requires 0 <= nr < |task| && task[nr] == Pids.Live(pid)
    ensures Pids.Taken(task, pid)
  {
  }

  lemma CallIs(mem: State, p: Pids.Processes, parent: int, pcb: seq<int>)
    requires |p.task| == NR_TASKS
    ensures ForkCall(mem, p, parent, pcb) ==
      if NextSlot(p) >= NR_TASKS then (mem, Pids.Processes(p.task, Pids.NextPid(p)))
      else
        var (mem', ok) := Fork(mem, parent, NextSlot(p), pcb, DATA_DIRS);
        (mem', Pids.Processes(if ok then p.task[NextSlot(p) := Pids.Live(Pids.NextPid(p))] else p.task, Pids.NextPid(p)))
  {
    hide Fork;
  }

  // ---------- runs ----------

  datatype Call = Forks(parent: int, pcb: seq<int>) | Writes(t: int, p: int, w: int, v: int)

  /** The step of module Runs that a call is: the slot comes from the table. */
  function OpOf(p: Pids.Processes, c: Call): Op {
    match c
    case Forks(parent, pcb) => Op.Forks(parent, NextSlot(p), pcb)
    case Writes(t, page, w, v) => Op.Writes(t, page, w, v)
  }

  predicate IsNoFork(p: Pids.Processes, c: Call) {
    c.Forks? && NextSlot(p) >= NR_TASKS
  }

  function After(mem: State, p: Pids.Processes, c: Call): (State, Pids.Processes) {
    match c
    case Forks(parent, pcb) => ForkCall(mem, p, parent, pcb)
    case Writes(t, page, w, v) => (Step(mem, OpOf(p, c)), p)
  }

  /** A process that exists forks, or a task writes, with a frame for the copy if it needs one. */
  ghost predicate CanCall(mem: State, p: Pids.Processes, c: Call) {
    match c
    case Forks(parent, pcb) => IsLive(p, parent) && |pcb| == ENTRIES
    case Writes(t, page, w, v) => Possible(mem, OpOf(p, c))
  }

  ghost predicate CanCallAll(mem: State, p: Pids.Processes, cs: seq<Call>)
    decreases |cs|
  {
    cs == [] || (CanCall(mem, p, cs[0]) && CanCallAll(After(mem, p, cs[0]).0, After(mem, p, cs[0]).1, cs[1..]))
  }

  function AfterAll(mem: State, p: Pids.Processes, cs: seq<Call>): (State, Pids.Processes)
    decreases |cs|
  {
    if cs == [] then (mem, p) else AfterAll(After(mem, p, cs[0]).0, After(mem, p, cs[0]).1, cs[1..])
  }

  /** The run of the memory behind the calls: a fork that finds no slot does not reach it. */
  function Ops(mem: State, p: Pids.Processes, cs: seq<Call>): seq<Op>
    decreases |cs|
  {
    if cs == [] then []
    else
      var rest := Ops(After(mem, p, cs[0]).0, After(mem, p, cs[0]).1, cs[1..]);
      if IsNoFork(p, cs[0]) then rest else [OpOf(p, cs[0])] + rest
  }

  lemma WriteTasks(s: State, d: int, i: int, w: int, v: int)
    ensures WriteWord(s, d, i, w, v).task == s.task
  {
    FaultTasks(s, Table(s, d), i);
    hide UnWriteProtect, CanWrite, Mapped;
  }

  lemma FaultTasks(s: State, t: int, i: int)
    ensures UnWriteProtect(s, t, i).task == s.task
  {
    hide SoleUser, FreeFrame, FrameOf, WriteEnable, UserEntry, Peek;
  }

  lemma ForkAgrees(mem: State, p: Pids.Processes, c: Call)
    requires Agree(mem, p) && CanCall(mem, p, c) && c.Forks?
    ensures Agree(After(mem, p, c).0, After(mem, p, c).1)
    ensures if IsNoFork(p, c) then After(mem, p, c).0 == mem
      else Possible(mem, OpOf(p, c)) && After(mem, p, c).0 == Step(mem, OpOf(p, c))
  {
    hide Fork, Inv, CanFork, Agree, IsLive, NextSlot, Pids.Fork;
    ForkCallAgrees(mem, p, c.parent, c.pcb);
    if NextSlot(p) < NR_TASKS {
      SlotCanFork(mem, p, c.parent, c.pcb);
    }
  }

  lemma WriteAgrees(mem: State, p: Pids.Processes, c: Call)
    requires Agree(mem, p) && CanCall(mem, p, c) && c.Writes?
    ensures Agree(After(mem, p, c).0, p) && After(mem, p, c).1 == p
  {
    var d, i := DirOf(c.t, c.p), SlotOf(c.p);
    DirOfTask(c.t, c.p);
    WriteTasks(mem, d, i, c.w, c.v);
    hide WriteWord, Inv, Mapped, CanWrite, FreeFrame, NeedsCopy, DirOf, SlotOf;
    if Mapped(mem, d, i) {
      WriteKeeps(mem, d, i, c.w, c.v);
    } else {
      NotMapped(mem, d, i, c.w, c.v);
    }
  }

  lemma NotMapped(s: State, d: int, i: int, w: int, v: int)
    requires !Mapped(s, d, i)
    ensures WriteWord(s, d, i, w, v) == s
  {
  }

  lemma CallAgrees(mem: State, p: Pids.Processes, c: Call)
    requires Agree(mem, p) && CanCall(mem, p, c)
    ensures Agree(After(mem, p, c).0, After(mem, p, c).1)
    ensures if IsNoFork(p, c) then After(mem, p, c).0 == mem
      else Possible(mem, OpOf(p, c)) && After(mem, p, c).0 == Step(mem, OpOf(p, c))
  {
    if c.Forks? {
      ForkAgrees(mem, p, c);
    } else {
      WriteAgrees(mem, p, c);
    }
    hide Agree, Possible, Step, ForkCall;
  }

  /** Over every run of calls the tables agree, live processes keep distinct numbers, and the memory goes
      through a run of module Runs. */
  lemma {:induction false} CallsAgree(mem: State, p: Pids.Processes, cs: seq<Call>)
    requires Agree(mem, p) && CanCallAll(mem, p, cs)
    ensures var (mem', p') := AfterAll(mem, p, cs);
      Agree(mem', p') && PossibleRun(mem, Ops(mem, p, cs)) && mem' == Run(mem, Ops(mem, p, cs))
    decreases |cs|
  {
    hide Agree, CanCall, After, Possible, Step, OpOf, IsNoFork;
    if cs != [] {
      CallAgrees(mem, p, cs[0]);
      var (next, q) := After(mem, p, cs[0]);
      CallsAgree(next, q, cs[1..]);
      assert ([OpOf(p, cs[0])] + Ops(next, q, cs[1..]))[1..] == Ops(next, q, cs[1..]);
    }
  }

  /** Calls that are safe in every state they are made in. */
  ghost predicate SafeCalls(mem: State, p: Pids.Processes, cs: seq<Call>)
    decreases |cs|
  {
    cs == [] ||
      (CanCall(mem, p, cs[0]) && (IsNoFork(p, cs[0]) || Safe(mem, OpOf(p, cs[0])))
       && SafeCalls(After(mem, p, cs[0]).0, After(mem, p, cs[0]).1, cs[1..]))
  }

  lemma {:induction false} SafeCallsRun(mem: State, p: Pids.Processes, cs: seq<Call>)
    requires Agree(mem, p) && SafeCalls(mem, p, cs)
    ensures CanCallAll(mem, p, cs) && Runnable(mem, Ops(mem, p, cs))
    decreases |cs|
  {
    hide Agree, CanCall, After, Possible, Step, OpOf, IsNoFork, Attempt, Safe;
    if cs != [] {
      CallAgrees(mem, p, cs[0]);
      var (next, q) := After(mem, p, cs[0]);
      SafeCallsRun(next, q, cs[1..]);
      if !IsNoFork(p, cs[0]) {
        PossibleIsAttempt(mem, OpOf(p, cs[0]));
        assert ([OpOf(p, cs[0])] + Ops(next, q, cs[1..]))[1..] == Ops(next, q, cs[1..]);
      }
    }
  }

  lemma PossibleIsAttempt(mem: State, op: Op)
    requires Possible(mem, op)
    ensures Attempt(mem, op)
  {
  }

  /** Over every run of safe calls the tasks see memories of their own, process numbers stay distinct, and the
      two tables agree on which tasks exist. */
  lemma SafeCallsRefine(mem: State, p: Pids.Processes, cs: seq<Call>)
    requires Agree(mem, p) && Private(mem) && SafeCalls(mem, p, cs)
    ensures var (mem', p') := AfterAll(mem, p, cs);
      && Agree(mem', p') && Pids.Inv(p') && Private(mem')
      && Abstract(mem') == SpecRun(Abstract(mem), Trace(mem, Ops(mem, p, cs)))
  {
    assert Inv(mem);
    hide Agree, AfterAll, Ops, SafeCalls, CanCallAll, Runnable, PossibleRun, Private, Inv, Abstract, SpecRun, Trace, Run;
    SafeCallsRun(mem, p, cs);
    CallsAgree(mem, p, cs);
    RunRefines(mem, Ops(mem, p, cs));
    NumbersIn(AfterAll(mem, p, cs).0, AfterAll(mem, p, cs).1);
  }

  lemma NumbersIn(mem: State, p: Pids.Processes)
    requires Agree(mem, p)
    ensures Pids.Inv(p)
  {
  }

  // ---------- the code ----------

  class System {
    const memory: MemoryManager.Memory
    const table: Pids.TaskTable

    constructor (memory: MemoryManager.Memory, table: Pids.TaskTable)
      ensures this.memory == memory && this.table == table
    {
      this.memory, this.table := memory, table;
    }

    ghost predicate Valid()
      reads memory, memory.memMap, memory.ram, memory.task, table, table.task
    {
      memory.Valid() && table.Valid() && Agree(memory.Abs(), table.Contents())
    }

    /** The number of the new process, or -EAGAIN with everything given back. */
    method SysFork(parent: int, pcb: seq<int>) returns (r: int)
      requires Valid() && IsLive(table.Contents(), parent) && |pcb| == ENTRIES
      modifies memory.memMap, memory.ram, memory.task, table`lastPid, table.task
      ensures Valid()
      ensures (memory.Abs(), table.Contents()) == ForkCall(old(memory.Abs()), old(table.Contents()), parent, pcb)
      ensures r == -EAGAIN || (r == table.lastPid && 1 <= r && Pids.Taken(table.task[..], r) && !Pids.Taken(old(table.task[..]), r))
      ensures r == -EAGAIN ==> table.task[..] == old(table.task[..])
      ensures Keeps(old(memory.Abs()), memory.Abs())
      ensures r != -EAGAIN ==> HoldsStructure(memory.Abs(), NextSlot(old(table.Contents())), pcb)
    {
      ghost var mem, p := memory.Abs(), table.Contents();
      ghost var after := ForkCall(mem, p, parent, pcb);
      Ready(mem, p);
      ForkCallAgrees(mem, p, parent, pcb);
      NumbersIn(after.0, after.1);
      CallIs(mem, p, parent, pcb);
      KeepsSelf(mem);
      hide Keeps, HoldsStructure, Fork, Inv, CanFork, Pids.Inv, Pids.Fork, Agree, Pids.NextPid, Pids.EmptySlot, ForkCall, IsLive, NextSlot, Pids.Full, Pids.Taken, MemoryManager.Memory.Valid, MemoryManager.Memory.Abs;
      var nr := table.FindEmptyProcess();
      if nr < 0 {
        assert (memory.Abs(), table.Contents()) == after;
        return nr;
      }
      SlotCanFork(mem, p, parent, pcb);
      r := CopyProcess(parent, nr, pcb);
      if r != -EAGAIN {
        TakenAt(table.task[..], nr, r);
      }
      assert memory.Abs() == after.0;
      assert table.Contents() == after.1;
    }

    /** `copy_process`: the slot is taken before memory is copied, and given back when that fails. */
    method CopyProcess(parent: int, nr: int, pcb: seq<int>) returns (r: int)
      requires memory.Valid() && Inv(memory.Abs()) && CanFork(memory.Abs(), parent, nr, pcb, DATA_DIRS)
      requires table.task.Length == NR_TASKS && table.task[nr] == Pids.Empty && 0 < table.lastPid
      modifies memory.memMap, memory.ram, memory.task, table.task
      ensures memory.Valid() && (r == table.lastPid || r == -EAGAIN)
      ensures (memory.Abs(), r == table.lastPid) == Fork(old(memory.Abs()), parent, nr, pcb, DATA_DIRS)
      ensures Keeps(old(memory.Abs()), memory.Abs()) && (r == table.lastPid ==> HoldsStructure(memory.Abs(), nr, pcb))
      ensures table.task[..] == if r == table.lastPid then old(table.task[..])[nr := Pids.Live(r)] else old(table.task[..])
    {
      ghost var was := table.task[..];
      table.task[nr] := Pids.Live(table.lastPid);
      r := memory.CopyProcess(parent, nr, pcb, table.lastPid);
      if r < 0 {
        table.task[nr] := Pids.Empty;
        assert table.task[..] == was;
      }
    }
  }
}
