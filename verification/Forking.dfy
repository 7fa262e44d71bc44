/** `copy_process` as a transaction: it keeps the invariant, and when memory runs out half way it
    leaves the reference counts, the task table and every mapping as they were. */
module Forking {
  import opened Kernel
  import opened PageTables
  import opened Conservation
  import opened Allocation
  import opened Sharing
  import opened Release

  ghost predicate CanFork(s: State, parent: int, nr: int, pcb: seq<int>, dirs: int) {
    && dirs == DATA_DIRS && 0 <= parent < NR_TASKS && 1 <= nr < NR_TASKS && parent != nr
    && TaskFrame(s, nr) == 0 && |pcb| == ENTRIES
  }

  /** An empty slot owns no tables. */
  lemma EmptySlot(s: State, nr: int)
    requires Inv(s) && 1 <= nr < NR_TASKS && TaskFrame(s, nr) == 0
    ensures NoTablesFrom(s, nr, 0)
    ensures forall d, i, f :: d / TASK_DIRS == nr ==> !Maps(s, d, i, f)
  {
    forall d | TASK_DIRS * nr <= d < TASK_DIRS * (nr + 1) ensures !HasTable(s, d) {
      assert d / TASK_DIRS == nr;
    }
  }

  lemma AddTaskStarts(s: State, parent: int, nr: int, pcb: seq<int>, dirs: int)
    requires Inv(s) && CanFork(s, parent, nr, pcb, dirs) && FreeFrame(s) != 0
    ensures var s' := AddTask(s, nr, FreeFrame(s), pcb);
      && Copying(s', parent, nr) && NoTablesFrom(s', nr, 0) && Outside(s, s', nr)
      && NewTask(s, s', nr, FreeFrame(s)) && SameMappings(s, s')
  {
    AddTaskEffect(s, nr, pcb);
    AddTaskKeeps(s, nr, pcb);
    EmptySlot(s, nr);
    FreeFrameUnused(s);
    hide AddTask, FreeFrame, Maps, CanWrite, HasTable, Table, Inv;
  }

  /** The state `copy_page_tables` leaves, and whether it succeeded. */
  function Copied(s: State, parent: int, nr: int, pcb: seq<int>, dirs: int): (State, bool) {
    CopyTables(AddTask(s, nr, FreeFrame(s), pcb), TASK_DIRS * parent, TASK_DIRS * nr, dirs, EntryLimit(parent))
  }

  lemma AddTaskTable(s: State, nr: int, f: int, pcb: seq<int>)
    requires 0 <= nr < |s.task|
    ensures AddTask(s, nr, f, pcb).task == s.task[nr := f]
  {
  }

  lemma CopyWindowKeeps(s: State, parent: int, nr: int, dirs: int)
    requires Copying(s, parent, nr) && NoTablesFrom(s, nr, 0) && dirs == DATA_DIRS
    ensures var s' := CopyTables(s, TASK_DIRS * parent, TASK_DIRS * nr, dirs, EntryLimit(parent)).0;
      Copying(s', parent, nr) && Outside(s, s', nr) && s'.task == s.task
  {
    hide CopyTables, Copying, Outside, NoTablesFrom;
    CopyTablesKeeps(s, parent, nr, 0, dirs, EntryLimit(parent));
    assert TASK_DIRS * parent + 0 == TASK_DIRS * parent && TASK_DIRS * nr + 0 == TASK_DIRS * nr;
  }

  lemma CopiedKeeps(s: State, parent: int, nr: int, pcb: seq<int>, dirs: int)
    requires Inv(s) && CanFork(s, parent, nr, pcb, dirs) && FreeFrame(s) != 0
    ensures var s' := Copied(s, parent, nr, pcb, dirs).0;
      && Copying(s', parent, nr) && Outside(s, s', nr)
      && s'.task == s.task[nr := FreeFrame(s)]
  {
    assert |s.task| == NR_TASKS;
    hide AddTask, CopyTables, FreeFrame, Copying, Inv, Outside, NoTablesFrom, NewTask, SameMappings, EntryLimit;
    var started := AddTask(s, nr, FreeFrame(s), pcb);
    AddTaskStarts(s, parent, nr, pcb, dirs);
    AddTaskTable(s, nr, FreeFrame(s), pcb);
    CopyWindowKeeps(started, parent, nr, dirs);
    OutsideTrans(s, started, Copied(s, parent, nr, pcb, dirs).0, nr);
  }

  // ---------- the error path ----------

  lemma DropTaskEffect(s: State, nr: int)
    requires Inv(s) && 1 <= nr < NR_TASKS && TaskFrame(s, nr) != 0
    ensures var s' := DropTask(s, nr);
      && Shape(s') && s'.ram == s.ram && s'.task == s.task[nr := 0] && s'.start == s.start && s'.high == s.high
      && (forall f :: LOW_FRAMES <= f < FRAMES ==> Count(s', f) == if f == TaskFrame(s, nr) then Count(s, f) - 1 else Count(s, f))
  {
    var f := TaskFrame(s, nr);
    CountBound(s, f);
    assert nr in TaskUses(s, f);
    assert Count(s, f) == References(s, f);
    FreePageEffect(SetTask(s, nr, 0), f);
  }

  lemma DropTaskKeeps(s: State, nr: int)
    requires Inv(s) && 1 <= nr < NR_TASKS && TaskFrame(s, nr) != 0 && NoTablesFrom(s, nr, 0)
    ensures Inv(DropTask(s, nr)) && SameMappings(s, DropTask(s, nr))
    ensures forall d :: HasTable(DropTask(s, nr), d) == HasTable(s, d) && Table(DropTask(s, nr), d) == Table(s, d)
  {
    DropTaskEffect(s, nr);
    var s' := DropTask(s, nr);
    hide DropTask;
    assert forall d :: HasTable(s', d) == HasTable(s, d) && Table(s', d) == Table(s, d);
    assert forall d, i :: Entry(s', d, i) == Entry(s, d, i);
    assert SameMappings(s, s') by {
      hide Entry, Present, FrameOf, Writable;
    }
    SameMappers(s, s');
    assert LostTask(s, s', nr);
    LostTaskApart(s, s', nr);
    LostTaskCounts(s, s', nr);
  }

  ghost predicate LostTask(s: State, s': State, nr: int) {
    && s'.start == s.start && s'.high == s.high && 1 <= nr < NR_TASKS && TaskFrame(s, nr) != 0
    && (forall d :: HasTable(s', d) == HasTable(s, d) && Table(s', d) == Table(s, d))
    && (forall t :: TaskFrame(s', t) == if t == nr then 0 else TaskFrame(s, t))
  }

  lemma LostTaskApart(s: State, s': State, nr: int)
    requires TablesApart(s) && TablesOwned(s) && TasksApart(s) && LostTask(s, s', nr) && NoTablesFrom(s, nr, 0)
    ensures TablesApart(s') && TablesOwned(s') && TasksApart(s')
  {
    hide HasTable, Table, TaskFrame;
    forall d | TASK_DIRS <= d < ENTRIES && HasTable(s', d)
      ensures d % TASK_DIRS < DATA_DIRS && TaskFrame(s', d / TASK_DIRS) != 0
    {
      assert d / TASK_DIRS == nr ==> TASK_DIRS * nr <= d < TASK_DIRS * (nr + 1);
    }
  }

  lemma LostTaskUses(s: State, s': State, nr: int, g: int)
    requires LostTask(s, s', nr) && g != 0
    ensures TableUses(s', g) == TableUses(s, g)
    ensures TaskUses(s', g) == if g == TaskFrame(s, nr) then TaskUses(s, g) - {nr} else TaskUses(s, g)
    ensures g == TaskFrame(s, nr) ==> nr in TaskUses(s, g)
  {
    hide HasTable, Table, TaskFrame;
  }

  lemma LostTaskCounts(s: State, s': State, nr: int)
    requires Conserved(s) && WritesGuarded(s) && LostTask(s, s', nr) && SameMappings(s, s')
    requires forall f :: LOW_FRAMES <= f < FRAMES ==> Count(s', f) == if f == TaskFrame(s, nr) then Count(s, f) - 1 else Count(s, f)
    ensures Conserved(s') && WritesGuarded(s')
  {
    SameMappers(s, s');
    hide Mappers, HasTable, Table, TaskFrame, Maps, CanWrite, Count, TableUses, TaskUses;
    forall g | LOW_FRAMES <= g < FRAMES ensures Count(s', g) == References(s', g) {
      LostTaskUses(s, s', nr, g);
      assert Count(s, g) == References(s, g);
    }
    forall g | g != 0 ensures (IsTable(s', g) ==> IsTable(s, g)) && (IsTask(s', g) ==> IsTask(s, g)) {
      LostTaskUses(s, s', nr, g);
    }
  }

  /** Two states with the same structures and mappings have the same `mem_map`. */
  lemma CountsDetermined(s: State, s': State)
    requires Shape(s) && Shape(s') && Conserved(s) && Conserved(s')
    requires s'.task == s.task && s'.start == s.start && s'.high == s.high
    requires forall d :: HasTable(s', d) == HasTable(s, d)
    requires forall d :: HasTable(s', d) ==> Table(s', d) == Table(s, d)
    requires forall d, i, f :: Maps(s', d, i, f) <==> Maps(s, d, i, f)
    ensures s'.memMap == s.memMap
  {
    hide Maps, HasTable, Table;
    forall k | 0 <= k < PAGING_PAGES ensures s'.memMap[k] == s.memMap[k] {
      var f := LOW_FRAMES + k;
      assert Count(s, f) == References(s, f) && Count(s', f) == References(s', f);
      assert Mappers(s', f) == Mappers(s, f);
      assert TableUses(s', f) == TableUses(s, f);
      assert TaskUses(s', f) == TaskUses(s, f);
    }
  }

  /** A failed fork gives back exactly what it took, from whichever directory entry it failed at. */
  lemma ForkRollback(s: State, parent: int, nr: int, pcb: seq<int>, dirs: int)
    requires Inv(s) && CanFork(s, parent, nr, pcb, dirs)
    requires !Fork(s, parent, nr, pcb, dirs).1
    ensures var s' := Fork(s, parent, nr, pcb, dirs).0;
      && Inv(s') && s'.memMap == s.memMap && s'.task == s.task
      && (forall d :: HasTable(s', d) == HasTable(s, d))
      && (forall d :: HasTable(s', d) ==> Table(s', d) == Table(s, d))
      && (forall d, i, f :: Maps(s', d, i, f) <==> Maps(s, d, i, f))
      && (forall d, i :: CanWrite(s', d, i) ==> CanWrite(s, d, i))
  {
    if FreeFrame(s) != 0 {
      CopiedKeeps(s, parent, nr, pcb, dirs);
      var (copied, ok) := Copied(s, parent, nr, pcb, dirs);
      var dropped := DropTables(copied, TASK_DIRS * nr, dirs);
      var s' := DropTask(dropped, nr);
      assert Fork(s, parent, nr, pcb, dirs) == (s', false);
      EmptySlot(s, nr);
      FreeFrameUnused(s);
      RollbackRestores(s, copied, nr, FreeFrame(s), dirs);
    }
  }

  lemma RollbackRestores(s: State, copied: State, nr: int, f: int, dirs: int)
    requires dirs == DATA_DIRS && Inv(s) && Inv(copied) && Outside(s, copied, nr) && 1 <= nr < NR_TASKS
    requires TaskFrame(s, nr) == 0 && f != 0 && copied.task == s.task[nr := f]
    ensures var s' := DropTask(DropTables(copied, TASK_DIRS * nr, dirs), nr);
      && Inv(s') && s'.memMap == s.memMap && s'.task == s.task
      && (forall d :: HasTable(s', d) == HasTable(s, d))
      && (forall d :: HasTable(s', d) ==> Table(s', d) == Table(s, d))
      && (forall d, i, f :: Maps(s', d, i, f) <==> Maps(s, d, i, f))
      && (forall d, i :: CanWrite(s', d, i) ==> CanWrite(s, d, i))
  {
    EmptySlot(s, nr);
    DropTablesKeeps(copied, TASK_DIRS * nr, dirs);
    var dropped := DropTables(copied, TASK_DIRS * nr, dirs);
    WindowOwned(copied, nr);
    assert TaskFrame(dropped, nr) == f;
    DropTaskEffect(dropped, nr);
    DropTaskKeeps(dropped, nr);
    var s' := DropTask(dropped, nr);
    hide DropTask, DropTables, Maps, CanWrite, HasTable, Table;
    forall d ensures HasTable(s', d) == HasTable(s, d) {
      assert HasTable(s', d) == HasTable(dropped, d);
    }
    CountsDetermined(s, s');
  }

  /** Outside the first four entries of a window there is nothing. */
  lemma WindowOwned(s: State, nr: int)
    requires Inv(s) && 1 <= nr < NR_TASKS
    ensures forall d :: TASK_DIRS * nr + DATA_DIRS <= d < TASK_DIRS * (nr + 1) ==> !HasTable(s, d)
    ensures forall d, i, f :: TASK_DIRS * nr + DATA_DIRS <= d < TASK_DIRS * (nr + 1) ==> !Maps(s, d, i, f)
  {
    forall d | TASK_DIRS * nr + DATA_DIRS <= d < TASK_DIRS * (nr + 1) ensures !HasTable(s, d) {
      assert d % TASK_DIRS >= DATA_DIRS;
    }
  }
}
