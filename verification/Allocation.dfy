/** Frames that become page tables or task structures, and their release. */
module Allocation {
  import opened Kernel
  import opened PageTables
  import opened Conservation

  /** The mappings of every task stay as they are. */
  ghost predicate SameMappings(s: State, s': State) {
    && (forall d, i, f :: Maps(s', d, i, f) <==> Maps(s, d, i, f))
    && (forall d, i :: CanWrite(s', d, i) == CanWrite(s, d, i))
  }

  lemma SameMappers(s: State, s': State)
    requires SameMappings(s, s')
    ensures forall f :: Mappers(s', f) == Mappers(s, f)
    ensures Identity(s) ==> Identity(s')
    ensures InMemory(s) ==> InMemory(s')
    ensures MapsOnce(s) ==> MapsOnce(s')
  {
    hide Maps;
  }

  /** Directory entry d now names table frame f; the others are untouched. */
  ghost predicate NewTable(s: State, s': State, d: int, f: int) {
    && s'.task == s.task && s'.start == s.start && s'.high == s.high
    && forall e :: HasTable(s', e) == (e == d || HasTable(s, e)) && Table(s', e) == if e == d then f else Table(s, e)
  }

  ghost predicate CanAddTable(s: State, d: int) {
    && TASK_DIRS <= d < ENTRIES && d % TASK_DIRS < DATA_DIRS && TaskFrame(s, d / TASK_DIRS) != 0
    && !HasTable(s, d)
  }

  lemma AddTableEffect(s: State, d: int)
    requires Inv(s) && FreeFrame(s) != 0 && TASK_DIRS <= d < ENTRIES && !HasTable(s, d)
    ensures var f := FreeFrame(s);
      var s' := AddTable(s, d, f);
      && Shape(s') && NewTable(s, s', d, f)
      && (forall g :: g != 0 && g != f ==> Page(s', g) == Page(s, g))
      && (forall g :: Count(s', g) == if g == f then 1 else Count(s, g))
      && (forall j :: IsSlot(d, j) ==> Entry(s', d, j) == 0)
      && (forall e, j :: e != d && HasTable(s, e) && IsSlot(e, j) ==> Entry(s', e, j) == Entry(s, e, j))
  {
    var f := FreeFrame(s);
    FreeFrameUnused(s);
    UnusedMeans(s, f);
  }

  lemma AddTableMappings(s: State, d: int)
    requires Inv(s) && FreeFrame(s) != 0 && TASK_DIRS <= d < ENTRIES && !HasTable(s, d)
    ensures SameMappings(s, AddTable(s, d, FreeFrame(s)))
  {
    var s' := AddTable(s, d, FreeFrame(s));
    AddTableEffect(s, d);
    hide Inv, AddTable, Peek, Entry, FrameOf, FreeFrame;
    forall e, i, g ensures Maps(s', e, i, g) <==> Maps(s, e, i, g) {
      assert HasTable(s', e) == (e == d || HasTable(s, e));
    }
    forall e, i ensures CanWrite(s', e, i) == CanWrite(s, e, i) {
      assert HasTable(s', e) == (e == d || HasTable(s, e));
    }
  }

  /** Frame f is in nobody's use. */
  ghost predicate Unused(s: State, f: int) {
    && LOW_FRAMES <= f < FRAMES && Count(s, f) == 0 && Unmanaged(s, f) == 0
    && Mappers(s, f) == {} && TableUses(s, f) == {} && TaskUses(s, f) == {}
  }

  lemma NewTableApart(s: State, s': State, d: int, f: int)
    requires TablesApart(s) && TablesOwned(s) && TasksApart(s)
    requires CanAddTable(s, d) && Unused(s, f) && NewTable(s, s', d, f)
    ensures TablesApart(s') && TablesOwned(s') && TasksApart(s')
  {
    UnusedMeans(s, f);
    hide Mappers, TableUses, TaskUses, HasTable, Table;
    assert forall t :: TaskFrame(s', t) == TaskFrame(s, t);
  }

  lemma NewTableUses(s: State, s': State, d: int, f: int, g: int)
    requires CanAddTable(s, d) && NewTable(s, s', d, f)
    ensures TaskUses(s', g) == TaskUses(s, g)
    ensures TableUses(s', g) == if g == f then TableUses(s, g) + {d} else TableUses(s, g)
  {
    hide HasTable, Table;
    assert forall t :: TaskFrame(s', t) == TaskFrame(s, t);
  }

  lemma NewTableCounts(s: State, s': State, d: int, f: int)
    requires Conserved(s) && WritesGuarded(s)
    requires CanAddTable(s, d) && Unused(s, f) && NewTable(s, s', d, f) && SameMappings(s, s')
    requires forall g :: Count(s', g) == if g == f then 1 else Count(s, g)
    ensures Conserved(s') && WritesGuarded(s')
  {
    UnusedMeans(s, f);
    SameMappers(s, s');
    hide Mappers, HasTable, Table, Maps, CanWrite, Count, TableUses, TaskUses;
    forall g | LOW_FRAMES <= g < FRAMES ensures Count(s', g) == References(s', g) {
      NewTableUses(s, s', d, f, g);
      assert Count(s, g) == References(s, g);
    }
    forall g ensures g != f ==> IsTable(s', g) == IsTable(s, g) && IsTask(s', g) == IsTask(s, g) {
      NewTableUses(s, s', d, f, g);
    }
  }

  lemma AddTableKeeps(s: State, d: int)
    requires Inv(s) && FreeFrame(s) != 0 && CanAddTable(s, d)
    ensures Inv(AddTable(s, d, FreeFrame(s)))
  {
    FreeFrameUnused(s);
    AddTableEffect(s, d);
    AddTableMappings(s, d);
    hide AddTable, FreeFrame;
    var s' := AddTable(s, d, FreeFrame(s));
    SameMappers(s, s');
    NewTableApart(s, s', d, FreeFrame(s));
    NewTableCounts(s, s', d, FreeFrame(s));
  }

  // ---------- a task structure ----------

  /** Slot nr now holds frame f; directory and mappings are untouched. */
  ghost predicate NewTask(s: State, s': State, nr: int, f: int) {
    && s'.start == s.start && s'.high == s.high
    && (forall d :: HasTable(s', d) == HasTable(s, d) && Table(s', d) == Table(s, d))
    && (forall t :: TaskFrame(s', t) == if t == nr then f else TaskFrame(s, t))
  }

  ghost predicate CanAddTask(s: State, nr: int) {
    1 <= nr < NR_TASKS && TaskFrame(s, nr) == 0
  }

  lemma AddTaskEffect(s: State, nr: int, pcb: seq<int>)
    requires Inv(s) && FreeFrame(s) != 0 && 1 <= nr < NR_TASKS && |pcb| == ENTRIES
    ensures var f := FreeFrame(s);
      var s' := AddTask(s, nr, f, pcb);
      && Shape(s') && NewTask(s, s', nr, f) && SameMappings(s, s')
      && (forall g :: g != f ==> Page(s', g) == Page(s, g)) && Page(s', f) == pcb
      && (forall g :: Count(s', g) == if g == f then 1 else Count(s, g))
      && (forall d, j :: HasTable(s, d) && IsSlot(d, j) ==> Entry(s', d, j) == Entry(s, d, j))
  {
    var f := FreeFrame(s);
    FreeFrameUnused(s);
    UnusedMeans(s, f);
    var s' := AddTask(s, nr, f, pcb);
    assert forall d :: Dir(s', d) == Dir(s, d);
    assert forall d, j :: HasTable(s, d) && IsSlot(d, j) ==> Entry(s', d, j) == Entry(s, d, j);
    hide Present, FrameOf, Writable;
  }

  lemma NewTaskApart(s: State, s': State, nr: int, f: int)
    requires TablesApart(s) && TablesOwned(s) && TasksApart(s)
    requires CanAddTask(s, nr) && Unused(s, f) && NewTask(s, s', nr, f)
    ensures TablesApart(s') && TablesOwned(s') && TasksApart(s')
  {
    UnusedMeans(s, f);
    hide Mappers, TableUses, TaskUses, HasTable, Table, TaskFrame;
  }

  lemma NewTaskUses(s: State, s': State, nr: int, f: int, g: int)
    requires CanAddTask(s, nr) && NewTask(s, s', nr, f) && g != 0
    ensures TableUses(s', g) == TableUses(s, g)
    ensures TaskUses(s', g) == if g == f then TaskUses(s, g) + {nr} else TaskUses(s, g)
  {
    hide HasTable, Table, TaskFrame;
  }

  lemma NewTaskCounts(s: State, s': State, nr: int, f: int)
    requires Conserved(s) && WritesGuarded(s)
    requires CanAddTask(s, nr) && Unused(s, f) && NewTask(s, s', nr, f) && SameMappings(s, s')
    requires forall g :: Count(s', g) == if g == f then 1 else Count(s, g)
    ensures Conserved(s') && WritesGuarded(s')
  {
    UnusedMeans(s, f);
    SameMappers(s, s');
    hide Mappers, HasTable, Table, TaskFrame, Maps, CanWrite, Count, TableUses, TaskUses;
    forall g | LOW_FRAMES <= g < FRAMES ensures Count(s', g) == References(s', g) {
      NewTaskUses(s, s', nr, f, g);
      assert Count(s, g) == References(s, g);
    }
    forall g | g != 0 && g != f ensures IsTable(s', g) == IsTable(s, g) && IsTask(s', g) == IsTask(s, g) {
      NewTaskUses(s, s', nr, f, g);
    }
  }

  lemma AddTaskKeeps(s: State, nr: int, pcb: seq<int>)
    requires Inv(s) && FreeFrame(s) != 0 && CanAddTask(s, nr) && |pcb| == ENTRIES
    ensures Inv(AddTask(s, nr, FreeFrame(s), pcb))
  {
    FreeFrameUnused(s);
    AddTaskEffect(s, nr, pcb);
    hide AddTask, FreeFrame;
    var s' := AddTask(s, nr, FreeFrame(s), pcb);
    SameMappers(s, s');
    NewTaskApart(s, s', nr, FreeFrame(s));
    NewTaskCounts(s, s', nr, FreeFrame(s));
  }
}
