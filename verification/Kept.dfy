/** What every fork and every fault leaves as it was, besides the invariant: write permission to the low pages,
    the words of the task structures, and the right of user mode to use what it has. */
module Kept {
  import opened Kernel
  import opened PageTables
  import opened Conservation
  import opened Allocation
  import opened Sharing
  import opened Release
  import opened Forking
  import opened Faults

  /** Every page that is present may be used in user mode, and no directory entry forbids writing. */
  ghost predicate UserSpace(s: State) {
    && (forall d :: HasTable(s, d) ==> UserBit(Dir(s, d)) && Writable(Dir(s, d)))
    && (forall d, i :: Mapped(s, d, i) ==> UserBit(Entry(s, d, i)))
  }

  /** What the processor asks for in user mode, of both entries. */
  ghost predicate UserCanRead(s: State, d: int, i: int) {
    Mapped(s, d, i) && UserBit(Dir(s, d)) && UserBit(Entry(s, d, i))
  }

  ghost predicate UserCanWrite(s: State, d: int, i: int) {
    UserCanRead(s, d, i) && Writable(Dir(s, d)) && Writable(Entry(s, d, i))
  }

  /** The structure of every existing task stays in its frame, with its words. */
  ghost predicate KeepsTasks(s: State, s': State) {
    forall t :: 1 <= t < NR_TASKS && TaskFrame(s, t) != 0 ==>
      TaskFrame(s', t) == TaskFrame(s, t) && Page(s', TaskFrame(s, t)) == Page(s, TaskFrame(s, t))
  }

  /** Pages below LOW_MEM that are writable through task 0's first table stay so. */
  ghost predicate KeepsLow(s: State, s': State) {
    forall i :: 0 <= i < LOW_FRAMES && CanWrite(s, 0, i) ==> CanWrite(s', 0, i)
  }

  ghost predicate Keeps(s: State, s': State) {
    KeepsLow(s, s') && KeepsTasks(s, s') && (UserSpace(s) ==> UserSpace(s'))
  }

  lemma KeepsTrans(a: State, b: State, c: State)
    requires Keeps(a, b) && Keeps(b, c)
    ensures Keeps(a, c)
  {
    hide CanWrite, UserSpace, TaskFrame, Page;
  }

  lemma KeepsSelf(s: State)
    ensures Keeps(s, s)
  {
  }

  lemma SameDir(s: State, s': State)
    requires Page(s', 0) == Page(s, 0) && Shape(s) && Shape(s')
    ensures forall d :: Dir(s', d) == Dir(s, d)
  {
  }

  /** Same directory, same words in its tables. */
  lemma SameWords(s: State, s': State)
    requires forall d :: Dir(s', d) == Dir(s, d)
    requires forall d, i :: HasTable(s, d) && IsSlot(d, i) ==> Entry(s', d, i) == Entry(s, d, i)
    ensures (UserSpace(s) ==> UserSpace(s')) && KeepsLow(s, s')
  {
    hide Dir, Entry, Present, Writable, UserBit;
    assert forall d :: HasTable(s', d) == HasTable(s, d);
  }

  /** The frame of a structure is no page table. */
  lemma StructureIsNoTable(s: State, t: int, d: int)
    requires Inv(s) && 1 <= t < NR_TASKS && TaskFrame(s, t) != 0 && HasTable(s, d)
    ensures LOW_FRAMES <= TaskFrame(s, t) < FRAMES && TaskFrame(s, t) != Table(s, d)
  {
  }

  // ---------- a new task, a new table ----------

  lemma AddTaskKept(s: State, nr: int, pcb: seq<int>)
    requires Inv(s) && FreeFrame(s) != 0 && CanAddTask(s, nr) && |pcb| == ENTRIES
    ensures var s' := AddTask(s, nr, FreeFrame(s), pcb);
      Keeps(s, s') && TaskFrame(s', nr) == FreeFrame(s) && Page(s', FreeFrame(s)) == pcb
  {
    var f := FreeFrame(s);
    var s' := AddTask(s, nr, f, pcb);
    FreeFrameUnused(s);
    UnusedMeans(s, f);
    AddTaskEffect(s, nr, pcb);
    SameDir(s, s');
    hide AddTask, FreeFrame, Inv, Page, Dir, Entry, CanWrite, Peek;
    SameWords(s, s');
    hide TaskFrame;
  }

  lemma AddTableDir(s: State, d: int)
    requires Inv(s) && FreeFrame(s) != 0 && TASK_DIRS <= d < ENTRIES
    ensures forall e :: Dir(AddTable(s, d, FreeFrame(s)), e) == if e == d then UserEntry(FreeFrame(s)) else Dir(s, e)
  {
    FreeFrameUnused(s);
    hide UserEntry, FreeFrame;
  }

  lemma AddTableKept(s: State, d: int)
    requires Inv(s) && FreeFrame(s) != 0 && TASK_DIRS <= d < ENTRIES && !HasTable(s, d)
    ensures Keeps(s, AddTable(s, d, FreeFrame(s)))
  {
    var f := FreeFrame(s);
    var s' := AddTable(s, d, f);
    FreeFrameUnused(s);
    UnusedMeans(s, f);
    AddTableEffect(s, d);
    AddTableMappings(s, d);
    AddTableDir(s, d);
    assert forall t :: TaskFrame(s', t) == TaskFrame(s, t);
    assert !Present(0);
    assert forall t :: 1 <= t < NR_TASKS && TaskFrame(s, t) != 0 ==> LOW_FRAMES <= TaskFrame(s, t);
    hide AddTable, FreeFrame, Inv, Page, Dir, Peek, UserEntry, Present, Writable, UserBit, FrameOf, TaskFrame;
    forall e, i | UserSpace(s) && Mapped(s', e, i) ensures UserBit(Entry(s', e, i)) {
      assert HasTable(s', e) == (e == d || HasTable(s, e));
      if e != d {
        assert Mapped(s, e, i);
      }
    }
    hide CanWrite, Mapped, Entry;
  }

  // ---------- sharing ----------

  lemma ShareEntryDir(s: State, from: int, to: int, i: int)
    requires Shape(s) && TablesApart(s) && TwoTables(s, from, to) && Mapped(s, from, i) && IsSlot(to, i)
    ensures forall d :: Dir(ShareEntry(s, Table(s, from), Table(s, to), i), d) == Dir(s, d)
  {
    var s' := ShareEntry(s, Table(s, from), Table(s, to), i);
    ShareEntryEffect(s, from, to, i);
    assert Table(s, from) != 0 && Table(s, to) != 0;
    hide ShareEntry;
    SameDir(s, s');
  }

  lemma ShareEntryUser(s: State, from: int, to: int, i: int)
    requires Shape(s) && TablesApart(s) && TwoTables(s, from, to) && Mapped(s, from, i) && IsSlot(to, i) && UserSpace(s)
    ensures UserSpace(ShareEntry(s, Table(s, from), Table(s, to), i))
  {
    var s' := ShareEntry(s, Table(s, from), Table(s, to), i);
    ShareEntryEffect(s, from, to, i);
    ShareEntryDir(s, from, to, i);
    hide ShareEntry, Peek, WriteProtect, FrameOf, Writable, Dir, UserBit, Table;
    forall d, j | Mapped(s', d, j) ensures UserBit(Entry(s', d, j)) {
      assert HasTable(s', d) == HasTable(s, d);
      if Entry(s', d, j) != WriteProtect(Entry(s, from, i)) {
        assert Mapped(s, d, j);
      }
    }
  }

  lemma ShareEntryLow(s: State, from: int, to: int, i: int)
    requires Inv(s) && TwoTables(s, from, to) && TASK_DIRS <= to && Mapped(s, from, i) && IsSlot(to, i)
    ensures KeepsLow(s, ShareEntry(s, Table(s, from), Table(s, to), i))
  {
    var s' := ShareEntry(s, Table(s, from), Table(s, to), i);
    ShareEntryEffect(s, from, to, i);
    forall j | 0 <= j < LOW_FRAMES && CanWrite(s, 0, j) ensures CanWrite(s', 0, j) {
      assert Maps(s, 0, j, ENTRIES * 0 + j);
      assert Entry(s', 0, j) == Entry(s, 0, j);
    }
  }

  lemma ShareEntryTasks(s: State, from: int, to: int, i: int)
    requires Inv(s) && TwoTables(s, from, to) && Mapped(s, from, i) && IsSlot(to, i)
    ensures KeepsTasks(s, ShareEntry(s, Table(s, from), Table(s, to), i))
  {
    ShareEntryEffect(s, from, to, i);
    hide ShareEntry, Page;
    forall t | 1 <= t < NR_TASKS && TaskFrame(s, t) != 0 ensures TaskFrame(s, t) != Table(s, from) && TaskFrame(s, t) != Table(s, to) {
      StructureIsNoTable(s, t, from);
      StructureIsNoTable(s, t, to);
    }
  }

  lemma ShareEntryKept(s: State, parent: int, child: int, k: int, from: int, to: int, i: int)
    requires Copying(s, parent, child) && BothTables(s, parent, child, k) && 0 <= i < ENTRIES
    requires from == TASK_DIRS * parent + k && to == TASK_DIRS * child + k
    ensures Keeps(s, ShareEntry(s, Table(s, from), Table(s, to), i))
  {
    if Mapped(s, from, i) {
      ShareReady(s, parent, child, k, i);
      hide ShareEntry, Inv, KeepsLow, KeepsTasks, UserSpace, Peek, FrameOf, Entry;
      ShareEntryLow(s, from, to, i);
      ShareEntryTasks(s, from, to, i);
      if UserSpace(s) {
        ShareEntryUser(s, from, to, i);
      }
    } else {
      assert ShareEntry(s, Table(s, from), Table(s, to), i) == s;
      hide Keeps;
      KeepsSelf(s);
    }
  }

  lemma {:induction false} ShareEntriesKept(s: State, parent: int, child: int, k: int, from: int, to: int, i: int, n: int)
    requires Copying(s, parent, child) && BothTables(s, parent, child, k)
    requires from == TASK_DIRS * parent + k && to == TASK_DIRS * child + k
    requires 0 <= i && n <= ENTRIES && EmptyFrom(s, to, i)
    ensures Keeps(s, ShareEntries(s, Table(s, from), Table(s, to), i, n))
    decreases n - i
  {
    hide Copying, BothTables, EmptyFrom, Keeps, ShareEntry, ShareEntries, Table, SameDirectory;
    ShareEntriesOnce(s, Table(s, from), Table(s, to), i, n);
    if i < n {
      var next := ShareEntry(s, Table(s, from), Table(s, to), i);
      ShareEntryKept(s, parent, child, k, from, to, i);
      ShareEntryNext(s, parent, child, k, i);
      ShareEntriesKept(next, parent, child, k, from, to, i + 1, n);
      KeepsTrans(s, next, ShareEntries(next, Table(s, from), Table(s, to), i + 1, n));
    } else {
      KeepsSelf(s);
    }
  }

  lemma NextCopyKept(s: State, parent: int, child: int, k: int, from: int, to: int, limit: int)
    requires Copying(s, parent, child) && NoTablesFrom(s, child, k) && 0 <= k < DATA_DIRS && limit <= ENTRIES
    requires from == TASK_DIRS * parent + k && to == TASK_DIRS * child + k
    requires HasTable(s, from) ==> FreeFrame(s) != 0
    ensures Keeps(s, NextCopy(s, from, to, limit))
  {
    AddTableReady(s, parent, child, k);
    hide Copying, BothTables, EmptyFrom, Keeps, ShareEntries, Table, HasTable, NoTablesFrom, AddTable, FreeFrame, Outside, Inv, Mirror, CanAddTable;
    if HasTable(s, from) {
      var added := AddTable(s, to, FreeFrame(s));
      TableAdded(s, parent, child, k);
      AddTableKept(s, to);
      ShareEntriesKept(added, parent, child, k, from, to, 0, limit);
      KeepsTrans(s, added, ShareEntries(added, Table(added, from), Table(added, to), 0, limit));
    } else {
      KeepsSelf(s);
    }
  }

  lemma {:induction false} CopyTablesKept(s: State, parent: int, child: int, k: int, from: int, to: int, n: int, limit: int)
    requires Copying(s, parent, child) && NoTablesFrom(s, child, k)
    requires from == TASK_DIRS * parent + k && to == TASK_DIRS * child + k
    requires 0 <= k && k + n <= DATA_DIRS && limit <= ENTRIES
    ensures Keeps(s, CopyTables(s, from, to, n, limit).0)
    decreases n
  {
    hide Copying, Keeps, CopyTables, NextCopy, HasTable, NoTablesFrom, FreeFrame;
    KeepsSelf(s);
    if n > 0 {
      CopyTablesOnce(s, from, to, n, limit);
      if !HasTable(s, from) || FreeFrame(s) != 0 {
        var next := NextCopy(s, from, to, limit);
        NextCopyKept(s, parent, child, k, from, to, limit);
        NextTableKeeps(s, parent, child, k, limit);
        CopyTablesKept(next, parent, child, k + 1, from + 1, to + 1, n - 1, limit);
        KeepsTrans(s, next, CopyTables(next, from + 1, to + 1, n - 1, limit).0);
      }
    } else {
      NoneCopied(s, from, to, n, limit);
    }
  }

  lemma NoneCopied(s: State, from: int, to: int, n: int, limit: int)
    requires n <= 0
    ensures CopyTables(s, from, to, n, limit) == (s, true)
  {
  }

  // ---------- the error path ----------

  lemma {:induction false} DropEntriesPages(s: State, t: int, i: int)
    ensures forall f :: f != t ==> Page(DropEntries(s, t, i), f) == Page(s, f)
    ensures DropEntries(s, t, i).task == s.task && |DropEntries(s, t, i).ram| == |s.ram|
    decreases ENTRIES - i
  {
    if i < ENTRIES {
      DropEntryPages(s, t, i);
      hide DropEntry, Page;
      DropEntriesPages(DropEntry(s, t, i), t, i + 1);
    }
  }

  lemma DropEntryPages(s: State, t: int, i: int)
    ensures forall f :: f != t ==> Page(DropEntry(s, t, i), f) == Page(s, f)
    ensures DropEntry(s, t, i).task == s.task && |DropEntry(s, t, i).ram| == |s.ram|
  {
    hide Present, FrameOf, Peek, Count;
  }

  lemma DropTableDir(s: State, d: int)
    requires Table(s, d) != 0
    ensures forall e :: e != d ==> Dir(DropTable(s, d), e) == Dir(s, e)
  {
    var cleared := DropEntries(s, Table(s, d), 0);
    DropEntriesPages(s, Table(s, d), 0);
    assert Page(cleared, 0) == Page(s, 0) && |cleared.ram| == |s.ram|;
    hide DropEntries;
    assert forall e :: Dir(cleared, e) == Dir(s, e);
    hide Present, FrameOf, Count;
  }

  lemma {:induction false} DropTablesDir(s: State, d: int, n: int)
    requires Inv(s) && TASK_DIRS <= d && 0 <= n && d + n <= ENTRIES
    ensures forall e :: !(d <= e < d + n) ==> Dir(DropTables(s, d, n), e) == Dir(s, e)
    decreases n
  {
    hide DropTable, Inv, Dir, Present, Removed;
    if n > 0 {
      if HasTable(s, d) {
        TableFrame(s, d);
        DropTableKeeps(s, d);
        DropTableDir(s, d);
        DropTablesDir(DropTable(s, d), d + 1, n - 1);
      } else {
        DropTablesDir(s, d + 1, n - 1);
      }
    }
  }

  lemma TableFrame(s: State, d: int)
    requires Inv(s) && HasTable(s, d)
    ensures Table(s, d) != 0
  {
  }

  lemma DroppedUser(s: State, d: int, n: int)
    requires Inv(s) && TASK_DIRS <= d && 0 <= n && d + n <= ENTRIES && UserSpace(s)
    ensures UserSpace(DropTables(s, d, n))
  {
    var s' := DropTables(s, d, n);
    DropTablesKeeps(s, d, n);
    DropTablesDir(s, d, n);
    forall e, i | Mapped(s', e, i) ensures UserBit(Entry(s', e, i)) {
      assert HasTable(s', e) && !(d <= e < d + n) && Table(s', e) == Table(s, e);
      OtherTable(s, d, n, e);
      assert Page(s', Table(s, e)) == Page(s, Table(s, e));
      assert Entry(s', e, i) == Entry(s, e, i);
      assert Mapped(s, e, i);
    }
    hide DropTables, Entry, Mapped, Inv;
  }

  lemma OtherTable(s: State, d: int, n: int, e: int)
    requires Inv(s) && HasTable(s, e) && TASK_DIRS <= d && !(d <= e < d + n)
    ensures Table(s, e) != 0 && !(exists x :: d <= x < d + n && HasTable(s, x) && Table(s, x) == Table(s, e))
  {
  }

  lemma DroppedTasks(s: State, d: int, n: int)
    requires Inv(s) && TASK_DIRS <= d && 0 <= n && d + n <= ENTRIES
    ensures KeepsTasks(s, DropTables(s, d, n)) && KeepsTables(s, DropTables(s, d, n), d, n)
  {
    DropTablesKeeps(s, d, n);
    hide DropTables, Page;
    forall t | 1 <= t < NR_TASKS && TaskFrame(s, t) != 0
      ensures TaskFrame(s, t) != 0 && !(exists x :: d <= x < d + n && HasTable(s, x) && Table(s, x) == TaskFrame(s, t))
    {
      forall x | d <= x < d + n && HasTable(s, x) ensures Table(s, x) != TaskFrame(s, t) {
        StructureIsNoTable(s, t, x);
      }
    }
  }

  ghost predicate KeepsTables(s: State, s': State, d: int, n: int) {
    forall e, i :: CanWrite(s', e, i) <==> CanWrite(s, e, i) && !(d <= e < d + n)
  }

  lemma DropTablesKept(s: State, nr: int, dirs: int)
    requires Inv(s) && 1 <= nr < NR_TASKS && dirs == DATA_DIRS
    ensures Keeps(s, DropTables(s, TASK_DIRS * nr, dirs))
  {
    hide DropTables, Inv, KeepsTasks, UserSpace, CanWrite;
    DroppedTasks(s, TASK_DIRS * nr, dirs);
    if UserSpace(s) {
      DroppedUser(s, TASK_DIRS * nr, dirs);
    }
  }

  /** Only the task that goes loses its structure. */
  lemma DropTaskKept(s: State, base: State, nr: int)
    requires Keeps(base, s) && TaskFrame(base, nr) == 0 && 0 <= nr < |s.task|
    ensures Keeps(base, DropTask(s, nr))
  {
    var s' := DropTask(s, nr);
    assert s'.ram == s.ram && forall t :: t != nr ==> TaskFrame(s', t) == TaskFrame(s, t);
    assert forall d :: Dir(s', d) == Dir(s, d);
    assert forall d, i :: Entry(s', d, i) == Entry(s, d, i);
    hide DropTask;
    SameWords(s, s');
    hide UserSpace, CanWrite, TaskFrame, Dir, Entry;
    assert forall f :: Page(s', f) == Page(s, f);
  }

  // ---------- the whole fork ----------

  /** The structure of the new task holds what it was given. */
  ghost predicate HoldsStructure(s: State, nr: int, pcb: seq<int>) {
    TaskFrame(s, nr) != 0 && Page(s, TaskFrame(s, nr)) == pcb
  }

  lemma StructureKept(s: State, s': State, nr: int, pcb: seq<int>)
    requires 1 <= nr < NR_TASKS && HoldsStructure(s, nr, pcb) && Keeps(s, s')
    ensures HoldsStructure(s', nr, pcb)
  {
    hide UserSpace;
  }

  lemma CopiedKept(s: State, parent: int, nr: int, pcb: seq<int>, dirs: int)
    requires Inv(s) && CanFork(s, parent, nr, pcb, dirs) && FreeFrame(s) != 0
    ensures var s' := Copied(s, parent, nr, pcb, dirs).0;
      Keeps(s, s') && HoldsStructure(s', nr, pcb)
  {
    var started := AddTask(s, nr, FreeFrame(s), pcb);
    assert dirs == DATA_DIRS && EntryLimit(parent) <= ENTRIES && CanAddTask(s, nr) && |pcb| == ENTRIES && 1 <= nr < NR_TASKS;
    hide Inv, CanFork, Keeps, CopyTables, AddTask, FreeFrame, Copying, NoTablesFrom, Outside, EntryLimit, CanAddTask, NewTask, TaskFrame, Page;
    AddTaskStarts(s, parent, nr, pcb, dirs);
    AddTaskKept(s, nr, pcb);
    CopyTablesKept(started, parent, nr, 0, TASK_DIRS * parent, TASK_DIRS * nr, dirs, EntryLimit(parent));
    KeepsTrans(s, started, Copied(s, parent, nr, pcb, dirs).0);
    StructureKept(started, Copied(s, parent, nr, pcb, dirs).0, nr, pcb);
  }

  lemma CopyingInvariant(s: State, parent: int, child: int)
    requires Copying(s, parent, child)
    ensures Inv(s) && |s.task| == NR_TASKS
  {
  }

  /** Every fork keeps the structures of the others, and a successful one, by whichever task, leaves the new
      structure in the child's frame. */
  lemma ForkKept(s: State, parent: int, nr: int, pcb: seq<int>, dirs: int)
    requires Inv(s) && CanFork(s, parent, nr, pcb, dirs)
    ensures var (s', ok) := Fork(s, parent, nr, pcb, dirs);
      Keeps(s, s') && (ok ==> HoldsStructure(s', nr, pcb))
  {
    KeepsSelf(s);
    if FreeFrame(s) != 0 {
      var copied := Copied(s, parent, nr, pcb, dirs);
      var dropped := DropTables(copied.0, TASK_DIRS * nr, dirs);
      assert Fork(s, parent, nr, pcb, dirs) == if copied.1 then copied else (DropTask(dropped, nr), false);
      assert 1 <= nr < NR_TASKS && dirs == DATA_DIRS && TaskFrame(s, nr) == 0;
      hide Copied, Fork, Keeps, DropTask, DropTables, Copying, Outside, FreeFrame, CanFork, Inv, HoldsStructure, TaskFrame;
      CopiedKeeps(s, parent, nr, pcb, dirs);
      CopiedKept(s, parent, nr, pcb, dirs);
      CopyingInvariant(copied.0, parent, nr);
      if !copied.1 {
        DropTablesKept(copied.0, nr, dirs);
        KeepsTrans(s, copied.0, dropped);
        DroppedSlots(copied.0, nr, dirs);
        DropTaskKept(dropped, s, nr);
      }
    }
  }

  lemma DroppedSlots(s: State, nr: int, dirs: int)
    requires Inv(s) && 1 <= nr < NR_TASKS && dirs == DATA_DIRS
    ensures |DropTables(s, TASK_DIRS * nr, dirs).task| == NR_TASKS
  {
    DropTablesKeeps(s, TASK_DIRS * nr, dirs);
  }

  // ---------- write faults ----------

  lemma InPlaceKept(s: State, d: int, i: int)
    requires Inv(s) && d >= TASK_DIRS && Mapped(s, d, i) && !NeedsCopy(s, d, i)
    ensures Keeps(s, UnWriteProtect(s, Table(s, d), i))
  {
    var s' := UnWriteProtect(s, Table(s, d), i);
    PokeEntry(s, d, i, WriteEnable(Entry(s, d, i)));
    assert s' == Poke(s, Table(s, d), i, WriteEnable(Entry(s, d, i)));
    assert Table(s, d) != 0;
    hide UnWriteProtect, Poke, WriteEnable, Peek, FrameOf;
    SameDir(s, s');
    EntryKept(s, s', d, i, WriteEnable(Entry(s, d, i)), Table(s, d), Table(s, d));
  }

  /** One entry has changed, to one that user mode may use; pages have changed in two frames. */
  lemma EntryKept(s: State, s': State, d: int, i: int, v: int, t: int, f: int)
    requires Inv(s) && d >= TASK_DIRS && Mapped(s, d, i) && s'.task == s.task
    requires forall e :: Dir(s', e) == Dir(s, e)
    requires forall e, j :: IsSlot(e, j) && HasTable(s, e) ==> Entry(s', e, j) == if e == d && j == i then v else Entry(s, e, j)
    requires UserBit(Entry(s, d, i)) ==> UserBit(v)
    requires t == Table(s, d) && (f == t || TaskUses(s, f) == {})
    requires forall g :: g != t && g != f ==> Page(s', g) == Page(s, g)
    ensures Keeps(s, s')
  {
    forall x | 1 <= x < NR_TASKS && TaskFrame(s, x) != 0 ensures TaskFrame(s, x) != t && TaskFrame(s, x) != f {
      StructureIsNoTable(s, x, d);
      assert x in TaskUses(s, TaskFrame(s, x));
    }
    assert KeepsTasks(s, s');
    hide Dir, Entry, UserBit, Present, Writable, Inv, KeepsTasks, TaskUses, Page;
    assert forall e :: HasTable(s', e) == HasTable(s, e);
    forall e, j | UserSpace(s) && Mapped(s', e, j) ensures UserBit(Entry(s', e, j)) {
      assert Mapped(s, d, i);
      if e != d || j != i {
        assert Mapped(s, e, j);
      }
    }
  }

  lemma CopyKept(s: State, d: int, i: int)
    requires Inv(s) && d >= TASK_DIRS && Mapped(s, d, i) && NeedsCopy(s, d, i) && FreeFrame(s) != 0
    ensures Keeps(s, UnWriteProtect(s, Table(s, d), i))
  {
    var f := FreeFrame(s);
    var s' := UnWriteProtect(s, Table(s, d), i);
    CopyEffect(s, d, i);
    FreeFrameUnused(s);
    assert Table(s, d) != 0 && f != 0;
    hide UnWriteProtect, FreeFrame, NeedsCopy, UserEntry, Peek, FrameOf;
    SameDir(s, s');
    EntryKept(s, s', d, i, UserEntry(f), Table(s, d), f);
  }

  /** A fault for which there is a frame keeps all three. */
  lemma FaultKept(s: State, d: int, i: int)
    requires Inv(s) && d >= TASK_DIRS && Mapped(s, d, i) && (NeedsCopy(s, d, i) ==> FreeFrame(s) != 0)
    ensures Keeps(s, UnWriteProtect(s, Table(s, d), i))
  {
    hide Keeps, UnWriteProtect, NeedsCopy, FreeFrame, Inv;
    if NeedsCopy(s, d, i) {
      CopyKept(s, d, i);
    } else {
      InPlaceKept(s, d, i);
    }
  }

  /** After it user mode may write the page. */
  lemma FaultUsable(s: State, d: int, i: int)
    requires Inv(s) && UserSpace(s) && d >= TASK_DIRS && Mapped(s, d, i) && (NeedsCopy(s, d, i) ==> FreeFrame(s) != 0)
    ensures var after := UnWriteProtect(s, Table(s, d), i);
      UserCanWrite(after, d, i) && UserSpace(after)
  {
    FaultKept(s, d, i);
    if NeedsCopy(s, d, i) {
      CopyMappings(s, d, i);
    } else {
      InPlaceEffect(s, d, i);
    }
    hide UnWriteProtect, Inv, KeepsLow, KeepsTasks, NeedsCopy, Dir, Entry;
    assert CanWrite(UnWriteProtect(s, Table(s, d), i), d, i);
  }

  // ---------- the words themselves ----------

  /** In numbers: sharing takes 2 or nothing from an entry, and a fault in place adds 2 or nothing; frame,
      user bit and every bit but bit 1 stay. */
  lemma SharingIsArithmetic(s: State, from: int, to: int, i: int)
    requires Shape(s) && TablesApart(s) && TwoTables(s, from, to) && Mapped(s, from, i) && IsSlot(to, i)
    ensures var s' := ShareEntry(s, Table(s, from), Table(s, to), i);
      var e, theirs, mine := Entry(s, from, i), Entry(s', from, i), Entry(s', to, i);
      && mine % 4 < 2 && (mine == e || mine == e - 2)
      && theirs == (if e / 4096 >= 256 then mine else e)
  {
    ShareEntryEffect(s, from, to, i);
    hide ShareEntry, Peek;
  }

  lemma FaultIsArithmetic(s: State, d: int, i: int)
    requires Inv(s) && d >= TASK_DIRS && Mapped(s, d, i) && (NeedsCopy(s, d, i) ==> FreeFrame(s) != 0)
    ensures var e, e' := Entry(s, d, i), Entry(UnWriteProtect(s, Table(s, d), i), d, i);
      && e' % 4 >= 2
      && (if NeedsCopy(s, d, i) then e' == 4096 * FreeFrame(s) + 7 else e' == e || e' == e + 2)
  {
    if NeedsCopy(s, d, i) {
      CopyEffect(s, d, i);
      hide UnWriteProtect, FreeFrame, NeedsCopy, Peek, Entry;
    } else {
      PokeEntry(s, d, i, WriteEnable(Entry(s, d, i)));
      hide Peek, WriteEnable, Inv;
    }
  }
}
