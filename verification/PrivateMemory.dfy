/** The shared, copy-on-write machine behaves as if every task 1..63 had a memory of its own that
    fork copies whole and that writes to other tasks' pages do not change. */
module PrivateMemory {
  import opened Kernel
  import opened PageTables
  import opened Conservation
  import opened Allocation
  import opened Sharing
  import opened Release
  import opened Forking
  import opened Faults
  import opened Isolation

  // ---------- fork ----------

  /** The child sees its parent's memory; everyone else sees what they saw. */
  ghost predicate ForkViews(s: State, s': State, parent: int, child: int) {
    forall e, j {:trigger View(s', e, j)} :: TASK_DIRS <= e ==>
      View(s', e, j) == if e / TASK_DIRS == child then View(s, e + TASK_DIRS * (parent - child), j) else View(s, e, j)
  }

  lemma CopiedView(s: State, parent: int, nr: int, pcb: seq<int>, dirs: int)
    requires Inv(s) && Private(s) && CanFork(s, parent, nr, pcb, dirs) && FreeFrame(s) != 0 && 1 <= parent
    ensures var r := Copied(s, parent, nr, pcb, dirs);
      Private(r.0) && SameForOthers(s, r.0, nr) && (r.1 ==> ForkViews(s, r.0, parent, nr))
  {
    hide *;
    var started := AddTask(s, nr, FreeFrame(s), pcb);
    CopiedReady(s, parent, nr, pcb, dirs);
    AddTaskStarts(s, parent, nr, pcb, dirs);
    AddTaskView(s, nr, pcb);
    CopiedIs(s, parent, nr, pcb, dirs);
    CopyTablesView(started, parent, nr, 0, dirs);
    CopiedOutcome(s, started, Copied(s, parent, nr, pcb, dirs), parent, nr, dirs);
  }

  lemma CopiedReady(s: State, parent: int, nr: int, pcb: seq<int>, dirs: int)
    requires Inv(s) && CanFork(s, parent, nr, pcb, dirs) && FreeFrame(s) != 0
    ensures 0 <= parent < NR_TASKS && 1 <= nr < NR_TASKS && parent != nr && |pcb| == ENTRIES && 0 <= dirs && dirs == DATA_DIRS
    ensures CanAddTask(s, nr) && Inv(AddTask(s, nr, FreeFrame(s), pcb))
  {
    AddTaskKeeps(s, nr, pcb);
  }

  lemma CopiedIs(s: State, parent: int, nr: int, pcb: seq<int>, dirs: int)
    requires 1 <= parent
    ensures Copied(s, parent, nr, pcb, dirs) ==
      CopyTables(AddTask(s, nr, FreeFrame(s), pcb), TASK_DIRS * parent + 0, TASK_DIRS * nr + 0, dirs, ENTRIES)
  {
    hide CopyTables, AddTask, FreeFrame;
  }

  lemma CopiedOutcome(s: State, started: State, r: (State, bool), parent: int, nr: int, dirs: int)
    requires dirs == DATA_DIRS && Inv(started) && 1 <= parent < NR_TASKS && 1 <= nr < NR_TASKS && parent != nr
    requires SameViews(s, started) && CopyOutcome(started, r, parent, nr, 0, dirs)
    requires NoTablesFrom(started, nr, 0)
    ensures Private(r.0) && SameForOthers(s, r.0, nr) && (r.1 ==> ForkViews(s, r.0, parent, nr))
  {
    WindowViews(started, parent);
    WindowViews(started, nr);
    hide View, Private, Inv, HasTable;
    if r.1 {
      var s' := r.0;
      forall e, j | TASK_DIRS <= e
        ensures View(s', e, j) == if e / TASK_DIRS == nr then View(s, e + TASK_DIRS * (parent - nr), j) else View(s, e, j)
      {
        var p := e + TASK_DIRS * (parent - nr);
        if e / TASK_DIRS == nr {
          assert TASK_DIRS * nr <= e < TASK_DIRS * nr + TASK_DIRS;
          assert TASK_DIRS <= p;
          assert View(started, p, j) == View(s, p, j);
        } else {
          assert !(TASK_DIRS * nr <= e < TASK_DIRS * nr + TASK_DIRS);
        }
      }
    }
  }

  /** Beyond its first four directory entries a task sees nothing. */
  lemma WindowViews(s: State, t: int)
    requires Inv(s) && 1 <= t < NR_TASKS
    ensures forall e, j :: TASK_DIRS * t + DATA_DIRS <= e < TASK_DIRS * t + TASK_DIRS ==> View(s, e, j) == Absent
  {
    WindowOwned(s, t);
    forall e, j | TASK_DIRS * t + DATA_DIRS <= e < TASK_DIRS * t + TASK_DIRS ensures View(s, e, j) == Absent {
      NoTableNoView(s, e);
    }
  }

  // ---------- a fork that fails ----------

  lemma DropTablesView(s: State, nr: int, dirs: int)
    requires Inv(s) && Private(s) && 1 <= nr < NR_TASKS && 0 <= dirs <= DATA_DIRS
    ensures var s' := DropTables(s, TASK_DIRS * nr, dirs);
      Private(s') && SameForOthers(s, s', nr)
  {
    var s' := DropTables(s, TASK_DIRS * nr, dirs);
    DropTablesKeeps(s, TASK_DIRS * nr, dirs);
    NotInTables(s, TASK_DIRS * nr, dirs);
    hide *;
    RemovedPrivate(s, s', TASK_DIRS * nr, dirs);
    RemovedView(s, s', nr, dirs);
  }

  /** A frame that tasks map is not one of the tables that go. */
  lemma NotInTables(s: State, d: int, n: int)
    requires Private(s) && TASK_DIRS <= d && d + n <= ENTRIES
    ensures forall e, j, f :: TASK_DIRS <= e && Maps(s, e, j, f) && f >= LOW_FRAMES ==>
      !(exists t :: d <= t < d + n && HasTable(s, t) && Table(s, t) == f)
  {
    hide Maps, HasTable, Table;
    forall e, j, f, t | TASK_DIRS <= e && Maps(s, e, j, f) && f >= LOW_FRAMES && d <= t < d + n && HasTable(s, t)
      ensures Table(s, t) != f
    {
      assert t !in TableUses(s, f);
    }
  }

  lemma RemovedView(s: State, s': State, nr: int, dirs: int)
    requires Removed(s, s', TASK_DIRS * nr, dirs) && dirs <= DATA_DIRS
    requires forall f :: f != 0 && !(exists e :: TASK_DIRS * nr <= e < TASK_DIRS * nr + dirs && HasTable(s, e) && Table(s, e) == f) ==> Page(s', f) == Page(s, f)
    requires forall e, j, f :: TASK_DIRS <= e && Maps(s, e, j, f) && f >= LOW_FRAMES ==>
      !(exists t :: TASK_DIRS * nr <= t < TASK_DIRS * nr + dirs && HasTable(s, t) && Table(s, t) == f)
    ensures SameForOthers(s, s', nr)
  {
    hide View, Maps, Page, HasTable, Table;
    forall e, j | TASK_DIRS <= e && e / TASK_DIRS != nr ensures View(s', e, j) == View(s, e, j) {
      assert !(TASK_DIRS * nr <= e < TASK_DIRS * nr + dirs);
      SameView(s, s', e, j, e, j);
    }
  }

  lemma RemovedPrivate(s: State, s': State, d: int, n: int)
    requires Private(s) && Removed(s, s', d, n)
    ensures Private(s')
  {
    forall f ensures (IsTable(s', f) ==> IsTable(s, f)) && (IsTask(s', f) ==> IsTask(s, f)) {
      assert TaskUses(s', f) == TaskUses(s, f);
      assert TableUses(s', f) <= TableUses(s, f);
    }
    hide Maps, CanWrite, HasTable, Table;
  }

  lemma DropTaskView(s: State, nr: int)
    requires Inv(s) && Private(s) && 1 <= nr < NR_TASKS && TaskFrame(s, nr) != 0 && NoTablesFrom(s, nr, 0)
    ensures Private(DropTask(s, nr)) && SameForOthers(s, DropTask(s, nr), nr)
  {
    DropTaskKeeps(s, nr);
    DropTaskEffect(s, nr);
    var s' := DropTask(s, nr);
    hide DropTask, FreePage, Peek;
    forall f | f >= LOW_FRAMES ensures (IsTask(s', f) ==> IsTask(s, f)) && (IsTable(s', f) ==> IsTable(s, f)) {
      LostTaskUses(s, s', nr, f);
    }
    forall e, j ensures View(s', e, j) == View(s, e, j) {
      hide View, Maps;
      SameView(s, s', e, j, e, j);
    }
    hide Maps, CanWrite, IsTable, IsTask, View;
  }

  lemma ForkFailsView(s: State, parent: int, nr: int, pcb: seq<int>, dirs: int)
    requires Inv(s) && Private(s) && CanFork(s, parent, nr, pcb, dirs) && 1 <= parent
    requires !Fork(s, parent, nr, pcb, dirs).1
    ensures var s' := Fork(s, parent, nr, pcb, dirs).0;
      Private(s') && SameViews(s, s')
  {
    if FreeFrame(s) == 0 {
    } else {
      var copied := Copied(s, parent, nr, pcb, dirs).0;
      var dropped := DropTables(copied, TASK_DIRS * nr, dirs);
      var s' := DropTask(dropped, nr);
      assert Fork(s, parent, nr, pcb, dirs) == (s', false) && dirs == DATA_DIRS && 1 <= nr < NR_TASKS && TaskFrame(s, nr) == 0;
      FreeFrameUnused(s);
      ForkRollback(s, parent, nr, pcb, dirs);
      CopiedKeeps(s, parent, nr, pcb, dirs);
      assert Inv(copied);
      DroppedReady(s, copied, nr, FreeFrame(s), dirs);
      hide *;
      CopiedView(s, parent, nr, pcb, dirs);
      DropTablesView(copied, nr, dirs);
      DropTaskView(dropped, nr);
      SameForOthersTrans(s, copied, dropped, nr);
      SameForOthersTrans(s, dropped, s', nr);
      EmptyViews(s, nr);
      EmptyViews(s', nr);
      OthersIsAll(s, s', nr);
    }
  }

  lemma DroppedReady(s: State, copied: State, nr: int, f: int, dirs: int)
    requires Inv(copied) && 1 <= nr < NR_TASKS && f != 0 && |s.task| == NR_TASKS && copied.task == s.task[nr := f] && dirs == DATA_DIRS
    ensures var dropped := DropTables(copied, TASK_DIRS * nr, dirs);
      Inv(dropped) && TaskFrame(dropped, nr) != 0 && NoTablesFrom(dropped, nr, 0)
  {
    DropTablesKeeps(copied, TASK_DIRS * nr, dirs);
    WindowOwned(copied, nr);
    hide DropTables, HasTable, Table, Maps;
  }

  lemma EmptyViews(s: State, nr: int)
    requires Inv(s) && 1 <= nr < NR_TASKS && TaskFrame(s, nr) == 0
    ensures forall e, j :: e / TASK_DIRS == nr ==> View(s, e, j) == Absent
  {
    EmptySlot(s, nr);
    forall e, j | e / TASK_DIRS == nr ensures View(s, e, j) == Absent {
      NoTableNoView(s, e);
    }
  }

  lemma OthersIsAll(s: State, s': State, nr: int)
    requires SameForOthers(s, s', nr)
    requires forall e, j :: e / TASK_DIRS == nr ==> View(s, e, j) == Absent
    requires forall e, j :: e / TASK_DIRS == nr ==> View(s', e, j) == Absent
    ensures SameViews(s, s')
  {
    hide View;
  }

  /** Fork copies the parent's whole memory, or changes nothing. */
  lemma ForkView(s: State, parent: int, nr: int, pcb: seq<int>, dirs: int)
    requires Inv(s) && Private(s) && CanFork(s, parent, nr, pcb, dirs) && 1 <= parent
    ensures var (s', ok) := Fork(s, parent, nr, pcb, dirs);
      && Inv(s') && Private(s')
      && (if ok then ForkViews(s, s', parent, nr) else SameViews(s, s'))
  {
    if Fork(s, parent, nr, pcb, dirs).1 {
      assert FreeFrame(s) != 0 && Fork(s, parent, nr, pcb, dirs) == Copied(s, parent, nr, pcb, dirs);
      hide Fork, Copied;
      CopiedView(s, parent, nr, pcb, dirs);
      CopiedKeeps(s, parent, nr, pcb, dirs);
    } else {
      hide Fork, Copied;
      ForkRollback(s, parent, nr, pcb, dirs);
      ForkFailsView(s, parent, nr, pcb, dirs);
    }
  }

  // ---------- write faults ----------

  /** Frame of the page at (d, i). */
  function FrameAt(s: State, d: int, i: int): int {
    FrameOf(Entry(s, d, i))
  }

  /** The fault leaves at (d, i) a page of the task's own with the words that were there. */
  ghost predicate FaultViews(s: State, s': State, d: int, i: int) {
    forall e, j {:trigger View(s', e, j)} :: TASK_DIRS <= e ==>
      View(s', e, j) == if e == d && j == i then Own(Page(s, FrameAt(s, d, i))) else View(s, e, j)
  }

  lemma InPlaceView(s: State, d: int, i: int)
    requires Inv(s) && Private(s) && d >= TASK_DIRS && Mapped(s, d, i) && !NeedsCopy(s, d, i)
    ensures var s' := UnWriteProtect(s, Table(s, d), i);
      Private(s') && FaultViews(s, s', d, i)
  {
    var f := FrameAt(s, d, i);
    var s' := UnWriteProtect(s, Table(s, d), i);
    assert Maps(s, d, i, f) && f >= LOW_FRAMES;
    SoleUserMeans(s, d, i, f);
    InPlaceEffect(s, d, i);
    NotATable(s, Table(s, d));
    assert d in TableUses(s, Table(s, d)) && IsTable(s, Table(s, d));
    hide UnWriteProtect, NeedsCopy, SoleUser, Inv, FrameAt, Peek, Entry, Page;
    InPlacePrivate(s, s', d, i, f);
    ViewOf(s, d, i, f);
    hide View, Maps, CanWrite, Private;
    forall e, j | TASK_DIRS <= e
      ensures View(s', e, j) == if e == d && j == i then Own(Page(s, f)) else View(s, e, j)
    {
      SameView(s, s', e, j, e, j);
    }
  }

  lemma NotATable(s: State, t: int)
    requires Private(s)
    ensures IsTable(s, t) && t >= LOW_FRAMES ==> forall e, j :: TASK_DIRS <= e ==> !Maps(s, e, j, t)
  {
  }

  lemma InPlacePrivate(s: State, s': State, d: int, i: int, f: int)
    requires Private(s) && SameDirectory(s, s') && Mappers(s, f) == {(d, i)}
    requires forall e, j, g :: Maps(s', e, j, g) <==> Maps(s, e, j, g)
    requires forall e, j :: CanWrite(s', e, j) <==> CanWrite(s, e, j) || (e == d && j == i)
    requires Maps(s, d, i, f)
    ensures Private(s')
  {
    forall g ensures IsTable(s', g) == IsTable(s, g) && IsTask(s', g) == IsTask(s, g) {
      SameUses(s, s', g);
    }
    forall e, j | TASK_DIRS <= e && Maps(s, e, j, f) ensures e == d && j == i {
      assert (e, j) in Mappers(s, f);
    }
    assert forall g :: Maps(s, d, i, g) ==> g == f;
    hide Maps, CanWrite, IsTable, IsTask, Mappers;
  }

  lemma CopyView(s: State, d: int, i: int)
    requires Inv(s) && Private(s) && d >= TASK_DIRS && Mapped(s, d, i) && NeedsCopy(s, d, i) && FreeFrame(s) != 0
    ensures var s' := UnWriteProtect(s, Table(s, d), i);
      Private(s') && FaultViews(s, s', d, i)
  {
    var f := FreeFrame(s);
    var was := FrameAt(s, d, i);
    var s' := UnWriteProtect(s, Table(s, d), i);
    FreeFrameUnused(s);
    UnusedMeans(s, f);
    CopyEffect(s, d, i);
    CopyMappings(s, d, i);
    NotATable(s, Table(s, d));
    assert d in TableUses(s, Table(s, d)) && IsTable(s, Table(s, d)) && LOW_FRAMES <= Table(s, d);
    hide UnWriteProtect, NeedsCopy, SoleUser, Inv, FreeFrame, FrameAt, Peek, Entry, Page, TableUses, TaskUses, Mappers;
    CopyPrivate(s, s', d, i, f);
    assert Maps(s', d, i, f);
    ViewOf(s', d, i, f);
    hide View, Maps, CanWrite, Private;
    forall e, j | TASK_DIRS <= e
      ensures View(s', e, j) == if e == d && j == i then Own(Page(s, was)) else View(s, e, j)
    {
      if e != d || j != i {
        SameView(s, s', e, j, e, j);
      }
    }
  }

  lemma CopyPrivate(s: State, s': State, d: int, i: int, f: int)
    requires Private(s) && SameDirectory(s, s')
    requires forall e, j :: e >= TASK_DIRS ==> !Maps(s, e, j, f)
    requires TableUses(s, f) == {} && TaskUses(s, f) == {}
    requires forall e, j, g :: Maps(s', e, j, g) <==> if e == d && j == i then g == f else Maps(s, e, j, g)
    requires forall e, j :: CanWrite(s', e, j) <==> CanWrite(s, e, j) || (e == d && j == i)
    ensures Private(s')
  {
    forall g ensures IsTable(s', g) == IsTable(s, g) && IsTask(s', g) == IsTask(s, g) {
      SameUses(s, s', g);
    }
    assert !IsTable(s, f) && !IsTask(s, f);
    hide Maps, CanWrite, IsTable, IsTask;
  }

  /** One fault always makes the page writable, unless a copy is needed and memory is full. */
  lemma FaultView(s: State, d: int, i: int)
    requires Inv(s) && Private(s) && d >= TASK_DIRS && Mapped(s, d, i) && (NeedsCopy(s, d, i) ==> FreeFrame(s) != 0)
    ensures var s' := UnWriteProtect(s, Table(s, d), i);
      Inv(s') && Private(s') && CanWrite(s', d, i) && FaultViews(s, s', d, i)
  {
    hide Inv, Private, FaultViews;
    if NeedsCopy(s, d, i) {
      CopyMappings(s, d, i);
      CopyKeeps(s, d, i);
      CopyView(s, d, i);
    } else {
      ShapeIn(s);
      InPlaceEffect(s, d, i);
      InPlaceKeeps(s, d, i);
      InPlaceView(s, d, i);
    }
  }

  lemma ShapeIn(s: State)
    requires Inv(s)
    ensures Shape(s) && TablesApart(s)
  {
  }

  /** `un_wp_page` does not look at what `get_free_page` returned: it maps a frame above LOW_MEM if and
      only if no copy was needed or there was a frame for it; otherwise the old page is copied over the
      page directory, and the entry names frame 0. */
  lemma FaultSafeIff(s: State, d: int, i: int)
    requires Inv(s) && d >= TASK_DIRS && Mapped(s, d, i)
    ensures var e := Peek(UnWriteProtect(s, Table(s, d), i), Table(s, d), i);
      && Present(e) && Writable(e)
      && (FrameOf(e) >= LOW_FRAMES <==> !NeedsCopy(s, d, i) || FreeFrame(s) != 0)
      && (NeedsCopy(s, d, i) && FreeFrame(s) == 0 ==> FrameOf(e) == 0)
    ensures NeedsCopy(s, d, i) && FreeFrame(s) == 0 ==>
      Page(UnWriteProtect(s, Table(s, d), i), 0) == Page(s, FrameAt(s, d, i))
  {
    var t, e := Table(s, d), Entry(s, d, i);
    assert LOW_FRAMES <= t < FRAMES && |s.ram[t]| == ENTRIES;
    assert Maps(s, d, i, FrameOf(e));
    hide Present, Writable, FrameOf, UserEntry, WriteEnable;
    if NeedsCopy(s, d, i) && FreeFrame(s) != 0 {
      CopyEffect(s, d, i);
      FreeFrameUnused(s);
    }
  }
}
