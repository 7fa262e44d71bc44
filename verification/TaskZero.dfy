/** The forks of task 0, whose own mappings are not counted: exactly when they leave the tasks 1..63
    with private memories.  A boot state, and the first fork from it. */
module TaskZero {
  import opened Kernel
  import opened PageTables
  import opened Conservation
  import opened Allocation
  import opened Sharing
  import opened Forking
  import opened Isolation

  /** Task 0's child gets the first 160 pages of each of the four tables. */
  predicate InWindow(f: int) {
    0 <= f < FRAMES && f % ENTRIES < KERNEL_ENTRIES
  }

  // ---------- what the child of task 0 maps ----------

  ghost predicate MapsShared(s: State, s': State, from: int, to: int, i: int, n: int) {
    forall e, j, f {:trigger Maps(s', e, j, f)} ::
      Maps(s', e, j, f) <==> if e == to && i <= j < n then Maps(s, from, j, f) else Maps(s, e, j, f)
  }

  ghost predicate SameWrites(s: State, s': State) {
    forall e, j {:trigger CanWrite(s', e, j)} :: TASK_DIRS <= e ==> CanWrite(s', e, j) == CanWrite(s, e, j)
  }

  lemma ShareZeroPresent(s: State, child: int, k: int, i: int, f: int)
    requires Copying(s, 0, child) && BothTables(s, 0, child, k) && k < DATA_DIRS
    requires Maps(s, k, i, f) && 0 <= i < ENTRIES && !Mapped(s, TASK_DIRS * child + k, i)
    ensures var s' := ShareEntry(s, Table(s, k), Table(s, TASK_DIRS * child + k), i);
      MapsShared(s, s', k, TASK_DIRS * child + k, i, i + 1) && SameWrites(s, s')
  {
    var to := TASK_DIRS * child + k;
    var s' := ShareEntry(s, Table(s, k), Table(s, to), i);
    ShareReady(s, 0, child, k, i);
    ShareEntryGains(s, k, to, i);
    ShareEntryEffect(s, k, to, i);
    assert forall g :: Maps(s, k, i, g) <==> g == f;
    assert forall g :: !Maps(s, to, i, g);
    assert !CanWrite(s, to, i) && f == FrameOf(Entry(s, k, i));
    hide ShareEntry, Peek, Entry, FrameOf, Present, Writable, Inv, Copying, Maps;
    forall e, j | TASK_DIRS <= e && CanWrite(s, e, j) ensures CanWrite(s', e, j) {
      assert HasTable(s', e) == HasTable(s, e);
    }
    hide CanWrite;
  }

  lemma ShareZeroEntry(s: State, child: int, k: int, i: int)
    requires Copying(s, 0, child) && BothTables(s, 0, child, k) && k < DATA_DIRS
    requires 0 <= i < ENTRIES && !Mapped(s, TASK_DIRS * child + k, i)
    ensures var s' := ShareEntry(s, Table(s, k), Table(s, TASK_DIRS * child + k), i);
      MapsShared(s, s', k, TASK_DIRS * child + k, i, i + 1) && SameWrites(s, s')
  {
    IdentityTable(s, k);
    assert Maps(s, k, i, ENTRIES * k + i);
    hide *;
    ShareZeroPresent(s, child, k, i, ENTRIES * k + i);
  }

  lemma MapsSharedStep(s: State, t: State, u: State, from: int, to: int, i: int, n: int)
    requires MapsShared(s, t, from, to, i, i + 1) && MapsShared(t, u, from, to, i + 1, n) && i < n && from != to
    requires SameWrites(s, t) && SameWrites(t, u)
    ensures MapsShared(s, u, from, to, i, n) && SameWrites(s, u)
  {
    hide Maps, CanWrite;
  }

  lemma {:induction false} ShareZeroEntries(s: State, child: int, k: int, i: int, n: int)
    requires Copying(s, 0, child) && BothTables(s, 0, child, k) && k < DATA_DIRS && 1 <= child
    requires 0 <= i && n <= ENTRIES && EmptyFrom(s, TASK_DIRS * child + k, i)
    ensures var s' := ShareEntries(s, Table(s, k), Table(s, TASK_DIRS * child + k), i, n);
      MapsShared(s, s', k, TASK_DIRS * child + k, i, n) && SameWrites(s, s')
    decreases n - i
  {
    hide Inv, Mirror, Peek, Maps, CanWrite, ShareEntry, MapsShared, SameWrites, Outside;
    var to := TASK_DIRS * child + k;
    if i < n {
      var s' := ShareEntry(s, Table(s, k), Table(s, to), i);
      ShareEntryKeeps(s, 0, child, k, i);
      ShareEntryAdvances(s, 0, child, k, i);
      ShareZeroEntry(s, child, k, i);
      ShareZeroEntries(s', child, k, i + 1, n);
      MapsSharedStep(s, s', ShareEntries(s', Table(s', k), Table(s', to), i + 1, n), k, to, i, n);
    } else {
      NothingShared(s, k, to, i, n);
    }
  }

  lemma NothingShared(s: State, from: int, to: int, i: int, n: int)
    requires n <= i
    ensures MapsShared(s, s, from, to, i, n) && SameWrites(s, s)
  {
  }

  /** The window of task 0's child, entries k up to k + n, maps exactly the low 160 pages of each table. */
  ghost predicate WindowMapped(s: State, s': State, child: int, k: int, n: int) {
    forall e, j, f {:trigger Maps(s', e, j, f)} ::
      Maps(s', e, j, f) <==>
      if TASK_DIRS * child + k <= e < TASK_DIRS * child + k + n
      then 0 <= j < KERNEL_ENTRIES && f == ENTRIES * (e - TASK_DIRS * child) + j
      else Maps(s, e, j, f)
  }

  /** No other task maps a frame that holds one of the child's tables or its structure. */
  ghost predicate FreshFrames(s: State, child: int) {
    && (forall d, e, j :: d / TASK_DIRS == child && HasTable(s, d) && TASK_DIRS <= e && e / TASK_DIRS != child ==> !Maps(s, e, j, Table(s, d)))
    && (forall e, j :: TASK_DIRS <= e && e / TASK_DIRS != child ==> !Maps(s, e, j, TaskFrame(s, child)))
  }

  lemma FreshStays(s: State, s': State, child: int)
    requires FreshFrames(s, child) && SameDirectory(s, s') && Outside(s, s', child)
    ensures FreshFrames(s', child)
  {
    assert TaskFrame(s', child) == TaskFrame(s, child);
    hide Maps, HasTable, Table, TaskFrame;
  }

  lemma FreshGrows(s: State, s': State, child: int, d: int, f: int)
    requires FreshFrames(s, child) && NewTable(s, s', d, f) && SameMappings(s, s')
    requires forall e, j :: TASK_DIRS <= e ==> !Maps(s, e, j, f)
    ensures FreshFrames(s', child)
  {
    assert TaskFrame(s', child) == TaskFrame(s, child);
    hide Maps, HasTable, Table, TaskFrame;
  }

  lemma IdentityTable(s: State, k: int)
    requires Inv(s) && 0 <= k < DATA_DIRS
    ensures HasTable(s, k)
    ensures forall j, f :: 0 <= j < ENTRIES ==> (Maps(s, k, j, f) <==> f == ENTRIES * k + j)
  {
    assert Maps(s, k, 0, ENTRIES * k);
  }

  lemma CopyZeroTable(s: State, child: int, k: int)
    requires Copying(s, 0, child) && 0 <= k < DATA_DIRS && FreeFrame(s) != 0
    requires NoTablesFrom(s, child, k) && FreshFrames(s, child)
    ensures var to := TASK_DIRS * child + k;
      var s' := ShareEntries(AddTable(s, to, FreeFrame(s)), Table(s, k), FreeFrame(s), 0, KERNEL_ENTRIES);
      && Copying(s', 0, child) && NoTablesFrom(s', child, k + 1) && FreshFrames(s', child)
      && WindowMapped(s, s', child, k, 1) && SameWrites(s, s')
  {
    hide *;
    var to := TASK_DIRS * child + k;
    var f := FreeFrame(s);
    var added := AddTable(s, to, f);
    CopyZeroReady(s, child, k);
    AddTableContinues(s, 0, child, k);
    NewTableNames(s, added, k, to, f);
    FreshGrows(s, added, child, to, f);
    ShareEntriesKeeps(added, 0, child, k, 0, KERNEL_ENTRIES);
    ShareZeroEntries(added, child, k, 0, KERNEL_ENTRIES);
    var s' := ShareEntries(added, Table(added, k), Table(added, to), 0, KERNEL_ENTRIES);
    NoTablesStays(added, s', child, k + 1);
    FreshStays(added, s', child);
    ZeroTableMapped(s, added, s', child, k);
  }

  lemma CopyZeroReady(s: State, child: int, k: int)
    requires Copying(s, 0, child) && 0 <= k < DATA_DIRS && FreeFrame(s) != 0
    ensures HasTable(s, TASK_DIRS * 0 + k) && TASK_DIRS * 0 + k == k && 1 <= child
    ensures k != TASK_DIRS * child + k && 0 < KERNEL_ENTRIES <= ENTRIES
    ensures forall e, j :: TASK_DIRS <= e ==> !Maps(s, e, j, FreeFrame(s))
  {
    IdentityTable(s, k);
    FreeFrameUnused(s);
    UnusedMeans(s, FreeFrame(s));
  }

  lemma ZeroTableMapped(s: State, added: State, s': State, child: int, k: int)
    requires SameMappings(s, added) && MapsShared(added, s', k, TASK_DIRS * child + k, 0, KERNEL_ENTRIES) && SameWrites(added, s')
    requires Copying(added, 0, child) && 0 <= k < DATA_DIRS && EmptyFrom(added, TASK_DIRS * child + k, 0)
    ensures WindowMapped(s, s', child, k, 1) && SameWrites(s, s')
  {
    IdentityTable(added, k);
    var to := TASK_DIRS * child + k;
    forall j, f ensures !Maps(added, to, j, f) {
    }
    hide Maps, CanWrite, Copying;
  }

  /** What copying n of task 0's tables from entry k on comes to, if no frame runs out. */
  ghost predicate ZeroOutcome(s: State, r: (State, bool), child: int, k: int, n: int) {
    r.1 ==> FreshFrames(r.0, child) && WindowMapped(s, r.0, child, k, n) && SameWrites(s, r.0)
  }

  lemma ZeroOutcomeStep(s: State, next: State, r: (State, bool), child: int, k: int, n: int)
    requires WindowMapped(s, next, child, k, 1) && SameWrites(s, next) && ZeroOutcome(next, r, child, k + 1, n - 1) && 1 <= n
    ensures ZeroOutcome(s, r, child, k, n)
  {
    hide Maps, CanWrite, FreshFrames;
  }

  lemma ZeroOutcomeEnd(s: State, child: int, k: int, n: int)
    requires FreshFrames(s, child)
    ensures ZeroOutcome(s, (s, true), child, k, 0) && ZeroOutcome(s, (s, false), child, k, n)
  {
    hide Maps, CanWrite, FreshFrames;
  }

  lemma CopyNoTables(s: State, from: int, to: int, limit: int)
    ensures CopyTables(s, from, to, 0, limit) == (s, true)
  {
  }

  lemma NextZeroKeeps(s: State, child: int, k: int)
    requires Copying(s, 0, child) && 0 <= k < DATA_DIRS && FreeFrame(s) != 0
    requires NoTablesFrom(s, child, k) && FreshFrames(s, child)
    ensures var next := NextCopy(s, k, TASK_DIRS * child + k, KERNEL_ENTRIES);
      && Copying(next, 0, child) && NoTablesFrom(next, child, k + 1) && FreshFrames(next, child)
      && WindowMapped(s, next, child, k, 1) && SameWrites(s, next)
  {
    IdentityTable(s, k);
    hide Copying, FreshFrames, WindowMapped, SameWrites, HasTable, NoTablesFrom, FreeFrame;
    CopyZeroTable(s, child, k);
  }

  lemma ZeroTable(s: State, child: int, k: int)
    requires Copying(s, 0, child) && 0 <= k < DATA_DIRS
    ensures HasTable(s, k)
  {
    IdentityTable(s, k);
  }

  lemma {:induction false} CopyZeroTables(s: State, child: int, k: int, n: int)
    requires Copying(s, 0, child) && NoTablesFrom(s, child, k) && FreshFrames(s, child)
    requires 0 <= k && 0 <= n && k + n <= DATA_DIRS
    ensures ZeroOutcome(s, CopyTables(s, k, TASK_DIRS * child + k, n, KERNEL_ENTRIES), child, k, n)
    decreases n
  {
    hide *;
    var to := TASK_DIRS * child + k;
    ZeroOutcomeEnd(s, child, k, n);
    CopyNoTables(s, k, to, KERNEL_ENTRIES);
    if n > 0 {
      ZeroTable(s, child, k);
      CopyTablesOnce(s, k, to, n, KERNEL_ENTRIES);
      if FreeFrame(s) != 0 {
        NextZeroKeeps(s, child, k);
        var next := NextCopy(s, k, to, KERNEL_ENTRIES);
        CopyZeroTables(next, child, k + 1, n - 1);
        ZeroOutcomeStep(s, next, CopyTables(next, k + 1, to + 1, n - 1, KERNEL_ENTRIES), child, k, n);
      }
    }
  }

  // ---------- the whole fork ----------

  lemma AddTaskFresh(s: State, nr: int, pcb: seq<int>)
    requires Inv(s) && FreeFrame(s) != 0 && CanAddTask(s, nr) && |pcb| == ENTRIES
    ensures FreshFrames(AddTask(s, nr, FreeFrame(s), pcb), nr)
  {
    var f := FreeFrame(s);
    FreeFrameUnused(s);
    UnusedMeans(s, f);
    AddTaskEffect(s, nr, pcb);
    EmptySlot(s, nr);
    var s' := AddTask(s, nr, f, pcb);
    hide AddTask, Inv, Maps, Table, FreeFrame;
    forall d | d / TASK_DIRS == nr ensures !HasTable(s', d) {
      assert TASK_DIRS * nr <= d < TASK_DIRS * (nr + 1);
    }
    assert TaskFrame(s', nr) == f;
  }

  lemma CopiedZeroIs(s: State, nr: int, pcb: seq<int>, dirs: int)
    ensures Copied(s, 0, nr, pcb, dirs) == CopyTables(AddTask(s, nr, FreeFrame(s), pcb), 0, TASK_DIRS * nr + 0, dirs, KERNEL_ENTRIES)
  {
    hide CopyTables, AddTask, FreeFrame;
  }

  lemma ForkIsCopied(s: State, parent: int, nr: int, pcb: seq<int>, dirs: int)
    requires Fork(s, parent, nr, pcb, dirs).1
    ensures FreeFrame(s) != 0 && Fork(s, parent, nr, pcb, dirs) == Copied(s, parent, nr, pcb, dirs)
  {
    hide CopyTables, AddTask, DropTables, FreeFrame;
  }

  lemma ZeroForkMaps(s: State, nr: int, pcb: seq<int>, dirs: int)
    requires Inv(s) && CanFork(s, 0, nr, pcb, dirs) && Fork(s, 0, nr, pcb, dirs).1
    ensures var s' := Fork(s, 0, nr, pcb, dirs).0;
      && Inv(s') && FreshFrames(s', nr) && WindowMapped(s, s', nr, 0, dirs) && SameWrites(s, s') && Outside(s, s', nr)
  {
    hide *;
    CanForkMeans(s, 0, nr, pcb, dirs);
    ForkIsCopied(s, 0, nr, pcb, dirs);
    CopiedZeroIs(s, nr, pcb, dirs);
    var started := AddTask(s, nr, FreeFrame(s), pcb);
    AddTaskStarts(s, 0, nr, pcb, dirs);
    AddTaskFresh(s, nr, pcb);
    CopyZeroTables(started, nr, 0, dirs);
    CopiedKeeps(s, 0, nr, pcb, dirs);
    CopyingInv(Copied(s, 0, nr, pcb, dirs).0, 0, nr);
    StartedMaps(s, started, Copied(s, 0, nr, pcb, dirs), nr, dirs);
  }

  lemma CanForkMeans(s: State, parent: int, nr: int, pcb: seq<int>, dirs: int)
    requires CanFork(s, parent, nr, pcb, dirs)
    ensures CanAddTask(s, nr) && |pcb| == ENTRIES && 0 <= dirs && 0 + dirs <= DATA_DIRS
  {
  }

  lemma CopyingInv(s: State, parent: int, child: int)
    requires Copying(s, parent, child)
    ensures Inv(s)
  {
  }

  lemma StartedMaps(s: State, started: State, r: (State, bool), nr: int, dirs: int)
    requires SameMappings(s, started) && ZeroOutcome(started, r, nr, 0, dirs) && r.1
    ensures FreshFrames(r.0, nr) && WindowMapped(s, r.0, nr, 0, dirs) && SameWrites(s, r.0)
  {
    hide Maps, CanWrite, FreshFrames;
  }

  /** Some task already writes to one of the frames that task 0 is about to share. */
  ghost predicate WritesWindow(s: State) {
    exists d, i, f :: TASK_DIRS <= d && Maps(s, d, i, f) && CanWrite(s, d, i) && InWindow(f)
  }

  /** A page table or task structure lies in a frame that task 0 shares. */
  ghost predicate StructureInWindow(s: State) {
    exists f :: LOW_FRAMES <= f && InWindow(f) && (IsTable(s, f) || IsTask(s, f))
  }

  /** What a successful fork of task 0 leaves. */
  ghost predicate ZeroForked(s: State, s': State, nr: int, dirs: int) {
    && dirs == DATA_DIRS && 1 <= nr < NR_TASKS
    && FreshFrames(s', nr) && WindowMapped(s, s', nr, 0, dirs) && SameWrites(s, s') && Outside(s, s', nr)
    && (forall t :: t != nr ==> TaskFrame(s', t) == TaskFrame(s, t))
    && (forall d, i, f :: d / TASK_DIRS == nr ==> !Maps(s, d, i, f))
  }

  lemma ZeroForkDone(s: State, nr: int, pcb: seq<int>, dirs: int)
    requires Inv(s) && CanFork(s, 0, nr, pcb, dirs) && Fork(s, 0, nr, pcb, dirs).1
    ensures var s' := Fork(s, 0, nr, pcb, dirs).0;
      Inv(s') && ZeroForked(s, s', nr, dirs)
  {
    ZeroForkMaps(s, nr, pcb, dirs);
    ForkIsCopied(s, 0, nr, pcb, dirs);
    CopiedKeeps(s, 0, nr, pcb, dirs);
    EmptySlot(s, nr);
    hide Fork, Copied, FreshFrames, WindowMapped, SameWrites, Outside, Maps, FreeFrame;
  }

  lemma OldMapping(s: State, s': State, nr: int, dirs: int, e: int, j: int, f: int)
    requires ZeroForked(s, s', nr, dirs) && Maps(s', e, j, f)
    ensures if e / TASK_DIRS == nr then InWindow(f) else Maps(s, e, j, f)
  {
    hide Maps, Outside, FreshFrames, SameWrites;
  }

  lemma OldStructure(s: State, s': State, nr: int, dirs: int, e: int, j: int, f: int)
    requires ZeroForked(s, s', nr, dirs) && TASK_DIRS <= e && Maps(s', e, j, f) && e / TASK_DIRS != nr
    ensures (IsTable(s', f) ==> IsTable(s, f)) && (IsTask(s', f) ==> IsTask(s, f))
  {
    hide Maps, SameWrites, WindowMapped, HasTable, Table, TaskFrame;
    if IsTable(s', f) {
      var d :| d in TableUses(s', f);
      assert d / TASK_DIRS != nr;
      assert d in TableUses(s, f);
    }
    if IsTask(s', f) {
      var t :| t in TaskUses(s', f);
      assert t != nr;
      assert t in TaskUses(s, f);
    }
  }

  lemma ZeroForkIsolates(s: State, s': State, nr: int, dirs: int)
    requires Private(s) && ZeroForked(s, s', nr, dirs)
    requires !WritesWindow(s) && !StructureInWindow(s')
    ensures Private(s')
  {
    hide Maps, CanWrite, IsTable, IsTask, WindowMapped, FreshFrames, Outside, InWindow;
    forall d, i, e, j, f | TASK_DIRS <= d && TASK_DIRS <= e && Maps(s', d, i, f) && Maps(s', e, j, f) && CanWrite(s', d, i)
      ensures d == e && i == j
    {
      assert CanWrite(s, d, i);
      WritableMaps(s, d, i);
      OldMapping(s, s', nr, dirs, d, i, f);
      OldMapping(s, s', nr, dirs, e, j, f);
    }
    forall d, i, f | TASK_DIRS <= d && Maps(s', d, i, f) && LOW_FRAMES <= f ensures !IsTable(s', f) && !IsTask(s', f) {
      OldMapping(s, s', nr, dirs, d, i, f);
      if d / TASK_DIRS != nr {
        OldStructure(s, s', nr, dirs, d, i, f);
      }
    }
  }

  lemma WritableMaps(s: State, d: int, i: int)
    requires CanWrite(s, d, i)
    ensures exists f :: Maps(s, d, i, f)
  {
    assert Maps(s, d, i, FrameOf(Entry(s, d, i)));
  }

  /** The child maps every frame of the window. */
  lemma ChildMaps(s: State, s': State, nr: int, dirs: int, f: int)
    requires ZeroForked(s, s', nr, dirs) && InWindow(f)
    ensures Maps(s', TASK_DIRS * nr + f / ENTRIES, f % ENTRIES, f)
    ensures (TASK_DIRS * nr + f / ENTRIES) / TASK_DIRS == nr && TASK_DIRS <= TASK_DIRS * nr + f / ENTRIES
  {
    hide Maps, SameWrites, FreshFrames, Outside;
  }

  lemma IsolatedMeans(s: State, s': State, nr: int, dirs: int)
    requires ZeroForked(s, s', nr, dirs) && Private(s')
    ensures !WritesWindow(s) && !StructureInWindow(s')
  {
    hide Maps, CanWrite, IsTable, IsTask, WindowMapped, FreshFrames, Outside, InWindow;
    if d, i, f :| TASK_DIRS <= d && Maps(s, d, i, f) && CanWrite(s, d, i) && InWindow(f) {
      ChildMaps(s, s', nr, dirs, f);
      assert d / TASK_DIRS != nr;
      StillMapped(s, s', nr, dirs, d, i, f);
      assert false;
    }
    if f :| LOW_FRAMES <= f && InWindow(f) && (IsTable(s', f) || IsTask(s', f)) {
      ChildMaps(s, s', nr, dirs, f);
      assert false;
    }
  }

  lemma StillMapped(s: State, s': State, nr: int, dirs: int, d: int, i: int, f: int)
    requires ZeroForked(s, s', nr, dirs) && d / TASK_DIRS != nr && Maps(s, d, i, f)
    ensures Maps(s', d, i, f)
  {
    hide Maps;
  }

  /** A fork by task 0 leaves memories private if and only if no task can already write a frame of the
      window it shares, and none of the structures lies in that window. */
  lemma ZeroForkPrivateIff(s: State, nr: int, pcb: seq<int>, dirs: int)
    requires Inv(s) && Private(s) && CanFork(s, 0, nr, pcb, dirs) && Fork(s, 0, nr, pcb, dirs).1
    ensures var s' := Fork(s, 0, nr, pcb, dirs).0;
      Private(s') <==> !WritesWindow(s) && !StructureInWindow(s')
  {
    ZeroForkDone(s, nr, pcb, dirs);
    hide Fork, Private, ZeroForked, WritesWindow, StructureInWindow;
    var s' := Fork(s, 0, nr, pcb, dirs).0;
    if Private(s') {
      IsolatedMeans(s, s', nr, dirs);
    }
    if !WritesWindow(s) && !StructureInWindow(s') {
      ZeroForkIsolates(s, s', nr, dirs);
    }
  }
}
