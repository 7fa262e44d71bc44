/** From power-on: the first fork and everything after it.  For almost every size of memory the tasks 1..63
    then have memories of their own; for two sizes, inputs that show how the code goes wrong. */
module BootRuns {
  import opened Kernel
  import opened PageTables
  import opened Conservation
  import opened Forking
  import opened Isolation
  import opened PrivateMemory
  import opened TaskZero
  import opened ZeroFork
  import opened Boot
  import opened FirstFork
  import opened Runs
  import opened Kept
  import opened Faults
  import opened UnsafeForks
  import opened LinearAddresses
  import opened Stores

  // ---------- the whole machine ----------

  function NoMemory(t: int): Memory {
    map[]
  }

  function NoMemories(): Memories {
    map t | 1 <= t < NR_TASKS :: NoMemory(t)
  }

  lemma BootMemories(s: State)
    requires Booted(s)
    ensures Abstract(s) == NoMemories()
  {
    BootMaps(s);
    forall t, p | 1 <= t < NR_TASKS && 0 <= p < PAGES ensures View(s, DirOf(t, p), SlotOf(p)) == Absent {
      DirOfTask(t, p);
      ViewOf(s, DirOf(t, p), SlotOf(p), FrameAt(s, DirOf(t, p), SlotOf(p)));
    }
    hide View, DirOf, SlotOf;
  }

  lemma FirstForkSafe(s: State, extMemK: int, nr: int, pcb: seq<int>)
    requires Booted(s) && Sized(s, extMemK) && CanFork(s, 0, nr, pcb, DATA_DIRS) && s.high >= 261 && !Crowded(s.high)
    ensures Inv(s) && Private(s) && Enabled(s, Forks(0, nr, pcb)) && Forked(s, Forks(0, nr, pcb))
  {
    hide Fork, Private, Booted, CanFork, Inv, Sized, Crowded, Plan, SafeZeroFork;
    BootInv(s);
    FirstForkByMemory(s, extMemK, nr, pcb, DATA_DIRS);
    ZeroForkIff(s, nr, pcb, DATA_DIRS);
  }

  /** From the state in which `main` makes its first fork, on every machine with five frames of main memory
      that does not end in or just above a window: the fork succeeds, and whatever forks and writes follow,
      the tasks see what they would see in memories of their own. */
  lemma FromPowerOn(s: State, extMemK: int, nr: int, pcb: seq<int>, ops: seq<Op>)
    requires Booted(s) && Sized(s, extMemK) && CanFork(s, 0, nr, pcb, DATA_DIRS) && s.high >= 261 && !Crowded(s.high)
    requires Runnable(Step(s, Forks(0, nr, pcb)), ops)
    ensures var all := [Forks(0, nr, pcb)] + ops;
      && Forked(s, all[0]) && Runnable(s, all)
      && Inv(Run(s, all)) && Private(Run(s, all))
      && Abstract(Run(s, all)) == SpecRun(NoMemories(), Trace(s, all))
  {
    hide Inv, Private, Abstract, Booted, Sized, CanFork, Crowded, Enabled, Forked, Step, SpecRun, Trace;
    var all := [Forks(0, nr, pcb)] + ops;
    FirstForkSafe(s, extMemK, nr, pcb);
    BootMemories(s);
    assert all[1..] == ops;
    RunRefines(s, all);
  }

  /** On a machine with 16 MB or more nothing else is needed. */
  lemma FromPowerOnFull(s: State, extMemK: int, nr: int, pcb: seq<int>, ops: seq<Op>)
    requires Booted(s) && Sized(s, extMemK) && 15 * 1024 <= extMemK && CanFork(s, 0, nr, pcb, DATA_DIRS)
    requires Runnable(Step(s, Forks(0, nr, pcb)), ops)
    ensures var all := [Forks(0, nr, pcb)] + ops;
      Forked(s, all[0]) && Abstract(Run(s, all)) == SpecRun(NoMemories(), Trace(s, all))
  {
    FullMemory(s, extMemK);
    hide Abstract, Booted, Sized, CanFork, Crowded, Runnable, Forked, Step, Run, SpecRun, Trace;
    FromPowerOn(s, extMemK, nr, pcb, ops);
  }

  lemma FirstForkUnsafe(s: State, extMemK: int, nr: int, pcb: seq<int>)
    requires Booted(s) && Sized(s, extMemK) && CanFork(s, 0, nr, pcb, DATA_DIRS)
    ensures Inv(s) && Private(s)
    ensures !Safe(s, Forks(0, nr, pcb)) <==> s.high >= 261 && Crowded(s.high)
  {
    hide Fork, Private, Booted, CanFork, Inv, Sized, Crowded, Plan, SafeZeroFork;
    BootInv(s);
    FirstForkByMemory(s, extMemK, nr, pcb, DATA_DIRS);
    ZeroForkIff(s, nr, pcb, DATA_DIRS);
  }

  /** For every size of memory and every run: it is one of private memories up to its first unsafe step, and
      that is the first fork itself exactly if memory ends in or just above a window. */
  lemma FromPowerOnUntilUnsafe(s: State, extMemK: int, nr: int, pcb: seq<int>, ops: seq<Op>)
    requires Booted(s) && Sized(s, extMemK) && CanFork(s, 0, nr, pcb, DATA_DIRS)
    requires AttemptRun(s, [Forks(0, nr, pcb)] + ops)
    ensures var all := [Forks(0, nr, pcb)] + ops;
      var n := SafeSteps(s, all);
      && Abstract(Run(s, all[..n])) == SpecRun(NoMemories(), Trace(s, all[..n]))
      && (n < |all| ==> Attempt(Run(s, all[..n]), all[n]) && !Safe(Run(s, all[..n]), all[n]))
      && (n == 0 <==> s.high >= 261 && Crowded(s.high))
  {
    hide Inv, Private, Abstract, Booted, Sized, CanFork, Crowded, Attempt, Safe, Forked, Step, SpecRun, Trace;
    var all := [Forks(0, nr, pcb)] + ops;
    FirstForkUnsafe(s, extMemK, nr, pcb);
    BootMemories(s);
    RefinesUntilUnsafe(s, all);
  }

  // ---------- user mode ----------

  lemma BootUserSpace(s: State)
    requires Booted(s)
    ensures UserSpace(s)
  {
    forall d | HasTable(s, d) ensures 0 <= d < DATA_DIRS && Dir(s, d) == UserEntry(d + 1) {
      assert 0 <= d < ENTRIES ==> Dir(s, d) == if d < DATA_DIRS then UserEntry(d + 1) else 0;
    }
    hide UserBit, Present, Writable, FrameOf;
    forall d, i | Mapped(s, d, i) ensures UserBit(Entry(s, d, i)) {
      assert Peek(s, d + 1, i) == UserEntry(ENTRIES * (d + 1 - 1) + i);
    }
  }

  /** Whatever has happened since power-on, safe forks of task 0 or not: user mode can read every page that a
      task has, and write it after one fault at most. */
  lemma UsableFromPowerOn(s: State, ops: seq<Op>, t: int, p: int)
    requires Booted(s) && PossibleRun(s, ops) && 1 <= t < NR_TASKS && 0 <= p < PAGES && p in MemoryOf(Run(s, ops), t)
    ensures var r := Run(s, ops);
      var d, i := DirOf(t, p), SlotOf(p);
      && UserCanRead(r, d, i)
      && (CanWrite(r, d, i) ==> UserCanWrite(r, d, i))
      && ((NeedsCopy(r, d, i) ==> FreeFrame(r) != 0) ==> UserCanWrite(UnWriteProtect(r, Table(r, d), i), d, i))
  {
    var r := Run(s, ops);
    var d, i := DirOf(t, p), SlotOf(p);
    BootInv(s);
    BootUserSpace(s);
    hide Run, PossibleRun, Inv, Private, Booted, KeepsLow, KeepsTasks;
    RunKept(s, ops);
    WordsAt(r, t, p);
    DirOfTask(t, p);
    hide DirOf, SlotOf, UnWriteProtect, NeedsCopy, FreeFrame, MemoryOf;
    if NeedsCopy(r, d, i) ==> FreeFrame(r) != 0 {
      FaultUsable(r, d, i);
    }
  }

  // ---------- stores through segments ----------

  /** The same for stores through whichever segments, if they avoid physical memory above LOW_MEM: each is a
      write to the window its address is in. */
  lemma StoresFromPowerOn(s: State, extMemK: int, nr: int, pcb: seq<int>, deeds: seq<Deed>)
    requires Booted(s) && Sized(s, extMemK) && CanFork(s, 0, nr, pcb, DATA_DIRS) && s.high >= 261 && !Crowded(s.high)
    requires MayDoAll(Do(s, Forking(0, nr, pcb)), deeds)
    ensures var all := [Forking(0, nr, pcb)] + deeds;
      Abstract(DoAll(s, all)) == SpecRun(NoMemories(), Events(s, all))
  {
    var first := Forking(0, nr, pcb);
    hide Inv, Private, Abstract, Booted, Sized, CanFork, Crowded, Enabled, Forked, Do, SpecRun, Events, LowWritable;
    var all := [first] + deeds;
    FirstForkSafe(s, extMemK, nr, pcb);
    BootMemories(s);
    BootLowWritable(s);
    assert all[1..] == deeds && MayDo(s, first);
    DeedsRefine(s, all);
  }

  // ---------- what the first child starts with ----------

  lemma FirstChild(s: State, nr: int, pcb: seq<int>)
    requires Booted(s) && CanFork(s, 0, nr, pcb, DATA_DIRS) && Fork(s, 0, nr, pcb, DATA_DIRS).1
    ensures var s' := Fork(s, 0, nr, pcb, DATA_DIRS).0;
      && Inv(s') && 1 <= nr < NR_TASKS
      && (forall p :: 0 <= p < FRAMES && p % ENTRIES < KERNEL_ENTRIES ==> Maps(s', DirOf(nr, p), SlotOf(p), p))
      && (forall p :: 0 <= p < FRAMES ==> !CanWrite(s', DirOf(nr, p), SlotOf(p)))
  {
    var s' := Fork(s, 0, nr, pcb, DATA_DIRS).0;
    BootInv(s);
    BootMaps(s);
    ZeroForkDone(s, nr, pcb, DATA_DIRS);
    hide Fork, CanFork, Booted, Inv, FreshFrames;
    assert WindowMapped(s, s', nr, 0, DATA_DIRS) && SameWrites(s, s');
    forall p | 0 <= p < FRAMES
      ensures (p % ENTRIES < KERNEL_ENTRIES ==> Maps(s', DirOf(nr, p), SlotOf(p), p)) && !CanWrite(s', DirOf(nr, p), SlotOf(p))
    {
      DirOfTask(nr, p);
      ChildSlot(nr, p);
      assert !Maps(s, DirOf(nr, p), SlotOf(p), FrameAt(s, DirOf(nr, p), SlotOf(p)));
      assert !CanWrite(s, DirOf(nr, p), SlotOf(p));
    }
  }

  lemma ChildSlot(nr: int, p: int)
    requires 0 <= p < FRAMES
    ensures TASK_DIRS * nr <= DirOf(nr, p) < TASK_DIRS * nr + DATA_DIRS && 0 <= SlotOf(p) < ENTRIES
    ensures p == ENTRIES * (DirOf(nr, p) - TASK_DIRS * nr) + SlotOf(p)
  {
  }

  lemma LowPageNeedsCopy(s: State, d: int, i: int, f: int)
    requires Maps(s, d, i, f) && f < LOW_FRAMES && !CanWrite(s, d, i)
    ensures CopiesPage(s, d, i)
  {
  }

  // ---------- memory runs out ----------

  /** With 20 KB of extended memory the first fork takes every frame. */
  lemma NothingLeft(s: State, nr: int, pcb: seq<int>)
    requires Booted(s) && Sized(s, 20) && CanFork(s, 0, nr, pcb, DATA_DIRS)
    ensures var (s', ok) := Fork(s, 0, nr, pcb, DATA_DIRS);
      ok && Inv(s') && Private(s') && FreeFrame(s') == 0
  {
    assert s.high == 261 && s.start == 256;
    FiveFrames(261);
    Picks(261);
    assert BootPlan(256, 261) == [260, 259, 258, 257, 256];
    assert PickFree(s, 256, DATA_DIRS) == 0;
    hide Fork, Private, Booted, CanFork, Inv, FreeFrame, PickFree, BootPlan, Plan, WritesOnly, StructureInWindow, AnyInWindow, Table, TaskFrame;
    BootInv(s);
    FirstForkByMemory(s, 20, nr, pcb, DATA_DIRS);
    BootPlanIs(s);
    ZeroForkOutcome(s, nr, pcb, DATA_DIRS);
  }

  /** So the child's first write to its page 5, a page of the kernel image, copies that page over the page
      directory, and leaves a writable entry for frame 0 in the child's table. */
  lemma DirectoryOverwritten(s: State, nr: int, pcb: seq<int>, w: int, v: int)
    requires Booted(s) && Sized(s, 20) && CanFork(s, 0, nr, pcb, DATA_DIRS) && 0 <= w < ENTRIES
    ensures var s' := Step(s, Forks(0, nr, pcb));
      var d := DirOf(nr, 5);
      var after := UnWriteProtect(s', Table(s', d), 5);
      && Attempt(s', Writes(nr, 5, w, v)) && !Safe(s', Writes(nr, 5, w, v))
      && Page(after, 0) == Page(s', 5)
      && Writable(Peek(after, Table(s', d), 5)) && FrameOf(Peek(after, Table(s', d), 5)) == 0
  {
    var s' := Step(s, Forks(0, nr, pcb));
    assert s' == Fork(s, 0, nr, pcb, DATA_DIRS).0;
    hide Step, Fork, Private, Booted, CanFork, Inv, FreeFrame, Sized, UnWriteProtect, Peek, Page;
    NothingLeft(s, nr, pcb);
    FirstChild(s, nr, pcb);
    var d := DirOf(nr, 5);
    assert SlotOf(5) == 5 && Maps(s', d, 5, 5) && !CanWrite(s', d, 5);
    LowPageNeedsCopy(s', d, 5, 5);
    assert FrameAt(s', d, 5) == 5;
    hide Maps, CanWrite, DirOf, SlotOf, CopiesPage, FrameAt;
    UnsafeStep(s', Writes(nr, 5, w, v));
  }

  // ---------- memory ends just above a window ----------

  /** With 4 MB and 12 KB the child's first two tables are in frames 1025 and 1024, which it maps itself. */
  lemma TablesMapped(s: State, nr: int, pcb: seq<int>)
    requires Booted(s) && Sized(s, 3084) && CanFork(s, 0, nr, pcb, DATA_DIRS)
    ensures var (s', ok) := Fork(s, 0, nr, pcb, DATA_DIRS);
      ok && Inv(s') && FreeFrame(s') == 1021 && Table(s', TASK_DIRS * nr) == 1025
  {
    CrowdedMemory(s, nr, pcb, DATA_DIRS);
    FiveFrames(1027);
    Picks(1027);
    assert BootPlan(256, 1027) == [1026, 1025, 1024, 1023, 1022];
    assert Pick(1022, DATA_DIRS) == 1021;
    hide Fork, Private, Booted, CanFork, Inv, FreeFrame, PickFree, BootPlan, Plan, WritesOnly, StructureInWindow, AnyInWindow, Table, TaskFrame, Pick;
    BootInv(s);
    BootPlanIs(s);
    BootPick(s, 1022, DATA_DIRS);
    ZeroForkOutcome(s, nr, pcb, DATA_DIRS);
  }

  /** A write to page 0 needs a copy, and page 1025 is the table that maps page 0. */
  ghost predicate MapsOwnTable(s: State, nr: int) {
    var d := DirOf(nr, 0);
    && 1 <= nr < NR_TASKS && CopiesPage(s, d, 0) && FreeFrame(s) == 1021 && Table(s, d) == 1025 && Maps(s, d + 1, 1, 1025)
  }

  lemma ChildMapsOwnTable(s: State, nr: int, pcb: seq<int>)
    requires Booted(s) && Sized(s, 3084) && CanFork(s, 0, nr, pcb, DATA_DIRS)
    ensures var (s', ok) := Fork(s, 0, nr, pcb, DATA_DIRS);
      ok && Inv(s') && MapsOwnTable(s', nr)
  {
    var s' := Fork(s, 0, nr, pcb, DATA_DIRS).0;
    assert DirOf(nr, 0) == TASK_DIRS * nr && SlotOf(0) == 0 && DirOf(nr, 1025) == TASK_DIRS * nr + 1 && SlotOf(1025) == 1;
    hide Fork, Booted, CanFork, Inv, FreeFrame, Sized, Table, CopiesPage, CanWrite, Maps, DirOf;
    TablesMapped(s, nr, pcb);
    FirstChild(s, nr, pcb);
    var d := DirOf(nr, 0);
    assert Maps(s', d, 0, 0) && !CanWrite(s', d, 0) && Maps(s', DirOf(nr, 1025), SlotOf(1025), 1025);
    LowPageNeedsCopy(s', d, 0, 0);
  }

  /** So on that machine one write by the child to its page 0 changes its page 1025 too: the step is not
      that of private memories. */
  lemma OneWriteShows(s: State, nr: int, pcb: seq<int>, w: int, v: int)
    requires Booted(s) && Sized(s, 3084) && CanFork(s, 0, nr, pcb, DATA_DIRS) && 0 <= w < ENTRIES
    ensures var s' := Step(s, Forks(0, nr, pcb));
      var op := Writes(nr, 0, w, v);
      && Forked(s, Forks(0, nr, pcb)) && Inv(s') && Enabled(s', op)
      && Breaks(s', op)
  {
    var s' := Step(s, Forks(0, nr, pcb));
    assert s' == Fork(s, 0, nr, pcb, DATA_DIRS).0;
    hide Fork, Booted, CanFork, Inv, FreeFrame, Sized, Breaks, Step, MapsOwnTable, Enabled;
    ChildMapsOwnTable(s, nr, pcb);
    OwnTableShows(s', nr, w, v);
  }

  lemma OwnTableShows(s: State, nr: int, w: int, v: int)
    requires Inv(s) && MapsOwnTable(s, nr) && 0 <= w < ENTRIES
    ensures Enabled(s, Writes(nr, 0, w, v)) && Breaks(s, Writes(nr, 0, w, v))
  {
    var d := DirOf(nr, 0);
    assert d == TASK_DIRS * nr && PageOf(d, 0) == 0 && d / TASK_DIRS == nr;
    hide Inv, FreeFrame, CopiesPage, Table, Maps, Enabled, Breaks;
    TableShows(s, d, 0, d + 1, 1, w, v);
  }
}
