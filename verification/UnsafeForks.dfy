/** What an unsafe fork of task 0 leads to: a write after which the tasks see what they would not see in
    memories of their own. */
module UnsafeForks {
  import opened Kernel
  import opened PageTables
  import opened Conservation
  import opened Forking
  import opened Faults
  import opened Isolation
  import opened PrivateMemory
  import opened TaskZero
  import opened Runs

  /** The step is not that of private memories. */
  ghost predicate Breaks(s: State, op: Op) {
    Abstract(Step(s, op)) != SpecStep(Abstract(s), op, s.ram, Forked(s, op))
  }

  function PageOf(d: int, i: int): int {
    d % TASK_DIRS * ENTRIES + i
  }

  lemma PageAt(s: State, d: int, i: int)
    requires Inv(s) && TASK_DIRS <= d && Mapped(s, d, i)
    ensures 1 <= d / TASK_DIRS < NR_TASKS && 0 <= PageOf(d, i) < PAGES
    ensures DirOf(d / TASK_DIRS, PageOf(d, i)) == d && SlotOf(PageOf(d, i)) == i
  {
    assert d % TASK_DIRS < DATA_DIRS;
    assert PageOf(d, i) / ENTRIES == d % TASK_DIRS && PageOf(d, i) % ENTRIES == i;
  }

  lemma OtherPage(s: State, s': State, u: int, p: int, x: int, q: int, w: int, v: int)
    requires 1 <= u < NR_TASKS && 1 <= x < NR_TASKS && 0 <= q < PAGES && (x != u || q != p)
    requires View(s', DirOf(x, q), SlotOf(q)) != View(s, DirOf(x, q), SlotOf(q))
    ensures Abstract(s') != SpecStep(Abstract(s), Writes(u, p, w, v), s.ram, false)
  {
    hide View, DirOf, SlotOf, Words, WriteIn;
    var spec := SpecStep(Abstract(s), Writes(u, p, w, v), s.ram, false);
    assert x in spec && x in Abstract(s');
    assert q in spec[x] <==> q in MemoryOf(s, x);
    assert q in spec[x] ==> spec[x][q] == MemoryOf(s, x)[q];
  }

  /** After a write at (d, i) the specification has changed that page only. */
  lemma OtherPageDiffers(s: State, s': State, d: int, i: int, e: int, j: int, w: int, v: int)
    requires Inv(s) && TASK_DIRS <= d && TASK_DIRS <= e && Mapped(s, d, i) && Mapped(s, e, j) && (e != d || j != i)
    requires View(s', e, j) != View(s, e, j)
    ensures Abstract(s') != SpecStep(Abstract(s), Writes(d / TASK_DIRS, PageOf(d, i), w, v), s.ram, false)
  {
    PageAt(s, d, i);
    PageAt(s, e, j);
    hide Inv, View, DirOf, SlotOf, PageOf, Mapped, Abstract, SpecStep;
    OtherPage(s, s', d / TASK_DIRS, PageOf(d, i), e / TASK_DIRS, PageOf(e, j), w, v);
  }

  /** Storing in the task's new page leaves the page at (e, j) as the fault has left it. */
  lemma StoreElsewhere(s: State, d: int, i: int, w: int, v: int, e: int, j: int, t: int)
    requires Inv(s) && d >= TASK_DIRS && CanWrite(s, d, i) && 0 <= w < ENTRIES && Maps(s, e, j, t) && FrameAt(s, d, i) != t
    ensures View(Store(s, d, i, w, v), e, j) == View(s, e, j)
  {
    StoreEffect(s, d, i, w, v);
    StoreMappings(s, d, i, w, v);
    assert forall f :: Maps(s, e, j, f) ==> f == t;
    hide Inv, Store, FrameAt, Maps, CanWrite, View, Page;
    SameView(s, Store(s, d, i, w, v), e, j, e, j);
  }

  /** A task that maps one of its own page tables sees its memory change when another page is copied. */
  lemma FaultShowsInTable(s: State, d: int, i: int, e: int, j: int)
    requires Inv(s) && d >= TASK_DIRS && Mapped(s, d, i) && NeedsCopy(s, d, i) && FreeFrame(s) != 0
    requires Maps(s, e, j, Table(s, d)) && (e != d || j != i)
    ensures View(UnWriteProtect(s, Table(s, d), i), e, j) != View(s, e, j)
  {
    var t, f, was := Table(s, d), FreeFrame(s), FrameOf(Entry(s, d, i));
    var s' := UnWriteProtect(s, t, i);
    assert LOW_FRAMES <= t < FRAMES;
    CopyEffect(s, d, i);
    CopyMappings(s, d, i);
    assert Entry(s', d, i) == UserEntry(f) && FrameOf(Entry(s', d, i)) != was;
    assert Peek(s', t, i) != Peek(s, t, i);
    assert Page(s', t) != Page(s, t);
    assert Maps(s', e, j, t);
    hide UnWriteProtect, Inv, Peek, Page, NeedsCopy, FreeFrame, Maps, View, Entry, Table;
    ViewOf(s, e, j, t);
    ViewOf(s', e, j, t);
  }

  /** The fault, and the store in the new page. */
  lemma StepIsFault(s: State, d: int, i: int, w: int, v: int)
    requires Inv(s) && d >= TASK_DIRS && CopiesPage(s, d, i) && FreeFrame(s) != 0
    ensures Step(s, Writes(d / TASK_DIRS, PageOf(d, i), w, v)) == Store(UnWriteProtect(s, Table(s, d), i), d, i, w, v)
  {
    PageAt(s, d, i);
    CopyMappings(s, d, i);
    hide UnWriteProtect, Store, NeedsCopy, FreeFrame, Inv, DirOf, SlotOf, PageOf;
  }

  lemma CopyEnabled(s: State, d: int, i: int, w: int, v: int)
    requires Inv(s) && d >= TASK_DIRS && CopiesPage(s, d, i) && FreeFrame(s) != 0 && 0 <= w < ENTRIES
    ensures Enabled(s, Writes(d / TASK_DIRS, PageOf(d, i), w, v))
  {
    PageAt(s, d, i);
  }

  /** A write that copies a page shows at the page that holds its table, if some task maps that. */
  lemma TableShows(s: State, d: int, i: int, e: int, j: int, w: int, v: int)
    requires Inv(s) && d >= TASK_DIRS && CopiesPage(s, d, i) && FreeFrame(s) != 0 && 0 <= w < ENTRIES
    requires TASK_DIRS <= e && Maps(s, e, j, Table(s, d)) && (e != d || j != i)
    ensures var op := Writes(d / TASK_DIRS, PageOf(d, i), w, v);
      Enabled(s, op) && Breaks(s, op)
  {
    var t, f := Table(s, d), FreeFrame(s);
    var after := UnWriteProtect(s, t, i);
    CopyEnabled(s, d, i, w, v);
    StepIsFault(s, d, i, w, v);
    FaultShowsInTable(s, d, i, e, j);
    CopyMappings(s, d, i);
    CopyKeeps(s, d, i);
    CopyEffect(s, d, i);
    assert Maps(after, d, i, f) && Maps(after, e, j, t) && FrameAt(after, d, i) == f != t;
    assert CanWrite(after, d, i) && Mapped(s, d, i) && Mapped(s, e, j);
    hide UnWriteProtect, Inv, FreeFrame, View, Store, Step, NeedsCopy, Maps, Mapped, CanWrite, Abstract, SpecStep, PageOf, FrameAt;
    StoreElsewhere(after, d, i, w, v, e, j, t);
    OtherPageDiffers(s, Store(after, d, i, w, v), d, i, e, j, w, v);
  }

  // ---------- a page in use is shared ----------

  lemma StoreInPlace(s: State, d: int, i: int, w: int, v: int)
    requires Inv(s) && d >= TASK_DIRS && CanWrite(s, d, i) && 0 <= w < ENTRIES
    ensures var op := Writes(d / TASK_DIRS, PageOf(d, i), w, v);
      Enabled(s, op) && Step(s, op) == Store(s, d, i, w, v)
  {
    PageAt(s, d, i);
    hide Store, Inv, DirOf, SlotOf, PageOf, NeedsCopy, FreeFrame;
  }

  lemma PageWords(s: State, f: int)
    requires Inv(s) && 0 <= f < FRAMES
    ensures |Page(s, f)| == ENTRIES
  {
  }

  /** A write in place shows at every other page with the same frame. */
  lemma SharedPageShows(s: State, d: int, i: int, e: int, j: int, f: int, w: int, v: int)
    requires Inv(s) && TASK_DIRS <= d && TASK_DIRS <= e && (e != d || j != i) && 0 <= w < ENTRIES
    requires Maps(s, d, i, f) && CanWrite(s, d, i) && Maps(s, e, j, f) && 0 <= f < FRAMES
    requires |Page(s, f)| == ENTRIES && v != Page(s, f)[w]
    ensures var op := Writes(d / TASK_DIRS, PageOf(d, i), w, v);
      Enabled(s, op) && Breaks(s, op)
  {
    var s' := Store(s, d, i, w, v);
    assert FrameAt(s, d, i) == f && Mapped(s, d, i) && Mapped(s, e, j);
    StoreInPlace(s, d, i, w, v);
    StoreEffect(s, d, i, w, v);
    StoreMappings(s, d, i, w, v);
    assert Page(s', f)[w] == v && Page(s', f) != Page(s, f);
    hide Inv, View, Store, Step, Maps, Mapped, CanWrite, Abstract, SpecStep, PageOf, FrameAt, Page, Enabled;
    ViewOf(s, e, j, f);
    ViewOf(s', e, j, f);
    OtherPageDiffers(s, s', d, i, e, j, w, v);
  }

  // ---------- the fork ----------

  lemma ForkedChild(s: State, nr: int, pcb: seq<int>, dirs: int, f: int)
    requires Inv(s) && CanFork(s, 0, nr, pcb, dirs) && Fork(s, 0, nr, pcb, dirs).1 && InWindow(f)
    ensures var s' := Fork(s, 0, nr, pcb, dirs).0;
      && Inv(s') && 1 <= nr < NR_TASKS && DirOf(nr, f) / TASK_DIRS == nr && TASK_DIRS <= DirOf(nr, f)
      && Maps(s', DirOf(nr, f), SlotOf(f), f)
  {
    ZeroForkDone(s, nr, pcb, dirs);
    hide Fork, Maps, Inv, FreshFrames, SameWrites;
    ChildMaps(s, Fork(s, 0, nr, pcb, dirs).0, nr, dirs, f);
    DirOfTask(nr, f);
  }

  /** If, before the fork, some task can write a page that is shared, its next write there of another value
      changes the child's memory too. */
  lemma SharedWriterShows(s: State, nr: int, pcb: seq<int>, dirs: int, d: int, i: int, f: int, w: int, v: int)
    requires Inv(s) && CanFork(s, 0, nr, pcb, dirs) && Fork(s, 0, nr, pcb, dirs).1
    requires TASK_DIRS <= d && Maps(s, d, i, f) && CanWrite(s, d, i) && InWindow(f) && 0 <= w < ENTRIES
    requires |Page(Fork(s, 0, nr, pcb, dirs).0, f)| == ENTRIES && v != Page(Fork(s, 0, nr, pcb, dirs).0, f)[w]
    ensures var s' := Fork(s, 0, nr, pcb, dirs).0;
      var op := Writes(d / TASK_DIRS, PageOf(d, i), w, v);
      Enabled(s', op) && Breaks(s', op)
  {
    var s' := Fork(s, 0, nr, pcb, dirs).0;
    ForkedChild(s, nr, pcb, dirs, f);
    StillWritable(s, s', nr, pcb, dirs, d, i, f);
    hide *;
    SharedPageShows(s', d, i, DirOf(nr, f), SlotOf(f), f, w, v);
  }

  lemma StillWritable(s: State, s': State, nr: int, pcb: seq<int>, dirs: int, d: int, i: int, f: int)
    requires Inv(s) && CanFork(s, 0, nr, pcb, dirs) && Fork(s, 0, nr, pcb, dirs) == (s', true)
    requires TASK_DIRS <= d && Maps(s, d, i, f) && CanWrite(s, d, i) && InWindow(f)
    ensures Maps(s', d, i, f) && CanWrite(s', d, i) && d / TASK_DIRS != nr && 0 <= f < FRAMES
  {
    ZeroForkDone(s, nr, pcb, dirs);
    hide Fork, Maps, CanWrite, Inv, FreshFrames;
    assert d / TASK_DIRS != nr;
    assert !(TASK_DIRS * nr <= d < TASK_DIRS * nr + dirs);
  }

  /** If, after the fork, a page table lies in a page that is shared, a write that copies a page below it
      changes the child's memory too. */
  lemma SharedTableShows(s: State, nr: int, pcb: seq<int>, dirs: int, d: int, i: int, w: int, v: int)
    requires Inv(s) && CanFork(s, 0, nr, pcb, dirs) && Fork(s, 0, nr, pcb, dirs).1
    requires var s' := Fork(s, 0, nr, pcb, dirs).0;
      && TASK_DIRS <= d && CopiesPage(s', d, i) && FreeFrame(s') != 0 && InWindow(Table(s', d)) && 0 <= w < ENTRIES
      && (d != DirOf(nr, Table(s', d)) || i != SlotOf(Table(s', d)))
    ensures var s' := Fork(s, 0, nr, pcb, dirs).0;
      var op := Writes(d / TASK_DIRS, PageOf(d, i), w, v);
      Enabled(s', op) && Breaks(s', op)
  {
    var s' := Fork(s, 0, nr, pcb, dirs).0;
    ForkedChild(s, nr, pcb, dirs, Table(s', d));
    hide *;
    TableShows(s', d, i, DirOf(nr, Table(s', d)), SlotOf(Table(s', d)), w, v);
  }

  /** Whenever a page that some task can write is shared, there is such a write. */
  lemma UnsafeForkShows(s: State, nr: int, pcb: seq<int>, dirs: int) returns (op: Op)
    requires Inv(s) && CanFork(s, 0, nr, pcb, dirs) && Fork(s, 0, nr, pcb, dirs).1 && WritesWindow(s)
    ensures Enabled(Fork(s, 0, nr, pcb, dirs).0, op) && Breaks(Fork(s, 0, nr, pcb, dirs).0, op)
  {
    var s' := Fork(s, 0, nr, pcb, dirs).0;
    hide Fork, Maps, CanWrite, Inv, CanFork, Enabled, Breaks, Page;
    var d, i, f :| TASK_DIRS <= d && Maps(s, d, i, f) && CanWrite(s, d, i) && InWindow(f);
    ForkedChild(s, nr, pcb, dirs, f);
    PageWords(s', f);
    op := Writes(d / TASK_DIRS, PageOf(d, i), 0, Page(s', f)[0] + 1);
    SharedWriterShows(s, nr, pcb, dirs, d, i, f, 0, Page(s', f)[0] + 1);
  }
}
