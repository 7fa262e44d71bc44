/** Linear addresses: what a store through a segment does to the memories of the tasks.  Every task has its
    own data segment, and all of them have the video segment, which begins below LOW_MEM and reaches far
    into the windows of other tasks. */
module LinearAddresses {
  import opened Kernel
  import opened PageTables
  import opened Conservation
  import opened Allocation
  import opened Release
  import opened Isolation
  import opened PrivateMemory
  import opened Boot
  import opened Runs

  const PAGE_SIZE := 4096
  const LOW_MEM := 0x100000
  const TASK_SIZE := 0x4000000
  const TABLE_SPAN := 0x400000     // 4 MB: what one directory entry covers
  const DATA_LIMIT := 0x1000000    // get_limit(0x17) of every task

  const VIDEO_BASE := 0xb8000
  const VIDEO_LIMIT := 0x1000_0000
  const VIDEO_FRAME := 184         // VIDEO_BASE >> 12

  // ---------- addresses ----------

  /** An address in slot i below directory entry d, at byte b of the page. */
  lemma TakesApart(d: int, i: int, b: int)
    requires 0 <= i < ENTRIES && 0 <= b < PAGE_SIZE
    ensures var address := d * TABLE_SPAN + i * PAGE_SIZE + b;
      address / TABLE_SPAN == d && address / PAGE_SIZE % ENTRIES == i && address % PAGE_SIZE == b
  {
    var address := d * TABLE_SPAN + i * PAGE_SIZE + b;
    var rest := i * PAGE_SIZE + b;
    assert 0 <= rest < TABLE_SPAN && address == d * TABLE_SPAN + rest;
    assert address == (ENTRIES * d + i) * PAGE_SIZE + b;
    assert address / PAGE_SIZE == ENTRIES * d + i;
  }

  /** How the hardware and `do_wp_page` take a linear address apart. */
  lemma AddressSplits(t: int, p: int, w: int)
    requires 1 <= t < NR_TASKS && 0 <= p < PAGES && 0 <= w < ENTRIES
    ensures var address := t * TASK_SIZE + p * PAGE_SIZE + 4 * w;
      && TASK_SIZE <= address < NR_TASKS * TASK_SIZE
      && address / TABLE_SPAN == DirOf(t, p) && address / PAGE_SIZE % ENTRIES == SlotOf(p) && address % PAGE_SIZE / 4 == w
  {
    var q, i := p / ENTRIES, p % ENTRIES;
    assert p == ENTRIES * q + i && 0 <= q < DATA_DIRS;
    assert t * TASK_SIZE + p * PAGE_SIZE + 4 * w == (TASK_DIRS * t + q) * TABLE_SPAN + i * PAGE_SIZE + 4 * w;
    TakesApart(TASK_DIRS * t + q, i, 4 * w);
    assert 4 * w / 4 == w;
  }

  datatype Segment = Data | Video

  function Linear(t: int, seg: Segment, offset: int): int {
    match seg
    case Data => t * TASK_SIZE + offset
    case Video => VIDEO_BASE + offset
  }

  predicate InSegment(seg: Segment, offset: int) {
    0 <= offset < (if seg == Data then DATA_LIMIT else VIDEO_LIMIT)
  }

  /** Whose window the address is in; 0 below the windows. */
  function Owner(address: int): int {
    address / TASK_SIZE
  }

  function PageIn(address: int): int {
    address % TASK_SIZE / PAGE_SIZE
  }

  function WordIn(address: int): int {
    address % PAGE_SIZE / 4
  }

  /** A store of one word, by whichever task. */
  function StoreAt(s: State, address: int, v: int): State {
    WriteWord(s, address / TABLE_SPAN, address / PAGE_SIZE % ENTRIES, WordIn(address), v)
  }

  lemma AddressParts(address: int)
    requires 0 <= address < NR_TASKS * TASK_SIZE
    ensures 0 <= Owner(address) < NR_TASKS && 0 <= WordIn(address) < ENTRIES && 0 <= PageIn(address) < TASK_DIRS * ENTRIES
    ensures address / TABLE_SPAN == DirOf(Owner(address), PageIn(address)) && address / PAGE_SIZE % ENTRIES == SlotOf(PageIn(address))
    ensures address % TASK_SIZE < DATA_LIMIT <==> PageIn(address) < PAGES
    ensures address / TABLE_SPAN % TASK_DIRS == PageIn(address) / ENTRIES && address / TABLE_SPAN / TASK_DIRS == Owner(address)
  {
    var u, rest := address / TASK_SIZE, address % TASK_SIZE;
    var p, b := rest / PAGE_SIZE, rest % PAGE_SIZE;
    var q, i := p / ENTRIES, p % ENTRIES;
    assert address == u * TASK_SIZE + rest && rest == p * PAGE_SIZE + b && p == q * ENTRIES + i;
    assert 0 <= q < TASK_DIRS;
    assert address == (TASK_DIRS * u + q) * TABLE_SPAN + i * PAGE_SIZE + b;
    TakesApart(TASK_DIRS * u + q, i, b);
  }

  // ---------- a store in the windows of the tasks 1..63 ----------

  /** A store is a write to the memory of the task whose window the address is in, whoever makes it; behind
      the first 16 MB of a window there is nothing. */
  lemma StoreIsWrite(s: State, address: int, v: int)
    requires Inv(s) && TASK_SIZE <= address < NR_TASKS * TASK_SIZE
    ensures 1 <= Owner(address) < NR_TASKS
    ensures StoreAt(s, address, v) ==
      if PageIn(address) < PAGES then Step(s, Writes(Owner(address), PageIn(address), WordIn(address), v)) else s
  {
    AddressParts(address);
    var d, i := address / TABLE_SPAN, address / PAGE_SIZE % ENTRIES;
    if PageIn(address) >= PAGES {
      assert d % TASK_DIRS >= DATA_DIRS && TASK_DIRS <= d;
      NoTableThere(s, d, i);
    }
    hide WriteWord, DirOf, SlotOf, Inv;
  }

  lemma NoTableThere(s: State, d: int, i: int)
    requires Inv(s) && (TASK_DIRS <= d ==> d % TASK_DIRS >= DATA_DIRS) && (d < TASK_DIRS ==> DATA_DIRS <= d)
    ensures forall w, v :: WriteWord(s, d, i, w, v) == s
  {
    assert !Mapped(s, d, i);
  }

  // ---------- a store below LOW_MEM ----------

  /** Task 0's tables let everyone write the pages of the video memory. */
  ghost predicate LowWritable(s: State) {
    forall i :: VIDEO_FRAME <= i < LOW_FRAMES ==> CanWrite(s, 0, i)
  }

  lemma BootLowWritable(s: State)
    requires Booted(s)
    ensures LowWritable(s)
  {
    forall i | VIDEO_FRAME <= i < LOW_FRAMES ensures CanWrite(s, 0, i) {
      assert Dir(s, 0) == UserEntry(1) && Peek(s, 1, i) == UserEntry(ENTRIES * 0 + i);
    }
  }

  /** A page of the kernel image is stored to, other than the directory and task 0's tables. */
  lemma LowStoreEffect(s: State, f: int, w: int, v: int)
    requires Inv(s) && DATA_DIRS < f < LOW_FRAMES
    ensures var s' := Poke(s, f, w, v);
      && Shape(s') && SameDirectory(s, s') && s'.memMap == s.memMap && SameMappings(s, s')
      && (forall g :: g != f ==> Page(s', g) == Page(s, g))
  {
    var s' := Poke(s, f, w, v);
    assert forall d :: Dir(s', d) == Dir(s, d);
    assert forall d, i :: HasTable(s, d) && IsSlot(d, i) ==> Entry(s', d, i) == Entry(s, d, i);
    hide Poke, Peek, Entry, Present, FrameOf, Writable;
    assert forall d :: HasTable(s', d) == HasTable(s, d);
    forall d, i, g ensures Maps(s', d, i, g) <==> Maps(s, d, i, g) {
      assert HasTable(s', d) == HasTable(s, d);
    }
    forall d, i ensures CanWrite(s', d, i) == CanWrite(s, d, i) {
      assert HasTable(s', d) == HasTable(s, d);
    }
  }

  lemma SameMappingsPrivate(s: State, s': State)
    requires Private(s) && SameDirectory(s, s') && SameMappings(s, s')
    ensures Private(s')
  {
    forall g ensures IsTable(s', g) == IsTable(s, g) && IsTask(s', g) == IsTask(s, g) {
      SameUses(s, s', g);
    }
    hide Maps, CanWrite, IsTable, IsTask;
  }

  lemma LowStoreViews(s: State, f: int, w: int, v: int)
    requires Inv(s) && DATA_DIRS < f < LOW_FRAMES
    ensures var s' := Poke(s, f, w, v);
      Inv(s') && SameViews(s, s') && (Private(s) ==> Private(s')) && (LowWritable(s) ==> LowWritable(s'))
  {
    var s' := Poke(s, f, w, v);
    LowStoreEffect(s, f, w, v);
    hide Poke, Inv, View, Maps, Page, CanWrite;
    SameCountsKeep(s, s');
    if Private(s) {
      SameMappingsPrivate(s, s');
    }
    forall e, j | TASK_DIRS <= e ensures View(s', e, j) == View(s, e, j) {
      SameView(s, s', e, j, e, j);
    }
  }

  lemma VideoSlot(address: int)
    requires VIDEO_BASE <= address < LOW_MEM
    ensures address / TABLE_SPAN == 0 && VIDEO_FRAME <= address / PAGE_SIZE % ENTRIES < LOW_FRAMES && DATA_DIRS < VIDEO_FRAME
  {
  }

  lemma LowFrame(s: State, i: int)
    requires Inv(s) && 0 <= i < ENTRIES
    ensures FrameAt(s, 0, i) == i
  {
    assert Maps(s, 0, i, ENTRIES * 0 + i);
  }

  /** A store through the beginning of the video segment changes no task's memory. */
  lemma LowStore(s: State, address: int, v: int)
    requires Inv(s) && Private(s) && LowWritable(s) && VIDEO_BASE <= address < LOW_MEM
    ensures var s' := StoreAt(s, address, v);
      Inv(s') && Private(s') && LowWritable(s') && Abstract(s') == Abstract(s)
  {
    VideoSlot(address);
    var i := address / PAGE_SIZE % ENTRIES;
    assert CanWrite(s, 0, i);
    LowFrame(s, i);
    LowStoreViews(s, i, WordIn(address), v);
    hide Inv, Private, LowWritable, CanWrite, View, FrameAt, WordIn, Poke;
    assert StoreAt(s, address, v) == Poke(s, i, WordIn(address), v) by {
      LowStoreIs(s, i, WordIn(address), v);
    }
    SameAbstract(s, StoreAt(s, address, v));
  }

  lemma LowStoreIs(s: State, i: int, w: int, v: int)
    requires CanWrite(s, 0, i) && FrameAt(s, 0, i) == i
    ensures WriteWord(s, 0, i, w, v) == Poke(s, i, w, v)
  {
    hide Poke, FrameAt;
  }

  lemma SameAbstract(s: State, s': State)
    requires SameViews(s, s')
    ensures Abstract(s') == Abstract(s)
  {
    hide View, DirOf, SlotOf;
    forall t | 1 <= t < NR_TASKS ensures MemoryOf(s', t) == MemoryOf(s, t) {
      forall p | 0 <= p < PAGES ensures View(s', DirOf(t, p), SlotOf(p)) == View(s, DirOf(t, p), SlotOf(p)) {
        DirOfTask(t, p);
      }
      SameMemory(s, s', t, t);
    }
  }

  // ---------- a store to physical memory ----------

  /** Through task 0's map of physical memory a store changes the page of everyone who maps the frame. */
  lemma PhysicalStore(s: State, address: int, v: int, e: int, j: int)
    requires Inv(s) && LOW_MEM <= address < DATA_LIMIT && CanWrite(s, address / TABLE_SPAN, address / PAGE_SIZE % ENTRIES)
    requires var f := address / PAGE_SIZE; !IsTable(s, f) && !IsTask(s, f) && TASK_DIRS <= e && Maps(s, e, j, f)
    ensures var f := address / PAGE_SIZE;
      && View(s, e, j) == Own(Page(s, f)) && 0 <= WordIn(address) < |Page(s, f)|
      && View(StoreAt(s, address, v), e, j) == Own(Page(s, f)[WordIn(address) := v])
  {
    var f := address / PAGE_SIZE;
    var d, i := address / TABLE_SPAN, address / PAGE_SIZE % ENTRIES;
    assert 0 <= d < DATA_DIRS && f == ENTRIES * d + i && LOW_FRAMES <= f < FRAMES;
    assert Maps(s, d, i, f);
    var s' := StoreAt(s, address, v);
    assert s' == Poke(s, f, WordIn(address), v);
    FreePageStore(s, f, WordIn(address), v);
    hide Inv, StoreAt, View, Page;
    ViewOf(s, e, j, f);
    ViewOf(s', e, j, f);
  }

  lemma FreePageStore(s: State, f: int, w: int, v: int)
    requires Inv(s) && LOW_FRAMES <= f < FRAMES && !IsTable(s, f) && !IsTask(s, f) && 0 <= w < ENTRIES
    ensures var s' := Poke(s, f, w, v);
      SameMappings(s, s') && |Page(s, f)| == ENTRIES && Page(s', f) == Page(s, f)[w := v]
  {
    var s' := Poke(s, f, w, v);
    forall d | HasTable(s, d) ensures Table(s, d) != f {
      assert TASK_DIRS <= d ==> d in TableUses(s, Table(s, d));
    }
    assert forall d :: Dir(s', d) == Dir(s, d);
    assert forall d, i :: HasTable(s, d) && IsSlot(d, i) ==> Entry(s', d, i) == Entry(s, d, i);
    hide Poke, Peek, Entry, Present, FrameOf, Writable, TableUses;
    forall d, i, g ensures Maps(s', d, i, g) <==> Maps(s, d, i, g) {
      assert HasTable(s', d) == HasTable(s, d);
    }
    forall d, i ensures CanWrite(s', d, i) == CanWrite(s, d, i) {
      assert HasTable(s', d) == HasTable(s, d);
    }
  }
}
