/** Runs: forks by any task and writes to the pages of the tasks 1..63 in any order, against a machine in which
    every one of these tasks simply has a memory of its own. */
module Runs {
  import opened Kernel
  import opened PageTables
  import opened Conservation
  import opened Allocation
  import opened Release
  import opened Forking
  import opened Faults
  import opened Isolation
  import opened PrivateMemory
  import opened ZeroFork
  import opened Kept

  const PAGES := 4096   // pages of a task below its 16 MB limit

  // ---------- the machine ----------

  /** A write goes to word w of page p of task t, as task t's own segments do; stores through other segments
      are in module Stores. */
  datatype Op = Forks(parent: int, nr: int, pcb: seq<int>) | Writes(t: int, p: int, w: int, v: int)

  function DirOf(t: int, p: int): int {
    TASK_DIRS * t + p / ENTRIES
  }

  function SlotOf(p: int): int {
    p % ENTRIES
  }

  function Store(s: State, d: int, i: int, w: int, v: int): State {
    Poke(s, FrameAt(s, d, i), w, v)
  }

  /** A write to a page that is not present does nothing; one to a page that is not writable faults,
      and is tried once more after `do_wp_page`. */
  function WriteWord(s: State, d: int, i: int, w: int, v: int): State {
    if !Mapped(s, d, i) then s
    else if CanWrite(s, d, i) then Store(s, d, i, w, v)
    else
      var after := UnWriteProtect(s, Table(s, d), i);
      if CanWrite(after, d, i) then Store(after, d, i, w, v) else after
  }

  function Step(s: State, op: Op): State {
    match op
    case Forks(parent, nr, pcb) => Fork(s, parent, nr, pcb, DATA_DIRS).0
    case Writes(t, p, w, v) => WriteWord(s, DirOf(t, p), SlotOf(p), w, v)
  }

  /** What may happen: a task forks into an empty slot, or one of the tasks 1..63 writes inside its limit. */
  ghost predicate Attempt(s: State, op: Op) {
    match op
    case Forks(parent, nr, pcb) => CanFork(s, parent, nr, pcb, DATA_DIRS)
    case Writes(t, p, w, v) => 1 <= t < NR_TASKS && 0 <= p < PAGES && 0 <= w < ENTRIES
  }

  /** A fault that needs a copy. */
  ghost predicate CopiesPage(s: State, d: int, i: int) {
    Mapped(s, d, i) && !CanWrite(s, d, i) && NeedsCopy(s, d, i)
  }

  /** The two cases in which the code does not do what it is for are excluded, in terms of the state before
      the step: a fault with no frame for the copy, and a fork by task 0 that shares pages in use. */
  ghost predicate Safe(s: State, op: Op) {
    match op
    case Forks(parent, _, _) => parent == 0 && |Plan(s)| == FORK_FRAMES ==> SafeZeroFork(s)
    case Writes(t, p, _, _) => CopiesPage(s, DirOf(t, p), SlotOf(p)) ==> FreeFrame(s) != 0
  }

  ghost predicate Enabled(s: State, op: Op) {
    Attempt(s, op) && Safe(s, op)
  }

  function Run(s: State, ops: seq<Op>): State
    decreases |ops|
  {
    if ops == [] then s else Run(Step(s, ops[0]), ops[1..])
  }

  ghost predicate Runnable(s: State, ops: seq<Op>)
    decreases |ops|
  {
    ops == [] || (Enabled(s, ops[0]) && Runnable(Step(s, ops[0]), ops[1..]))
  }

  // ---------- the specification ----------

  /** What each task has at each of its pages; a page it does not have is not in its map. */
  type Memory = map<int, PageView>
  type Memories = map<int, Memory>

  ghost function MemoryOf(s: State, t: int): Memory {
    map p | 0 <= p < PAGES && View(s, DirOf(t, p), SlotOf(p)) != Absent :: View(s, DirOf(t, p), SlotOf(p))
  }

  ghost function Abstract(s: State): Memories {
    map t | 1 <= t < NR_TASKS :: MemoryOf(s, t)
  }

  /** The words of a page; those of a kernel page are the kernel's at this moment. */
  function Words(v: PageView, kernel: seq<seq<int>>): seq<int> {
    match v
    case Absent => []
    case Kernel(f) => if 0 <= f < |kernel| then kernel[f] else []
    case Own(words) => words
  }

  function WriteIn(words: seq<int>, w: int, v: int): seq<int> {
    if 0 <= w < |words| then words[w := v] else words
  }

  /** What the children of task 0 start with: the pages of its windows. */
  function Image(kernel: seq<seq<int>>): Memory {
    map p | 0 <= p < PAGES && ImagePage(p, kernel) != Absent :: ImagePage(p, kernel)
  }

  /** Fork copies a memory; a write changes one word of one page of one memory. */
  function SpecStep(m: Memories, op: Op, kernel: seq<seq<int>>, forked: bool): Memories
  {
    match op
    case Forks(parent, nr, _) =>
      if forked && parent == 0 then m[nr := Image(kernel)]
      else if forked && parent in m then m[nr := m[parent]]
      else m
    case Writes(t, p, w, v) =>
      if t in m && p in m[t] then m[t := m[t][p := Own(WriteIn(Words(m[t][p], kernel), w, v))]] else m
  }

  ghost predicate Forked(s: State, op: Op) {
    op.Forks? && Fork(s, op.parent, op.nr, op.pcb, DATA_DIRS).1
  }

  // ---------- one step ----------

  lemma StoreEffect(s: State, d: int, i: int, w: int, v: int)
    requires Inv(s) && d >= TASK_DIRS && CanWrite(s, d, i) && 0 <= w < ENTRIES
    ensures var s' := Store(s, d, i, w, v);
      var f := FrameAt(s, d, i);
      && LOW_FRAMES <= f < FRAMES && !IsTable(s, f) && !IsTask(s, f)
      && Shape(s') && SameDirectory(s, s') && s'.memMap == s.memMap
      && Page(s', f) == Page(s, f)[w := v]
      && (forall g :: g != f ==> Page(s', g) == Page(s, g))
      && (forall e, j :: HasTable(s, e) && IsSlot(e, j) ==> Entry(s', e, j) == Entry(s, e, j))
  {
    var f := FrameAt(s, d, i);
    assert Maps(s, d, i, f);
    assert LOW_FRAMES <= f < FRAMES && !IsTable(s, f) && !IsTask(s, f);
    var s' := Store(s, d, i, w, v);
    assert forall e :: Dir(s', e) == Dir(s, e);
    forall e, j | HasTable(s, e) && IsSlot(e, j) ensures Entry(s', e, j) == Entry(s, e, j) {
      assert e !in TableUses(s, f);
    }
  }

  lemma StoreMappings(s: State, d: int, i: int, w: int, v: int)
    requires Inv(s) && d >= TASK_DIRS && CanWrite(s, d, i) && 0 <= w < ENTRIES
    ensures SameMappings(s, Store(s, d, i, w, v)) && Inv(Store(s, d, i, w, v))
  {
    StoreEffect(s, d, i, w, v);
    var s' := Store(s, d, i, w, v);
    hide Store, Peek, FrameAt, Entry, Present, FrameOf, Writable;
    forall e, j, f ensures Maps(s', e, j, f) <==> Maps(s, e, j, f) {
      assert HasTable(s', e) == HasTable(s, e);
    }
    forall e, j ensures CanWrite(s', e, j) == CanWrite(s, e, j) {
      assert HasTable(s', e) == HasTable(s, e);
    }
    hide Inv, Maps, CanWrite;
    SameCountsKeep(s, s');
  }

  /** A store shows at its page and nowhere else. */
  ghost predicate StoreViews(s: State, s': State, d: int, i: int, words: seq<int>) {
    forall e, j {:trigger View(s', e, j)} :: TASK_DIRS <= e ==>
      View(s', e, j) == if e == d && j == i then Own(words) else View(s, e, j)
  }

  lemma StoreView(s: State, d: int, i: int, w: int, v: int)
    requires Inv(s) && Private(s) && d >= TASK_DIRS && CanWrite(s, d, i) && 0 <= w < ENTRIES
    ensures var s' := Store(s, d, i, w, v);
      && Inv(s') && Private(s') && View(s, d, i) == Own(Page(s, FrameAt(s, d, i)))
      && |Page(s, FrameAt(s, d, i))| == ENTRIES
      && StoreViews(s, s', d, i, Page(s, FrameAt(s, d, i))[w := v])
  {
    var f := FrameAt(s, d, i);
    var s' := Store(s, d, i, w, v);
    StoreEffect(s, d, i, w, v);
    StoreMappings(s, d, i, w, v);
    assert Maps(s, d, i, f) && |Page(s, f)| == ENTRIES;
    hide Inv, Store, FrameAt, Page;
    ViewOf(s, d, i, f);
    ViewOf(s', d, i, f);
    assert Private(s') by {
      forall g ensures IsTable(s', g) == IsTable(s, g) && IsTask(s', g) == IsTask(s, g) {
        SameUses(s, s', g);
      }
      hide Maps, CanWrite, IsTable, IsTask;
    }
    forall e, j | TASK_DIRS <= e
      ensures View(s', e, j) == if e == d && j == i then Own(Page(s, f)[w := v]) else View(s, e, j)
    {
      if e != d || j != i {
        assert !Maps(s, e, j, f);
        hide View, Maps;
        SameView(s, s', e, j, e, j);
      }
    }
  }

  /** What a write does: the page becomes the task's own, with one word changed. */
  lemma WriteView(s: State, d: int, i: int, w: int, v: int)
    requires Inv(s) && Private(s) && d >= TASK_DIRS && Mapped(s, d, i) && 0 <= w < ENTRIES
    requires !CanWrite(s, d, i) && NeedsCopy(s, d, i) ==> FreeFrame(s) != 0
    ensures var s' := WriteWord(s, d, i, w, v);
      && Inv(s') && Private(s') && |Page(s, FrameAt(s, d, i))| == ENTRIES
      && StoreViews(s, s', d, i, Page(s, FrameAt(s, d, i))[w := v])
  {
    hide Inv, Private, FrameAt, View, Page;
    if CanWrite(s, d, i) {
      StoreView(s, d, i, w, v);
    } else {
      FaultView(s, d, i);
      var after := UnWriteProtect(s, Table(s, d), i);
      StoreView(after, d, i, w, v);
      assert View(after, d, i) == Own(Page(s, FrameAt(s, d, i)));
    }
  }

  /** A write needs one fault at most: the second attempt goes through, also by the rules of user mode. */
  lemma OneFaultSuffices(s: State, d: int, i: int)
    requires Inv(s) && Private(s) && d >= TASK_DIRS && Mapped(s, d, i)
    requires NeedsCopy(s, d, i) ==> FreeFrame(s) != 0
    ensures var after := UnWriteProtect(s, Table(s, d), i);
      CanWrite(after, d, i) && (UserSpace(s) ==> UserSpace(after) && UserCanWrite(after, d, i))
  {
    FaultView(s, d, i);
    FaultKept(s, d, i);
    hide UnWriteProtect, Inv, Private, FaultViews, KeepsLow, KeepsTasks, NeedsCopy, Dir, Entry;
  }

  // ---------- refinement ----------

  lemma DirOfTask(t: int, p: int)
    requires 1 <= t < NR_TASKS && 0 <= p < PAGES
    ensures DirOf(t, p) / TASK_DIRS == t && TASK_DIRS <= DirOf(t, p) < ENTRIES && IsSlot(DirOf(t, p), SlotOf(p))
  {
  }

  lemma SameMemory(s: State, s': State, t: int, u: int)
    requires forall p :: 0 <= p < PAGES ==> View(s', DirOf(t, p), SlotOf(p)) == View(s, DirOf(u, p), SlotOf(p))
    ensures MemoryOf(s', t) == MemoryOf(s, u)
  {
    hide View, DirOf, SlotOf;
  }

  lemma ForkRefines(s: State, parent: int, nr: int, pcb: seq<int>, dirs: int)
    requires Inv(s) && Private(s) && 1 <= parent && CanFork(s, parent, nr, pcb, dirs)
    ensures var (s', ok) := Fork(s, parent, nr, pcb, dirs);
      Abstract(s') == if ok then Abstract(s)[nr := Abstract(s)[parent]] else Abstract(s)
  {
    hide Fork, View, MemoryOf, Inv, Private, SlotOf;
    ForkView(s, parent, nr, pcb, dirs);
    var (s', ok) := Fork(s, parent, nr, pcb, dirs);
    forall t | 1 <= t < NR_TASKS
      ensures MemoryOf(s', t) == MemoryOf(s, if ok && t == nr then parent else t)
    {
      var u := if ok && t == nr then parent else t;
      forall p | 0 <= p < PAGES
        ensures View(s', DirOf(t, p), SlotOf(p)) == View(s, DirOf(u, p), SlotOf(p))
      {
        DirOfTask(t, p);
        DirOfTask(u, p);
      }
      SameMemory(s, s', t, u);
    }
  }

  lemma ChildOfZero(s': State, nr: int, ram: seq<seq<int>>)
    requires 1 <= nr < NR_TASKS
    requires forall e, j {:trigger View(s', e, j)} :: e / TASK_DIRS == nr && IsSlot(e, j) ==>
      View(s', e, j) == ImagePage(ENTRIES * (e - TASK_DIRS * nr) + j, ram)
    ensures MemoryOf(s', nr) == Image(ram)
  {
    forall p | 0 <= p < PAGES ensures View(s', DirOf(nr, p), SlotOf(p)) == ImagePage(p, ram) {
      DirOfTask(nr, p);
      assert ENTRIES * (DirOf(nr, p) - TASK_DIRS * nr) + SlotOf(p) == p;
    }
    hide View, ImagePage, DirOf, SlotOf;
  }

  lemma ZeroForkRefines(s: State, nr: int, pcb: seq<int>, dirs: int)
    requires Inv(s) && Private(s) && CanFork(s, 0, nr, pcb, dirs) && (|Plan(s)| == FORK_FRAMES ==> SafeZeroFork(s))
    ensures var (s', ok) := Fork(s, 0, nr, pcb, dirs);
      && Inv(s') && Private(s')
      && Abstract(s') == if ok then Abstract(s)[nr := Image(s.ram)] else Abstract(s)
  {
    hide Fork, View, MemoryOf, Inv, Private, SlotOf, Plan, AnyInWindow, ImagePage;
    ZeroForkIff(s, nr, pcb, dirs);
    ZeroForkOthers(s, nr, pcb, dirs);
    var (s', ok) := Fork(s, 0, nr, pcb, dirs);
    assert 1 <= nr < NR_TASKS;
    if ok {
      ZeroChildImage(s, nr, pcb, dirs);
      ChildOfZero(s', nr, s.ram);
    }
    hide CanFork, SafeZeroFork;
    forall t | 1 <= t < NR_TASKS && !(ok && t == nr) ensures MemoryOf(s', t) == MemoryOf(s, t) {
      forall p | 0 <= p < PAGES ensures View(s', DirOf(t, p), SlotOf(p)) == View(s, DirOf(t, p), SlotOf(p)) {
        DirOfTask(t, p);
      }
      SameMemory(s, s', t, t);
    }
  }

  /** A page's words, read through the abstraction. */
  lemma WordsAt(s: State, t: int, p: int)
    requires 1 <= t < NR_TASKS && 0 <= p < PAGES
    ensures var d, i := DirOf(t, p), SlotOf(p);
      && (Mapped(s, d, i) <==> p in MemoryOf(s, t))
      && (Mapped(s, d, i) ==> Words(MemoryOf(s, t)[p], s.ram) == Page(s, FrameAt(s, d, i)))
  {
    DirOfTask(t, p);
    hide DirOf, SlotOf, Present, Peek;
  }

  /** A change at one page is a change at one page of one memory. */
  lemma StoreAbstract(s: State, s': State, t: int, p: int, words: seq<int>)
    requires 1 <= t < NR_TASKS && 0 <= p < PAGES
    requires StoreViews(s, s', DirOf(t, p), SlotOf(p), words)
    ensures Abstract(s') == Abstract(s)[t := MemoryOf(s, t)[p := Own(words)]]
  {
    hide View, DirOf, SlotOf;
    forall u, q | 1 <= u < NR_TASKS && 0 <= q < PAGES
      ensures View(s', DirOf(u, q), SlotOf(q)) == if u == t && q == p then Own(words) else View(s, DirOf(u, q), SlotOf(q))
    {
      DirOfTask(u, q);
      if DirOf(t, p) == DirOf(u, q) && SlotOf(p) == SlotOf(q) {
        SamePage(t, p, u, q);
      }
    }
    forall u | 1 <= u < NR_TASKS
      ensures MemoryOf(s', u) == if u == t then MemoryOf(s, t)[p := Own(words)] else MemoryOf(s, u)
    {
    }
  }

  lemma WriteRefines(s: State, t: int, p: int, w: int, v: int)
    requires Inv(s) && Private(s) && Enabled(s, Writes(t, p, w, v))
    ensures Abstract(Step(s, Writes(t, p, w, v))) == SpecStep(Abstract(s), Writes(t, p, w, v), s.ram, false)
  {
    var d, i := DirOf(t, p), SlotOf(p);
    DirOfTask(t, p);
    WordsAt(s, t, p);
    hide Inv, Private, View, DirOf, SlotOf, Page, FrameAt, MemoryOf;
    if Mapped(s, d, i) {
      WriteView(s, d, i, w, v);
      hide WriteWord;
      StoreAbstract(s, WriteWord(s, d, i, w, v), t, p, Page(s, FrameAt(s, d, i))[w := v]);
    }
  }

  lemma SamePage(t: int, p: int, u: int, q: int)
    requires 1 <= t < NR_TASKS && 1 <= u < NR_TASKS && 0 <= p < PAGES && 0 <= q < PAGES
    requires DirOf(t, p) == DirOf(u, q) && SlotOf(p) == SlotOf(q)
    ensures t == u && p == q
  {
  }

  /** Every enabled step of the machine is the step of the specification, and leaves a state from
      which this is true again. */
  lemma StepRefines(s: State, op: Op)
    requires Inv(s) && Private(s) && Enabled(s, op)
    ensures Inv(Step(s, op)) && Private(Step(s, op))
    ensures Abstract(Step(s, op)) == SpecStep(Abstract(s), op, s.ram, Forked(s, op))
  {
    match op
    case Forks(parent, nr, pcb) =>
      hide Fork, Plan;
      if parent == 0 {
        ZeroForkRefines(s, nr, pcb, DATA_DIRS);
      } else {
        ForkView(s, parent, nr, pcb, DATA_DIRS);
        ForkRefines(s, parent, nr, pcb, DATA_DIRS);
      }
    case Writes(t, p, w, v) =>
      DirOfTask(t, p);
      WriteRefines(s, t, p, w, v);
      if Mapped(s, DirOf(t, p), SlotOf(p)) {
        WriteView(s, DirOf(t, p), SlotOf(p), w, v);
      }
  }

  // ---------- whole runs ----------

  /** What the specification needs to know of a step besides its operation. */
  datatype Event = Event(op: Op, kernel: seq<seq<int>>, forked: bool)

  ghost function Trace(s: State, ops: seq<Op>): seq<Event>
    decreases |ops|
  {
    if ops == [] then []
    else [Event(ops[0], s.ram, Forked(s, ops[0]))] + Trace(Step(s, ops[0]), ops[1..])
  }

  ghost function SpecRun(m: Memories, events: seq<Event>): Memories
    decreases |events|
  {
    if events == [] then m
    else SpecRun(SpecStep(m, events[0].op, events[0].kernel, events[0].forked), events[1..])
  }

  /** Copy on write cannot be told from private memories, however long the run. */
  lemma {:induction false} RunRefines(s: State, ops: seq<Op>)
    requires Inv(s) && Private(s) && Runnable(s, ops)
    ensures Inv(Run(s, ops)) && Private(Run(s, ops))
    ensures Abstract(Run(s, ops)) == SpecRun(Abstract(s), Trace(s, ops))
    decreases |ops|
  {
    hide Inv, Private, Abstract, Step, SpecStep, Enabled, Forked;
    if ops != [] {
      StepRefines(s, ops[0]);
      RunRefines(Step(s, ops[0]), ops[1..]);
      var events := Trace(s, ops);
      assert events[1..] == Trace(Step(s, ops[0]), ops[1..]);
    }
  }

  /** The operation writes the memory of task t, or creates it. */
  predicate Touches(op: Op, t: int) {
    match op
    case Forks(_, nr, _) => nr == t
    case Writes(u, _, _, _) => u == t
  }

  /** Nothing that other tasks do changes what a task sees. */
  lemma {:induction false} OthersCannotInterfere(s: State, ops: seq<Op>, t: int)
    requires Inv(s) && Private(s) && Runnable(s, ops) && 1 <= t < NR_TASKS
    requires forall k :: 0 <= k < |ops| ==> !Touches(ops[k], t)
    ensures MemoryOf(Run(s, ops), t) == MemoryOf(s, t)
    decreases |ops|
  {
    hide Inv, Private, Step, Enabled, Forked, MemoryOf;
    if ops != [] {
      StepRefines(s, ops[0]);
      assert !Touches(ops[0], t);
      assert Abstract(Step(s, ops[0]))[t] == Abstract(s)[t];
      OthersCannotInterfere(Step(s, ops[0]), ops[1..], t);
    }
  }

  /** A child keeps its parent's memory as it was at the fork, whatever the parent does next; a child of
      task 0 the pages of its windows. */
  lemma ForkIsASnapshot(s: State, parent: int, nr: int, pcb: seq<int>, ops: seq<Op>)
    requires Inv(s) && Private(s) && Enabled(s, Forks(parent, nr, pcb)) && Forked(s, Forks(parent, nr, pcb))
    requires Runnable(Step(s, Forks(parent, nr, pcb)), ops)
    requires forall k :: 0 <= k < |ops| ==> !Touches(ops[k], nr)
    ensures MemoryOf(Run(Step(s, Forks(parent, nr, pcb)), ops), nr) == if parent == 0 then Image(s.ram) else MemoryOf(s, parent)
  {
    var op := Forks(parent, nr, pcb);
    StepRefines(s, op);
    assert 0 <= parent < NR_TASKS && 1 <= nr < NR_TASKS;
    hide Inv, Private, Step, Enabled, Forked, MemoryOf, Runnable, Image;
    assert Abstract(Step(s, op))[nr] == if parent == 0 then Image(s.ram) else Abstract(s)[parent];
    OthersCannotInterfere(Step(s, op), ops, nr);
  }

  // ---------- runs in which something goes wrong ----------

  /** A run as far as it is safe: every step may happen. */
  ghost predicate AttemptRun(s: State, ops: seq<Op>)
    decreases |ops|
  {
    ops == [] || (Attempt(s, ops[0]) && (Safe(s, ops[0]) ==> AttemptRun(Step(s, ops[0]), ops[1..])))
  }

  ghost function SafeSteps(s: State, ops: seq<Op>): (n: nat)
    ensures n <= |ops|
    decreases |ops|
  {
    if ops == [] || !Safe(s, ops[0]) then 0 else 1 + SafeSteps(Step(s, ops[0]), ops[1..])
  }

  /** Every run is one of private memories up to its first unsafe step, if it has one. */
  lemma {:induction false} RefinesUntilUnsafe(s: State, ops: seq<Op>)
    requires Inv(s) && Private(s) && AttemptRun(s, ops)
    ensures var n := SafeSteps(s, ops);
      var r := Run(s, ops[..n]);
      && Runnable(s, ops[..n]) && Inv(r) && Private(r)
      && Abstract(r) == SpecRun(Abstract(s), Trace(s, ops[..n]))
      && (n < |ops| ==> Attempt(r, ops[n]) && !Safe(r, ops[n]))
    decreases |ops|
  {
    hide Inv, Private, Abstract, Step, Attempt, Safe, SpecRun, Trace, SpecStep;
    var n := SafeSteps(s, ops);
    if ops != [] && Safe(s, ops[0]) {
      var next := Step(s, ops[0]);
      StepRefines(s, ops[0]);
      RefinesUntilUnsafe(next, ops[1..]);
      assert ops[..n][1..] == ops[1..][..n - 1];
    }
    RunRefines(s, ops[..n]);
  }

  /** And an unsafe step does harm: a fork by task 0 ends privacy, a fault copies the page over the page
      directory and leaves a writable entry for frame 0. */
  lemma UnsafeStep(s: State, op: Op)
    requires Inv(s) && Private(s) && Attempt(s, op) && !Safe(s, op)
    ensures match op
      case Forks(parent, nr, pcb) => Forked(s, op) && !Private(Step(s, op))
      case Writes(t, p, w, v) =>
        var d, i := DirOf(t, p), SlotOf(p);
        var after := UnWriteProtect(s, Table(s, d), i);
        && Page(after, 0) == Page(s, FrameAt(s, d, i))
        && Writable(Peek(after, Table(s, d), i)) && FrameOf(Peek(after, Table(s, d), i)) == 0
  {
    match op
    case Forks(parent, nr, pcb) =>
      hide Fork, Plan;
      ZeroForkIff(s, nr, pcb, DATA_DIRS);
    case Writes(t, p, w, v) =>
      DirOfTask(t, p);
      FaultSafeIff(s, DirOf(t, p), SlotOf(p));
      hide UnWriteProtect, Inv, Private, DirOf, SlotOf, FreeFrame;
  }

  // ---------- reference counts over every run ----------

  /** As Enabled, but the forks of task 0 need not be safe. */
  ghost predicate Possible(s: State, op: Op) {
    Attempt(s, op) && (op.Writes? ==> Safe(s, op))
  }

  ghost predicate PossibleRun(s: State, ops: seq<Op>)
    decreases |ops|
  {
    ops == [] || (Possible(s, ops[0]) && PossibleRun(Step(s, ops[0]), ops[1..]))
  }

  lemma ForkKeeps(s: State, parent: int, nr: int, pcb: seq<int>, dirs: int)
    requires Inv(s) && CanFork(s, parent, nr, pcb, dirs)
    ensures Inv(Fork(s, parent, nr, pcb, dirs).0)
  {
    if Fork(s, parent, nr, pcb, dirs).1 {
      assert FreeFrame(s) != 0 && Fork(s, parent, nr, pcb, dirs) == Copied(s, parent, nr, pcb, dirs);
      hide Fork, Copied;
      CopiedKeeps(s, parent, nr, pcb, dirs);
    } else {
      hide Fork;
      ForkRollback(s, parent, nr, pcb, dirs);
    }
  }

  lemma WriteKeeps(s: State, d: int, i: int, w: int, v: int)
    requires Inv(s) && d >= TASK_DIRS && Mapped(s, d, i) && 0 <= w < ENTRIES
    requires !CanWrite(s, d, i) && NeedsCopy(s, d, i) ==> FreeFrame(s) != 0
    ensures Inv(WriteWord(s, d, i, w, v))
  {
    if CanWrite(s, d, i) {
      StoreMappings(s, d, i, w, v);
    } else {
      var after := UnWriteProtect(s, Table(s, d), i);
      if NeedsCopy(s, d, i) {
        CopyKeeps(s, d, i);
      } else {
        InPlaceKeeps(s, d, i);
      }
      hide UnWriteProtect, Inv;
      if CanWrite(after, d, i) {
        StoreMappings(after, d, i, w, v);
      }
    }
  }

  // ---------- structures and user mode over every run ----------

  lemma StoreKept(s: State, d: int, i: int, w: int, v: int)
    requires Inv(s) && d >= TASK_DIRS && CanWrite(s, d, i) && 0 <= w < ENTRIES
    ensures Keeps(s, Store(s, d, i, w, v))
  {
    var f := FrameAt(s, d, i);
    var s' := Store(s, d, i, w, v);
    StoreEffect(s, d, i, w, v);
    assert forall t :: 1 <= t < NR_TASKS && TaskFrame(s, t) == f ==> t in TaskUses(s, f);
    hide Store, Inv, FrameAt, Page, CanWrite;
    SameDir(s, s');
    SameWords(s, s');
    hide UserSpace, Dir, Entry;
  }

  lemma WriteKept(s: State, d: int, i: int, w: int, v: int)
    requires Inv(s) && d >= TASK_DIRS && Mapped(s, d, i) && 0 <= w < ENTRIES
    requires !CanWrite(s, d, i) && NeedsCopy(s, d, i) ==> FreeFrame(s) != 0
    ensures Keeps(s, WriteWord(s, d, i, w, v))
  {
    if CanWrite(s, d, i) {
      StoreKept(s, d, i, w, v);
    } else {
      var after := UnWriteProtect(s, Table(s, d), i);
      FaultKept(s, d, i);
      if NeedsCopy(s, d, i) {
        CopyKeeps(s, d, i);
        CopyMappings(s, d, i);
      } else {
        InPlaceKeeps(s, d, i);
        InPlaceEffect(s, d, i);
      }
      hide UnWriteProtect, Inv, Store, Keeps;
      assert CanWrite(after, d, i);
      hide CanWrite;
      StoreKept(after, d, i, w, v);
      KeepsTrans(s, after, Store(after, d, i, w, v));
    }
  }

  lemma StepKept(s: State, op: Op)
    requires Inv(s) && Possible(s, op)
    ensures Keeps(s, Step(s, op))
  {
    match op
    case Forks(parent, nr, pcb) =>
      ForkKept(s, parent, nr, pcb, DATA_DIRS);
      hide Fork, Keeps;
    case Writes(t, p, w, v) =>
      DirOfTask(t, p);
      hide Keeps, Inv, NeedsCopy, FreeFrame, DirOf, SlotOf;
      if Mapped(s, DirOf(t, p), SlotOf(p)) {
        WriteKept(s, DirOf(t, p), SlotOf(p), w, v);
      } else {
        KeepsSelf(s);
      }
  }

  lemma StepKeeps(s: State, op: Op)
    requires Inv(s) && Possible(s, op)
    ensures Inv(Step(s, op))
  {
    match op
    case Forks(parent, nr, pcb) => ForkKeeps(s, parent, nr, pcb, DATA_DIRS);
    case Writes(t, p, w, v) =>
      DirOfTask(t, p);
      if Mapped(s, DirOf(t, p), SlotOf(p)) {
        WriteKeeps(s, DirOf(t, p), SlotOf(p), w, v);
      }
  }

  /** Over every run the structures of existing tasks keep their frames and their words, and user mode keeps
      the use of its pages. */
  lemma {:induction false} RunKept(s: State, ops: seq<Op>)
    requires Inv(s) && PossibleRun(s, ops)
    ensures Inv(Run(s, ops)) && Keeps(s, Run(s, ops))
    decreases |ops|
  {
    hide Inv, Keeps, Step, Possible;
    if ops == [] {
      KeepsSelf(s);
    } else {
      StepKeeps(s, ops[0]);
      StepKept(s, ops[0]);
      RunKept(Step(s, ops[0]), ops[1..]);
      KeepsTrans(s, Step(s, ops[0]), Run(Step(s, ops[0]), ops[1..]));
    }
  }

  /** So a child's structure holds what it was given as long as the run goes on. */
  lemma StructureStays(s: State, parent: int, nr: int, pcb: seq<int>, ops: seq<Op>)
    requires Inv(s) && Possible(s, Forks(parent, nr, pcb)) && Forked(s, Forks(parent, nr, pcb))
    requires PossibleRun(Step(s, Forks(parent, nr, pcb)), ops)
    ensures var s' := Run(Step(s, Forks(parent, nr, pcb)), ops);
      TaskFrame(s', nr) != 0 && Page(s', TaskFrame(s', nr)) == pcb
  {
    var op := Forks(parent, nr, pcb);
    assert 1 <= nr < NR_TASKS;
    ForkKept(s, parent, nr, pcb, DATA_DIRS);
    StepKeeps(s, op);
    assert Step(s, op) == Fork(s, parent, nr, pcb, DATA_DIRS).0;
    hide Inv, Keeps, Step, Possible, Fork, TaskFrame, Page;
    RunKept(Step(s, op), ops);
    StructureKept(Step(s, op), Run(Step(s, op), ops), nr, pcb);
  }

  /** In every reachable state, forks from task 0 included, `mem_map` counts the references. */
  lemma {:induction false} RunConserves(s: State, ops: seq<Op>)
    requires Inv(s) && PossibleRun(s, ops)
    ensures Inv(Run(s, ops))
    ensures forall f :: LOW_FRAMES <= f < FRAMES ==> Count(Run(s, ops), f) == References(Run(s, ops), f) <= USED + 63 + 2
    decreases |ops|
  {
    if ops != [] {
      var op := ops[0];
      StepKeeps(s, op);
      hide Inv, Step, Possible;
      RunConserves(Step(s, op), ops[1..]);
    } else {
      forall f | LOW_FRAMES <= f < FRAMES ensures Count(s, f) == References(s, f) <= USED + 63 + 2 {
        CountBound(s, f);
      }
    }
  }
}
