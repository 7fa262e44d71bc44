/** Physical memory of the machine and the paging operations of mm/memory.c, mm/swap.c and
    kernel/fork.c as functions from a machine state to a machine state.

    A state is one flat physical memory of 4096 frames of 1024 words, in which the page directory
    (frame 0), the page tables, the task structures and the user pages all live side by side, plus
    the byte array `mem_map` and the task table.  Reading a word that does not exist gives 0 and
    writing one does nothing, so every function here is total. */
module PageTables {
  const FRAMES := 4096          // 16 MB of 4 KB frames
  const ENTRIES := 1024         // words in a frame, entries in a table
  const LOW_FRAMES := 256       // LOW_MEM >> 12
  const PAGING_PAGES := 3840    // bytes in mem_map
  const USED := 100
  const TASK_DIRS := 16         // directory entries a task owns: TASK_SIZE >> 22
  const DATA_DIRS := 4          // directory entries its 16 MB data limit reaches
  const KERNEL_ENTRIES := 160   // 0xA0: entries copied of each table of task 0

  /** `task[t]` is the frame of the structure of task t, 0 for an empty slot.  Frames from `start`
      up to `high` are the main memory that `mem_init` handed to the allocator. */
  datatype State = State(memMap: seq<int>, ram: seq<seq<int>>, task: seq<int>, start: int, high: int)

  // ---------- words of a table ----------

  /** Bit 0. */
  predicate Present(e: int) {
    e % 4 == 1 || e % 4 == 3
  }

  /** Bit 1. */
  predicate Writable(e: int) {
    e % 4 >= 2
  }

  /** Bit 2: tasks in user mode may use the page. */
  predicate UserBit(e: int) {
    e / 4 % 2 == 1
  }

  /** e >> 12 */
  function FrameOf(e: int): int {
    e / 4096
  }

  lemma ShiftInSteps(e: int)
    ensures FrameOf(e) == e / 4 / 1024
  {
    var q, r := e / 4 / 1024, e / 4 % 1024;
    assert e == 4096 * q + (4 * r + e % 4);
    assert 0 <= 4 * r + e % 4 < 4096;
  }

  /** Changing bit 1 leaves the frame alone. */
  lemma BitOne(e: int)
    requires e % 4 < 2
    ensures (e + 2) / 4 == e / 4 && FrameOf(e + 2) == FrameOf(e)
  {
    ShiftInSteps(e);
    ShiftInSteps(e + 2);
  }

  /** e & ~2 */
  function WriteProtect(e: int): (r: int)
    ensures Present(r) == Present(e) && UserBit(r) == UserBit(e) && FrameOf(r) == FrameOf(e) && !Writable(r)
    ensures r == e || r == e - 2
  {
    if Writable(e) then BitOne(e - 2); e - 2 else e
  }

  /** e | 2 */
  function WriteEnable(e: int): (r: int)
    ensures Present(r) == Present(e) && UserBit(r) == UserBit(e) && FrameOf(r) == FrameOf(e) && Writable(r)
    ensures r == e || r == e + 2
  {
    if Writable(e) then e else BitOne(e); e + 2
  }

  lemma Quarter(q: int, r: int)
    requires 0 <= r < 4
    ensures (4 * q + r) / 4 == q && (4 * q + r) % 4 == r
  {
  }

  lemma Odd(n: int)
    ensures (2 * n + 1) % 2 == 1
  {
  }

  lemma SevenBits(f: int)
    ensures (4096 * f + 7) / 4 == 1024 * f + 1 && (4096 * f + 7) % 4 == 3 && (1024 * f + 1) % 2 == 1
    ensures FrameOf(4096 * f + 7) == f
  {
    Quarter(1024 * f + 1, 3);
    Odd(512 * f);
    assert 4 * (1024 * f + 1) + 3 == 4096 * f + 7 && 2 * (512 * f) + 1 == 1024 * f + 1;
    assert 4096 * f <= 4096 * f + 7 < 4096 * (f + 1);
  }

  /** (f << 12) | 7 */
  function UserEntry(f: int): (e: int)
    ensures Present(e) && Writable(e) && UserBit(e) && FrameOf(e) == f
  {
    SevenBits(f);
    4096 * f + 7
  }

  // ---------- memory ----------

  function Peek(s: State, f: int, w: int): int {
    if 0 <= f < |s.ram| && 0 <= w < |s.ram[f]| then s.ram[f][w] else 0
  }

  function Poke(s: State, f: int, w: int, v: int): State {
    if 0 <= f < |s.ram| && 0 <= w < |s.ram[f]| then s.(ram := s.ram[f := s.ram[f][w := v]]) else s
  }

  /** What a whole frame holds. */
  function Page(s: State, f: int): seq<int> {
    if 0 <= f < |s.ram| then s.ram[f] else []
  }

  function SetPage(s: State, f: int, words: seq<int>): State {
    if 0 <= f < |s.ram| then s.(ram := s.ram[f := words]) else s
  }

  function Zeros(): (z: seq<int>)
    ensures |z| == ENTRIES && forall w :: 0 <= w < ENTRIES ==> z[w] == 0
  {
    seq(ENTRIES, w => 0)
  }

  function Count(s: State, f: int): int {
    if 0 <= f - LOW_FRAMES < |s.memMap| then s.memMap[f - LOW_FRAMES] else 0
  }

  /** `mem_map` holds unsigned chars: what is stored is taken modulo 256. */
  function SetCount(s: State, f: int, n: int): State {
    if 0 <= f - LOW_FRAMES < |s.memMap| then s.(memMap := s.memMap[f - LOW_FRAMES := n % 256]) else s
  }

  function TaskFrame(s: State, t: int): int {
    if 0 <= t < |s.task| then s.task[t] else 0
  }

  function SetTask(s: State, t: int, f: int): State {
    if 0 <= t < |s.task| then s.(task := s.task[t := f]) else s
  }

  // ---------- the paging structures ----------

  function Dir(s: State, d: int): int {
    Peek(s, 0, d)
  }

  predicate HasTable(s: State, d: int) {
    Present(Dir(s, d))
  }

  function Table(s: State, d: int): int {
    FrameOf(Dir(s, d))
  }

  function Entry(s: State, d: int, i: int): int {
    Peek(s, Table(s, d), i)
  }

  predicate IsSlot(d: int, i: int) {
    0 <= d < ENTRIES && 0 <= i < ENTRIES
  }

  /** Entry i below directory entry d is present. */
  predicate Mapped(s: State, d: int, i: int) {
    IsSlot(d, i) && HasTable(s, d) && Present(Entry(s, d, i))
  }

  predicate Maps(s: State, d: int, i: int, f: int) {
    Mapped(s, d, i) && FrameOf(Entry(s, d, i)) == f
  }

  predicate CanWrite(s: State, d: int, i: int) {
    Mapped(s, d, i) && Writable(Entry(s, d, i))
  }

  // ---------- mm/swap.c and free_page ----------

  /** The highest k below n with m[k] == 0, or -1. */
  function HighestZero(m: seq<int>, n: int): (k: int)
    requires 0 <= n <= |m|
    ensures -1 <= k < n
    ensures k >= 0 ==> m[k] == 0
    ensures forall j :: k < j < n ==> m[j] != 0
  {
    if n == 0 then -1 else if m[n - 1] == 0 then n - 1 else HighestZero(m, n - 1)
  }

  /** The frame `get_free_page` hands out; 0 when there is none. */
  function FreeFrame(s: State): int {
    var k := HighestZero(s.memMap, |s.memMap|);
    if k < 0 then 0 else LOW_FRAMES + k
  }

  /** `get_free_page` for the frame it found. */
  function Allocate(s: State, f: int): State {
    SetPage(SetCount(s, f, 1), f, Zeros())
  }

  function FreePage(s: State, f: int): State {
    if f < LOW_FRAMES then s
    else if Count(s, f) == 0 then SetCount(s, f, 0)
    else SetCount(s, f, Count(s, f) - 1)
  }

  // ---------- copy_page_tables ----------

  /** One round of the inner loop: share entry i of table `from` with table `to`. */
  function ShareEntry(s: State, from: int, to: int, i: int): State {
    var e := Peek(s, from, i);
    if !Present(e) then s
    else
      var shared := Poke(s, to, i, WriteProtect(e));
      if FrameOf(e) < LOW_FRAMES then shared
      else
        var parent := Poke(shared, from, i, WriteProtect(e));
        SetCount(parent, FrameOf(e), Count(parent, FrameOf(e)) + 1)
  }

  function ShareEntries(s: State, from: int, to: int, i: int, n: int): State
    decreases n - i
  {
    if i >= n then s else ShareEntries(ShareEntry(s, from, to, i), from, to, i + 1, n)
  }

  /** A fresh table in frame f becomes directory entry d. */
  function AddTable(s: State, d: int, f: int): State {
    Poke(Allocate(s, f), 0, d, UserEntry(f))
  }

  /** The outer loop: `limit` entries of each of `n` tables; false when a frame ran out. */
  function CopyTables(s: State, from: int, to: int, n: int, limit: int): (State, bool)
    decreases n
  {
    if n <= 0 then (s, true)
    else if !HasTable(s, from) then CopyTables(s, from + 1, to + 1, n - 1, limit)
    else if FreeFrame(s) == 0 then (s, false)
    else
      var f := FreeFrame(s);
      CopyTables(ShareEntries(AddTable(s, to, f), Table(s, from), f, 0, limit), from + 1, to + 1, n - 1, limit)
  }

  // ---------- free_page_tables ----------

  function DropEntry(s: State, t: int, i: int): State {
    var e := Peek(s, t, i);
    if e == 0 then s
    else Poke(if Present(e) then FreePage(s, FrameOf(e)) else s, t, i, 0)
  }

  function DropEntries(s: State, t: int, i: int): State
    decreases ENTRIES - i
  {
    if i >= ENTRIES then s else DropEntries(DropEntry(s, t, i), t, i + 1)
  }

  function DropTable(s: State, d: int): State {
    var cleared := DropEntries(s, Table(s, d), 0);
    Poke(FreePage(cleared, Table(cleared, d)), 0, d, 0)
  }

  function DropTables(s: State, d: int, n: int): State
    decreases n
  {
    if n <= 0 then s
    else DropTables(if HasTable(s, d) then DropTable(s, d) else s, d + 1, n - 1)
  }

  // ---------- un_wp_page ----------

  /** The page may be made writable where it is. */
  predicate SoleUser(s: State, f: int) {
    f >= LOW_FRAMES && Count(s, f) == 1
  }

  /** `un_wp_page` on entry i of table t.  The allocation is not checked: without a free frame the
      page is copied over frame 0, the page directory. */
  function UnWriteProtect(s: State, t: int, i: int): State {
    var e := Peek(s, t, i);
    var was := FrameOf(e);
    if SoleUser(s, was) then Poke(s, t, i, WriteEnable(e))
    else
      var f := FreeFrame(s);
      var a := if f == 0 then s else Allocate(s, f);
      var b := if was >= LOW_FRAMES then SetCount(a, was, Count(a, was) - 1) else a;
      Poke(SetPage(b, f, Page(b, was)), t, i, UserEntry(f))
  }

  // ---------- copy_process ----------

  /** The first half of `copy_process`: a frame for the structure, holding `pcb`. */
  function AddTask(s: State, nr: int, f: int, pcb: seq<int>): State {
    SetPage(SetTask(Allocate(s, f), nr, f), f, pcb)
  }

  /** Its error path. */
  function DropTask(s: State, nr: int): State {
    FreePage(SetTask(s, nr, 0), TaskFrame(s, nr))
  }

  function EntryLimit(parent: int): int {
    if parent == 0 then KERNEL_ENTRIES else ENTRIES
  }

  /** `dirs` is the number of directory entries the data limit reaches. */
  function Fork(s: State, parent: int, nr: int, pcb: seq<int>, dirs: int): (State, bool) {
    var f := FreeFrame(s);
    if f == 0 then (s, false)
    else
      var (copied, ok) := CopyTables(AddTask(s, nr, f, pcb), TASK_DIRS * parent, TASK_DIRS * nr, dirs, EntryLimit(parent));
      if ok then (copied, true)
      else (DropTask(DropTables(copied, TASK_DIRS * nr, dirs), nr), false)
  }
}
