/** What every step of the paging code keeps, whatever it is interrupted by: the byte
    `mem_map[f]` is the number of references to frame f, and the page tables stay well formed. */
module Conservation {
  import opened Kernel
  import opened PageTables

  ghost predicate Shape(s: State) {
    && |s.memMap| == PAGING_PAGES
    && |s.ram| == FRAMES
    && |s.task| == NR_TASKS
    && LOW_FRAMES <= s.start <= s.high <= FRAMES
    && forall f :: 0 <= f < FRAMES ==> |s.ram[f]| == ENTRIES
  }

  /** Task 0 owns the four tables of the identity map in frames 1 to 4; every other table is a
      frame of its own above LOW_MEM, in the first four entries of an occupied slot. */
  ghost predicate TablesApart(s: State) {
    && (forall d :: 0 <= d < TASK_DIRS && HasTable(s, d) ==> d < DATA_DIRS && Table(s, d) == d + 1)
    && (forall d :: TASK_DIRS <= d < ENTRIES && HasTable(s, d) ==> LOW_FRAMES <= Table(s, d) < FRAMES)
    && (forall d, e :: TASK_DIRS <= d < e < ENTRIES && HasTable(s, d) && HasTable(s, e) ==> Table(s, d) != Table(s, e))
  }

  ghost predicate TablesOwned(s: State) {
    forall d :: TASK_DIRS <= d < ENTRIES && HasTable(s, d) ==> d % TASK_DIRS < DATA_DIRS && TaskFrame(s, d / TASK_DIRS) != 0
  }

  ghost predicate TasksApart(s: State) {
    && (forall t :: 1 <= t < NR_TASKS && TaskFrame(s, t) != 0 ==> LOW_FRAMES <= TaskFrame(s, t) < FRAMES)
    && (forall t, u :: 1 <= t < u < NR_TASKS && TaskFrame(s, t) != 0 ==> TaskFrame(s, t) != TaskFrame(s, u))
    && (forall t, d :: 1 <= t < NR_TASKS && TASK_DIRS <= d < ENTRIES && HasTable(s, d) ==> TaskFrame(s, t) != Table(s, d))
  }

  /** Task 0 maps linear memory to itself. */
  ghost predicate Identity(s: State) {
    forall d, i, f :: 0 <= d < DATA_DIRS && 0 <= i < ENTRIES ==> (Maps(s, d, i, f) <==> f == ENTRIES * d + i)
  }

  ghost predicate InMemory(s: State) {
    forall d, i, f :: Maps(s, d, i, f) ==> 0 <= f < FRAMES
  }

  /** No task maps a frame twice. */
  ghost predicate MapsOnce(s: State) {
    forall d, i, e, j, f :: Maps(s, d, i, f) && Maps(s, e, j, f) && d / TASK_DIRS == e / TASK_DIRS ==> d == e && i == j
  }

  /** The frame holds a page table or a task structure of one of the tasks 1..63. */
  ghost predicate IsTable(s: State, f: int) {
    TableUses(s, f) != {}
  }

  ghost predicate IsTask(s: State, f: int) {
    TaskUses(s, f) != {}
  }

  /** A task other than 0 can write only to frames above LOW_MEM that hold no kernel structure. */
  ghost predicate WritesGuarded(s: State) {
    forall d, i, f :: d >= TASK_DIRS && Maps(s, d, i, f) && CanWrite(s, d, i) ==> f >= LOW_FRAMES && !IsTable(s, f) && !IsTask(s, f)
  }

  // ---------- reference counts ----------

  ghost function Mappers(s: State, f: int): set<(int, int)> {
    set d, i | TASK_DIRS <= d < ENTRIES && 0 <= i < ENTRIES && Maps(s, d, i, f) :: (d, i)
  }

  ghost function TableUses(s: State, f: int): set<int> {
    set d | TASK_DIRS <= d < ENTRIES && HasTable(s, d) && Table(s, d) == f
  }

  ghost function TaskUses(s: State, f: int): set<int> {
    set t | 1 <= t < NR_TASKS && TaskFrame(s, t) == f
  }

  ghost function Unmanaged(s: State, f: int): int {
    if s.start <= f < s.high then 0 else USED
  }

  ghost function References(s: State, f: int): int {
    Unmanaged(s, f) + |Mappers(s, f)| + |TableUses(s, f)| + |TaskUses(s, f)|
  }

  ghost predicate Conserved(s: State) {
    forall f :: LOW_FRAMES <= f < FRAMES ==> Count(s, f) == References(s, f)
  }

  ghost predicate Inv(s: State) {
    && Shape(s)
    && TablesApart(s)
    && TablesOwned(s)
    && TasksApart(s)
    && Identity(s)
    && InMemory(s)
    && MapsOnce(s)
    && WritesGuarded(s)
    && Conserved(s)
  }

  // ---------- counts never wrap ----------

  lemma {:induction false} InjectionBound(m: set<(int, int)>, hi: int)
    requires 1 <= hi
    requires forall x :: x in m ==> 1 <= x.0 / TASK_DIRS < hi
    requires forall x, y :: x in m && y in m && x.0 / TASK_DIRS == y.0 / TASK_DIRS ==> x == y
    ensures |m| < hi
  {
    if hi == 1 {
      assert m == {};
    } else if x :| x in m && x.0 / TASK_DIRS == hi - 1 {
      InjectionBound(m - {x}, hi - 1);
    } else {
      InjectionBound(m, hi - 1);
    }
  }

  lemma AtMostOne<T>(m: set<T>)
    requires forall x, y :: x in m && y in m ==> x == y
    ensures |m| <= 1
  {
    if m != {} {
      var z :| z in m;
      assert m == {z};
    }
  }

  /** A count never exceeds 100 + 63 + 2, so incrementing the byte never wraps. */
  lemma CountBound(s: State, f: int)
    requires Shape(s) && TablesApart(s) && TasksApart(s) && MapsOnce(s) && Conserved(s)
    requires LOW_FRAMES <= f < FRAMES
    ensures |Mappers(s, f)| <= 63
    ensures 0 <= Count(s, f) <= USED + 63 + 2
  {
    InjectionBound(Mappers(s, f), NR_TASKS);
    AtMostOne(TableUses(s, f));
    AtMostOne(TaskUses(s, f));
  }

  // ---------- a free frame is in nobody's use ----------

  lemma FreeFrameUnused(s: State)
    requires Shape(s) && Conserved(s) && FreeFrame(s) != 0
    ensures var f := FreeFrame(s);
      && LOW_FRAMES <= s.start <= f < s.high <= FRAMES
      && Count(s, f) == 0
      && Mappers(s, f) == {} && TableUses(s, f) == {} && TaskUses(s, f) == {}
  {
    assert Count(s, FreeFrame(s)) == References(s, FreeFrame(s));
  }

  lemma UnusedMeans(s: State, f: int)
    requires Mappers(s, f) == {} && TableUses(s, f) == {} && TaskUses(s, f) == {}
    ensures forall d, i :: d >= TASK_DIRS ==> !Maps(s, d, i, f)
    ensures forall d :: TASK_DIRS <= d < ENTRIES && HasTable(s, d) ==> Table(s, d) != f
    ensures forall t :: 1 <= t < NR_TASKS ==> TaskFrame(s, t) != f
  {
    forall d | TASK_DIRS <= d < ENTRIES && HasTable(s, d) ensures Table(s, d) != f {
      assert d !in TableUses(s, f);
    }
    forall t | 1 <= t < NR_TASKS ensures TaskFrame(s, t) != f {
      assert t !in TaskUses(s, f);
    }
    forall d, i | d >= TASK_DIRS ensures !Maps(s, d, i, f) {
      assert Maps(s, d, i, f) ==> (d, i) in Mappers(s, f);
    }
  }

  // ---------- one entry changes ----------

  /** Words of a table change, no directory entry does. */
  ghost predicate SameDirectory(s: State, s': State) {
    && s'.task == s.task && s'.start == s.start && s'.high == s.high
    && forall d :: HasTable(s', d) == HasTable(s, d) && Table(s', d) == Table(s, d)
  }

  lemma SameDirectoryKeeps(s: State, s': State)
    requires SameDirectory(s, s')
    ensures TablesApart(s) ==> TablesApart(s')
    ensures TablesOwned(s) ==> TablesOwned(s')
    ensures TasksApart(s) ==> TasksApart(s')
  {
    assert forall t :: TaskFrame(s', t) == TaskFrame(s, t);
  }

  ghost predicate Gains(s: State, s': State, d: int, i: int, f: int) {
    forall e, j, g :: Maps(s', e, j, g) <==> Maps(s, e, j, g) || (e == d && j == i && g == f)
  }

  ghost predicate Loses(s: State, s': State, d: int, i: int) {
    forall e, j, g :: Maps(s', e, j, g) <==> Maps(s, e, j, g) && (e != d || j != i)
  }

  ghost predicate Counts(s: State, s': State, f: int, step: int) {
    forall g :: LOW_FRAMES <= g < FRAMES ==> Count(s', g) == Count(s, g) + if g == f then step else 0
  }

  lemma SameUses(s: State, s': State, f: int)
    requires SameDirectory(s, s')
    ensures TableUses(s', f) == TableUses(s, f) && TaskUses(s', f) == TaskUses(s, f)
    ensures Unmanaged(s', f) == Unmanaged(s, f)
    ensures IsTable(s', f) == IsTable(s, f) && IsTask(s', f) == IsTask(s, f)
  {
  }

  lemma MappersGain(s: State, s': State, d: int, i: int, f: int, g: int)
    requires Gains(s, s', d, i, f) && TASK_DIRS <= d && IsSlot(d, i) && forall h :: !Maps(s, d, i, h)
    ensures |Mappers(s', g)| == |Mappers(s, g)| + if g == f then 1 else 0
  {
    hide Mapped, Maps;
    assert (d, i) !in Mappers(s, g);
    assert Mappers(s', g) == Mappers(s, g) + if g == f then {(d, i)} else {};
  }

  lemma MappersLoss(s: State, s': State, d: int, i: int, f: int, g: int)
    requires Loses(s, s', d, i) && TASK_DIRS <= d && Maps(s, d, i, f)
    ensures |Mappers(s', g)| == |Mappers(s, g)| - if g == f then 1 else 0
  {
    assert ((d, i) in Mappers(s, g)) == (g == f);
    assert Mappers(s', g) == Mappers(s, g) - if g == f then {(d, i)} else {};
  }

  lemma GainConserves(s: State, s': State, d: int, i: int, f: int)
    requires Conserved(s) && SameDirectory(s, s')
    requires Gains(s, s', d, i, f) && Counts(s, s', f, 1)
    requires TASK_DIRS <= d && IsSlot(d, i) && forall h :: !Maps(s, d, i, h)
    ensures Conserved(s')
  {
    forall g | LOW_FRAMES <= g < FRAMES ensures Count(s', g) == References(s', g) {
      SameUses(s, s', g);
      MappersGain(s, s', d, i, f, g);
    }
  }

  lemma LossConserves(s: State, s': State, d: int, i: int, f: int)
    requires Conserved(s) && SameDirectory(s, s')
    requires Loses(s, s', d, i) && Counts(s, s', f, -1)
    requires TASK_DIRS <= d && Maps(s, d, i, f)
    ensures Conserved(s')
  {
    forall g | LOW_FRAMES <= g < FRAMES ensures Count(s', g) == References(s', g) {
      SameUses(s, s', g);
      MappersLoss(s, s', d, i, f, g);
    }
  }

  /** Writing word i of the table of directory entry d changes that entry and no other. */
  lemma PokeEntry(s: State, d: int, i: int, v: int)
    requires Shape(s) && TablesApart(s)
    requires IsSlot(d, i) && HasTable(s, d)
    ensures var s' := Poke(s, Table(s, d), i, v);
      && Shape(s') && SameDirectory(s, s') && s'.memMap == s.memMap
      && (forall f :: f != Table(s, d) ==> Page(s', f) == Page(s, f))
      && (forall e, j :: IsSlot(e, j) && HasTable(s, e) ==> Entry(s', e, j) == if e == d && j == i then v else Entry(s, e, j))
  {
  }

  ghost predicate NoNewWrites(s: State, s': State) {
    forall d, i :: CanWrite(s', d, i) ==> CanWrite(s, d, i)
  }

  lemma GainKeepsInv(s: State, s': State, d: int, i: int, f: int)
    requires Inv(s) && Shape(s') && SameDirectory(s, s')
    requires Gains(s, s', d, i, f) && Counts(s, s', f, 1)
    requires forall e, j :: CanWrite(s', e, j) ==> CanWrite(s, e, j) || (e == d && j == i && f >= LOW_FRAMES && !IsTable(s, f) && !IsTask(s, f))
    requires TASK_DIRS <= d && IsSlot(d, i) && 0 <= f < FRAMES
    requires !Mapped(s, d, i)
    requires forall e, j :: Maps(s, e, j, f) ==> e / TASK_DIRS != d / TASK_DIRS
    ensures Inv(s')
  {
    GainConserves(s, s', d, i, f);
    SameDirectoryKeeps(s, s');
    forall g ensures IsTable(s', g) == IsTable(s, g) && IsTask(s', g) == IsTask(s, g) {
      SameUses(s, s', g);
    }
  }

  lemma LossKeepsInv(s: State, s': State, d: int, i: int, f: int)
    requires Inv(s) && Shape(s') && SameDirectory(s, s')
    requires Loses(s, s', d, i) && Counts(s, s', f, -1) && NoNewWrites(s, s')
    requires TASK_DIRS <= d && Maps(s, d, i, f)
    ensures Inv(s')
  {
    LossConserves(s, s', d, i, f);
    SameDirectoryKeeps(s, s');
    forall g ensures IsTable(s', g) == IsTable(s, g) && IsTask(s', g) == IsTask(s, g) {
      SameUses(s, s', g);
    }
  }
}
