/** A fork by task 0 in any state, told beforehand: which frames it takes, whether it succeeds, what it
    writes, and whether the tasks 1..63 keep private memories.  Task 0 shares pages whose frames may be
    free, so the frames it can still take depend on how far it has come. */
module ZeroFork {
  import opened Kernel
  import opened PageTables
  import opened Conservation
  import opened Allocation
  import opened Sharing
  import opened Release
  import opened Forking
  import opened Isolation
  import opened TaskZero

  // ---------- the plan ----------

  /** f has been shared: it is in the window of a table below k, or among the first i pages of table k. */
  predicate Shared(f: int, k: int, i: int) {
    0 <= f && ((f / ENTRIES < k && f % ENTRIES < KERNEL_ENTRIES) || (f / ENTRIES == k && f % ENTRIES < i))
  }

  /** The highest frame below `top` that is free in s and not shared with the tables below k; 0 if there
      is none. */
  function PickFree(s: State, top: int, k: int): (f: int)
    ensures f == 0 || (LOW_FRAMES <= f < top && Count(s, f) == 0 && !Shared(f, k, 0))
    ensures forall g :: LOW_FRAMES <= g && f < g < top ==> Count(s, g) != 0 || Shared(g, k, 0)
    decreases top
  {
    if top <= LOW_FRAMES then 0
    else if Count(s, top - 1) == 0 && !Shared(top - 1, k, 0) then top - 1
    else PickFree(s, top - 1, k)
  }

  /** The frames for n tables from table k on, as far as there are any. */
  function PlanTables(s: State, top: int, k: int, n: int): (plan: seq<int>)
    ensures forall f :: f in plan ==> LOW_FRAMES <= f < top && Count(s, f) == 0
    decreases n
  {
    if n <= 0 then []
    else
      var f := PickFree(s, top, k);
      if f == 0 then [] else [f] + PlanTables(s, f, k + 1, n - 1)
  }

  /** The frame for the structure, and those for the tables. */
  function Plan(s: State): (plan: seq<int>)
    ensures forall f :: f in plan ==> LOW_FRAMES <= f < FRAMES && Count(s, f) == 0
  {
    var f := PickFree(s, FRAMES, 0);
    if f == 0 then [] else [f] + PlanTables(s, f, 0, DATA_DIRS)
  }

  /** What the fork takes when there is enough. */
  const FORK_FRAMES := 5

  predicate AnyInWindow(fs: seq<int>) {
    exists f :: f in fs && InWindow(f)
  }

  function Last(top: int, plan: seq<int>): int {
    if plan == [] then top else plan[|plan| - 1]
  }

  // ---------- the free frames while task 0 is copied ----------

  /** Free in s are exactly the frames below `top` that were free in s0 and have not been shared. */
  ghost predicate Tracks(s0: State, s: State, top: int, k: int, i: int) {
    && top <= FRAMES
    && forall f {:trigger Count(s, f)} :: LOW_FRAMES <= f < FRAMES ==>
      (Count(s, f) == 0 <==> Count(s0, f) == 0 && f < top && !Shared(f, k, i))
  }

  /** No page above LOW_MEM is written except those in fs. */
  ghost predicate WritesOnly(s: State, s': State, fs: seq<int>) {
    forall g {:trigger Page(s', g)} :: LOW_FRAMES <= g && g !in fs ==> Page(s', g) == Page(s, g)
  }

  lemma WritesOnlyTrans(a: State, b: State, c: State, fs: seq<int>, gs: seq<int>)
    requires WritesOnly(a, b, fs) && WritesOnly(b, c, gs)
    ensures WritesOnly(a, c, fs + gs)
    ensures fs == gs ==> WritesOnly(a, c, fs)
  {
    hide Page;
  }

  lemma NextFrame(s0: State, s: State, top: int, k: int)
    requires Shape(s) && Tracks(s0, s, top, k, 0)
    ensures FreeFrame(s) == PickFree(s0, top, k)
  {
    var p := PickFree(s0, top, k);
    var h := HighestZero(s.memMap, |s.memMap|);
    hide PickFree, Shared;
    if p != 0 {
      assert Count(s, p) == 0;
      assert s.memMap[p - LOW_FRAMES] == 0;
    }
    if h >= 0 {
      assert Count(s, LOW_FRAMES + h) == 0;
    }
  }

  lemma FrameTaken(s0: State, s: State, s': State, top: int, k: int)
    requires Tracks(s0, s, top, k, 0) && PickFree(s0, top, k) != 0
    requires forall g :: Count(s', g) == if g == PickFree(s0, top, k) then 1 else Count(s, g)
    ensures Tracks(s0, s', PickFree(s0, top, k), k, 0)
  {
    hide PickFree, Shared, Count;
  }

  // ---------- sharing ----------

  /** Entry i of task 0's table k names frame f, which can be counted once more. */
  ghost predicate ZeroEntry(s: State, k: int, i: int, f: int) {
    && Mapped(s, k, i) && FrameOf(Entry(s, k, i)) == f && Table(s, k) < LOW_FRAMES
    && (LOW_FRAMES <= f < FRAMES ==> 0 <= Count(s, f) < 255)
  }

  lemma ZeroEntryIs(s: State, k: int, i: int, f: int)
    requires Inv(s) && 0 <= k < DATA_DIRS && 0 <= i < ENTRIES && f == ENTRIES * k + i
    ensures ZeroEntry(s, k, i, f)
  {
    IdentityTable(s, k);
    assert Maps(s, k, i, f);
    if LOW_FRAMES <= f < FRAMES {
      CountBound(s, f);
    }
  }

  lemma ZeroShareReady(s: State, child: int, k: int, i: int, to: int)
    requires Copying(s, 0, child) && BothTables(s, 0, child, k) && 0 <= k < DATA_DIRS && 0 <= i < ENTRIES && to == TASK_DIRS * child + k
    ensures Shape(s) && TablesApart(s) && TwoTables(s, k, to) && IsSlot(to, i) && Inv(s)
  {
    hide Mirror, Peek;
  }

  /** The count of frame f goes up, and of the pages above LOW_MEM only the child's table is written. */
  ghost predicate SharesFrame(s: State, s': State, to: int, f: int) {
    && (forall g :: Count(s', g) == if g == f && LOW_FRAMES <= f < FRAMES then (Count(s, f) + 1) % 256 else Count(s, g))
    && WritesOnly(s, s', [Table(s, to)])
  }

  lemma ShareFrame(s: State, k: int, to: int, i: int, f: int)
    requires Shape(s) && TablesApart(s) && TwoTables(s, k, to) && IsSlot(to, i) && ZeroEntry(s, k, i, f)
    ensures SharesFrame(s, ShareEntry(s, Table(s, k), Table(s, to), i), to, f)
  {
    hide Shape, TablesApart, TwoTables, ShareEntry, Peek, Entry, FrameOf, Count, Page, Mapped;
    ShareEntryEffect(s, k, to, i);
  }

  lemma ShareTracks(s0: State, s: State, child: int, k: int, to: int, i: int, top: int)
    requires Copying(s, 0, child) && BothTables(s, 0, child, k) && 0 <= k < DATA_DIRS && to == TASK_DIRS * child + k
    requires 0 <= i < KERNEL_ENTRIES && Tracks(s0, s, top, k, i)
    ensures var s' := ShareEntry(s, Table(s, k), Table(s, to), i);
      Tracks(s0, s', top, k, i + 1) && WritesOnly(s, s', [Table(s, to)])
  {
    assert i < ENTRIES;
    var f := ENTRIES * k + i;
    hide *;
    ZeroShareReady(s, child, k, i, to);
    ZeroEntryIs(s, k, i, f);
    ShareFrame(s, k, to, i, f);
    SharedTracks(s0, s, ShareEntry(s, Table(s, k), Table(s, to), i), to, k, i, f, top);
  }

  lemma SharedTracks(s0: State, s: State, s': State, to: int, k: int, i: int, f: int, top: int)
    requires SharesFrame(s, s', to, f) && ZeroEntry(s, k, i, f) && Tracks(s0, s, top, k, i)
    requires 0 <= k && 0 <= i < ENTRIES && f == ENTRIES * k + i
    ensures Tracks(s0, s', top, k, i + 1) && WritesOnly(s, s', [Table(s, to)])
  {
    hide Tracks, WritesOnly, Mapped, Entry, FrameOf, Count;
    OneMoreTracked(s0, s, s', k, i, f, top);
  }

  lemma SharedNow(k: int, i: int, f: int)
    requires 0 <= k && 0 <= i < ENTRIES && f == ENTRIES * k + i
    ensures Shared(f, k, i + 1) && forall g :: g != f ==> Shared(g, k, i + 1) == Shared(g, k, i)
  {
    assert f / ENTRIES == k && f % ENTRIES == i;
    forall g | g != f ensures Shared(g, k, i + 1) == Shared(g, k, i) {
      assert g == ENTRIES * (g / ENTRIES) + g % ENTRIES;
    }
  }

  lemma OneMoreTracked(s0: State, s: State, s': State, k: int, i: int, f: int, top: int)
    requires Tracks(s0, s, top, k, i) && 0 <= k && 0 <= i < ENTRIES && f == ENTRIES * k + i
    requires LOW_FRAMES <= f < FRAMES ==> 0 <= Count(s, f) < 255
    requires forall g :: Count(s', g) == if g == f && LOW_FRAMES <= f < FRAMES then (Count(s, f) + 1) % 256 else Count(s, g)
    ensures Tracks(s0, s', top, k, i + 1)
  {
    SharedNow(k, i, f);
    assert LOW_FRAMES <= f < FRAMES ==> Count(s', f) == Count(s, f) + 1;
    hide Count, Shared;
  }

  lemma {:induction false} ShareAllTracks(s0: State, s: State, child: int, k: int, to: int, i: int, n: int, top: int)
    requires Copying(s, 0, child) && BothTables(s, 0, child, k) && 0 <= k < DATA_DIRS && to == TASK_DIRS * child + k
    requires 0 <= i <= n <= KERNEL_ENTRIES && EmptyFrom(s, to, i) && Tracks(s0, s, top, k, i)
    ensures var s' := ShareEntries(s, Table(s, k), Table(s, to), i, n);
      Tracks(s0, s', top, k, n) && WritesOnly(s, s', [Table(s, to)])
    decreases n - i
  {
    hide *;
    ShareEntriesOnce(s, Table(s, k), Table(s, to), i, n);
    if i < n {
      ShareNext(s0, s, child, k, to, i, n, top);
      var next := ShareEntry(s, Table(s, k), Table(s, to), i);
      ShareAllTracks(s0, next, child, k, to, i + 1, n, top);
      WritesOnlyTrans(s, next, ShareEntries(next, Table(s, k), Table(s, to), i + 1, n), [Table(s, to)], [Table(s, to)]);
    } else {
      WritesNothing(s, [Table(s, to)]);
    }
  }

  lemma WritesNothing(s: State, fs: seq<int>)
    ensures WritesOnly(s, s, fs)
  {
  }

  lemma ShareNext(s0: State, s: State, child: int, k: int, to: int, i: int, n: int, top: int)
    requires Copying(s, 0, child) && BothTables(s, 0, child, k) && 0 <= k < DATA_DIRS && to == TASK_DIRS * child + k
    requires 0 <= i < n <= KERNEL_ENTRIES && EmptyFrom(s, to, i) && Tracks(s0, s, top, k, i)
    ensures var next := ShareEntry(s, Table(s, k), Table(s, to), i);
      && Copying(next, 0, child) && BothTables(next, 0, child, k) && EmptyFrom(next, to, i + 1)
      && Table(next, k) == Table(s, k) && Table(next, to) == Table(s, to) && Tracks(s0, next, top, k, i + 1)
      && WritesOnly(s, next, [Table(s, to)])
  {
    hide Copying, BothTables, EmptyFrom, ShareEntry, Table, Tracks, SameDirectory, WritesOnly;
    assert TASK_DIRS * 0 + k == k;
    ShareTracks(s0, s, child, k, to, i, top);
    ShareEntryNext(s, 0, child, k, i);
  }

  lemma WindowDone(s0: State, s: State, top: int, k: int)
    requires Tracks(s0, s, top, k, KERNEL_ENTRIES)
    ensures Tracks(s0, s, top, k + 1, 0)
  {
    hide Count;
    assert forall f :: Shared(f, k + 1, 0) == Shared(f, k, KERNEL_ENTRIES);
    hide Shared;
  }

  // ---------- structures in a window ----------

  lemma TableInWindow(s: State, s': State, d: int, f: int)
    requires NewTable(s, s', d, f) && TASK_DIRS <= d < ENTRIES && !HasTable(s, d) && LOW_FRAMES <= f
    ensures StructureInWindow(s') <==> StructureInWindow(s) || InWindow(f)
  {
    hide HasTable, Table, InWindow, TaskFrame;
    forall g ensures IsTable(s', g) == (IsTable(s, g) || g == f) && IsTask(s', g) == IsTask(s, g) {
      SameTasks(s, s', g);
      assert TableUses(s', g) == if g == f then TableUses(s, g) + {d} else TableUses(s, g);
    }
    hide IsTable, IsTask;
    assert StructureInWindow(s) || InWindow(f) ==> StructureInWindow(s');
  }

  lemma SameTasks(s: State, s': State, g: int)
    requires s'.task == s.task
    ensures TaskUses(s', g) == TaskUses(s, g)
  {
  }

  lemma TaskInWindow(s: State, s': State, nr: int, f: int)
    requires NewTask(s, s', nr, f) && CanAddTask(s, nr) && LOW_FRAMES <= f
    ensures StructureInWindow(s') <==> StructureInWindow(s) || InWindow(f)
  {
    hide HasTable, Table, InWindow, TaskFrame, NewTask, CanAddTask;
    forall g | LOW_FRAMES <= g ensures IsTable(s', g) == IsTable(s, g) && IsTask(s', g) == (IsTask(s, g) || g == f) {
      NewTaskUses(s, s', nr, f, g);
    }
    hide IsTable, IsTask;
    assert StructureInWindow(s) || InWindow(f) ==> StructureInWindow(s');
  }

  lemma SharedStructures(s: State, s': State)
    requires SameDirectory(s, s')
    ensures StructureInWindow(s') <==> StructureInWindow(s)
  {
    hide InWindow;
    forall g ensures IsTable(s', g) == IsTable(s, g) && IsTask(s', g) == IsTask(s, g) {
      SameUses(s, s', g);
    }
    hide IsTable, IsTask;
  }

  // ---------- one table ----------

  /** Table f has been filled for directory entry `to`: what is tracked, and what has changed. */
  ghost predicate TableDone(s0: State, s: State, next: State, to: int, f: int, k: int) {
    && Tracks(s0, next, f, k + 1, 0)
    && (StructureInWindow(next) <==> StructureInWindow(s) || InWindow(f))
    && Table(next, to) == f
    && (forall e :: e != to ==> Table(next, e) == Table(s, e) && HasTable(next, e) == HasTable(s, e))
    && WritesOnly(s, next, [f])
  }

  lemma NextTracks(s0: State, s: State, child: int, k: int, to: int, top: int)
    requires Copying(s, 0, child) && 0 <= k < DATA_DIRS && NoTablesFrom(s, child, k) && to == TASK_DIRS * child + k
    requires Tracks(s0, s, top, k, 0) && PickFree(s0, top, k) != 0
    ensures FreeFrame(s) == PickFree(s0, top, k)
    ensures TableDone(s0, s, NextCopy(s, k, to, KERNEL_ENTRIES), to, PickFree(s0, top, k), k)
  {
    FrameReady(s0, s, child, k, top);
    hide *;
    var f := PickFree(s0, top, k);
    var added := AddTable(s, to, f);
    AddedTracks(s0, s, child, k, to, top);
    var next := ShareEntries(added, Table(added, k), Table(added, to), 0, KERNEL_ENTRIES);
    ShareAllTracks(s0, added, child, k, to, 0, KERNEL_ENTRIES, f);
    SharedDirectory(added, child, k, to);
    WindowDone(s0, next, f, k);
    NextCopyIs(s, k, to, KERNEL_ENTRIES);
    TableIsDone(s0, s, added, next, to, f, k);
  }

  lemma TableIsDone(s0: State, s: State, added: State, next: State, to: int, f: int, k: int)
    requires Tracks(s0, next, f, k + 1, 0) && NewTable(s, added, to, f) && SameDirectory(added, next)
    requires StructureInWindow(added) <==> StructureInWindow(s) || InWindow(f)
    requires WritesOnly(s, added, [f]) && WritesOnly(added, next, [f])
    ensures TableDone(s0, s, next, to, f, k)
  {
    hide Tracks, StructureInWindow, InWindow, WritesOnly, HasTable, Table;
    SharedStructures(added, next);
    WritesOnlyTrans(s, added, next, [f], [f]);
  }

  lemma SharedDirectory(s: State, child: int, k: int, to: int)
    requires Copying(s, 0, child) && BothTables(s, 0, child, k) && EmptyFrom(s, to, 0) && to == TASK_DIRS * child + k
    ensures SameDirectory(s, ShareEntries(s, Table(s, k), Table(s, to), 0, KERNEL_ENTRIES))
  {
    hide Copying, BothTables, EmptyFrom, ShareEntries, Table, SameDirectory, Outside;
    assert TASK_DIRS * 0 + k == k;
    ShareEntriesKeeps(s, 0, child, k, 0, KERNEL_ENTRIES);
  }

  lemma FrameReady(s0: State, s: State, child: int, k: int, top: int)
    requires Copying(s, 0, child) && 0 <= k < DATA_DIRS && Tracks(s0, s, top, k, 0) && PickFree(s0, top, k) != 0
    ensures FreeFrame(s) == PickFree(s0, top, k) && HasTable(s, k) && TASK_DIRS * 0 + k == k && LOW_FRAMES <= PickFree(s0, top, k)
    ensures 0 <= KERNEL_ENTRIES <= ENTRIES
  {
    IdentityTable(s, k);
    NextFrame(s0, s, top, k);
  }

  lemma AddedTracks(s0: State, s: State, child: int, k: int, to: int, top: int)
    requires Copying(s, 0, child) && 0 <= k < DATA_DIRS && NoTablesFrom(s, child, k) && HasTable(s, k) && to == TASK_DIRS * child + k
    requires Tracks(s0, s, top, k, 0) && PickFree(s0, top, k) != 0 && FreeFrame(s) == PickFree(s0, top, k)
    ensures var f := PickFree(s0, top, k);
      var added := AddTable(s, to, f);
      && Copying(added, 0, child) && BothTables(added, 0, child, k) && EmptyFrom(added, to, 0)
      && Table(added, k) == Table(s, k) && Table(added, to) == f && NewTable(s, added, to, f)
      && Tracks(s0, added, f, k, 0) && WritesOnly(s, added, [f])
      && (StructureInWindow(added) <==> StructureInWindow(s) || InWindow(f))
  {
    AddTableReady(s, 0, child, k);
    hide AddTable, FreeFrame, Copying, EmptyFrom, NoTablesFrom, BothTables, Table, HasTable, Tracks, PickFree, StructureInWindow, InWindow, Inv, Mirror, CanAddTable, NewTable, WritesOnly;
    TableAdded(s, 0, child, k);
    TakenForTable(s0, s, to, k, top);
  }

  lemma TakenForTable(s0: State, s: State, d: int, k: int, top: int)
    requires Inv(s) && TASK_DIRS <= d < ENTRIES && !HasTable(s, d) && Tracks(s0, s, top, k, 0)
    requires FreeFrame(s) == PickFree(s0, top, k) != 0
    ensures var f := PickFree(s0, top, k);
      var added := AddTable(s, d, f);
      && NewTable(s, added, d, f) && Tracks(s0, added, f, k, 0) && WritesOnly(s, added, [f])
      && (StructureInWindow(added) <==> StructureInWindow(s) || InWindow(f))
  {
    hide AddTable, FreeFrame, HasTable, Tracks, PickFree, StructureInWindow, InWindow, Inv, Count, NewTable, Page;
    AddTableEffect(s, d);
    var added := AddTable(s, d, PickFree(s0, top, k));
    FrameTaken(s0, s, added, top, k);
    TableInWindow(s, added, d, PickFree(s0, top, k));
  }

  // ---------- all tables ----------

  /** What copying n tables from entry `to` on comes to: `plan` says whether the frames suffice and which
      they are.  A copy that runs out has used the frames of the plan too. */
  ghost predicate Follows(s0: State, s: State, r: (State, bool), to: int, top: int, k: int, n: int, plan: seq<int>) {
    && r.1 == (|plan| == n)
    && (r.1 ==> Tracks(s0, r.0, Last(top, plan), k + n, 0))
    && (r.1 ==> (StructureInWindow(r.0) <==> StructureInWindow(s) || AnyInWindow(plan)))
    && (r.1 ==> forall m :: 0 <= m < |plan| ==> Table(r.0, to + m) == plan[m])
    && (forall e :: !(to <= e < to + n) ==> Table(r.0, e) == Table(s, e) && HasTable(r.0, e) == HasTable(s, e))
    && (forall e :: to <= e < to + n && HasTable(r.0, e) ==> Table(r.0, e) in plan)
    && WritesOnly(s, r.0, plan)
  }

  lemma PlanStep(s0: State, top: int, k: int, n: int)
    requires n > 0
    ensures PlanTables(s0, top, k, n) ==
      if PickFree(s0, top, k) == 0 then [] else [PickFree(s0, top, k)] + PlanTables(s0, PickFree(s0, top, k), k + 1, n - 1)
  {
    hide PickFree;
  }

  lemma PlanEnds(s0: State, s: State, from: int, to: int, limit: int, top: int, k: int)
    requires Tracks(s0, s, top, k, 0)
    ensures Follows(s0, s, CopyTables(s, from, to, 0, limit), to, top, k, 0, PlanTables(s0, top, k, 0))
  {
    assert k + 0 == k;
    hide Tracks, StructureInWindow, Table, HasTable, InWindow;
    WritesNothing(s, []);
  }

  lemma FollowsStep(s0: State, s: State, next: State, r: (State, bool), to: int, f: int, top: int, k: int, n: int, rest: seq<int>)
    requires TableDone(s0, s, next, to, f, k) && n > 0
    requires Follows(s0, next, r, to + 1, f, k + 1, n - 1, rest)
    ensures Follows(s0, s, r, to, top, k, n, [f] + rest)
  {
    hide StructureInWindow, InWindow, Table, HasTable, Tracks, WritesOnly;
    var plan := [f] + rest;
    WritesOnlyTrans(s, next, r.0, [f], rest);
    assert Last(top, plan) == Last(f, rest);
    assert k + 1 + (n - 1) == k + n;
    assert AnyInWindow(plan) <==> InWindow(f) || AnyInWindow(rest) by {
      InWindowEither(f, rest);
    }
    forall m | 0 <= m < |plan| && r.1 ensures Table(r.0, to + m) == plan[m] {
      if m > 0 {
        assert Table(r.0, to + 1 + (m - 1)) == rest[m - 1];
      }
    }
    forall e | to <= e < to + n && HasTable(r.0, e) ensures Table(r.0, e) in plan {
      if e != to {
        assert Table(r.0, e) in rest;
      }
    }
  }

  lemma InWindowEither(f: int, rest: seq<int>)
    ensures AnyInWindow([f] + rest) <==> InWindow(f) || AnyInWindow(rest)
  {
    hide InWindow;
    if AnyInWindow(rest) {
      var g :| g in rest && InWindow(g);
      assert g in [f] + rest;
    }
    assert f in [f] + rest;
  }

  lemma FollowsNot(s0: State, s: State, child: int, to: int, top: int, k: int, n: int)
    requires n > 0 && to == TASK_DIRS * child + k && 0 <= k && k + n <= DATA_DIRS && NoTablesFrom(s, child, k)
    ensures Follows(s0, s, (s, false), to, top, k, n, [])
  {
    hide StructureInWindow, Table, HasTable, Tracks;
    WritesNothing(s, []);
  }

  /** The copy takes the frames of the plan, in this order. */
  lemma {:induction false} CopyFollows(s0: State, s: State, child: int, k: int, to: int, n: int, top: int)
    requires Copying(s, 0, child) && NoTablesFrom(s, child, k) && FreshFrames(s, child) && Tracks(s0, s, top, k, 0)
    requires 0 <= k && 0 <= n && k + n <= DATA_DIRS && to == TASK_DIRS * child + k
    ensures Follows(s0, s, CopyTables(s, k, to, n, KERNEL_ENTRIES), to, top, k, n, PlanTables(s0, top, k, n))
    decreases n
  {
    hide *;
    PlanEnds(s0, s, k, to, KERNEL_ENTRIES, top, k);
    if n > 0 {
      ZeroTableAt(s, child, k, n);
      PlanStep(s0, top, k, n);
      CopyTablesOnce(s, k, to, n, KERNEL_ENTRIES);
      NextFrame(s0, s, top, k);
      if PickFree(s0, top, k) == 0 {
        FollowsNot(s0, s, child, to, top, k, n);
      } else {
        var f := PickFree(s0, top, k);
        NextTracks(s0, s, child, k, to, top);
        NextZero(s, child, k, to);
        var next := NextCopy(s, k, to, KERNEL_ENTRIES);
        TracksIn(s0, s, next, to, f, k);
        CopyFollows(s0, next, child, k + 1, to + 1, n - 1, f);
        FollowsStep(s0, s, next, CopyTables(next, k + 1, to + 1, n - 1, KERNEL_ENTRIES), to, f, top, k, n, PlanTables(s0, f, k + 1, n - 1));
      }
    }
  }

  lemma TracksIn(s0: State, s: State, next: State, to: int, f: int, k: int)
    requires TableDone(s0, s, next, to, f, k)
    ensures Tracks(s0, next, f, k + 1, 0)
  {
  }

  lemma ZeroTableAt(s: State, child: int, k: int, n: int)
    requires Copying(s, 0, child) && 0 <= k && 0 < n && k + n <= DATA_DIRS
    ensures Shape(s) && HasTable(s, k) && k < DATA_DIRS
  {
    IdentityTable(s, k);
  }

  lemma NextZero(s: State, child: int, k: int, to: int)
    requires Copying(s, 0, child) && 0 <= k < DATA_DIRS && FreeFrame(s) != 0 && to == TASK_DIRS * child + k
    requires NoTablesFrom(s, child, k) && FreshFrames(s, child)
    ensures var next := NextCopy(s, k, to, KERNEL_ENTRIES);
      Copying(next, 0, child) && NoTablesFrom(next, child, k + 1) && FreshFrames(next, child)
  {
    hide Copying, NoTablesFrom, FreshFrames, NextCopy, FreeFrame, WindowMapped, SameWrites;
    NextZeroKeeps(s, child, k);
  }

  // ---------- the whole fork ----------

  lemma StartTracks(s: State, nr: int, pcb: seq<int>)
    requires Inv(s) && CanAddTask(s, nr) && |pcb| == ENTRIES
    ensures FreeFrame(s) == PickFree(s, FRAMES, 0)
    ensures FreeFrame(s) != 0 ==>
      var f := FreeFrame(s);
      var started := AddTask(s, nr, f, pcb);
      && LOW_FRAMES <= f && Tracks(s, started, f, 0, 0) && WritesOnly(s, started, [f])
      && (StructureInWindow(started) <==> StructureInWindow(s) || InWindow(f))
      && (forall e :: Table(started, e) == Table(s, e) && HasTable(started, e) == HasTable(s, e))
  {
    assert Tracks(s, s, FRAMES, 0, 0);
    NextFrame(s, s, FRAMES, 0);
    hide AddTask, FreeFrame, HasTable, Table, Tracks, PickFree, StructureInWindow, InWindow, Inv, Count, Page;
    if FreeFrame(s) != 0 {
      AddTaskEffect(s, nr, pcb);
      var started := AddTask(s, nr, FreeFrame(s), pcb);
      FrameTaken(s, s, started, FRAMES, 0);
      TaskInWindow(s, started, nr, FreeFrame(s));
    }
  }

  lemma PlanIs(s: State)
    ensures Plan(s) == if PickFree(s, FRAMES, 0) == 0 then [] else [PickFree(s, FRAMES, 0)] + PlanTables(s, PickFree(s, FRAMES, 0), 0, DATA_DIRS)
  {
  }

  lemma CanForkMeansSlot(s: State, nr: int, pcb: seq<int>, dirs: int)
    requires CanFork(s, 0, nr, pcb, dirs)
    ensures 1 <= nr < NR_TASKS && |pcb| == ENTRIES && CanAddTask(s, nr) && dirs == DATA_DIRS && 0 <= dirs && 0 + dirs <= DATA_DIRS
    ensures TASK_DIRS * nr == TASK_DIRS * nr + 0 && FORK_FRAMES == 1 + dirs && 0 + dirs == dirs
  {
  }

  lemma ForkParts(s: State, nr: int, pcb: seq<int>, dirs: int)
    ensures FreeFrame(s) == 0 ==> Fork(s, 0, nr, pcb, dirs) == (s, false)
    ensures FreeFrame(s) != 0 ==>
      var r := CopyTables(AddTask(s, nr, FreeFrame(s), pcb), 0, TASK_DIRS * nr, dirs, KERNEL_ENTRIES);
      && r == Copied(s, 0, nr, pcb, dirs)
      && Fork(s, 0, nr, pcb, dirs) == if r.1 then r else (DropTask(DropTables(r.0, TASK_DIRS * nr, dirs), nr), false)
  {
    hide CopyTables, AddTask, FreeFrame, DropTables, DropTask;
  }

  /** What a fork by task 0 into slot nr comes to. */
  ghost predicate Outcome(s: State, r: (State, bool), nr: int, plan: seq<int>) {
    && r.1 == (|plan| == FORK_FRAMES)
    && WritesOnly(s, r.0, plan)
    && (r.1 ==>
      && (StructureInWindow(r.0) <==> StructureInWindow(s) || AnyInWindow(plan))
      && TaskFrame(r.0, nr) == plan[0]
      && (forall e :: TASK_DIRS * nr <= e < TASK_DIRS * nr + DATA_DIRS ==> Table(r.0, e) == plan[1 + e - TASK_DIRS * nr])
      && FreeFrame(r.0) == PickFree(s, plan[FORK_FRAMES - 1], DATA_DIRS))
  }

  lemma OutcomeNone(s: State, nr: int)
    ensures Outcome(s, (s, false), nr, [])
  {
    WritesNothing(s, []);
  }

  lemma OutcomeDone(s: State, started: State, r: (State, bool), nr: int, f: int, tables: seq<int>, dirs: int)
    requires Follows(s, started, r, TASK_DIRS * nr, f, 0, dirs, tables) && dirs == DATA_DIRS && r.1
    requires WritesOnly(s, started, [f]) && (StructureInWindow(started) <==> StructureInWindow(s) || InWindow(f))
    requires Shape(r.0) && TaskFrame(r.0, nr) == f
    ensures Outcome(s, r, nr, [f] + tables)
  {
    var plan := [f] + tables;
    NextFrame(s, r.0, Last(f, tables), dirs);
    hide StructureInWindow, InWindow, Table, HasTable, TaskFrame, PickFree, FreeFrame, Tracks, WritesOnly;
    WritesOnlyTrans(s, started, r.0, [f], tables);
    InWindowEither(f, tables);
    forall e | TASK_DIRS * nr <= e < TASK_DIRS * nr + DATA_DIRS ensures Table(r.0, e) == plan[1 + e - TASK_DIRS * nr] {
      var m := e - TASK_DIRS * nr;
      assert Table(r.0, TASK_DIRS * nr + m) == tables[m];
    }
  }

  /** The error path writes the tables that go, and nothing else. */
  lemma OutcomeFailed(s: State, started: State, r: (State, bool), nr: int, f: int, tables: seq<int>, dirs: int)
    requires Follows(s, started, r, TASK_DIRS * nr, f, 0, dirs, tables) && dirs == DATA_DIRS && !r.1
    requires WritesOnly(s, started, [f]) && Inv(r.0) && 1 <= nr < NR_TASKS
    ensures Outcome(s, (DropTask(DropTables(r.0, TASK_DIRS * nr, dirs), nr), false), nr, [f] + tables)
  {
    var dropped := DropTables(r.0, TASK_DIRS * nr, dirs);
    DropTablesKeeps(r.0, TASK_DIRS * nr, dirs);
    assert WritesOnly(r.0, dropped, tables) by {
      hide Page, DropTables, Inv, HasTable, Table, Removed;
    }
    SamePages(dropped, nr);
    hide Follows, WritesOnly, DropTables, DropTask;
    assert WritesOnly(started, r.0, tables) by { FollowsWrites(s, started, r, TASK_DIRS * nr, f, 0, dirs, tables); }
    WritesOnlyTrans(started, r.0, dropped, tables, tables);
    WritesOnlyTrans(started, dropped, DropTask(dropped, nr), tables, tables);
    WritesOnlyTrans(s, started, DropTask(dropped, nr), [f], tables);
    assert |tables| != dirs by { FollowsWrites(s, started, r, TASK_DIRS * nr, f, 0, dirs, tables); }
  }

  lemma FollowsWrites(s0: State, s: State, r: (State, bool), to: int, top: int, k: int, n: int, plan: seq<int>)
    requires Follows(s0, s, r, to, top, k, n, plan)
    ensures WritesOnly(s, r.0, plan) && r.1 == (|plan| == n)
  {
  }

  lemma SamePages(s: State, nr: int)
    ensures forall fs :: WritesOnly(s, DropTask(s, nr), fs)
  {
    assert DropTask(s, nr).ram == s.ram;
    hide DropTask;
  }

  lemma ZeroForkOutcome(s: State, nr: int, pcb: seq<int>, dirs: int)
    requires Inv(s) && CanFork(s, 0, nr, pcb, dirs)
    ensures Outcome(s, Fork(s, 0, nr, pcb, dirs), nr, Plan(s))
  {
    CanForkMeansSlot(s, nr, pcb, dirs);
    hide *;
    PlanIs(s);
    ForkParts(s, nr, pcb, dirs);
    StartTracks(s, nr, pcb);
    if FreeFrame(s) == 0 {
      OutcomeNone(s, nr);
    } else {
      var f := FreeFrame(s);
      var started := AddTask(s, nr, f, pcb);
      var r := CopyTables(started, 0, TASK_DIRS * nr, dirs, KERNEL_ENTRIES);
      AddTaskStarts(s, 0, nr, pcb, dirs);
      AddTaskFresh(s, nr, pcb);
      CopyFollows(s, started, nr, 0, TASK_DIRS * nr, dirs, f);
      CopiedShape(s, nr, pcb, dirs);
      if r.1 {
        OutcomeDone(s, started, r, nr, f, PlanTables(s, f, 0, dirs), dirs);
      } else {
        OutcomeFailed(s, started, r, nr, f, PlanTables(s, f, 0, dirs), dirs);
      }
    }
  }

  lemma CopiedShape(s: State, nr: int, pcb: seq<int>, dirs: int)
    requires Inv(s) && CanFork(s, 0, nr, pcb, dirs) && FreeFrame(s) != 0
    ensures var s' := Copied(s, 0, nr, pcb, dirs).0;
      Inv(s') && Shape(s') && TaskFrame(s', nr) == FreeFrame(s)
  {
    assert |s.task| == NR_TASKS;
    hide Copied, FreeFrame, Outside, Mirror;
    CopiedKeeps(s, 0, nr, pcb, dirs);
  }

  // ---------- exactly when, before the fork ----------

  /** A fork by task 0 would leave private memories: nobody can write a page it shares, and no structure,
      old or new, lies in one. */
  ghost predicate SafeZeroFork(s: State) {
    !WritesWindow(s) && !StructureInWindow(s) && !AnyInWindow(Plan(s))
  }

  /** A fork by task 0 succeeds exactly if the plan finds five frames; then it takes these, and leaves
      private memories exactly if the state before it says so. */
  lemma ZeroForkIff(s: State, nr: int, pcb: seq<int>, dirs: int)
    requires Inv(s) && Private(s) && CanFork(s, 0, nr, pcb, dirs)
    ensures var (s', ok) := Fork(s, 0, nr, pcb, dirs);
      && ok == (|Plan(s)| == FORK_FRAMES)
      && (ok ==> (Private(s') <==> SafeZeroFork(s)))
  {
    hide Fork, Private, StructureInWindow, WritesWindow, AnyInWindow, Plan, Inv, CanFork, WritesOnly, PickFree, FreeFrame;
    ZeroForkOutcome(s, nr, pcb, dirs);
    if Fork(s, 0, nr, pcb, dirs).1 {
      ZeroForkPrivateIff(s, nr, pcb, dirs);
    }
  }

  // ---------- what the tasks see ----------

  /** A mapped page is not among the frames to be taken. */
  lemma MappedNotPlanned(s: State, e: int, j: int, f: int)
    requires Inv(s) && TASK_DIRS <= e && Maps(s, e, j, f) && LOW_FRAMES <= f
    ensures f !in Plan(s)
  {
    assert f < FRAMES;
    MappedCounted(s, e, j, f);
    hide Plan;
  }

  /** Tasks 1..63 see what they saw, whether or not a fork by task 0 succeeds. */
  lemma ZeroForkOthers(s: State, nr: int, pcb: seq<int>, dirs: int)
    requires Inv(s) && CanFork(s, 0, nr, pcb, dirs)
    ensures var (s', ok) := Fork(s, 0, nr, pcb, dirs);
      && Inv(s') && SameForOthers(s, s', nr) && (!ok ==> SameViews(s, s'))
      && (!ok && Private(s) ==> Private(s'))
  {
    var (s', ok) := Fork(s, 0, nr, pcb, dirs);
    ZeroForkOutcome(s, nr, pcb, dirs);
    hide *;
    if ok {
      ZeroForkDone(s, nr, pcb, dirs);
      ZeroOthersView(s, s', nr, dirs);
    } else {
      ForkRollback(s, 0, nr, pcb, dirs);
      RollbackView(s, s', nr);
      if Private(s) {
        RollbackPrivate(s, s');
      }
    }
  }

  lemma RollbackPrivate(s: State, s': State)
    requires Private(s) && s'.task == s.task
    requires forall d :: HasTable(s', d) == HasTable(s, d)
    requires forall d :: HasTable(s', d) ==> Table(s', d) == Table(s, d)
    requires forall d, i, f :: Maps(s', d, i, f) <==> Maps(s, d, i, f)
    requires forall d, i :: CanWrite(s', d, i) ==> CanWrite(s, d, i)
    ensures Private(s')
  {
    forall g ensures IsTable(s', g) == IsTable(s, g) && IsTask(s', g) == IsTask(s, g) {
      assert TableUses(s', g) == TableUses(s, g) && TaskUses(s', g) == TaskUses(s, g);
    }
    hide Maps, CanWrite, IsTable, IsTask, HasTable, Table;
  }

  lemma RollbackView(s: State, s': State, nr: int)
    requires Inv(s) && Outcome(s, (s', false), nr, Plan(s)) && forall d, i, f :: Maps(s', d, i, f) <==> Maps(s, d, i, f)
    ensures SameViews(s, s') && SameForOthers(s, s', nr)
  {
    hide View, Maps, Page, Inv, Plan;
    forall e, j | TASK_DIRS <= e ensures View(s', e, j) == View(s, e, j) {
      forall f | Maps(s, e, j, f) && f >= LOW_FRAMES ensures Page(s', f) == Page(s, f) {
        MappedNotPlanned(s, e, j, f);
      }
      SameView(s, s', e, j, e, j);
    }
  }

  lemma ZeroOthersView(s: State, s': State, nr: int, dirs: int)
    requires Inv(s) && Outcome(s, (s', true), nr, Plan(s)) && ZeroForked(s, s', nr, dirs)
    ensures SameForOthers(s, s', nr)
  {
    assert WindowMapped(s, s', nr, 0, dirs) && dirs == DATA_DIRS;
    hide View, Maps, Page, Inv, Plan, ZeroForked, StructureInWindow;
    forall e, j | TASK_DIRS <= e && e / TASK_DIRS != nr ensures View(s', e, j) == View(s, e, j) {
      assert !(TASK_DIRS * nr <= e < TASK_DIRS * nr + dirs);
      forall f | Maps(s, e, j, f) && f >= LOW_FRAMES ensures Page(s', f) == Page(s, f) {
        MappedNotPlanned(s, e, j, f);
      }
      SameView(s, s', e, j, e, j);
    }
  }

  /** What the child of task 0 sees at page p: kernel pages below LOW_MEM, above it what was there. */
  function ImagePage(p: int, ram: seq<seq<int>>): PageView {
    if !(0 <= p < FRAMES && p % ENTRIES < KERNEL_ENTRIES) then Absent
    else if p < LOW_FRAMES then Kernel(p)
    else Own(if p < |ram| then ram[p] else [])
  }

  /** Page p of the child after the fork: what task 0 shares, and in a frame that the fork itself has taken
      what it has put there. */
  function ChildPage(s: State, s': State, p: int): PageView {
    if InWindow(p) && p in Plan(s) then Own(Page(s', p)) else ImagePage(p, s.ram)
  }

  /** The child sees the pages that task 0 shares. */
  lemma ZeroChildView(s: State, nr: int, pcb: seq<int>, dirs: int)
    requires Inv(s) && CanFork(s, 0, nr, pcb, dirs) && Fork(s, 0, nr, pcb, dirs).1
    ensures var s' := Fork(s, 0, nr, pcb, dirs).0;
      forall e, j {:trigger View(s', e, j)} :: e / TASK_DIRS == nr && IsSlot(e, j) ==>
        View(s', e, j) == ChildPage(s, s', ENTRIES * (e - TASK_DIRS * nr) + j)
  {
    var s' := Fork(s, 0, nr, pcb, dirs).0;
    ZeroForkDone(s, nr, pcb, dirs);
    ZeroForkOutcome(s, nr, pcb, dirs);
    assert dirs == DATA_DIRS && WindowMapped(s, s', nr, 0, dirs);
    assert |s.ram| == FRAMES;
    hide Fork, Inv, CanFork, StructureInWindow, Plan, Outside, FreshFrames, SameWrites, FreeFrame, PickFree, ChildPage;
    forall e, j | e / TASK_DIRS == nr && IsSlot(e, j) ensures View(s', e, j) == ChildPage(s, s', ENTRIES * (e - TASK_DIRS * nr) + j) {
      ZeroChildPage(s, s', nr, dirs, e, j);
    }
  }

  lemma ChildSlot(nr: int, e: int, j: int)
    requires e / TASK_DIRS == nr && 0 <= j < ENTRIES
    ensures TASK_DIRS * nr <= e < TASK_DIRS * nr + TASK_DIRS
    ensures InWindow(ENTRIES * (e - TASK_DIRS * nr) + j) <==> e < TASK_DIRS * nr + DATA_DIRS && j < KERNEL_ENTRIES
  {
    var d := e - TASK_DIRS * nr;
    assert (ENTRIES * d + j) % ENTRIES == j;
  }

  lemma ZeroChildPage(s: State, s': State, nr: int, dirs: int, e: int, j: int)
    requires dirs == DATA_DIRS && WindowMapped(s, s', nr, 0, dirs) && WritesOnly(s, s', Plan(s))
    requires |s.ram| == FRAMES && e / TASK_DIRS == nr && IsSlot(e, j) && forall d, i, f :: d / TASK_DIRS == nr ==> !Maps(s, d, i, f)
    ensures View(s', e, j) == ChildPage(s, s', ENTRIES * (e - TASK_DIRS * nr) + j)
  {
    ChildSlot(nr, e, j);
    var p := ENTRIES * (e - TASK_DIRS * nr) + j;
    assert p in Plan(s) ==> LOW_FRAMES <= p;
    assert Maps(s', e, j, p) <==> InWindow(p) by {
      hide InWindow, Maps, Plan;
    }
    ViewOf(s', e, j, p);
    if !InWindow(p) {
      assert forall f :: !Maps(s', e, j, f) by {
        hide InWindow, Maps, Plan;
      }
      ViewOf(s', e, j, FrameOf(Entry(s', e, j)));
    }
    hide Plan, View, Maps, Mapped, WindowMapped;
  }

  /** If none of the frames taken is shared, the pages are as they were before the fork. */
  lemma ZeroChildImage(s: State, nr: int, pcb: seq<int>, dirs: int)
    requires Inv(s) && CanFork(s, 0, nr, pcb, dirs) && Fork(s, 0, nr, pcb, dirs).1 && !AnyInWindow(Plan(s))
    ensures var s' := Fork(s, 0, nr, pcb, dirs).0;
      forall e, j {:trigger View(s', e, j)} :: e / TASK_DIRS == nr && IsSlot(e, j) ==>
        View(s', e, j) == ImagePage(ENTRIES * (e - TASK_DIRS * nr) + j, s.ram)
  {
    hide Fork, Inv, CanFork, View, ImagePage, Plan, InWindow;
    ZeroChildView(s, nr, pcb, dirs);
    assert forall p :: InWindow(p) ==> p !in Plan(s);
  }
}
