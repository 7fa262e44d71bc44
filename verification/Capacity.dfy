/** How much memory a fork takes, and so exactly when it succeeds: the structure and one frame for each
    of the parent's tables; sharing pages takes nothing. */
module Capacity {
  import opened Kernel
  import opened PageTables
  import opened Conservation
  import opened Allocation
  import opened Sharing
  import opened Release
  import opened Forking

  // ---------- counting free frames ----------

  function ZeroBytes(m: seq<int>): nat {
    if m == [] then 0 else (if m[|m| - 1] == 0 then 1 else 0) + ZeroBytes(m[..|m| - 1])
  }

  /** The frames that `get_free_page` can still hand out. */
  function FreeFrames(s: State): nat {
    ZeroBytes(s.memMap)
  }

  lemma {:induction false} NoneIsNone(m: seq<int>, n: nat)
    requires n <= |m|
    ensures ZeroBytes(m[..n]) == 0 <==> HighestZero(m, n) < 0
  {
    if n > 0 {
      NoneIsNone(m, n - 1);
      assert m[..n][..n - 1] == m[..n - 1];
    }
  }

  lemma FreeFrameIff(s: State)
    ensures FreeFrame(s) == 0 <==> FreeFrames(s) == 0
  {
    NoneIsNone(s.memMap, |s.memMap|);
    assert s.memMap[..|s.memMap|] == s.memMap;
  }

  lemma {:induction false} SameZeros(m: seq<int>, m': seq<int>)
    requires |m| == |m'| && forall k :: 0 <= k < |m| ==> (m[k] == 0 <==> m'[k] == 0)
    ensures ZeroBytes(m) == ZeroBytes(m')
  {
    if m != [] {
      SameZeros(m[..|m| - 1], m'[..|m| - 1]);
    }
  }

  lemma {:induction false} OneZeroLess(m: seq<int>, m': seq<int>, k: int)
    requires |m| == |m'| && 0 <= k < |m| && m[k] == 0 != m'[k]
    requires forall j :: 0 <= j < |m| && j != k ==> (m[j] == 0 <==> m'[j] == 0)
    ensures ZeroBytes(m) == ZeroBytes(m') + 1
  {
    var n := |m| - 1;
    if k == n {
      SameZeros(m[..n], m'[..n]);
    } else {
      OneZeroLess(m[..n], m'[..n], k);
    }
  }

  ghost predicate SameFree(s: State, s': State) {
    |s'.memMap| == |s.memMap| && forall f :: Count(s', f) == 0 <==> Count(s, f) == 0
  }

  lemma SameFreeFrames(s: State, s': State)
    requires SameFree(s, s')
    ensures FreeFrames(s') == FreeFrames(s)
  {
    forall k | 0 <= k < |s.memMap| ensures s.memMap[k] == 0 <==> s'.memMap[k] == 0 {
      assert Count(s, k + LOW_FRAMES) == s.memMap[k] && Count(s', k + LOW_FRAMES) == s'.memMap[k];
    }
    SameZeros(s.memMap, s'.memMap);
  }

  /** Allocating takes one. */
  lemma TakesOne(s: State, s': State, f: int)
    requires Shape(s) && Shape(s') && LOW_FRAMES <= f < FRAMES && Count(s, f) == 0
    requires forall g :: Count(s', g) == if g == f then 1 else Count(s, g)
    ensures FreeFrames(s') == FreeFrames(s) - 1
  {
    forall k | 0 <= k < |s.memMap| && k != f - LOW_FRAMES ensures s.memMap[k] == 0 <==> s'.memMap[k] == 0 {
      assert Count(s, k + LOW_FRAMES) == s.memMap[k] && Count(s', k + LOW_FRAMES) == s'.memMap[k];
    }
    OneZeroLess(s.memMap, s'.memMap, f - LOW_FRAMES);
  }

  // ---------- sharing takes nothing ----------

  /** A page that a task 1..63 maps is counted already, so counting it once more takes no frame. */
  lemma ShareEntryFree(s: State, parent: int, child: int, k: int, i: int)
    requires Copying(s, parent, child) && BothTables(s, parent, child, k) && 1 <= parent && 0 <= i < ENTRIES
    ensures SameFree(s, ShareEntry(s, Table(s, TASK_DIRS * parent + k), Table(s, TASK_DIRS * child + k), i))
  {
    var from, to := TASK_DIRS * parent + k, TASK_DIRS * child + k;
    if Mapped(s, from, i) {
      ShareReady(s, parent, child, k, i);
      var f := FrameOf(Entry(s, from, i));
      ShareEntryEffect(s, from, to, i);
      hide ShareEntry, Peek, Entry, FrameOf, Maps, Mirror, Copying, Inv, BothTables, TwoTables, HasTable, Table;
      if LOW_FRAMES <= f {
        MappedCounted(s, from, i, f);
        CountBound(s, f);
      }
      CountedMore(s, ShareEntry(s, Table(s, from), Table(s, to), i), f);
    }
  }

  lemma CountedMore(s: State, s': State, f: int)
    requires Shape(s) && Shape(s') && (LOW_FRAMES <= f < FRAMES ==> 1 <= Count(s, f) < 255)
    requires forall g :: Count(s', g) == if g == f && LOW_FRAMES <= f < FRAMES then (Count(s, f) + 1) % 256 else Count(s, g)
    ensures SameFree(s, s')
  {
    hide Count;
  }

  lemma {:induction false} ShareEntriesFree(s: State, parent: int, child: int, k: int, i: int, n: int)
    requires Copying(s, parent, child) && BothTables(s, parent, child, k) && 1 <= parent
    requires 0 <= i && n <= ENTRIES && EmptyFrom(s, TASK_DIRS * child + k, i)
    ensures SameFree(s, ShareEntries(s, Table(s, TASK_DIRS * parent + k), Table(s, TASK_DIRS * child + k), i, n))
    decreases n - i
  {
    hide *;
    var from, to := TASK_DIRS * parent + k, TASK_DIRS * child + k;
    ShareEntriesOnce(s, Table(s, from), Table(s, to), i, n);
    SameFreeSelf(s);
    if i < n {
      var next := ShareEntry(s, Table(s, from), Table(s, to), i);
      BelowLimit(i, n);
      ShareEntryFree(s, parent, child, k, i);
      ShareEntryNext(s, parent, child, k, i);
      ShareEntriesFree(next, parent, child, k, i + 1, n);
      SameFreeTrans(s, next, ShareEntries(next, Table(s, from), Table(s, to), i + 1, n));
    }
  }

  lemma BelowLimit(i: int, n: int)
    requires i < n <= ENTRIES
    ensures i < ENTRIES
  {
  }

  lemma SameFreeSelf(s: State)
    ensures SameFree(s, s)
  {
  }

  lemma SameFreeTrans(a: State, b: State, c: State)
    requires SameFree(a, b) && SameFree(b, c)
    ensures SameFree(a, c)
  {
    hide Count;
  }

  // ---------- tables ----------

  /** How many of the n directory entries from d on have tables. */
  function TablesIn(s: State, d: int, n: int): nat
    decreases n
  {
    if n <= 0 then 0 else (if HasTable(s, d) then 1 else 0) + TablesIn(s, d + 1, n - 1)
  }

  lemma {:induction false} TablesSame(s: State, s': State, d: int, n: int)
    requires forall e :: d <= e < d + n ==> HasTable(s', e) == HasTable(s, e)
    ensures TablesIn(s', d, n) == TablesIn(s, d, n)
    decreases n
  {
    hide HasTable;
    if n > 0 {
      TablesSame(s, s', d + 1, n - 1);
    }
  }

  lemma NextTableFree(s: State, parent: int, child: int, k: int, limit: int)
    requires Copying(s, parent, child) && NoTablesFrom(s, child, k) && 0 <= k < DATA_DIRS && limit <= ENTRIES && 1 <= parent
    requires HasTable(s, TASK_DIRS * parent + k) && FreeFrame(s) != 0
    ensures var next := NextCopy(s, TASK_DIRS * parent + k, TASK_DIRS * child + k, limit);
      FreeFrames(next) == FreeFrames(s) - 1 && Outside(s, next, child)
  {
    hide *;
    var from, to := TASK_DIRS * parent + k, TASK_DIRS * child + k;
    var added := AddTable(s, to, FreeFrame(s));
    AddedTakesOne(s, parent, child, k);
    AddTableContinues(s, parent, child, k);
    TableAdded(s, parent, child, k);
    ShareEntriesKeeps(added, parent, child, k, 0, limit);
    ShareEntriesFree(added, parent, child, k, 0, limit);
    NextCopyIs(s, from, to, limit);
    SameFreeFrames(added, NextCopy(s, from, to, limit));
    OutsideTrans(s, added, NextCopy(s, from, to, limit), child);
  }

  lemma AddedTakesOne(s: State, parent: int, child: int, k: int)
    requires Copying(s, parent, child) && NoTablesFrom(s, child, k) && 0 <= k < DATA_DIRS && FreeFrame(s) != 0
    ensures FreeFrames(AddTable(s, TASK_DIRS * child + k, FreeFrame(s))) == FreeFrames(s) - 1
  {
    AddTableReady(s, parent, child, k);
    FreeFrameUnused(s);
    AddTableEffect(s, TASK_DIRS * child + k);
    hide AddTable, FreeFrame, Inv, FreeFrames, Count;
    TakesOne(s, AddTable(s, TASK_DIRS * child + k, FreeFrame(s)), FreeFrame(s));
  }

  lemma RestOfParent(s: State, s': State, parent: int, child: int, k: int, n: int)
    requires Outside(s, s', child) && parent != child && 0 <= k && k + n <= DATA_DIRS
    ensures TablesIn(s', TASK_DIRS * parent + k, n) == TablesIn(s, TASK_DIRS * parent + k, n)
  {
    hide HasTable, Table, Maps, CanWrite;
    TablesSame(s, s', TASK_DIRS * parent + k, n);
  }

  lemma TablesOnce(s: State, d: int, n: int)
    ensures TablesIn(s, d, n) == if n <= 0 then 0 else (if HasTable(s, d) then 1 else 0) + TablesIn(s, d + 1, n - 1)
  {
  }

  /** What an operation that needs so many frames comes to. */
  ghost predicate Takes(s: State, r: (State, bool), needed: nat) {
    r.1 == (FreeFrames(s) >= needed) && (r.1 ==> FreeFrames(r.0) == FreeFrames(s) - needed)
  }

  lemma CopyEnds(s: State, from: int, to: int, n: int, limit: int)
    requires n <= 0
    ensures Takes(s, CopyTables(s, from, to, n, limit), 0)
  {
  }

  lemma TakesNothing(s: State, needed: nat)
    requires FreeFrame(s) == 0 && needed > 0
    ensures Takes(s, (s, false), needed)
  {
    FreeFrameIff(s);
  }

  lemma TakesMore(s: State, next: State, r: (State, bool), first: nat, needed: nat)
    requires FreeFrames(s) >= first && FreeFrames(next) == FreeFrames(s) - first && Takes(next, r, needed)
    ensures Takes(s, r, first + needed)
  {
  }

  lemma NextTakes(s: State, parent: int, child: int, k: int, n: int, limit: int)
    requires Copying(s, parent, child) && NoTablesFrom(s, child, k) && 0 <= k < DATA_DIRS && limit <= ENTRIES && 1 <= parent
    requires 0 < n && k + n <= DATA_DIRS && (HasTable(s, TASK_DIRS * parent + k) ==> FreeFrame(s) != 0)
    ensures var next := NextCopy(s, TASK_DIRS * parent + k, TASK_DIRS * child + k, limit);
      var first := if HasTable(s, TASK_DIRS * parent + k) then 1 else 0;
      && FreeFrames(s) >= first && FreeFrames(next) == FreeFrames(s) - first
      && TablesIn(next, TASK_DIRS * parent + k + 1, n - 1) == TablesIn(s, TASK_DIRS * parent + k + 1, n - 1)
  {
    var from, to := TASK_DIRS * parent + k, TASK_DIRS * child + k;
    Different(s, parent, child, k, n);
    hide Copying, NoTablesFrom, HasTable, FreeFrame, FreeFrames, NextCopy, TablesIn, Outside;
    FreeFrameIff(s);
    if HasTable(s, from) {
      NextTableFree(s, parent, child, k, limit);
      RestOfParent(s, NextCopy(s, from, to, limit), parent, child, k + 1, n - 1);
    } else {
      NoNextCopy(s, from, to, limit);
    }
  }

  /** Copying n tables' entries succeeds exactly if there is a frame for every table. */
  lemma {:induction false} CopyTablesIff(s: State, parent: int, child: int, k: int, n: int, limit: int)
    requires Copying(s, parent, child) && NoTablesFrom(s, child, k) && 1 <= parent
    requires 0 <= k && 0 <= n && k + n <= DATA_DIRS && limit <= ENTRIES
    ensures Takes(s, CopyTables(s, TASK_DIRS * parent + k, TASK_DIRS * child + k, n, limit), TablesIn(s, TASK_DIRS * parent + k, n))
    decreases n
  {
    hide *;
    var from, to := TASK_DIRS * parent + k, TASK_DIRS * child + k;
    TablesOnce(s, from, n);
    if n == 0 {
      CopyEnds(s, from, to, n, limit);
    } else {
      Different(s, parent, child, k, n);
      CopyTablesOnce(s, from, to, n, limit);
      if HasTable(s, from) && FreeFrame(s) == 0 {
        TakesNothing(s, TablesIn(s, from, n));
      } else {
        var next := NextCopy(s, from, to, limit);
        NextTableKeeps(s, parent, child, k, limit);
        NextTakes(s, parent, child, k, n, limit);
        CopyTablesIff(next, parent, child, k + 1, n - 1, limit);
        TakesMore(s, next, CopyTables(next, from + 1, to + 1, n - 1, limit), if HasTable(s, from) then 1 else 0, TablesIn(next, from + 1, n - 1));
      }
    }
  }

  lemma Different(s: State, parent: int, child: int, k: int, n: int)
    requires Copying(s, parent, child) && k + n <= DATA_DIRS
    ensures parent != child && (0 < n ==> k < DATA_DIRS)
  {
  }

  lemma NoNextCopy(s: State, from: int, to: int, limit: int)
    requires !HasTable(s, from)
    ensures NextCopy(s, from, to, limit) == s
  {
  }

  // ---------- the whole fork ----------

  lemma AddTaskTakesOne(s: State, nr: int, pcb: seq<int>)
    requires Inv(s) && FreeFrame(s) != 0 && 1 <= nr < NR_TASKS && |pcb| == ENTRIES
    ensures FreeFrames(AddTask(s, nr, FreeFrame(s), pcb)) == FreeFrames(s) - 1
  {
    FreeFrameUnused(s);
    AddTaskEffect(s, nr, pcb);
    hide AddTask, FreeFrame, Inv, FreeFrames, Count;
    TakesOne(s, AddTask(s, nr, FreeFrame(s), pcb), FreeFrame(s));
  }

  lemma ForkByParts(s: State, parent: int, nr: int, pcb: seq<int>, dirs: int)
    requires 1 <= parent
    ensures FreeFrame(s) == 0 ==> Fork(s, parent, nr, pcb, dirs) == (s, false)
    ensures FreeFrame(s) != 0 ==>
      var r := CopyTables(AddTask(s, nr, FreeFrame(s), pcb), TASK_DIRS * parent, TASK_DIRS * nr, dirs, ENTRIES);
      Fork(s, parent, nr, pcb, dirs).1 == r.1 && (r.1 ==> Fork(s, parent, nr, pcb, dirs) == r)
  {
    hide CopyTables, AddTask, FreeFrame, DropTables, DropTask;
  }

  lemma CopyAllIff(s: State, parent: int, child: int, dirs: int)
    requires Copying(s, parent, child) && NoTablesFrom(s, child, 0) && 1 <= parent && 0 <= dirs <= DATA_DIRS
    ensures Takes(s, CopyTables(s, TASK_DIRS * parent, TASK_DIRS * child, dirs, ENTRIES), TablesIn(s, TASK_DIRS * parent, dirs))
  {
    hide Copying, NoTablesFrom, CopyTables, TablesIn, Takes;
    CopyTablesIff(s, parent, child, 0, dirs, ENTRIES);
    assert TASK_DIRS * parent + 0 == TASK_DIRS * parent && TASK_DIRS * child + 0 == TASK_DIRS * child;
  }

  lemma StartedTables(s: State, started: State, parent: int, nr: int, dirs: int)
    requires Outside(s, started, nr) && parent != nr && dirs <= DATA_DIRS
    ensures TablesIn(started, TASK_DIRS * parent, dirs) == TablesIn(s, TASK_DIRS * parent, dirs)
  {
    hide Outside, TablesIn;
    RestOfParent(s, started, parent, nr, 0, dirs);
    assert TASK_DIRS * parent + 0 == TASK_DIRS * parent;
  }

  lemma StartTakesOne(s: State, parent: int, nr: int, pcb: seq<int>, dirs: int)
    requires Inv(s) && CanFork(s, parent, nr, pcb, dirs) && 1 <= parent && FreeFrame(s) != 0
    ensures var started := AddTask(s, nr, FreeFrame(s), pcb);
      && FreeFrames(started) == FreeFrames(s) - 1
      && Takes(started, CopyTables(started, TASK_DIRS * parent, TASK_DIRS * nr, dirs, ENTRIES), TablesIn(s, TASK_DIRS * parent, dirs))
  {
    var started := AddTask(s, nr, FreeFrame(s), pcb);
    CanForkGives(nr, parent, pcb, dirs, s);
    hide Inv, CanFork, CopyTables, AddTask, FreeFrame, TablesIn, Takes, Copying, NoTablesFrom, Outside, NewTask, SameMappings, FreeFrames;
    AddTaskStarts(s, parent, nr, pcb, dirs);
    AddTaskTakesOne(s, nr, pcb);
    CopyAllIff(started, parent, nr, dirs);
    StartedTables(s, started, parent, nr, dirs);
  }

  lemma ForkTakes(s: State, parent: int, nr: int, pcb: seq<int>, dirs: int)
    requires Inv(s) && CanFork(s, parent, nr, pcb, dirs) && 1 <= parent
    ensures Takes(s, Fork(s, parent, nr, pcb, dirs), 1 + TablesIn(s, TASK_DIRS * parent, dirs))
  {
    hide Inv, CanFork, Fork, CopyTables, AddTask, FreeFrame, TablesIn, Takes, FreeFrames;
    var tables := TablesIn(s, TASK_DIRS * parent, dirs);
    ForkByParts(s, parent, nr, pcb, dirs);
    if FreeFrame(s) == 0 {
      TakesNothing(s, 1 + tables);
    } else {
      var started := AddTask(s, nr, FreeFrame(s), pcb);
      var r := CopyTables(started, TASK_DIRS * parent, TASK_DIRS * nr, dirs, ENTRIES);
      StartTakesOne(s, parent, nr, pcb, dirs);
      TakesMore(s, started, r, 1, tables);
      SameOutcome(s, r, Fork(s, parent, nr, pcb, dirs), 1 + tables);
    }
  }

  lemma SameOutcome(s: State, r: (State, bool), q: (State, bool), needed: nat)
    requires Takes(s, r, needed) && q.1 == r.1 && (r.1 ==> q == r)
    ensures Takes(s, q, needed)
  {
  }

  /** A fork by a task other than 0 succeeds exactly if there are frames for its structure and for each
      of its parent's tables, and these are the frames it takes. */
  lemma ForkSucceedsIff(s: State, parent: int, nr: int, pcb: seq<int>, dirs: int)
    requires Inv(s) && CanFork(s, parent, nr, pcb, dirs) && 1 <= parent
    ensures var (s', ok) := Fork(s, parent, nr, pcb, dirs);
      var needed := 1 + TablesIn(s, TASK_DIRS * parent, dirs);
      && ok == (FreeFrames(s) >= needed)
      && FreeFrames(s') == if ok then FreeFrames(s) - needed else FreeFrames(s)
  {
    hide Fork, Inv, CanFork, FreeFrames, TablesIn;
    ForkTakes(s, parent, nr, pcb, dirs);
    if !Fork(s, parent, nr, pcb, dirs).1 {
      FailedKeepsFree(s, parent, nr, pcb, dirs);
    }
  }

  lemma CanForkGives(nr: int, parent: int, pcb: seq<int>, dirs: int, s: State)
    requires CanFork(s, parent, nr, pcb, dirs)
    ensures 1 <= nr < NR_TASKS && |pcb| == ENTRIES && parent != nr && 0 <= dirs <= DATA_DIRS
  {
  }

  lemma FailedKeepsFree(s: State, parent: int, nr: int, pcb: seq<int>, dirs: int)
    requires Inv(s) && CanFork(s, parent, nr, pcb, dirs) && !Fork(s, parent, nr, pcb, dirs).1
    ensures FreeFrames(Fork(s, parent, nr, pcb, dirs).0) == FreeFrames(s)
  {
    hide Fork, Inv;
    ForkRollback(s, parent, nr, pcb, dirs);
  }
}
