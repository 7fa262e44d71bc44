/** `copy_page_tables` keeps the invariant at every entry it copies. */
module Sharing {
  import opened Kernel
  import opened PageTables
  import opened Conservation
  import opened Allocation

  /** Directory entries with tables of their own. */
  ghost predicate TwoTables(s: State, from: int, to: int) {
    && 0 <= from < ENTRIES && TASK_DIRS <= to < ENTRIES
    && HasTable(s, from) && HasTable(s, to) && Table(s, from) != Table(s, to)
  }

  /** What sharing a present entry does, word by word. */
  lemma ShareEntryEffect(s: State, from: int, to: int, i: int)
    requires Shape(s) && TablesApart(s) && TwoTables(s, from, to)
    requires Mapped(s, from, i) && IsSlot(to, i)
    ensures var s' := ShareEntry(s, Table(s, from), Table(s, to), i);
      var e := Entry(s, from, i);
      && Shape(s') && SameDirectory(s, s')
      && (forall f :: f != Table(s, from) && f != Table(s, to) ==> Page(s', f) == Page(s, f))
      && (forall f :: Count(s', f) == if f == FrameOf(e) && LOW_FRAMES <= f < FRAMES then (Count(s, f) + 1) % 256 else Count(s, f))
      && (forall d, j :: IsSlot(d, j) && HasTable(s, d) ==>
            Entry(s', d, j) ==
            if (d == to && j == i) || (d == from && j == i && FrameOf(e) >= LOW_FRAMES) then WriteProtect(e) else Entry(s, d, j))
  {
    hide Present, Writable, FrameOf;
    var e := Entry(s, from, i);
    PokeEntry(s, to, i, WriteProtect(e));
    var shared := Poke(s, Table(s, to), i, WriteProtect(e));
    if FrameOf(e) >= LOW_FRAMES {
      SameDirectoryKeeps(s, shared);
      PokeEntry(shared, from, i, WriteProtect(e));
    }
  }

  lemma ShareEntryGains(s: State, from: int, to: int, i: int)
    requires Shape(s) && TablesApart(s) && TwoTables(s, from, to)
    requires Mapped(s, from, i) && IsSlot(to, i) && !Mapped(s, to, i)
    ensures var s' := ShareEntry(s, Table(s, from), Table(s, to), i);
      var f := FrameOf(Entry(s, from, i));
      && Gains(s, s', to, i, f) && NoNewWrites(s, s') && !CanWrite(s', to, i)
      && (f >= LOW_FRAMES ==> !CanWrite(s', from, i))
  {
    ShareEntryEffect(s, from, to, i);
    var s' := ShareEntry(s, Table(s, from), Table(s, to), i);
    forall d, j, g
      ensures Maps(s', d, j, g) <==> Maps(s, d, j, g) || (d == to && j == i && g == FrameOf(Entry(s, from, i)))
    {
      assert IsSlot(d, j) ==> HasTable(s', d) == HasTable(s, d);
    }
    forall d, j | CanWrite(s', d, j) ensures CanWrite(s, d, j) {
      assert HasTable(s', d) == HasTable(s, d);
    }
  }

  // ---------- a copy in progress ----------

  /** Whatever the child maps, the parent maps at the same place. */
  ghost predicate Mirror(s: State, parent: int, child: int) {
    forall d, i, f {:trigger Maps(s, d, i, f)} :: d / TASK_DIRS == child && Maps(s, d, i, f) ==> Maps(s, d + TASK_DIRS * (parent - child), i, f)
  }

  ghost predicate Copying(s: State, parent: int, child: int) {
    && Inv(s)
    && 0 <= parent < NR_TASKS && 1 <= child < NR_TASKS && parent != child
    && TaskFrame(s, child) != 0
    && Mirror(s, parent, child)
  }

  /** Outside the child's window no table and no mapping changes; write bits may be cleared. */
  ghost predicate Outside(s: State, s': State, child: int) {
    && s'.start == s.start && s'.high == s.high
    && (forall d :: d / TASK_DIRS != child ==> HasTable(s', d) == HasTable(s, d) && Table(s', d) == Table(s, d))
    && (forall d, i, f :: d / TASK_DIRS != child ==> (Maps(s', d, i, f) <==> Maps(s, d, i, f)))
    && (forall d, i :: d / TASK_DIRS != child && CanWrite(s', d, i) ==> CanWrite(s, d, i))
  }

  lemma OutsideTrans(a: State, b: State, c: State, child: int)
    requires Outside(a, b, child) && Outside(b, c, child)
    ensures Outside(a, c, child)
  {
    hide Maps, CanWrite, HasTable, Table;
  }

  /** Entry k of the tasks' windows, with tables on both sides. */
  ghost predicate BothTables(s: State, parent: int, child: int, k: int) {
    0 <= k < TASK_DIRS && HasTable(s, TASK_DIRS * parent + k) && HasTable(s, TASK_DIRS * child + k)
  }

  /** The child can map the frame of a parent's entry only at the same place. */
  lemma MirrorOnly(s: State, parent: int, child: int, k: int, i: int, f: int)
    requires MapsOnce(s) && Mirror(s, parent, child) && 0 <= k < TASK_DIRS
    requires Maps(s, TASK_DIRS * parent + k, i, f)
    ensures forall d, j :: d / TASK_DIRS == child && Maps(s, d, j, f) ==> d == TASK_DIRS * child + k && j == i
  {
    hide Maps;
    forall d, j | d / TASK_DIRS == child && Maps(s, d, j, f) ensures d == TASK_DIRS * child + k && j == i {
      assert Maps(s, d + TASK_DIRS * (parent - child), j, f);
    }
  }

  lemma MirrorGrows(s: State, s': State, parent: int, child: int, k: int, i: int, f: int)
    requires Mirror(s, parent, child) && 0 <= k < TASK_DIRS && parent != child
    requires Maps(s, TASK_DIRS * parent + k, i, f) && Gains(s, s', TASK_DIRS * child + k, i, f)
    ensures Mirror(s', parent, child)
  {
    hide Maps;
    forall d, j, g | d / TASK_DIRS == child && Maps(s', d, j, g)
      ensures Maps(s', d + TASK_DIRS * (parent - child), j, g)
    {
      if d == TASK_DIRS * child + k && j == i && g == f {
        assert Maps(s', TASK_DIRS * parent + k, i, f);
      } else {
        assert Maps(s, d, j, g);
      }
    }
  }

  lemma SharePresentKeeps(s: State, parent: int, child: int, k: int, i: int)
    requires Copying(s, parent, child) && BothTables(s, parent, child, k)
    requires Mapped(s, TASK_DIRS * parent + k, i) && !Mapped(s, TASK_DIRS * child + k, i)
    ensures var s' := ShareEntry(s, Table(s, TASK_DIRS * parent + k), Table(s, TASK_DIRS * child + k), i);
      Copying(s', parent, child) && SameDirectory(s, s') && Outside(s, s', child)
  {
    hide *;
    var from, to := TASK_DIRS * parent + k, TASK_DIRS * child + k;
    var f := FrameOf(Entry(s, from, i));
    var s' := ShareEntry(s, Table(s, from), Table(s, to), i);
    ShareReady(s, parent, child, k, i);
    ShareEntryCounts(s, from, to, i);
    ShareEntryGains(s, from, to, i);
    MirrorOnly(s, parent, child, k, i, f);
    SharedKeepsInv(s, s', to, i, f);
    MirrorGrows(s, s', parent, child, k, i, f);
    CopyingGoesOn(s, s', parent, child);
    GainOutside(s, s', parent, child, k, i, f);
  }

  /** A read-only entry for a frame the task does not map elsewhere. */
  lemma SharedKeepsInv(s: State, s': State, to: int, i: int, f: int)
    requires Inv(s) && Shape(s') && SameDirectory(s, s') && Gains(s, s', to, i, f) && Counts(s, s', f, 1) && NoNewWrites(s, s')
    requires TASK_DIRS <= to && IsSlot(to, i) && 0 <= f < FRAMES && !Mapped(s, to, i)
    requires forall d, j :: d / TASK_DIRS == to / TASK_DIRS && Maps(s, d, j, f) ==> d == to && j == i
    ensures Inv(s')
  {
    assert forall g :: !Maps(s, to, i, g);
    hide Inv, Maps, Mapped;
    GainKeepsInv(s, s', to, i, f);
  }

  lemma ShareReady(s: State, parent: int, child: int, k: int, i: int)
    requires Copying(s, parent, child) && BothTables(s, parent, child, k)
    requires Mapped(s, TASK_DIRS * parent + k, i)
    ensures var from, to := TASK_DIRS * parent + k, TASK_DIRS * child + k;
      var f := FrameOf(Entry(s, from, i));
      && Inv(s) && Mirror(s, parent, child) && Shape(s) && TablesApart(s) && MapsOnce(s)
      && TwoTables(s, from, to) && IsSlot(to, i) && Maps(s, from, i, f) && 0 <= f < FRAMES
      && TASK_DIRS <= to && 0 <= k < TASK_DIRS && parent != child && to / TASK_DIRS == child
  {
    assert Maps(s, TASK_DIRS * parent + k, i, FrameOf(Entry(s, TASK_DIRS * parent + k, i)));
  }

  lemma ShareEntryCounts(s: State, from: int, to: int, i: int)
    requires Inv(s) && TwoTables(s, from, to)
    requires Mapped(s, from, i) && IsSlot(to, i)
    ensures var s' := ShareEntry(s, Table(s, from), Table(s, to), i);
      && Shape(s') && SameDirectory(s, s') && s'.task == s.task
      && Counts(s, s', FrameOf(Entry(s, from, i)), 1)
  {
    ShareEntryEffect(s, from, to, i);
    var f := FrameOf(Entry(s, from, i));
    if LOW_FRAMES <= f < FRAMES {
      CountBound(s, f);
    }
    hide ShareEntry, Peek, Entry, FrameOf;
  }

  lemma GainOutside(s: State, s': State, parent: int, child: int, k: int, i: int, f: int)
    requires SameDirectory(s, s') && Gains(s, s', TASK_DIRS * child + k, i, f) && NoNewWrites(s, s') && 0 <= k < TASK_DIRS
    ensures Outside(s, s', child)
  {
    hide Maps, CanWrite, HasTable, Table;
  }

  lemma ShareEntryKeeps(s: State, parent: int, child: int, k: int, i: int)
    requires Copying(s, parent, child) && BothTables(s, parent, child, k)
    requires 0 <= i < ENTRIES && !Mapped(s, TASK_DIRS * child + k, i)
    ensures var s' := ShareEntry(s, Table(s, TASK_DIRS * parent + k), Table(s, TASK_DIRS * child + k), i);
      Copying(s', parent, child) && SameDirectory(s, s') && Outside(s, s', child)
  {
    if Mapped(s, TASK_DIRS * parent + k, i) {
      SharePresentKeeps(s, parent, child, k, i);
    }
  }

  /** From entry i on, nothing is mapped below directory entry d. */
  ghost predicate EmptyFrom(s: State, d: int, i: int) {
    forall j :: i <= j < ENTRIES ==> !Mapped(s, d, j)
  }

  lemma ShareEntryAdvances(s: State, parent: int, child: int, k: int, i: int)
    requires Copying(s, parent, child) && BothTables(s, parent, child, k)
    requires 0 <= i < ENTRIES && EmptyFrom(s, TASK_DIRS * child + k, i)
    ensures var s' := ShareEntry(s, Table(s, TASK_DIRS * parent + k), Table(s, TASK_DIRS * child + k), i);
      EmptyFrom(s', TASK_DIRS * child + k, i + 1)
  {
    var from, to := TASK_DIRS * parent + k, TASK_DIRS * child + k;
    if Mapped(s, from, i) {
      ShareReady(s, parent, child, k, i);
      var s' := ShareEntry(s, Table(s, from), Table(s, to), i);
      hide ShareEntry, Peek, Inv, Copying;
      ShareEntryGains(s, from, to, i);
      forall j | i + 1 <= j < ENTRIES ensures !Mapped(s', to, j) {
        assert !Maps(s', to, j, FrameOf(Entry(s', to, j)));
      }
    }
  }

  /** The loop can go on after one entry. */
  lemma ShareEntryNext(s: State, parent: int, child: int, k: int, i: int)
    requires Copying(s, parent, child) && BothTables(s, parent, child, k)
    requires 0 <= i < ENTRIES && EmptyFrom(s, TASK_DIRS * child + k, i)
    ensures var from, to := TASK_DIRS * parent + k, TASK_DIRS * child + k;
      var s' := ShareEntry(s, Table(s, from), Table(s, to), i);
      && Copying(s', parent, child) && BothTables(s', parent, child, k) && EmptyFrom(s', to, i + 1)
      && SameDirectory(s, s') && Table(s', from) == Table(s, from) && Table(s', to) == Table(s, to)
  {
    assert !Mapped(s, TASK_DIRS * child + k, i);
    hide Inv, Mirror, Peek, ShareEntry, Outside, EmptyFrom, Copying;
    ShareEntryKeeps(s, parent, child, k, i);
    ShareEntryAdvances(s, parent, child, k, i);
  }

  lemma ShareEntriesOnce(s: State, from: int, to: int, i: int, n: int)
    ensures ShareEntries(s, from, to, i, n) ==
      if i >= n then s else ShareEntries(ShareEntry(s, from, to, i), from, to, i + 1, n)
  {
    hide ShareEntry;
  }

  lemma FirstEmpty(s: State, d: int, i: int)
    requires EmptyFrom(s, d, i) && 0 <= i < ENTRIES
    ensures !Mapped(s, d, i)
  {
  }

  lemma {:induction false} ShareEntriesKeeps(s: State, parent: int, child: int, k: int, i: int, n: int)
    requires Copying(s, parent, child) && BothTables(s, parent, child, k)
    requires 0 <= i && n <= ENTRIES && EmptyFrom(s, TASK_DIRS * child + k, i)
    ensures var s' := ShareEntries(s, Table(s, TASK_DIRS * parent + k), Table(s, TASK_DIRS * child + k), i, n);
      Copying(s', parent, child) && SameDirectory(s, s') && Outside(s, s', child)
    decreases n - i
  {
    hide Maps, CanWrite, HasTable, Table, Inv, Mirror, Present, FrameOf, Peek, ShareEntry;
    if i < n {
      ShareEntryKeeps(s, parent, child, k, i);
      ShareEntryAdvances(s, parent, child, k, i);
      var s' := ShareEntry(s, Table(s, TASK_DIRS * parent + k), Table(s, TASK_DIRS * child + k), i);
      ShareEntriesKeeps(s', parent, child, k, i + 1, n);
    }
  }

  // ---------- whole tables ----------

  /** The child has no tables yet from entry k of its window on. */
  ghost predicate NoTablesFrom(s: State, child: int, k: int) {
    forall d :: TASK_DIRS * child + k <= d < TASK_DIRS * (child + 1) ==> !HasTable(s, d)
  }

  lemma AddTableEmpty(s: State, d: int)
    requires Inv(s) && FreeFrame(s) != 0 && TASK_DIRS <= d < ENTRIES && !HasTable(s, d)
    ensures EmptyFrom(AddTable(s, d, FreeFrame(s)), d, 0)
  {
    AddTableMappings(s, d);
    var s' := AddTable(s, d, FreeFrame(s));
    hide AddTable, FreeFrame, Inv, Peek;
    forall j | 0 <= j < ENTRIES ensures !Mapped(s', d, j) {
      assert !Maps(s, d, j, FrameOf(Entry(s', d, j)));
    }
  }

  lemma SameMappingsMirror(s: State, s': State, parent: int, child: int)
    requires Mirror(s, parent, child) && SameMappings(s, s')
    ensures Mirror(s', parent, child)
  {
    hide Maps;
    forall d, i, f | d / TASK_DIRS == child && Maps(s', d, i, f) ensures Maps(s', d + TASK_DIRS * (parent - child), i, f) {
      assert Maps(s, d, i, f);
    }
  }

  lemma NewTableInWindow(s: State, s': State, parent: int, child: int, k: int, f: int)
    requires NewTable(s, s', TASK_DIRS * child + k, f) && SameMappings(s, s') && 0 <= k < TASK_DIRS
    requires NoTablesFrom(s, child, k) && HasTable(s, TASK_DIRS * parent + k)
    ensures Outside(s, s', child) && NoTablesFrom(s', child, k + 1) && BothTables(s', parent, child, k)
  {
    hide Maps, HasTable, Table;
  }

  lemma AddTableContinues(s: State, parent: int, child: int, k: int)
    requires Copying(s, parent, child) && 0 <= k < DATA_DIRS && FreeFrame(s) != 0
    requires NoTablesFrom(s, child, k) && HasTable(s, TASK_DIRS * parent + k)
    ensures var to := TASK_DIRS * child + k;
      var s' := AddTable(s, to, FreeFrame(s));
      && Copying(s', parent, child) && BothTables(s', parent, child, k) && s'.task == s.task
      && NewTable(s, s', to, FreeFrame(s)) && SameMappings(s, s')
      && EmptyFrom(s', to, 0) && NoTablesFrom(s', child, k + 1) && Outside(s, s', child)
  {
    var to := TASK_DIRS * child + k;
    var s' := AddTable(s, to, FreeFrame(s));
    AddTableReady(s, parent, child, k);
    hide *;
    AddTableEffect(s, to);
    AddTableMappings(s, to);
    AddTableEmpty(s, to);
    AddTableKeeps(s, to);
    SameMappingsMirror(s, s', parent, child);
    NewTableInWindow(s, s', parent, child, k, FreeFrame(s));
    CopyingGoesOn(s, s', parent, child);
  }

  lemma AddTableReady(s: State, parent: int, child: int, k: int)
    requires Copying(s, parent, child) && 0 <= k < DATA_DIRS && NoTablesFrom(s, child, k)
    ensures Inv(s) && Mirror(s, parent, child) && parent != child && 1 <= child
    ensures CanAddTable(s, TASK_DIRS * child + k)
    ensures TASK_DIRS <= TASK_DIRS * child + k < ENTRIES && !HasTable(s, TASK_DIRS * child + k) && k < TASK_DIRS
  {
  }

  lemma CopyingGoesOn(s: State, s': State, parent: int, child: int)
    requires Copying(s, parent, child) && Inv(s') && Mirror(s', parent, child) && s'.task == s.task
    ensures Copying(s', parent, child)
  {
    hide Inv, Mirror;
  }

  lemma {:induction false} CopyTablesKeeps(s: State, parent: int, child: int, k: int, n: int, limit: int)
    requires Copying(s, parent, child) && NoTablesFrom(s, child, k)
    requires 0 <= k && k + n <= DATA_DIRS && limit <= ENTRIES
    ensures var (s', _) := CopyTables(s, TASK_DIRS * parent + k, TASK_DIRS * child + k, n, limit);
      Copying(s', parent, child) && s'.task == s.task && Outside(s, s', child)
    decreases n
  {
    hide Copying, ShareEntries, AddTable, FreeFrame, HasTable, Table, Maps, CanWrite;
    var from, to := TASK_DIRS * parent + k, TASK_DIRS * child + k;
    if n > 0 {
      if !HasTable(s, from) {
        CopyTablesKeeps(s, parent, child, k + 1, n - 1, limit);
      } else if FreeFrame(s) != 0 {
        AddTableContinues(s, parent, child, k);
        var added := AddTable(s, to, FreeFrame(s));
        ShareEntriesKeeps(added, parent, child, k, 0, limit);
        var shared := ShareEntries(added, Table(added, from), Table(added, to), 0, limit);
        assert Table(added, from) == Table(s, from) && Table(added, to) == FreeFrame(s);
        CopyTablesKeeps(shared, parent, child, k + 1, n - 1, limit);
      }
    }
  }

  /** The state after one table has been copied. */
  function NextCopy(s: State, from: int, to: int, limit: int): State {
    if !HasTable(s, from) then s
    else ShareEntries(AddTable(s, to, FreeFrame(s)), Table(s, from), FreeFrame(s), 0, limit)
  }

  lemma CopyTablesOnce(s: State, from: int, to: int, n: int, limit: int)
    requires n > 0
    ensures CopyTables(s, from, to, n, limit) ==
      if !HasTable(s, from) || FreeFrame(s) != 0 then CopyTables(NextCopy(s, from, to, limit), from + 1, to + 1, n - 1, limit)
      else (s, false)
  {
    hide HasTable, FreeFrame, ShareEntries, AddTable, Table;
  }

  lemma NewTableNames(s: State, s': State, from: int, to: int, f: int)
    requires NewTable(s, s', to, f) && from != to
    ensures Table(s', from) == Table(s, from) && Table(s', to) == f
  {
  }

  lemma NoTablesStays(s: State, s': State, child: int, k: int)
    requires NoTablesFrom(s, child, k) && SameDirectory(s, s')
    ensures NoTablesFrom(s', child, k)
  {
    hide HasTable;
  }

  /** The new table is in place and nothing is in it. */
  lemma TableAdded(s: State, parent: int, child: int, k: int)
    requires Copying(s, parent, child) && 0 <= k < DATA_DIRS && FreeFrame(s) != 0
    requires NoTablesFrom(s, child, k) && HasTable(s, TASK_DIRS * parent + k)
    ensures var from, to := TASK_DIRS * parent + k, TASK_DIRS * child + k;
      var added := AddTable(s, to, FreeFrame(s));
      && Copying(added, parent, child) && BothTables(added, parent, child, k)
      && EmptyFrom(added, to, 0) && NoTablesFrom(added, child, k + 1)
      && Table(added, from) == Table(s, from) && Table(added, to) == FreeFrame(s) && added.high == s.high
  {
    AddTableContinues(s, parent, child, k);
    AddTableReady(s, parent, child, k);
    hide AddTable, FreeFrame, Copying, EmptyFrom, NoTablesFrom, BothTables, Table, HasTable, SameMappings, Outside;
    NewTableNames(s, AddTable(s, TASK_DIRS * child + k, FreeFrame(s)), TASK_DIRS * parent + k, TASK_DIRS * child + k, FreeFrame(s));
  }

  lemma NextSharedKeeps(s: State, parent: int, child: int, k: int, limit: int)
    requires Copying(s, parent, child) && NoTablesFrom(s, child, k) && 0 <= k < DATA_DIRS && limit <= ENTRIES
    requires HasTable(s, TASK_DIRS * parent + k) && FreeFrame(s) != 0
    ensures var next := NextCopy(s, TASK_DIRS * parent + k, TASK_DIRS * child + k, limit);
      Copying(next, parent, child) && NoTablesFrom(next, child, k + 1)
  {
    hide *;
    var from, to := TASK_DIRS * parent + k, TASK_DIRS * child + k;
    var added := AddTable(s, to, FreeFrame(s));
    TableAdded(s, parent, child, k);
    ShareEntriesKeeps(added, parent, child, k, 0, limit);
    NextCopyIs(s, from, to, limit);
    NoTablesStays(added, NextCopy(s, from, to, limit), child, k + 1);
  }

  lemma NextTableKeeps(s: State, parent: int, child: int, k: int, limit: int)
    requires Copying(s, parent, child) && NoTablesFrom(s, child, k) && 0 <= k < DATA_DIRS && limit <= ENTRIES
    requires HasTable(s, TASK_DIRS * parent + k) ==> FreeFrame(s) != 0
    ensures var next := NextCopy(s, TASK_DIRS * parent + k, TASK_DIRS * child + k, limit);
      Copying(next, parent, child) && NoTablesFrom(next, child, k + 1)
  {
    if HasTable(s, TASK_DIRS * parent + k) {
      NextSharedKeeps(s, parent, child, k, limit);
    }
  }

  lemma NextCopyIs(s: State, from: int, to: int, limit: int)
    requires HasTable(s, from)
    ensures NextCopy(s, from, to, limit) == ShareEntries(AddTable(s, to, FreeFrame(s)), Table(s, from), FreeFrame(s), 0, limit)
  {
    hide ShareEntries, AddTable, FreeFrame;
  }
}
