/** Every task other than task 0 has a memory of its own. */
module Isolation {
  import opened PageTables
  import opened Conservation
  import opened Allocation
  import opened Sharing

  /** A page a task may write is mapped by no other entry of any task 1..63, and no such task maps a
      page table or a task structure. */
  ghost predicate Private(s: State) {
    && (forall d, i, e, j, f :: TASK_DIRS <= d && TASK_DIRS <= e && Maps(s, d, i, f) && Maps(s, e, j, f) && CanWrite(s, d, i) ==> d == e && i == j)
    && (forall d, i, f :: TASK_DIRS <= d && Maps(s, d, i, f) && LOW_FRAMES <= f ==> !IsTable(s, f) && !IsTask(s, f))
  }

  /** What a task sees at one of its pages: nothing, a page of the kernel image (which the kernel
      goes on writing), or 1024 words. */
  datatype PageView = Absent | Kernel(frame: int) | Own(words: seq<int>)

  function View(s: State, d: int, i: int): PageView {
    if !Mapped(s, d, i) then Absent
    else
      var f := FrameOf(Entry(s, d, i));
      if f < LOW_FRAMES then Kernel(f) else Own(Page(s, f))
  }

  lemma ViewOf(s: State, d: int, i: int, f: int)
    ensures Maps(s, d, i, f) ==> View(s, d, i) == if f < LOW_FRAMES then Kernel(f) else Own(Page(s, f))
    ensures !Mapped(s, d, i) ==> View(s, d, i) == Absent && forall g :: !Maps(s, d, i, g)
    ensures Mapped(s, d, i) ==> Maps(s, d, i, FrameOf(Entry(s, d, i)))
  {
  }

  /** Entry (d, i) maps in s' what entry (e, j) maps in s, and the page is the same in both. */
  lemma SameView(s: State, s': State, d: int, i: int, e: int, j: int)
    requires forall f :: Maps(s', d, i, f) <==> Maps(s, e, j, f)
    requires forall f :: Maps(s, e, j, f) && f >= LOW_FRAMES ==> Page(s', f) == Page(s, f)
    ensures View(s', d, i) == View(s, e, j)
  {
    var f := FrameOf(Entry(s, e, j));
    ViewOf(s, e, j, f);
    ViewOf(s', d, i, f);
    var g := FrameOf(Entry(s', d, i));
    ViewOf(s', d, i, g);
    hide View, Maps, Mapped, Page;
  }

  // ---------- fork ----------

  lemma ShareView(s: State, parent: int, child: int, k: int, i: int)
    requires Copying(s, parent, child) && Private(s) && 1 <= parent && BothTables(s, parent, child, k)
    requires 0 <= i < ENTRIES && !Mapped(s, TASK_DIRS * child + k, i)
    ensures var from, to := TASK_DIRS * parent + k, TASK_DIRS * child + k;
      var s' := ShareEntry(s, Table(s, from), Table(s, to), i);
      && Private(s') && EntriesShared(s, s', from, to, i, i + 1)
  {
    var from, to := TASK_DIRS * parent + k, TASK_DIRS * child + k;
    if Mapped(s, from, i) {
      var f := FrameOf(Entry(s, from, i));
      ShareReady(s, parent, child, k, i);
      ShareParts(s, from, to, i);
      hide *;
      SharePresentView(s, from, to, i, f);
    } else {
      NothingMapped(s, from, to, i);
    }
  }

  lemma ShareParts(s: State, from: int, to: int, i: int)
    requires TwoTables(s, from, to)
    ensures 0 <= from < ENTRIES && to < ENTRIES
  {
  }

  lemma NothingMapped(s: State, from: int, to: int, i: int)
    requires !Mapped(s, from, i) && !Mapped(s, to, i) && HasTable(s, from) && IsSlot(from, i)
    ensures ShareEntry(s, Table(s, from), Table(s, to), i) == s
    ensures EntriesShared(s, s, from, to, i, i + 1)
  {
  }

  lemma SharePresentView(s: State, from: int, to: int, i: int, f: int)
    requires Inv(s) && Private(s) && TwoTables(s, from, to) && TASK_DIRS <= from && TASK_DIRS <= to < ENTRIES && from < ENTRIES && from != to
    requires Mapped(s, from, i) && Maps(s, from, i, f) && f == FrameOf(Entry(s, from, i)) && IsSlot(to, i) && !Mapped(s, to, i)
    requires Shape(s) && TablesApart(s)
    ensures var s' := ShareEntry(s, Table(s, from), Table(s, to), i);
      Private(s') && EntriesShared(s, s', from, to, i, i + 1)
  {
    hide Inv, Private, Maps, CanWrite, View, ShareEntry, Peek, Entry, FrameOf, Present, Writable, HasTable, Table;
    var s' := ShareEntry(s, Table(s, from), Table(s, to), i);
    ShareEntryEffect(s, from, to, i);
    ShareEntryGains(s, from, to, i);
    SharePrivate(s, s', from, to, i, f);
    forall e, j | TASK_DIRS <= e
      ensures View(s', e, j) == if e == to && j == i then View(s, from, i) else View(s, e, j)
    {
      ShareSameView(s, s', from, to, i, f, e, j);
    }
  }

  lemma SharePrivate(s: State, s': State, from: int, to: int, i: int, f: int)
    requires Inv(s) && Private(s) && SameDirectory(s, s') && TASK_DIRS <= from && TASK_DIRS <= to && to != from
    requires Maps(s, from, i, f) && Gains(s, s', to, i, f) && NoNewWrites(s, s') && !CanWrite(s', to, i)
    requires f >= LOW_FRAMES ==> !CanWrite(s', from, i)
    ensures Private(s')
  {
    forall g ensures IsTable(s', g) == IsTable(s, g) && IsTask(s', g) == IsTask(s, g) {
      SameUses(s, s', g);
    }
    assert forall d, j, g :: TASK_DIRS <= d && Maps(s, d, j, g) && CanWrite(s, d, j) ==> g >= LOW_FRAMES;
    hide Maps, CanWrite, IsTable, IsTask, Inv;
    forall d, j, e, l, g | TASK_DIRS <= d && TASK_DIRS <= e && Maps(s', d, j, g) && Maps(s', e, l, g) && CanWrite(s', d, j)
      ensures d == e && j == l
    {
      assert CanWrite(s, d, j);
      assert Maps(s, d, j, g) || (d == to && j == i && g == f);
      assert Maps(s, e, l, g) || (e == to && l == i && g == f);
    }
  }

  lemma ShareSameView(s: State, s': State, from: int, to: int, i: int, f: int, e: int, j: int)
    requires Inv(s) && Private(s) && TASK_DIRS <= from && TASK_DIRS <= to && to != from && TASK_DIRS <= e
    requires TwoTables(s, from, to) && from < ENTRIES && to < ENTRIES
    requires Maps(s, from, i, f) && Gains(s, s', to, i, f) && !Mapped(s, to, i)
    requires forall g :: g != Table(s, from) && g != Table(s, to) ==> Page(s', g) == Page(s, g)
    ensures View(s', e, j) == if e == to && j == i then View(s, from, i) else View(s, e, j)
  {
    forall d, l, g | TASK_DIRS <= d && Maps(s, d, l, g) ensures Page(s', g) == Page(s, g) {
      assert from in TableUses(s, Table(s, from)) && to in TableUses(s, Table(s, to));
    }
    assert forall g :: !Maps(s, to, i, g);
    assert forall g :: Maps(s, from, i, g) <==> g == f;
    hide View, Maps, Mapped, Page, Inv, Table;
    if e == to && j == i {
      SameView(s, s', to, i, from, i);
    } else {
      SameView(s, s', e, j, e, j);
    }
  }

  /** Entries i up to n of directory entry `to` now show what those of `from` show. */
  ghost predicate EntriesShared(s: State, s': State, from: int, to: int, i: int, n: int) {
    forall e, j {:trigger View(s', e, j)} :: TASK_DIRS <= e ==>
      View(s', e, j) == if e == to && i <= j < n then View(s, from, j) else View(s, e, j)
  }

  ghost predicate SameViews(s: State, s': State) {
    forall e, j {:trigger View(s', e, j)} :: TASK_DIRS <= e ==> View(s', e, j) == View(s, e, j)
  }

  lemma {:induction false} ShareEntriesView(s: State, parent: int, child: int, k: int, i: int, n: int)
    requires Copying(s, parent, child) && Private(s) && 1 <= parent && BothTables(s, parent, child, k)
    requires 0 <= i && n <= ENTRIES && EmptyFrom(s, TASK_DIRS * child + k, i)
    ensures var from, to := TASK_DIRS * parent + k, TASK_DIRS * child + k;
      var s' := ShareEntries(s, Table(s, from), Table(s, to), i, n);
      && Private(s') && EntriesShared(s, s', from, to, i, n)
    decreases n - i
  {
    hide Inv, Mirror, Present, FrameOf, Peek, ShareEntry, Private, View, Outside;
    var from, to := TASK_DIRS * parent + k, TASK_DIRS * child + k;
    if i < n {
      ShareEntryKeeps(s, parent, child, k, i);
      ShareEntryAdvances(s, parent, child, k, i);
      ShareView(s, parent, child, k, i);
      ShareEntriesView(ShareEntry(s, Table(s, from), Table(s, to), i), parent, child, k, i + 1, n);
    }
  }

  /** A fresh frame is filled; the mappings and every other frame above LOW_MEM stay. */
  lemma FreshSameViews(s: State, s': State, f: int)
    requires SameMappings(s, s') && Mappers(s, f) == {}
    requires forall g :: g != 0 && g != f ==> Page(s', g) == Page(s, g)
    ensures SameViews(s, s')
  {
    forall e, j | TASK_DIRS <= e ensures View(s', e, j) == View(s, e, j) {
      assert Maps(s, e, j, f) ==> (e, j) in Mappers(s, f);
      hide View, Maps, Mapped, Page, Mappers;
      SameView(s, s', e, j, e, j);
    }
  }

  lemma FreshPrivate(s: State, s': State, f: int)
    requires Private(s) && SameMappings(s, s') && Mappers(s, f) == {}
    requires forall g :: LOW_FRAMES <= g && g != f ==> (IsTable(s', g) ==> IsTable(s, g)) && (IsTask(s', g) ==> IsTask(s, g))
    ensures Private(s')
  {
    forall d, i | TASK_DIRS <= d ensures !Maps(s, d, i, f) {
      assert Maps(s, d, i, f) ==> (d, i) in Mappers(s, f);
    }
    hide Maps, CanWrite, IsTable, IsTask;
  }

  lemma AddTableView(s: State, d: int)
    requires Inv(s) && Private(s) && FreeFrame(s) != 0 && CanAddTable(s, d)
    ensures var s' := AddTable(s, d, FreeFrame(s));
      Private(s') && SameViews(s, s')
  {
    var f := FreeFrame(s);
    FreeFrameUnused(s);
    AddTableEffect(s, d);
    AddTableMappings(s, d);
    var s' := AddTable(s, d, f);
    hide AddTable, FreeFrame, View, Private, Maps, CanWrite, Page, Mappers, TableUses, TaskUses;
    FreshSameViews(s, s', f);
    forall g | g != f ensures IsTable(s', g) == IsTable(s, g) && IsTask(s', g) == IsTask(s, g) {
      NewTableUses(s, s', d, f, g);
    }
    FreshPrivate(s, s', f);
  }

  lemma AddTaskView(s: State, nr: int, pcb: seq<int>)
    requires Inv(s) && Private(s) && FreeFrame(s) != 0 && CanAddTask(s, nr) && |pcb| == ENTRIES
    ensures var s' := AddTask(s, nr, FreeFrame(s), pcb);
      Private(s') && SameViews(s, s')
  {
    var f := FreeFrame(s);
    FreeFrameUnused(s);
    AddTaskEffect(s, nr, pcb);
    var s' := AddTask(s, nr, f, pcb);
    hide AddTask, FreeFrame, View, Private, Maps, CanWrite, Page, Mappers, TableUses, TaskUses;
    FreshSameViews(s, s', f);
    forall g | g != f && g != 0 ensures IsTable(s', g) == IsTable(s, g) && IsTask(s', g) == IsTask(s, g) {
      NewTaskUses(s, s', nr, f, g);
    }
    FreshPrivate(s, s', f);
  }

  /** After copying n tables from entry k on, the child sees there what the parent sees. */
  ghost predicate ViewsCopied(s: State, s': State, parent: int, child: int, k: int, n: int) {
    forall e, j {:trigger View(s', e, j)} :: TASK_DIRS <= e ==>
      View(s', e, j) ==
      if TASK_DIRS * child + k <= e < TASK_DIRS * child + k + n then View(s, e + TASK_DIRS * (parent - child), j) else View(s, e, j)
  }

  /** The other tasks see what they saw. */
  ghost predicate SameForOthers(s: State, s': State, child: int) {
    forall e, j :: TASK_DIRS <= e && e / TASK_DIRS != child ==> View(s', e, j) == View(s, e, j)
  }

  lemma CopiedForOthers(s: State, s': State, parent: int, child: int, k: int, n: int)
    requires 0 <= k && 0 <= n && k + n <= DATA_DIRS && ViewsCopied(s, s', parent, child, k, n)
    ensures SameForOthers(s, s', child)
  {
    hide View;
    forall e, j | TASK_DIRS <= e && e / TASK_DIRS != child ensures View(s', e, j) == View(s, e, j) {
      assert !(TASK_DIRS * child <= e < TASK_DIRS * child + TASK_DIRS);
    }
  }

  lemma SameForOthersTrans(a: State, b: State, c: State, child: int)
    requires SameForOthers(a, b, child) && SameForOthers(b, c, child)
    ensures SameForOthers(a, c, child)
  {
    hide View;
  }

  lemma Unchanged(s: State, parent: int, child: int, k: int)
    ensures SameForOthers(s, s, child) && ViewsCopied(s, s, parent, child, k, 0)
  {
  }

  lemma NothingCopied(s: State, parent: int, child: int, k: int)
    requires !HasTable(s, TASK_DIRS * parent + k) && !HasTable(s, TASK_DIRS * child + k)
    ensures ViewsCopied(s, s, parent, child, k, 1)
  {
    NoTableNoView(s, TASK_DIRS * parent + k);
    NoTableNoView(s, TASK_DIRS * child + k);
    hide View;
  }

  lemma CopyTableView(s: State, parent: int, child: int, k: int)
    requires Copying(s, parent, child) && Private(s) && 1 <= parent && 0 <= k < DATA_DIRS && FreeFrame(s) != 0
    requires NoTablesFrom(s, child, k) && HasTable(s, TASK_DIRS * parent + k)
    ensures var from, to := TASK_DIRS * parent + k, TASK_DIRS * child + k;
      var added := AddTable(s, to, FreeFrame(s));
      var s' := ShareEntries(added, Table(s, from), FreeFrame(s), 0, ENTRIES);
      && Copying(s', parent, child) && Private(s') && NoTablesFrom(s', child, k + 1)
      && ViewsCopied(s, s', parent, child, k, 1)
  {
    hide *;
    var from, to := TASK_DIRS * parent + k, TASK_DIRS * child + k;
    var added := AddTable(s, to, FreeFrame(s));
    AddTableReady(s, parent, child, k);
    AddTableContinues(s, parent, child, k);
    AddTableView(s, to);
    NewTableNames(s, added, from, to, FreeFrame(s));
    ShareEntriesKeeps(added, parent, child, k, 0, ENTRIES);
    ShareEntriesView(added, parent, child, k, 0, ENTRIES);
    var s' := ShareEntries(added, Table(added, from), Table(added, to), 0, ENTRIES);
    NoTablesStays(added, s', child, k + 1);
    OneTableCopied(s, added, s', parent, child, k);
  }

  lemma OneTableCopied(s: State, added: State, s': State, parent: int, child: int, k: int)
    requires SameViews(s, added) && EntriesShared(added, s', TASK_DIRS * parent + k, TASK_DIRS * child + k, 0, ENTRIES)
    requires 1 <= parent && 0 <= k
    ensures ViewsCopied(s, s', parent, child, k, 1)
  {
    ViewRange(added);
    hide View;
    var from, to := TASK_DIRS * parent + k, TASK_DIRS * child + k;
    forall e, j | TASK_DIRS <= e
      ensures View(s', e, j) == if to <= e < to + 1 then View(s, e + TASK_DIRS * (parent - child), j) else View(s, e, j)
    {
      assert View(added, from, j) == View(s, from, j);
      assert IsSlot(from, j) || View(added, from, j) == Absent;
      assert IsSlot(to, j) || View(added, to, j) == Absent;
    }
  }

  lemma ViewRange(s: State)
    ensures forall d, i :: !IsSlot(d, i) ==> View(s, d, i) == Absent
  {
  }

  lemma NoTableNoView(s: State, d: int)
    requires !HasTable(s, d)
    ensures forall i :: View(s, d, i) == Absent
  {
  }

  lemma ViewsCompose(s: State, next: State, s': State, parent: int, child: int, k: int, n: int)
    requires parent != child && 1 <= parent && 1 <= child && 0 <= k && 1 <= n && k + n <= DATA_DIRS
    requires ViewsCopied(s, next, parent, child, k, 1) && ViewsCopied(next, s', parent, child, k + 1, n - 1)
    ensures ViewsCopied(s, s', parent, child, k, n)
  {
    hide View;
    forall e, j | TASK_DIRS <= e
      ensures View(s', e, j) ==
        if TASK_DIRS * child + k <= e < TASK_DIRS * child + k + n then View(s, e + TASK_DIRS * (parent - child), j) else View(s, e, j)
    {
      var p := e + TASK_DIRS * (parent - child);
      if TASK_DIRS * child + k <= e < TASK_DIRS * child + k + n {
        assert p < TASK_DIRS * child || TASK_DIRS * child + TASK_DIRS <= p by {
          if parent < child {
            assert p < TASK_DIRS * parent + DATA_DIRS;
          } else {
            assert TASK_DIRS * parent <= p;
          }
        }
        assert !(TASK_DIRS * child + k <= p < TASK_DIRS * child + k + 1);
        assert TASK_DIRS <= p;
        assert View(next, p, j) == View(s, p, j);
      }
    }
  }

  /** What copying n tables from entry k on comes to, whether or not a frame ran out. */
  ghost predicate CopyOutcome(s: State, r: (State, bool), parent: int, child: int, k: int, n: int) {
    && Private(r.0)
    && SameForOthers(s, r.0, child)
    && (r.1 ==> ViewsCopied(s, r.0, parent, child, k, n))
  }

  lemma CopyOutcomeStep(s: State, next: State, r: (State, bool), parent: int, child: int, k: int, n: int)
    requires parent != child && 1 <= parent && 1 <= child && 0 <= k && 1 <= n && k + n <= DATA_DIRS
    requires ViewsCopied(s, next, parent, child, k, 1) && CopyOutcome(next, r, parent, child, k + 1, n - 1)
    ensures CopyOutcome(s, r, parent, child, k, n)
  {
    hide View, Private;
    CopiedForOthers(s, next, parent, child, k, 1);
    if r.1 {
      ViewsCompose(s, next, r.0, parent, child, k, n);
    }
  }

  lemma CopyTablesNone(s: State, parent: int, child: int, k: int)
    requires Private(s)
    ensures CopyTables(s, TASK_DIRS * parent + k, TASK_DIRS * child + k, 0, ENTRIES) == (s, true)
    ensures CopyOutcome(s, (s, true), parent, child, k, 0)
    ensures forall n :: CopyOutcome(s, (s, false), parent, child, k, n)
  {
    Unchanged(s, parent, child, k);
    hide View, Private;
  }

  lemma NextCopyKeeps(s: State, parent: int, child: int, k: int)
    requires Copying(s, parent, child) && Private(s) && 1 <= parent && NoTablesFrom(s, child, k) && 0 <= k < DATA_DIRS
    requires HasTable(s, TASK_DIRS * parent + k) ==> FreeFrame(s) != 0
    ensures var next := NextCopy(s, TASK_DIRS * parent + k, TASK_DIRS * child + k, ENTRIES);
      && Copying(next, parent, child) && Private(next) && NoTablesFrom(next, child, k + 1)
      && ViewsCopied(s, next, parent, child, k, 1)
  {
    if HasTable(s, TASK_DIRS * parent + k) {
      CopyTableView(s, parent, child, k);
    } else {
      NothingCopied(s, parent, child, k);
    }
    hide Copying, Private, ViewsCopied;
  }

  lemma {:induction false} CopyTablesView(s: State, parent: int, child: int, k: int, n: int)
    requires Copying(s, parent, child) && Private(s) && 1 <= parent && NoTablesFrom(s, child, k)
    requires parent != child && 1 <= child && 0 <= k && 0 <= n && k + n <= DATA_DIRS
    ensures CopyOutcome(s, CopyTables(s, TASK_DIRS * parent + k, TASK_DIRS * child + k, n, ENTRIES), parent, child, k, n)
    decreases n
  {
    var from, to := TASK_DIRS * parent + k, TASK_DIRS * child + k;
    hide *;
    CopyTablesNone(s, parent, child, k);
    if n > 0 {
      CopyTablesOnce(s, from, to, n, ENTRIES);
      if !HasTable(s, from) || FreeFrame(s) != 0 {
        NextCopyKeeps(s, parent, child, k);
        CopyTablesView(NextCopy(s, from, to, ENTRIES), parent, child, k + 1, n - 1);
        CopyOutcomeStep(s, NextCopy(s, from, to, ENTRIES), CopyTables(NextCopy(s, from, to, ENTRIES), from + 1, to + 1, n - 1, ENTRIES), parent, child, k, n);
      }
    }
  }
}
