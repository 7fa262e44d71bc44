/** `free_page_tables` and the error path of `copy_process` keep the invariant. */
module Release {
  import opened PageTables
  import opened Conservation
  import opened Allocation

  /** The entries of table d from i on are gone; nothing else is mapped differently. */
  ghost predicate Cleared(s: State, s': State, d: int, i: int) {
    && (forall e, j, f :: Maps(s', e, j, f) <==> Maps(s, e, j, f) && !(e == d && i <= j))
    && (forall e, j :: CanWrite(s', e, j) <==> CanWrite(s, e, j) && !(e == d && i <= j))
  }

  lemma FreePageEffect(s: State, f: int)
    requires Shape(s)
    ensures var s' := FreePage(s, f);
      && Shape(s') && s'.ram == s.ram && s'.task == s.task && s'.start == s.start && s'.high == s.high
      && (forall g :: Count(s', g) == if g == f && LOW_FRAMES <= f < FRAMES then (if Count(s, f) == 0 then 0 else (Count(s, f) - 1) % 256) else Count(s, g))
  {
  }

  lemma SameRam(s: State, s': State)
    requires s'.ram == s.ram && s'.task == s.task && s'.start == s.start && s'.high == s.high
    ensures SameDirectory(s, s')
    ensures forall f :: Page(s', f) == Page(s, f)
    ensures forall f, w :: Peek(s', f, w) == Peek(s, f, w)
    ensures forall d, i :: Entry(s', d, i) == Entry(s, d, i)
  {
  }

  lemma DropEntryEffect(s: State, d: int, i: int)
    requires Shape(s) && TablesApart(s) && HasTable(s, d) && IsSlot(d, i)
    ensures var s' := DropEntry(s, Table(s, d), i);
      var e := Entry(s, d, i);
      && Shape(s') && SameDirectory(s, s')
      && (forall f :: f != Table(s, d) ==> Page(s', f) == Page(s, f))
      && (forall f :: Count(s', f) ==
            if Present(e) && f == FrameOf(e) && LOW_FRAMES <= f < FRAMES
            then (if Count(s, f) == 0 then 0 else (Count(s, f) - 1) % 256)
            else Count(s, f))
      && (forall a, j :: IsSlot(a, j) && HasTable(s, a) ==> Entry(s', a, j) == if a == d && j == i then 0 else Entry(s, a, j))
  {
    var e := Entry(s, d, i);
    var freed := if Present(e) then FreePage(s, FrameOf(e)) else s;
    FreePageEffect(s, FrameOf(e));
    SameRam(s, freed);
    SameDirectoryKeeps(s, freed);
    PokeEntry(freed, d, i, 0);
    if e == 0 {
    } else {
      assert DropEntry(s, Table(s, d), i) == Poke(freed, Table(freed, d), i, 0);
      hide DropEntry, Poke, FreePage, Present, FrameOf, HasTable, Table, Peek;
    }
  }

  lemma DropEntryLoses(s: State, d: int, i: int)
    requires Shape(s) && TablesApart(s) && HasTable(s, d) && IsSlot(d, i)
    ensures var s' := DropEntry(s, Table(s, d), i);
      && Loses(s, s', d, i)
      && (forall e, j :: CanWrite(s', e, j) <==> CanWrite(s, e, j) && (e != d || j != i))
  {
    DropEntryEffect(s, d, i);
    var s' := DropEntry(s, Table(s, d), i);
    hide FrameOf, Peek, DropEntry, Entry;
    forall e, j, f ensures Maps(s', e, j, f) <==> Maps(s, e, j, f) && (e != d || j != i) {
      assert HasTable(s', e) == HasTable(s, e);
    }
    forall e, j ensures CanWrite(s', e, j) <==> CanWrite(s, e, j) && (e != d || j != i) {
      assert HasTable(s', e) == HasTable(s, e);
    }
  }

  /** A mapped frame above LOW_MEM has been counted. */
  lemma MappedCounted(s: State, d: int, i: int, f: int)
    requires Shape(s) && TablesApart(s) && TasksApart(s) && MapsOnce(s) && Conserved(s)
    requires d >= TASK_DIRS && Maps(s, d, i, f) && LOW_FRAMES <= f < FRAMES
    ensures 1 <= Count(s, f) < 256
  {
    CountBound(s, f);
    assert (d, i) in Mappers(s, f);
    assert Count(s, f) == References(s, f);
  }

  lemma DropMappedKeeps(s: State, d: int, i: int, f: int)
    requires Inv(s) && TASK_DIRS <= d && Maps(s, d, i, f)
    ensures Inv(DropEntry(s, Table(s, d), i))
  {
    DropEntryEffect(s, d, i);
    DropEntryLoses(s, d, i);
    var s' := DropEntry(s, Table(s, d), i);
    assert Present(Entry(s, d, i)) && f == FrameOf(Entry(s, d, i));
    hide DropEntry, Peek, Entry, Present, FrameOf, Writable;
    if LOW_FRAMES <= f < FRAMES {
      MappedCounted(s, d, i, f);
    }
    assert Counts(s, s', f, -1);
    LossKeepsInv(s, s', d, i, f);
  }

  lemma DropUnmappedKeeps(s: State, d: int, i: int)
    requires Inv(s) && TASK_DIRS <= d && HasTable(s, d) && IsSlot(d, i) && !Mapped(s, d, i)
    ensures Inv(DropEntry(s, Table(s, d), i))
  {
    DropEntryEffect(s, d, i);
    DropEntryLoses(s, d, i);
    var s' := DropEntry(s, Table(s, d), i);
    assert !Present(Entry(s, d, i));
    assert forall f :: !Maps(s, d, i, f);
    assert !CanWrite(s, d, i);
    hide DropEntry, Peek, Entry, Present, FrameOf, Writable, Maps, CanWrite, Inv;
    SameCountsKeep(s, s');
  }

  lemma DropEntryKeeps(s: State, d: int, i: int)
    requires Inv(s) && TASK_DIRS <= d && HasTable(s, d) && IsSlot(d, i)
    ensures Inv(DropEntry(s, Table(s, d), i))
  {
    if Mapped(s, d, i) {
      DropMappedKeeps(s, d, i, FrameOf(Entry(s, d, i)));
    } else {
      DropUnmappedKeeps(s, d, i);
    }
  }

  /** Nothing the invariant speaks of has changed. */
  lemma SameCountsKeep(s: State, s': State)
    requires Inv(s) && Shape(s') && SameDirectory(s, s') && SameMappings(s, s')
    requires forall f :: Count(s', f) == Count(s, f)
    ensures Inv(s')
  {
    SameMappers(s, s');
    SameDirectoryKeeps(s, s');
    hide Maps, CanWrite, Count, Mappers;
    forall f ensures References(s', f) == References(s, f) && IsTable(s', f) == IsTable(s, f) && IsTask(s', f) == IsTask(s, f) {
      SameUses(s, s', f);
    }
  }

  lemma {:induction false} DropEntriesKeeps(s: State, d: int, i: int)
    requires Inv(s) && TASK_DIRS <= d < ENTRIES && HasTable(s, d) && 0 <= i <= ENTRIES
    ensures var s' := DropEntries(s, Table(s, d), i);
      Inv(s') && SameDirectory(s, s') && Cleared(s, s', d, i)
      && (forall f :: f != Table(s, d) ==> Page(s', f) == Page(s, f))
    decreases ENTRIES - i
  {
    hide Maps, CanWrite, HasTable, Table, DropEntry, Page;
    if i < ENTRIES {
      DropEntryEffect(s, d, i);
      DropEntryLoses(s, d, i);
      DropEntryKeeps(s, d, i);
      DropEntriesKeeps(DropEntry(s, Table(s, d), i), d, i + 1);
    } else {
      SlotRange(s);
    }
  }

  lemma SlotRange(s: State)
    ensures forall d, i, f :: Maps(s, d, i, f) ==> 0 <= i < ENTRIES
    ensures forall d, i :: CanWrite(s, d, i) ==> 0 <= i < ENTRIES
  {
  }

  // ---------- the table itself ----------

  ghost predicate LostTable(s: State, s': State, d: int) {
    && s'.task == s.task && s'.start == s.start && s'.high == s.high
    && forall e :: HasTable(s', e) == (e != d && HasTable(s, e)) && (e != d ==> Table(s', e) == Table(s, e))
  }

  function UnlinkTable(s: State, d: int): State {
    Poke(FreePage(s, Table(s, d)), 0, d, 0)
  }

  lemma UnlinkWords(s: State, d: int)
    requires Inv(s) && TASK_DIRS <= d < ENTRIES && HasTable(s, d)
    ensures var s' := UnlinkTable(s, d);
      && Shape(s') && s'.task == s.task && s'.start == s.start && s'.high == s.high
      && (forall f :: f != 0 ==> Page(s', f) == Page(s, f))
      && !HasTable(s', d) && (forall e :: e != d ==> Dir(s', e) == Dir(s, e))
  {
    FreePageEffect(s, Table(s, d));
    SameRam(s, FreePage(s, Table(s, d)));
    hide FreePage, FrameOf, Writable;
  }

  lemma UnlinkCounts(s: State, d: int)
    requires Inv(s) && TASK_DIRS <= d < ENTRIES && HasTable(s, d)
    ensures forall f :: LOW_FRAMES <= f < FRAMES ==>
      Count(UnlinkTable(s, d), f) == if f == Table(s, d) then Count(s, f) - 1 else Count(s, f)
  {
    var f := Table(s, d);
    CountBound(s, f);
    assert d in TableUses(s, f);
    assert Count(s, f) == References(s, f);
    FreePageEffect(s, f);
    hide FreePage, FrameOf, Present, Inv;
  }

  lemma UnlinkTableEffect(s: State, d: int)
    requires Inv(s) && TASK_DIRS <= d < ENTRIES && HasTable(s, d)
    requires forall i :: !Mapped(s, d, i)
    ensures var s' := UnlinkTable(s, d);
      && Shape(s') && LostTable(s, s', d) && SameMappings(s, s')
      && (forall f :: f != 0 ==> Page(s', f) == Page(s, f))
      && (forall f :: LOW_FRAMES <= f < FRAMES ==> Count(s', f) == if f == Table(s, d) then Count(s, f) - 1 else Count(s, f))
  {
    var s' := UnlinkTable(s, d);
    UnlinkWords(s, d);
    UnlinkCounts(s, d);
    assert forall e :: HasTable(s, e) ==> Table(s, e) != 0;
    hide UnlinkTable, Inv, Count;
    assert forall e, j :: e != d && IsSlot(e, j) && HasTable(s, e) ==> Entry(s', e, j) == Entry(s, e, j);
    hide Present, FrameOf, Writable, Peek, Entry;
    assert forall e :: HasTable(s', e) == (e != d && HasTable(s, e));
    forall e, j, g ensures Maps(s', e, j, g) <==> Maps(s, e, j, g) {
      assert HasTable(s', e) == (e != d && HasTable(s, e));
    }
    forall e, j ensures CanWrite(s', e, j) == CanWrite(s, e, j) {
      assert HasTable(s', e) == (e != d && HasTable(s, e));
    }
  }

  lemma LostTableApart(s: State, s': State, d: int)
    requires TablesApart(s) && TablesOwned(s) && TasksApart(s) && LostTable(s, s', d)
    ensures TablesApart(s') && TablesOwned(s') && TasksApart(s')
  {
    hide HasTable, Table;
    assert forall t :: TaskFrame(s', t) == TaskFrame(s, t);
  }

  lemma LostTableUses(s: State, s': State, d: int, g: int)
    requires LostTable(s, s', d) && TASK_DIRS <= d < ENTRIES && HasTable(s, d)
    ensures TaskUses(s', g) == TaskUses(s, g)
    ensures TableUses(s', g) == if g == Table(s, d) then TableUses(s, g) - {d} else TableUses(s, g)
    ensures g == Table(s, d) ==> d in TableUses(s, g)
  {
    hide HasTable, Table;
    assert forall t :: TaskFrame(s', t) == TaskFrame(s, t);
  }

  lemma LostTableCounts(s: State, s': State, d: int)
    requires Conserved(s) && WritesGuarded(s) && LostTable(s, s', d) && SameMappings(s, s')
    requires TASK_DIRS <= d < ENTRIES && HasTable(s, d)
    requires forall f :: LOW_FRAMES <= f < FRAMES ==> Count(s', f) == if f == Table(s, d) then Count(s, f) - 1 else Count(s, f)
    ensures Conserved(s') && WritesGuarded(s')
  {
    SameMappers(s, s');
    hide Mappers, HasTable, Table, Maps, CanWrite, Count, TableUses, TaskUses;
    forall g | LOW_FRAMES <= g < FRAMES ensures Count(s', g) == References(s', g) {
      LostTableUses(s, s', d, g);
      assert Count(s, g) == References(s, g);
    }
    forall g ensures (IsTable(s', g) ==> IsTable(s, g)) && (IsTask(s', g) ==> IsTask(s, g)) {
      LostTableUses(s, s', d, g);
    }
  }

  lemma UnlinkTableKeeps(s: State, d: int)
    requires Inv(s) && TASK_DIRS <= d < ENTRIES && HasTable(s, d)
    requires forall i :: !Mapped(s, d, i)
    ensures Inv(UnlinkTable(s, d))
  {
    UnlinkTableEffect(s, d);
    hide UnlinkTable;
    var s' := UnlinkTable(s, d);
    SameMappers(s, s');
    LostTableApart(s, s', d);
    LostTableCounts(s, s', d);
  }

  /** `free_page_tables` on n directory entries from d on removes these tables and every mapping
      below them, and changes nothing else the hardware can see. */
  ghost predicate Removed(s: State, s': State, d: int, n: int) {
    && s'.task == s.task && s'.start == s.start && s'.high == s.high
    && (forall e :: HasTable(s', e) == (HasTable(s, e) && !(d <= e < d + n)))
    && (forall e :: HasTable(s', e) ==> Table(s', e) == Table(s, e))
    && (forall e, j, f :: Maps(s', e, j, f) <==> Maps(s, e, j, f) && !(d <= e < d + n))
    && (forall e, j :: CanWrite(s', e, j) <==> CanWrite(s, e, j) && !(d <= e < d + n))
  }

  lemma DropTableKeeps(s: State, d: int)
    requires Inv(s) && TASK_DIRS <= d < ENTRIES && HasTable(s, d)
    ensures Inv(DropTable(s, d)) && Removed(s, DropTable(s, d), d, 1)
    ensures forall f :: f != 0 && f != Table(s, d) ==> Page(DropTable(s, d), f) == Page(s, f)
  {
    var cleared := DropEntries(s, Table(s, d), 0);
    hide Maps, CanWrite, Page, Inv, DropEntries, HasTable, Peek;
    DropEntriesKeeps(s, d, 0);
    SlotRange(s);
    NothingLeft(s, cleared, d);
    UnlinkTableEffect(cleared, d);
    UnlinkTableKeeps(cleared, d);
    assert DropTable(s, d) == UnlinkTable(cleared, d);
    hide DropTable, UnlinkTable, Table;
  }

  lemma NothingLeft(s: State, cleared: State, d: int)
    requires Cleared(s, cleared, d, 0)
    ensures forall i :: !Mapped(cleared, d, i)
  {
    SlotRange(s);
    forall i ensures !Mapped(cleared, d, i) {
      assert !Maps(cleared, d, i, FrameOf(Entry(cleared, d, i)));
    }
  }

  lemma {:induction false} DropTablesKeeps(s: State, d: int, n: int)
    requires Inv(s) && TASK_DIRS <= d && 0 <= n && d + n <= ENTRIES
    ensures Inv(DropTables(s, d, n)) && Removed(s, DropTables(s, d, n), d, n)
    ensures forall f :: f != 0 && !(exists e :: d <= e < d + n && HasTable(s, e) && Table(s, e) == f) ==> Page(DropTables(s, d, n), f) == Page(s, f)
    decreases n
  {
    hide Maps, CanWrite, HasTable, Table, Inv, DropTable, Page;
    if n > 0 {
      var next := s;
      if HasTable(s, d) {
        DropTableKeeps(s, d);
        next := DropTable(s, d);
      } else {
        NoTableNoMapping(s, d);
      }
      DropTablesKeeps(next, d + 1, n - 1);
    }
  }

  lemma NoTableNoMapping(s: State, d: int)
    requires !HasTable(s, d)
    ensures forall i, f :: !Maps(s, d, i, f)
    ensures forall i :: !CanWrite(s, d, i)
  {
  }
}
