/** `un_wp_page` and the write it makes possible keep the invariant. */
module Faults {
  import opened PageTables
  import opened Conservation
  import opened Release

  // ---------- the page is made writable in place ----------

  lemma InPlaceEffect(s: State, d: int, i: int)
    requires Shape(s) && TablesApart(s) && Mapped(s, d, i) && SoleUser(s, FrameOf(Entry(s, d, i)))
    ensures var s' := UnWriteProtect(s, Table(s, d), i);
      && Shape(s') && SameDirectory(s, s') && s'.memMap == s.memMap
      && (forall f :: f != Table(s, d) ==> Page(s', f) == Page(s, f))
      && (forall e, j, f :: Maps(s', e, j, f) <==> Maps(s, e, j, f))
      && (forall e, j :: CanWrite(s', e, j) <==> CanWrite(s, e, j) || (e == d && j == i))
  {
    var s' := UnWriteProtect(s, Table(s, d), i);
    PokeEntry(s, d, i, WriteEnable(Entry(s, d, i)));
    hide Peek, UnWriteProtect, Entry, Present, FrameOf, Writable;
    forall e, j, f ensures Maps(s', e, j, f) <==> Maps(s, e, j, f) {
      assert HasTable(s', e) == HasTable(s, e);
    }
    forall e, j ensures CanWrite(s', e, j) <==> CanWrite(s, e, j) || (e == d && j == i) {
      assert HasTable(s', e) == HasTable(s, e);
    }
  }

  /** A count of 1 on a mapped frame is that mapping and nothing else. */
  lemma SoleUserMeans(s: State, d: int, i: int, f: int)
    requires Inv(s) && d >= TASK_DIRS && Maps(s, d, i, f) && SoleUser(s, f)
    ensures Mappers(s, f) == {(d, i)} && !IsTable(s, f) && !IsTask(s, f)
  {
    assert InMemory(s);
    assert Count(s, f) == References(s, f);
    assert (d, i) in Mappers(s, f);
    assert |Mappers(s, f) - {(d, i)}| == |Mappers(s, f)| - 1;
  }

  lemma InPlaceKeeps(s: State, d: int, i: int)
    requires Inv(s) && d >= TASK_DIRS && Mapped(s, d, i) && SoleUser(s, FrameOf(Entry(s, d, i)))
    ensures Inv(UnWriteProtect(s, Table(s, d), i))
  {
    var f := FrameOf(Entry(s, d, i));
    assert Maps(s, d, i, f);
    InPlaceEffect(s, d, i);
    SoleUserMeans(s, d, i, f);
    var s' := UnWriteProtect(s, Table(s, d), i);
    assert forall g :: Count(s', g) == Count(s, g);
    assert forall g :: Maps(s, d, i, g) ==> g == f;
    hide UnWriteProtect, Peek, Entry, FrameOf, Present, Writable, Maps, CanWrite, Count, SoleUser;
    SameDirectoryKeeps(s, s');
    assert forall g :: Mappers(s', g) == Mappers(s, g);
    forall g ensures References(s', g) == References(s, g) && IsTable(s', g) == IsTable(s, g) && IsTask(s', g) == IsTask(s, g) {
      SameUses(s, s', g);
    }
  }

  // ---------- the page is copied ----------

  ghost predicate NeedsCopy(s: State, d: int, i: int) {
    !SoleUser(s, FrameOf(Entry(s, d, i)))
  }

  /** The state before the last instruction of `un_wp_page`, when a frame was found. */
  function CopiedPage(s: State, was: int): State {
    var f := FreeFrame(s);
    var a := Allocate(s, f);
    var b := if was >= LOW_FRAMES then SetCount(a, was, Count(a, was) - 1) else a;
    SetPage(b, f, Page(b, was))
  }

  lemma CopiedPageEffect(s: State, was: int)
    requires Inv(s) && FreeFrame(s) != 0 && 0 <= was < FRAMES
    ensures var f := FreeFrame(s);
      var s' := CopiedPage(s, was);
      && Shape(s') && SameDirectory(s, s')
      && (was != f ==> Page(s', f) == Page(s, was))
      && (forall g :: g != f ==> Page(s', g) == Page(s, g))
      && (forall g :: was != f ==>
            Count(s', g) == if g == f then 1 else if g == was && LOW_FRAMES <= g then (Count(s, g) - 1) % 256 else Count(s, g))
      && (forall e, j :: IsSlot(e, j) && HasTable(s, e) ==> Entry(s', e, j) == Entry(s, e, j))
  {
    FreeFrameUnused(s);
    UnusedMeans(s, FreeFrame(s));
    var s' := CopiedPage(s, was);
    assert forall e :: Dir(s', e) == Dir(s, e);
    hide Present, FrameOf, Writable;
  }

  lemma CopyEffect(s: State, d: int, i: int)
    requires Inv(s) && d >= TASK_DIRS && Mapped(s, d, i) && NeedsCopy(s, d, i) && FreeFrame(s) != 0
    ensures var f := FreeFrame(s);
      var was := FrameOf(Entry(s, d, i));
      var s' := UnWriteProtect(s, Table(s, d), i);
      && Shape(s') && SameDirectory(s, s') && f != was && f != Table(s, d)
      && Page(s', f) == Page(s, was)
      && (forall g :: g != f && g != Table(s, d) ==> Page(s', g) == Page(s, g))
      && (forall g :: Count(s', g) ==
            if g == f then 1 else if g == was && LOW_FRAMES <= g then (Count(s, g) - 1) % 256 else Count(s, g))
      && (forall e, j :: IsSlot(e, j) && HasTable(s, e) ==>
            Entry(s', e, j) == if e == d && j == i then UserEntry(f) else Entry(s, e, j))
  {
    var f := FreeFrame(s);
    var was := FrameOf(Entry(s, d, i));
    var copied := CopiedPage(s, was);
    hide Inv, CopiedPage, FreeFrame, Peek, HasTable, Table, UserEntry, Mappers, TableUses, TaskUses;
    CopyReady(s, d, i);
    CopiedPageEffect(s, was);
    assert UnWriteProtect(s, Table(s, d), i) == Poke(copied, Table(s, d), i, UserEntry(f)) by {
      CopyIs(s, d, i);
    }
    hide UnWriteProtect, Entry, FrameOf;
    SameDirectoryKeeps(s, copied);
    PokeEntry(copied, d, i, UserEntry(f));
    var s' := UnWriteProtect(s, Table(s, d), i);
    assert s' == Poke(copied, Table(copied, d), i, UserEntry(f));
    assert forall g :: Count(s', g) == Count(copied, g);
  }

  lemma CopyIs(s: State, d: int, i: int)
    requires NeedsCopy(s, d, i) && FreeFrame(s) != 0
    ensures UnWriteProtect(s, Table(s, d), i) == Poke(CopiedPage(s, FrameOf(Entry(s, d, i))), Table(s, d), i, UserEntry(FreeFrame(s)))
  {
    hide SetPage, Allocate, SetCount, Page, Poke;
  }

  lemma CopyReady(s: State, d: int, i: int)
    requires Inv(s) && d >= TASK_DIRS && Mapped(s, d, i) && FreeFrame(s) != 0
    ensures var f := FreeFrame(s);
      var was := FrameOf(Entry(s, d, i));
      && Shape(s) && TablesApart(s) && 0 <= was < FRAMES && was != f && f != Table(s, d) && IsSlot(d, i) && HasTable(s, d)
  {
    assert Maps(s, d, i, FrameOf(Entry(s, d, i)));
    FreeFrameUnused(s);
    UnusedMeans(s, FreeFrame(s));
  }

  lemma CopyMappings(s: State, d: int, i: int)
    requires Inv(s) && d >= TASK_DIRS && Mapped(s, d, i) && NeedsCopy(s, d, i) && FreeFrame(s) != 0
    ensures var f := FreeFrame(s);
      var s' := UnWriteProtect(s, Table(s, d), i);
      && (forall e, j, g :: Maps(s', e, j, g) <==> if e == d && j == i then g == f else Maps(s, e, j, g))
      && (forall e, j :: CanWrite(s', e, j) <==> CanWrite(s, e, j) || (e == d && j == i))
  {
    CopyEffect(s, d, i);
    var s' := UnWriteProtect(s, Table(s, d), i);
    hide Inv, UnWriteProtect, FreeFrame, Peek, Entry, UserEntry, FrameOf, Writable, Present;
    forall e, j, g ensures Maps(s', e, j, g) <==> if e == d && j == i then g == FreeFrame(s) else Maps(s, e, j, g) {
      assert HasTable(s', e) == HasTable(s, e);
    }
    forall e, j ensures CanWrite(s', e, j) <==> CanWrite(s, e, j) || (e == d && j == i) {
      assert HasTable(s', e) == HasTable(s, e);
    }
  }

  lemma CopyKeeps(s: State, d: int, i: int)
    requires Inv(s) && d >= TASK_DIRS && Mapped(s, d, i) && NeedsCopy(s, d, i) && FreeFrame(s) != 0
    ensures Inv(UnWriteProtect(s, Table(s, d), i))
  {
    var f := FreeFrame(s);
    var was := FrameOf(Entry(s, d, i));
    assert Maps(s, d, i, was);
    FreeFrameUnused(s);
    UnusedMeans(s, f);
    CopyEffect(s, d, i);
    CopyMappings(s, d, i);
    DropEntryEffect(s, d, i);
    DropEntryLoses(s, d, i);
    DropEntryKeeps(s, d, i);
    var mid := DropEntry(s, Table(s, d), i);
    var s' := UnWriteProtect(s, Table(s, d), i);
    assert Counts(mid, s', f, 1) by {
      if LOW_FRAMES <= was {
        MappedCounted(s, d, i, was);
      }
    }
    assert !Mapped(mid, d, i) by { assert Entry(mid, d, i) == 0; }
    hide UnWriteProtect, DropEntry, FreeFrame, Peek, Entry, FrameOf, Present, Writable, Count, Maps, CanWrite, Inv, Table, HasTable;
    forall g ensures IsTable(mid, g) == IsTable(s, g) && IsTask(mid, g) == IsTask(s, g) {
      SameUses(s, mid, g);
    }
    GainKeepsInv(mid, s', d, i, f);
  }
}
