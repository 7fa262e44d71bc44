/** The state the boot code leaves, and the one fork task 0 makes from it. */
module Boot {
  import opened Kernel
  import opened PageTables
  import opened Conservation
  import opened Isolation

  /** `setup_paging` has built the identity map in frames 1 to 4, and `mem_init` has freed exactly the
      frames from `start` up to `high`. */
  ghost predicate Booted(s: State) {
    && Shape(s)
    && (forall d :: 0 <= d < ENTRIES ==> Dir(s, d) == if d < DATA_DIRS then UserEntry(d + 1) else 0)
    && (forall f, i :: 1 <= f <= DATA_DIRS && 0 <= i < ENTRIES ==> Peek(s, f, i) == UserEntry(ENTRIES * (f - 1) + i))
    && (forall k :: 0 <= k < PAGING_PAGES ==> s.memMap[k] == if s.start <= LOW_FRAMES + k < s.high then 0 else USED)
    && (forall t :: 1 <= t < NR_TASKS ==> s.task[t] == 0)
  }

  lemma BootMaps(s: State)
    requires Booted(s)
    ensures forall d :: HasTable(s, d) <==> 0 <= d < DATA_DIRS
    ensures forall d :: 0 <= d < DATA_DIRS ==> Table(s, d) == d + 1
    ensures forall d, i, f :: Maps(s, d, i, f) <==> 0 <= d < DATA_DIRS && 0 <= i < ENTRIES && f == ENTRIES * d + i
  {
    forall d ensures HasTable(s, d) <==> 0 <= d < DATA_DIRS {
      if 0 <= d < ENTRIES {
        assert Dir(s, d) == if d < DATA_DIRS then UserEntry(d + 1) else 0;
      }
    }
    forall d | 0 <= d < DATA_DIRS ensures Table(s, d) == d + 1 {
      assert Dir(s, d) == UserEntry(d + 1);
    }
    hide UserEntry, Present, FrameOf;
    forall d, i, f ensures Maps(s, d, i, f) <==> 0 <= d < DATA_DIRS && 0 <= i < ENTRIES && f == ENTRIES * d + i {
      if 0 <= d < DATA_DIRS && 0 <= i < ENTRIES {
        assert Entry(s, d, i) == Peek(s, d + 1, i);
      }
    }
  }

  /** The invariant and the privacy of memories hold when task 0 starts. */
  lemma BootInv(s: State)
    requires Booted(s)
    ensures Inv(s) && Private(s)
  {
    BootMaps(s);
    hide HasTable, Table, Maps;
    assert forall t :: 1 <= t < NR_TASKS ==> TaskFrame(s, t) == 0;
    forall f | LOW_FRAMES <= f < FRAMES ensures Count(s, f) == References(s, f) {
      assert Mappers(s, f) == {} && TableUses(s, f) == {} && TaskUses(s, f) == {};
    }
  }

  // ---------- kernel/main.c ----------

  const MB := 0x100000

  /** memory_end, from the kilobytes of extended memory the BIOS reports. */
  function MemoryEnd(extMemK: int): int {
    var end := (MB + 1024 * extMemK) / 4096 * 4096;
    if end > 16 * MB then 16 * MB else end
  }

  /** buffer_memory_end, where main memory starts. */
  function BufferEnd(end: int): int {
    if end > 12 * MB then 4 * MB else if end > 6 * MB then 2 * MB else MB
  }

  /** For every size the BIOS can report: memory ends at the last page boundary it reaches, or at 16 MB; main
      memory starts at 4 MB from 12 MB and 4 KB on, at 2 MB from 6 MB and 4 KB on, and else at 1 MB. */
  lemma MemorySplit(extMemK: int)
    requires 0 <= extMemK < 0x10000
    ensures var end := MemoryEnd(extMemK);
      var start := BufferEnd(end);
      && MB <= start <= end <= 16 * MB && start % 4096 == 0 && end % 4096 == 0
      && LOW_FRAMES <= start / 4096 <= end / 4096 <= FRAMES
      && (extMemK >= 15 * 1024 ==> end == 0x1000000)
      && (extMemK < 15 * 1024 ==> end <= 0x100000 + 1024 * extMemK < end + 4096)
      && start == if extMemK >= 11 * 1024 + 4 then 0x400000 else if extMemK >= 5 * 1024 + 4 then 0x200000 else 0x100000
  {
  }
}
