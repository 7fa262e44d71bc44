/** The one fork that task 0 makes at boot: which frames it finds, and so for which sizes of memory the
    tasks 1..63 start with private memories. */
module FirstFork {
  import opened Kernel
  import opened PageTables
  import opened Conservation
  import opened Forking
  import opened Isolation
  import opened TaskZero
  import opened ZeroFork
  import opened Boot

  // ---------- the plan, from where memory starts and ends ----------

  /** The highest frame below `top` that has not been shared with the tables below k. */
  function Pick(top: int, k: int): int {
    if Shared(top - 1, k, 0) then (top - 1) / ENTRIES * ENTRIES - 1 else top - 1
  }

  lemma PickIs(top: int, k: int)
    ensures Pick(top, k) < top && !Shared(Pick(top, k), k, 0)
    ensures forall g :: Pick(top, k) < g < top ==> Shared(g, k, 0)
  {
    if Shared(top - 1, k, 0) {
      var w := (top - 1) / ENTRIES;
      forall g | ENTRIES * w - 1 < g < top ensures Shared(g, k, 0) {
        assert g / ENTRIES == w;
      }
      assert w > 0 ==> (ENTRIES * w - 1) % ENTRIES == ENTRIES - 1;
    }
  }

  /** The frames for n tables, when everything from `start` up to `top` is free. */
  function BootTables(start: int, top: int, k: int, n: int): seq<int>
    decreases n
  {
    if n <= 0 || Pick(top, k) < start then []
    else [Pick(top, k)] + BootTables(start, Pick(top, k), k + 1, n - 1)
  }

  function BootPlan(start: int, high: int): seq<int> {
    if high <= start then [] else [high - 1] + BootTables(start, high - 1, 0, DATA_DIRS)
  }

  lemma BootCounts(s: State)
    requires Booted(s)
    ensures LOW_FRAMES <= s.start <= s.high <= FRAMES
    ensures forall f :: LOW_FRAMES <= f < FRAMES ==> (Count(s, f) == 0 <==> s.start <= f < s.high)
  {
    forall f | LOW_FRAMES <= f < FRAMES ensures Count(s, f) == 0 <==> s.start <= f < s.high {
      assert s.memMap[f - LOW_FRAMES] == if s.start <= f < s.high then 0 else USED;
    }
  }

  lemma BootPick(s: State, top: int, k: int)
    requires Booted(s) && top <= s.high
    ensures PickFree(s, top, k) == if Pick(top, k) < s.start then 0 else Pick(top, k)
  {
    BootCounts(s);
    PickIs(top, k);
    hide Booted, PickFree, Pick, Shared, Count;
  }

  lemma BootFirst(s: State)
    requires Booted(s)
    ensures PickFree(s, FRAMES, 0) == if s.high <= s.start then 0 else s.high - 1
  {
    BootCounts(s);
    assert forall f :: !Shared(f, 0, 0);
    assert s.start < s.high ==> Count(s, s.high - 1) == 0;
    hide Booted, PickFree, Shared, Count;
  }

  lemma {:induction false} BootTablesAre(s: State, top: int, k: int, n: int)
    requires Booted(s) && top <= s.high
    ensures PlanTables(s, top, k, n) == BootTables(s.start, top, k, n)
    decreases n
  {
    hide Booted, PickFree, Pick;
    BootPick(s, top, k);
    PickIs(top, k);
    StartIsLow(s);
    if n > 0 && Pick(top, k) >= s.start {
      BootTablesAre(s, Pick(top, k), k + 1, n - 1);
    }
  }

  lemma StartIsLow(s: State)
    requires Booted(s)
    ensures 0 < LOW_FRAMES <= s.start <= s.high
  {
  }

  lemma BootPlanIs(s: State)
    requires Booted(s)
    ensures Plan(s) == BootPlan(s.start, s.high)
  {
    BootFirst(s);
    StartIsLow(s);
    hide Booted, PickFree, PlanTables, BootTables;
    if s.start < s.high {
      BootTablesAre(s, s.high - 1, 0, DATA_DIRS);
    }
  }

  lemma NobodyWrites(s: State)
    requires Booted(s)
    ensures !WritesWindow(s) && !StructureInWindow(s)
  {
    BootMaps(s);
    hide HasTable, Table, InWindow;
    forall f | LOW_FRAMES <= f ensures !IsTable(s, f) && !IsTask(s, f) {
      assert forall t :: 1 <= t < NR_TASKS ==> TaskFrame(s, t) == 0;
    }
  }

  /** The first fork gives private memories exactly if none of the five frames lies in a window. */
  lemma FirstForkIff(s: State, nr: int, pcb: seq<int>, dirs: int)
    requires Booted(s) && CanFork(s, 0, nr, pcb, dirs)
    ensures var (s', ok) := Fork(s, 0, nr, pcb, dirs);
      var plan := BootPlan(s.start, s.high);
      && Inv(s') && ok == (|plan| == FORK_FRAMES) && (ok ==> (Private(s') <==> !AnyInWindow(plan)))
  {
    hide Fork, Private, BootPlan, Plan, StructureInWindow, WritesWindow, AnyInWindow, Booted, CanFork, Inv;
    BootInv(s);
    BootPlanIs(s);
    ZeroForkIff(s, nr, pcb, dirs);
    ZeroForkOthers(s, nr, pcb, dirs);
    NobodyWrites(s);
  }

  // ---------- sizes of memory ----------

  /** Memory ends in, or just above, one of the 160-page windows that task 0 shares. */
  predicate Crowded(high: int) {
    1025 <= high <= 1186 || 2049 <= high <= 2211 || 3073 <= high <= 3236
  }

  /** Where main memory starts when it ends at `high`. */
  function StartFor(high: int): int {
    if high > 3072 then 1024 else if high > 1536 then 512 else 256
  }

  lemma Picks(high: int)
    requires 261 <= high <= FRAMES
    ensures Pick(high - 1, 0) == high - 2 && Pick(high - 2, 1) == high - 3
    ensures Pick(high - 3, 2) == if 1024 <= high - 4 < 1184 then 1023 else high - 4
    ensures Pick(high - 4, 3) == if 1024 <= high - 5 < 1184 then 1023 else if 2048 <= high - 5 < 2208 then 2047 else high - 5
    ensures Pick(1023, 3) == 1022
  {
  }

  lemma WindowIs(f: int)
    requires LOW_FRAMES <= f < FRAMES
    ensures InWindow(f) <==> 1024 <= f < 1184 || 2048 <= f < 2208 || 3072 <= f < 3232
  {
  }

  /** The five frames. */
  lemma FiveFrames(high: int)
    requires 261 <= high <= FRAMES
    ensures var p := Pick(high - 3, 2);
      BootPlan(StartFor(high), high) == [high - 1, high - 2, high - 3, p, Pick(p, 3)]
  {
    var start := StartFor(high);
    Picks(high);
    var p := Pick(high - 3, 2);
    var q := Pick(p, 3);
    assert q == if p == 1023 then 1022 else Pick(high - 4, 3);
    BootStep(start, high - 1, 0, 4);
    BootStep(start, high - 2, 1, 3);
    BootStep(start, high - 3, 2, 2);
    BootStep(start, p, 3, 1);
    BootStep(start, q, 4, 0);
    hide Pick, BootTables;
  }

  lemma BootStep(start: int, top: int, k: int, n: int)
    ensures BootTables(start, top, k, n) ==
      if n <= 0 || Pick(top, k) < start then [] else [Pick(top, k)] + BootTables(start, Pick(top, k), k + 1, n - 1)
  {
    hide Pick;
  }

  lemma EnoughMemory(high: int)
    requires 261 <= high <= FRAMES
    ensures var plan := BootPlan(StartFor(high), high);
      |plan| == FORK_FRAMES && (AnyInWindow(plan) <==> Crowded(high))
  {
    FiveFrames(high);
    Picks(high);
    var p := Pick(high - 3, 2);
    var q := Pick(p, 3);
    assert q == if p == 1023 then 1022 else Pick(high - 4, 3);
    hide Pick, BootPlan, InWindow;
    AnyOfFive(high - 1, high - 2, high - 3, p, q);
    WindowIs(high - 1);
    WindowIs(high - 2);
    WindowIs(high - 3);
    WindowIs(p);
    WindowIs(q);
  }

  lemma AnyOfFive(a: int, b: int, c: int, d: int, e: int)
    ensures AnyInWindow([a, b, c, d, e]) <==> InWindow(a) || InWindow(b) || InWindow(c) || InWindow(d) || InWindow(e)
  {
    var fs := [a, b, c, d, e];
    hide InWindow;
    assert a in fs && b in fs && c in fs && d in fs && e in fs;
  }

  lemma TooLittleMemory(high: int)
    requires LOW_FRAMES <= high < 261
    ensures |BootPlan(StartFor(high), high)| < FORK_FRAMES
  {
    var start := LOW_FRAMES;
    BootStep(start, high - 1, 0, 4);
    BootStep(start, high - 2, 1, 3);
    BootStep(start, high - 3, 2, 2);
    BootStep(start, high - 4, 3, 1);
    hide BootTables;
  }

  /** Memory as `main` divides it, for what the BIOS reports. */
  ghost predicate Sized(s: State, extMemK: int) {
    && 0 <= extMemK < 0x10000
    && s.high == MemoryEnd(extMemK) / 4096 && s.start == BufferEnd(MemoryEnd(extMemK)) / 4096
  }

  lemma MemoryFrames(s: State, extMemK: int)
    requires Sized(s, extMemK)
    ensures LOW_FRAMES <= s.high <= FRAMES && s.start == StartFor(s.high)
  {
  }

  /** For every size of memory that the BIOS can report: the first fork needs five frames above 1 MB, and
      leaves private memories unless memory ends in or just above a window. */
  lemma FirstForkByMemory(s: State, extMemK: int, nr: int, pcb: seq<int>, dirs: int)
    requires Booted(s) && CanFork(s, 0, nr, pcb, dirs) && Sized(s, extMemK)
    ensures var (s', ok) := Fork(s, 0, nr, pcb, dirs);
      && Inv(s') && (ok <==> s.high >= 261) && (ok ==> (Private(s') <==> !Crowded(s.high)))
  {
    hide Fork, Private, BootPlan, Booted, CanFork, Inv, Sized, StartFor, Crowded, AnyInWindow;
    MemoryFrames(s, extMemK);
    FirstForkIff(s, nr, pcb, dirs);
    if s.high >= 261 {
      EnoughMemory(s.high);
    } else {
      TooLittleMemory(s.high);
    }
  }

  /** With 16 MB or more, as in the design, memories are private. */
  lemma FullMemory(s: State, extMemK: int)
    requires Sized(s, extMemK) && 15 * 1024 <= extMemK
    ensures s.high == FRAMES && !Crowded(s.high)
  {
  }

  /** With 4 MB and 12 KB they are not. */
  lemma CrowdedMemory(s: State, nr: int, pcb: seq<int>, dirs: int)
    requires Booted(s) && CanFork(s, 0, nr, pcb, dirs) && Sized(s, 3084)
    ensures var (s', ok) := Fork(s, 0, nr, pcb, dirs);
      ok && Inv(s') && !Private(s')
    ensures s.start == 256 && s.high == 1027
  {
    assert s.high == 1027 && s.start == 256;
    hide Fork, Private, Booted, CanFork, Inv;
    FirstForkByMemory(s, 3084, nr, pcb, dirs);
  }
}
