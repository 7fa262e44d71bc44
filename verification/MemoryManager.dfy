/** The paging code as it runs: loops that update `mem_map`, the page directory and the page tables
    in place.  Each method is proved equal to the function of module PageTables it stands for. */
module MemoryManager {
  import opened Kernel
  import opened PageTables
  import opened Conservation
  import opened Sharing
  import opened Release
  import opened Forking
  import opened Boot
  import opened FirstFork
  import opened Runs
  import opened LinearAddresses
  import opened Kept

  predicate IsSealed(s: State, f: int) {
    s.high <= f && LOW_FRAMES <= f && Count(s, f) == 0
  }

  /** What asking for a page does first: free frames at or above HIGH_MEMORY are marked and cleared. */
  function Sealed(s: State): State {
    s.(memMap := seq(|s.memMap|, k requires 0 <= k < |s.memMap| => if IsSealed(s, LOW_FRAMES + k) then 1 else s.memMap[k]),
      ram := seq(|s.ram|, f requires 0 <= f < |s.ram| => if IsSealed(s, f) && f < LOW_FRAMES + |s.memMap| then Zeros() else s.ram[f]))
  }

  class Memory {
    const memMap: array<int>
    const ram: array<seq<int>>     // one element a frame
    const task: array<int>
    var mainStart: int             // the start_mem that mem_init was given
    var highMemory: int

    ghost predicate Valid()
      reads this, memMap, ram, task
    {
      && memMap != task
      && memMap.Length == PAGING_PAGES && ram.Length == FRAMES && task.Length == NR_TASKS
      && mainStart % PAGE_SIZE == 0 && highMemory % PAGE_SIZE == 0
      && forall f :: 0 <= f < FRAMES ==> |ram[f]| == ENTRIES
    }

    /** The machine at power-on: memory, and no tables yet. */
    constructor ()
      ensures Valid() && fresh(memMap) && fresh(ram) && fresh(task)
    {
      memMap := new int[PAGING_PAGES](_ => 0);
      ram := new seq<int>[FRAMES](_ => Zeros());
      task := new int[NR_TASKS](_ => 0);
      mainStart, highMemory := LOW_MEM, LOW_MEM;
    }

    /** The machine state, as a value. */
    ghost function Abs(): State
      reads this, memMap, ram, task
    {
      State(memMap[..], ram[..], task[..], mainStart / PAGE_SIZE, highMemory / PAGE_SIZE)
    }

    // ---------- memory accesses ----------

    method Load(f: int, w: int) returns (v: int)
      requires Valid()
      ensures v == Peek(Abs(), f, w)
    {
      v := if 0 <= f < ram.Length && 0 <= w < ENTRIES then ram[f][w] else 0;
    }

    method Save(f: int, w: int, v: int)
      requires Valid()
      modifies ram
      ensures Valid() && Abs() == Poke(old(Abs()), f, w, v)
    {
      if 0 <= f < ram.Length && 0 <= w < ENTRIES {
        ram[f] := ram[f][w := v];
        assert ram[..] == old(ram[..])[f := old(ram[f])[w := v]];
      }
    }

    method SavePage(f: int, words: seq<int>)
      requires Valid() && (0 <= f < FRAMES ==> |words| == ENTRIES)
      modifies ram
      ensures Valid() && Abs() == SetPage(old(Abs()), f, words)
    {
      if 0 <= f < ram.Length {
        ram[f] := words;
        assert ram[..] == old(ram[..])[f := words];
      }
    }

    // ---------- kernel/head.S, mem_init, sched_init ----------

    /** `setup_paging`: five pages are cleared, four directory entries set, and the tables filled from
        the last entry of the last table downwards. */
    method SetupPaging()
      requires Valid()
      modifies ram
      ensures Valid()
      ensures forall d :: 0 <= d < ENTRIES ==> Dir(Abs(), d) == if d < DATA_DIRS then UserEntry(d + 1) else 0
      ensures forall f, i :: 1 <= f <= DATA_DIRS && 0 <= i < ENTRIES ==> Peek(Abs(), f, i) == UserEntry(ENTRIES * (f - 1) + i)
    {
      ram[0], ram[1], ram[2], ram[3], ram[4] := Zeros(), Zeros(), Zeros(), Zeros(), Zeros();
      ram[0] := ram[0][0 := 0x1007][1 := 0x2007][2 := 0x3007][3 := 0x4007];
      ghost var directory := ram[0];
      var edi := 5 * ENTRIES - 1;
      var eax := 0xfff007;
      while eax >= 0
        invariant ENTRIES - 1 <= edi <= 5 * ENTRIES - 1 && eax == 4096 * (edi - ENTRIES) + 7
        invariant Valid() && ram[0] == directory
        invariant forall f, i :: 1 <= f <= DATA_DIRS && 0 <= i < ENTRIES && edi < ENTRIES * f + i ==> ram[f][i] == UserEntry(ENTRIES * (f - 1) + i)
      {
        ram[edi / ENTRIES] := ram[edi / ENTRIES][edi % ENTRIES := eax];
        edi, eax := edi - 1, eax - 0x1000;
      }
    }

    /** `mem_init`: everything is marked used, then main memory is freed. */
    method MemInit(startMem: int, endMem: int)
      requires Valid() && LOW_MEM <= startMem <= endMem <= FRAMES * PAGE_SIZE
      requires startMem % PAGE_SIZE == 0 && endMem % PAGE_SIZE == 0
      modifies this, memMap
      ensures Valid() && mainStart == startMem && highMemory == endMem
      ensures forall k :: 0 <= k < PAGING_PAGES ==> memMap[k] == if startMem <= LOW_MEM + k * PAGE_SIZE < endMem then 0 else USED
    {
      mainStart, highMemory := startMem, endMem;
      var i := 0;
      while i < PAGING_PAGES
        modifies memMap
        invariant 0 <= i <= PAGING_PAGES
        invariant forall k :: 0 <= k < i ==> memMap[k] == USED
      {
        memMap[i] := USED;
        i := i + 1;
      }
      i := (startMem - LOW_MEM) / PAGE_SIZE;
      var n := (endMem - startMem) / PAGE_SIZE;
      while n != 0
        modifies memMap
        invariant 0 <= n && i + n == (endMem - LOW_MEM) / PAGE_SIZE && (startMem - LOW_MEM) / PAGE_SIZE <= i
        invariant forall k :: 0 <= k < PAGING_PAGES ==> memMap[k] == if (startMem - LOW_MEM) / PAGE_SIZE <= k < i then 0 else USED
      {
        memMap[i] := 0;
        n, i := n - 1, i + 1;
      }
    }

    /** The part of `main` that concerns memory, after `setup_paging` and up to the first fork. */
    method StartKernel(extMemK: int)
      requires Valid() && 0 <= extMemK < 0x10000
      modifies this, memMap, ram, task
      ensures Valid() && Booted(Abs()) && Sized(Abs(), extMemK)
    {
      SetupPaging();
      MemorySplit(extMemK);
      var memoryEnd := 0x100000 + 1024 * extMemK;
      memoryEnd := memoryEnd / 4096 * 4096;
      if memoryEnd > 16 * 0x100000 {
        memoryEnd := 16 * 0x100000;
      }
      var bufferMemoryEnd;
      if memoryEnd > 12 * 0x100000 {
        bufferMemoryEnd := 4 * 0x100000;
      } else if memoryEnd > 6 * 0x100000 {
        bufferMemoryEnd := 2 * 0x100000;
      } else {
        bufferMemoryEnd := 0x100000;
      }
      var mainMemoryStart := bufferMemoryEnd;
      assert memoryEnd == MemoryEnd(extMemK) && mainMemoryStart == BufferEnd(memoryEnd);
      ghost var paged := Abs();
      MemInit(mainMemoryStart, memoryEnd);
      ghost var freed := memMap[..];
      var i := 1;
      while i < NR_TASKS
        modifies task
        invariant 1 <= i <= NR_TASKS && Valid() && memMap[..] == freed && ram[..] == paged.ram
        invariant forall t :: 1 <= t < i ==> task[t] == 0
      {
        task[i] := 0;
        i := i + 1;
      }
      assert forall f, w :: Peek(Abs(), f, w) == Peek(paged, f, w);
      assert forall d :: Dir(Abs(), d) == Dir(paged, d);
    }

    // ---------- mm/swap.c ----------

    /** The scan runs down from the last byte; the found frame is marked and zeroed.  One at or above
        HIGH_MEMORY stays marked, and the scan is made again. */
    method GetFreePage() returns (res: int)
      requires Valid()
      modifies memMap, ram
      ensures Valid()
      ensures res == FreeFrame(Sealed(old(Abs()))) * PAGE_SIZE
      ensures res < highMemory || res == 0
      ensures Abs() == if res == 0 then Sealed(old(Abs())) else Allocate(Sealed(old(Abs())), res / PAGE_SIZE)
    {
      while true
        invariant Valid() && Sealed(Abs()) == Sealed(old(Abs()))
        decreases FreeFrame(Abs())
      {
        ghost var before := Abs();
        res := ScanDown();
        SealStep(before);
        if res < highMemory || res == 0 {
          break;
        }
      }
    }

    /** One scan. */
    method ScanDown() returns (res: int)
      requires Valid()
      modifies memMap, ram
      ensures Valid() && res == FreeFrame(old(Abs())) * PAGE_SIZE
      ensures Abs() == if res == 0 then old(Abs()) else Allocate(old(Abs()), res / PAGE_SIZE)
    {
      var ecx := PAGING_PAGES;
      while ecx > 0 && memMap[ecx - 1] != 0
        invariant 0 <= ecx <= PAGING_PAGES
        invariant HighestZero(memMap[..], PAGING_PAGES) == HighestZero(memMap[..], ecx)
      {
        ecx := ecx - 1;
      }
      if ecx == 0 {
        return 0;
      }
      ecx := ecx - 1;
      memMap[ecx] := 1;
      res := ecx * PAGE_SIZE + LOW_MEM;
      assert memMap[..] == old(memMap[..])[ecx := 1];
      SavePage(res / PAGE_SIZE, Zeros());
    }

    // ---------- free_page, free_page_tables ----------

    method FreeFrameAt(addr: int)
      requires Valid()
      modifies memMap
      ensures Valid() && Abs() == FreePage(old(Abs()), addr / PAGE_SIZE)
    {
      if addr < LOW_MEM {
        return;
      }
      var k := (addr - LOW_MEM) / PAGE_SIZE;
      if k < memMap.Length {
        var was := memMap[k];
        memMap[k] := (was - 1) % 256;
        if was != 0 {
          assert memMap[..] == old(memMap[..])[k := (was - 1) % 256];
          return;
        }
        memMap[k] := 0;
        assert memMap[..] == old(memMap[..])[k := 0];
      }
    }

    method FreePageTables(from: int, size: int)
      requires Valid() && 0 <= from && 0 <= size
      modifies memMap, ram
      ensures Valid()
      ensures Abs() == DropTables(old(Abs()), from / TABLE_SPAN, DirsFor(size))
    {
      var n := (size + TABLE_SPAN - 1) / TABLE_SPAN;
      var dir := from / TABLE_SPAN;
      while n > 0
        invariant Valid() && n >= 0
        invariant DropTables(Abs(), dir, n) == DropTables(old(Abs()), from / TABLE_SPAN, DirsFor(size))
      {
        var e := Load(0, dir);
        if Present(e) {
          FreeTable(dir, FrameOf(e));
        }
        n, dir := n - 1, dir + 1;
      }
    }

    /** One directory entry of `free_page_tables`: its 1024 entries, its frame, the entry itself. */
    method FreeTable(dir: int, pgTable: int)
      requires Valid() && pgTable == Table(Abs(), dir)
      modifies memMap, ram
      ensures Valid() && Abs() == DropTable(old(Abs()), dir)
    {
      var nr := 0;
      while nr < ENTRIES
        invariant Valid() && 0 <= nr <= ENTRIES
        invariant DropEntries(Abs(), pgTable, nr) == DropEntries(old(Abs()), pgTable, 0)
      {
        DropEntriesOnce(Abs(), pgTable, nr);
        hide DropEntries;
        FreeEntry(pgTable, nr);
        nr := nr + 1;
      }
      var e := Load(0, dir);
      FreeFrameAt(FrameOf(e) * PAGE_SIZE);
      Save(0, dir, 0);
    }

    method FreeEntry(pgTable: int, nr: int)
      requires Valid()
      modifies memMap, ram
      ensures Valid() && Abs() == DropEntry(old(Abs()), pgTable, nr)
    {
      hide Present, FrameOf;
      var e := Load(pgTable, nr);
      if e != 0 {
        if Present(e) {
          FreeFrameAt(FrameOf(e) * PAGE_SIZE);
        }
        Save(pgTable, nr, 0);
      }
    }

    // ---------- copy_page_tables ----------

    /** The inner loop: share the first `limit` entries of one table with another. */
    method ShareTable(fromTable: int, toTable: int, limit: int)
      requires Valid()
      modifies memMap, ram
      ensures Valid() && Abs() == ShareEntries(old(Abs()), fromTable, toTable, 0, limit)
    {
      var i := 0;
      while i < limit
        invariant Valid()
        invariant ShareEntries(Abs(), fromTable, toTable, i, limit) == ShareEntries(old(Abs()), fromTable, toTable, 0, limit)
      {
        ShareOne(fromTable, toTable, i);
        i := i + 1;
      }
    }

    method ShareOne(fromTable: int, toTable: int, i: int)
      requires Valid()
      modifies memMap, ram
      ensures Valid() && Abs() == ShareEntry(old(Abs()), fromTable, toTable, i)
    {
      var thisPage := Load(fromTable, i);
      if !Present(thisPage) {
        return;
      }
      thisPage := WriteProtect(thisPage);
      Save(toTable, i, thisPage);
      if FrameOf(thisPage) >= LOW_FRAMES {
        Save(fromTable, i, thisPage);
        var k := FrameOf(thisPage) - LOW_FRAMES;
        if k < memMap.Length {
          memMap[k] := (memMap[k] + 1) % 256;
        }
      }
    }

    /** One round of the outer loop; false when there was no frame for the new table. */
    method CopyOneTable(fromDir: int, toDir: int, limit: int) returns (ok: bool)
      requires Valid() && Inv(Abs())
      modifies memMap, ram
      ensures Valid()
      ensures ok == (!HasTable(old(Abs()), fromDir) || FreeFrame(old(Abs())) != 0)
      ensures Abs() == if ok then NextCopy(old(Abs()), fromDir, toDir, limit) else old(Abs())
    {
      var e := Load(0, fromDir);
      if !Present(e) {
        return true;
      }
      NoneFreeAbove(Abs());
      hide Inv;
      var toTable := GetFreePage();
      if toTable == 0 {
        return false;
      }
      Save(0, toDir, UserEntry(toTable / PAGE_SIZE));
      ShareTable(FrameOf(e), toTable / PAGE_SIZE, limit);
      return true;
    }

    /** The same, for entry k of the windows of two tasks. */
    method CopyEntry(fromDir: int, toDir: int, limit: int, ghost parent: int, ghost child: int, ghost k: int, ghost n: int)
      returns (ok: bool)
      requires Valid() && Copying(Abs(), parent, child) && NoTablesFrom(Abs(), child, k)
      requires fromDir == TASK_DIRS * parent + k && toDir == TASK_DIRS * child + k
      requires 0 <= k < DATA_DIRS && limit <= ENTRIES && 0 < n
      modifies memMap, ram
      ensures Valid() && Copying(Abs(), parent, child)
      ensures ok ==> NoTablesFrom(Abs(), child, k + 1)
      ensures CopyTables(old(Abs()), fromDir, toDir, n, limit) ==
        if ok then CopyTables(Abs(), fromDir + 1, toDir + 1, n - 1, limit) else (Abs(), false)
    {
      hide *;
      ghost var s := Abs();
      CopyingMeans(s, parent, child);
      CopyTablesOnce(s, fromDir, toDir, n, limit);
      ok := CopyOneTable(fromDir, toDir, limit);
      if ok {
        NextTableKeeps(s, parent, child, k, limit);
      }
    }

    method CopyDirectories(from: int, to: int, size: int, limit: int, ghost parent: int, ghost child: int) returns (ok: bool)
      requires Valid() && Copying(Abs(), parent, child) && NoTablesFrom(Abs(), child, 0)
      requires from == TASK_DIRS * parent && to == TASK_DIRS * child
      requires size <= DATA_DIRS && limit <= ENTRIES
      modifies memMap, ram
      ensures Valid()
      ensures (Abs(), ok) == CopyTables(old(Abs()), from, to, size, limit)
    {
      var n, fromDir, toDir := size, from, to;
      ghost var k := 0;
      hide *;
      while n > 0
        invariant Valid() && 0 <= k && k + n == size
        invariant fromDir == TASK_DIRS * parent + k && toDir == TASK_DIRS * child + k
        invariant Copying(Abs(), parent, child) && NoTablesFrom(Abs(), child, k)
        invariant CopyTables(Abs(), fromDir, toDir, n, limit) == CopyTables(old(Abs()), from, to, size, limit)
      {
        var more := CopyEntry(fromDir, toDir, limit, parent, child, k, n);
        if !more {
          return false;
        }
        n, k, fromDir, toDir := n - 1, k + 1, fromDir + 1, toDir + 1;
      }
      CopyNoTables(Abs(), fromDir, toDir, n, limit);
      return true;
    }

    /** Copies the tables of one task for another; -1 when a frame ran out.  The first 160 entries of
        each table are copied for task 0, all 1024 for the others. */
    method CopyPageTables(from: int, to: int, size: int) returns (err: int)
      requires Valid() && 0 <= size <= DATA_LIMIT
      requires from % TASK_SIZE == 0 && to % TASK_SIZE == 0
      requires Copying(Abs(), from / TASK_SIZE, to / TASK_SIZE) && NoTablesFrom(Abs(), to / TASK_SIZE, 0)
      modifies memMap, ram
      ensures Valid() && (err == 0 || err == -1)
      ensures (Abs(), err == 0) ==
        CopyTables(old(Abs()), from / TABLE_SPAN, to / TABLE_SPAN, DirsFor(size), EntryLimit(from / TASK_SIZE))
    {
      Directories(from, size);
      Directories(to, size);
      hide Copying, NoTablesFrom, CopyTables, Memory.Abs, Memory.Valid;
      var ok := CopyDirectories(from / TABLE_SPAN, to / TABLE_SPAN, (size + TABLE_SPAN - 1) / TABLE_SPAN,
        if from == 0 then KERNEL_ENTRIES else ENTRIES, from / TASK_SIZE, to / TASK_SIZE);
      err := if ok then 0 else -1;
    }

    // ---------- write faults ----------

    /** The page goes on where it is when nobody shares it, and is copied otherwise. */
    method UnWpPage(table: int, i: int)
      requires Valid() && 0 <= FrameOf(Peek(Abs(), table, i)) < FRAMES && Sealed(Abs()) == Abs()
      modifies memMap, ram
      ensures Valid() && Abs() == UnWriteProtect(old(Abs()), table, i)
    {
      hide Present, Writable, UserBit, FreeFrame, Peek, FrameOf;
      var e := Load(table, i);
      var oldPage := FrameOf(e);
      if oldPage >= LOW_FRAMES && memMap[oldPage - LOW_FRAMES] == 1 {
        Save(table, i, WriteEnable(e));
        return;
      }
      hide UserEntry, WriteEnable, SoleUser, Zeros, UserBit;
      var newPage := GetFreePage();
      Release(oldPage);
      SavePage(newPage / PAGE_SIZE, ram[oldPage]);
      Save(table, i, UserEntry(newPage / PAGE_SIZE));
    }

    /** `mem_map[MAP_NR(old_page)]--` for a page above LOW_MEM. */
    method Release(oldPage: int)
      requires Valid() && 0 <= oldPage < FRAMES
      modifies memMap
      ensures Valid()
      ensures Abs() ==
        if oldPage >= LOW_FRAMES then SetCount(old(Abs()), oldPage, Count(old(Abs()), oldPage) - 1) else old(Abs())
    {
      if oldPage >= LOW_FRAMES {
        var k := oldPage - LOW_FRAMES;
        memMap[k] := (memMap[k] - 1) % 256;
        assert memMap[..] == old(memMap[..])[k := (old(memMap[k]) - 1) % 256];
      }
    }

    /** A write to a page that is present but read-only, at any linear address: below TASK_SIZE the source
        warns, and goes on all the same. */
    method DoWpPage(address: int)
      requires Valid() && Inv(Abs()) && Mapped(Abs(), address / TABLE_SPAN, address / PAGE_SIZE % ENTRIES)
      modifies memMap, ram
      ensures Valid()
      ensures var d, i := address / TABLE_SPAN, address / PAGE_SIZE % ENTRIES;
        Abs() == UnWriteProtect(old(Abs()), Table(old(Abs()), d), i)
    {
      var d, i := address / TABLE_SPAN, address / PAGE_SIZE % ENTRIES;
      MappedFrame(Abs(), d, i);
      NoneFreeAbove(Abs());
      hide Inv, Mapped;
      var e := Load(0, d);
      UnWpPage(FrameOf(e), i);
    }

    /** A store to a linear address: the hardware tries it, and once more after the fault. */
    method StoreWord(address: int, v: int)
      requires Valid() && Inv(Abs()) && 0 <= address < NR_TASKS * TASK_SIZE
      modifies memMap, ram
      ensures Valid() && Abs() == StoreAt(old(Abs()), address, v)
    {
      var d, i, w := address / TABLE_SPAN, address / PAGE_SIZE % ENTRIES, address % PAGE_SIZE / 4;
      AddressParts(address);
      SlotAt(address);
      hide Inv, DirOf, SlotOf, UnWriteProtect, Owner, PageIn;
      var table := Load(0, d);
      var e := Load(FrameOf(table), i);
      if !Present(table) || !Present(e) {
        return;
      }
      if !Writable(e) {
        DoWpPage(address);
        table := Load(0, d);
        e := Load(FrameOf(table), i);
        if !Present(table) || !Present(e) || !Writable(e) {
          return;
        }
      }
      Save(FrameOf(e), w, v);
    }

    /** A write by a task to its own memory. */
    method UserWrite(t: int, p: int, w: int, v: int)
      requires Valid() && Inv(Abs()) && Attempt(Abs(), Writes(t, p, w, v))
      modifies memMap, ram
      ensures Valid() && Abs() == Step(old(Abs()), Writes(t, p, w, v))
    {
      AddressSplits(t, p, w);
      hide Inv, WriteWord;
      StoreWord(t * TASK_SIZE + p * PAGE_SIZE + 4 * w, v);
    }

    // ---------- kernel/fork.c ----------

    /** The child gets the parent's tables at its own base, or nothing at all. */
    method CopyMem(parent: int, nr: int) returns (err: int)
      requires Valid() && Copying(Abs(), parent, nr) && NoTablesFrom(Abs(), nr, 0)
      modifies memMap, ram
      ensures Valid() && (err == 0 || err == -ENOMEM)
      ensures var (copied, ok) :=
          CopyTables(old(Abs()), TASK_DIRS * parent, TASK_DIRS * nr, DirsFor(DATA_LIMIT), EntryLimit(parent));
        && (err == 0) == ok
        && Abs() == if ok then copied else DropTables(copied, TASK_DIRS * nr, DirsFor(DATA_LIMIT))
    {
      var oldBase, newBase := parent * TASK_SIZE, nr * TASK_SIZE;
      TaskBases(parent);
      TaskBases(nr);
      CopyingTasks(Abs(), parent, nr);
      assert 0 <= DATA_LIMIT && 0 <= newBase;
      hide *;
      err := CopyPageTables(oldBase, newBase, DATA_LIMIT);
      if err != 0 {
        FreePageTables(newBase, DATA_LIMIT);
        err := -ENOMEM;
      }
    }

    /** A new task in slot nr, its structure holding `pcb`; -EAGAIN, and nothing taken, when there is
        not enough memory. */
    method CopyProcess(parent: int, nr: int, pcb: seq<int>, lastPid: int) returns (res: int)
      requires Valid() && Inv(Abs()) && 0 < lastPid
      requires CanFork(Abs(), parent, nr, pcb, DirsFor(DATA_LIMIT))
      modifies memMap, ram, task
      ensures Valid() && (res == lastPid || res == -EAGAIN)
      ensures (Abs(), res == lastPid) == Fork(old(Abs()), parent, nr, pcb, DirsFor(DATA_LIMIT))
      ensures Keeps(old(Abs()), Abs()) && (res == lastPid ==> HoldsStructure(Abs(), nr, pcb))
    {
      ForkKept(Abs(), parent, nr, pcb, DirsFor(DATA_LIMIT));
      hide Inv, CanFork, Fork, Copying, NoTablesFrom, CopyTables, AddTask, FreeFrame, DropTables, FreePage, DropTask, Keeps, HoldsStructure;
      ghost var s := Abs();
      ForkStarts(s, parent, nr, pcb);
      var p := StartTask(nr, pcb);
      if p == 0 {
        return -EAGAIN;
      }
      var err := CopyMem(parent, nr);
      if err != 0 {
        EndTask(nr, p);
        return -EAGAIN;
      }
      return lastPid;
    }

    /** A frame for the structure, if there is one, in the task table. */
    method StartTask(nr: int, pcb: seq<int>) returns (p: int)
      requires Valid() && Inv(Abs()) && 0 <= nr < NR_TASKS && |pcb| == ENTRIES
      modifies memMap, ram, task
      ensures Valid() && p == FreeFrame(old(Abs())) * PAGE_SIZE
      ensures Abs() == if p == 0 then old(Abs()) else AddTask(old(Abs()), nr, FreeFrame(old(Abs())), pcb)
    {
      NoneFreeAbove(Abs());
      ghost var s := Abs();
      p := GetFreePage();
      if p != 0 {
        var f := p / PAGE_SIZE;
        task[nr] := f;
        assert task[..] == s.task[nr := f];
        SavePage(f, pcb);
      }
    }

    method EndTask(nr: int, p: int)
      requires Valid() && 0 <= nr < NR_TASKS && p == TaskFrame(Abs(), nr) * PAGE_SIZE
      modifies memMap, task
      ensures Valid() && Abs() == DropTask(old(Abs()), nr)
    {
      ghost var s := Abs();
      task[nr] := 0;
      assert task[..] == s.task[nr := 0];
      FreeFrameAt(p);
    }
  }

  /** A machine of every size gets to the state in which task 0 forks. */
  method PowerOn(extMemK: int) returns (m: Memory)
    requires 0 <= extMemK < 0x10000
    ensures fresh(m) && m.Valid() && Booted(m.Abs()) && Sized(m.Abs(), extMemK)
  {
    m := new Memory();
    m.StartKernel(extMemK);
  }

  /** What `copy_process` does, and that its parts are ready for each other. */
  lemma ForkStarts(s: State, parent: int, nr: int, pcb: seq<int>)
    requires Inv(s) && CanFork(s, parent, nr, pcb, DirsFor(DATA_LIMIT))
    ensures 0 <= nr < NR_TASKS && |pcb| == ENTRIES
    ensures FreeFrame(s) == 0 ==> Fork(s, parent, nr, pcb, DirsFor(DATA_LIMIT)) == (s, false)
    ensures FreeFrame(s) != 0 ==>
      var dirs := DirsFor(DATA_LIMIT);
      var started := AddTask(s, nr, FreeFrame(s), pcb);
      var (copied, ok) := CopyTables(started, TASK_DIRS * parent, TASK_DIRS * nr, dirs, EntryLimit(parent));
      var dropped := DropTables(copied, TASK_DIRS * nr, dirs);
      && Copying(started, parent, nr) && NoTablesFrom(started, nr, 0)
      && TaskFrame(dropped, nr) == FreeFrame(s)
      && Fork(s, parent, nr, pcb, dirs) == if ok then (copied, true) else (DropTask(dropped, nr), false)
  {
    var dirs := DirsFor(DATA_LIMIT);
    if FreeFrame(s) != 0 {
      AddTaskStarts(s, parent, nr, pcb, dirs);
      CopiedKeeps(s, parent, nr, pcb, dirs);
      assert |s.task| == NR_TASKS;
      var copied := Copied(s, parent, nr, pcb, dirs).0;
      DropTablesKeeps(copied, TASK_DIRS * nr, dirs);
      hide Inv, FreeFrame, AddTask, CopyTables, DropTables, DropTask, NoTablesFrom, Outside, Mirror, EntryLimit;
    }
  }

  lemma Directories(base: int, size: int)
    requires base % TASK_SIZE == 0 && 0 <= size <= DATA_LIMIT
    ensures base / TABLE_SPAN == TASK_DIRS * (base / TASK_SIZE)
    ensures (size + TABLE_SPAN - 1) / TABLE_SPAN == DirsFor(size) && 0 <= DirsFor(size) <= DATA_DIRS
    ensures EntryLimit(base / TASK_SIZE) == (if base == 0 then KERNEL_ENTRIES else ENTRIES) <= ENTRIES
  {
  }

  lemma CopyNoTables(s: State, from: int, to: int, n: int, limit: int)
    requires n <= 0
    ensures CopyTables(s, from, to, n, limit) == (s, true)
  {
  }

  lemma TaskBases(t: int)
    ensures t * TASK_SIZE % TASK_SIZE == 0 && t * TASK_SIZE / TASK_SIZE == t && t * TASK_SIZE / TABLE_SPAN == TASK_DIRS * t
  {
  }

  lemma CopyingTasks(s: State, parent: int, child: int)
    requires Copying(s, parent, child)
    ensures 0 <= parent && 1 <= child
  {
  }

  lemma MappedFrame(s: State, d: int, i: int)
    requires Inv(s) && Mapped(s, d, i)
    ensures 0 <= FrameOf(Peek(s, Table(s, d), i)) < FRAMES
  {
    assert Maps(s, d, i, FrameOf(Entry(s, d, i)));
  }

  lemma DropEntriesOnce(s: State, t: int, i: int)
    requires i < ENTRIES
    ensures DropEntries(s, t, i) == DropEntries(DropEntry(s, t, i), t, i + 1)
  {
    hide DropEntry;
  }

  lemma SlotAt(address: int)
    requires 0 <= address < NR_TASKS * TASK_SIZE
    ensures IsSlot(address / TABLE_SPAN, address / PAGE_SIZE % ENTRIES)
  {
  }

  lemma CopyingMeans(s: State, parent: int, child: int)
    requires Copying(s, parent, child)
    ensures Inv(s)
  {
  }

  /** In every state the kernel reaches, no frame above HIGH_MEMORY is free. */
  lemma NoneFreeAbove(s: State)
    requires Inv(s)
    ensures Sealed(s) == s
  {
    forall f | LOW_FRAMES <= f < FRAMES && s.high <= f ensures Count(s, f) != 0 {
      assert Count(s, f) == References(s, f);
    }
    hide Inv;
    assert Sealed(s).memMap == s.memMap;
    assert Sealed(s).ram == s.ram;
  }

  /** A scan that finds a frame above HIGH_MEMORY does part of the sealing; one that does not had nothing
      to seal. */
  lemma SealStep(s: State)
    requires |s.memMap| == PAGING_PAGES && |s.ram| == FRAMES
    ensures var f := FreeFrame(s);
      if f == 0 || f < s.high then Sealed(s) == s
      else Sealed(Allocate(s, f)) == Sealed(s) && 0 <= FreeFrame(Allocate(s, f)) < f
  {
    var f := FreeFrame(s);
    var k := HighestZero(s.memMap, |s.memMap|);
    assert forall g :: f < g && LOW_FRAMES <= g < FRAMES ==> Count(s, g) != 0 by {
      forall g | f < g && LOW_FRAMES <= g < FRAMES ensures Count(s, g) != 0 {
        assert s.memMap[g - LOW_FRAMES] != 0;
      }
    }
    if f == 0 || f < s.high {
      assert Sealed(s).memMap == s.memMap;
      assert Sealed(s).ram == s.ram;
    } else {
      var a := Allocate(s, f);
      assert Count(s, f) == 0 && a.memMap == s.memMap[k := 1];
      assert forall g :: IsSealed(a, g) <==> IsSealed(s, g) && g != f;
      assert Sealed(a).memMap == Sealed(s).memMap;
      assert Sealed(a).ram == Sealed(s).ram;
      var h := HighestZero(a.memMap, |a.memMap|);
      assert h >= 0 ==> a.memMap[h] == 0;
    }
  }

  /** (size + 0x3fffff) >> 22 */
  function DirsFor(size: int): int {
    (size + TABLE_SPAN - 1) / TABLE_SPAN
  }
}
