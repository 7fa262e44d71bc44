/** The boot code carried out in memory: from a disk that holds an image to the system at address 0. */
module Bootstrap {
  import opened Kernel
  import opened Image
  import opened Loader

  const SEGMENT := 0x10000
  const SETUP_AT := 16 * SETUPSEG
  const SYSTEM_AT := (1 + SETUP_SECTS) * SECTOR      // on disk
  const DISK_READ := SYSTEM_AT + LOADED

  /** mem with data at address `at`. */
  function Put(mem: seq<byte>, at: int, data: seq<byte>): seq<byte>
    requires 0 <= at <= at + |data| <= |mem|
  {
    mem[..at] + data + mem[at + |data|..]
  }

  /** What a transfer brings. */
  function Data(disk: seq<byte>, t: Transfer, sectors: int): seq<byte>
    requires OnDisk(disk, t, sectors)
  {
    disk[SECTOR * FirstSector(t, sectors)..][..SECTOR * t.count]
  }

  predicate OnDisk(disk: seq<byte>, t: Transfer, sectors: int) {
    0 <= FirstSector(t, sectors) && 0 <= t.count && SECTOR * FirstSector(t, sectors) + SECTOR * t.count <= |disk|
  }

  /** Memory from SYSSEG up to the address is the disk behind setup. */
  predicate LoadedTo(mem: seq<byte>, disk: seq<byte>, address: int) {
    && SEGMENT <= address <= SEGMENT + LOADED <= |mem| && DISK_READ <= |disk|
    && mem[SEGMENT..address] == disk[SYSTEM_AT..][..address - SEGMENT]
  }

  lemma LoadMore(mem: seq<byte>, disk: seq<byte>, t: Transfer, sectors: int)
    requires LoadedTo(mem, disk, t.address) && OnDisk(disk, t, sectors)
    requires t.address + SECTOR * t.count <= SEGMENT + LOADED
    requires SECTOR * FirstSector(t, sectors) == SYSTEM_AT + t.address - SEGMENT
    ensures LoadedTo(Put(mem, t.address, Data(disk, t, sectors)), disk, t.address + SECTOR * t.count)
  {
    hide FirstSector;
    var from, n := t.address, SECTOR * t.count;
    var mem' := Put(mem, from, Data(disk, t, sectors));
    assert mem'[SEGMENT..from + n] == mem[SEGMENT..from] + Data(disk, t, sectors);
  }

  /** The next transfer is legal, and continues both the disk and the memory read so far. */
  lemma TrackReady(c: Cursor, sectors: int, disk: seq<byte>)
    requires Steady(c, sectors) && !Done(c) && DISK_READ <= |disk|
    ensures var t := Next(c, sectors);
      && Legal(t, sectors) && OnDisk(disk, t, sectors)
      && SEGMENT <= t.address && t.address + SECTOR * t.count <= SEGMENT + LOADED <= MEMORY
      && SECTOR * FirstSector(t, sectors) == SYSTEM_AT + t.address - SEGMENT
  {
    NextIsLegal(c, sectors);
    WantedFits(c, sectors);
    AdvanceIsSteady(c, sectors);
    Remaining(Advance(c, sectors), sectors);
    assert FirstSector(Next(c, sectors), sectors) == Sector(c, sectors);
    hide Wanted, Advance, Sector, FirstSector, Legal, Done;
  }

  /** Outside the place where the system is loaded, nothing changes. */
  predicate Beside(mem: seq<byte>, mem': seq<byte>) {
    |mem| == |mem'| == MEMORY && mem'[..SEGMENT] == mem[..SEGMENT] && mem'[SEGMENT + LOADED..] == mem[SEGMENT + LOADED..]
  }

  lemma BesideSelf(mem: seq<byte>)
    requires |mem| == MEMORY
    ensures Beside(mem, mem)
  {
  }

  lemma BesideTrans(a: seq<byte>, b: seq<byte>, c: seq<byte>)
    requires Beside(a, b) && Beside(b, c)
    ensures Beside(a, c)
  {
  }

  lemma BesideLoad(mem: seq<byte>, disk: seq<byte>, t: Transfer, sectors: int)
    requires |mem| == MEMORY && OnDisk(disk, t, sectors) && SEGMENT <= t.address && t.address + SECTOR * t.count <= SEGMENT + LOADED
    ensures Beside(mem, Put(mem, t.address, Data(disk, t, sectors)))
  {
    hide FirstSector;
  }

  lemma AtEnd(c: Cursor, sectors: int)
    requires Steady(c, sectors) && Done(c)
    ensures Address(c) == SEGMENT + LOADED && Transfers(c, sectors) == []
  {
  }

  class Machine {
    const disk: seq<byte>
    const sectors: int
    const memory: array<byte>
    var sread: int
    var head: int
    var track: int
    var es: int
    var bx: int
    ghost var log: seq<Transfer>   // the calls of the disk service so far

    ghost predicate Valid()
    {
      6 <= sectors <= 63 && memory.Length == MEMORY && DISK_READ <= |disk|
    }

    function At(): Cursor
      reads this
    {
      Cursor(sread, head, track, es, bx)
    }

    constructor (disk: seq<byte>, sectors: int, memory: array<byte>)
      requires 6 <= sectors <= 63 && memory.Length == MEMORY && DISK_READ <= |disk|
      ensures Valid() && this.memory == memory && this.disk == disk && this.sectors == sectors
      ensures sread == Start().sread && head == Start().head && track == Start().track
    {
      this.disk, this.sectors, this.memory := disk, sectors, memory;
      sread, head, track := 1 + SETUP_SECTS, 0, 0;
    }

    /** The disk service of the BIOS. */
    method DiskRead(t: Transfer)
      requires Valid() && Legal(t, sectors) && OnDisk(disk, t, sectors) && t.address + SECTOR * t.count <= MEMORY
      modifies memory, this`log
      ensures memory[..] == Put(old(memory[..]), t.address, Data(disk, t, sectors)) && log == old(log) + [t]
    {
      log := log + [t];
      CopyIn(t.address, Data(disk, t, sectors));
    }

    method CopyIn(at: int, data: seq<byte>)
      requires 0 <= at <= at + |data| <= memory.Length
      modifies memory
      ensures memory[..] == Put(old(memory[..]), at, data)
    {
      hide Put;
      ghost var was := memory[..];
      PutNothing(was, at);
      for i := 0 to |data|
        invariant memory[..] == Put(was, at, data[..i])
      {
        ghost var before := memory[..];
        memory[at + i] := data[i];
        assert memory[..] == before[at + i := data[i]];
        PutMore(was, before, memory[..], at, data, i);
      }
      assert data[..|data|] == data;
    }

    /** `load_setup`. */
    method LoadSetup()
      requires Valid()
      modifies memory, this`log
      ensures memory[..] == Put(old(memory[..]), SETUP_AT, disk[SECTOR..SYSTEM_AT])
      ensures log == old(log) + [Transfer(0, 0, 2, 4, 0x90200)] && Legal(Transfer(0, 0, 2, 4, 0x90200), sectors)
    {
      var t := Transfer(0, 0, 2, SETUP_SECTS, SETUP_AT);
      DiskRead(t);
      assert Data(disk, t, sectors) == disk[SECTOR..SYSTEM_AT];
    }

    method ReadTrack(ax: int)
      requires Valid() && Steady(At(), sectors) && !Done(At()) && ax == Wanted(At(), sectors)
      requires LoadedTo(memory[..], disk, Address(At()))
      modifies memory, this`log
      ensures LoadedTo(memory[..], disk, Address(At()) + SECTOR * ax) && log == old(log) + [Next(At(), sectors)]
      ensures Beside(old(memory[..]), memory[..])
    {
      hide Wanted, Advance, Sector, Steady, Done, LoadedTo, Beside, Legal, OnDisk, Data, Put;
      ghost var c := At();
      var t := Transfer(track, head, sread + 1, ax, 16 * es + bx);
      TrackReady(c, sectors, disk);
      DiskRead(t);
      LoadMore(old(memory[..]), disk, t, sectors);
      BesideLoad(old(memory[..]), disk, t, sectors);
    }

    /** One round of `rp_read`. */
    method ReadNext()
      requires Valid() && Steady(At(), sectors) && !Done(At())
      requires LoadedTo(memory[..], disk, Address(At()))
      modifies this, memory
      ensures At() == Advance(old(At()), sectors) && log == old(log) + [Next(old(At()), sectors)]
      ensures LoadedTo(memory[..], disk, Address(At())) && Beside(old(memory[..]), memory[..])
    {
      hide Steady, Wanted, Advance, LoadedTo, Beside, Address;
      ghost var c := At();
      var ax := CountSectors();
      AdvanceIsSteady(c, sectors);
      ReadTrack(ax);
      MoveOn(ax);
    }

    method CountSectors() returns (ax: int)
      ensures ax == Wanted(At(), sectors)
    {
      ax := Low(sectors - sread);
      var cx := Low(ax * SECTOR);
      if cx + bx >= 0x10000 && Low(cx + bx) != 0 {
        ax := Low(0 - bx) / SECTOR;
      }
    }

    /** The registers after a read. */
    method MoveOn(count: int)
      requires count == Wanted(At(), sectors)
      modifies this`sread, this`head, this`track, this`es, this`bx
      ensures At() == Advance(old(At()), sectors)
    {
      var cx := Low(count * SECTOR);
      var ax := Low(sread + count);
      if ax == sectors {
        ax := 1 - head;
        if ax == 0 {
          track := track + 1;
        }
        head := ax;
        ax := 0;
      }
      sread := ax;
      bx := bx + cx;
      if bx >= 0x10000 {
        es := es + 0x1000;
        bx := 0;
      }
    }

    /** `read_it`: exactly the transfers of the specification, which bring everything up to ENDSEG. */
    method ReadIt()
      requires Valid() && At() == Start().(es := es, bx := bx)
      modifies this, memory
      ensures Steady(Start(), sectors) && log == old(log) + Transfers(Start(), sectors)
      ensures LoadedTo(memory[..], disk, SEGMENT + LOADED) && Beside(old(memory[..]), memory[..])
    {
      hide Steady, Legal, Wanted, Advance, Next, Beside, Contiguous;
      es, bx := SYSSEG, 0;
      BesideSelf(memory[..]);
      AllTransfers(sectors);
      while es < ENDSEG
        invariant Steady(At(), sectors) && LoadedTo(memory[..], disk, Address(At()))
        invariant Beside(old(memory[..]), memory[..])
        invariant log + Transfers(At(), sectors) == old(log) + Transfers(Start(), sectors)
        decreases ToRead(At())
      {
        hide LoadedTo;
        ghost var c, before, done := At(), memory[..], log;
        Closer(c, sectors);
        ReadNext();
        BesideTrans(old(memory[..]), before, memory[..]);
        assert done + ([Next(c, sectors)] + Transfers(At(), sectors)) == log + Transfers(At(), sectors);
      }
      AtEnd(At(), sectors);
    }

    /** `rep movsw`: 64 KB from segment ds to segment es. */
    method MoveSegment(ds: int, es: int)
      requires Valid() && 0 <= es && ds == es + 0x1000 && 16 * ds + SEGMENT <= MEMORY
      modifies memory
      ensures memory[..] == Put(old(memory[..]), 16 * es, old(memory[16 * ds..16 * ds + SEGMENT]))
    {
      ghost var was := memory[..];
      hide Put;
      PutNothing(was, 16 * es);
      var si, di, cx := 16 * ds, 16 * es, 0x8000;
      while cx != 0
        invariant 0 <= cx <= 0x8000 && si == 16 * ds + 2 * (0x8000 - cx) && di == 16 * es + 2 * (0x8000 - cx)
        invariant memory[..] == Put(was, 16 * es, was[16 * ds..si])
      {
        ghost var before := memory[..];
        memory[di], memory[di + 1] := memory[si], memory[si + 1];
        MovedWord(was, before, memory[..], 16 * es, si, di);
        si, di, cx := si + 2, di + 2, cx - 1;
      }
    }

    /** `do_move`: everything from SYSSEG up to 0x90000 goes down by 64 KB. */
    method DoMove()
      requires Valid()
      modifies memory
      ensures memory[..0x80000] == old(memory[0x10000..0x90000]) && memory[0x80000..] == old(memory[0x80000..])
    {
      ghost var was := memory[..];
      var ax := 0;
      NothingMoved(was);
      while true
        invariant 0 <= ax <= 0x8000 && ax % 0x1000 == 0
        invariant MovedTo(was, memory[..], 16 * ax)
        decreases 0x9000 - ax
      {
        hide MovedTo, Put;
        var es := ax;
        ax := ax + 0x1000;
        if ax == 0x9000 {
          break;
        }
        ghost var before := memory[..];
        MoveSegment(ax, es);
        MovedMore(was, before, memory[..], 16 * es);
      }
    }

    /** Reading and moving together. */
    method Boot(ghost f: Files, ghost image: seq<byte>, ghost minor: byte, ghost major: byte)
      requires Valid() && At() == Start().(es := es, bx := bx)
      requires IsImageOf(image, f, minor, major) && image <= disk
      modifies this, memory
      ensures memory[..|f.system|] == f.system
      ensures memory[0x90200..0x90200 + |f.setup|] == f.setup
      ensures Steady(Start(), sectors) && log == old(log) + [Transfer(0, 0, 2, 4, 0x90200)] + Transfers(Start(), sectors)
      ensures forall i :: |old(log)| <= i < |log| ==> Legal(log[i], sectors)
    {
      LoadSetup();
      ghost var first := memory[..];
      AllTransfers(sectors);
      ReadIt();
      ghost var second := memory[..];
      DoMove();
      Delivered(f, image, minor, major, disk, first, second, memory[..]);
    }
  }

  lemma PutNothing(was: seq<byte>, at: int)
    requires 0 <= at <= |was|
    ensures Put(was, at, []) == was
  {
  }

  lemma PutMore(was: seq<byte>, before: seq<byte>, after: seq<byte>, at: int, data: seq<byte>, i: nat)
    requires 0 <= at <= at + |data| <= |was| && i < |data| && |before| == |was|
    requires before == Put(was, at, data[..i]) && after == before[at + i := data[i]]
    ensures after == Put(was, at, data[..i + 1])
  {
  }

  lemma MovedWord(was: seq<byte>, before: seq<byte>, after: seq<byte>, to: int, si: int, di: int)
    requires 0 <= to <= di && si + 1 < |was| && si - di == SEGMENT && |before| == |was|
    requires before == Put(was, to, was[to + SEGMENT..si])
    requires after == before[di := before[si]][di + 1 := before[si + 1]]
    ensures after == Put(was, to, was[to + SEGMENT..si + 2])
  {
    assert before[si] == was[si] && before[si + 1] == was[si + 1];
  }

  /** Everything that goes to addresses below `at` is there, and the rest is as it was. */
  predicate MovedTo(was: seq<byte>, mem: seq<byte>, at: int) {
    && 0 <= at <= at + SEGMENT <= |was| == |mem|
    && mem[..at] == was[SEGMENT..SEGMENT + at] && mem[at..] == was[at..]
  }

  lemma NothingMoved(was: seq<byte>)
    requires |was| == MEMORY
    ensures MovedTo(was, was, 0)
  {
  }

  lemma MovedMore(was: seq<byte>, before: seq<byte>, after: seq<byte>, at: int)
    requires 0 <= at && at + 2 * SEGMENT <= |was| && MovedTo(was, before, at)
    requires after == Put(before, at, before[at + SEGMENT..at + 2 * SEGMENT])
    ensures MovedTo(was, after, at + SEGMENT)
  {
  }

  /** Setup, the system loaded, and the system moved: the files arrive as they were. */
  lemma Delivered(f: Files, image: seq<byte>, minor: byte, major: byte, disk: seq<byte>,
      first: seq<byte>, second: seq<byte>, last: seq<byte>)
    requires IsImageOf(image, f, minor, major) && image <= disk && DISK_READ <= |disk|
    requires |first| == |last| == MEMORY && first[SETUP_AT..SETUP_AT + SYSTEM_AT - SECTOR] == disk[SECTOR..SYSTEM_AT]
    requires Beside(first, second) && LoadedTo(second, disk, SEGMENT + LOADED)
    requires last[..0x80000] == second[0x10000..0x90000] && last[0x80000..] == second[0x80000..]
    ensures last[..|f.system|] == f.system
    ensures last[SETUP_AT..SETUP_AT + |f.setup|] == f.setup
  {
    var n := |f.system|;
    forall i | 0 <= i < n ensures last[i] == f.system[i] {
      assert last[..0x80000][i] == second[0x10000..0x90000][i];
      assert second[SEGMENT..SEGMENT + LOADED][i] == disk[SYSTEM_AT..][..LOADED][i];
      assert image[SYSTEM_AT..][i] == f.system[i];
    }
    forall i | 0 <= i < |f.setup| ensures last[SETUP_AT + i] == f.setup[i] {
      assert last[0x80000..][SETUP_AT - 0x80000 + i] == second[0x80000..][SETUP_AT - 0x80000 + i];
      assert second[SEGMENT + LOADED..][SETUP_AT - SEGMENT - LOADED + i] == first[SEGMENT + LOADED..][SETUP_AT - SEGMENT - LOADED + i];
      assert first[SETUP_AT..SETUP_AT + SYSTEM_AT - SECTOR][i] == disk[SECTOR..SYSTEM_AT][i];
      assert image[SECTOR..SECTOR + |f.setup|][i] == f.setup[i];
    }
  }
}
