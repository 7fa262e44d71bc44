/** The boot code: bootsect.S reads the system from the disk track by track, setup.S moves it to address 0.
    Registers are 16 bits wide.  The disk has two heads and `sectors` sectors on a track. */
module Loader {
  import opened Image

  const SYSSEG := 0x1000
  const ENDSEG := 0x4000
  const SETUPSEG := 0x9020
  const LOADED := 0x30000      // bytes between SYSSEG and ENDSEG
  const MEMORY := 0xA0000

  function Low(n: int): (r: int)
    ensures 0 <= r < 0x10000 && (0 <= n < 0x10000 ==> r == n)
  {
    n % 0x10000
  }

  // ---------- where the reading stands ----------

  /** `sread` sectors of this track are behind us; the next one goes to es:bx. */
  datatype Cursor = Cursor(sread: int, head: int, track: int, es: int, bx: int)

  function Start(): Cursor {
    Cursor(1 + SETUP_SECTS, 0, 0, SYSSEG, 0)
  }

  predicate Done(c: Cursor) {
    c.es >= ENDSEG
  }

  /** How many sectors to read: the rest of the track, or what the segment still holds. */
  function Wanted(c: Cursor, sectors: int): int {
    var ax := Low(sectors - c.sread);
    var sum := Low(ax * SECTOR) + c.bx;
    if sum < 0x10000 || Low(sum) == 0 then ax else Low(-c.bx) / SECTOR
  }

  function NextTrack(c: Cursor, read: int, sectors: int): Cursor {
    if read != sectors then c.(sread := read)
    else if 1 - c.head != 0 then c.(sread := 0, head := 1 - c.head)
    else c.(sread := 0, head := 1 - c.head, track := c.track + 1)
  }

  function Advance(c: Cursor, sectors: int): Cursor {
    var ax := Wanted(c, sectors);
    var d := NextTrack(c, Low(c.sread + ax), sectors);
    var bx := c.bx + Low(ax * SECTOR);
    if bx < 0x10000 then d.(bx := bx) else d.(es := c.es + 0x1000, bx := 0)
  }

  /** The number of the next sector, counted from the start of the disk. */
  function Sector(c: Cursor, sectors: int): int {
    (2 * c.track + c.head) * sectors + c.sread
  }

  function Address(c: Cursor): int {
    16 * c.es + c.bx
  }

  /** Between two reads: bytes of memory filled and sectors of disk read agree. */
  predicate Steady(c: Cursor, sectors: int) {
    && 6 <= sectors <= 63 && 0 <= c.sread < sectors && 0 <= c.head <= 1 && 0 <= c.track
    && SYSSEG <= c.es <= ENDSEG && c.es % 0x1000 == 0
    && 0 <= c.bx < 0x10000 && c.bx % SECTOR == 0 && (c.es == ENDSEG ==> c.bx == 0)
    && SECTOR * (Sector(c, sectors) - 1 - SETUP_SECTS) == Address(c) - 16 * SYSSEG
  }

  // ---------- one transfer ----------

  /** A call of the disk service: `count` sectors from the `first` one (counted from 1) of a track. */
  datatype Transfer = Transfer(track: int, head: int, first: int, count: int, address: int)

  /** Not empty, on one track that a byte can name, and within one 64 KB segment of memory. */
  predicate Legal(t: Transfer, sectors: int) {
    && 0 <= t.track < 256 && 0 <= t.head <= 1
    && 1 <= t.count && 1 <= t.first && t.first + t.count - 1 <= sectors
    && 0 <= t.address && t.address / 0x10000 == (t.address + t.count * SECTOR - 1) / 0x10000
  }

  function Next(c: Cursor, sectors: int): Transfer {
    Transfer(c.track, c.head, c.sread + 1, Wanted(c, sectors), Address(c))
  }

  lemma RestOfSegment(k: int)
    requires 1 <= k < 128
    ensures Low(-(SECTOR * k)) / SECTOR == 128 - k
  {
    assert -(SECTOR * k) == SECTOR * (128 - k) - 0x10000;
    assert Low(-(SECTOR * k)) == SECTOR * (128 - k);
  }

  lemma SegmentEnd(sum: int)
    requires 0x10000 <= sum < 0x20000 && Low(sum) == 0
    ensures sum == 0x10000
  {
  }

  lemma WantedFits(c: Cursor, sectors: int)
    requires Steady(c, sectors) && !Done(c)
    ensures 1 <= Wanted(c, sectors) <= sectors - c.sread
    ensures c.bx + Wanted(c, sectors) * SECTOR <= 0x10000
    ensures var rest, room := sectors - c.sread, (0x10000 - c.bx) / 512;
      Wanted(c, sectors) == if rest <= room then rest else room
  {
    hide Low, Sector, Address;
    var ax := sectors - c.sread;
    var k := c.bx / SECTOR;
    assert c.bx == SECTOR * k;
    var sum := ax * SECTOR + c.bx;
    if 0x10000 <= sum {
      RestOfSegment(k);
      if Low(sum) == 0 {
        SegmentEnd(sum);
      }
    }
  }

  lemma TrackIsSmall(q: int, sectors: int, n: int)
    requires 0 <= q && 6 <= sectors && q * sectors <= n
    ensures 6 * q <= n
  {
    assert q * sectors >= q * 6;
  }

  lemma NextIsLegal(c: Cursor, sectors: int)
    requires Steady(c, sectors) && !Done(c)
    ensures Legal(Next(c, sectors), sectors)
  {
    WantedFits(c, sectors);
    hide Wanted;
    TrackIsSmall(2 * c.track + c.head, sectors, 5 + LOADED / SECTOR);
    var w := Wanted(c, sectors) * SECTOR;
    assert Address(c) == 0x10000 * (c.es / 0x1000) + c.bx;
    assert (Address(c) + w - 1) / 0x10000 == c.es / 0x1000;
  }

  lemma OneTrackMore(q: int, sectors: int)
    ensures (q + 1) * sectors == q * sectors + sectors
  {
  }

  /** Reading on along a track, and from its end at the start of the next one. */
  lemma NextTrackSector(c: Cursor, n: int, sectors: int)
    requires 0 <= c.sread && 0 <= c.head <= 1 && 0 <= c.track && 1 <= n <= sectors - c.sread
    ensures var d := NextTrack(c, c.sread + n, sectors);
      && Sector(d, sectors) == Sector(c, sectors) + n
      && 0 <= d.sread < sectors && 0 <= d.head <= 1 && 0 <= d.track && d.es == c.es && d.bx == c.bx
  {
    var q := 2 * c.track + c.head;
    OneTrackMore(q, sectors);
    var d := NextTrack(c, c.sread + n, sectors);
    assert 2 * d.track + d.head == if c.sread + n == sectors then q + 1 else q;
  }

  /** Where the next bytes go: further in this segment, or at the start of the next one. */
  lemma AdvanceIs(c: Cursor, sectors: int)
    requires Steady(c, sectors) && !Done(c)
    ensures var n := Wanted(c, sectors);
      var d := NextTrack(c, c.sread + n, sectors);
      Advance(c, sectors) ==
        if c.bx + SECTOR * n == 0x10000 then d.(es := c.es + 0x1000, bx := 0) else d.(bx := c.bx + SECTOR * n)
  {
    WantedFits(c, sectors);
    hide Wanted, NextTrack, Sector, Low, Address;
  }

  lemma NextSegment(es: int)
    requires SYSSEG <= es < ENDSEG && es % 0x1000 == 0
    ensures es + 0x1000 <= ENDSEG && (es + 0x1000) % 0x1000 == 0
  {
  }

  lemma NextOffset(bx: int, n: int)
    requires bx % SECTOR == 0
    ensures (bx + SECTOR * n) % SECTOR == 0
  {
  }

  /** A read moves the same amount along the disk and through memory. */
  lemma AdvanceIsSteady(c: Cursor, sectors: int)
    requires Steady(c, sectors) && !Done(c)
    ensures var d := Advance(c, sectors);
      && Steady(d, sectors)
      && Sector(d, sectors) == Sector(c, sectors) + Wanted(c, sectors)
      && Address(d) == Address(c) + SECTOR * Wanted(c, sectors)
  {
    var n := Wanted(c, sectors);
    WantedFits(c, sectors);
    AdvanceIs(c, sectors);
    NextTrackSector(c, n, sectors);
    NextSegment(c.es);
    NextOffset(c.bx, n);
    var t := NextTrack(c, c.sread + n, sectors);
    SectorIgnoresMemory(t, Advance(c, sectors), sectors);
    hide Wanted, NextTrack, Sector, Low, Advance;
  }

  lemma SectorIgnoresMemory(c: Cursor, d: Cursor, sectors: int)
    requires d == c.(es := d.es, bx := d.bx)
    ensures Sector(d, sectors) == Sector(c, sectors)
  {
  }

  // ---------- all transfers ----------

  function ToRead(c: Cursor): int {
    16 * ENDSEG - Address(c)
  }

  lemma Remaining(c: Cursor, sectors: int)
    requires Steady(c, sectors)
    ensures 0 <= ToRead(c)
  {
    hide Sector;
    assert c.es < ENDSEG ==> c.es + 0x1000 <= ENDSEG;
  }

  lemma Closer(c: Cursor, sectors: int)
    requires Steady(c, sectors) && !Done(c)
    ensures Steady(Advance(c, sectors), sectors)
    ensures 0 <= ToRead(Advance(c, sectors)) < ToRead(c)
  {
    AdvanceIsSteady(c, sectors);
    WantedFits(c, sectors);
    Remaining(Advance(c, sectors), sectors);
    hide Advance, Wanted, Sector, Steady, Address, Done;
  }

  /** The calls of the disk service that `read_it` makes from c on. */
  function Transfers(c: Cursor, sectors: int): seq<Transfer>
    requires Steady(c, sectors)
    decreases ToRead(c)
  {
    if Done(c) then []
    else
      Closer(c, sectors);
      [Next(c, sectors)] + Transfers(Advance(c, sectors), sectors)
  }

  function FirstSector(t: Transfer, sectors: int): int {
    (2 * t.track + t.head) * sectors + t.first - 1
  }

  /** Each transfer goes on where the one before ended, on disk and in memory. */
  predicate Contiguous(ts: seq<Transfer>, sectors: int, from: int, to: int, address: int)
    decreases |ts|
  {
    if ts == [] then from == to
    else
      && FirstSector(ts[0], sectors) == from && ts[0].address == address
      && Contiguous(ts[1..], sectors, from + ts[0].count, to, address + SECTOR * ts[0].count)
  }

  /** All transfers are legal, and together they take every sector up to the end once, in order. */
  lemma {:induction false} TransfersCover(c: Cursor, sectors: int)
    requires Steady(c, sectors)
    ensures forall t :: t in Transfers(c, sectors) ==> Legal(t, sectors)
    ensures Contiguous(Transfers(c, sectors), sectors, Sector(c, sectors), 1 + SETUP_SECTS + LOADED / SECTOR, Address(c))
    decreases ToRead(c)
  {
    hide Wanted, Advance, Legal;
    if !Done(c) {
      AdvanceIsSteady(c, sectors);
      Closer(c, sectors);
      NextIsLegal(c, sectors);
      TransfersCover(Advance(c, sectors), sectors);
    }
  }

  /** From the start, for every format of disk the boot code is meant for. */
  lemma AllTransfers(sectors: int)
    requires 6 <= sectors <= 63
    ensures Steady(Start(), sectors)
    ensures forall t :: t in Transfers(Start(), sectors) ==> Legal(t, sectors)
    ensures Contiguous(Transfers(Start(), sectors), sectors, 5, 389, 0x10000)
  {
    hide Transfers, Legal, Contiguous;
    TransfersCover(Start(), sectors);
  }

  /** Six sectors a track is the least: the boot sector and setup must leave some of the first track. */
  lemma SixSectorsNeeded(sectors: int)
    requires 1 <= sectors <= 63
    ensures Legal(Next(Start(), sectors), sectors) <==> 6 <= sectors
  {
    if 6 <= sectors {
      NextIsLegal(Start(), sectors);
    }
  }
}
