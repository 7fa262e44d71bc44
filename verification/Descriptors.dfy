/** `set_base`, `get_base`, `set_limit` and `get_limit`: a segment descriptor scatters its base and its limit
    over eight bytes (section 3.4.5 of volume 3A of the Intel manual).  What fork does with them gives every
    task a window of linear addresses for its own segments; the video segment overlaps some of them. */
module Descriptors {
  import opened Kernel
  import opened PageTables
  import opened LinearAddresses

  type Descriptor = d: seq<byte> | |d| == 8 witness seq(8, _ => 0)

  function Pair(low: int, high: int): int {
    low + 0x100 * high
  }

  /** Bytes 2, 3, 4 and 7. */
  function Base(d: Descriptor): int {
    Pair(d[2], d[3]) + 0x1_0000 * Pair(d[4], d[7])
  }

  /** Bytes 0, 1 and the low half of byte 6. */
  function LimitField(d: Descriptor): int {
    Pair(d[0], d[1]) + 0x1_0000 * (d[6] as int % 16)
  }

  /** One more than the last offset: the field counts pages if the top bit of byte 6 is set. */
  function Limit(d: Descriptor): int {
    if d[6] >= 0x80 then 4096 * (LimitField(d) + 1) else LimitField(d) + 1
  }

  predicate IsWord(n: int) {
    0 <= n < 0x1_0000_0000
  }

  function Rotated(n: int): int {
    n / 0x1_0000 + 0x1_0000 * (n % 0x1_0000)
  }

  lemma Bytes(n: int)
    requires 0 <= n < 0x1_0000
    ensures 0 <= n / 0x100 < 0x100 && n == Pair(n % 0x100, n / 0x100)
  {
  }

  lemma RotatedBytes(n: int)
    requires IsWord(n)
    ensures Rotated(n) % 0x100 == n / 0x1_0000 % 0x100
    ensures Rotated(n) / 0x100 % 0x100 == n / 0x1_0000 / 0x100
  {
    var high := n / 0x1_0000;
    assert Rotated(n) == high + 0x100 * (0x100 * (n % 0x1_0000));
    assert Rotated(n) / 0x100 == high / 0x100 + 0x100 * (n % 0x1_0000);
  }

  // ---------- base ----------

  method SetBase(d: array<byte>, base: int)
    requires d.Length == 8 && IsWord(base)
    modifies d
    ensures Base(d[..]) == base
    ensures d[0] == old(d[0]) && d[1] == old(d[1]) && d[5] == old(d[5]) && d[6] == old(d[6])
  {
    hide Rotated;
    Bytes(base % 0x1_0000);
    Bytes(base / 0x1_0000);
    RotatedBytes(base);
    var dx := base % 0x1_0000;
    d[2], d[3] := dx % 0x100, dx / 0x100;
    var edx := Rotated(base);
    d[4] := edx % 0x100;
    d[7] := edx / 0x100 % 0x100;
  }

  method GetBase(d: array<byte>) returns (base: int)
    requires d.Length == 8
    ensures base == Base(d[..]) && IsWord(base)
  {
    var edx := Pair(d[4], d[7]);
    edx := edx * 0x1_0000;
    base := edx + Pair(d[2], d[3]);
  }

  // ---------- limit ----------

  /** The segment has at least `limit` bytes, and less than a page more; base and access rights stay. */
  method SetLimit(d: array<byte>, limit: int)
    requires d.Length == 8 && 1 <= limit <= 0x1_0000_0000
    modifies d
    ensures LimitField(d[..]) == (limit - 1) / 4096
    ensures d[6] >= 0x80 ==> limit <= Limit(d[..]) < limit + 4096
    ensures Base(d[..]) == old(Base(d[..])) && d[5] == old(d[5]) && d[6] / 16 == old(d[6]) / 16
  {
    hide Rotated;
    var field := (limit - 1) / 4096;
    FieldParts(limit);
    Bytes(field % 0x1_0000);
    RotatedBytes(field);
    var dx := field % 0x1_0000;
    d[0], d[1] := dx % 0x100, dx / 0x100;
    var dl := Rotated(field) % 0x100;
    var dh := d[6] / 16 * 16;
    Halves(d[6], dl);
    d[6] := dh + dl;     // dl has no bits above the low four: the field has 20
  }

  lemma FieldParts(limit: int)
    requires 1 <= limit <= 0x1_0000_0000
    ensures var field := (limit - 1) / 4096;
      && 0 <= field < 0x10_0000 && IsWord(field) && 0 <= field / 0x1_0000 < 16 && field / 0x1_0000 % 0x100 == field / 0x1_0000
      && field == field % 0x1_0000 + 0x1_0000 * (field / 0x1_0000)
      && limit <= 4096 * (field + 1) < limit + 4096
  {
  }

  /** The low half of a byte is replaced. */
  lemma Halves(n: int, low: int)
    requires 0 <= n < 256 && 0 <= low < 16
    ensures var m := n / 16 * 16 + low;
      0 <= m < 256 && m / 16 == n / 16 && m % 16 == low && (m >= 0x80 <==> n >= 0x80)
  {
  }

  // ---------- the windows of the tasks ----------

  /** The data descriptor of INIT_TASK: the words 0xfff and 0xc0f200. */
  function InitData(): Descriptor {
    [0xff, 0x0f, 0, 0, 0x00, 0xf2, 0xc0, 0x00]
  }

  function InitCode(): Descriptor {
    [0xff, 0x0f, 0, 0, 0x00, 0xfa, 0xc0, 0x00]
  }

  /** Entry 3 of the global table: the word 0x00c0f20b8000ffff. */
  function VideoData(): Descriptor {
    [0xff, 0xff, 0x00, 0x80, 0x0b, 0xf2, 0xc0, 0x00]
  }

  /** Every task may use it, and it reaches 256 MB, not the 64 KB that its comment says: the limit counts pages. */
  lemma VideoSegment()
    ensures Base(VideoData()) == VIDEO_BASE && Limit(VideoData()) == VIDEO_LIMIT
    ensures VideoData()[5] / 32 % 4 == 3
    ensures 4 * TASK_SIZE < VIDEO_BASE + VIDEO_LIMIT < 5 * TASK_SIZE
  {
  }

  /** What copy_mem makes of the parent's descriptor for the child in slot nr. */
  ghost predicate Inherits(parent: Descriptor, child: Descriptor, nr: int) {
    && Base(child) == nr * TASK_SIZE
    && child[0] == parent[0] && child[1] == parent[1] && child[5] == parent[5] && child[6] == parent[6]
  }

  /** The descriptors along a line of forks: slots[k] is where the k-th child went. */
  ghost predicate Line(ds: seq<Descriptor>, slots: seq<int>) {
    && |ds| == |slots| + 1
    && forall k :: 0 <= k < |slots| ==> 1 <= slots[k] < NR_TASKS && Inherits(ds[k], ds[k + 1], slots[k])
  }

  /** Every descendant of task 0 has its 16 MB limit, and the window of its slot. */
  lemma {:induction false} Windows(ds: seq<Descriptor>, slots: seq<int>)
    requires Line(ds, slots) && (ds[0] == InitData() || ds[0] == InitCode())
    ensures Limit(ds[|slots|]) == DATA_LIMIT
    ensures Base(ds[|slots|]) == if slots == [] then 0 else slots[|slots| - 1] * TASK_SIZE
    decreases |slots|
  {
    if slots != [] {
      var n := |slots| - 1;
      Windows(ds[..n + 1], slots[..n]);
      assert Inherits(ds[n], ds[n + 1], slots[n]);
    }
  }

  /** The directory entries that a task's segment reaches are its own: windows of different slots are apart. */
  lemma WindowsApart(t: int, u: int, x: int, y: int)
    requires 0 <= t < NR_TASKS && 0 <= u < NR_TASKS && 0 <= x < DATA_LIMIT && 0 <= y < DATA_LIMIT
    ensures IsWord(t * TASK_SIZE + x)
    ensures TASK_DIRS * t <= (t * TASK_SIZE + x) / TABLE_SPAN < TASK_DIRS * t + DATA_DIRS
    ensures (t * TASK_SIZE + x) / TABLE_SPAN == (u * TASK_SIZE + y) / TABLE_SPAN ==> t == u
  {
    assert (t * TASK_SIZE + x) / TABLE_SPAN == TASK_DIRS * t + x / TABLE_SPAN;
    assert (u * TASK_SIZE + y) / TABLE_SPAN == TASK_DIRS * u + y / TABLE_SPAN;
  }
}
