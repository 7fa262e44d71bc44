/** tools/build.c: the disk image is the boot sector, four sectors of setup and the system, in this order. */
module Image {
  import opened Kernel

  const SECTOR := 512
  const SETUP_SECTS := 4
  const SYS_SIZE := 0x2000     // in paragraphs of 16 bytes
  const BUFFER := 1024

  datatype Files = Files(boot: seq<byte>, setup: seq<byte>, system: seq<byte>)
  datatype Failure = BadRoot | BadBoot | SetupTooBig | SystemTooBig
  datatype Result = Built(image: seq<byte>) | Failed(why: Failure)

  function Zeros(n: nat): seq<byte> {
    seq(n, _ => 0)
  }

  predicate RootAllowed(major: byte) {
    major == 0 || major == 2 || major == 3
  }

  predicate Fits(f: Files) {
    |f.boot| == SECTOR && |f.setup| <= SETUP_SECTS * SECTOR && |f.system| <= SYS_SIZE * 16
  }

  /** Where everything is in an image: what the boot code relies on. */
  ghost predicate IsImageOf(image: seq<byte>, f: Files, minor: byte, major: byte) {
    && Fits(f) && |image| == (1 + SETUP_SECTS) * SECTOR + |f.system|
    && image[..508] == f.boot[..508] && image[508] == minor && image[509] == major
    && image[510..SECTOR] == f.boot[510..]
    && image[SECTOR..SECTOR + |f.setup|] == f.setup
    && (forall i :: SECTOR + |f.setup| <= i < (1 + SETUP_SECTS) * SECTOR ==> image[i] == 0)
    && image[(1 + SETUP_SECTS) * SECTOR..] == f.system
  }

  /** `read`: up to a buffer full from the file, behind the first `at` bytes. */
  method Read(file: seq<byte>, at: nat, buf: array<byte>) returns (c: nat)
    requires buf.Length == BUFFER && at <= |file|
    modifies buf
    ensures c == (if |file| - at < BUFFER then |file| - at else BUFFER)
    ensures buf[..c] == file[at..at + c] && buf[c..] == old(buf[c..])
  {
    c := if |file| - at < BUFFER then |file| - at else BUFFER;
    for i := 0 to c
      invariant buf[..i] == file[at..at + i] && buf[i..] == old(buf[i..])
    {
      buf[i] := file[at + i];
      assert buf[..i + 1] == buf[..i] + [file[at + i]];
      assert buf[i + 1..] == buf[i..][1..];
    }
  }

  method Clear(buf: array<byte>)
    requires buf.Length == BUFFER
    modifies buf
    ensures buf[..] == Zeros(BUFFER)
  {
    for i := 0 to BUFFER
      invariant buf[..i] == Zeros(i)
    {
      buf[i] := 0;
      assert buf[..i + 1] == buf[..i] + [0];
    }
    assert buf[..] == buf[..BUFFER];
  }

  /** A whole file, a buffer at a time, and its length. */
  method Append(out: seq<byte>, file: seq<byte>, buf: array<byte>) returns (res: seq<byte>, i: nat)
    requires buf.Length == BUFFER
    modifies buf
    ensures res == out + file && i == |file|
  {
    res, i := out, 0;
    var c := Read(file, i, buf);
    while c > 0
      invariant 0 <= i <= i + c <= |file| && c <= BUFFER && res == out + file[..i] && buf[..c] == file[i..i + c]
      invariant c == 0 ==> i == |file|
      decreases |file| - i, c
    {
      assert file[..i + c] == file[..i] + file[i..i + c];
      res := res + buf[..c];
      i := i + c;
      c := Read(file, i, buf);
    }
    assert file[..i] == file;
  }

  /** Zeros up to the end of the setup sectors. */
  method Pad(out: seq<byte>, start: nat, buf: array<byte>) returns (res: seq<byte>)
    requires buf[..] == Zeros(BUFFER) && start <= SETUP_SECTS * SECTOR
    ensures res == out + Zeros(SETUP_SECTS * SECTOR - start)
  {
    var i := start;
    res := out;
    while i < SETUP_SECTS * SECTOR
      invariant start <= i <= SETUP_SECTS * SECTOR && res == out + Zeros(i - start)
    {
      var c := SETUP_SECTS * SECTOR - i;
      if c > buf.Length {
        c := buf.Length;
      }
      assert buf[..c] == Zeros(c);
      assert Zeros(i - start) + Zeros(c) == Zeros(i + c - start);
      res := res + buf[..c];
      i := i + c;
    }
  }

  /** An image exactly if the root device and the three files are acceptable; otherwise the first complaint. */
  method Build(f: Files, minor: byte, major: byte) returns (r: Result)
    ensures r.Built? <==> RootAllowed(major) && Fits(f)
    ensures r.Built? ==> IsImageOf(r.image, f, minor, major)
    ensures r == Failed(BadRoot) <==> major !in [0, 2, 3]
    ensures r == Failed(BadBoot) <==> major in [0, 2, 3] && |f.boot| != 512
    ensures r == Failed(SetupTooBig) <==> major in [0, 2, 3] && |f.boot| == 512 && |f.setup| > 2048
    ensures r == Failed(SystemTooBig) <==> major in [0, 2, 3] && |f.boot| == 512 && |f.setup| <= 2048 && |f.system| > 0x20000
  {
    if major != 2 && major != 3 && major != 0 {
      return Failed(BadRoot);
    }
    var buf := new byte[BUFFER];
    Clear(buf);
    var i := Read(f.boot, 0, buf);
    if i != SECTOR {
      return Failed(BadBoot);
    }
    assert buf[..SECTOR] == f.boot;
    buf[508] := minor;
    buf[509] := major;
    var sector := buf[..SECTOR];
    assert sector == f.boot[..508] + [minor, major] + f.boot[510..];
    var out;
    out, i := Append(sector, f.setup, buf);
    if i > SETUP_SECTS * SECTOR {
      return Failed(SetupTooBig);
    }
    Clear(buf);
    out := Pad(out, i, buf);
    var head := out;
    out, i := Append(head, f.system, buf);
    if i > SYS_SIZE * 16 {
      return Failed(SystemTooBig);
    }
    assert head == sector + f.setup + Zeros(SETUP_SECTS * SECTOR - |f.setup|);
    r := Built(out);
  }
}
