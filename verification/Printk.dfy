/** `printk`: a format, its arguments, and what the screen shows. */
module Printk {
  import opened Formatting
  import opened Console
  import opened ConsoleLaws
  import FormatLaws

  function Bytes(s: string): (b: seq<int>)
    ensures |b| == |s|
  {
    seq(|s|, k requires 0 <= k < |s| => s[k] as int)
  }

  /** `printk` through `tty_write`; the text must fit its buffer. */
  method Print(screen: Screen, fmt: string, args: nat -> Arg) returns (n: int)
    requires screen.Valid() && |Format(fmt, args, 0, 0)| < 1024
    modifies screen, screen.vram
    ensures screen.Valid() && screen.SameSize(old(screen.cols), old(screen.lines))
    ensures n == |Format(fmt, args, 0, 0)|
    ensures screen.Abs() == TypeAll(old(screen.Abs()), Bytes(Format(fmt, args, 0, 0)), screen.cols)
  {
    hide Format, TypeAll, Rows;
    var buf := new char[1024];
    n := VSprintf(buf, fmt, args);
    assert Bytes(buf[..n]) == Bytes(Format(fmt, args, 0, 0));
    screen.ConsolePrint(Bytes(buf[..n]));
  }

  /** A message of whole lines without '%' is on the screen line by line. */
  lemma MessageShown(t: Terminal, lines: seq<seq<int>>, fmt: string, args: nat -> Arg, cols: nat)
    requires Grid(t, cols) && t.x == 0 && |lines| >= 1
    requires forall r :: t.y <= r < |t.rows| ==> IsBlank(t.rows[r])
    requires forall k :: 0 <= k < |lines| ==> AllPrintable(lines[k])
    requires '%' !in fmt && Bytes(fmt) == Joined(lines)
    ensures var u, parts := TypeAll(t, Bytes(Format(fmt, args, 0, 0)), cols), CutAll(lines, cols);
      && u.x == |parts[|parts| - 1]|
      && Shows(u, t.rows[..t.y] + PaddedAll(parts, cols), |t.rows|, cols)
  {
    FormatLaws.Literal(fmt, args, 0, 0);
    TextShown(t, lines, cols);
  }
}
