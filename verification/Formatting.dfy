/** `vsprintf`: what a format string says, and the loop that carries it out. */
module Formatting {
  import opened Printf
  import opened NumberPrinter

  /** A word of the argument list: as a number, and as the string it points to. */
  datatype Arg = Arg(num: int, text: string)

  const NUL: char := '\0'

  /** A format is the text before its NUL. */
  function At(fmt: string, i: nat): char {
    if i < |fmt| then fmt[i] else NUL
  }

  predicate IsDigit(c: char) {
    '0' <= c <= '9'
  }

  function Word(n: int): (w: int)
    ensures IsInt(w)
  {
    if IsInt(n) then n else 0
  }

  // ---------- reading a conversion ----------

  /** The flags from i on, and where they end. */
  function ReadFlags(fmt: string, i: nat, f: Flags): (r: (Flags, nat))
    ensures i <= r.1
    decreases |fmt| - i
  {
    match At(fmt, i)
    case '-' => ReadFlags(fmt, i + 1, f.(left := true))
    case '+' => ReadFlags(fmt, i + 1, f.(plus := true))
    case ' ' => ReadFlags(fmt, i + 1, f.(space := true))
    case '#' => ReadFlags(fmt, i + 1, f.(special := true))
    case '0' => ReadFlags(fmt, i + 1, f.(zeropad := true))
    case _ => (f, i)
  }

  /** The decimal number from i on, after digits worth n, and where it ends. */
  function SkipAtoi(fmt: string, i: nat, n: int): (r: (int, nat))
    ensures i <= r.1
    decreases |fmt| - i
  {
    if IsDigit(At(fmt, i)) then SkipAtoi(fmt, i + 1, n * 10 + (At(fmt, i) as int - '0' as int)) else (n, i)
  }

  /** A conversion: its flags, width, precision, where its letter is, and the next argument. */
  datatype Spec = Spec(flags: Flags, width: int, precision: int, at: nat, arg: nat)

  function Negated(n: int): int {
    if n == MIN_INT then MIN_INT else -n
  }

  /** A '*' takes its width from the arguments, but the cursor stays on it. */
  function ReadWidth(fmt: string, i: nat, f: Flags, args: nat -> Arg, a: nat): (s: Spec)
    ensures i <= s.at
  {
    if IsDigit(At(fmt, i)) then
      var (w, j) := SkipAtoi(fmt, i, 0);
      Spec(f, w, -1, j, a)
    else if At(fmt, i) == '*' then
      var w := Word(args(a).num);
      if w < 0 then Spec(f.(left := true), Negated(w), -1, i, a + 1) else Spec(f, w, -1, i, a + 1)
    else Spec(f, -1, -1, i, a)
  }

  function ReadPrecision(fmt: string, s: Spec, args: nat -> Arg): (r: Spec)
    ensures s.at <= r.at
  {
    if At(fmt, s.at) != '.' then s
    else if IsDigit(At(fmt, s.at + 1)) then
      var (p, j) := SkipAtoi(fmt, s.at + 1, 0);
      s.(precision := if p < 0 then 0 else p, at := j)
    else if At(fmt, s.at + 1) == '*' then
      var p := Word(args(s.arg).num);
      s.(precision := if p < 0 then 0 else p, at := s.at + 1, arg := s.arg + 1)
    else s.(precision := 0, at := s.at + 1)
  }

  predicate IsQualifier(c: char) {
    c == 'h' || c == 'l' || c == 'L'
  }

  const NO_FLAGS := Flags(false, false, false, false, false, false, false)

  /** Everything from after the '%' to the letter. */
  function ReadSpec(fmt: string, i: nat, args: nat -> Arg, a: nat): (s: Spec)
    ensures i <= s.at
  {
    var (f, j) := ReadFlags(fmt, i, NO_FLAGS);
    var s := ReadPrecision(fmt, ReadWidth(fmt, j, f, args, a), args);
    if IsQualifier(At(fmt, s.at)) then s.(at := s.at + 1) else s
  }

  // ---------- the text of a conversion ----------

  function CharText(s: Spec, n: int): string {
    var c := [(n % 256) as char];
    if s.flags.left then c + Repeat(' ', s.width - 1) else Repeat(' ', s.width - 1) + c
  }

  /** At most `precision` characters of the string, unless that is negative. */
  function StringText(s: Spec, text: string): string {
    var shown := if 0 <= s.precision < |text| then text[..s.precision] else text;
    if s.flags.left then shown + Repeat(' ', s.width - |shown|) else Repeat(' ', s.width - |shown|) + shown
  }

  /** Base and flags of the letters that print numbers. */
  function NumberBase(c: char): int {
    match c
    case 'o' => 8
    case 'p' => 16
    case 'x' => 16
    case 'X' => 16
    case 'd' => 10
    case 'i' => 10
    case 'u' => 10
    case _ => 0
  }

  function NumberFlags(c: char, s: Spec): Flags {
    if c == 'x' then s.flags.(small := true)
    else if c == 'd' || c == 'i' then s.flags.(sign := true)
    else if c == 'p' && s.width == -1 then s.flags.(zeropad := true)
    else s.flags
  }

  function NumberWidth(c: char, s: Spec): int {
    if c == 'p' && s.width == -1 then 8 else s.width
  }

  predicate TakesArgument(c: char) {
    c == 'c' || c == 's' || c == 'n' || NumberBase(c) != 0
  }

  /** An unknown letter is shown behind its '%'; "%%" is one '%'; a format that ends after a '%' shows it. */
  function ConversionText(c: char, s: Spec, arg: Arg): string {
    if c == 'c' then CharText(s, Word(arg.num))
    else if c == 's' then StringText(s, arg.text)
    else if NumberBase(c) != 0 then
      NumberText(Word(arg.num), NumberBase(c), NumberWidth(c, s), s.precision, NumberFlags(c, s))
    else if c == 'n' then ""
    else if c == NUL then "%"
    else if c == '%' then "%"
    else ['%', c]
  }

  /** The text of fmt from i on, with the arguments from a on. */
  function Format(fmt: string, args: nat -> Arg, i: nat, a: nat): string
    decreases |fmt| - i
  {
    if i >= |fmt| then ""
    else if fmt[i] != '%' then [fmt[i]] + Format(fmt, args, i + 1, a)
    else
      var s := ReadSpec(fmt, i + 1, args, a);
      var c := At(fmt, s.at);
      ConversionText(c, s, args(s.arg)) +
      Format(fmt, args, if c == NUL then s.at else s.at + 1, if TakesArgument(c) then s.arg + 1 else s.arg)
  }

  // ---------- the code ----------

  /** `skip_atoi`. */
  method SkipNumber(fmt: string, start: nat) returns (n: int, i: nat)
    ensures (n, i) == SkipAtoi(fmt, start, 0) && 0 <= n && start <= i
  {
    n, i := 0, start;
    while IsDigit(At(fmt, i))
      invariant start <= i && 0 <= n && SkipAtoi(fmt, i, n) == SkipAtoi(fmt, start, 0)
      decreases |fmt| - i
    {
      n := n * 10 + (At(fmt, i) as int - '0' as int);
      i := i + 1;
    }
  }

  method ParseFlags(fmt: string, start: nat) returns (flags: Flags, i: nat)
    ensures (flags, i) == ReadFlags(fmt, start, NO_FLAGS)
  {
    flags, i := NO_FLAGS, start;
    while true
      invariant ReadFlags(fmt, i, flags) == ReadFlags(fmt, start, NO_FLAGS)
      decreases |fmt| - i
    {
      match At(fmt, i) {
        case '-' => flags := flags.(left := true);
        case '+' => flags := flags.(plus := true);
        case ' ' => flags := flags.(space := true);
        case '#' => flags := flags.(special := true);
        case '0' => flags := flags.(zeropad := true);
        case _ => return;
      }
      i := i + 1;
    }
  }

  /** From after the '%' to the letter. */
  method ParseSpec(fmt: string, start: nat, args: nat -> Arg, first: nat) returns (s: Spec)
    ensures s == ReadSpec(fmt, start, args, first)
  {
    var flags, i := ParseFlags(fmt, start);
    hide ReadFlags, SkipAtoi;
    var a, width := first, -1;
    if IsDigit(At(fmt, i)) {
      width, i := SkipNumber(fmt, i);
    } else if At(fmt, i) == '*' {
      width := Word(args(a).num);
      a := a + 1;
      if width < 0 {
        width := Negated(width);
        flags := flags.(left := true);
      }
    }
    var precision := -1;
    if At(fmt, i) == '.' {
      i := i + 1;
      if IsDigit(At(fmt, i)) {
        precision, i := SkipNumber(fmt, i);
      } else if At(fmt, i) == '*' {
        precision := Word(args(a).num);
        a := a + 1;
      }
      if precision < 0 {
        precision := 0;
      }
    }
    if IsQualifier(At(fmt, i)) {
      i := i + 1;
    }
    s := Spec(flags, width, precision, i, a);
  }

  method PrintCharacter(buf: array<char>, start: nat, s: Spec, n: int) returns (str: nat)
    requires start + |CharText(s, n)| <= buf.Length
    modifies buf
    ensures str == start + |CharText(s, n)| && buf[..str] == old(buf[..start]) + CharText(s, n)
  {
    var width := s.width;
    str, width := PadIf(buf, start, ' ', width - 1, !s.flags.left);
    str := Emit(buf, str, (n % 256) as char);
    var left;
    str, left := Fill(buf, str, ' ', width);
    hide Repeat;
  }

  method PrintString(buf: array<char>, start: nat, s: Spec, text: string) returns (str: nat)
    requires start + |StringText(s, text)| <= buf.Length
    modifies buf
    ensures str == start + |StringText(s, text)| && buf[..str] == old(buf[..start]) + StringText(s, text)
  {
    var len := |text|;
    if s.precision >= 0 && len > s.precision {
      len := s.precision;
    }
    ghost var before := buf[..start];
    var width, left;
    str, width := PadIf(buf, start, ' ', s.width - len, !s.flags.left);
    str := CopyCharacters(buf, str, text, len);
    str, left := Fill(buf, str, ' ', width);
    PaddedIs(before, s, text, len, width);
  }

  method CopyCharacters(buf: array<char>, start: nat, text: string, len: nat) returns (str: nat)
    requires len <= |text| && start + len <= buf.Length
    modifies buf
    ensures str == start + len && buf[..str] == old(buf[..start]) + text[..len]
  {
    str := start;
    var i := 0;
    while i < len
      invariant 0 <= i <= len && str == start + i && buf[..str] == old(buf[..start]) + text[..i]
    {
      assert text[..i + 1] == text[..i] + [text[i]];
      str := Emit(buf, str, text[i]);
      i := i + 1;
    }
  }

  lemma PaddedIs(before: string, s: Spec, text: string, len: nat, width: int)
    requires len == if 0 <= s.precision < |text| then s.precision else |text|
    requires if s.flags.left then width == s.width - len else width < 0
    ensures before + PadText(' ', s.width - len, !s.flags.left) + text[..len] + Repeat(' ', width) == before + StringText(s, text)
  {
    assert width < 0 ==> Repeat(' ', width) == "";
    var pad := Repeat(' ', s.width - len);
    var shown := text[..len];
    if s.flags.left {
      assert before + "" + shown + pad == before + (shown + pad);
    } else {
      assert before + pad + shown + "" == before + (pad + shown);
    }
  }

  /** The `switch` on the letter of the conversion. */
  method PrintConversion(buf: array<char>, start: nat, c: char, s: Spec, arg: Arg) returns (str: nat)
    requires start + |ConversionText(c, s, arg)| <= buf.Length
    modifies buf
    ensures str == start + |ConversionText(c, s, arg)|
    ensures buf[..str] == old(buf[..start]) + ConversionText(c, s, arg)
  {
    hide NumberText, CharText, StringText;
    str := start;
    if c == 'c' {
      str := PrintCharacter(buf, str, s, Word(arg.num));
    } else if c == 's' {
      str := PrintString(buf, str, s, arg.text);
    } else if NumberBase(c) != 0 {
      str := Number(buf, str, Word(arg.num), NumberBase(c), NumberWidth(c, s), s.precision, NumberFlags(c, s));
    } else if c == 'n' {
    } else {
      if c != '%' {
        str := Emit(buf, str, '%');
      }
      if c != NUL {
        str := Emit(buf, str, c);
      }
    }
  }

  lemma FormatStep(fmt: string, args: nat -> Arg, i: nat, a: nat)
    requires i < |fmt| && fmt[i] == '%'
    ensures var s := ReadSpec(fmt, i + 1, args, a);
      var c := At(fmt, s.at);
      Format(fmt, args, i, a) == ConversionText(c, s, args(s.arg)) +
        Format(fmt, args, if c == NUL then s.at else s.at + 1, if TakesArgument(c) then s.arg + 1 else s.arg)
  {
    hide ReadSpec, ConversionText;
  }

  /** One conversion: its text goes to the buffer, and the cursor behind its letter. */
  method PrintSpec(buf: array<char>, start: nat, fmt: string, i: nat, args: nat -> Arg, a: nat)
    returns (str: nat, next: nat, arg: nat)
    requires i < |fmt| && fmt[i] == '%' && start + |Format(fmt, args, i, a)| <= buf.Length
    modifies buf
    ensures i < next && str + |Format(fmt, args, next, arg)| == start + |Format(fmt, args, i, a)|
    ensures buf[..str] + Format(fmt, args, next, arg) == old(buf[..start]) + Format(fmt, args, i, a)
  {
    hide *;
    FormatStep(fmt, args, i, a);
    var s := ParseSpec(fmt, i + 1, args, a);
    var c := At(fmt, s.at);
    next := if c == NUL then s.at else s.at + 1;
    arg := if TakesArgument(c) then s.arg + 1 else s.arg;
    EndIsNul(fmt, i + 1, args, a);
    Shift(buf[..start], ConversionText(c, s, args(s.arg)), Format(fmt, args, next, arg));
    str := PrintConversion(buf, start, c, s, args(s.arg));
  }

  lemma EndIsNul(fmt: string, i: nat, args: nat -> Arg, a: nat)
    ensures i <= ReadSpec(fmt, i, args, a).at
  {
  }

  lemma LiteralStep(fmt: string, args: nat -> Arg, i: nat, a: nat)
    requires i < |fmt| && fmt[i] != '%'
    ensures Format(fmt, args, i, a) == [fmt[i]] + Format(fmt, args, i + 1, a)
  {
  }

  lemma FormatEnd(fmt: string, args: nat -> Arg, i: nat, a: nat)
    requires i >= |fmt|
    ensures Format(fmt, args, i, a) == ""
  {
  }

  /** The length of the text, which is in buf with a NUL behind it. */
  method VSprintf(buf: array<char>, fmt: string, args: nat -> Arg) returns (n: nat)
    requires |Format(fmt, args, 0, 0)| < buf.Length
    modifies buf
    ensures n == |Format(fmt, args, 0, 0)| && buf[..n] == Format(fmt, args, 0, 0) && buf[n] == NUL
  {
    hide Format;
    ghost var all := Format(fmt, args, 0, 0);
    var str: nat, i: nat, a: nat := 0, 0, 0;
    while i < |fmt|
      invariant str + |Format(fmt, args, i, a)| == |all|
      invariant buf[..str] + Format(fmt, args, i, a) == all
      decreases |fmt| - i
    {
      if fmt[i] != '%' {
        LiteralStep(fmt, args, i, a);
        Shift(buf[..str], [fmt[i]], Format(fmt, args, i + 1, a));
        str := Emit(buf, str, fmt[i]);
        i := i + 1;
      } else {
        str, i, a := PrintSpec(buf, str, fmt, i, args, a);
      }
    }
    FormatEnd(fmt, args, i, a);
    buf[str] := NUL;
    n := str;
  }

  lemma Shift(a: string, b: string, c: string)
    ensures a + (b + c) == a + b + c
  {
  }
}
