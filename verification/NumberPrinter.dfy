/** `number` as it runs: a cursor that moves through the buffer. */
module NumberPrinter {
  import opened Printf

  /** *str++ = c */
  method Emit(buf: array<char>, str: nat, c: char) returns (next: nat)
    requires str < buf.Length
    modifies buf
    ensures next == str + 1 && buf[..next] == old(buf[..str]) + [c]
  {
    buf[str] := c;
    next := str + 1;
  }

  /** while (size-- > 0) *str++ = c; what is left in `size` afterwards is negative. */
  method Fill(buf: array<char>, str: nat, c: char, size: int) returns (next: nat, left: int)
    requires str + (if size > 0 then size else 0) <= buf.Length
    modifies buf
    ensures next == str + |Repeat(c, size)| && buf[..next] == old(buf[..str]) + Repeat(c, size)
    ensures left == (if size > 0 then 0 else size) - 1
  {
    next, left := str, size;
    while left > 0
      invariant left <= size && next == str + |Repeat(c, size - left)| && (size <= 0 ==> left == size) && (size > 0 ==> 0 <= left)
      invariant buf[..next] == old(buf[..str]) + Repeat(c, size - left)
    {
      assert Repeat(c, size - left + 1) == Repeat(c, size - left) + [c];
      next := Emit(buf, next, c);
      left := left - 1;
    }
    left := left - 1;
  }

  /** The digits of u into tmp, the last one first. */
  method Convert(tmp: array<char>, u: int, base: int, digits: string) returns (i: nat)
    requires tmp.Length == 36 && 0 <= u && 2 <= base <= |digits|
    requires |DigitsFromLow(u, base, digits)| <= 36
    modifies tmp
    ensures i <= 36 && tmp[..i] == DigitsFromLow(u, base, digits)
  {
    if u == 0 {
      tmp[0] := digits[0];
      assert DigitsFromLow(u, base, digits) == [digits[0]] == tmp[..1];
      return 1;
    }
    hide *;
    i := 0;
    var n := u;
    ghost var all := Rest(u, base, digits);
    RestIs(u, base, digits);
    while n != 0
      invariant 0 <= n && i <= 36 && |all| <= 36
      invariant tmp[..i] + Rest(n, base, digits) == all
    {
      RestStep(n, base, digits);
      AssocOne(tmp[..i], digits[Remainder(n, base)], Rest(Quotient(n, base), base, digits));
      i := Emit(tmp, i, digits[Remainder(n, base)]);
      n := Quotient(n, base);
    }
  }

  lemma AssocOne(a: string, c: char, b: string)
    ensures a + ([c] + b) == a + [c] + b && |a| < |a + ([c] + b)|
  {
  }

  lemma RestIs(u: int, base: int, digits: string)
    requires 0 < u && 2 <= base <= |digits|
    ensures Rest(u, base, digits) == DigitsFromLow(u, base, digits) && Rest(0, base, digits) == ""
  {
  }

  /** The digits the loop still has to produce. */
  ghost function Rest(n: int, base: int, digits: string): string
    requires 0 <= n && 2 <= base <= |digits|
  {
    if n == 0 then "" else DigitsFromLow(n, base, digits)
  }

  lemma RestStep(n: int, base: int, digits: string)
    requires 0 < n && 2 <= base <= |digits|
    ensures Rest(n, base, digits) == [digits[Remainder(n, base)]] + Rest(Quotient(n, base), base, digits)
  {
    hide Quotient, Remainder;
  }

  /** The sign, if there is one, and the prefix. */
  method Head(buf: array<char>, start: nat, sign: char, base: int, special: bool, digits: string) returns (str: nat)
    requires |digits| == 36
    requires start + |HeadText(sign, base, special, digits)| <= buf.Length
    modifies buf
    ensures str == start + |HeadText(sign, base, special, digits)|
    ensures buf[..str] == old(buf[..start]) + HeadText(sign, base, special, digits)
  {
    str := start;
    if sign != NOTHING {
      str := Emit(buf, str, sign);
    }
    if special {
      if base == 8 {
        str := Emit(buf, str, '0');
      } else if base == 16 {
        str := Emit(buf, str, '0');
        str := Emit(buf, str, digits[33]);
      }
    }
  }

  const NOTHING: char := '\0'

  function HeadText(sign: char, base: int, special: bool, digits: string): string
    requires |digits| == 36
  {
    (if sign != NOTHING then [sign] else "") +
    (if special && base == 8 then "0" else if special && base == 16 then ['0', digits[33]] else "")
  }

  /** Zeros up to the precision, then the digits from the last one in tmp to the first. */
  method Body(buf: array<char>, start: nat, tmp: array<char>, digits: nat, precision: int) returns (str: nat)
    requires buf != tmp && digits <= tmp.Length && digits <= precision
    requires start + precision <= buf.Length
    modifies buf
    ensures str == start + precision == start + |Repeat('0', precision - digits) + Reversed(tmp[..digits])|
    ensures buf[..str] == old(buf[..start]) + (Repeat('0', precision - digits) + Reversed(tmp[..digits]))
  {
    ghost var before := buf[..start];
    var left;
    str, left := Fill(buf, start, '0', precision - digits);
    ghost var zeros := Repeat('0', precision - digits);
    var i := digits;
    assert Reversed(tmp[i..digits]) == "";
    while i > 0
      invariant 0 <= i <= digits && str == start + precision - i
      invariant buf[..str] == before + (zeros + Reversed(tmp[i..digits]))
    {
      i := i - 1;
      assert tmp[i..digits][1..] == tmp[i + 1..digits];
      str := Emit(buf, str, tmp[i]);
    }
    assert tmp[0..digits] == tmp[..digits];
  }

  /** The new end of the text in buf, or -1 (NULL) for a base that is not between 2 and 36. */
  method Number(buf: array<char>, start: nat, num0: int, base: int, size0: int, precision0: int, f: Flags) returns (end: int)
    requires IsInt(num0) && start <= buf.Length
    requires 2 <= base <= 36 ==> start + |NumberText(num0, base, size0, precision0, f)| <= buf.Length
    modifies buf
    ensures if 2 <= base <= 36
            then end == start + |NumberText(num0, base, size0, precision0, f)| &&
                 buf[..end] == old(buf[..start]) + NumberText(num0, base, size0, precision0, f)
            else end == -1 && buf[..] == old(buf[..])
  {
    var digits := if f.small then LOWER else UPPER;
    DigitTables(f);
    var zeropad := f.zeropad && !f.left;
    if base < 2 || base > 36 {
      return -1;
    }
    var c := if zeropad then '0' else ' ';
    var num := num0;
    var sign;
    if f.sign && num < 0 {
      sign := '-';
      num := -num;
    } else {
      sign := if f.plus then '+' else if f.space then ' ' else NOTHING;
    }
    var size, precision := size0, precision0;
    if sign != NOTHING {
      size := size - 1;
    }
    if f.special {
      if base == 16 {
        size := size - 2;
      } else if base == 8 {
        size := size - 1;
      }
    }
    HeadIs(num0, f, base, sign);
    assert (if num < 0 then num + WORD else num) == Magnitude(num0, f);
    end := Print(buf, start, num0, if num < 0 then num + WORD else num, base, size0, size, precision, precision0, sign, c, zeropad, f);
  }

  /** `number` from the conversion of the digits on. */
  method Print(buf: array<char>, start: nat, ghost num: int, u: int, base: int, ghost size0: int, size1: int, precision1: int, ghost precision0: int,
      sign: char, c: char, zeropad: bool, f: Flags) returns (end: nat)
    requires IsInt(num) && u == Magnitude(num, f) && 2 <= base <= 36 && precision1 == precision0
    requires HeadText(sign, base, f.special, DigitSet(f)) == SignText(num, f) + PrefixText(base, f)
    requires size1 == size0 - |HeadText(sign, base, f.special, DigitSet(f))|
    requires zeropad == (f.zeropad && !f.left) && c == (if zeropad then '0' else ' ')
    requires start + |NumberText(num, base, size0, precision0, f)| <= buf.Length
    modifies buf
    ensures end == start + |NumberText(num, base, size0, precision0, f)|
    ensures buf[..end] == old(buf[..start]) + NumberText(num, base, size0, precision0, f)
  {
    hide *;
    FromLow(num, u, base, f);
    var digits := if f.small then LOWER else UPPER;
    DigitTables(f);
    var tmp := new char[36];
    var i := Convert(tmp, u, base, digits);
    var size, precision := size1, precision1;
    if i > precision {
      precision := i;
    }
    size := size - precision;
    NumberParts(num, base, size0, precision0, f, tmp[..i], precision, size);
    end := Place(buf, start, sign, base, f.special, digits, tmp, i, size, precision, c, zeropad, f.left);
  }

  lemma FromLow(num: int, u: int, base: int, f: Flags)
    requires IsInt(num) && u == Magnitude(num, f) && 2 <= base <= 36
    ensures 0 <= u < WORD && |DigitsFromLow(u, base, DigitSet(f))| <= 36 && |DigitSet(f)| == 36
  {
    DigitsFit(num, base, f);
  }

  lemma HeadIs(num: int, f: Flags, base: int, sign: char)
    requires sign == if f.sign && num < 0 then '-' else if f.plus then '+' else if f.space then ' ' else NOTHING
    ensures HeadText(sign, base, f.special, DigitSet(f)) == SignText(num, f) + PrefixText(base, f)
    ensures |HeadText(sign, base, f.special, DigitSet(f))| ==
      (if sign != NOTHING then 1 else 0) + (if f.special && base == 16 then 2 else if f.special && base == 8 then 1 else 0)
  {
  }

  /** Padding, head, padding, body, padding: at most one of the three is not empty. */
  function PlacedText(head: string, number: string, pad: int, zeropad: bool, left: bool): string {
    if left then head + number + Repeat(' ', pad)
    else if zeropad then head + Repeat('0', pad) + number
    else Repeat(' ', pad) + head + number
  }

  /** The second half of `number`. */
  method Place(buf: array<char>, start: nat, sign: char, base: int, special: bool, digits: string,
      tmp: array<char>, i: nat, size0: int, precision: int, c: char, zeropad: bool, left: bool) returns (str: nat)
    requires |digits| == 36 && buf != tmp && i <= tmp.Length && i <= precision
    requires c == (if zeropad then '0' else ' ') && !(zeropad && left)
    requires start + |HeadText(sign, base, special, digits)| + precision + (if size0 > 0 then size0 else 0) <= buf.Length
    modifies buf
    ensures var text := PlacedText(HeadText(sign, base, special, digits),
        Repeat('0', precision - i) + Reversed(tmp[..i]), size0, zeropad, left);
      str == start + |text| && buf[..str] == old(buf[..start]) + text
  {
    hide HeadText, Reversed, Repeat, PlacedText;
    ghost var head, number := HeadText(sign, base, special, digits), Repeat('0', precision - i) + Reversed(tmp[..i]);
    var size;
    str, size := PadIf(buf, start, ' ', size0, !zeropad && !left);
    ghost var second := size;
    str := Head(buf, str, sign, base, special, digits);
    str, size := PadIf(buf, str, c, size, !left);
    ghost var third := size;
    str := Body(buf, str, tmp, i, precision);
    str, size := PadIf(buf, str, ' ', size, true);
    PlacedIs(old(buf[..start]), head, number, size0, second, third, zeropad, left);
  }

  /** `if (cond) while (size-- > 0) *str++ = c;` */
  method PadIf(buf: array<char>, start: nat, c: char, size: int, cond: bool) returns (str: nat, left: int)
    requires cond && size > 0 ==> start + size <= buf.Length
    requires start <= buf.Length
    modifies buf
    ensures left == if !cond then size else if size > 0 then -1 else size - 1
    ensures str == start + |PadText(c, size, cond)| && buf[..str] == old(buf[..start]) + PadText(c, size, cond)
  {
    str, left := start, size;
    if cond {
      str, left := Fill(buf, str, c, size);
    }
  }

  function PadText(c: char, size: int, cond: bool): string {
    if cond then Repeat(c, size) else ""
  }

  lemma PlacedIs(before: string, head: string, number: string, size: int, second: int, third: int, zeropad: bool, left: bool)
    requires !(zeropad && left)
    requires if zeropad || left then second == size else second < 0
    requires if left then third == second else third < 0
    ensures before + PadText(' ', size, !zeropad && !left) + head + PadText(if zeropad then '0' else ' ', second, !left) + number + PadText(' ', third, true) ==
      before + PlacedText(head, number, size, zeropad, left)
  {
    assert second < 0 ==> Repeat(' ', second) == "";
    assert third < 0 ==> Repeat(' ', third) == "";
    var pad := Repeat(if zeropad then '0' else ' ', size);
    hide Repeat;
    if left {
      assert before + "" + head + "" + number + pad == before + (head + number + pad);
    } else if zeropad {
      assert before + "" + head + pad + number + "" == before + (head + pad + number);
    } else {
      assert before + pad + head + "" + number + "" == before + (pad + head + number);
    }
  }

  lemma RepeatMissing(n: int, m: int)
    requires m == if n > 0 then n else 0
    ensures Repeat('0', n) == Repeat('0', m)
  {
  }

  /** The text of a number, with the padding that `number` has left to do when the digits are ready. */
  lemma NumberParts(num: int, base: int, size: int, precision: int, f: Flags, low: string, wide: int, pad: int)
    requires IsInt(num) && 2 <= base <= 36
    requires low == DigitsFromLow(Magnitude(num, f), base, DigitSet(f)) && wide == if |low| > precision then |low| else precision
    requires pad == size - |SignText(num, f) + PrefixText(base, f)| - wide
    ensures NumberText(num, base, size, precision, f) ==
      PlacedText(SignText(num, f) + PrefixText(base, f), Repeat('0', wide - |low|) + Reversed(low), pad, f.zeropad && !f.left, f.left)
    ensures |NumberText(num, base, size, precision, f)| == |SignText(num, f) + PrefixText(base, f)| + wide + if pad > 0 then pad else 0
  {
    hide SignText, PrefixText, DigitsFromLow, Reversed, DigitSet, Magnitude;
    RepeatMissing(precision - |low|, wide - |low|);
    hide Repeat;
  }
}
