/** `number` of vsprintf.c: a 32-bit integer as text, in any base from 2 to 36. */
module Printf {

  const WORD := 0x1_0000_0000
  const MIN_INT := -0x8000_0000
  const MAX_INT := 0x7fff_ffff

  /** The bits of `type`. */
  datatype Flags = Flags(zeropad: bool, sign: bool, plus: bool, space: bool, left: bool, special: bool, small: bool)

  const UPPER := "0123456789ABCDEFGHIJKLMNOPQRSTUVWXYZ"
  const LOWER := "0123456789abcdefghijklmnopqrstuvwxyz"

  function DigitChar(d: int, small: bool): char
    requires 0 <= d < 36
  {
    if d < 10 then (d + '0' as int) as char
    else if small then (d - 10 + 'a' as int) as char
    else (d - 10 + 'A' as int) as char
  }

  /** The table `digits`. */
  function DigitSet(f: Flags): (s: string)
    ensures |s| == 36
  {
    seq(36, d requires 0 <= d < 36 => DigitChar(d, f.small))
  }

  lemma DigitTables(f: Flags)
    ensures DigitSet(f) == if f.small then LOWER else UPPER
  {
  }

  /** `do_div`. */
  function Quotient(n: int, base: int): (q: int)
    requires 0 <= n && 2 <= base
    ensures 0 <= q && 2 * q <= n && (n < base <==> q == 0)
  {
    DivideAndRemainder(n, base);
    n / base
  }

  function Remainder(n: int, base: int): (r: int)
    requires 0 <= n && 2 <= base
    ensures 0 <= r < base && (n < base ==> r == n)
  {
    n % base
  }

  lemma DivideAndRemainder(n: int, base: int)
    requires 0 <= n && 2 <= base
    ensures (n / base) * base + n % base == n && 0 <= n / base && 2 * (n / base) <= n && (n < base <==> n / base == 0)
  {
    var q := n / base;
    assert q * base <= n;
    assert q * 2 <= q * base;
  }

  lemma QuotientAndRemainder(n: int, base: int)
    requires 0 <= n && 2 <= base
    ensures Quotient(n, base) * base + Remainder(n, base) == n
  {
    DivideAndRemainder(n, base);
  }

  predicate IsInt(n: int) {
    MIN_INT <= n <= MAX_INT
  }

  // ---------- the text of a number ----------

  /** What is printed as digits: the absolute value, or the 32 bits taken as an unsigned number. */
  function Magnitude(num: int, f: Flags): (u: int)
    requires IsInt(num)
    ensures 0 <= u < WORD
  {
    if num >= 0 then num else if f.sign then -num else num + WORD
  }

  /** The digits of u, the last one first, as `tmp` holds them. */
  function DigitsFromLow(u: int, base: int, symbols: string): (d: string)
    requires 0 <= u && 2 <= base <= |symbols|
    ensures |d| >= 1
    decreases u
  {
    if u < base then [symbols[u]]
    else [symbols[Remainder(u, base)]] + DigitsFromLow(Quotient(u, base), base, symbols)
  }

  function Reversed(s: string): (r: string)
    ensures |r| == |s|
  {
    if s == [] then [] else Reversed(s[1..]) + [s[0]]
  }

  function Digits(u: int, base: int, symbols: string): string
    requires 0 <= u && 2 <= base <= |symbols|
  {
    Reversed(DigitsFromLow(u, base, symbols))
  }

  function Repeat(c: char, n: int): (s: string)
    ensures |s| == if n > 0 then n else 0
    ensures forall k :: 0 <= k < |s| ==> s[k] == c
  {
    seq(if n > 0 then n else 0, _ => c)
  }

  function SignText(num: int, f: Flags): string {
    if f.sign && num < 0 then "-" else if f.plus then "+" else if f.space then " " else ""
  }

  function PrefixText(base: int, f: Flags): string {
    if f.special && base == 8 then "0" else if f.special && base == 16 then ['0', DigitSet(f)[33]] else ""
  }

  /** Sign and prefix, the digits with zeros up to the precision, and what it takes to fill the width. */
  function NumberText(num: int, base: int, size: int, precision: int, f: Flags): string
    requires IsInt(num) && 2 <= base <= 36
  {
    var digits := Digits(Magnitude(num, f), base, DigitSet(f));
    var head := SignText(num, f) + PrefixText(base, f);
    var number := Repeat('0', precision - |digits|) + digits;
    var pad := size - |head| - |number|;
    if f.left then head + number + Repeat(' ', pad)
    else if f.zeropad then head + Repeat('0', pad) + number
    else Repeat(' ', pad) + head + number
  }

  function Max(a: int, b: int): int {
    if a < b then b else a
  }

  /** The width is a minimum; otherwise sign, prefix and digits decide. */
  lemma NumberLength(num: int, base: int, size: int, precision: int, f: Flags)
    requires IsInt(num) && 2 <= base <= 36
    ensures |NumberText(num, base, size, precision, f)| ==
      Max(size, |SignText(num, f)| + |PrefixText(base, f)| + Max(|Digits(Magnitude(num, f), base, DigitSet(f))|, precision))
  {
  }

  // ---------- reading it back ----------

  /** The value of a digit character of either case; -1 for any other. */
  function DigitValue(c: char): int {
    if '0' <= c <= '9' then c as int - '0' as int
    else if 'A' <= c <= 'Z' then c as int - 'A' as int + 10
    else if 'a' <= c <= 'z' then c as int - 'a' as int + 10
    else -1
  }

  /** The number the leading digits of s stand for, given what came before. */
  function ReadDigits(s: string, base: int, acc: int): int {
    if s == [] || DigitValue(s[0]) < 0 then acc else ReadDigits(s[1..], base, acc * base + DigitValue(s[0]))
  }

  function SkipSpaces(s: string): string {
    if s != [] && s[0] == ' ' then SkipSpaces(s[1..]) else s
  }

  /** Spaces, a sign, the prefix that the flags announce, digits; what follows is not read. */
  function ReadNumber(s: string, base: int, special: bool): int {
    var t := SkipSpaces(s);
    var negative := t != [] && t[0] == '-';
    var u := if t != [] && (t[0] == '-' || t[0] == '+') then t[1..] else t;
    var v := if special && base == 16 && |u| >= 2 then u[2..] else u;
    var n := ReadDigits(v, base, 0);
    if negative then -n else n
  }

  lemma DigitSetValues(f: Flags, d: int)
    requires 0 <= d < 36
    ensures DigitValue(DigitSet(f)[d]) == d
  {
  }

  lemma {:induction false} ReadAppend(s: string, t: string, base: int, acc: int)
    requires forall k :: 0 <= k < |s| ==> DigitValue(s[k]) >= 0
    ensures ReadDigits(s + t, base, acc) == ReadDigits(t, base, ReadDigits(s, base, acc))
    decreases |s|
  {
    if s == [] {
      assert s + t == t;
    } else {
      assert (s + t)[1..] == s[1..] + t;
      ReadAppend(s[1..], t, base, acc * base + DigitValue(s[0]));
    }
  }

  lemma {:induction false} ReadZeros(n: int, t: string, base: int)
    ensures ReadDigits(Repeat('0', n) + t, base, 0) == ReadDigits(t, base, 0)
    decreases n
  {
    if n <= 0 {
      assert Repeat('0', n) + t == t;
    } else {
      assert (Repeat('0', n) + t)[1..] == Repeat('0', n - 1) + t;
      ReadZeros(n - 1, t, base);
    }
  }

  lemma {:induction false} LowDigitsAreDigits(u: int, base: int, f: Flags)
    requires 0 <= u && 2 <= base <= 36
    ensures forall k :: 0 <= k < |DigitsFromLow(u, base, DigitSet(f))| ==> DigitValue(DigitsFromLow(u, base, DigitSet(f))[k]) >= 0
    decreases u
  {
    hide Quotient, Remainder, DigitSet, DigitValue;
    DigitSetValues(f, Remainder(u, base));
    if u >= base {
      LowDigitsAreDigits(Quotient(u, base), base, f);
    }
  }

  lemma {:induction false} ReversedIn(s: string, k: int)
    requires 0 <= k < |s|
    ensures Reversed(s)[k] == s[|s| - 1 - k]
    decreases |s|
  {
    if k < |s| - 1 {
      ReversedIn(s[1..], k);
    }
  }

  lemma DigitsAreDigits(u: int, base: int, f: Flags)
    requires 0 <= u && 2 <= base <= 36
    ensures forall k :: 0 <= k < |Digits(u, base, DigitSet(f))| ==> DigitValue(Digits(u, base, DigitSet(f))[k]) >= 0
  {
    LowDigitsAreDigits(u, base, f);
    var low := DigitsFromLow(u, base, DigitSet(f));
    forall k | 0 <= k < |low| ensures DigitValue(Reversed(low)[k]) >= 0 {
      ReversedIn(low, k);
    }
  }

  lemma ReadLast(c: char, base: int, acc: int)
    requires DigitValue(c) >= 0
    ensures ReadDigits([c], base, acc) == acc * base + DigitValue(c)
  {
    assert [c][1..] == [];
  }

  /** The last digit and the digits before it. */
  lemma DigitsStep(u: int, base: int, symbols: string) returns (q: int, r: int)
    requires 0 <= u && 2 <= base <= |symbols|
    ensures u == q * base + r && 0 <= r < base && 0 <= q && (u >= base ==> q < u) && (u < base ==> q == 0)
    ensures Digits(u, base, symbols) == if u < base then [symbols[r]] else Digits(q, base, symbols) + [symbols[r]]
  {
    q, r := Quotient(u, base), Remainder(u, base);
    QuotientAndRemainder(u, base);
    hide Quotient, Remainder;
    var low := DigitsFromLow(u, base, symbols);
    if u < base {
      assert low[1..] == [];
    } else {
      assert low[1..] == DigitsFromLow(q, base, symbols);
    }
  }

  /** Digit generation and reading are inverse to each other. */
  lemma {:induction false} ReadDigitsBack(u: int, base: int, f: Flags)
    requires 0 <= u && 2 <= base <= 36
    ensures ReadDigits(Digits(u, base, DigitSet(f)), base, 0) == u
    decreases u
  {
    hide DigitValue, ReadDigits, Digits, DigitSet;
    var symbols := DigitSet(f);
    var q, r := DigitsStep(u, base, symbols);
    DigitSetValues(f, r);
    if u < base {
      ReadLast(symbols[r], base, 0);
    } else {
      ReadDigitsBack(q, base, f);
      DigitsAreDigits(q, base, f);
      ReadAppend(Digits(q, base, symbols), [symbols[r]], base, 0);
      ReadLast(symbols[r], base, q);
    }
  }

  // ---------- numerals ----------

  /** s is written in digits of this base and case, without a leading zero unless it is the only digit. */
  predicate IsNumeral(s: string, base: int, small: bool) {
    && |s| >= 1 && (|s| == 1 || s[0] != '0')
    && forall k :: 0 <= k < |s| ==> 0 <= DigitValue(s[k]) < base && !(if small then 'A' <= s[k] <= 'Z' else 'a' <= s[k] <= 'z')
  }

  lemma DigitIs(c: char, f: Flags)
    requires 0 <= DigitValue(c) < 36 && !(if f.small then 'A' <= c <= 'Z' else 'a' <= c <= 'z')
    ensures DigitSet(f)[DigitValue(c)] == c
  {
  }

  lemma DigitOf(d: int, f: Flags)
    requires 0 <= d < 36
    ensures DigitValue(DigitSet(f)[d]) == d
    ensures var c := DigitSet(f)[d]; !(if f.small then 'A' <= c <= 'Z' else 'a' <= c <= 'z') && (c == '0' <==> d == 0)
  {
  }

  lemma {:induction false} ReadGrows(s: string, base: int, acc: int)
    requires 2 <= base && 0 <= acc && forall k :: 0 <= k < |s| ==> DigitValue(s[k]) >= 0
    ensures ReadDigits(s, base, acc) >= acc
    decreases |s|
  {
    if s != [] {
      Grows(acc, base);
      ReadGrows(s[1..], base, acc * base + DigitValue(s[0]));
    }
  }

  lemma Grows(acc: int, base: int)
    requires 2 <= base && 0 <= acc
    ensures acc * base >= acc
  {
  }

  lemma QuotientUnique(q: int, r: int, p: int, t: int, base: int)
    requires 2 <= base && 0 <= r < base && 0 <= t < base && q * base + r == p * base + t
    ensures q == p && r == t
  {
    assert (p - q) * base == p * base - q * base;
    assert (p - q) * base == r - t;
    if q < p {
      AtLeastOnce(p - q, base);
    } else if p < q {
      AtLeastOnce(q - p, base);
    }
  }

  lemma AtLeastOnce(d: int, base: int)
    requires 1 <= d && 0 <= base
    ensures d * base >= base
  {
  }

  lemma {:induction false} DigitsAreNumeral(u: int, base: int, f: Flags)
    requires 0 <= u && 2 <= base <= 36
    ensures IsNumeral(Digits(u, base, DigitSet(f)), base, f.small) && (Digits(u, base, DigitSet(f))[0] == '0' <==> u == 0)
    decreases u
  {
    hide Digits, DigitSet, DigitValue;
    var q, r := DigitsStep(u, base, DigitSet(f));
    DigitOf(r, f);
    if u >= base {
      QuotientPositive(u, q, r, base);
      DigitsAreNumeral(q, base, f);
    }
  }

  lemma QuotientPositive(u: int, q: int, r: int, base: int)
    requires u == q * base + r && 0 <= r < base <= u && 0 <= q
    ensures q >= 1
  {
  }

  lemma {:induction false} NumeralIs(s: string, u: int, base: int, f: Flags)
    requires 2 <= base <= 36 && IsNumeral(s, base, f.small) && ReadDigits(s, base, 0) == u && 0 <= u
    ensures s == Digits(u, base, DigitSet(f))
    decreases |s|
  {
    hide Digits, DigitSet, DigitValue, ReadDigits;
    var k := |s| - 1;
    var init, c := s[..k], s[k];
    assert s == init + [c];
    ReadAppend(init, [c], base, 0);
    ReadLast(c, base, ReadDigits(init, base, 0));
    DigitIs(c, f);
    var q, r := DigitsStep(u, base, DigitSet(f));
    LeadingIs(init, base);
    SplitIs(u, q, r, ReadDigits(init, base, 0), DigitValue(c), base);
    if k > 0 {
      assert init[0] == s[0];
      NumeralIs(init, q, base, f);
    }
  }

  lemma SplitIs(u: int, q: int, r: int, p: int, t: int, base: int)
    requires 2 <= base && u == q * base + r && u == p * base + t && 0 <= r < base && 0 <= t < base && 0 <= p
    ensures q == p && r == t && (u < base <==> p == 0)
  {
    QuotientUnique(q, r, p, t, base);
    if p >= 1 {
      AtLeastOnce(p, base);
    }
  }

  lemma LeadingIs(s: string, base: int)
    requires 2 <= base && forall k :: 0 <= k < |s| ==> DigitValue(s[k]) >= 0
    ensures s == [] ==> ReadDigits(s, base, 0) == 0
    ensures s != [] && s[0] != '0' ==> ReadDigits(s, base, 0) >= 1
    ensures ReadDigits(s, base, 0) >= 0
  {
    ReadGrows(s, base, 0);
    if s != [] && s[0] != '0' {
      assert DigitValue(s[0]) >= 1;
      ReadGrows(s[1..], base, DigitValue(s[0]));
    }
  }

  /** The digits printed are the numeral of the value: no other text is. */
  lemma DigitsIff(s: string, u: int, base: int, f: Flags)
    requires 0 <= u && 2 <= base <= 36
    ensures s == Digits(u, base, DigitSet(f)) <==> IsNumeral(s, base, f.small) && ReadDigits(s, base, 0) == u
  {
    ReadDigitsBack(u, base, f);
    DigitsAreNumeral(u, base, f);
    if IsNumeral(s, base, f.small) && ReadDigits(s, base, 0) == u {
      NumeralIs(s, u, base, f);
    }
  }

  function Pow2(k: nat): int {
    if k == 0 then 1 else 2 * Pow2(k - 1)
  }

  lemma {:induction false} DigitCount(u: int, base: int, symbols: string, k: nat)
    requires 0 <= u < Pow2(k) && 2 <= base <= |symbols| && k >= 1
    ensures |DigitsFromLow(u, base, symbols)| <= k
    decreases k
  {
    hide Quotient, Remainder;
    if u >= base {
      DigitCount(Quotient(u, base), base, symbols, k - 1);
    }
  }

  /** The digits of every number fit the 36 characters of `tmp`. */
  lemma DigitsFit(num: int, base: int, f: Flags)
    requires IsInt(num) && 2 <= base <= 36
    ensures |Digits(Magnitude(num, f), base, DigitSet(f))| <= 32
  {
    assert Pow2(4) == 16;
    PowersAdd(4, 4);
    PowersAdd(8, 8);
    PowersAdd(16, 16);
    DigitCount(Magnitude(num, f), base, DigitSet(f), 32);
  }

  lemma {:induction false} PowersAdd(a: nat, b: nat)
    ensures Pow2(a + b) == Pow2(a) * Pow2(b)
  {
    if b > 0 {
      PowersAdd(a, b - 1);
    }
  }

  // ---------- the round trip ----------

  lemma {:induction false} SkipRepeat(n: int, t: string)
    ensures SkipSpaces(Repeat(' ', n) + t) == SkipSpaces(t)
    decreases n
  {
    if n <= 0 {
      assert Repeat(' ', n) + t == t;
    } else {
      assert (Repeat(' ', n) + t)[1..] == Repeat(' ', n - 1) + t;
      SkipRepeat(n - 1, t);
    }
  }

  /** Zeros, digits and spaces read as the digits. */
  lemma ReadBody(zeros: int, u: int, base: int, f: Flags, spaces: int)
    requires 0 <= u && 2 <= base <= 36
    ensures ReadDigits(Repeat('0', zeros) + Digits(u, base, DigitSet(f)) + Repeat(' ', spaces), base, 0) == u
  {
    var d := Digits(u, base, DigitSet(f));
    var tail := Repeat(' ', spaces);
    assert Repeat('0', zeros) + d + tail == Repeat('0', zeros) + (d + tail);
    ReadZeros(zeros, d + tail, base);
    DigitsAreDigits(u, base, f);
    ReadAppend(d, tail, base, 0);
    ReadDigitsBack(u, base, f);
  }

  /** The prefix of base 8 reads as a leading zero, that of base 16 is skipped. */
  lemma ReadPrefixed(base: int, f: Flags, zeros: int, u: int, spaces: int)
    requires 0 <= u && 2 <= base <= 36
    ensures var body := Repeat('0', zeros) + Digits(u, base, DigitSet(f)) + Repeat(' ', spaces);
      var s := PrefixText(base, f) + body;
      && s != [] && DigitValue(s[0]) >= 0
      && ReadDigits(if f.special && base == 16 && |s| >= 2 then s[2..] else s, base, 0) == u
  {
    var d := Digits(u, base, DigitSet(f));
    var body := Repeat('0', zeros) + d + Repeat(' ', spaces);
    ReadBody(zeros, u, base, f, spaces);
    DigitsAreDigits(u, base, f);
    assert DigitValue(body[0]) >= 0 by {
      if zeros <= 0 {
        assert body[0] == d[0];
      }
    }
    if f.special && base == 16 {
      assert (PrefixText(base, f) + body)[2..] == body;
    } else if f.special && base == 8 {
      assert ("0" + body)[1..] == body;
    } else {
      assert PrefixText(base, f) + body == body;
    }
  }

  /** The text is spaces, sign, prefix, zeros, digits, spaces.  The sign is '-' for a negative number under
      SIGN and else what the flags ask for.  Zeros fill the precision; what is then missing of the width is
      spaces behind under LEFT, zeros under ZEROPAD alone, and spaces in front otherwise. */
  lemma Layout(num: int, base: int, size: int, precision: int, f: Flags)
      returns (before: nat, sign: string, prefix: string, zeros: nat, digits: string, after: nat)
    requires IsInt(num) && 2 <= base <= 36
    ensures NumberText(num, base, size, precision, f) ==
      Repeat(' ', before) + (sign + (prefix + (Repeat('0', zeros) + digits + Repeat(' ', after))))
    ensures sign == SignText(num, f) && prefix == PrefixText(base, f) && digits == Digits(Magnitude(num, f), base, DigitSet(f))
    ensures sign == if num < 0 && f.sign then "-" else if f.plus then "+" else if f.space then " " else ""
    ensures prefix == if !f.special then "" else if base == 8 then "0" else if base != 16 then "" else if f.small then "0x" else "0X"
    ensures before > 0 ==> !f.left && !f.zeropad
    ensures after > 0 ==> f.left
    ensures |digits| + zeros > Max(|digits|, precision) ==> f.zeropad && !f.left
    ensures |digits| + zeros >= precision
    ensures before + |sign| + |prefix| + zeros + |digits| + after == Max(size, |sign| + |prefix| + Max(|digits|, precision))
  {
    HeadTexts(num, base, f);
    sign, prefix, digits := SignText(num, f), PrefixText(base, f), Digits(Magnitude(num, f), base, DigitSet(f));
    before, zeros, after := Parts(num, base, size, precision, f, sign, prefix, digits);
  }

  ghost function Assembled(before: nat, sign: string, prefix: string, zeros: nat, digits: string, after: nat): string {
    Repeat(' ', before) + (sign + (prefix + (Repeat('0', zeros) + digits + Repeat(' ', after))))
  }

  lemma Parts(num: int, base: int, size: int, precision: int, f: Flags, sign: string, prefix: string, digits: string)
      returns (before: nat, zeros: nat, after: nat)
    requires IsInt(num) && 2 <= base <= 36
    requires sign == SignText(num, f) && prefix == PrefixText(base, f) && digits == Digits(Magnitude(num, f), base, DigitSet(f))
    ensures NumberText(num, base, size, precision, f) == Assembled(before, sign, prefix, zeros, digits, after)
    ensures (before > 0 ==> !f.left && !f.zeropad) && (after > 0 ==> f.left)
    ensures |digits| + zeros > Max(|digits|, precision) ==> f.zeropad && !f.left
    ensures |digits| + zeros >= precision
    ensures before + |sign| + |prefix| + zeros + |digits| + after == Max(size, |sign| + |prefix| + Max(|digits|, precision))
  {
    var missing := if precision > |digits| then precision - |digits| else 0;
    var pad := size - |sign| - |prefix| - missing - |digits|;
    var fill := if pad > 0 then pad else 0;
    Fields(|sign| + |prefix|, |digits|, precision, missing, size, fill);
    PartsOf(num, base, size, precision, f, sign, prefix, missing, digits, pad, fill);
    hide *;
    before := if f.left || f.zeropad then 0 else fill;
    zeros := if f.zeropad && !f.left then missing + fill else missing;
    after := if f.left then fill else 0;
  }

  lemma Fields(head: nat, digits: nat, precision: int, missing: nat, size: int, fill: nat)
    requires missing == if precision > digits then precision - digits else 0
    requires var pad := size - head - missing - digits; fill == if pad > 0 then pad else 0
    ensures missing + digits == Max(digits, precision) && head + missing + digits + fill == Max(size, head + Max(digits, precision))
  {
  }

  lemma PartsOf(num: int, base: int, size: int, precision: int, f: Flags, sign: string, prefix: string, missing: nat,
      digits: string, pad: int, fill: nat)
    requires IsInt(num) && 2 <= base <= 36
    requires sign == SignText(num, f) && prefix == PrefixText(base, f) && digits == Digits(Magnitude(num, f), base, DigitSet(f))
    requires missing == (if precision > |digits| then precision - |digits| else 0)
    requires pad == size - |sign| - |prefix| - missing - |digits| && fill == (if pad > 0 then pad else 0)
    ensures NumberText(num, base, size, precision, f) ==
      if f.left then Assembled(0, sign, prefix, missing, digits, fill)
      else if f.zeropad then Assembled(0, sign, prefix, missing + fill, digits, 0)
      else Assembled(fill, sign, prefix, missing, digits, 0)
  {
    hide SignText, PrefixText, Digits, Magnitude, DigitSet, Repeat, Assembled;
    assert |sign + prefix| == |sign| + |prefix|;
    var n := precision - |digits|;
    LeftText(sign, prefix, n, missing, digits, pad, fill);
    ZeroText(sign, prefix, n, missing, digits, pad, fill);
    RightText(sign, prefix, n, missing, digits, pad, fill);
  }

  lemma HeadTexts(num: int, base: int, f: Flags)
    ensures SignText(num, f) == if num < 0 && f.sign then "-" else if f.plus then "+" else if f.space then " " else ""
    ensures PrefixText(base, f) == if !f.special then "" else if base == 8 then "0" else if base != 16 then "" else if f.small then "0x" else "0X"
  {
  }

  /** The three layouts of one number, each as spaces, sign, prefix, zeros, digits, spaces. */
  lemma LeftText(sign: string, prefix: string, n: int, missing: nat, digits: string, pad: int, fill: nat)
    requires missing == (if n > 0 then n else 0) && fill == (if pad > 0 then pad else 0)
    ensures sign + prefix + (Repeat('0', n) + digits) + Repeat(' ', pad) == Assembled(0, sign, prefix, missing, digits, fill)
  {
    assert Repeat('0', n) == Repeat('0', missing) && Repeat(' ', pad) == Repeat(' ', fill) && Repeat(' ', 0) == "";
    hide Repeat;
    Concatenate(Repeat(' ', 0), sign, prefix, Repeat('0', missing), digits, Repeat(' ', fill));
  }

  lemma ZeroText(sign: string, prefix: string, n: int, missing: nat, digits: string, pad: int, fill: nat)
    requires missing == (if n > 0 then n else 0) && fill == (if pad > 0 then pad else 0)
    ensures sign + prefix + Repeat('0', pad) + (Repeat('0', n) + digits) == Assembled(0, sign, prefix, missing + fill, digits, 0)
  {
    assert Repeat('0', n) == Repeat('0', missing) && Repeat(' ', 0) == "";
    assert Repeat('0', missing + fill) == Repeat('0', pad) + Repeat('0', missing);
    hide Repeat;
    Concatenate(Repeat(' ', 0), sign, prefix, Repeat('0', pad) + Repeat('0', missing), digits, Repeat(' ', 0));
  }

  lemma RightText(sign: string, prefix: string, n: int, missing: nat, digits: string, pad: int, fill: nat)
    requires missing == (if n > 0 then n else 0) && fill == (if pad > 0 then pad else 0)
    ensures Repeat(' ', pad) + (sign + prefix) + (Repeat('0', n) + digits) == Assembled(fill, sign, prefix, missing, digits, 0)
  {
    assert Repeat('0', n) == Repeat('0', missing) && Repeat(' ', pad) == Repeat(' ', fill) && Repeat(' ', 0) == "";
    hide Repeat;
    Concatenate(Repeat(' ', fill), sign, prefix, Repeat('0', missing), digits, Repeat(' ', 0));
  }

  lemma Concatenate(a: string, b: string, c: string, d: string, e: string, f: string)
    ensures a + (b + (c + (d + e + f))) == a + b + c + d + e + f
  {
  }

  /** After the sign comes what is read as digits, perhaps behind a prefix. */
  function ReadUnsigned(rest: string, base: int, special: bool): int {
    ReadDigits(if special && base == 16 && |rest| >= 2 then rest[2..] else rest, base, 0)
  }

  lemma ReadSigned(sign: string, rest: string, base: int, special: bool)
    requires sign == "" || sign == " " || sign == "+" || sign == "-"
    requires rest != [] && DigitValue(rest[0]) >= 0
    ensures ReadNumber(sign + rest, base, special) ==
      if sign == "-" then -ReadUnsigned(rest, base, special) else ReadUnsigned(rest, base, special)
  {
    assert rest[0] != ' ' && rest[0] != '-' && rest[0] != '+';
    hide ReadDigits;
    assert SkipSpaces(rest) == rest;
    if sign == "" {
      assert sign + rest == rest;
    } else {
      assert (sign + rest)[1..] == rest;
    }
  }

  lemma ReadPadded(before: int, s: string, base: int, special: bool)
    ensures ReadNumber(Repeat(' ', before) + s, base, special) == ReadNumber(s, base, special)
  {
    SkipRepeat(before, s);
    hide ReadDigits, SkipSpaces;
  }

  /** What `number` prints reads back as the number printed: as a signed number under SIGN, the least
      one included, and as the unsigned value of its 32 bits otherwise. */
  lemma RoundTrip(num: int, base: int, size: int, precision: int, f: Flags)
    requires IsInt(num) && 2 <= base <= 36
    ensures ReadNumber(NumberText(num, base, size, precision, f), base, f.special) ==
      if f.sign then num else if num < 0 then num + WORD else num
  {
    var before, sign, prefix, zeros, digits, after := Layout(num, base, size, precision, f);
    var u := Magnitude(num, f);
    var rest := PrefixText(base, f) + (Repeat('0', zeros) + Digits(u, base, DigitSet(f)) + Repeat(' ', after));
    hide Digits, DigitSet, NumberText, PrefixText, ReadDigits, Repeat, ReadNumber, SkipSpaces, DigitValue;
    ReadPrefixed(base, f, zeros, u, after);
    ReadPadded(before, SignText(num, f) + rest, base, f.special);
    ReadSigned(SignText(num, f), rest, base, f.special);
  }
}
