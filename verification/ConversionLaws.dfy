/** What each conversion prints, and what each way of writing it asks for. */
module ConversionLaws {
  import opened Printf
  import opened Formatting
  import opened FormatLaws

  // ---------- numbers ----------

  lemma {:induction false} OnlyRead(fmt: string, i: nat, f: Flags)
    ensures ReadFlags(fmt, i, f).0.sign == f.sign && ReadFlags(fmt, i, f).0.small == f.small
    decreases |fmt| - i
  {
    match At(fmt, i)
    case '-' => OnlyRead(fmt, i + 1, f.(left := true));
    case '+' => OnlyRead(fmt, i + 1, f.(plus := true));
    case ' ' => OnlyRead(fmt, i + 1, f.(space := true));
    case '#' => OnlyRead(fmt, i + 1, f.(special := true));
    case '0' => OnlyRead(fmt, i + 1, f.(zeropad := true));
    case _ =>
  }

  /** SIGN and SMALL come from the letter alone. */
  lemma SpecPlain(fmt: string, i: nat, args: nat -> Arg, a: nat)
    ensures !ReadSpec(fmt, i, args, a).flags.sign && !ReadSpec(fmt, i, args, a).flags.small
  {
    OnlyRead(fmt, i, NO_FLAGS);
    hide ReadFlags, SkipAtoi;
  }

  predicate Numeric(c: char) {
    c == 'o' || c == 'x' || c == 'X' || c == 'p' || IsDecimal(c)
  }

  predicate IsDecimal(c: char) {
    c == 'd' || c == 'i' || c == 'u'
  }

  /** Octal, decimal or hexadecimal. */
  function BaseOf(c: char): (base: int)
    requires Numeric(c)
  {
    if c == 'o' then 8 else if IsDecimal(c) then 10 else 16
  }

  lemma NumericIs(c: char, s: Spec, arg: Arg)
    requires Numeric(c) && IsInt(arg.num) && !s.flags.sign && !s.flags.small
    ensures c != NUL && TakesArgument(c)
    ensures ConversionText(c, s, arg) == NumberText(arg.num, BaseOf(c), NumberWidth(c, s), s.precision, NumberFlags(c, s))
    ensures NumberFlags(c, s) == s.flags.(sign := c == 'd' || c == 'i', small := c == 'x',
                                          zeropad := s.flags.zeropad || (c == 'p' && s.width == -1))
    ensures NumberWidth(c, s) == if c == 'p' && s.width == -1 then 8 else s.width
  {
    hide NumberText, StringText, CharText;
  }

  /** What a letter takes its argument for: a signed number, or 32 bits. */
  function ValueFor(c: char, num: int): int {
    if c == 'd' || c == 'i' || num >= 0 then num else num + 0x1_0000_0000
  }

  /** Every numeric conversion, with whatever flags, width and precision, prints a number that reads back as
      its argument in the base of its letter, before the text of the rest of the format. */
  lemma NumericRoundTrip(fmt: string, args: nat -> Arg, i: nat, a: nat)
    requires i < |fmt| && fmt[i] == '%'
    requires var s := ReadSpec(fmt, i + 1, args, a);
      Numeric(At(fmt, s.at)) && IsInt(args(s.arg).num)
    ensures var s := ReadSpec(fmt, i + 1, args, a);
      var c := At(fmt, s.at);
      var text := ConversionText(c, s, args(s.arg));
      && Format(fmt, args, i, a) == text + Format(fmt, args, s.at + 1, s.arg + 1)
      && ReadNumber(text, if c == 'o' then 8 else if IsDecimal(c) then 10 else 16, s.flags.special) ==
           ValueFor(c, args(s.arg).num)
  {
    hide *;
    FormatStep(fmt, args, i, a);
    SpecPlain(fmt, i + 1, args, a);
    var s := ReadSpec(fmt, i + 1, args, a);
    ConversionRoundTrip(At(fmt, s.at), s, args(s.arg));
  }

  lemma ConversionRoundTrip(c: char, s: Spec, arg: Arg)
    requires Numeric(c) && IsInt(arg.num) && !s.flags.sign && !s.flags.small
    ensures c != NUL && TakesArgument(c)
    ensures ReadNumber(ConversionText(c, s, arg), if c == 'o' then 8 else if IsDecimal(c) then 10 else 16, s.flags.special) ==
      ValueFor(c, arg.num)
  {
    NumericIs(c, s, arg);
    hide NumberText, ReadNumber, ConversionText, NumberFlags, NumberWidth;
    RoundTrip(arg.num, BaseOf(c), NumberWidth(c, s), s.precision, NumberFlags(c, s));
  }

  // ---------- the look of a number ----------

  predicate Plain(s: string, small: bool) {
    forall k :: 0 <= k < |s| ==> !(if small then 'A' <= s[k] <= 'Z' else 'a' <= s[k] <= 'z')
  }

  lemma PlainJoin(s: string, t: string, small: bool)
    requires Plain(s, small) && Plain(t, small)
    ensures Plain(s + t, small)
  {
  }

  /** The layout of every numeric conversion: 'x' is in lower case and all others are not; "%p" without a width
      is filled with zeros to eight characters. */
  lemma NumericLook(c: char, s: Spec, arg: Arg)
      returns (before: nat, sign: string, prefix: string, zeros: nat, digits: string, after: nat)
    requires Numeric(c) && IsInt(arg.num) && !s.flags.sign && !s.flags.small
    ensures ConversionText(c, s, arg) == Repeat(' ', before) + (sign + (prefix + (Repeat('0', zeros) + digits + Repeat(' ', after))))
    ensures Plain(ConversionText(c, s, arg), c == 'x')
    ensures sign == if arg.num < 0 && (c == 'd' || c == 'i') then "-" else if s.flags.plus then "+" else if s.flags.space then " " else ""
    ensures prefix == if !s.flags.special || IsDecimal(c) then "" else if c == 'o' then "0" else if c == 'x' then "0x" else "0X"
    ensures ReadDigits(digits, if c == 'o' then 8 else if IsDecimal(c) then 10 else 16, 0) ==
      if (c == 'd' || c == 'i') && arg.num < 0 then -arg.num else ValueFor(c, arg.num)
    ensures IsNumeral(digits, if c == 'o' then 8 else if IsDecimal(c) then 10 else 16, c == 'x')
    ensures var zeropad := s.flags.zeropad || (c == 'p' && s.width == -1);
      && (before > 0 ==> !s.flags.left && !zeropad) && (after > 0 ==> s.flags.left)
      && |digits| + zeros >= s.precision
      && (|digits| + zeros > Max(|digits|, s.precision) ==> zeropad && !s.flags.left)
    ensures |ConversionText(c, s, arg)| ==
      Max(if c == 'p' && s.width == -1 then 8 else s.width, |sign| + |prefix| + Max(|digits|, s.precision))
  {
    NumericIs(c, s, arg);
    var f, base, width := NumberFlags(c, s), BaseOf(c), NumberWidth(c, s);
    BaseAndValue(c, arg.num, f);
    HeadPlain(arg.num, base, f);
    hide *;
    before, sign, prefix, zeros, digits, after := Layout(arg.num, base, width, s.precision, f);
    NumeralOf(digits, Magnitude(arg.num, f), base, f);
    TextPlain(before, sign, prefix, zeros, digits, after, f.small);
  }

  lemma HeadPlain(num: int, base: int, f: Flags)
    ensures Plain(SignText(num, f), f.small) && Plain(PrefixText(base, f), f.small)
  {
  }

  lemma BaseAndValue(c: char, num: int, f: Flags)
    requires Numeric(c) && IsInt(num) && (f.sign <==> c == 'd' || c == 'i')
    ensures BaseOf(c) == if c == 'o' then 8 else if IsDecimal(c) then 10 else 16
    ensures IsDecimal(c) <==> c == 'd' || c == 'i' || c == 'u'
    ensures Magnitude(num, f) == if (c == 'd' || c == 'i') && num < 0 then -num else ValueFor(c, num)
  {
  }

  lemma NumeralOf(digits: string, u: int, base: int, f: Flags)
    requires 0 <= u && 2 <= base <= 36 && digits == Digits(u, base, DigitSet(f))
    ensures ReadDigits(digits, base, 0) == u && IsNumeral(digits, base, f.small) && Plain(digits, f.small)
  {
    DigitsIff(digits, u, base, f);
  }

  lemma TextPlain(before: nat, sign: string, prefix: string, zeros: nat, digits: string, after: nat, small: bool)
    requires Plain(digits, small) && Plain(sign, small) && Plain(prefix, small)
    ensures var text := Repeat(' ', before) + (sign + (prefix + (Repeat('0', zeros) + digits + Repeat(' ', after))));
      Plain(text, small) && |text| == before + |sign| + |prefix| + zeros + |digits| + after
  {
    var body := Repeat('0', zeros) + digits;
    PlainJoin(Repeat('0', zeros), digits, small);
    PlainJoin(body, Repeat(' ', after), small);
    assert Plain(Repeat(' ', before), small);
    hide Plain;
    PlainJoin(prefix, body + Repeat(' ', after), small);
    PlainJoin(sign, prefix + (body + Repeat(' ', after)), small);
    PlainJoin(Repeat(' ', before), sign + (prefix + (body + Repeat(' ', after))), small);
  }

  // ---------- strings and characters ----------

  /** The text has the width asked for or the length of what it shows, which is at its left end under LEFT
      and else at its right end, with spaces beside it. */
  predicate Filled(text: string, shown: string, width: int, left: bool) {
    && |text| == Max(width, |shown|)
    && |shown| <= |text|
    && if left
       then text[..|shown|] == shown && forall k :: |shown| <= k < |text| ==> text[k] == ' '
       else text[|text| - |shown|..] == shown && forall k :: 0 <= k < |text| - |shown| ==> text[k] == ' '
  }

  /** "%s" shows the string, or no more than its first `precision` characters. */
  lemma StringLook(s: Spec, arg: Arg)
    ensures Filled(ConversionText('s', s, arg), if 0 <= s.precision < |arg.text| then arg.text[..s.precision] else arg.text, s.width, s.flags.left)
  {
    hide NumberText;
  }

  /** "%c" shows the character of the argument's low byte. */
  lemma CharLook(s: Spec, arg: Arg)
    requires IsInt(arg.num)
    ensures exists c: char :: c as int == arg.num % 256 && Filled(ConversionText('c', s, arg), [c], s.width, s.flags.left)
  {
    var c := (arg.num % 256) as char;
    assert Filled(ConversionText('c', s, arg), [c], s.width, s.flags.left);
  }

  /** "%%" shows '%', "%n" nothing, any other letter itself behind '%'; these but "%n" take no argument. */
  lemma OtherLook(c: char, s: Spec, arg: Arg)
    requires !Numeric(c) && c != 'c' && c != 's'
    ensures ConversionText(c, s, arg) == if c == 'n' then "" else if c == '%' || c == NUL then "%" else ['%', c]
    ensures TakesArgument(c) <==> c == 'n'
  {
  }

  lemma WhoTakesArguments(c: char)
    ensures TakesArgument(c) <==> c in ['c', 's', 'n', 'o', 'x', 'X', 'p', 'd', 'i', 'u']
  {
  }

  // ---------- writing a conversion ----------

  predicate AllFlags(fs: string) {
    forall k :: 0 <= k < |fs| ==> fs[k] in ['-', '+', ' ', '#', '0']
  }

  predicate AllDigits(ds: string) {
    forall k :: 0 <= k < |ds| ==> '0' <= ds[k] <= '9'
  }

  /** Not part of what comes between '%' and the letter. */
  predicate Letter(c: char) {
    c !in ['-', '+', ' ', '#', '0', '.', '*', 'h', 'l', 'L', NUL] && !('0' <= c <= '9')
  }

  /** No width, or one that does not begin with the flag '0'. */
  predicate WidthText(w: string) {
    AllDigits(w) && (w != "" ==> w[0] != '0')
  }

  predicate PrecisionText(p: string) {
    p == "" || (p[0] == '.' && AllDigits(p[1..]))
  }

  predicate QualifierText(q: string) {
    q in ["", "h", "l", "L"]
  }

  /** The flags that are set, in whatever order and however often. */
  function FlagsOf(fs: string, f: Flags): Flags {
    Flags('0' in fs || f.zeropad, f.sign, '+' in fs || f.plus, ' ' in fs || f.space, '-' in fs || f.left, '#' in fs || f.special, f.small)
  }

  lemma {:induction false} FlagsRead(fs: string, g: string, f: Flags)
    requires AllFlags(fs) && (g == "" || g[0] !in ['-', '+', ' ', '#', '0'])
    ensures ReadFlags(fs + g, 0, f) == (FlagsOf(fs, f), |fs|)
    decreases |fs|
  {
    hide ReadFlags, FlagsOf;
    NoFlag(g, f);
    if fs == "" {
      assert fs + g == g;
    } else {
      var c, rest := fs[0], fs[1..];
      assert fs == [c] + rest;
      assert fs + g == [c] + (rest + g);
      FlagStep(c, rest + g, f);
      FlagsSplit(c, rest, f);
      FlagsRead(rest, g, FlagsOf([c], f));
    }
  }

  lemma NoFlag(g: string, f: Flags)
    requires g == "" || g[0] !in ['-', '+', ' ', '#', '0']
    ensures ReadFlags(g, 0, f) == (f, 0) && FlagsOf("", f) == f
  {
  }

  lemma FlagStep(c: char, g: string, f: Flags)
    requires c in ['-', '+', ' ', '#', '0']
    ensures var (r, i) := ReadFlags(g, 0, FlagsOf([c], f));
      ReadFlags([c] + g, 0, f) == (r, 1 + i)
  {
    var f' := FlagsOf([c], f);
    FlagsBehind([c], g, 0, f');
    assert At([c] + g, 0) == c;
    assert f' == if c == '-' then f.(left := true) else if c == '+' then f.(plus := true) else if c == ' ' then f.(space := true)
                 else if c == '#' then f.(special := true) else f.(zeropad := true);
    assert ReadFlags([c] + g, 0, f) == ReadFlags([c] + g, 1, f');
  }

  lemma FlagsSplit(c: char, rest: string, f: Flags)
    ensures FlagsOf(rest, FlagsOf([c], f)) == FlagsOf([c] + rest, f)
  {
  }

  lemma {:induction false} AtoiRead(ds: string, g: string, n: int)
    requires AllDigits(ds) && (g == "" || !('0' <= g[0] <= '9'))
    ensures SkipAtoi(ds + g, 0, n) == (ReadDigits(ds, 10, n), |ds|)
    decreases |ds|
  {
    if ds == "" {
      assert ds + g == g;
    } else {
      var c, rest := ds[0], ds[1..];
      assert ds + g == [c] + (rest + g);
      var m := n * 10 + (c as int - '0' as int);
      assert At(ds + g, 0) == c;
      assert SkipAtoi(ds + g, 0, n) == SkipAtoi(ds + g, 1, m);
      AtoiBehind([c], rest + g, 0, m);
      AtoiRead(rest, g, m);
    }
  }

  lemma WidthRead(w: string, g: string, f: Flags, args: nat -> Arg, a: nat)
    requires WidthText(w) && (g == "" || (g[0] != '*' && !('0' <= g[0] <= '9')))
    ensures ReadWidth(w + g, 0, f, args, a) == Spec(f, if w == "" then -1 else ReadDigits(w, 10, 0), -1, |w|, a)
  {
    AtoiRead(w, g, 0);
    assert w == "" ==> w + g == g;
    hide ReadDigits, SkipAtoi;
  }

  lemma {:induction false} DigitsReadPositive(ds: string, n: int)
    requires AllDigits(ds) && 0 <= n
    ensures ReadDigits(ds, 10, n) >= 0
    decreases |ds|
  {
    if ds != "" {
      DigitsReadPositive(ds[1..], n * 10 + DigitValue(ds[0]));
    }
  }

  lemma PrecisionRead(p: string, g: string, s: Spec, args: nat -> Arg)
    requires PrecisionText(p) && s.at == 0 && s.precision == -1 && (g == "" || (g[0] !in ['.', '*'] && !('0' <= g[0] <= '9')))
    ensures ReadPrecision(p + g, s, args) == s.(precision := if p == "" then -1 else ReadDigits(p[1..], 10, 0), at := |p|)
  {
    if p == "" {
      assert p + g == g;
    } else {
      var ds := p[1..];
      assert p + g == "." + (ds + g);
      AtoiBehind(".", ds + g, 0, 0);
      AtoiRead(ds, g, 0);
      DigitsReadPositive(ds, 0);
      if ds == "" {
        assert p + g == "." + g;
      } else {
        assert At(p + g, 1) == ds[0];
      }
    }
  }

  lemma FirstOf(p: string, q: string, g: string)
    requires PrecisionText(p) && QualifierText(q) && (g == "" || Letter(g[0]))
    ensures var r := q + g; r == "" || (r[0] !in ['.', '*'] && !('0' <= r[0] <= '9') && r[0] !in ['-', '+', ' ', '#'])
    ensures var r := p + (q + g); r == "" || (r[0] != '*' && !('0' <= r[0] <= '9') && r[0] !in ['-', '+', ' ', '#'])
  {
  }

  /** Flags, width, precision and qualifier are read as written. */
  lemma SpecRead(fs: string, w: string, p: string, q: string, g: string, args: nat -> Arg, a: nat)
    requires AllFlags(fs) && WidthText(w) && PrecisionText(p) && QualifierText(q) && (g == "" || Letter(g[0]))
    ensures ReadSpec(fs + (w + (p + (q + g))), 0, args, a) ==
      Spec(FlagsOf(fs, NO_FLAGS), if w == "" then -1 else ReadDigits(w, 10, 0), if p == "" then -1 else ReadDigits(p[1..], 10, 0),
           |fs| + |w| + |p| + |q|, a)
  {
    hide *;
    var pt := q + g;
    FirstOf(p, q, g);
    WidthStage(fs, w, p + pt, args, a);
    var s := Spec(FlagsOf(fs, NO_FLAGS), if w == "" then -1 else ReadDigits(w, 10, 0), -1, 0, a);
    PrecisionStage(fs, w, p, pt, s, args);
    QualifierIs(q, g);
    SpecIs(fs + (w + (p + pt)), 0, args, a);
  }

  lemma WidthStage(fs: string, w: string, g: string, args: nat -> Arg, a: nat)
    requires AllFlags(fs) && WidthText(w) && (g == "" || (g[0] != '*' && !('0' <= g[0] <= '9') && g[0] !in ['-', '+', ' ', '#']))
    ensures ReadFlags(fs + (w + g), 0, NO_FLAGS) == (FlagsOf(fs, NO_FLAGS), |fs|)
    ensures ReadWidth(fs + (w + g), |fs|, FlagsOf(fs, NO_FLAGS), args, a) ==
      Spec(FlagsOf(fs, NO_FLAGS), if w == "" then -1 else ReadDigits(w, 10, 0), -1, |fs| + |w|, a)
  {
    hide *;
    WidthFirst(w, g);
    FlagsRead(fs, w + g, NO_FLAGS);
    WidthRead(w, g, FlagsOf(fs, NO_FLAGS), args, a);
    WidthBehind(fs, w + g, 0, FlagsOf(fs, NO_FLAGS), args, a);
  }

  lemma PrecisionStage(fs: string, w: string, p: string, pt: string, s: Spec, args: nat -> Arg)
    requires PrecisionText(p) && s.at == 0 && s.precision == -1 && (pt == "" || (pt[0] !in ['.', '*'] && !('0' <= pt[0] <= '9')))
    ensures ReadPrecision(fs + (w + (p + pt)), s.(at := |fs| + |w|), args) ==
      s.(precision := if p == "" then -1 else ReadDigits(p[1..], 10, 0), at := |fs| + |w| + |p|)
    ensures At(fs + (w + (p + pt)), |fs| + |w| + |p|) == At(pt, 0)
  {
    hide *;
    PrecisionRead(p, pt, s, args);
    PrecisionBehind(w, p + pt, s, args);
    PrecisionBehind(fs, w + (p + pt), s.(at := |w|), args);
    Together(fs, w, p, pt);
    AtBehind(fs + w + p, pt, 0);
  }

  lemma Together(fs: string, w: string, p: string, pt: string)
    ensures fs + (w + (p + pt)) == (fs + w + p) + pt
  {
  }

  /** The steps of `ReadSpec`. */
  lemma SpecIs(fmt: string, i: nat, args: nat -> Arg, a: nat)
    ensures var (f, j) := ReadFlags(fmt, i, NO_FLAGS);
      var s := ReadPrecision(fmt, ReadWidth(fmt, j, f, args, a), args);
      ReadSpec(fmt, i, args, a) == if IsQualifier(At(fmt, s.at)) then s.(at := s.at + 1) else s
  {
    hide ReadFlags, ReadWidth, ReadPrecision, At, IsQualifier;
  }

  lemma WidthFirst(w: string, g: string)
    requires WidthText(w) && (g == "" || g[0] !in ['-', '+', ' ', '#'])
    requires g == "" || !('0' <= g[0] <= '9')
    ensures w + g == "" || (w + g)[0] !in ['-', '+', ' ', '#', '0']
  {
    assert w == "" ==> w + g == g;
  }

  lemma QualifierIs(q: string, g: string)
    requires QualifierText(q) && (g == "" || Letter(g[0]))
    ensures IsQualifier(At(q + g, 0)) <==> q != ""
    ensures q != "" ==> |q| == 1
  {
    assert q == "" ==> q + g == g;
  }

  /** What a conversion prints as it is written, and which arguments and text are left for the rest. */
  lemma ConversionWritten(fs: string, w: string, p: string, q: string, c: char, rest: string, args: nat -> Arg, a: nat)
    requires AllFlags(fs) && WidthText(w) && PrecisionText(p) && QualifierText(q) && Letter(c)
    ensures Format("%" + (fs + (w + (p + (q + ([c] + rest))))), args, 0, a) ==
      ConversionText(c, Spec(FlagsOf(fs, NO_FLAGS), if w == "" then -1 else ReadDigits(w, 10, 0),
                             if p == "" then -1 else ReadDigits(p[1..], 10, 0), 0, a), args(a)) +
      Format(rest, args, 0, if c in ['c', 's', 'n', 'o', 'x', 'X', 'p', 'd', 'i', 'u'] then a + 1 else a)
  {
    hide *;
    var inner, g := fs + (w + (p + (q + ([c] + rest)))), [c] + rest;
    var fmt, before := "%" + inner, "%" + fs + w + p + q;
    SpecRead(fs, w, p, q, g, args, a);
    SpecBehind("%", inner, 0, args, a);
    WhoTakesArguments(c);
    LetterIs(c);
    FormatStep(fmt, args, 0, a);
    var s := ReadSpec(fmt, 1, args, a);
    Written(fs, w, p, q, c, rest);
    AtBehind(before, g, 0);
    PlaceIrrelevant(c, s, 0, args(a));
    FormatBehind(before + [c], rest, args, 0, if TakesArgument(c) then a + 1 else a);
  }

  lemma LetterIs(c: char)
    requires Letter(c)
    ensures c != NUL
  {
  }

  lemma Written(fs: string, w: string, p: string, q: string, c: char, rest: string)
    ensures var before, fmt := "%" + fs + w + p + q, "%" + (fs + (w + (p + (q + ([c] + rest)))));
      && fmt == before + ([c] + rest) == (before + [c]) + rest && |before| == 1 + |fs| + |w| + |p| + |q|
      && fmt[0] == '%' && At([c] + rest, 0) == c
  {
  }

  // ---------- '*' ----------

  /** A width taken from the arguments is lost: the cursor stays on the '*', which becomes the letter of the
      conversion, and the argument is used up. */
  lemma StarWidth(fs: string, rest: string, args: nat -> Arg, a: nat)
    requires AllFlags(fs)
    ensures Format("%" + (fs + ("*" + rest)), args, 0, a) == "%*" + Format(rest, args, 0, a + 1)
  {
    hide *;
    var g := "*" + rest;
    var inner := fs + g;
    var f := FlagsOf(fs, NO_FLAGS);
    FlagsRead(fs, g, NO_FLAGS);
    StarStays(rest, f, args, a);
    WidthBehind(fs, g, 0, f, args, a);
    AtBehind(fs, g, 0);
    SpecIs(inner, 0, args, a);
    NoPrecision(inner, ReadWidth(inner, |fs|, f, args, a), args);
    StarPrinted("%" + fs, rest, ReadSpec(inner, 0, args, a), args, a);
    SpecBehind("%", inner, 0, args, a);
    assert "%" + inner == ("%" + fs) + ("*" + rest);
    FormatStep("%" + inner, args, 0, a);
  }

  lemma StarStays(rest: string, f: Flags, args: nat -> Arg, a: nat)
    ensures var s := ReadWidth("*" + rest, 0, f, args, a);
      s.at == 0 && s.arg == a + 1 && At("*" + rest, 0) == '*'
  {
    assert At("*" + rest, 0) == '*';
    hide SkipAtoi;
  }

  lemma NoPrecision(fmt: string, s: Spec, args: nat -> Arg)
    requires At(fmt, s.at) == '*'
    ensures ReadPrecision(fmt, s, args) == s && !IsQualifier(At(fmt, s.at))
  {
    hide SkipAtoi;
  }

  lemma StarPrinted(before: string, rest: string, s: Spec, args: nat -> Arg, a: nat)
    requires before != "" && s.at == |before| - 1 && s.arg == a + 1
    ensures At(before + ("*" + rest), |before|) == '*'
    ensures forall at: nat :: ConversionText('*', s.(at := at), args(a + 1)) == "%*"
    ensures !TakesArgument('*') && '*' != NUL
    ensures Format(before + ("*" + rest), args, |before| + 1, a + 1) == Format(rest, args, 0, a + 1)
  {
    hide Format;
    StarText(args(a + 1), s);
    hide ConversionText, TakesArgument;
    assert before + ("*" + rest) == (before + "*") + rest;
    FormatBehind(before + "*", rest, args, 0, a + 1);
  }

  lemma StarText(arg: Arg, s: Spec)
    ensures forall at: nat :: ConversionText('*', s.(at := at), arg) == "%*"
    ensures !TakesArgument('*') && '*' != NUL
  {
    hide NumberText, CharText, StringText;
  }

  /** The same for a precision taken from the arguments. */
  lemma StarPrecision(fs: string, w: string, rest: string, args: nat -> Arg, a: nat)
    requires AllFlags(fs) && WidthText(w)
    ensures Format("%" + (fs + (w + (".*" + rest))), args, 0, a) == "%*" + Format(rest, args, 0, a + 1)
  {
    hide *;
    var g := ".*" + rest;
    var wt := w + g;
    var inner := fs + wt;
    var f := FlagsOf(fs, NO_FLAGS);
    WidthFirst(w, g);
    FlagsRead(fs, wt, NO_FLAGS);
    WidthRead(w, g, f, args, a);
    WidthBehind(fs, wt, 0, f, args, a);
    var s := Spec(f, if w == "" then -1 else ReadDigits(w, 10, 0), -1, 0, a);
    StarPrecisionStays(rest, s, args);
    PrecisionBehind(w, g, s, args);
    PrecisionBehind(fs, wt, s.(at := |w|), args);
    assert inner == (fs + w) + g == (fs + w + ".") + ("*" + rest);
    AtBehind(fs + w, g, 1);
    SpecIs(inner, 0, args, a);
    StarPrinted("%" + fs + w + ".", rest, ReadSpec(inner, 0, args, a), args, a);
    SpecBehind("%", inner, 0, args, a);
    assert "%" + inner == ("%" + fs + w + ".") + ("*" + rest);
    FormatStep("%" + inner, args, 0, a);
  }

  lemma StarPrecisionStays(rest: string, s: Spec, args: nat -> Arg)
    requires s.at == 0
    ensures var t := ReadPrecision(".*" + rest, s, args);
      t.at == 1 && t.arg == s.arg + 1
    ensures At(".*" + rest, 1) == '*' && !IsQualifier('*')
  {
    assert At(".*" + rest, 0) == '.' && At(".*" + rest, 1) == '*';
    hide SkipAtoi;
  }

  // ---------- examples ----------

  /** "%d" alone. */
  lemma DecimalRoundTrip(args: nat -> Arg)
    requires IsInt(args(0).num)
    ensures ReadNumber(Format("%d", args, 0, 0), 10, false) == args(0).num
  {
    hide Format, ConversionText, ReadNumber, ReadDigits, IsInt, TakesArgument;
    var s := Spec(FlagsOf("", NO_FLAGS), -1, -1, 0, 0);
    ConversionWritten("", "", "", "", 'd', "", args, 0);
    assert "%" + ("" + ("" + ("" + ("" + (['d'] + ""))))) == "%d";
    FormatEnd("", args, 0, 1);
    ConversionRoundTrip('d', s, args(0));
    hide *;
    assert ConversionText('d', s, args(0)) + "" == ConversionText('d', s, args(0));
  }

  /** The form in which `die` prints its number. */
  lemma HexExample(args: nat -> Arg)
    requires args(0).num == 0x2a
    ensures Format("%04x", args, 0, 0) == "002a"
  {
    hide Format, ConversionText, Digits, DigitSet;
    assert ReadDigits("4", 10, 0) == 4;
    var s := Spec(FlagsOf("0", NO_FLAGS), 4, -1, 0, 0);
    ConversionWritten("0", "4", "", "", 'x', "", args, 0);
    assert "%" + ("0" + ("4" + ("" + ("" + (['x'] + ""))))) == "%04x";
    FormatEnd("", args, 0, 1);
    var before, sign, prefix, zeros, digits, after := NumericLook('x', s, args(0));
    HexDigits(digits);
  }

  lemma HexDigits(digits: string)
    requires IsNumeral(digits, 16, true) && ReadDigits(digits, 16, 0) == 0x2a
    ensures digits == "2a"
  {
    var f := NO_FLAGS.(small := true);
    assert ReadDigits("2a", 16, 0) == 0x2a by {
      assert "2a"[1..] == "a" && "a"[1..] == "";
    }
    NumeralIs("2a", 0x2a, 16, f);
    NumeralIs(digits, 0x2a, 16, f);
  }
}
