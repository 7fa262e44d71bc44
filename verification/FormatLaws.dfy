/** What follows for the text of a format string. */
module FormatLaws {
  import opened Printf
  import opened Formatting

  // ---------- a format behind another one ----------

  /** Reading in f + g from |f| on is reading in g. */
  lemma {:induction false} FlagsBehind(f: string, g: string, i: nat, flags: Flags)
    ensures var (a, j) := ReadFlags(g, i, flags);
      ReadFlags(f + g, |f| + i, flags) == (a, |f| + j)
    decreases |g| - i
  {
    assert At(f + g, |f| + i) == At(g, i);
    match At(g, i)
    case '-' => FlagsBehind(f, g, i + 1, flags.(left := true));
    case '+' => FlagsBehind(f, g, i + 1, flags.(plus := true));
    case ' ' => FlagsBehind(f, g, i + 1, flags.(space := true));
    case '#' => FlagsBehind(f, g, i + 1, flags.(special := true));
    case '0' => FlagsBehind(f, g, i + 1, flags.(zeropad := true));
    case _ =>
  }

  lemma {:induction false} AtoiBehind(f: string, g: string, i: nat, n: int)
    ensures var (m, j) := SkipAtoi(g, i, n);
      SkipAtoi(f + g, |f| + i, n) == (m, |f| + j)
    decreases |g| - i
  {
    assert At(f + g, |f| + i) == At(g, i);
    if IsDigit(At(g, i)) {
      AtoiBehind(f, g, i + 1, n * 10 + (At(g, i) as int - '0' as int));
    }
  }

  lemma WidthBehind(f: string, g: string, i: nat, flags: Flags, args: nat -> Arg, a: nat)
    ensures var s := ReadWidth(g, i, flags, args, a);
      ReadWidth(f + g, |f| + i, flags, args, a) == s.(at := |f| + s.at)
  {
    AtoiBehind(f, g, i, 0);
    hide SkipAtoi;
  }

  lemma PrecisionBehind(f: string, g: string, s: Spec, args: nat -> Arg)
    ensures var t := ReadPrecision(g, s, args);
      ReadPrecision(f + g, s.(at := |f| + s.at), args) == t.(at := |f| + t.at)
  {
    AtoiBehind(f, g, s.at + 1, 0);
    AtBehind(f, g, s.at);
    AtBehind(f, g, s.at + 1);
    hide SkipAtoi, At;
  }

  lemma SpecBehind(f: string, g: string, i: nat, args: nat -> Arg, a: nat)
    ensures var s := ReadSpec(g, i, args, a);
      ReadSpec(f + g, |f| + i, args, a) == s.(at := |f| + s.at)
  {
    FlagsBehind(f, g, i, NO_FLAGS);
    var (flags, j) := ReadFlags(g, i, NO_FLAGS);
    WidthBehind(f, g, j, flags, args, a);
    var s := ReadWidth(g, j, flags, args, a);
    PrecisionBehind(f, g, s, args);
    AtBehind(f, g, ReadPrecision(g, s, args).at);
    hide ReadFlags, ReadWidth, ReadPrecision, At;
  }

  lemma {:induction false} FormatBehind(f: string, g: string, args: nat -> Arg, i: nat, a: nat)
    ensures Format(f + g, args, |f| + i, a) == Format(g, args, i, a)
    decreases |g| - i
  {
    hide *;
    if i < |g| {
      assert (f + g)[|f| + i] == g[i];
      if g[i] != '%' {
        LiteralStep(g, args, i, a);
        LiteralStep(f + g, args, |f| + i, a);
        FormatBehind(f, g, args, i + 1, a);
      } else {
        SpecBehind(f, g, i + 1, args, a);
        FormatStep(g, args, i, a);
        FormatStep(f + g, args, |f| + i, a);
        var s := ReadSpec(g, i + 1, args, a);
        AtBehind(f, g, s.at);
        PlaceIrrelevant(At(g, s.at), s, |f| + s.at, args(s.arg));
        EndIsNul(g, i + 1, args, a);
        FormatBehind(f, g, args, if At(g, s.at) == NUL then s.at else s.at + 1, if TakesArgument(At(g, s.at)) then s.arg + 1 else s.arg);
      }
    } else {
      FormatEnd(g, args, i, a);
      FormatEnd(f + g, args, |f| + i, a);
    }
  }

  lemma PlaceIrrelevant(c: char, s: Spec, at: nat, arg: Arg)
    ensures ConversionText(c, s.(at := at), arg) == ConversionText(c, s, arg)
  {
    hide NumberText, NumberBase, Repeat, Word;
  }

  lemma AtBehind(f: string, g: string, i: nat)
    ensures At(f + g, |f| + i) == At(g, i)
  {
  }

  // ---------- a format before another one ----------

  lemma {:induction false} FlagsBefore(f: string, g: string, i: nat, flags: Flags)
    requires ReadFlags(f, i, flags).1 < |f|
    ensures ReadFlags(f + g, i, flags) == ReadFlags(f, i, flags)
    decreases |f| - i
  {
    assert i < |f| && At(f + g, i) == At(f, i);
    match At(f, i)
    case '-' => FlagsBefore(f, g, i + 1, flags.(left := true));
    case '+' => FlagsBefore(f, g, i + 1, flags.(plus := true));
    case ' ' => FlagsBefore(f, g, i + 1, flags.(space := true));
    case '#' => FlagsBefore(f, g, i + 1, flags.(special := true));
    case '0' => FlagsBefore(f, g, i + 1, flags.(zeropad := true));
    case _ =>
  }

  lemma {:induction false} AtoiBefore(f: string, g: string, i: nat, n: int)
    requires SkipAtoi(f, i, n).1 < |f|
    ensures SkipAtoi(f + g, i, n) == SkipAtoi(f, i, n)
    decreases |f| - i
  {
    assert i < |f| && At(f + g, i) == At(f, i);
    if IsDigit(At(f, i)) {
      AtoiBefore(f, g, i + 1, n * 10 + (At(f, i) as int - '0' as int));
    }
  }

  lemma WidthBefore(f: string, g: string, i: nat, flags: Flags, args: nat -> Arg, a: nat)
    requires ReadWidth(f, i, flags, args, a).at < |f|
    ensures ReadWidth(f + g, i, flags, args, a) == ReadWidth(f, i, flags, args, a)
  {
    assert At(f + g, i) == At(f, i);
    if IsDigit(At(f, i)) {
      AtoiBefore(f, g, i, 0);
    }
  }

  lemma PrecisionBefore(f: string, g: string, s: Spec, args: nat -> Arg)
    requires ReadPrecision(f, s, args).at < |f|
    ensures ReadPrecision(f + g, s, args) == ReadPrecision(f, s, args)
  {
    assert At(f + g, s.at) == At(f, s.at);
    if At(f, s.at) == '.' {
      assert At(f + g, s.at + 1) == At(f, s.at + 1);
      if IsDigit(At(f, s.at + 1)) {
        AtoiBefore(f, g, s.at + 1, 0);
      }
    }
  }

  /** A conversion whose letter is in f is read the same when something follows f. */
  lemma SpecBefore(f: string, g: string, i: nat, args: nat -> Arg, a: nat)
    requires ReadSpec(f, i, args, a).at < |f|
    ensures ReadSpec(f + g, i, args, a) == ReadSpec(f, i, args, a)
  {
    var (flags, j) := ReadFlags(f, i, NO_FLAGS);
    var s := ReadWidth(f, j, flags, args, a);
    var t := ReadPrecision(f, s, args);
    FlagsBefore(f, g, i, NO_FLAGS);
    WidthBefore(f, g, j, flags, args, a);
    PrecisionBefore(f, g, s, args);
    assert At(f + g, t.at) == At(f, t.at);
  }

  /** No conversion is cut off at the end of fmt. */
  predicate Whole(fmt: string, args: nat -> Arg, i: nat, a: nat)
    decreases |fmt| - i
  {
    if i >= |fmt| then i == |fmt|
    else if fmt[i] != '%' then Whole(fmt, args, i + 1, a)
    else
      var s := ReadSpec(fmt, i + 1, args, a);
      s.at < |fmt| && fmt[s.at] != NUL && Whole(fmt, args, s.at + 1, if TakesArgument(fmt[s.at]) then s.arg + 1 else s.arg)
  }

  /** The first argument that fmt does not use. */
  function Used(fmt: string, args: nat -> Arg, i: nat, a: nat): nat
    decreases |fmt| - i
  {
    if i >= |fmt| then a
    else if fmt[i] != '%' then Used(fmt, args, i + 1, a)
    else
      var s := ReadSpec(fmt, i + 1, args, a);
      Used(fmt, args, s.at + 1, if TakesArgument(At(fmt, s.at)) then s.arg + 1 else s.arg)
  }

  lemma WholeStep(fmt: string, args: nat -> Arg, i: nat, a: nat)
    requires Whole(fmt, args, i, a) && i < |fmt| && fmt[i] == '%'
    ensures var s := ReadSpec(fmt, i + 1, args, a);
      var next := if TakesArgument(At(fmt, s.at)) then s.arg + 1 else s.arg;
      i < s.at < |fmt| && At(fmt, s.at) != NUL && Whole(fmt, args, s.at + 1, next) &&
      Used(fmt, args, i, a) == Used(fmt, args, s.at + 1, next)
  {
    hide ReadSpec;
  }

  lemma {:induction false} FormatConcat(f: string, g: string, args: nat -> Arg, i: nat, a: nat)
    requires Whole(f, args, i, a)
    ensures Format(f + g, args, i, a) == Format(f, args, i, a) + Format(g, args, 0, Used(f, args, i, a))
    decreases |f| - i
  {
    hide *;
    var rest := Format(g, args, 0, Used(f, args, i, a));
    if i >= |f| {
      WholeEnds(f, args, i, a);
      FormatBehind(f, g, args, 0, a);
      FormatEnd(f, args, i, a);
    } else {
      assert (f + g)[i] == f[i];
      if f[i] != '%' {
        LiteralStep(f, args, i, a);
        LiteralStep(f + g, args, i, a);
        WholeLiteral(f, args, i, a);
        FormatConcat(f, g, args, i + 1, a);
        Shift([f[i]], Format(f, args, i + 1, a), rest);
      } else {
        WholeStep(f, args, i, a);
        SpecBefore(f, g, i + 1, args, a);
        FormatStep(f, args, i, a);
        FormatStep(f + g, args, i, a);
        var s := ReadSpec(f, i + 1, args, a);
        AtBefore(f, g, s.at);
        var next := if TakesArgument(At(f, s.at)) then s.arg + 1 else s.arg;
        FormatConcat(f, g, args, s.at + 1, next);
        Shift(ConversionText(At(f, s.at), s, args(s.arg)), Format(f, args, s.at + 1, next), rest);
      }
    }
  }

  lemma WholeEnds(fmt: string, args: nat -> Arg, i: nat, a: nat)
    requires Whole(fmt, args, i, a) && i >= |fmt|
    ensures i == |fmt| && Used(fmt, args, i, a) == a
  {
  }

  lemma WholeLiteral(fmt: string, args: nat -> Arg, i: nat, a: nat)
    requires Whole(fmt, args, i, a) && i < |fmt| && fmt[i] != '%'
    ensures Whole(fmt, args, i + 1, a) && Used(fmt, args, i, a) == Used(fmt, args, i + 1, a)
  {
  }

  lemma AtBefore(f: string, g: string, i: nat)
    requires i < |f|
    ensures At(f + g, i) == At(f, i)
  {
  }

  // ---------- a format that ends inside a conversion ----------

  /** A '%' at the end stops every part of a conversion where the end of f stops it. */
  lemma {:induction false} FlagsPercent(f: string, i: nat, flags: Flags)
    requires i <= |f|
    ensures ReadFlags(f + "%", i, flags) == ReadFlags(f, i, flags) && ReadFlags(f, i, flags).1 <= |f|
    decreases |f| - i
  {
    assert i < |f| ==> At(f + "%", i) == At(f, i);
    match At(f, i)
    case '-' => FlagsPercent(f, i + 1, flags.(left := true));
    case '+' => FlagsPercent(f, i + 1, flags.(plus := true));
    case ' ' => FlagsPercent(f, i + 1, flags.(space := true));
    case '#' => FlagsPercent(f, i + 1, flags.(special := true));
    case '0' => FlagsPercent(f, i + 1, flags.(zeropad := true));
    case _ =>
  }

  lemma {:induction false} AtoiPercent(f: string, i: nat, n: int)
    requires i <= |f|
    ensures SkipAtoi(f + "%", i, n) == SkipAtoi(f, i, n) && SkipAtoi(f, i, n).1 <= |f|
    decreases |f| - i
  {
    assert i < |f| ==> At(f + "%", i) == At(f, i);
    if IsDigit(At(f, i)) {
      AtoiPercent(f, i + 1, n * 10 + (At(f, i) as int - '0' as int));
    }
  }

  lemma WidthPercent(f: string, i: nat, flags: Flags, args: nat -> Arg, a: nat)
    requires i <= |f|
    ensures ReadWidth(f + "%", i, flags, args, a) == ReadWidth(f, i, flags, args, a)
    ensures ReadWidth(f, i, flags, args, a).at <= |f|
  {
    AtoiPercent(f, i, 0);
    assert i < |f| ==> At(f + "%", i) == At(f, i);
  }

  lemma PrecisionPercent(f: string, s: Spec, args: nat -> Arg)
    requires s.at <= |f|
    ensures ReadPrecision(f + "%", s, args) == ReadPrecision(f, s, args) && ReadPrecision(f, s, args).at <= |f|
  {
    assert s.at < |f| ==> At(f + "%", s.at) == At(f, s.at);
    if s.at < |f| {
      AtoiPercent(f, s.at + 1, 0);
      assert s.at + 1 < |f| ==> At(f + "%", s.at + 1) == At(f, s.at + 1);
    }
  }

  lemma SpecPercent(f: string, i: nat, args: nat -> Arg, a: nat)
    requires i <= |f|
    ensures ReadSpec(f + "%", i, args, a) == ReadSpec(f, i, args, a) && ReadSpec(f, i, args, a).at <= |f|
  {
    FlagsPercent(f, i, NO_FLAGS);
    var (flags, j) := ReadFlags(f, i, NO_FLAGS);
    WidthPercent(f, j, flags, args, a);
    var s := ReadWidth(f, j, flags, args, a);
    PrecisionPercent(f, s, args);
    var t := ReadPrecision(f, s, args);
    assert t.at < |f| ==> At(f + "%", t.at) == At(f, t.at);
    hide ReadFlags, ReadWidth, ReadPrecision;
  }

  lemma NotWholeStep(f: string, args: nat -> Arg, i: nat, a: nat)
    requires NUL !in f && i < |f| && !Whole(f, args, i, a)
    ensures f[i] != '%' ==> !Whole(f, args, i + 1, a)
    ensures var s := ReadSpec(f, i + 1, args, a);
      f[i] == '%' && s.at < |f| ==>
        At(f, s.at) != NUL && !Whole(f, args, s.at + 1, if TakesArgument(At(f, s.at)) then s.arg + 1 else s.arg)
  {
    hide ReadSpec;
  }

  lemma CutConversion(f: string, args: nat -> Arg, i: nat, a: nat)
    requires i < |f| && f[i] == '%' && ReadSpec(f, i + 1, args, a).at == |f|
    ensures Format(f + "%", args, i, a) == Format(f, args, i, a)
  {
    SpecPercent(f, i + 1, args, a);
    FormatStep(f, args, i, a);
    FormatStep(f + "%", args, i, a);
    assert (f + "%")[|f|] == '%';
    hide ReadSpec;
  }

  /** A '%' after a cut-off conversion changes nothing: it becomes the letter of that conversion. */
  lemma {:induction false} CutText(f: string, args: nat -> Arg, i: nat, a: nat)
    requires NUL !in f && i <= |f| && !Whole(f, args, i, a)
    ensures Format(f + "%", args, i, a) == Format(f, args, i, a)
    decreases |f| - i
  {
    hide *;
    EndIsWhole(f, args, a);
    var g := f + "%";
    assert g[i] == f[i];
    NotWholeStep(f, args, i, a);
    if f[i] != '%' {
      LiteralStep(f, args, i, a);
      LiteralStep(g, args, i, a);
      CutText(f, args, i + 1, a);
    } else {
      var s := ReadSpec(f, i + 1, args, a);
      SpecPercent(f, i + 1, args, a);
      if s.at == |f| {
        CutConversion(f, args, i, a);
      } else {
        FormatStep(f, args, i, a);
        FormatStep(g, args, i, a);
        AtBefore(f, "%", s.at);
        EndIsNul(f, i + 1, args, a);
        CutText(f, args, s.at + 1, if TakesArgument(At(f, s.at)) then s.arg + 1 else s.arg);
      }
    }
  }

  lemma EndIsWhole(f: string, args: nat -> Arg, a: nat)
    ensures Whole(f, args, |f|, a)
  {
  }

  // ---------- the text of a format in two parts ----------

  /** The text of f followed by g is the text of f followed by that of g. */
  predicate Joins(f: string, g: string, args: nat -> Arg) {
    Format(f + g, args, 0, 0) == Format(f, args, 0, 0) + Format(g, args, 0, Used(f, args, 0, 0))
  }

  lemma PercentDoesNotJoin(f: string, args: nat -> Arg)
    requires NUL !in f && !Whole(f, args, 0, 0)
    ensures !Joins(f, "%", args)
  {
    CutText(f, args, 0, 0);
    FormatStep("%", args, 0, Used(f, args, 0, 0));
    hide Used;
  }

  /** Text can be added to a format exactly if the format does not end inside a conversion. */
  lemma JoinsIff(f: string, args: nat -> Arg)
    requires NUL !in f
    ensures Whole(f, args, 0, 0) <==> forall g :: Joins(f, g, args)
  {
    if Whole(f, args, 0, 0) {
      forall g ensures Joins(f, g, args) {
        FormatConcat(f, g, args, 0, 0);
      }
    } else {
      PercentDoesNotJoin(f, args);
    }
  }

  /** "50%" followed by "%" shows one '%', not two. */
  lemma CutOffExample(args: nat -> Arg)
    ensures !Joins("50%", "%", args)
  {
    PercentDoesNotJoin("50%", args);
  }

  /** Text without '%' stays as it is. */
  lemma {:induction false} Literal(fmt: string, args: nat -> Arg, i: nat, a: nat)
    requires '%' !in fmt && i <= |fmt|
    ensures Format(fmt, args, i, a) == fmt[i..]
    decreases |fmt| - i
  {
    if i < |fmt| {
      Literal(fmt, args, i + 1, a);
    }
  }
}
