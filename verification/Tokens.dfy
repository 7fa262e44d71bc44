/** `strtok`: the static pointer `___strtok` and the NULs it writes cut a string into its maximal runs of
    other characters than delimiters. */
module Tokens {
  import opened Strings

  // ---------- runs ----------

  /** The first place from i on that is not a delimiter. */
  function Skip(t: string, d: string, i: nat): (r: nat)
    requires i <= |t|
    ensures i <= r <= |t| && (r < |t| ==> t[r] !in d) && forall k :: i <= k < r ==> t[k] in d
    decreases |t| - i
  {
    if i < |t| && t[i] in d then Skip(t, d, i + 1) else i
  }

  /** The first place from i on that is a delimiter, or the end. */
  function End(t: string, d: string, i: nat): (r: nat)
    requires i <= |t|
    ensures i <= r <= |t| && (r < |t| ==> t[r] in d) && forall k :: i <= k < r ==> t[k] !in d
    decreases |t| - i
  {
    if i < |t| && t[i] !in d then End(t, d, i + 1) else i
  }

  datatype Run = Run(from: int, to: int)

  predicate IsRun(t: string, d: string, r: Run) {
    && 0 <= r.from < r.to <= |t|
    && (forall k :: r.from <= k < r.to ==> t[k] !in d)
    && (r.from > 0 ==> t[r.from - 1] in d) && (r.to < |t| ==> t[r.to] in d)
  }

  function Runs(t: string, d: string, i: nat): seq<Run>
    requires i <= |t|
    decreases |t| - i
  {
    var a := Skip(t, d, i);
    if a == |t| then []
    else
      var b := End(t, d, a);
      [Run(a, b)] + Runs(t, d, if b < |t| then b + 1 else b)
  }

  /** Exactly the maximal runs... */
  lemma {:induction false} RunsAreMaximal(t: string, d: string, i: nat)
    requires i <= |t| && (0 < i < |t| ==> t[i - 1] in d)
    ensures forall r :: r in Runs(t, d, i) <==> IsRun(t, d, r) && i <= r.from
    decreases |t| - i
  {
    var a := Skip(t, d, i);
    if a < |t| {
      var b := End(t, d, a);
      RunsStep(t, d, i);
      RunsAreMaximal(t, d, After(t, b));
      hide IsRun, Skip, End, Runs;
      forall r ensures r in Runs(t, d, i) <==> IsRun(t, d, r) && i <= r.from {
        OnlyOneRun(t, d, i, r);
        assert r in Runs(t, d, i) <==> r == Run(a, b) || r in Runs(t, d, After(t, b));
      }
    } else {
      forall r ensures !(IsRun(t, d, r) && i <= r.from) {
        assert i <= r.from < |t| ==> t[r.from] in d;
      }
    }
  }

  /** ... from left to right. */
  lemma {:induction false} RunsInOrder(t: string, d: string, i: nat)
    requires i <= |t|
    ensures var runs := Runs(t, d, i);
      && (forall k :: 0 <= k < |runs| ==> i <= runs[k].from < runs[k].to <= |t|)
      && (forall j, k :: 0 <= j < k < |runs| ==> runs[j].to < runs[k].from)
    decreases |t| - i
  {
    hide Skip, End, Runs;
    if Skip(t, d, i) < |t| {
      RunsStep(t, d, i);
      RunsInOrder(t, d, After(t, End(t, d, Skip(t, d, i))));
    } else {
      NoRuns(t, d, i);
    }
  }

  /** A run that starts at i or later is the first one from there, or starts behind it. */
  lemma OnlyOneRun(t: string, d: string, i: nat, r: Run)
    requires i <= |t| && (0 < i < |t| ==> t[i - 1] in d) && Skip(t, d, i) < |t|
    ensures var a := Skip(t, d, i);
      var b := End(t, d, a);
      IsRun(t, d, Run(a, b)) && (IsRun(t, d, r) && i <= r.from ==> r == Run(a, b) || b < r.from)
  {
    var a := Skip(t, d, i);
    var b := End(t, d, a);
    if IsRun(t, d, r) && i <= r.from {
      assert t[r.from] !in d && (r.from > 0 ==> t[r.from - 1] in d);
      if r.from == a {
        assert !(r.to < b) && !(b < r.to);
      }
    }
  }

  // ---------- the code ----------

  /** The string s is in memory at p. */
  predicate StringAt(mem: seq<char>, p: int, s: string) {
    0 <= p && p + |s| < |mem| && mem[p..p + |s|] == s && IsString(s) && mem[p + |s|] == NUL
  }

  /** `repne scasb` among the delimiters. */
  method IsDelimiter(d: string, c: char) returns (found: bool)
    ensures found <==> c in d
  {
    found := false;
    var ecx := |d|;
    while !found && ecx != 0
      invariant 0 <= ecx <= |d| && (found <==> c in d[..|d| - ecx])
      decreases ecx
    {
      found := c == d[|d| - ecx];
      ecx := ecx - 1;
    }
  }

  /** What a call of `strtok` for the string t at `start` returns and leaves. */
  predicate FirstToken(was: seq<char>, mem: seq<char>, start: Pointer, d: string, t: string, r: Pointer, saved: Pointer) {
    if start == Null || d == "" || Skip(t, d, 0) == |t| then r == Null && saved == Null && mem == was
    else
      var a := Skip(t, d, 0);
      var b := End(t, d, a);
      && r == To(start.at + a) && StringAt(mem, start.at + a, t[a..b])
      && if b == |t| then saved == Null && mem == was
        else saved == To(start.at + b + 1) && 0 <= start.at + b < |was| && mem == was[start.at + b := NUL]
  }

  class Tokenizer {
    const memory: array<char>
    var saved: Pointer       // ___strtok

    constructor (memory: array<char>)
      ensures this.memory == memory && saved == Null
    {
      this.memory, saved := memory, Null;
    }

    /** Label 2: behind the delimiters; nothing is found if only the NUL is there. */
    method SkipDelimiters(start: nat, d: string, ghost t: string) returns (si: nat, found: bool)
      requires StringAt(memory[..], start, t)
      ensures found <==> Skip(t, d, 0) < |t|
      ensures found ==> si == start + Skip(t, d, 0)
    {
      si := start;
      var delimiter := true;
      while delimiter
        invariant start <= si && delimiter ==> si - start <= |t| && Skip(t, d, si - start) == Skip(t, d, 0)
        invariant !delimiter ==> start < si <= start + |t| && t[si - start - 1] !in d && Skip(t, d, 0) == si - start - 1
        decreases delimiter, start + |t| - si
      {
        var al := memory[si];
        assert si - start < |t| ==> memory[..][start..start + |t|][si - start] == al;
        si := si + 1;
        if al == NUL {
          return si, false;
        }
        delimiter := IsDelimiter(d, al);
      }
      return si - 1, true;
    }

    /** Label 3: behind the token, at a delimiter or at the NUL. */
    method SkipToken(ghost start: nat, from: nat, d: string, ghost t: string) returns (si: nat)
      requires StringAt(memory[..], start, t) && start <= from <= start + |t|
      ensures si == start + End(t, d, from - start)
    {
      si := from;
      var delimiter := false;
      while !delimiter
        invariant from <= si && (!delimiter ==> si <= start + |t| && End(t, d, si - start) == End(t, d, from - start))
        invariant delimiter ==> start < si <= start + |t| && End(t, d, from - start) == si - start - 1
        decreases !delimiter, start + |t| - si
      {
        var al := memory[si];
        assert si - start < |t| ==> memory[..][start..start + |t|][si - start] == al;
        si := si + 1;
        if al == NUL {
          return si - 1;
        }
        delimiter := IsDelimiter(d, al);
      }
      return si - 1;
    }

    /** The first run of the string t that `s`, or else `___strtok`, points to; it gets its own NUL, and the
        next call goes on behind it. */
    method Strtok(s: Pointer, d: string, ghost t: string) returns (r: Pointer)
      requires var start := if s.To? then s else saved; start.To? ==> StringAt(memory[..], start.at, t)
      modifies this, memory
      ensures FirstToken(old(memory[..]), memory[..], old(if s.To? then s else saved), d, t, r, saved)
    {
      hide Skip, End, StringAt;
      if s == Null && saved == Null {
        return Null;
      }
      var si := if s.To? then s.at else saved.at;
      ghost var start := si;
      if d == "" {
        saved := Null;
        return Null;
      }
      var found;
      si, found := SkipDelimiters(si, d, t);
      if !found {
        saved := Null;
        return Null;
      }
      r := To(si);
      var end := SkipToken(start, si, d, t);
      TokenAt(memory[..], start, t, d);
      if memory[end] == NUL {
        saved := Null;
      } else {
        memory[end] := NUL;
        saved := To(end + 1);
      }
    }

    /** A call where i characters of t are done: the next run, and j characters done. */
    method NextToken(s: Pointer, d: string, ghost at: nat, ghost t: string, ghost i: nat) returns (r: Pointer, ghost j: nat)
      requires d != "" && i <= |t| && Rest(memory[..], if s.To? then s else saved, at, t, i)
      modifies this, memory
      ensures r == Null ==> Runs(t, d, i) == [] && saved == Null && memory[..] == old(memory[..])
      ensures r.To? ==> i < j <= |t| && Rest(memory[..], saved, at, t, j) && Found(memory[..], r.at, d, at, t, i, j)
      ensures forall k :: 0 <= k < at + i && k < memory.Length ==> memory[k] == old(memory[k])
    {
      ghost var was := memory[..];
      ghost var start := if s.To? then s else saved;
      hide *;
      RestIs(was, start, at, t, i);
      r := Strtok(s, d, t[i..]);
      j := TokenDone(was, memory[..], start, d, at, t, i, r, saved);
    }

    /** Called again and again with the same delimiters, it returns each maximal run once, in order, and
        each is a string of its own in the end. */
    method AllTokens(at: nat, d: string, ghost t: string) returns (tokens: seq<nat>)
      requires d != "" && StringAt(memory[..], at, t)
      modifies this, memory
      ensures saved == Null && Cut(memory[..], at, t, Runs(t, d, 0), tokens)
    {
      hide *;
      ghost var i, done := 0, [];
      var s := To(at);
      tokens := [];
      NoneYet(memory[..], at, t, d);
      while true
        invariant Progress(memory[..], if s.To? then s else saved, at, t, d, i, done, tokens)
        decreases |t| - i
      {
        ghost var was, start := memory[..], if s.To? then s else saved;
        RestOf(was, start, at, t, d, i, done, tokens);
        var r;
        ghost var j;
        r, j := NextToken(s, d, at, t, i);
        if r == Null {
          AllFound(was, start, at, t, d, i, done, tokens);
          break;
        }
        done := OneMore(was, start, memory[..], saved, at, t, d, i, j, r.at, done, tokens);
        tokens := tokens + [r.at];
        i, s := j, Null;
      }
    }
  }

  /** The place in memory of the i-th character of t, with the rest of t; no place is left at the end of t. */
  predicate Rest(mem: seq<char>, p: Pointer, at: nat, t: string, i: nat)
    requires i <= |t|
  {
    (p == Null && i == |t|) || (p == To(at + i) && StringAt(mem, at + i, t[i..]))
  }

  /** The first run from i on is the string at p, and j is where the others are. */
  predicate Found(mem: seq<char>, p: nat, d: string, at: nat, t: string, i: nat, j: nat)
    requires i <= j <= |t|
  {
    var a := Skip(t, d, i);
    var b := End(t, d, a);
    && Runs(t, d, i) == [Run(a, b)] + Runs(t, d, j)
    && p == at + a && StringAt(mem, at + a, t[a..b]) && (b < j || j == |t|)
  }

  /** Every run is a string of its own, and its pointer is in the list. */
  predicate Cut(mem: seq<char>, at: nat, t: string, runs: seq<Run>, tokens: seq<nat>) {
    && |runs| == |tokens|
    && forall k :: 0 <= k < |runs| ==>
      && 0 <= runs[k].from <= runs[k].to <= |t|
      && tokens[k] == at + runs[k].from && StringAt(mem, tokens[k], t[runs[k].from..runs[k].to])
  }

  // ---------- helpers ----------

  lemma RestIs(mem: seq<char>, p: Pointer, at: nat, t: string, i: nat)
    requires i <= |t| && Rest(mem, p, at, t, i)
    ensures p.To? ==> StringAt(mem, p.at, t[i..])
  {
  }

  lemma TokenDone(was: seq<char>, mem: seq<char>, start: Pointer, d: string, at: nat, t: string, i: nat, r: Pointer, saved: Pointer)
    returns (j: nat)
    requires i <= |t| && d != "" && Rest(was, start, at, t, i) && FirstToken(was, mem, start, d, t[i..], r, saved)
    ensures r == Null ==> Runs(t, d, i) == [] && saved == Null && mem == was
    ensures r.To? ==> i < j <= |t| && Rest(mem, saved, at, t, j) && Found(mem, r.at, d, at, t, i, j)
    ensures |mem| == |was| && forall k :: 0 <= k < at + i && k < |mem| ==> mem[k] == was[k]
  {
    hide Skip, End, Runs, StringAt;
    ShiftedToken(t, d, i);
    var a := Skip(t, d, i);
    var b := End(t, d, a);
    j := i;
    if r.To? {
      RunsStep(t, d, i);
      j := After(t, b);
      assert t[i..][a - i..b - i] == t[a..b];
      if b < |t| {
        Behind(was, at, t, i, b);
      }
    } else if a == |t| {
      NoRuns(t, d, i);
    }
  }

  function After(t: string, b: nat): nat {
    if b < |t| then b + 1 else b
  }

  lemma RunsStep(t: string, d: string, i: nat)
    requires i <= |t| && Skip(t, d, i) < |t|
    ensures var a := Skip(t, d, i);
      var b := End(t, d, a);
      a < b && Runs(t, d, i) == [Run(a, b)] + Runs(t, d, After(t, b))
  {
  }

  lemma NoRuns(t: string, d: string, i: nat)
    requires i <= |t| && Skip(t, d, i) == |t|
    ensures Runs(t, d, i) == []
  {
  }

  lemma ShiftedToken(t: string, d: string, i: nat)
    requires i <= |t|
    ensures Skip(t[i..], d, 0) == Skip(t, d, i) - i
    ensures End(t[i..], d, Skip(t, d, i) - i) == End(t, d, Skip(t, d, i)) - i
  {
    ShiftedSkip(t, d, i, 0);
    ShiftedEnd(t, d, i, Skip(t, d, i) - i);
  }

  lemma TokenAt(mem: seq<char>, start: int, t: string, d: string)
    requires StringAt(mem, start, t) && Skip(t, d, 0) < |t|
    ensures var a := Skip(t, d, 0);
      var b := End(t, d, a);
      && 0 <= start + b < |mem| && (b == |t| ==> mem[start + b := NUL] == mem)
      && StringAt(mem[start + b := NUL], start + a, t[a..b])
      && (mem[start + b] == NUL <==> b == |t|)
  {
    var a := Skip(t, d, 0);
    var b := End(t, d, a);
    hide Skip, End;
    CutAt(mem, start, t, a, b);
  }

  lemma CharacterAt(mem: seq<char>, start: int, t: string, k: int)
    requires StringAt(mem, start, t) && 0 <= k < |t|
    ensures mem[start + k] == t[k] != NUL
  {
    assert mem[start..start + |t|][k] == t[k];
  }

  /** A NUL at place b of a string makes its part from a to b a string. */
  lemma CutAt(mem: seq<char>, start: int, t: string, a: int, b: int)
    requires StringAt(mem, start, t) && 0 <= a <= b <= |t|
    ensures 0 <= start + b < |mem| && (b == |t| ==> mem[start + b := NUL] == mem)
    ensures StringAt(mem[start + b := NUL], start + a, t[a..b])
    ensures mem[start + b] == NUL <==> b == |t|
  {
    var cut, token := mem[start + b := NUL], t[a..b];
    if b < |t| {
      CharacterAt(mem, start, t, b);
    }
    forall k | 0 <= k < |token| ensures cut[start + a + k] == token[k] != NUL {
      CharacterAt(mem, start, t, a + k);
    }
    assert cut[start + a..start + a + |token|] == token;
  }

  lemma {:induction false} ShiftedSkip(t: string, d: string, i: nat, k: nat)
    requires i + k <= |t|
    ensures Skip(t[i..], d, k) == Skip(t, d, i + k) - i
    decreases |t| - k
  {
    if i + k < |t| && t[i + k] in d {
      ShiftedSkip(t, d, i, k + 1);
    }
  }

  lemma {:induction false} ShiftedEnd(t: string, d: string, i: nat, k: nat)
    requires i + k <= |t|
    ensures End(t[i..], d, k) == End(t, d, i + k) - i
    decreases |t| - k
  {
    if i + k < |t| && t[i + k] !in d {
      ShiftedEnd(t, d, i, k + 1);
    }
  }

  /** What follows a token stays where it is. */
  lemma Behind(mem: seq<char>, at: nat, t: string, i: nat, b: nat)
    requires i <= b < |t| && StringAt(mem, at + i, t[i..])
    ensures StringAt(mem[at + b := NUL], at + b + 1, t[b + 1..])
  {
    assert mem[at + b + 1..at + |t|] == mem[at + i..at + |t|][b + 1 - i..];
    assert t[i..][b + 1 - i..] == t[b + 1..];
  }

  lemma CutMore(was: seq<char>, mem: seq<char>, at: nat, t: string, d: string, i: nat, j: nat, p: nat,
      runs: seq<Run>, tokens: seq<nat>)
    requires Cut(was, at, t, runs, tokens) && |was| == |mem| && i < j <= |t| && Found(mem, p, d, at, t, i, j)
    requires forall k :: 0 <= k < at + i && k < |mem| ==> mem[k] == was[k]
    requires forall k :: 0 <= k < |runs| ==> runs[k].to < i
    ensures Runs(t, d, i) != []
    ensures var run := Runs(t, d, i)[0];
      && Cut(mem, at, t, runs + [run], tokens + [p]) && (run.to < j || j == |t|)
      && Runs(t, d, i) == [run] + Runs(t, d, j)
  {
    StillCut(was, mem, at, t, i, runs, tokens);
    hide Runs, StringAt;
  }

  /** After some tokens: their runs are `done`, and i characters. */
  predicate Progress(mem: seq<char>, p: Pointer, at: nat, t: string, d: string, i: nat, done: seq<Run>, tokens: seq<nat>) {
    && i <= |t| && Rest(mem, p, at, t, i)
    && done + Runs(t, d, i) == Runs(t, d, 0) && Cut(mem, at, t, done, tokens)
    && forall k :: 0 <= k < |done| ==> done[k].to < i || i == |t|
  }

  lemma NoneYet(mem: seq<char>, at: nat, t: string, d: string)
    requires StringAt(mem, at, t)
    ensures Progress(mem, To(at), at, t, d, 0, [], [])
  {
    assert t[0..] == t;
  }

  lemma RestOf(mem: seq<char>, p: Pointer, at: nat, t: string, d: string, i: nat, done: seq<Run>, tokens: seq<nat>)
    requires Progress(mem, p, at, t, d, i, done, tokens)
    ensures i <= |t| && Rest(mem, p, at, t, i)
  {
  }

  lemma AllFound(mem: seq<char>, p: Pointer, at: nat, t: string, d: string, i: nat, done: seq<Run>, tokens: seq<nat>)
    requires Progress(mem, p, at, t, d, i, done, tokens) && Runs(t, d, i) == []
    ensures Cut(mem, at, t, Runs(t, d, 0), tokens)
  {
    assert done == Runs(t, d, 0);
  }

  lemma OneMore(was: seq<char>, start: Pointer, mem: seq<char>, saved: Pointer, at: nat, t: string, d: string, i: nat, j: nat,
      p: nat, done: seq<Run>, tokens: seq<nat>) returns (more: seq<Run>)
    requires Progress(was, start, at, t, d, i, done, tokens) && |was| == |mem|
    requires i < j <= |t| && Rest(mem, saved, at, t, j) && Found(mem, p, d, at, t, i, j)
    requires forall k :: 0 <= k < at + i && k < |mem| ==> mem[k] == was[k]
    ensures Progress(mem, saved, at, t, d, j, more, tokens + [p])
  {
    hide Runs, Found, Rest, Cut;
    CutMore(was, mem, at, t, d, i, j, p, done, tokens);
    more := done + [Runs(t, d, i)[0]];
  }

  lemma StillCut(was: seq<char>, mem: seq<char>, at: nat, t: string, i: nat, runs: seq<Run>, tokens: seq<nat>)
    requires Cut(was, at, t, runs, tokens) && |was| == |mem| && i < |t|
    requires forall k :: 0 <= k < at + i && k < |mem| ==> mem[k] == was[k]
    requires forall k :: 0 <= k < |runs| ==> runs[k].to < i
    ensures Cut(mem, at, t, runs, tokens)
  {
    forall k | 0 <= k < |runs| ensures StringAt(mem, tokens[k], t[runs[k].from..runs[k].to]) {
      assert mem[tokens[k]..at + runs[k].to] == was[tokens[k]..at + runs[k].to];
    }
  }
}
