/** `strstr` and `memmove`.  A string is the characters before its NUL; the code may look at that NUL,
    but at nothing behind it. */
module Strings {
  const NUL: char := '\0'

  datatype Pointer = Null | To(at: nat)

  predicate IsString(s: string) {
    NUL !in s
  }

  /** `repne scasb` for the NUL. */
  method Length(s: string) returns (n: nat)
    requires IsString(s)
    ensures n == |s|
  {
    var text := s + [NUL];
    n := 0;
    while text[n] != NUL
      invariant n <= |s|
      decreases |s| - n
    {
      n := n + 1;
    }
  }

  predicate OccursAt(cs: string, ct: string, p: int) {
    0 <= p && p + |ct| <= |cs| && cs[p..p + |ct|] == ct
  }

  lemma OccurrenceAgrees(cs: string, ct: string, start: nat, k: nat)
    requires k < |ct| && start + k <= |cs|
    ensures OccursAt(cs, ct, start) ==> (cs + [NUL])[start + k] == ct[k]
  {
    if OccursAt(cs, ct, start) {
      assert cs[start..start + |ct|][k] == cs[start + k];
    }
  }

  /** `repe cmpsb`: compares up to `count` characters; `at` is behind the last one compared. */
  method Compare(cs: string, ct: string, start: nat, count: nat) returns (equal: bool, at: nat)
    requires IsString(cs) && IsString(ct) && start <= |cs| && count == |ct|
    ensures equal <==> OccursAt(cs, ct, start)
    ensures !equal ==> start < at <= |cs| + 1 && at - start <= |ct|
    ensures !equal ==> cs[start..at - 1] == ct[..at - start - 1] && (cs + [NUL])[at - 1] != ct[at - start - 1]
  {
    var text, pattern := cs + [NUL], ct + [NUL];
    equal, at := true, start;
    var ecx := count;
    while equal && ecx != 0
      invariant 0 <= ecx <= count && at == start + (count - ecx)
      invariant equal ==> at <= |cs| && cs[start..at] == ct[..at - start]
      invariant !equal ==> start < at <= |cs| + 1
      invariant !equal ==> cs[start..at - 1] == ct[..at - start - 1] && text[at - 1] != ct[at - start - 1]
      decreases ecx, equal
    {
      ecx := ecx - 1;
      equal := text[at] == pattern[at - start];
      at := at + 1;
    }
    if !equal {
      OccurrenceAgrees(cs, ct, start, at - start - 1);
    }
  }

  /** The first place where ct occurs in cs, or NULL exactly if there is none. */
  method Strstr(cs: string, ct: string) returns (r: Pointer)
    requires IsString(cs) && IsString(ct)
    ensures r == Null <==> forall p :: !OccursAt(cs, ct, p)
    ensures r.To? ==> OccursAt(cs, ct, r.at) && forall p :: 0 <= p < r.at ==> !OccursAt(cs, ct, p)
  {
    var edx := Length(ct);
    var text := cs + [NUL];
    var esi: nat := 0;
    while true
      invariant 0 <= esi <= |cs|
      invariant forall p :: 0 <= p < esi ==> !OccursAt(cs, ct, p)
      decreases |cs| - esi
    {
      var eax := esi;
      var equal;
      equal, esi := Compare(cs, ct, esi, edx);
      if equal {
        return To(eax);
      }
      eax, esi := esi, eax;
      esi := esi + 1;
      if text[eax - 1] == NUL {
        // the text ended inside the comparison: what is left is shorter than ct
        return Null;
      }
    }
  }

  /** mem with what is at src..src + n written at dest. */
  function Copied(mem: seq<char>, dest: nat, src: nat, n: nat): seq<char>
    requires dest + n <= |mem| && src + n <= |mem|
  {
    mem[..dest] + mem[src..src + n] + mem[dest + n..]
  }

  lemma CopiedNothing(mem: seq<char>, dest: nat, src: nat)
    requires dest <= |mem| && src <= |mem|
    ensures Copied(mem, dest, src, 0) == mem
  {
  }

  lemma CopiedForward(was: seq<char>, mem: seq<char>, dest: nat, src: nat, n: nat)
    requires dest < src && src + n < |was| && mem == Copied(was, dest, src, n)
    ensures mem[dest + n := mem[src + n]] == Copied(was, dest, src, n + 1)
  {
  }

  lemma CopiedBackward(was: seq<char>, mem: seq<char>, dest: nat, src: nat, n: nat)
    requires 0 < src <= dest && dest + n <= |was| && mem == Copied(was, dest, src, n)
    ensures mem[dest - 1 := mem[src - 1]] == Copied(was, dest - 1, src - 1, n + 1)
  {
  }

  method MoveForward(mem: array<char>, dest: nat, src: nat, n: nat)
    requires dest < src && src + n <= mem.Length
    modifies mem
    ensures mem[..] == Copied(old(mem[..]), dest, src, n)
  {
    hide Copied;
    ghost var was := mem[..];
    CopiedNothing(was, dest, src);
    var cx, si, di := n, src, dest;
    while cx != 0
      invariant 0 <= cx <= n && si == src + (n - cx) && di == dest + (n - cx)
      invariant mem[..] == Copied(was, dest, src, n - cx)
    {
      ghost var before := mem[..];
      CopiedForward(was, before, dest, src, n - cx);
      mem[di] := mem[si];
      assert mem[..] == before[di := before[si]];
      si, di, cx := si + 1, di + 1, cx - 1;
    }
  }

  method MoveBackward(mem: array<char>, dest: nat, src: nat, n: nat)
    requires src <= dest && dest + n <= mem.Length
    modifies mem
    ensures mem[..] == Copied(old(mem[..]), dest, src, n)
  {
    hide Copied;
    ghost var was := mem[..];
    CopiedNothing(was, dest + n, src + n);
    var cx, si, di := n, src + n - 1, dest + n - 1;
    while cx != 0
      invariant 0 <= cx <= n && si == src + cx - 1 && di == dest + cx - 1
      invariant mem[..] == Copied(was, dest + cx, src + cx, n - cx)
    {
      ghost var before := mem[..];
      CopiedBackward(was, before, dest + cx, src + cx, n - cx);
      mem[di] := mem[si];
      assert mem[..] == before[di := before[si]];
      si, di, cx := si - 1, di - 1, cx - 1;
    }
  }

  /** The bytes arrive as they were even when the two regions overlap. */
  method Memmove(mem: array<char>, dest: nat, src: nat, n: nat)
    requires dest + n <= mem.Length && src + n <= mem.Length
    modifies mem
    ensures mem[..] == Copied(old(mem[..]), dest, src, n)
  {
    if dest < src {
      MoveForward(mem, dest, src, n);
    } else {
      MoveBackward(mem, dest, src, n);
    }
  }
}
