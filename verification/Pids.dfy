/** `find_empty_process`: the next unused process number and an empty slot, over every sequence of forks. */
module Pids {
  import opened Kernel

  const MAX_PID := 0x7fff_ffff

  datatype Slot = Empty | Live(pid: int)

  /** The task table and `last_pid`. */
  datatype Processes = Processes(task: seq<Slot>, last: int)

  predicate Taken(task: seq<Slot>, pid: int) {
    exists i :: 0 <= i < |task| && task[i] == Live(pid)
  }

  predicate Full(task: seq<Slot>) {
    forall i :: 1 <= i < |task| ==> task[i] != Empty
  }

  /** What every fork keeps: task 0 has number 0 and the others distinct positive numbers. */
  ghost predicate Inv(p: Processes) {
    && |p.task| == NR_TASKS && 0 <= p.last <= MAX_PID
    && p.task[0] == Live(0)
    && (forall i :: 1 <= i < NR_TASKS && p.task[i] != Empty ==> 1 <= p.task[i].pid <= MAX_PID)
    && (forall i, j :: 0 <= i < j < NR_TASKS && p.task[i] != Empty ==> p.task[i] != p.task[j])
  }

  /** The k-th number tried: it starts again from 1 behind the largest `long`. */
  function Candidate(last: int, k: int): int {
    if last + k <= MAX_PID then last + k else last + k - MAX_PID
  }

  lemma CandidatesDiffer(last: int, j: int, k: int)
    requires 0 <= last <= MAX_PID && 1 <= j < k <= NR_TASKS + 1
    ensures Candidate(last, j) != Candidate(last, k)
    ensures 1 <= Candidate(last, k) <= MAX_PID
  {
  }

  // ---------- some candidate is unused ----------

  /** The numbers in use. */
  function Numbers(task: seq<Slot>): set<int> {
    if task == [] then {}
    else
      var rest := Numbers(task[..|task| - 1]);
      match task[|task| - 1]
      case Empty => rest
      case Live(pid) => rest + {pid}
  }

  lemma {:induction false} NumbersAre(task: seq<Slot>)
    ensures |Numbers(task)| <= |task|
    ensures forall pid :: pid in Numbers(task) <==> Taken(task, pid)
  {
    if task != [] {
      var rest := task[..|task| - 1];
      NumbersAre(rest);
      forall pid ensures pid in Numbers(task) <==> Taken(task, pid) {
        if Taken(rest, pid) {
          var i :| 0 <= i < |rest| && rest[i] == Live(pid);
          assert task[i] == Live(pid);
        } else if Taken(task, pid) {
          var i :| 0 <= i < |task| && task[i] == Live(pid);
          assert i < |rest| ==> rest[i] == Live(pid);
        }
        assert task[|task| - 1] == Live(pid) ==> Taken(task, pid);
      }
    }
  }

  /** The first k candidates. */
  function Tried(last: int, k: nat): set<int> {
    if k == 0 then {} else Tried(last, k - 1) + {Candidate(last, k)}
  }

  lemma {:induction false} NotTriedBefore(last: int, j: nat, k: int)
    requires 0 <= last <= MAX_PID && j < k <= NR_TASKS + 1
    ensures Candidate(last, k) !in Tried(last, j)
  {
    if j > 0 {
      CandidatesDiffer(last, j, k);
      NotTriedBefore(last, j - 1, k);
    }
  }

  lemma {:induction false} TriedSize(last: int, k: nat, task: seq<Slot>)
    requires 0 <= last <= MAX_PID && k <= NR_TASKS + 1
    requires forall j :: 1 <= j <= k ==> Taken(task, Candidate(last, j))
    ensures |Tried(last, k)| == k && Tried(last, k) <= Numbers(task)
  {
    NumbersAre(task);
    if k > 0 {
      TriedSize(last, k - 1, task);
      NotTriedBefore(last, k - 1, k);
    }
  }

  lemma {:induction false} SubsetSize<T>(a: set<T>, b: set<T>)
    requires a <= b
    ensures |a| <= |b|
  {
    if a != {} {
      var c :| c in a;
      SubsetSize(a - {c}, b - {c});
    }
  }

  /** With 64 slots, at most 64 candidates in a row are taken. */
  lemma SomeCandidateIsFree(task: seq<Slot>, last: int, k: nat)
    requires |task| == NR_TASKS && 0 <= last <= MAX_PID
    requires k <= NR_TASKS + 1 && forall j :: 1 <= j <= k ==> Taken(task, Candidate(last, j))
    ensures k <= NR_TASKS
  {
    TriedSize(last, k, task);
    NumbersAre(task);
    SubsetSize(Tried(last, k), Numbers(task));
  }

  /** The rank of the first unused candidate from the k-th on. */
  function Search(task: seq<Slot>, last: int, k: nat): nat
    decreases NR_TASKS + 1 - k
  {
    if k > NR_TASKS || !Taken(task, Candidate(last, k)) then k else Search(task, last, k + 1)
  }

  lemma {:induction false} SearchFinds(task: seq<Slot>, last: int, k: nat)
    requires |task| == NR_TASKS && 0 <= last <= MAX_PID && 1 <= k <= NR_TASKS + 1
    requires forall j :: 1 <= j < k ==> Taken(task, Candidate(last, j))
    ensures var n := Search(task, last, k);
      k <= n <= NR_TASKS + 1 && !Taken(task, Candidate(last, n)) &&
      forall j :: 1 <= j < n ==> Taken(task, Candidate(last, j))
    decreases NR_TASKS + 1 - k
  {
    if Taken(task, Candidate(last, k)) {
      SomeCandidateIsFree(task, last, k);
      SearchFinds(task, last, k + 1);
    }
  }

  function NextPid(p: Processes): int {
    Candidate(p.last, Search(p.task, p.last, 1))
  }

  /** The lowest empty slot from i on, or the table size. */
  function EmptySlot(task: seq<Slot>, i: nat): (r: nat)
    ensures i <= |task| ==> i <= r <= |task| && (r < |task| ==> task[r] == Empty)
    ensures forall j :: i <= j < |task| && j < r ==> task[j] != Empty
    decreases |task| - i
  {
    if i >= |task| || task[i] == Empty then i else EmptySlot(task, i + 1)
  }

  predicate AllTaken(p: Processes, n: int) {
    forall j :: 1 <= j < n ==> Taken(p.task, Candidate(p.last, j))
  }

  /** The number is unused, nearest after the last one, and found within 65 tries. */
  lemma NextPidIsFresh(p: Processes)
    requires |p.task| == NR_TASKS && 0 <= p.last <= MAX_PID
    ensures !Taken(p.task, NextPid(p)) && 1 <= NextPid(p) <= MAX_PID
    ensures exists n :: 1 <= n <= NR_TASKS + 1 && NextPid(p) == Candidate(p.last, n) && AllTaken(p, n)
  {
    SearchFinds(p.task, p.last, 1);
    assert AllTaken(p, Search(p.task, p.last, 1));
  }

  ghost predicate AllTakenBetween(task: seq<Slot>, low: int, high: int) {
    forall n :: low < n < high ==> Taken(task, n)
  }

  /** n is a free number, and counting on from `last`, behind the largest one from 1, there is none before it. */
  ghost predicate NextNumber(task: seq<Slot>, last: int, n: int) {
    && 1 <= n <= 0x7fff_ffff && !Taken(task, n)
    && if n > last then AllTakenBetween(task, last, n)
       else AllTakenBetween(task, last, 0x8000_0000) && AllTakenBetween(task, 0, n)
  }

  lemma CandidateOf(last: int, q: int)
    requires 0 <= last <= MAX_PID && 1 <= q <= MAX_PID
    ensures Candidate(last, if q > last then q - last else q - last + MAX_PID) == q
  {
  }

  /** Exactly one number is the next. */
  lemma NextPidIff(p: Processes, n: int)
    requires |p.task| == NR_TASKS && 0 <= p.last <= MAX_PID
    ensures n == NextPid(p) <==> NextNumber(p.task, p.last, n)
  {
    var m, k := NextPid(p), Search(p.task, p.last, 1);
    NextPidIsFresh(p);
    SearchFinds(p.task, p.last, 1);
    hide Taken, NextPid, Search;
    assert NextNumber(p.task, p.last, m) by {
      forall q | 1 <= q <= MAX_PID && (if m > p.last then p.last < q < m else q > p.last || q < m) ensures Taken(p.task, q) {
        CandidateOf(p.last, q);
      }
    }
    if NextNumber(p.task, p.last, n) {
      NextUnique(p.task, p.last, n, m);
    }
  }

  lemma NextUnique(task: seq<Slot>, last: int, n: int, m: int)
    requires 0 <= last <= MAX_PID && NextNumber(task, last, n) && NextNumber(task, last, m)
    ensures n == m
  {
  }

  // ---------- runs of forks ----------

  /** One fork; it fails when no slot is empty or memory runs out, and uses up a number all the same. */
  function Fork(p: Processes, memory: bool): Processes {
    var nr := EmptySlot(p.task, 1);
    var pid := NextPid(p);
    if nr < |p.task| && memory then Processes(p.task[nr := Live(pid)], pid) else Processes(p.task, pid)
  }

  function Forks(p: Processes, memory: seq<bool>): Processes
    decreases |memory|
  {
    if memory == [] then p else Forks(Fork(p, memory[0]), memory[1..])
  }

  lemma ForkKeepsInv(p: Processes, memory: bool)
    requires Inv(p)
    ensures Inv(Fork(p, memory))
  {
    NextPidIsFresh(p);
    var pid := NextPid(p);
    assert forall i :: 0 <= i < NR_TASKS ==> p.task[i] != Live(pid);
  }

  /** Whatever forks succeed or fail, live processes have different numbers, each keeps its own,
      and only task 0 has number 0. */
  lemma {:induction false} NumbersStayDistinct(p: Processes, memory: seq<bool>)
    requires Inv(p)
    ensures Inv(Forks(p, memory))
    ensures forall i :: 0 <= i < NR_TASKS && p.task[i] != Empty ==> Forks(p, memory).task[i] == p.task[i]
    decreases |memory|
  {
    if memory != [] {
      ForkKeepsInv(p, memory[0]);
      NumbersStayDistinct(Fork(p, memory[0]), memory[1..]);
    }
  }

  function Booted(): Processes {
    Processes([Live(0)] + seq(NR_TASKS - 1, _ => Empty), 0)
  }

  lemma FromBoot(memory: seq<bool>)
    ensures Inv(Forks(Booted(), memory))
  {
    assert Inv(Booted());
    NumbersStayDistinct(Booted(), memory);
  }

  // ---------- the code ----------

  class TaskTable {
    var task: array<Slot>
    var lastPid: int

    constructor ()
      ensures Valid() && Contents() == Booted() && fresh(task)
    {
      task := new Slot[NR_TASKS](i => if i == 0 then Live(0) else Empty);
      lastPid := 0;
      new;
      assert task[..] == Booted().task;
    }

    ghost predicate Valid()
      reads this, task
    {
      Inv(Contents())
    }

    ghost function Contents(): Processes
      reads this, task
    {
      Processes(task[..], lastPid)
    }

    method IsTaken(pid: int) returns (taken: bool)
      requires task.Length == NR_TASKS
      ensures taken == Taken(task[..], pid)
    {
      for i := 0 to NR_TASKS
        invariant forall j :: 0 <= j < i ==> task[j] != Live(pid)
      {
        if task[i] == Live(pid) {
          assert task[..][i] == Live(pid);
          return true;
        }
      }
      return false;
    }

    /** An empty slot, or minus EAGAIN exactly if there is none; a fresh number either way. */
    method FindEmptyProcess() returns (nr: int)
      requires Valid()
      modifies this`lastPid
      ensures lastPid == NextPid(old(Contents())) && NextNumber(task[..], old(lastPid), lastPid)
      ensures if Full(task[..]) then nr == -EAGAIN else nr == EmptySlot(task[..], 1) < NR_TASKS
      ensures !Taken(task[..], lastPid)
    {
      ghost var last := lastPid;
      ghost var k := 0;
      var taken := true;
      while taken
        invariant 0 <= k <= NR_TASKS + 1 && (k == 0 ==> taken) && lastPid == Candidate(last, k)
        invariant forall j :: 1 <= j < k ==> Taken(task[..], Candidate(last, j))
        invariant k > 0 ==> taken == Taken(task[..], lastPid)
        invariant k > 0 ==> Search(task[..], last, 1) == Search(task[..], last, k)
        decreases taken, NR_TASKS + 1 - k
      {
        SomeCandidateIsFree(task[..], last, k);
        lastPid := Increment(lastPid);
        if lastPid < 0 {
          lastPid := 1;
        }
        k := k + 1;
        taken := IsTaken(lastPid);
      }
      SearchFinds(task[..], last, 1);
      NextPidIff(old(Contents()), lastPid);
      nr := FirstEmpty();
    }

    method FirstEmpty() returns (nr: int)
      requires task.Length == NR_TASKS
      ensures if Full(task[..]) then nr == -EAGAIN else nr == EmptySlot(task[..], 1) < NR_TASKS
    {
      for i := 1 to NR_TASKS
        invariant EmptySlot(task[..], 1) == EmptySlot(task[..], i)
        invariant forall j :: 1 <= j < i ==> task[j] != Empty
      {
        if task[i] == Empty {
          return i;
        }
      }
      return -EAGAIN;
    }
  }

  /** Adding one to a 32-bit `long`. */
  function Increment(n: int): int {
    if n == MAX_PID then -MAX_PID - 1 else n + 1
  }
}
