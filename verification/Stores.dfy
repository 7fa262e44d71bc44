/** Runs in which tasks store through their segments.  A store is told by who makes it, through which
    segment and at which offset; whose memory it changes depends on the linear address alone. */
module Stores {
  import opened Kernel
  import opened PageTables
  import opened Conservation
  import opened Forking
  import opened Isolation
  import opened PrivateMemory
  import opened Runs
  import opened LinearAddresses
  import opened Kept

  // ---------- what a task does ----------

  datatype Deed = Forking(parent: int, nr: int, pcb: seq<int>) | Storing(t: int, seg: Segment, offset: int, v: int)

  function AddressOf(deed: Deed): int
    requires deed.Storing?
  {
    Linear(deed.t, deed.seg, deed.offset)
  }

  /** The operation on the memories: a store is a write to the window its address is in. */
  function OpsOf(deed: Deed): seq<Op> {
    match deed
    case Forking(parent, nr, pcb) => [Op.Forks(parent, nr, pcb)]
    case Storing(_, _, _, v) =>
      var a := AddressOf(deed);
      if a < TASK_SIZE || PageIn(a) >= PAGES then [] else [Op.Writes(Owner(a), PageIn(a), WordIn(a), v)]
  }

  function Do(s: State, deed: Deed): State {
    match deed
    case Forking(parent, nr, pcb) => Step(s, Op.Forks(parent, nr, pcb))
    case Storing(_, _, _, v) => StoreAt(s, AddressOf(deed), v)
  }

  /** The store does not go to physical memory above LOW_MEM through task 0's map of it. */
  predicate AvoidsMemory(address: int) {
    address < LOW_MEM || DATA_LIMIT <= address
  }

  ghost predicate MayDo(s: State, deed: Deed) {
    match deed
    case Forking(parent, nr, pcb) => Enabled(s, Op.Forks(parent, nr, pcb))
    case Storing(t, seg, offset, v) =>
      && 1 <= t < NR_TASKS && InSegment(seg, offset) && AvoidsMemory(AddressOf(deed))
      && forall op :: op in OpsOf(deed) ==> Safe(s, op)
  }

  lemma LinearRange(t: int, seg: Segment, offset: int)
    requires 1 <= t < NR_TASKS && InSegment(seg, offset)
    ensures VIDEO_BASE <= Linear(t, seg, offset) < NR_TASKS * TASK_SIZE
  {
  }

  lemma NothingBetween(s: State, address: int, v: int)
    requires Inv(s) && DATA_LIMIT <= address < TASK_SIZE
    ensures StoreAt(s, address, v) == s
  {
    var d := address / TABLE_SPAN;
    assert DATA_DIRS <= d < TASK_DIRS;
    NoTableThere(s, d, address / PAGE_SIZE % ENTRIES);
    hide WriteWord;
  }

  /** A deed is the operation on the memories that its address says, or none. */
  lemma DeedRefines(s: State, deed: Deed)
    requires Inv(s) && Private(s) && LowWritable(s) && MayDo(s, deed)
    ensures var s' := Do(s, deed);
      var ops := OpsOf(deed);
      && Inv(s') && Private(s') && LowWritable(s')
      && if ops == [] then Abstract(s') == Abstract(s)
        else Enabled(s, ops[0]) && s' == Step(s, ops[0]) && Abstract(s') == SpecStep(Abstract(s), ops[0], s.ram, Forked(s, ops[0]))
  {
    hide Inv, Private, LowWritable, Abstract, Step, StoreAt, Safe, SpecStep, Forked;
    if deed.Forking? {
      ForkDeed(s, deed);
      StepRefines(s, OpsOf(deed)[0]);
    } else {
      var a := AddressOf(deed);
      LinearRange(deed.t, deed.seg, deed.offset);
      if a < LOW_MEM {
        LowStore(s, a, deed.v);
      } else if a < TASK_SIZE {
        NothingBetween(s, a, deed.v);
      } else {
        AddressParts(a);
        StoreIsWrite(s, a, deed.v);
        if PageIn(a) < PAGES {
          var op := OpsOf(deed)[0];
          assert op in OpsOf(deed) && Safe(s, op);
          StoreEnabled(s, op);
          StepRefines(s, op);
          WriteStepKeepsLow(s, op);
        }
      }
    }
  }

  lemma ForkDeed(s: State, deed: Deed)
    requires Inv(s) && LowWritable(s) && MayDo(s, deed) && deed.Forking?
    ensures Enabled(s, OpsOf(deed)[0]) && Do(s, deed) == Step(s, OpsOf(deed)[0]) && LowWritable(Do(s, deed))
  {
    hide Fork, Inv, CanFork, Safe, CanWrite, KeepsTasks, UserSpace, HoldsStructure;
    ForkKept(s, deed.parent, deed.nr, deed.pcb, DATA_DIRS);
  }

  lemma StoreEnabled(s: State, op: Op)
    requires op.Writes? && 1 <= op.t < NR_TASKS && 0 <= op.p < PAGES && 0 <= op.w < ENTRIES && Safe(s, op)
    ensures Enabled(s, op)
  {
  }

  lemma WriteStepKeepsLow(s: State, op: Op)
    requires Inv(s) && LowWritable(s) && op.Writes? && Enabled(s, op)
    ensures LowWritable(Step(s, op))
  {
    hide Inv, Step, CanWrite, KeepsTasks, UserSpace, Safe;
    StepKept(s, op);
  }

  // ---------- runs ----------

  function DoAll(s: State, deeds: seq<Deed>): State
    decreases |deeds|
  {
    if deeds == [] then s else DoAll(Do(s, deeds[0]), deeds[1..])
  }

  ghost predicate MayDoAll(s: State, deeds: seq<Deed>)
    decreases |deeds|
  {
    deeds == [] || (MayDo(s, deeds[0]) && MayDoAll(Do(s, deeds[0]), deeds[1..]))
  }

  /** The operations of the run, as the specification sees them. */
  ghost function Events(s: State, deeds: seq<Deed>): seq<Event>
    decreases |deeds|
  {
    if deeds == [] then []
    else
      var rest := Events(Do(s, deeds[0]), deeds[1..]);
      if OpsOf(deeds[0]) == [] then rest else [Event(OpsOf(deeds[0])[0], s.ram, Forked(s, OpsOf(deeds[0])[0]))] + rest
  }

  /** Over every run of forks and stores, through whichever segments, the memories are those of the machine in
      which each store is a write to the window its address is in. */
  lemma {:induction false} DeedsRefine(s: State, deeds: seq<Deed>)
    requires Inv(s) && Private(s) && LowWritable(s) && MayDoAll(s, deeds)
    ensures var s' := DoAll(s, deeds);
      && Inv(s') && Private(s') && LowWritable(s')
      && Abstract(s') == SpecRun(Abstract(s), Events(s, deeds))
    decreases |deeds|
  {
    hide Inv, Private, LowWritable, Abstract, Do, MayDo, OpsOf, SpecStep, Forked, Step;
    if deeds != [] {
      DeedRefines(s, deeds[0]);
      var next := Do(s, deeds[0]);
      DeedsRefine(next, deeds[1..]);
      var rest := Events(next, deeds[1..]);
      if OpsOf(deeds[0]) != [] {
        var e := Event(OpsOf(deeds[0])[0], s.ram, Forked(s, OpsOf(deeds[0])[0]));
        assert ([e] + rest)[1..] == rest;
      }
    }
  }

  // ---------- exactly which stores stay at home ----------

  /** The condition a task can be held to: its own window, or the video memory itself, or nowhere. */
  predicate Harmless(t: int, address: int) {
    Owner(address) == t || address < LOW_MEM
    || (TASK_SIZE <= address && PageIn(address) >= PAGES) || (DATA_LIMIT <= address < TASK_SIZE)
  }

  lemma DataIsHarmless(t: int, offset: int)
    requires 1 <= t < NR_TASKS && InSegment(Data, offset)
    ensures Harmless(t, Linear(t, Data, offset)) && AvoidsMemory(Linear(t, Data, offset))
  {
  }

  /** The video segment reaches every word of the tasks 1..3. */
  lemma VideoReaches(t: int, u: int, p: int, w: int)
    requires 1 <= t < NR_TASKS && 1 <= u <= 3 && u != t && 0 <= p < PAGES && 0 <= w < ENTRIES
    ensures var offset := u * TASK_SIZE + p * PAGE_SIZE + 4 * w - VIDEO_BASE;
      && InSegment(Video, offset) && !Harmless(t, Linear(t, Video, offset)) && AvoidsMemory(Linear(t, Video, offset))
      && OpsOf(Storing(t, Video, offset, 0)) == [Op.Writes(u, p, w, 0)]
  {
    var a := u * TASK_SIZE + p * PAGE_SIZE + 4 * w;
    AddressOfWord(u, p, w);
    assert Linear(t, Video, a - VIDEO_BASE) == a;
  }

  lemma AddressOfWord(u: int, p: int, w: int)
    requires 1 <= u < NR_TASKS && 0 <= p < PAGES && 0 <= w < ENTRIES
    ensures var a := u * TASK_SIZE + p * PAGE_SIZE + 4 * w;
      a >= TASK_SIZE && Owner(a) == u && PageIn(a) == p && WordIn(a) == w
  {
    var rest := p * PAGE_SIZE + 4 * w;
    assert 0 <= rest < TASK_SIZE;
    var a := u * TASK_SIZE + rest;
    assert a / TASK_SIZE == u && a % TASK_SIZE == rest;
    assert rest / PAGE_SIZE == p && a == (u * (TASK_SIZE / PAGE_SIZE) + p) * PAGE_SIZE + 4 * w;
    assert a % PAGE_SIZE == 4 * w;
  }

  /** A store that is not harmless changes the memory of the task whose window it hits, unless the word was
      already there in a page of the task's own. */
  lemma ForeignStore(s: State, t: int, address: int, v: int)
    requires Inv(s) && Private(s) && TASK_SIZE <= address < NR_TASKS * TASK_SIZE && !Harmless(t, address)
    requires Safe(s, Op.Writes(Owner(address), PageIn(address), WordIn(address), v))
    requires PageIn(address) in MemoryOf(s, Owner(address))
    ensures var u, p, w := Owner(address), PageIn(address), WordIn(address);
      var s' := StoreAt(s, address, v);
      var words := Words(MemoryOf(s, u)[p], s.ram);
      && u != t && 1 <= u < NR_TASKS
      && MemoryOf(s', u) == MemoryOf(s, u)[p := Own(WriteIn(words, w, v))]
      && (MemoryOf(s', u) == MemoryOf(s, u) <==> MemoryOf(s, u)[p].Own? && |words| == ENTRIES && 0 <= w < ENTRIES && words[w] == v)
  {
    AddressParts(address);
    StoreIsWrite(s, address, v);
    var u, p, w := Owner(address), PageIn(address), WordIn(address);
    assert u != t;
    PageSize(s, u, p);
    InPages(s, u, p);
    hide *;
    WriteChanges(s, u, p, w, v);
    SameAfterWrite(MemoryOf(s, u), p, w, v, s.ram);
  }

  lemma InPages(s: State, u: int, p: int)
    requires p in MemoryOf(s, u)
    ensures 0 <= p < PAGES
  {
  }

  lemma WriteChanges(s: State, u: int, p: int, w: int, v: int)
    requires Inv(s) && Private(s) && 1 <= u < NR_TASKS && p in MemoryOf(s, u) && 0 <= p < PAGES && 0 <= w < ENTRIES
    requires Safe(s, Op.Writes(u, p, w, v))
    ensures MemoryOf(Step(s, Op.Writes(u, p, w, v)), u) == MemoryOf(s, u)[p := Own(WriteIn(Words(MemoryOf(s, u)[p], s.ram), w, v))]
  {
    var op := Op.Writes(u, p, w, v);
    hide Inv, Private, Step, Safe, MemoryOf, Words;
    StoreEnabled(s, op);
    StepRefines(s, op);
    assert MemoryOf(Step(s, op), u) == Abstract(Step(s, op))[u];
    assert MemoryOf(s, u) == Abstract(s)[u];
  }

  lemma SameAfterWrite(m: Memory, p: int, w: int, v: int, ram: seq<seq<int>>)
    requires p in m && |Words(m[p], ram)| == ENTRIES && 0 <= w < ENTRIES
    ensures m[p := Own(WriteIn(Words(m[p], ram), w, v))] == m <==> m[p].Own? && Words(m[p], ram)[w] == v
  {
    var words := Words(m[p], ram);
    var page := Own(WriteIn(words, w, v));
    assert m[p := page][p] == page;
    if m[p] == page {
      assert m[p := page] == m;
    }
    if m[p].Own? {
      OwnWords(m[p], ram);
      assert words[w := v] == words <==> words[w] == v;
    }
  }

  lemma OwnWords(view: PageView, ram: seq<seq<int>>)
    requires view.Own?
    ensures view == Own(Words(view, ram))
  {
  }

  lemma PageSize(s: State, u: int, p: int)
    requires Inv(s) && 1 <= u < NR_TASKS && 0 <= p < PAGES && p in MemoryOf(s, u)
    ensures |Words(MemoryOf(s, u)[p], s.ram)| == ENTRIES
  {
    WordsAt(s, u, p);
    DirOfTask(u, p);
    assert Maps(s, DirOf(u, p), SlotOf(p), FrameAt(s, DirOf(u, p), SlotOf(p)));
  }

  predicate Stays(deed: Deed) {
    deed.Forking? || Harmless(deed.t, AddressOf(deed))
  }

  predicate By(deed: Deed, t: int) {
    if deed.Forking? then deed.nr == t else deed.t == t
  }

  /** As long as the others' stores stay at home, nothing they do changes what a task sees. */
  lemma {:induction false} StoresStayHome(s: State, deeds: seq<Deed>, t: int)
    requires Inv(s) && Private(s) && LowWritable(s) && MayDoAll(s, deeds) && 1 <= t < NR_TASKS
    requires forall k :: 0 <= k < |deeds| ==> Stays(deeds[k]) && !By(deeds[k], t)
    ensures MemoryOf(DoAll(s, deeds), t) == MemoryOf(s, t)
    decreases |deeds|
  {
    hide Inv, Private, LowWritable, Do, MayDo, OpsOf, SpecStep, Forked, Step, MemoryOf, Stays, By;
    if deeds != [] {
      DeedRefines(s, deeds[0]);
      assert Stays(deeds[0]) && !By(deeds[0], t);
      if OpsOf(deeds[0]) != [] {
        AtHome(s, deeds[0], t);
      }
      assert MemoryOf(Do(s, deeds[0]), t) == Abstract(Do(s, deeds[0]))[t];
      assert MemoryOf(s, t) == Abstract(s)[t];
      StoresStayHome(Do(s, deeds[0]), deeds[1..], t);
    }
  }

  lemma AtHome(s: State, deed: Deed, t: int)
    requires Stays(deed) && !By(deed, t) && 1 <= t < NR_TASKS && OpsOf(deed) != []
    ensures var spec := SpecStep(Abstract(s), OpsOf(deed)[0], s.ram, Forked(s, OpsOf(deed)[0]));
      t in spec && spec[t] == MemoryOf(s, t)
  {
    hide MemoryOf, Forked, Words, Image, Owner, PageIn, WordIn;
    if deed.Storing? {
      assert OpsOf(deed)[0].t == deed.t by { OwnWindow(deed); }
    }
  }

  lemma OwnWindow(deed: Deed)
    requires deed.Storing? && Harmless(deed.t, AddressOf(deed)) && OpsOf(deed) != []
    ensures OpsOf(deed)[0].Writes? && OpsOf(deed)[0].t == deed.t
  {
  }
}
