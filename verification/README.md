# Verification of a small Linux 0.12 kernel

The kernel shares one page directory among 64 tasks, forks by sharing pages read-only, and copies a page
when somebody writes to it.  This project models that engine, the scheduler with its sleep queues, process
numbers, the console, the formatted printing, the boot chain and the harder string routines, and proves
what they are for.

How the parts fit together:

- `PageTables` describes every paging operation as a function on one flat physical memory, in which the page
  directory, the page tables, the structures of the tasks and the user pages lie side by side.
  `MemoryManager` is the code: loops that change `mem_map` and the tables in place, each proved equal to its
  function.
- `Conservation` states what all operations keep: `mem_map[f]` is exactly the number of references to frame f,
  and the page tables are well formed.  `Allocation`, `Sharing`, `Release`, `Forking` and `Faults` prove it
  operation by operation, `Forking` also that a failed fork undoes itself, `Capacity` exactly when a fork
  succeeds, and `Kept` that user mode may use what it has and task structures keep their words.
- `Isolation`, `PrivateMemory` and `Runs` prove that, by writes to pages of their own windows, tasks 1..63 cannot
  tell copy on write from memories of their own.  `LinearAddresses` and `Stores` tell a store by its segment and
  linear address, because the video segment reaches into the windows of other tasks.  `TaskZero` and `ZeroFork` are the forks of task 0, whose mappings are not counted: they keep
  memories private under an exact condition on the state before.  `Boot` and `FirstFork` work it out for the
  first fork and every size of memory; `BootRuns` goes on from there, to every run and to two inputs for which
  the code fails, and `UnsafeForks` says how an unsafe fork shows.
- `WaitQueue` is `__sleep_on` and `wake_up` as interleaved steps on one queue, `WaitQueues` on many; `Scheduler`,
  `Fairness` and `Accounting` are `schedule` and `do_timer`; `WakeTime` is both together; `Pids` is `find_empty_process`, and `SysFork` puts
  it together with the memory.
- `Console` compares the window that slides through video memory with a grid of rows; `ConsoleLaws` says what a
  reader of the grid sees.
- `Printf`, `NumberPrinter` and `Formatting` are `number` and `vsprintf`; `FormatLaws` and `ConversionLaws` say what
  they print, and `Printk` brings it to the screen.
- `Image`, `Loader` and `Bootstrap` take three files through the disk image and track by track to address 0.
- `Strings` and `Tokens` are `strstr`, `memmove` and `strtok`; `Descriptors` packs and unpacks segment bases.
- `Kernel` holds what several parts share.

Where the source does not do what its design asks, the model does what the source does, and lemmas say exactly
when the design holds and give an input for which it does not: `PrivateMemory.FaultSafeIff` and
`BootRuns.DirectoryOverwritten` (`un_wp_page` ignores a failed allocation), `ZeroFork.ZeroForkIff`,
`FirstFork.FirstForkByMemory`, `UnsafeForks.UnsafeForkShows` and `BootRuns.OneWriteShows` (task 0's mappings are
not counted), `Stores.StoresStayHome`, `Stores.ForeignStore` and `Stores.VideoReaches` (the video segment),
`Console.Screen.ConInit` (the initial cursor line must exist), `Console.RestartsWholeIff` (an odd number of
cells, which the 25 lines that setup.S reports rule out), `ConversionLaws.StarWidth` and
`ConversionLaws.StarPrecision` (a `*` loses its argument), `FormatLaws.JoinsIff` and `FormatLaws.CutOffExample` (a format that
ends inside a conversion), `Loader.SixSectorsNeeded`.

Assumptions about the outside: translation always reads the tables as they are (no stale TLB), code between
two calls of `schedule()` is not interrupted by other tasks, disk reads succeed in the end, and a pointer
argument points into an array that is large enough.  The results of modules `Runs`, `PrivateMemory`, `BootRuns` and
`SysFork` about what tasks see take every write to be made in the writer's own window; the processor does not
enforce this for the video segment, and module `Stores` says which stores keep to it.

## Model

| member | source | states |
|---|---|---|
| `Runs.RunRefines` | mm/memory.c:52-128 | For every run of forks by any task and writes to the pages of tasks 1..63, of any length and order, in which each fault that needs a copy finds a frame and each fork by task 0 shares no page in use: what each of these tasks sees at each page is what it sees in a machine where fork copies a whole memory and a write changes one word of one memory; the reference counts and sole ownership of writable pages hold at the end |
| `Runs.StepRefines` | mm/memory.c:52-128 | One fork or one write, the fault included, is one step of that machine, and the invariants hold again after it |
| `Runs.RefinesUntilUnsafe` | mm/memory.c:52-128 | Without those two conditions: every run is one of private memories up to its first unsafe step, a step that a condition on the state before it names |
| `Runs.UnsafeStep` | mm/memory.c:79-117 | And each unsafe step does harm: such a fork ends privacy; such a fault copies the page over the page directory and leaves a writable entry for frame 0 in the old table |
| `Runs.OthersCannotInterfere` | mm/memory.c:86-96 | Writes to the pages of other tasks, and their forks, do not change what a task sees |
| `Runs.ForkIsASnapshot` | kernel/fork.c:22-30 | A child keeps the memory its parent had at the fork, or task 0's windows as they were, whatever is written to the pages of the parent and everyone else afterwards |
| `Runs.OneFaultSuffices` | mm/memory.c:103-128 | After one fault the page is writable by the rules of user mode, user bit and directory entry included, so the repeated write goes through |
| `BootRuns.UsableFromPowerOn` | mm/memory.c:78-117 | From power-on, in every state that a run reaches, a task may read every page it has in user mode, may write those whose entry says so, and after one fault any of them |
| `Runs.RunKept` | mm/memory.c:52-119 | Every run keeps that all tables and pages are open to user mode, the words of every existing task structure, and write permission to the pages below LOW_MEM |
| `Runs.StructureStays` | kernel/fork.c:39-47 | The structure that a successful fork puts into the child's frame is there, word for word, after any run that follows |
| `Runs.RunConserves` | mm/memory.c:10-119 | In every reachable state, forks of task 0 included, each frame's count is the number of its mappings by tasks 1..63, plus 1 as a page table, plus 1 as a task structure, plus 100 outside main memory, and at most 165 |
| `Conservation.CountBound` | include/linux/mm.h:19-21 | No task maps a frame twice, so at most 63 tasks do and a count never passes 100 + 63 + 2: the unsigned char never wraps |
| `Conservation.FreeFrameUnused` | mm/swap.c:3-27 | The frame `get_free_page` finds lies in main memory, is mapped by nobody and is nobody's table or structure |
| `Allocation.AddTableKeeps` | mm/memory.c:75-78 | A fresh page table keeps every invariant |
| `Sharing.ShareEntryEffect` | mm/memory.c:82-96 | Sharing an entry: both entries read-only and open to user mode, and the count one up above LOW_MEM, only the child's written below; nothing else changes |
| `Sharing.ShareEntriesKeeps` | mm/memory.c:81-97 | The inner loop keeps every invariant, and tables, mappings and missing write permissions of all other tasks |
| `Sharing.CopyTablesKeeps` | mm/memory.c:52-101 | So does `copy_page_tables`, wherever it stops |
| `Release.FreePageEffect` | mm/memory.c:10-20 | One count goes down by one, a count of 0 stays 0, and frames below LOW_MEM are left alone |
| `Release.DropTablesKeeps` | mm/memory.c:22-50 | `free_page_tables` removes exactly the mappings and tables of its range and keeps every count equal to the references |
| `Forking.ForkRollback` | kernel/fork.c:25-28 | A fork that runs out of frames at any directory entry leaves `mem_map`, the task table, every table and every mapping as they were, and nobody gains write permission |
| `Forking.CountsDetermined` | mm/memory.c:5 | Two states with the same structures and mappings have the same `mem_map` |
| `Forking.CopiedKeeps` | kernel/fork.c:39-47 | The half-made child keeps every invariant and touches nothing outside its window |
| `Capacity.ForkSucceedsIff` | kernel/fork.c:39-76 | A fork by a task other than 0 succeeds exactly if there are frames for its structure and for each table of its parent; it takes these, and none if it fails |
| `Capacity.CopyTablesIff` | mm/memory.c:68-76 | Copying tables succeeds exactly if there is a frame for each; sharing pages takes none |
| `Faults.SoleUserMeans` | mm/memory.c:107 | A count of 1 on a mapped frame is that one mapping, and the frame is no table or structure |
| `Faults.InPlaceKeeps` | mm/memory.c:107-111 | Making the page writable in place keeps every invariant |
| `Faults.CopyKeeps` | mm/memory.c:113-117 | So does the copy |
| `PrivateMemory.FaultView` | mm/memory.c:103-119 | After a fault the task sees the words it saw, in a page that is its own and writable; everyone else sees what they saw |
| `PrivateMemory.ForkView` | kernel/fork.c:22-30 | After a fork the child sees its parent's memory and everyone else sees what they saw; after a failed one everyone does |
| `PrivateMemory.FaultSafeIff` | mm/memory.c:112-117 | The task gets a frame above LOW_MEM if and only if no copy was needed or a frame was free; otherwise the page is copied over frame 0, the page directory |
| `UnsafeForks.UnsafeForkShows` | mm/memory.c:79-96 | If task 0 forks while a task can write a page that is shared, there is a write after which the tasks see what they would not see in memories of their own |
| `UnsafeForks.SharedWriterShows` | mm/memory.c:79-96 | Namely every write of another value to such a page: it changes the child's memory too |
| `UnsafeForks.SharedTableShows` | mm/memory.c:79-117 | And if a page table lies in a shared page, every write that copies a page below it |
| `UnsafeForks.TableShows` | mm/memory.c:112-117 | In any state, such a write shows at the page of whoever maps the table |
| `Stores.DeedsRefine` | kernel/sched.c:150-169 | For every run of forks and stores by tasks 1..63 through their data segments and the video segment, of which none goes to physical memory between LOW_MEM and 16 MB: the memories are those of the machine in which a store is a write to the window its address is in, whoever makes it |
| `Stores.StoresStayHome` | include/linux/sched.h:7-15 | What other tasks do does not change what a task sees if each of their stores is in the storer's own window, below LOW_MEM or where nothing is, a condition on the address alone |
| `Stores.ForeignStore` | kernel/head.S:156 | Any other store to a window changes the memory of the task whose window it is, unless the word was there already in a page of its own |
| `Stores.VideoReaches` | kernel/head.S:156 | Through the video segment every task can make such a store to every word of tasks 1..3 |
| `Stores.DataIsHarmless` | kernel/fork.c:22-24 | Through its data segment none can |
| `LinearAddresses.LowStore` | kernel/sched.c:150-169 | A store to the video memory, or up to LOW_MEM, changes no task's memory |
| `LinearAddresses.PhysicalStore` | kernel/head.S:121-127 | A store through task 0's map of physical memory changes the page of everyone who maps the frame |
| `LinearAddresses.StoreIsWrite` | mm/memory.c:125-127 | A store in a window is a write to the page and word that the address names, and nothing behind its first 16 MB |
| `Kept.ForkKept` | kernel/fork.c:39-76 | A fork, failed or not, keeps user access, the structures of the others and the permissions of the low pages; after a successful one the child's frame holds the structure given |
| `Kept.FaultUsable` | mm/memory.c:103-119 | A fault for which there is a frame leaves a page that user mode may write, and all other pages open to it |
| `Kept.SharingIsArithmetic` | mm/memory.c:88-92 | On the words: sharing takes 2 or nothing from the entry, in the child always and in the parent from frame 256 on, and leaves bit 1 clear |
| `Kept.FaultIsArithmetic` | mm/memory.c:107-117 | On the words: a fault in place adds 2 or nothing, a copy leaves 4096 * frame + 7 |
| `ZeroFork.ZeroForkIff` | mm/memory.c:75-96 | In any state, a fork by task 0 succeeds exactly if five frames are to be had, counting as taken what it shares on the way; then memories stay private exactly if, before the fork, nobody can write a page it shares and neither an old structure nor one of these five frames lies in a shared page |
| `ZeroFork.ZeroForkOutcome` | kernel/fork.c:39-76 | Which frames it takes and where they go, that nothing else above LOW_MEM is written, even when it fails, and which frame is free next |
| `ZeroFork.CopyFollows` | mm/memory.c:68-98 | Table by table it takes the highest frame that is free and has not been shared on the way |
| `ZeroFork.ZeroForkOthers` | kernel/fork.c:22-30 | Tasks 1..63 see what they saw over a fork by task 0, failed or not; a failed one keeps memories private |
| `ZeroFork.ZeroChildView` | mm/memory.c:79-93 | The child of task 0 sees the first 160 pages of each table as they were, or, in a frame that the fork itself has taken, what the fork has put there; and nothing else |
| `TaskZero.ZeroForkMaps` | mm/memory.c:79-81 | The child of task 0 maps exactly the first 160 pages of each of the four tables; the others map what they mapped, and nobody's write permission changes |
| `Boot.BootInv` | kernel/head.S:109-127 | What `setup_paging` and `mem_init` leave meets every invariant, for every split of memory |
| `FirstFork.FirstForkByMemory` | kernel/main.c:24-46 | For every size of memory the BIOS can report, the first fork succeeds exactly if main memory has five frames, and then leaves private memories exactly if memory does not end at frames 1025..1186, 2049..2211 or 3073..3236, in or just above the pages that task 0 shares |
| `FirstFork.FirstForkIff` | mm/memory.c:75-96 | The first fork leaves private memories if and only if none of the five frames it takes is one it shares; which frames these are follows from where memory starts and ends |
| `BootRuns.FromPowerOn` | kernel/main.c:24-56 | From the state of the first fork on, for every size of memory that passes the condition above: the fork succeeds and every safe run of forks and writes after it is one of private memories |
| `BootRuns.FromPowerOnFull` | kernel/main.c:24-56 | With 16 MB or more no condition on memory is left |
| `BootRuns.StoresFromPowerOn` | kernel/main.c:45-56 | The same for runs of stores through segments |
| `BootRuns.FromPowerOnUntilUnsafe` | kernel/main.c:24-56 | For every size of memory and every run: it is one of private memories up to its first unsafe step, and that is the first fork itself exactly if memory ends in or just above a shared window |
| `BootRuns.DirectoryOverwritten` | mm/memory.c:112-117 | With 20 KB of extended memory the first fork takes every frame, and the child's first write to its page 5 copies that page over the page directory and leaves a writable entry for frame 0 |
| `BootRuns.OneWriteShows` | mm/memory.c:79-96 | With 4 MB and 12 KB the child maps its own page table, and one write to its page 0 changes its page 1025: not a step of private memories |
| `UnsafeForks.FaultShowsInTable` | mm/memory.c:112-117 | In general, a task that maps one of its own page tables sees its memory change when another of its pages is copied |
| `FirstFork.CrowdedMemory` | kernel/main.c:24-46 | With 4 MB and 12 KB the first fork succeeds and memories are not private |
| `Boot.MemorySplit` | kernel/main.c:24-36 | For every size the BIOS can report: memory ends at the last page boundary it reaches or at 16 MB, and main memory starts at 4 MB from 12 MB and 4 KB on, at 2 MB from 6 MB and 4 KB on, else at 1 MB |
| `MemoryManager.Memory.SetupPaging` | kernel/head.S:109-127 | The loops clear the directory and map all 16 MB to themselves |
| `MemoryManager.Memory.MemInit` | mm/memory.c:131-147 | Exactly the main-memory frames are left at 0, all others at 100 |
| `MemoryManager.Memory.StartKernel` | kernel/main.c:23-39 | Together they reach, for every size of memory, the state that the lemmas about the first fork start from |
| `MemoryManager.PowerOn` | kernel/main.c:23-39 | A machine of every size gets to that state |
| `MemoryManager.Memory.GetFreePage` | mm/swap.c:3-27 | The highest free frame below HIGH_MEMORY, marked and cleared, or 0; free frames above it are marked and cleared on the way and stay so |
| `MemoryManager.NoneFreeAbove` | mm/swap.c:24-25 | No state that keeps the invariant has a free frame above HIGH_MEMORY, so there the scan is never repeated |
| `MemoryManager.Memory.FreeFrameAt` | mm/memory.c:10-20 | The in-place code is `free_page` of the specification, the count of a free page set back to 0 included |
| `MemoryManager.Memory.FreePageTables` | mm/memory.c:22-50 | The loops are `free_page_tables` of the specification, about which `Release` proves the rest |
| `MemoryManager.Memory.ShareTable` | mm/memory.c:81-97 | The inner loop is the sharing that `Sharing` speaks of |
| `MemoryManager.Memory.CopyPageTables` | mm/memory.c:52-101 | The outer loop, its 160 or 1024 entries and its early return are those of the specification |
| `MemoryManager.Memory.UnWpPage` | mm/memory.c:103-119 | Both branches of the fault are those of the specification |
| `MemoryManager.Memory.DoWpPage` | mm/memory.c:121-128 | The address arithmetic finds the entry that faulted |
| `LinearAddresses.AddressSplits` | mm/memory.c:125-127 | A linear address of a task, shifted and masked, gives its directory entry, its table entry and its word |
| `MemoryManager.Memory.StoreWord` | mm/page.S:14-21 | Attempt, fault, second attempt: one store to any linear address, with or without a frame for the copy |
| `MemoryManager.Memory.UserWrite` | mm/page.S:14-21 | A store to a task's own page is one write step of a run |
| `MemoryManager.Memory.CopyMem` | kernel/fork.c:9-31 | The tables at the child's base, or all of them removed again and -ENOMEM |
| `MemoryManager.Memory.CopyProcess` | kernel/fork.c:33-82 | One fork step of a run; the new number with the structure in the child's frame, or -EAGAIN and nothing taken; the structures of others keep their words |
| `Descriptors.SetBase` | include/linux/sched.h:126-135 | The base reads back from the bytes written, and limit and access bytes are unchanged |
| `Descriptors.GetBase` | include/linux/sched.h:152-162 | The base that the eight bytes hold |
| `Descriptors.SetLimit` | include/linux/sched.h:137-150 | The segment gets the limit rounded up to a page; base and access bits are unchanged |
| `Descriptors.VideoSegment` | kernel/head.S:156 | The video segment begins at 0xb8000, is open to every task, and reaches 256 MB, into the window of task 4; its comment says 64 KB |
| `Descriptors.Windows` | kernel/fork.c:22-24 | Every descendant of task 0 has its 16 MB limit and the base of its own slot |
| `Descriptors.WindowsApart` | include/linux/sched.h:7-15 | Addresses of different slots below the limit use different directory entries, of which a task has four |
| `WaitQueue.RunKeepsChain` | kernel/sched.c:66-110 | Under every interleaving of sleepers, resumptions, wakers and signals, `*p` and the saved pointers form one list without repetition of exactly the tasks inside `__sleep_on` |
| `WaitQueue.ChainUnique` | kernel/sched.c:74-75 | The pointers determine that list |
| `WaitQueue.ResumeSeesSomeone` | kernel/sched.c:87-88 | A sleeper that resumes never finds the queue empty: the warning is never printed |
| `WaitQueue.NoLostWakeup` | kernel/sched.c:78-91 | Once a sleeper is runnable, some sleeper stays runnable until the queue is empty, even if others join in between |
| `WaitQueue.NobodyLeaves` | kernel/sched.c:66-91 | Until someone calls `wake_up` or signals, over every interleaving, none of the sleepers runs or leaves, and those who come stand before them in the list |
| `WaitQueue.Drain` | kernel/sched.c:78-91 | Once one of n sleepers is runnable, and with nobody joining or waking, any order of resuming them ends within 2n - 1 resumptions, and only with the queue empty |
| `WaitQueues.RunKeepsChains` | kernel/sched.c:66-110 | The same for any number of queues over the same tasks: under every interleaving of steps on all of them each queue's pointers form the list of exactly its own sleepers |
| `WaitQueues.NoLostWakeups` | kernel/sched.c:78-110 | Once a sleeper of one queue is runnable, some sleeper of it stays runnable until it is empty, whatever happens there and on the other queues |
| `WaitQueues.DrainAmid` | kernel/sched.c:78-110 | While the other queues go on, n sleepers of a queue that nobody joins or wakes are resumed at most 2n - 1 times, and none is left behind |
| `WaitQueues.SameQueue` | kernel/sched.c:66-110 | A step on a queue is, seen from that queue alone, the step of one queue |
| `WakeTime.WakeUpEmpties` | kernel/sched.c:37-117 | Scheduler and queue together: after a wakeup of n sleepers, with ticks in user mode and nobody joining or waking, all have left within (2n - 1) * (3 W + 1) ticks, W being the sum of 2 * priority - 1 over all tasks |
| `WakeTime.AllLeave` | kernel/sched.c:37-92 | The same once any sleeper is runnable |
| `WakeTime.Progress` | kernel/sched.c:37-92 | Until the queue is empty, some sleeper that leaves or hands on is chosen within 3 W + 1 ticks |
| `WakeTime.SettledAsleep` | kernel/sched.c:78-91 | Each time a sleeper is chosen, the chain of resumptions and calls of `schedule` ends with a task in user mode and no wakeup lost |
| `WaitQueue.Sleepers.SleepOn` | kernel/sched.c:74-79 | The new sleeper becomes the head of the list in a state that is not runnable; all other states stay |
| `WaitQueue.Sleepers.Resumed` | kernel/sched.c:81-91 | The head leaves and makes the next runnable; anyone else makes the head runnable and sleeps again uninterruptibly; all other states and pointers stay |
| `WaitQueue.Sleepers.Wake` | kernel/sched.c:102-110 | The list stays, its head is runnable, and no other state changes |
| `Scheduler.Tasks.Schedule` | kernel/sched.c:37-64 | The ready task with the largest counter, the highest slot among equals, and task 0 exactly if none is ready; counters change only if some task is ready and all ready ones stand at 0, and then as in the next row |
| `Scheduler.Refreshes` | kernel/sched.c:56-61 | Each ready task gets exactly its priority, each other task of slots 1..63 its priority and half its counter rounded down; task 0, empty slots, states and priorities stay |
| `Scheduler.BestIsChosen` | kernel/sched.c:41-53 | The downward scan finds that task, and no other slot meets the description |
| `Scheduler.RecomputeBounded` | kernel/sched.c:56-61 | After a recomputation every ready task has ticks, and counters stay within 0..2 * priority - 1 |
| `Scheduler.Tasks.DoTimer` | kernel/sched.c:112-117 | One tick less for the running task, never below 0, and all others as they were; a new choice only in user mode and at 0 |
| `Fairness.Fair` | kernel/sched.c:37-64 | With the ready set fixed, each ready task runs within the running task's counter, one tick and two epochs, an epoch being the sum of 2 * priority - 1 over the ready tasks |
| `Fairness.ChosenInEpoch` | kernel/sched.c:47-55 | A ready task with ticks left runs before the ticks left in all are used up |
| `Fairness.EpochEnds` | kernel/sched.c:55-62 | When the ticks left are used up, the counters are recomputed and every ready task has exactly its priority |
| `Fairness.EpochShare` | kernel/sched.c:37-64 | In what is left of an epoch each ready task runs exactly as many ticks as its counter says |
| `Fairness.SharesByPriority` | kernel/sched.c:56-61 | From the end of the current epoch on, over any r rounds of as many ticks as the ready priorities add up to, each ready task runs exactly r times its priority |
| `Fairness.TickIsTimer` | kernel/sched.c:112-117 | A tick of these runs is the only outcome that `do_timer` has in user mode |
| `Accounting.CountersStayBounded` | kernel/sched.c:37-117 | Ticks in either mode, calls of `schedule`, forks and state changes in any order keep every counter within 0..2 * priority - 1 |
| `Accounting.FromTheStart` | include/linux/sched.h:87-88 | From INIT_TASK on every priority is 15 and every counter at most 29 |
| `Accounting.AfterIs` | kernel/sched.c:37-117 | Ticks in either mode and calls of `schedule` in these runs are exactly the outcomes of `do_timer` and `schedule` |
| `Accounting.ForkAddsTicks` | kernel/fork.c:44 | A child has its parent's counter and priority and the parent keeps them, so a fork makes the epoch longer by the parent's ticks |
| `Pids.NumbersStayDistinct` | kernel/fork.c:84-100 | Over all sequences of successful and failed forks, live processes have distinct numbers and keep them, and only task 0 has number 0 |
| `Pids.FromBoot` | kernel/fork.c:7 | This holds from the first fork on |
| `Pids.SomeCandidateIsFree` | kernel/fork.c:86-92 | At most 64 candidates in a row are taken, across the wrap to 1: the search ends within 65 |
| `Pids.NextPidIff` | kernel/fork.c:86-92 | The number found is the one that is unused while every number on the way from the last one, counting on behind 0x7fffffff from 1, is used |
| `Pids.TaskTable.FindEmptyProcess` | kernel/fork.c:84-100 | The lowest empty slot of 1..63, or -EAGAIN exactly if there is none; `last_pid` is the next unused number either way |
| `SysFork.CallsAgree` | kernel/sys_call.S:75-86 | Over every run of fork calls and writes, the process table and the task structures in memory agree on which tasks exist, and the memory goes through a run as above |
| `SysFork.SafeCallsRefine` | kernel/sys_call.S:75-86 | If the calls are safe, the tasks see memories of their own, process numbers stay distinct and the two tables agree, over the same run |
| `SysFork.SlotCanFork` | kernel/fork.c:94-97 | The slot that `find_empty_process` returns meets what `copy_process` needs |
| `SysFork.BootAgrees` | kernel/sched.c:127-128 | They agree when task 0 starts |
| `SysFork.System.SysFork` | kernel/sys_call.S:75-86 | One call, its outcome decided by the paging code: a fresh number in an empty slot with memory copied, or -EAGAIN with the process table as it was |
| `SysFork.System.CopyProcess` | kernel/fork.c:39-81 | The slot is taken before memory is copied and given back if that fails; a slot that stays taken names a frame that holds the structure |
| `Console.Screen.ConsolePrint` | kernel/chr_drv/console.c:192-226 | For every string the window at `origin` shows what a terminal with a grid of rows shows, and the cursor is where that terminal has it |
| `Console.Screen.PrintChar` | kernel/chr_drv/console.c:197-221 | The same for one character, the delayed wrap, control characters and ignored bytes included |
| `Console.Screen.ScrUp` | kernel/chr_drv/console.c:67-97 | Sliding or copying back: the window loses its first row and gains a blank last one; the cursor keeps its place in the window |
| `Console.Screen.CopyBack` | kernel/chr_drv/console.c:73-83 | The overlapping copy, two cells at a time, delivers the old contents |
| `Console.RestartsWholeIff` | kernel/chr_drv/console.c:73-86 | Copying back keeps every screen if and only if the rows that stay are an even number of cells; of an odd number the last is lost |
| `Console.Screen.Lf` | kernel/chr_drv/console.c:112-119 | A line feed of the grid |
| `Console.Screen.Del` | kernel/chr_drv/console.c:126-132 | A DEL of the grid |
| `Console.Screen.GotoXY` | kernel/chr_drv/console.c:40-47 | A position on the screen sets cursor and address together; any other does nothing |
| `Console.Screen.ConInit` | kernel/chr_drv/console.c:177-189 | The cursor state is consistent if and only if the BIOS position is off the screen or two lines above an existing one |
| `Console.Screen.Start` | setup.S:58 | With the 25 lines that setup reports, nothing is asked of the number of columns but that the screen fits |
| `Console.TypeKeepsGrid` | kernel/chr_drv/console.c:197-221 | Every byte keeps the grid rectangular and the cursor on it |
| `ConsoleLaws.TextShown` | kernel/chr_drv/console.c:192-226 | Every text of printable characters and line feeds: the rows shown are those above the cursor and then the lines, each from column 0, cut into rows and padded with blanks; the last ones if they are more than the screen has; the cursor behind the last |
| `ConsoleLaws.LinesShown` | kernel/chr_drv/console.c:197-210 | The same for lines that fit a row, none of them cut |
| `ConsoleLaws.LongLine` | kernel/chr_drv/console.c:198-202 | A line longer than a row goes on in the next one as if a line feed stood there |
| `ConsoleLaws.Printing` | kernel/chr_drv/console.c:197-208 | A printable byte in a row with room changes one cell, to the byte with attribute 7, and moves the cursor one on; at the end of a row a line feed comes first |
| `ConsoleLaws.MovingDown` | kernel/chr_drv/console.c:209-210 | LF, VT and FF go to column 0 of the next row; in the last row every row moves up and a blank one comes in |
| `ConsoleLaws.Controls` | kernel/chr_drv/console.c:211-221 | CR goes to column 0, BS one column back, DEL one back with a blank there, the last two nowhere from column 0; other control bytes and bytes from 128 on do nothing |
| `ConsoleLaws.DeleteUndoes` | kernel/chr_drv/console.c:213-215 | A DEL takes back a character |
| `Console.RowsAt` | kernel/chr_drv/console.c:40-47 | The cell in row r and column k of the window is cell r * cols + k behind `origin` |
| `Printk.Print` | kernel/printk.c:9-32 | `printk`: the terminal gets the text of format and arguments, whose length is returned |
| `Printk.MessageShown` | kernel/printk.c:9-32 | A message without '%' stands on the screen line by line |
| `Console.RowsScroll` | kernel/chr_drv/console.c:68-95 | Dropping the first `cols` cells and adding a blank line is dropping the first row and adding a blank row |
| `Printf.RoundTrip` | kernel/vsprintf.c:29-98 | For every 32-bit value, base 2..36, width, precision and flags, reading the text gives the value back: signed under SIGN, the least integer included, else unsigned |
| `Printf.NumberLength` | kernel/vsprintf.c:49-64 | The length is the maximum of the width and sign + prefix + max(digits, precision) |
| `Printf.DigitsFit` | kernel/vsprintf.c:31-61 | The digits fit `tmp[36]` |
| `Printf.ReadDigitsBack` | kernel/vsprintf.c:55-61 | Digit generation and reading are inverse |
| `Printf.DigitsIff` | kernel/vsprintf.c:36-61 | The digits are the one numeral of the value in its base and case that has no leading zero |
| `Printf.Layout` | kernel/vsprintf.c:63-95 | The text is spaces, sign, prefix, zeros, digits, spaces: '-' for negative numbers under SIGN, else '+' or a space as asked; zeros up to the precision; what is missing of the width is spaces behind under LEFT, zeros under ZEROPAD alone, else spaces in front |
| `NumberPrinter.Number` | kernel/vsprintf.c:29-98 | The code with its counters writes exactly that text behind the cursor, and nothing for a base outside 2..36 |
| `NumberPrinter.Convert` | kernel/vsprintf.c:55-61 | The `do_div` loop leaves the digits in `tmp`, last first |
| `Formatting.VSprintf` | kernel/vsprintf.c:100-242 | For every format: ends, writes the text of the specification and a NUL behind it, and returns its length |
| `Formatting.ParseSpec` | kernel/vsprintf.c:119-164 | Flags, width, precision and qualifier as the specification reads them |
| `Formatting.PrintString` | kernel/vsprintf.c:175-191 | The string cut at the precision and padded to the width |
| `Formatting.PrintConversion` | kernel/vsprintf.c:166-237 | Every letter, unknown ones and the end of the format included |
| `FormatLaws.JoinsIff` | kernel/vsprintf.c:113-238 | The text of f + g is that of f followed by that of g, for all g, if and only if f does not end inside a conversion |
| `FormatLaws.CutText` | kernel/vsprintf.c:232-235 | A format cut off inside a conversion prints the same with a '%' behind it |
| `ConversionLaws.NumericRoundTrip` | kernel/vsprintf.c:193-221 | In every format, each numeric conversion with whatever flags, width and precision prints a number that reads back as its argument, in base 8 for 'o', 10 for 'd', 'i' and 'u', 16 for 'x', 'X' and 'p', before the text of the rest |
| `ConversionLaws.NumericLook` | kernel/vsprintf.c:193-221 | Each numeric conversion: 'x' in lower case and the others not, signs only under 'd' and 'i', prefix, zeros, side of the padding and length; a bare "%p" has zeros up to eight characters |
| `ConversionLaws.ConversionWritten` | kernel/vsprintf.c:113-164 | For every way of writing a conversion: flags in any order, width, precision and qualifier are taken as written, its letter decides what is printed and whether an argument is used, and the rest is printed from there |
| `ConversionLaws.StringLook` | kernel/vsprintf.c:175-191 | "%s": the string or its first `precision` characters at one end of a field of the width, spaces in the rest |
| `ConversionLaws.CharLook` | kernel/vsprintf.c:167-174 | "%c": the same for the character of the low byte |
| `ConversionLaws.OtherLook` | kernel/vsprintf.c:223-237 | "%%" prints '%', "%n" nothing, an unknown letter itself behind '%'; of these only "%n" uses an argument |
| `ConversionLaws.StarWidth` | kernel/vsprintf.c:135-141 | A width given as '*' uses an argument and is lost: "%*" is printed, and the conversion's letter as text |
| `ConversionLaws.StarPrecision` | kernel/vsprintf.c:145-153 | The same for a precision given as '*' |
| `ConversionLaws.HexExample` | kernel/traps.c:47 | "%04x" of 0x2a is "002a" |
| `ConversionLaws.DecimalRoundTrip` | kernel/vsprintf.c:215-221 | What "%d" prints reads back as the argument |
| `FormatLaws.Literal` | kernel/vsprintf.c:113-117 | Text without '%' is printed as it is |
| `Bootstrap.Machine.Boot` | bootsect.S:103-148 | For every 6..63 sectors a track and every accepted set of files, memory at 0 holds the system and memory at 0x90200 holds setup; the transfers were those of setup and then those of the system, and legal |
| `Loader.AllTransfers` | bootsect.S:161-223 | Every transfer is not empty, on one track and in one 64 KB segment; together they take sectors 5 to 388 once each, in order, to addresses from 0x10000 on without a gap |
| `Loader.AdvanceIsSteady` | bootsect.S:193-222 | Each round moves the same distance on the disk and in memory, across heads, tracks and segments |
| `Loader.WantedFits` | bootsect.S:177-189 | The 16-bit carry arithmetic asks for as many sectors as there are: the rest of the track or the rest of the segment, whichever is less, and at least one |
| `Loader.SixSectorsNeeded` | bootsect.S:152-154 | The first transfer is legal if and only if a track has at least six sectors |
| `Bootstrap.Machine.ReadIt` | bootsect.S:161-223 | The register code makes exactly those transfers, and memory from 0x10000 to ENDSEG is the disk behind setup |
| `Bootstrap.Machine.LoadSetup` | bootsect.S:65-84 | Four sectors go to 0x90200 |
| `Bootstrap.Machine.DoMove` | setup.S:103-117 | Memory from 0x10000 to 0x90000 goes to 0; everything above 0x80000 stays |
| `Image.Build` | tools/build.c:68-128 | An image exactly if the root device is 0, 2 or 3, the boot sector has 512 bytes, setup at most 2048 and the system at most 0x20000, else the first of these complaints; boot sector with the root device at 508 and 509, setup filled with zeros to four sectors, system |
| `Strings.Strstr` | lib/string.c:207-232 | The first occurrence, or NULL exactly if there is none; stopping when a mismatch is at the NUL misses nothing, and nothing behind the NUL is read |
| `Strings.Compare` | lib/string.c:217-222 | Equal exactly if the string occurs here, else how far it agrees |
| `Strings.Memmove` | lib/string.c:252-267 | The destination gets the source as it was, overlap or not, and nothing else changes |
| `Tokens.Tokenizer.AllTokens` | lib/string.c:311-369 | Called until NULL, `strtok` returns the start of each run in order, once; in the end each is a string of its own |
| `Tokens.RunsAreMaximal` | lib/string.c:331-353 | These runs are exactly the maximal stretches without delimiters |
| `Tokens.RunsInOrder` | lib/string.c:331-353 | They come from left to right, a delimiter between them |
| `Tokens.Tokenizer.Strtok` | lib/string.c:313-369 | One call: the first run, cut off by a NUL, and `___strtok` behind it; NULL and a cleared `___strtok` if there is none or no delimiter is given |

## Left out

- Port I/O, interrupt controllers, timer programming, the hardware cursor and origin registers, BIOS calls other than disk reads: they touch no modelled state.
- Interrupt entry and exit, register saving, `switch_to` and `iret`: switching is choosing `current`, a fault is a call of `do_wp_page`; a fault on a page that is not present does nothing, as in mm/page.S.
- The TLB: `invalidate` has no counterpart, because translation always reads the current tables.
- The accessed and dirty bits, which the processor may set in page-table entries.
- MemoryManager.Memory.CopyProcess: gets the contents of the task structure as the parameter `pcb`, so registers, selectors and links are not modelled; slot, number, counter and frame are.
- Stores.DeedsRefine: stores through the video segment to physical memory between LOW_MEM and 16 MB, which change frames under whoever has them (LinearAddresses.PhysicalStore), and stores of less than a word.
- Task 0's own memory and the kernel's writes to frames below LOW_MEM: the frames task 0 maps are not counted, so pages below LOW_MEM are seen as the kernel's, whatever it writes there.
- Writes by task 0 to pages above LOW_MEM after its fork, for the same reason.
- Frames that do not exist: every state has 16 MB of frames, whatever `high` is, so a child of task 0 on a smaller machine maps, reads and copies frames that its memory does not have.
- Capacity.ForkSucceedsIff: not for forks by task 0, which count pages that may be free and so take frames by sharing; ZeroFork.ZeroForkIff is about those.
- Capacity.CopyTablesIff: not for copying from task 0, for the same reason; ZeroFork.CopyFollows is about that.
- PrivateMemory.ForkView: not for forks by task 0; ZeroFork.ZeroForkOthers and ZeroFork.ZeroChildView are about those.
- Runs.RunRefines: steps that are not safe are excluded, because the source does not do there what the result says; Runs.RefinesUntilUnsafe and Runs.UnsafeStep are about runs with such steps.
- Runs.StepRefines: steps that are not safe are excluded, because the source does not do there what the result says; Runs.RefinesUntilUnsafe and Runs.UnsafeStep are about runs with such steps.
- Runs.OthersCannotInterfere: steps that are not safe are excluded, because the source does not do there what the result says; Runs.RefinesUntilUnsafe and Runs.UnsafeStep are about runs with such steps.
- Runs.ForkIsASnapshot: steps that are not safe are excluded, because the source does not do there what the result says; Runs.RefinesUntilUnsafe and Runs.UnsafeStep are about runs with such steps.
- Runs.OneFaultSuffices: a fault that needs a copy requires a free frame; without one the page directory is overwritten, as PrivateMemory.FaultSafeIff and Runs.UnsafeStep say.
- Runs.RunConserves: a fault that needs a copy requires a free frame; without one the page directory is overwritten, as PrivateMemory.FaultSafeIff and Runs.UnsafeStep say.
- PrivateMemory.FaultView: a fault that needs a copy requires a free frame; without one the page directory is overwritten, as PrivateMemory.FaultSafeIff and Runs.UnsafeStep say.
- Faults.CopyKeeps: a fault that needs a copy requires a free frame; without one the page directory is overwritten, as PrivateMemory.FaultSafeIff and Runs.UnsafeStep say.
- SysFork.CallsAgree: a fault that needs a copy requires a free frame; without one the page directory is overwritten, as PrivateMemory.FaultSafeIff and Runs.UnsafeStep say.
- MemoryManager.Memory.CopyPageTables: addresses that are not aligned and a target that has tables, which the source only warns about; no caller passes them.
- MemoryManager.Memory.UnWpPage: entries that name a frame above 16 MB, and free frames above HIGH_MEMORY; no reachable state has them.
- WakeTime.WakeUpEmpties: one queue, which nobody joins or wakes meanwhile; other tasks do not change state.
- Fairness.Fair: the set of ready tasks is fixed meanwhile, and ticks come in user mode.
- Warnings by `printk`, `panic` and `die` messages, and the prints for zombie and stopped tasks in `wake_up`.
- Bootstrap.Machine.LoadSetup: failing disk reads and the reset and retry after them, taken to succeed in the end.
- Bootstrap.Machine.ReadIt: failing disk reads and their retries, taken to succeed in the end; the root device chosen from the sectors a track, and the motor.
- Bootstrap.Machine.Boot: disks with fewer than 389 sectors in all, and the boot sector's move of itself to 0x90000 and the hardware parameters that setup stores below 0x90200.
- Image.Build: arguments, `stat` of the root device, and files that cannot be opened or written.
- Console.Screen.ScrUp: the branch for a scroll region, which is never taken because `top` is 0 and `bottom` the number of lines.
- Console.Screen.ConInit: which adapter is detected; `vram.Length` stands for the size that detection gives.
- Formatting.VSprintf: the store of `%n`, and the signed overflow of widths and precisions beyond 31 bits, which C does not define; a `*` takes its argument and, as in the source, stays in the format as the letter of the conversion.
- Formatting.ParseSpec: widths and precisions beyond 31 bits, as above.
- ConversionLaws.ConversionWritten: widths and precisions beyond 31 bits, as above.
- Printk.Print: texts of 1024 characters and more, which overrun the buffer of `printk`.
- Formatting.PrintConversion: the store of `%n`.
- FormatLaws.JoinsIff: formats with a NUL inside, which C strings do not have.
- Strings.Memmove: the direction flag that the backward copy leaves set.
- Descriptors.SetLimit: descriptors that count bytes are covered only for the field itself.
- `strcpy`, `strcat`, `strcmp`, `memset` and the like: they would add only easy members.
