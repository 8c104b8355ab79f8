# RT-Thread kernel verification

A Dafny model of the parts of RT-Thread 1.2.0 that decide who gets memory, who runs and who waits, and of
the finsh expression compiler, with proofs of what they keep over every run.

| files | models |
|---|---|
| `MemheapSpec`, `MemheapProps`, `MemheapRings`, `MemheapMemory`, `Memheap` | `src/memheap.c`: blocks tiling a pool, then the two rings of in-band headers that represent them, then the operations on memory words |
| `FinshLang`, `FinshWords`, `FinshVm`, `FinshMachine`, `FinshCompiler`, `FinshShell` | `components/finsh`: the 32-bit expression fragment, what its operators do to integers and bits, its byte code, the stack machine, the compiler on its node table, and the shell line that joins them |
| `SortedList`, `TimerRows`, `TimerSpec`, `Timer` | `src/timer.c`, `src/clock.c`: skip-list rows, timers in unbounded time, and the 32-bit tick implementation |
| `SmallMemSpec`, `SmallMemProps`, `SmallMem` | `src/mem.c`: the small-memory chain, and its headers in memory |
| `SlabPages`, `SlabGround`, `SlabSpec`, `SlabProps`, `Slab` | `src/slab.c`: page runs, page descriptors, zones |
| `IpcList`, `Mutex`, `Mailbox`, `MessageQueue`, `MessageQueueWait`, `Event` | `src/ipc.c` |
| `ThreadLists` | the one list node of a thread: ready queues, waiting lists and ended threads together |
| `Bits`, `Scheduler` | `src/scheduler.c`, `src/thread.c`, the time slice of `src/clock.c`, `__rt_ffs` of `src/kservice.c` |
| `Rwlock` | `components/pthreads/pthread_rwlock.c`, `pthread_cond.c` |
| `KernelList`, `ThreadNodes` | the linked lists of `include/rtservice.h`, which the other modules keep as sequences, and the lists of `ThreadLists` as such rings |
| `Seqs`, `Options` | what all share |

Each subsystem has a specification (datatypes and functions), lemmas about single operations, a theorem over
all runs, and a class whose methods change fields in place and are proved equal to the specification.
Concurrency is a sequence of atomic steps: a step is one stretch of code with interrupts disabled (or, in
`Rwlock`, holding `rw_mutex`), and a run is any interleaving of steps of any threads.

Five properties that one would expect do not hold of the code; the model keeps the code, shows a case, and
proves when they do hold.

- A timer callback that stops and restarts its own timer breaks the timer list: `TimerSpec.RestartBreaks` is
  a legal run from an empty list, for every period and for one-shot and periodic timers.  With periods of at
  least 1 where timers are started during a check, an expiry keeps the list if and only if the callback does
  not leave its own timer started again (`TimerSpec.FireKeeps`), which is read off the calls it makes; under
  that condition `TimerSpec.CheckSound` holds.
- Shrinking a block in place does not keep `lfree` the lowest free block (`SmallMemProps.ShrinkExample`, a
  run of three calls on a fresh heap); it does exactly under the condition in `SmallMemProps.ShrinkLow`.
- A waiting reader of a read-write lock can be forgotten when a writer's timed wait expires
  (`Rwlock.Stranded`); `Rwlock.ReadersStep` gives the exact step, and without such an expiry it does not
  happen (`Rwlock.RunReaders`).
- A mutex owner can run below a waiter, and a waiting list can be out of order, when a thread asks for a mutex
  while it holds one (`Mutex.NestedBreaks`, and `Mutex.ChainBreaks` in which nobody ever holds two).  Over every
  run, neither happens if and only if each blocking take and each last release meets a condition that can be
  checked before the call (`Mutex.RunUrgent`, `Mutex.RunOrder`).
- A thread that nests mutexes can be left with a raised priority (`Mutex.NestedBreaks`).  It is back at its
  priority if and only if it ran at it when the mutex that it gives up last came to it (`Mutex.LastRestores`),
  so always if it gives mutexes up in the reverse order of getting them (`Mutex.ReverseRestores`).

When threads ask for a mutex only while they hold none, `Mutex.RunOk` and `Mutex.Restored` give all of this.

The code and its comments differ in one place that shows in the model: the comment on `heap_end` in
`src/mem.c` calls it always unused, but the code marks it used.  The model follows the code.

## Model

| member | source | states |
|---|---|---|
| `MemheapProps.RunSound` | src/memheap.c:146-593 | over every run of alloc, free and realloc the blocks tile the pool, the free ring holds every unused block exactly once, no two neighbours are free, the tail stays used, `available_size` is the sum of free sizes and `max_used_size` the peak of the run |
| `MemheapProps.AllocSound` | src/memheap.c:146-288 | an allocation adds one live block of at least the request and less than one further block more, disturbs no live block, and fails exactly when the request is not below the available total or no free block is large enough |
| `MemheapProps.FreeSound` | src/memheap.c:499-593 | freeing removes exactly that block from the live ones and keeps the invariant through both merges |
| `MemheapProps.GrowSound` | src/memheap.c:319-410 | growing into a free right neighbour keeps the address, gives exactly the new size and disturbs no other block |
| `MemheapProps.ShrinkSound` | src/memheap.c:424-496 | shrinking in place keeps the address, gives exactly the new size, and merges the rest with a free neighbour |
| `MemheapProps.ReallocSound` | src/memheap.c:291-496 | on every path realloc keeps the invariant and all other live blocks, and leaves the old block live when it fails; `MemheapProps.ReallocResult` says which path it is |
| `MemheapProps.ReallocResult` | src/memheap.c:291-496 | read off the block, the one behind it and the free blocks: realloc keeps the pointer exactly when the request fits or both blocks have room for it and a least block, with exactly that size when it grows or shrinks; it fails exactly when it has to move and no free block can take it |
| `MemheapProps.ReallocNull` | src/memheap.c:309-312 | realloc of NULL is an allocation, and fails exactly when that does |
| `MemheapProps.RequestIs` | src/memheap.c:155-157 | a request is rounded up to the alignment, by less than 8 bytes, or is the least block |
| `MemheapProps.InitSound` | src/memheap.c:60-131 | the initial pool satisfies the invariant |
| `MemheapProps.AllocThenFree` | src/memheap.c:146-593 | freeing what was just allocated restores the same blocks and the same count |
| `MemheapMemory.ReleaseRep` | src/memheap.c:532-590 | the header writes of a free take a memory that represents the heap to one that represents the freed heap, and touch no live data |
| `MemheapMemory.GrowRep` | src/memheap.c:354-410 | the same for the header writes of growing in place |
| `MemheapMemory.ShrinkRep` | src/memheap.c:436-490 | the same for the header writes of shrinking in place |
| `MemheapMemory.SplitWords` | src/memheap.c:195-243 | the same for allocating out of a larger block |
| `MemheapMemory.WholeWords` | src/memheap.c:244-265 | the same for allocating a whole block |
| `MemheapRings.RemovePhys` | src/memheap.c:538-576 | unlinking an item leaves the ring of all items without it and the free ring as it was |
| `MemheapRings.InsertFree` | src/memheap.c:228-232 | linking an item behind the list head puts it first on the free ring |
| `Memheap.MemHeap.constructor` | src/memheap.c:60-131 | the headers written at start represent one free block and the used tail |
| `Memheap.MemHeap.Search` | src/memheap.c:176-187 | the loop over the free ring stops at the first block that is large enough |
| `Memheap.MemHeap.Alloc` | src/memheap.c:146-288 | the in-place operation is the specified one and changes no word of live data |
| `Memheap.MemHeap.Free` | src/memheap.c:499-593 | the same for free |
| `Memheap.MemHeap.Realloc` | src/memheap.c:291-496 | the in-place realloc is the specified one, with the results of `MemheapProps.ReallocResult`; the first words, as many as both sizes hold, survive on all paths; no other live block changes; on failure everything is as before |
| `FinshLang.SetThenGet` | components/finsh/finsh.h:37-55 | GET32 undoes SET32 for every word |
| `FinshVm.ExecCode` | components/finsh/finsh_ops.c:42-45 | running the code of any expression that fits the stack pushes its value and leaves memory as left-to-right evaluation does, with the operators of `FinshWords` |
| `FinshVm.ExecStep` | components/finsh/finsh_compiler.c:373-715 | the code of prefix and postfix `++` and `--` leaves the new or the old value on the stack and the new value in the variable, one more or less as `FinshWords.ValueIs` says |
| `FinshVm.CompilerCorrect` | components/finsh/finsh_vm.c:47-72 | for every statement list whose code and stack fit, the machine ends with the value of the last statement at the stack bottom and the variables of an evaluator, which `FinshWords.LineIs` proves to be those of integer arithmetic |
| `FinshMachine.Machine.Operate` | components/finsh/finsh_ops.c:42-441 | each operation on stack slots, stack pointer and memory is the abstract one; what its operators compute is proved in `FinshWords` |
| `FinshMachine.Machine.Run` | components/finsh/finsh_vm.c:47-72 | the fetch loop over the text segment computes the abstract execution |
| `FinshCompiler.NodeCodeIs` | components/finsh/finsh_compiler.c:43-757 | walking the tagged tree of an expression emits exactly the code of that expression |
| `FinshCompiler.Compiler.TypeCheck` | components/finsh/finsh_compiler.c:759-901 | the check tags exactly the nodes of the tree, as address where one is wanted, and nothing else in the table |
| `FinshCompiler.Compiler.Compile` | components/finsh/finsh_compiler.c:43-757 | the recursive walk writes the forest's code at the program counter and nothing else |
| `FinshCompiler.Compiler.CompileAll` | components/finsh/finsh_compiler.c:903-937 | after check and statement loop the text holds the code of the statement list, then zeros |
| `FinshShell.RunLine` | components/finsh/shell.c:182-225 | type check, compile and run of a line give the value and the variables of the evaluator, and of integer arithmetic where every result on the way fits a word |
| `FinshWords.LineIs` | components/finsh/finsh_ops.c:31-300 | a line of statements has the value and leaves the variables that integer arithmetic gives, where every result on the way fits |
| `FinshWords.ValueIs` | components/finsh/finsh_ops.c:31-300 | the same for one expression, with assignment, `++`, `--`, `~` and the shifts |
| `FinshWords.AddSubMul` | components/finsh/finsh_ops.c:42-45 | `+`, `-` and `*` are the integer operations up to multiples of 2 to the 32, and exact when the result fits |
| `FinshWords.SubThenAdd` | components/finsh/finsh_ops.c:42-45 | adding undoes subtracting, for all words |
| `FinshWords.DivMod` | components/finsh/finsh_ops.c:113-140 | quotient and remainder give the dividend, and the remainder is smaller than the divisor and has the sign of the dividend |
| `FinshWords.OneQuotient` | components/finsh/finsh_ops.c:113-118 | only one quotient does that: the one truncated toward zero |
| `FinshWords.LogicBits` | components/finsh/finsh_ops.c:179-228 | bitwise and, or and exclusive or, bit by bit |
| `FinshWords.NotBits` | components/finsh/finsh_ops.c:230-250 | `~` turns every bit over |
| `FinshWords.ShlBits` | components/finsh/finsh_ops.c:267-272 | bit i of a left shift by k is bit i - k, or 0 |
| `FinshWords.ShrBits` | components/finsh/finsh_ops.c:289-294 | bit i of a right shift by k is bit i + k, or the sign |
| `TimerRows.InsRowsNested` | src/timer.c:329-378 | for every number of rows and every height, the rows stay sorted and nested and the densest row becomes the stable sorted insert |
| `TimerRows.DelRowsNested` | src/timer.c:121-129 | removing a timer from all rows keeps them sorted and nested |
| `SortedList.InsPlace` | src/timer.c:333-358 | the inserted timer stands behind all due no later and before all due later |
| `TimerSpec.CheckSound` | src/timer.c:478-536 | a check ends after at most as many turns as timers were expired, fires a sublist of them in deadline order with ties in starting order, misses none that no other timer's callback stopped, and leaves none expired; `TimerSpec.PeriodicFires` and `TimerSpec.OneShotFires` say which are started again |
| `TimerSpec.FireSound` | src/timer.c:499-527 | one turn fires the first expired timer; the expired ones left are those before, less the stopped ones, in the same order; whether it waits again is `TimerSpec.CheckBeats` and `TimerSpec.CheckShot` |
| `TimerSpec.RunSound` | src/timer.c:290-536 | over every run of starts, stops, controls and ticks the rows stay nested, they hold the active timers, and no timer is overdue |
| `TimerSpec.FiresExactly` | src/timer.c:478-536 | a waiting timer that nobody stops, but perhaps its own callback, fires exactly at its deadline and not before, whatever else happens |
| `TimerSpec.StartedFires` | src/timer.c:290-399 | a timer started at tick c with n >= 1 fires at c + n, also when its callback stops it |
| `TimerSpec.PeriodicFires` | src/timer.c:499-527 | over every run in which nobody stops a running periodic timer or changes its period or kind, its expiries are exactly the deadline and then one every period, and it is waiting for the next |
| `TimerSpec.BeatsAt` | src/timer.c:515-522 | the k-th of these instants is d + k * p, for every k for which that has come |
| `TimerSpec.CheckBeats` | src/timer.c:499-527 | a check fires an expired periodic timer once and leaves it due one period later |
| `TimerSpec.CheckShot` | src/timer.c:499-527 | a check fires an expired one-shot timer, or one that its callback stops, once, and leaves it inactive |
| `TimerSpec.OneShotFires` | src/timer.c:515-527 | over every run in which nobody starts it or makes it periodic, a one-shot timer, or one that its own callback stops, expires exactly once, at its deadline, and is inactive and in no row from then on |
| `TimerSpec.StoppedSilent` | src/timer.c:409-432 | a timer that is not active does not expire until somebody starts it |
| `TimerSpec.StopStops` | src/timer.c:409-432 | stopping leaves the timer inactive and in no row, and every other timer as it was |
| `TimerSpec.SetThenStart` | src/timer.c:444-469 | the period and kind that are set are those the next start goes by |
| `TimerSpec.HeightIs` | src/timer.c:358-380 | a timer enters k rows above the densest exactly when there are that many and the counter is a multiple of (mask + 1) to the k |
| `TimerSpec.FireKeeps` | src/timer.c:499-527 | an expiry keeps the list if and only if the calls of the callback do not end with its own timer started again |
| `TimerSpec.RestartBreaks` | src/timer.c:502-527 | a timer of any period, one-shot or periodic, is started, its deadline comes, and its callback stops and restarts it: a legal run from a good state that ends with a broken list |
| `TimerSpec.OwnStep` | src/timer.c:507-508 | each call of a callback keeps the list, and the own timer is out, stopped or linked again as the calls say |
| `TimerSpec.SettleLinked` | src/timer.c:515-527 | linking one's own timer in the callback leaves it linked twice, or linked and inactive |
| `Timer.WrapOrder` | src/timer.c:346-353 | comparing wrapped 32-bit ticks agrees with unbounded time for instants less than half the range apart |
| `Timer.Timers.Places` | src/timer.c:329-358 | the row-by-row search finds the place of the sorted insert in every row |
| `Timer.Timers.Start` | src/timer.c:290-399 | start on wrapped ticks is start in unbounded time, and fails on an active timer |
| `Timer.Timers.Link` | src/timer.c:363-378 | the densest row and as many more as the counter's bits allow get the new timer |
| `Timer.Timers.Stop` | src/timer.c:409-434 | stop unlinks the timer everywhere, and fails on an inactive one |
| `Timer.Timers.CheckTimers` | src/timer.c:478-536 | the expiry loop on wrapped ticks is the check in unbounded time, and terminates; over runs that is `TimerSpec.PeriodicFires` and `TimerSpec.OneShotFires` |
| `Timer.Timers.TickIncrease` | src/clock.c:83-105 | across wraparound a tick keeps the wrapped state in step with unbounded time |
| `Timer.Timers.Call` | src/timer.c:507-508 | the calls of a callback on wrapped ticks are those in unbounded time |
| `Timer.Timers.NextTimeout` | src/timer.c:108-119 | the answer is the wrapped earliest deadline, or the maximum when no timer runs |
| `SmallMemProps.RunSound` | src/mem.c:246-558 | over every run of malloc, realloc and free the chain tiles the heap at aligned offsets, no neighbours are free, `lfree` is a free block or `heap_end`, `used_mem` is the extent of used blocks and `max_mem` its peak, the moment when realloc holds both blocks included; without realloc `lfree` is the lowest free block |
| `SmallMemProps.MallocSound` | src/mem.c:246-374 | malloc gives an aligned block that was free, of the rounded size or less than a block more, and keeps every used block |
| `SmallMemProps.FirstFit` | src/mem.c:279-351 | with `lfree` lowest, searching from it is first fit from the start, and malloc fails exactly when no free block fits, but for an exact fit at the very end |
| `SmallMemProps.FreeSound` | src/mem.c:504-558 | free takes exactly one block out of use and keeps the invariant through plug_holes |
| `SmallMemProps.PlugSound` | src/mem.c:136-174 | merging a free block with free neighbours keeps the tiling, the used blocks, the count and a lowest `lfree` |
| `SmallMemProps.ShrinkSound` | src/mem.c:430-454 | shrinking in place leaves the block at its address with the new size and every other used block |
| `SmallMemProps.ShrinkLow` | src/mem.c:430-454 | after shrinking `lfree` is still lowest if and only if it was below the block or is the free block right behind it |
| `SmallMemProps.ShrinkExample` | src/mem.c:430-454 | two requests fill a fresh heap, and shrinking the first block then leaves `lfree` above a free block |
| `SmallMemProps.ReallocSound` | src/mem.c:385-466 | realloc keeps the invariant and all other used blocks, fails without change, and otherwise gives at least the rounded size; `SmallMemProps.ReallocExact` says which blocks are in use then |
| `SmallMemProps.ReallocExact` | src/mem.c:385-466 | the blocks in use after are exactly those before, less the old one, and the new one; the pointer itself comes back exactly when the rounded size is the block's or leaves room for another block, with that size |
| `SmallMemProps.ReallocNull` | src/mem.c:404-405 | realloc of NULL is malloc, for every size; only where the rounding wraps to 0 does it give out nothing |
| `SmallMemProps.MallocExact` | src/mem.c:246-374 | the block malloc gives out is the only new one in use |
| `SmallMemProps.RoundIs` | src/mem.c:263-263 | 32-bit rounding covers the request exactly up to the last multiple of the alignment |
| `SmallMemProps.InitSound` | src/mem.c:184-231 | the initial heap satisfies the invariant with `lfree` lowest |
| `SmallMem.SmallHeap.constructor` | src/mem.c:208-230 | the two headers written at start are the initial chain |
| `SmallMem.SmallHeap.PlugHoles` | src/mem.c:136-174 | the header writes are the specified merges, keep `prev` the inverse of `next` for every block below `heap_end`, and touch no used block's data |
| `SmallMem.SmallHeap.NextFree` | src/mem.c:344-351 | the loop moves `lfree` to the first free block from there, or `heap_end` |
| `SmallMem.SmallHeap.Malloc` | src/mem.c:246-374 | the search and split on headers are the specified malloc and touch no data in use |
| `SmallMem.SmallHeap.Free` | src/mem.c:504-558 | the same for free |
| `SmallMem.SmallHeap.Realloc` | src/mem.c:385-466 | the in-place realloc is the specified one; the first bytes, as many as both sizes hold, survive; no other block's data changes |
| `SlabPages.Unique` | src/slab.c:246-331 | the address-sorted list of maximal runs is determined by the set of free pages |
| `SlabPages.AllocSound` | src/slab.c:246-280 | the pages come from the first run that has enough, they are exactly the ones that leave the list, and it fails exactly without a long enough run |
| `SlabPages.FreeSound` | src/slab.c:282-331 | page free adds exactly those pages and leaves runs maximal and sorted |
| `SlabPages.AllocThenFree` | src/slab.c:246-331 | freeing what was just allocated restores the identical list |
| `SlabPages.AllFreed` | src/slab.c:246-344 | over every run each page is free or in one allocation, and when all is freed, in any order, the list is the one initial run |
| `SlabPages.PageList.PageAlloc` | src/slab.c:246-280 | the loop over the list is the specified allocation |
| `SlabPages.PageList.PageFree` | src/slab.c:282-331 | the loop over the list is the specified free |
| `SlabSpec.ZoneIndexOk` | src/slab.c:411-469 | the chunk size is that of the index, and the chunk holds the request with bounded waste |
| `SlabSpec.ZoneIndexLeast` | src/slab.c:411-469 | index and chunk size determine each other, and the list chosen is that of the smallest chunks that hold the request |
| `SlabSpec.PowerTest` | src/slab.c:647-647 | the bit test of the code holds exactly of the powers of two |
| `SlabSpec.MaskedOffsetIs` | src/slab.c:641-650 | the masked offset of the first chunk is the header rounded up to a multiple of a power-of-two chunk, or of 8 |
| `SlabGround.Recover` | src/slab.c:627-634 | from any address in a zone the page descriptor leads back to the zone's first page |
| `SlabGround.TakeZoneOk` | src/slab.c:611-634 | taking pages for a zone keeps page ownership and descriptors consistent |
| `SlabGround.GiveZoneOk` | src/slab.c:907-930 | so does giving a zone's pages back |
| `SlabProps.RunOk` | src/slab.c:488-935 | over every run `z_nfree` is never-used plus freed chunks, a zone is listed exactly when it has free chunks, descriptors recover zones, and the spare count is the list length and at most the threshold |
| `SlabProps.BlockStays` | src/slab.c:488-935 | over every run a block that is not freed stays live with the bytes it had |
| `SlabProps.RunFrugal` | src/slab.c:488-935 | over every run zones hold as many chunks as fit behind an aligned header, and of each size at most one zone with nothing given out is in service |
| `SlabProps.RetiresExactly` | src/slab.c:885-886 | a free takes a zone out of service exactly when nothing of it is given out any more and another zone of its size has a free chunk |
| `SlabProps.RetireWhere` | src/slab.c:899-930 | two such zones are kept for any size; of a further one exactly its pages are free again |
| `SlabProps.ChunkChoice` | src/slab.c:547-598 | a chunk that was never given out while there is one, then the one freed last |
| `SlabProps.LiveAligned` | src/slab.c:643-650 | every chunk given out begins at a multiple of 8, and one of a power of two up to a page at a multiple of its size |
| `SlabProps.ZonePagesIs` | src/slab.c:384-392 | the zone size is the least of its three values that is the largest or large enough for the heap, and zones take requests below a quarter of it |
| `SlabProps.MallocOk` | src/slab.c:488-686 | malloc gives out one block that was not live, with exactly the bytes of the chunk or the pages for the request; every other live block stays live with the bytes it had |
| `SlabProps.MallocFails` | src/slab.c:488-686 | malloc fails exactly on a zero request or when the pages it needs are not there in one run |
| `SlabProps.FreeOk` | src/slab.c:793-935 | the freed block is the only one no longer live, through retiring and returning zones, and the others keep their bytes |
| `SlabProps.LiveDisjoint` | src/slab.c:488-686 | live blocks never overlap |
| `SlabProps.LiveBlock` | src/slab.c:488-686 | a live block lies inside the pages of its zone, or is the pages of its large block |
| `SlabProps.ChunkZone` | src/slab.c:861-864 | the descriptor of a chunk's page leads from the chunk to its zone, and is never that of a large block |
| `SlabProps.NewZoneOk` | src/slab.c:637-664 | a new zone has room for at least three chunks inside its pages, and one of them is out |
| `SlabProps.AllFree` | src/slab.c:885-886 | a zone whose free count is its maximum has nothing given out |
| `SlabProps.RetireOk` | src/slab.c:885-930 | retiring a zone changes nothing that is live |
| `SlabProps.InitOk` | src/slab.c:354-405 | the initial state satisfies the invariant and no zone is in service, for every heap size |
| `Slab.SlabHeap.Malloc` | src/slab.c:488-686 | the in-place operation is the specified one |
| `Slab.SlabHeap.Free` | src/slab.c:793-935 | the in-place operation is the specified one |
| `Slab.SlabHeap.DescribePages` | src/slab.c:627-634 | the loop gives each page of a zone its distance from the first |
| `IpcList.Suspend` | src/ipc.c:92-135 | the thread is queued last, or behind all of its or higher priority |
| `IpcList.QueuedPlace` | src/ipc.c:92-135 | in a FIFO list behind everyone; in a PRIO list behind all of its or a higher priority and before all of a lower one |
| `Mutex.RunOk` | src/ipc.c:642-859 | over every interleaving in which threads ask for a mutex only while they hold none: a mutex is free iff it has no owner iff it is not held, owners do not wait, waiters stay sorted, and no owner runs below a waiter |
| `Mutex.Restored` | src/ipc.c:772-859 | in such runs a thread that holds no mutex has the priority it had when it last held none, through inheritance, handoff and timeouts |
| `Mutex.RunUrgent` | src/ipc.c:642-859 | over every run, nested or not, no owner ever runs below a waiter if and only if each blocking take and each last release meets its condition |
| `Mutex.TakeUrgent` | src/ipc.c:706-718 | a blocking take leaves no owner below a waiter if and only if it does not raise the owner above the owner of a mutex that it waits for itself |
| `Mutex.ReleaseUrgent` | src/ipc.c:809-850 | when a thread that may hold others gives up a mutex, no owner runs below a waiter if and only if the remembered priority is no lower than that of every waiter on the others and the first waiter is a most urgent one |
| `Mutex.RunOrder` | src/ipc.c:642-859 | over every run the waiting lists stay in order if and only if no take raises a waiting owner past one that stands before it |
| `Mutex.StepOrder` | src/ipc.c:642-859 | the same for one step, of any kind |
| `Mutex.UnnestedMeets` | src/ipc.c:642-859 | a thread that asks for a mutex only while it holds none meets both conditions at every step |
| `Mutex.NestedStep` | src/ipc.c:642-859 | every step of running threads keeps value, owner and hold in agreement, waiters distinct and other than the owner, and each thread on one list at most |
| `Mutex.GivenUp` | src/ipc.c:809-821 | whatever happens while a thread holds a mutex, giving it up leaves the thread at p if and only if the mutex remembered p from the start |
| `Mutex.LastRestores` | src/ipc.c:642-859 | the mutex a thread gives up leaves it at p if and only if it ran at p when that mutex came to it, taken or handed over, however it nests others in between |
| `Mutex.ReverseRestores` | src/ipc.c:642-859 | over every run a thread that gives its mutexes up in the reverse order of getting them is back at its priority whenever it holds none |
| `Mutex.ChainBreaks` | src/ipc.c:706-718 | a run in which nobody ever holds two mutexes, and a waiter ends above the owner it waits for and out of order on its list |
| `Mutex.NestedBreaks` | src/ipc.c:642-859 | two runs with nested mutexes: an owner put below its waiter, and a thread left raised when it holds nothing |
| `Mutex.TakeResult` | src/ipc.c:642-761 | a take ends owning one hold deeper exactly when the mutex was free or owned by the caller; blocked, the caller waits in its place by priority and the owner has the more urgent of the two priorities; refused, nothing changes; no other mutex or priority does |
| `Mutex.ReleaseResult` | src/ipc.c:772-859 | only the owner releases; the last release gives it the priority the mutex remembers and hands the mutex, held once, to the first waiter, a most urgent one if the list is in order, or frees it |
| `Mutex.ExpireResult` | src/thread.c:633-654 | a waiter that gives up is gone from the list, and owner, holds and priorities stay |
| `Mutex.TakeBlocks` | src/ipc.c:688-735 | blocking on a mutex raises its owner and keeps the invariant |
| `Mutex.ReleaseLast` | src/ipc.c:809-850 | the last release restores the owner's priority and hands over to the first waiter |
| `Mutex.Kernel.MutexTake` | src/ipc.c:642-761 | the in-place operation is the specified one, with its four outcomes |
| `Mutex.Kernel.MutexRelease` | src/ipc.c:772-859 | the in-place operation is the specified one |
| `Mailbox.PutOk` | src/ipc.c:1496-1503 | a send appends to the mails of the ring |
| `Mailbox.DropOk` | src/ipc.c:1643-1651 | a receive takes the oldest mail of the ring |
| `Mailbox.SendOk` | src/ipc.c:1404-1523 | a send succeeds exactly when the ring is not full, appends exactly its mail, and loses no wakeup |
| `Mailbox.RecvOk` | src/ipc.c:1551-1674 | a receive succeeds exactly when there is a mail, gets the oldest, and loses no wakeup |
| `Mailbox.SendTurn` | src/ipc.c:1404-1522 | a send with room wakes the first suspended receiver and no other; without it the sender is suspended in its place, or gives up |
| `Mailbox.RecvTurn` | src/ipc.c:1551-1674 | the same for a receive and the suspended senders |
| `Mailbox.ServedInTurn` | src/ipc.c:1404-1674 | over every run without a timeout, reset or more urgent newcomer, the receiver at position i moves up by one for each send that finds room |
| `Mailbox.WokenByNext` | src/ipc.c:1404-1674 | and the send after i of them wakes it |
| `Mailbox.ResetOk` | src/ipc.c:1686-1715 | a reset leaves no mail and nobody suspended |
| `Mailbox.ExpireOk` | src/thread.c:633-654 | a timeout takes one thread off its list and nobody else |
| `Mailbox.RunOk` | src/ipc.c:1404-1715 | over every interleaving a suspended receiver means mails at most the woken receivers, a suspended sender free slots at most the woken senders |
| `Mailbox.RunFifo` | src/ipc.c:1404-1674 | over every interleaving without reset, what was received and what is left is what was there and what was sent, in order |
| `Mailbox.MailboxObject.SendOnce` | src/ipc.c:1404-1523 | a turn on the ring array is the specified one |
| `Mailbox.MailboxObject.RecvOnce` | src/ipc.c:1551-1674 | a turn on the ring array is the specified one |
| `Mailbox.MailboxObject.Control` | src/ipc.c:1686-1715 | reset empties both waiting lists and the ring |
| `MessageQueue.RunOk` | src/ipc.c:1924-2278 | over every interleaving free list, queue and nodes in flight partition the pool, `entry` is the queue length, `tail` the last node or null |
| `MessageQueue.StepOk` | src/ipc.c:1924-2278 | each region is append, prepend, pop-front or nothing on the messages, and leaves the nodes other threads hold alone |
| `MessageQueue.AppendOk` | src/ipc.c:1963-1979 | linking a filled node makes its message the last |
| `MessageQueue.PrependOk` | src/ipc.c:2049-2061 | linking an urgent node makes its message the first |
| `MessageQueue.UnlinkOk` | src/ipc.c:2192-2202 | unlinking takes the first message |
| `MessageQueue.MessageQueueObject.constructor` | src/ipc.c:1738-1785 | the loop puts every node on the free list once |
| `MessageQueue.MessageQueueObject.Send` | src/ipc.c:1924-1998 | a send run through is full exactly when no node is free, else appends |
| `MessageQueue.MessageQueueObject.Urgent` | src/ipc.c:2012-2080 | an urgent send run through is full exactly when no node is free, else prepends |
| `MessageQueue.MessageQueueObject.Recv` | src/ipc.c:2192-2215 | a receive run through gets the first message exactly when there is one |
| `MessageQueue.MessageQueueObject.Reset` | src/ipc.c:2234-2278 | the loop empties the queue into the free list and leaves nodes in flight alone |
| `MessageQueueWait.RunOk` | src/ipc.c:1924-2278 | over every interleaving with waiting receivers the nodes stay partitioned and a suspended receiver means messages at most the woken receivers, so once these have run an empty queue |
| `MessageQueueWait.RunRefines` | src/ipc.c:1924-2278 | over every interleaving the queue is the sequence that appends, puts in front and takes the first as the linked and received messages say |
| `MessageQueueWait.StepActs` | src/ipc.c:2192-2202 | one region changes the messages by its one act, and a receiver gets the first |
| `MessageQueueWait.StepReceivers` | src/ipc.c:1924-2278 | linking a message wakes the first suspended receiver and no other; a receiver waits in its place; a timeout takes off one thread |
| `MessageQueueWait.StepOk` | src/ipc.c:1963-2215 | every region, turn of a receiver, timeout and reset loses no wakeup |
| `MessageQueueWait.Receivers.Send` | src/ipc.c:1924-2080 | a send or urgent send run through, with its wakeup |
| `MessageQueueWait.Receivers.RecvOnce` | src/ipc.c:2095-2221 | a turn of a receiver gets the first message, or it leaves, or joins the waiting list |
| `Event.SendOk` | src/ipc.c:998-1077 | after a send no thread waits for events that are set; every woken thread got all it wanted or some of it, as it asked; the rest wait on in order; an event is gone only if a woken thread cleared it |
| `Event.RecvOk` | src/ipc.c:1093-1199 | a receiver gets its bits exactly when they are set and clears those and no more; else it waits, or nothing changes |
| `Event.RecvPlace` | src/ipc.c:1093-1199 | a receiver that waits is remembered with what it wants, in its place by arrival or priority |
| `Event.ExpireResult` | src/thread.c:633-654 | a timeout takes off one thread and leaves events, the others and their order |
| `Event.ResetResult` | src/ipc.c:1211-1236 | a reset leaves no event and nobody waiting |
| `Event.SweepOk` | src/ipc.c:1023-1066 | the loop clears only what a woken thread got, keeps the order of the waiting, and leaves only unsatisfied ones |
| `Event.BothPaths` | src/ipc.c:1031-1059 | a receiver gets and clears the same bits whether it finds them set or is woken |
| `Event.RunOk` | src/ipc.c:998-1236 | between any two operations no suspended thread's condition is satisfied |
| `Event.InitOk` | src/ipc.c:889-906 | the initial state satisfies the invariant |
| `Event.EventObject.constructor` | src/ipc.c:889-906 | the object starts in that state |
| `Event.EventObject.EventSend` | src/ipc.c:998-1077 | the loop over the waiting list is the specified sweep |
| `Event.EventObject.EventRecv` | src/ipc.c:1093-1199 | the in-place operation is the specified one, with its error cases |
| `Bits.LookupIs` | src/kservice.c:1205-1223 | the table gives the lowest bit of every byte |
| `Bits.FfsIs` | src/kservice.c:1235-1249 | the result is the position of the lowest set bit, counted from 1, and 0 for 0 |
| `Scheduler.HighestIs` | src/scheduler.c:201-211 | the one-level and the two-level search find the smallest flagged priority |
| `Scheduler.ScheduleOk` | src/scheduler.c:191-258 | unlocked, the head of the highest nonempty queue is selected, as a linear scan would; locked, nothing changes |
| `Scheduler.RunOk` | src/scheduler.c:191-353 | over every run a priority bit is set iff its queue is not empty, and a queue holds exactly the READY threads of its priority, each once |
| `Scheduler.InsertOk` | src/scheduler.c:267-303 | inserting a thread keeps queues and bitmap in agreement |
| `Scheduler.RemoveOk` | src/scheduler.c:313-353 | removing a thread keeps queues and bitmap in agreement, on both levels |
| `Scheduler.SuspendThenResume` | src/thread.c:554-622 | suspending and resuming a READY thread moves it to the end of its queue and leaves bitmap, thread and all other queues as they were |
| `Scheduler.RaiseAgain` | src/scheduler.c:295-350 | setting a cleared priority flag restores the bitmap, on one or two levels |
| `Scheduler.ChangeOk` | src/thread.c:485-526 | changing a priority moves a READY thread and only it |
| `Scheduler.RoundRobin` | src/clock.c:83-105 | over every run that touches neither the thread at position i of the top queue nor those ahead of it, and readies none above: that thread becomes current with exactly the tick that ends the slices of those ahead, and one of them runs until then, whatever happens behind it and at lower priorities; nobody yields of itself, and the scheduler is not locked when a slice ends |
| `Scheduler.ArrivalTurn` | src/scheduler.c:267-303 | a thread that becomes ready at the running priority is current, in every such run, exactly when the ticks left to all who were ready there before it have passed |
| `Scheduler.CalmKeeps` | src/thread.c:485-622 | suspending, resuming, starting, ending and re-prioritising other threads leaves the running thread, the queue up to position i and all remaining slices alone |
| `Scheduler.Lap` | src/clock.c:83-105 | over every run in which nobody enters or leaves the running queue, after exactly the ticks left to all its threads it stands as before and each has a full slice |
| `Scheduler.Cycle` | src/clock.c:83-105 | from then on, after n ticks the thread runs whose slice n modulo the sum of the slices falls into, for every n |
| `Scheduler.UnlockPicks` | src/scheduler.c:378-400 | the last exit from a critical section, or one too many, lets the head of the highest queue run |
| `Scheduler.StartupOk` | src/thread.c:203-233 | a started thread is READY at its priority and last in its queue |
| `Scheduler.StopsOk` | src/thread.c:554-582 | a suspended or ended thread is in that state and in no queue, and nobody else is touched |
| `Scheduler.TickStays` | src/clock.c:83-105 | any other tick takes one tick from the slice of the current thread and changes nothing else |
| `Scheduler.TickTurns` | src/clock.c:83-105 | the last tick of a slice gives the thread a full slice again, puts it last, and makes the next one current |
| `Scheduler.Kernel.ScheduleInsertThread` | src/scheduler.c:267-303 | the in-place operation is the specified one |
| `Scheduler.Kernel.ScheduleRemoveThread` | src/scheduler.c:313-353 | the in-place operation is the specified one |
| `Scheduler.Kernel.ThreadSuspend` | src/thread.c:554-582 | fails unless READY, else the thread leaves its queue |
| `Scheduler.Kernel.ThreadResume` | src/thread.c:592-622 | fails unless suspended, else the thread joins its queue |
| `Scheduler.Kernel.ThreadChangePriority` | src/thread.c:485-526 | the in-place operation is the specified one |
| `Scheduler.Kernel.DoSchedule` | src/scheduler.c:191-258 | the bitmap search selects the head of the first nonempty queue |
| `Scheduler.Kernel.TickIncrease` | src/clock.c:83-105 | the in-place tick is the specified one, of which `Scheduler.TickStays`, `Scheduler.TickTurns`, `Scheduler.Lap` and `Scheduler.Cycle` are proved |
| `ThreadLists.RunOk` | src/thread.c:554-654 | over every run of suspending on objects, resuming, timeouts, ending and scheduling no thread is on two lists |
| `ThreadLists.OnePlace` | src/scheduler.c:267-353 | a thread is in a ready queue exactly when it is READY, in that of its priority, and then on no waiting list |
| `ThreadLists.BlockOk` | src/ipc.c:92-135 | suspending the running thread on an object moves it, and it alone, from its queue to that list |
| `ThreadLists.ResumeOk` | src/thread.c:592-622 | resuming succeeds exactly on a suspended thread and moves it, and it alone, from its list to its queue |
| `ThreadLists.TimeoutOk` | src/thread.c:633-654 | a timeout does the same and schedules |
| `ThreadLists.TimeoutPicks` | src/thread.c:633-654 | and the head of the highest queue runs then, unless the scheduler is locked |
| `ThreadLists.BlockPlace` | src/ipc.c:92-135 | a suspended thread stands in its place on the list by arrival or priority |
| `ThreadLists.DetachOk` | src/thread.c:245-277 | ending a ready or waiting thread takes it, and it alone, off its list, and puts it with the ended ones exactly if it needs cleaning up |
| `ThreadLists.WaitLists.ListSuspend` | src/ipc.c:92-135 | the in-place operation is the specified one |
| `ThreadLists.WaitLists.ThreadResume` | src/thread.c:592-622 | the in-place operation is the specified one |
| `ThreadLists.WaitLists.ListResumeAll` | src/ipc.c:168-196 | the loop empties the list, makes all its threads READY and leaves the other lists alone |
| `ThreadNodes.RowsApart` | src/thread.c:554-654 | under the invariant of ThreadLists no thread is twice on the ready queues, waiting lists and ended threads taken together |
| `ThreadNodes.SetUp` | include/rtservice.h:51-54 | initialising heads and nodes gives empty lists and unlinked threads |
| `ThreadNodes.Unlink` | include/rtservice.h:90-96 | removing a thread's node, wherever it is, leaves the rings of all lists without it |
| `ThreadNodes.Resume` | src/thread.c:592-622 | the link operations take rings that hold the lists to rings that hold the lists after resuming |
| `ThreadNodes.Suspend` | src/ipc.c:92-135 | the same for suspending, with the walk along the links to the place by priority |
| `ThreadNodes.Detach` | src/thread.c:245-277 | the same for ending a thread |
| `ThreadNodes.Yield` | src/thread.c:377-411 | the same for yielding, decided by the neighbours of the node |
| `ThreadNodes.Schedules` | src/thread.c:485-582 | the same for each operation of the scheduler: suspending, starting, priority change, yield, tick, scheduling, lock and unlock |
| `ThreadNodes.Perform` | src/thread.c:245-654 | the same for every operation of ThreadLists |
| `ThreadNodes.Run` | src/thread.c:245-654 | over every run the linked rings represent the queues and lists at the end |
| `Rwlock.RunOk` | components/pthreads/pthread_rwlock.c:139-353 | over every interleaving, stray tokens included, the count is -1 with one writer and no reader and n with n readers and no writer, and no waiting writer is forgotten |
| `Rwlock.ReaderEnters` | components/pthreads/pthread_rwlock.c:150-165 | a reader gets in only while no writer holds or is counted waiting |
| `Rwlock.ReaderGetsIn` | components/pthreads/pthread_rwlock.c:150-193 | a reader that comes, tries or was woken gets in if and only if no writer holds or is counted waiting |
| `Rwlock.WriterGetsIn` | components/pthreads/pthread_rwlock.c:265-347 | a writer that comes, tries or was woken gets the lock if and only if nobody holds it |
| `Rwlock.UnlockResult` | components/pthreads/pthread_rwlock.c:288-319 | unlocking gives up one hold of the caller; a counted writer gets one token if nobody holds the lock, and keeps readers from being told; else every suspended reader is woken |
| `Rwlock.SleepEnds` | components/pthreads/pthread_cond.c:183-207 | a sleeping thread wakes by one token or because its time is up, and nothing else changes |
| `Rwlock.FailedLeaves` | components/pthreads/pthread_rwlock.c:219-262 | a thread whose time is up leaves without the lock and is counted no more |
| `Rwlock.ReadersStep` | components/pthreads/pthread_rwlock.c:231-262 | a step forgets waiting readers if and only if it is the last counted writer leaving after its time was up, with the lock free and no reader token |
| `Rwlock.RunReaders` | components/pthreads/pthread_rwlock.c:139-353 | without an expired writer no waiting reader is forgotten |
| `Rwlock.Stranded` | components/pthreads/pthread_rwlock.c:231-319 | a legal run, then the last writer leaves: the lock is free, nobody is woken or on the way, and a counted reader sleeps without a token |
| `Rwlock.RwlockObject.SignalWriters` | components/pthreads/pthread_cond.c:167-180 | a signal leaves a token, or the first suspended writer has it |
| `Rwlock.RwlockObject.BroadcastReaders` | components/pthreads/pthread_cond.c:133-165 | a broadcast gives every suspended reader a token and leaves one |
| `Rwlock.Condition.CondBroadcast` | components/pthreads/pthread_cond.c:133-165 | without a token the loop wakes all that are suspended and leaves one token; with one it takes and releases it, waking at most the first |
| `Rwlock.RwlockObject.RdlockTest` | components/pthreads/pthread_rwlock.c:150-165 | a reader gets in or is counted waiting, as specified |
| `Rwlock.RwlockObject.WrlockTest` | components/pthreads/pthread_rwlock.c:334-347 | the same for a writer |
| `Rwlock.RwlockObject.TryRdlock` | components/pthreads/pthread_rwlock.c:173-193 | busy exactly when a writer holds or is counted waiting, else a read lock more |
| `Rwlock.RwlockObject.TryWrlock` | components/pthreads/pthread_rwlock.c:265-285 | busy exactly when anyone holds the lock, else the writer has it |
| `Rwlock.RwlockObject.ReaderWaits` | components/pthreads/pthread_cond.c:183-207 | the wait takes a token that is there, or suspends the reader |
| `Rwlock.RwlockObject.WriterWaits` | components/pthreads/pthread_cond.c:183-207 | the same for a writer |
| `Rwlock.RwlockObject.ReaderTimesOut` | components/pthreads/pthread_cond.c:202-202 | a suspended reader whose time is up leaves the semaphore's list |
| `Rwlock.RwlockObject.WriterTimesOut` | components/pthreads/pthread_cond.c:202-202 | the same for a writer |
| `Rwlock.RwlockObject.RdlockReturn` | components/pthreads/pthread_rwlock.c:151-170 | after its wait a reader leaves on an error or tests again, as specified |
| `Rwlock.RwlockObject.WrlockReturn` | components/pthreads/pthread_rwlock.c:334-352 | the same for a writer |
| `Rwlock.RwlockObject.Unlocks` | components/pthreads/pthread_rwlock.c:288-319 | unlock counts down, prefers writers, and signals or broadcasts as specified |
| `KernelList.InsertedRing` | include/rtservice.h:62-69 | the four assignments put the node in its place and keep the ring |
| `KernelList.RemovedRing` | include/rtservice.h:90-96 | the assignments take the node out and make it a ring of its own |
| `KernelList.Lists.InsertAfter` | include/rtservice.h:62-69 | insertion behind a node, other lists untouched |
| `KernelList.Lists.InsertBefore` | include/rtservice.h:77-84 | insertion before a node, or at the end when before the head, other lists untouched |
| `KernelList.Lists.Remove` | include/rtservice.h:90-96 | removal of a node, or nothing if it is on no list, other lists untouched |
| `KernelList.Lists.IsEmpty` | include/rtservice.h:102-105 | true exactly when the list has no items |

## Left out

- Context switching, stacks, interrupt masking, devices and the console: hardware; only atomicity is kept.
- Soft timers: their check keeps a saved next node across a callback.
- Callbacks of timers are lists of start, stop and control calls, one list for each expiry.
- `rt_timer_start` from a callback with period 0, and a periodic timer with period 0: excluded in the check by a stated condition, since it may then not end.
- Memheap works in words of 4 bytes, without alignment: the 12-byte minimum is not a multiple of the alignment; the list of several heaps behind `rt_malloc` and the semaphore are not modelled.
- SmallMem.SmallHeap.constructor: for areas of at least one least block; smaller ones make `mem_size_aligned - size` wrap.
- SmallMem: the alignment is 8, so that header and least block are 16 bytes; header fields are values at their offsets, not bytes.
- Slab: the link inside a free chunk is part of the zone's list of free chunks; the in-place realloc, the statistics and the lock count on the out-of-pages path are not modelled.
- finsh: the parser, the lexer, char and short operands, pointers, strings, system variables and calls; where C leaves a result undefined (division by zero, over-long shifts) the answer is a parameter.
- Mutex.RunOk: for threads that ask for a mutex only while they hold none, because the code breaks the property otherwise (`Mutex.NestedBreaks`, `Mutex.ChainBreaks`); `Mutex.RunUrgent`, `Mutex.RunOrder` and `Mutex.NestedStep` are for all runs.
- Mutex.Restored: for such threads, for the same reason; `Mutex.LastRestores` and `Mutex.ReverseRestores` are for all runs.
- Mutex.TakeBlocks: for such threads; `Mutex.TakeUrgent` is for all.
- Mutex.ReleaseLast: for such threads; `Mutex.ReleaseUrgent` is for all.
- Mutexes: FIFO waiting lists with inheritance, 8-bit hold counts and deletion are not modelled.
- MessageQueue: a message is copied whole, in one step; its bytes beyond the buffer's size are not modelled.
- Event: the 32-bit word is a set of bit numbers; an option with neither AND nor OR, which fails an assertion and without it waits for good, is not modelled.
- Memory pools, semaphores on their own, and the module allocator: easier members of the same kind, or no stable invariant.
- Rwlock: initialisation and destruction, unlocking by a thread that does not hold the lock, and attributes.
- ThreadLists: error codes and thread timers; a thread is ended once it has been started.
- Thread creation, ending a thread while the kernel wakes it for a mailbox, queue or mutex, and object names.
