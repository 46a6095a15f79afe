# LK kernel model

A Dafny model of the hard parts of the LK kernel and of the `lkboot` transfer protocol, with proofs of
what they promise. `dafny verify dfyconfig.toml` checks the whole project. Code that changes memory in
place is a class whose methods are proved against functions of its state; what the source promises is
proved about these functions, for every input and every run.

| files | what they model |
|---|---|
| `Blocks`, `PageTable`, `LeafSizes`, `Capacity`, `Tidy`, `Translation`, `Leftovers`, `Mmu`, `PteBits`, `MmuFlags` | arm64 translation tables: a radix tree of frames that refines a flat map of addresses, with roll-back, ownership of frames, the sizes of leaves, empty tables, and the exact conditions of success |
| `List` | the intrusive circular list as a heap structure |
| `Scheduler`, `Scheduling`, `Threads` | run queues, wait queues and context switches: state and invariant, critical sections, code |
| `Effects`, `Policy`, `Waiting`, `RoundRobin` | what each critical section does, who runs next, how waits end, how time slices go round |
| `Clock`, `TimerQueue`, `Expiry`, `Timer`, `TimerRuns`, `Timeliness` | the timer queue with arbitrary callbacks, and the one-shot interrupt that serves it |
| `Waiters`, `Mutex`, `Semaphore`, `Event` | blocking objects with timeouts, including the time between a timeout and the moment the thread runs again |
| `WaitRefinement` | the wait queues of the scheduler refine those of `Waiters` |
| `Ring`, `PortState`, `Port`, `PortRuns` | message ports: ring buffers, their hand-over, and what readers get |
| `Fpu` | lazy switching of floating point registers over several processors |
| `InitLevel` | the order of initialisation hooks |
| `LkbootProtocol`, `Lkboot`, `Liblkboot` | framing of transfers, device and host |
| `Common` | shared notions |

## How the model reads the code

- A critical section under `thread_lock` or `timer_lock` is one step. A call that blocks is two steps,
  before the switch and after the thread runs again.
- Threads, frames, timers, ports and rings are known by identity; records of them are kept in maps that
  the methods update.
- Clocks are parameters. An entry of the timer queue carries the instant it is due beside the 32-bit
  `scheduled_time` that the code compares.
- History (what was accepted, granted, read) is kept beside the state for the statements only.

## Where the code differs from what it promises

Each is proved with its exact condition and, where it takes more than one call, a run that shows it.

- Unmapping part of a block clears the whole block: `UnmapExactIff`, `NeighbourLost`, `SplitBlock`.
- A mapping that runs out of pages below a table that it has just allocated leaves that table behind, empty,
  and then blocks that could have been mapped before cannot be mapped in its place: `LeavesTable`,
  `TidyStep`, `LeftByFailure`, `MapAfterFailure`. Nothing else leaves an empty table (`RunTidy`).
- `mmu_flags_to_pte_attr` returns an error number as attributes for the invalid cache mode, and for no
  other (`InvalidCacheMode`, `FlagsBack`).
- `thread_resched` returns early when the thread stays the same, before the quantum is renewed, so the
  quantum of a thread that nothing else contends with falls for ever: `RenewsIff`, `NotRenewedIff`,
  `AloneItFalls`, `FirstThreadFalls`.
- `event_signal` documents that without rescheduling waiting threads are placed at the end of the run
  queue; they are placed at its head (`WokenAhead`).
- A mutex or semaphore used with finite timeouts can strand waiters: `Mutex.StrandsIff`,
  `Mutex.StrandedForever`, `Mutex.StrandedRun`, `Semaphore.StrandsIff`, `Semaphore.PostsDoNotHelp`,
  `Semaphore.StrandedRun`. It does not happen without (`NoLimitsNoStranding`).
- The one-shot interrupt is late by the time that passes between reading the clock and arming it, in
  `timer_set`, `timer_cancel` and `timer_tick`: `SetSlips`, `CancelSlips`, `TickSlips`, `LateRun`. That is
  also all by which a timer can be late (`FiresInTime`).
- `port_close` of a reader whose write port was destroyed leaks its ring: `LosesIff`, `LostForever`,
  `LostRun`.
- `port_create` tests a mode constant that is zero, so it accepts broadcast ports with a big ring
  although its comment excludes them (`Port.Ports.Create`).
- `lkb_send` compares the bytes written with the size of a pointer, so it works only where pointers have
  four bytes (`WritesFrames`).
- After the end of the data `lkb_read` reports success without data: `ShortReadIff`, `ReadTwice`.
- A device that has sent its final OKAY or FAIL, or has failed, is to send nothing more; but a read that
  comes upon the end of the data lets it send again: `SilentWhileFed`, `ReopensIff`, `SendsAfterFail`.
- A log message, which the protocol allows at any time, ends a transaction of the host with an error:
  `HostAccepts`, `LogEndsTransaction`. The reply buffer is not emptied between transactions, so that an
  earlier reply stays in front of the next (`Reassembles`).

## Model

| member | source | states |
|---|---|---|
| `Mmu.AddressSpace.Map` | `arch/arm64/mmu.c:449-476` | a successful mapping gives every address of the range paddr + (v - vaddr) with the attributes, in the largest blocks that fit, and changes no other; a failed one changes no translation; frames are conserved; it succeeds exactly when the arguments are in range and aligned, nothing stands in the way and enough pages are free; where no table is empty, nothing but a translation in the range stands in the way, and so it stays exactly unless the mapping runs out of pages below a table that it has just allocated |
| `Mmu.AddressSpace.Unmap` | `arch/arm64/mmu.c:478-503` | the range is untranslated afterwards, every leaf that meets it is gone as a whole, and every other address keeps its translation exactly if no leaf straddles an end of the range; frames are conserved, and no empty table is left |
| `Mmu.AddressSpace.Query` | `arch/arm64/mmu.c:100-207` | the walk through the levels finds exactly what the flat view says, or reports that there is nothing |
| `Mmu.AddressSpace.MapPt` | `arch/arm64/mmu.c:369-447` | mapping at one level and below: complete, in the largest blocks that fit, or rolled back to the same translations; invalid arguments exactly when unaligned; success exactly when possible, at the price of exactly the tables needed; and exactly when an empty table is left |
| `Mmu.AddressSpace.MapChunks` | `arch/arm64/mmu.c:392-440` | the loop maps a prefix of the range and stops at the first chunk that cannot be mapped |
| `Mmu.AddressSpace.MapChunk` | `arch/arm64/mmu.c:399-434` | one chunk: a leaf in an unused entry if it is a whole block, aligned in both addresses and of at most 1 GB, or else the table below; it fails exactly when it cannot be mapped |
| `Mmu.AddressSpace.MapBelow` | `arch/arm64/mmu.c:403-415` | a chunk that is no whole, aligned block goes into the table below, which is allocated if there is none; it fails exactly when it cannot be mapped there |
| `Translation.Layout.LargestBlock` | `arch/arm64/mmu.c:399-434` | after a successful mapping, the leaf of each address v of the range has the largest block size, with an index shift of at most 30, whose aligned block at v lies in the range and has an aligned physical address; stated with division and remainder |
| `Translation.Layout.RunAligned` | `arch/arm64/mmu.c:369-503` | in every state that a run reaches from an empty root, the physical address of every leaf is a multiple of its size |
| `Mmu.MisalignedBlock` | `arch/arm64/mmu.c:403-415` | a run of the code: 2 MB at a physical address that is only page-aligned cannot be mapped without a page for a table |
| `PageTable.Geometry.PageAlignedMeans` | `arch/arm64/mmu.c:392-395` | the mask in the check of the arguments stands for remainders by the page size |
| `Mmu.AddressSpace.UnmapPt` | `arch/arm64/mmu.c:311-366` | every leaf that meets the range is cleared whole, every other stays; tables that become empty are freed; whole blocks are left invalid, which is why their tables can be freed unchecked |
| `Mmu.AddressSpace.UnmapChunk` | `arch/arm64/mmu.c:326-364` | one chunk of unmapping: the table below, a leaf, or nothing |
| `Mmu.AddressSpace.UnmapBelow` | `arch/arm64/mmu.c:339-351` | a chunk in the table below: everything in it is cleared, and that table is gone if nothing is left in it |
| `Mmu.AddressSpace.ReleaseIfClear` | `arch/arm64/mmu.c:344-351` | a table is released exactly if it is empty, whether that was looked up or concluded |
| `Mmu.AddressSpace.GetPageTable` | `arch/arm64/mmu.c:252-290` | the table of an entry, allocated if there is none, without changing any translation; none for a block or when no page is left |
| `Mmu.AddressSpace.PageTableIsClear` | `arch/arm64/mmu.c:292-309` | true exactly if all descriptors are invalid |
| `Translation.Layout.RunIsFlat` | `arch/arm64/mmu.c:369-503` | after any run of mappings, failed mappings and clean unmappings, the tables agree with a flat partial function, and no frame was lost or gained |
| `Translation.Layout.MapThenUnmap` | `arch/arm64/mmu.c:449-503` | mapping a range and unmapping it again restores every translation |
| `Translation.Layout.RelativeAddress` | `arch/arm64/mmu.c:454-463` | the 64-bit wrapping range check accepts exactly the ranges inside the address space |
| `Translation.RangeCheckExact` | `arch/arm64/mmu.c:460` | the subtraction in the check can wrap without making it inexact |
| `Translation.Layout.WalkStep` | `arch/arm64/mmu.c:138-167` | one level of the walk of arch_mmu_query |
| `PageTable.Geometry.UnmapExactIff` | `arch/arm64/mmu.c:311-366` | clearing keeps all other addresses if and only if no leaf straddles an end of the range |
| `Translation.Layout.NeighbourLost` | `arch/arm64/mmu.c:311-366` | unmapping any part of a block or page, at any level, untranslates all of it: a translated address loses its translation if and only if its leaf meets the range, and otherwise keeps it |
| `Mmu.SplitBlock` | `arch/arm64/mmu.c:449-503` | a run of the code: 2 MB are mapped as a block and its first page is unmapped; the second page is translated before and not afterwards |
| `PageTable.Geometry.ClearingUndoesMapping` | `arch/arm64/mmu.c:442-446` | clearing what was just mapped restores every translation, whatever leaves were there before |
| `PageTable.Geometry.RollbackRestores` | `arch/arm64/mmu.c:442-446` | a mapping that failed in some chunk, at any depth, is undone by unmapping what came before that chunk |
| `PageTable.Geometry.ReplaceEntry` | `arch/arm64/mmu.c:428-433` | writing one descriptor keeps the tables a tree, changes the frames reached by exactly what hangs below, and affects no other slot |
| `PageTable.Geometry.UnmapsBelow` | `arch/arm64/mmu.c:339-351` | unmapping in a lower table, and releasing it when empty, seen from the table above |
| `PageTable.Geometry.WholeTableClear` | `arch/arm64/mmu.c:344` | a table of which the whole range was unmapped is empty |
| `PageTable.Geometry.TableLeaf` | `arch/arm64/mmu.c:138-172` | a leaf translates the whole of an aligned block and nothing else |
| `Capacity.CapacityBelow` | `arch/arm64/mmu.c:403-415` | mapping below an entry is possible, and costs, the same before and after its table was allocated |
| `Capacity.RestUnaffected` | `arch/arm64/mmu.c:392-440` | mapping one chunk neither helps nor hinders the chunks after it |
| `Capacity.FitsIff` | `arch/arm64/mmu.c:399-434` | nothing stands in the way of a mapping if and only if its range is untranslated and no table, which may be empty, is where it would write a leaf |
| `Tidy.TidyFitsIff` | `arch/arm64/mmu.c:399-434` | if no table is empty, nothing stands in the way of a mapping if and only if its range is untranslated |
| `Leftovers.MapsIff` | `arch/arm64/mmu.c:369-476` | then a mapping succeeds if and only if its range is untranslated and there are enough pages for its tables |
| `Leftovers.RunTidy` | `arch/arm64/mmu.c:311-503` | no table becomes empty and stays, through any run in which no mapping runs out of pages below a table that it has just allocated |
| `Leftovers.LeftByFailure` | `arch/arm64/mmu.c:403-447` | a mapping that does run out there changes no translation but leaves an empty table |
| `Mmu.MapAfterFailure` | `arch/arm64/mmu.c:403-447` | a run of the code: two blocks of 1 GB can be mapped in an empty address space with one free page, but not after a failed mapping of one page |
| `Blocks.NextChunk` | `arch/arm64/mmu.c:393-397` | index, offset and chunk size: chunks end at block boundaries and lie in one block |
| `Blocks.SlotIsQuotient` | `arch/arm64/mmu.c:397` | the shift and mask computed by repeated subtraction are quotient and remainder |
| `PteBits.AttributesApart` | `arch/arm64/mmu.c:54-98` | attributes made with a valid cache mode leave the bits of the address and of the kind alone |
| `PteBits.AccessAndSharing` | `arch/arm64/mmu.c:54-98` | such attributes set the access flag, make the memory inner shareable exactly if it is cached, and no bits beyond |
| `PteBits.PartsBack` | `arch/arm64/mmu.c:428-433` | then a descriptor gives back its kind, its address and its attributes |
| `PteBits.AddressBackIff` | `arch/arm64/mmu.c:428-433` | the physical address comes back if and only if it is an aligned one of 48 bits |
| `PteBits.FlagsBack` | `arch/arm64/mmu.c:174-203` | and arch_mmu_query reports exactly the flags that the mapping was made with |
| `PteBits.FlagsOfDescriptor` | `arch/arm64/mmu.c:174-203` | the address and the kind in a descriptor do not disturb the flags |
| `MmuFlags.RunFlags` | `arch/arm64/mmu.c:54-503` | after any run of mappings, failed mappings and clean unmappings, a query reports for every translated address the flags of the last mapping of it |
| `MmuFlags.MapThenQuery` | `arch/arm64/mmu.c:174-476` | mapping a range and querying an address of it gives back the physical address with its offset and the flags |
| `PteBits.InvalidCacheMode` | `arch/arm64/mmu.c:70-73` | with the invalid cache mode an error number is stored instead of attributes, on which the query panics |
| `List.AddHead` | `include/list.h:61-69` | inserts behind any node of the ring, the head included |
| `List.AddTail` | `include/list.h:71-79` | inserts in front of any node of the ring, the head included |
| `List.Delete` | `include/list.h:81-86` | takes out the node and clears its links |
| `List.RemoveHead` | `include/list.h:88-97` | takes out the first node, or reports an empty list |
| `List.Length` | `include/list.h:274-283` | counts the nodes |
| `List.InList` | `include/list.h:53-59` | tells a node in the list from a cleared one |
| `List.ListUnique` | `include/list.h:31-34` | the links determine the sequence of nodes |
| `Threads.Kernel.GetTopThread` | `kernel/thread.c:449-476` | the search down the bitmap and along the queues finds the first eligible thread of the highest priority, or the idle thread, and removes only that one |
| `Threads.Kernel.HighestBit` | `kernel/thread.c:456` | the highest bit that is set |
| `Scheduling.Booted` | `kernel/thread.c:878-905` | the state in which the idle threads run satisfies the invariant |
| `Threads.Kernel.Resched` | `kernel/thread.c:488-615` | ends a critical section: the chosen thread is current, with what it had left of its quantum, or five ticks if that was nothing and another thread ran before; and the invariant holds |
| `Threads.Kernel.Yield` | `kernel/thread.c:626-646` | the caller goes to the tail of its queue without quantum |
| `Threads.Kernel.Preempt` | `kernel/thread.c:663-690` | the current thread goes to the head if it has quantum left, else to the tail |
| `Threads.Kernel.TimerTick` | `kernel/thread.c:729-742` | shortens the quantum of a thread that has one, and asks for a reschedule when it is used up |
| `Threads.Kernel.TickInterrupt` | `kernel/thread.c:729-742` | the tick, followed by a preemption exactly if the quantum is used up |
| `Threads.Kernel.SetPriority` | `kernel/thread.c:852-869` | the priority is clamped to 1..31, and the caller goes to the head of its new queue |
| `Threads.Kernel.Sleep` | `kernel/thread.c:772-789` | the current thread sleeps, in no queue |
| `Threads.Kernel.SleepHandler` | `kernel/thread.c:745-760` | a sleeping thread becomes ready at the head of its queue |
| `Threads.Kernel.Create` | `kernel/thread.c:152-228` | a new thread is suspended, without quantum and in no queue |
| `Threads.Kernel.SetRealTime` | `kernel/thread.c:242-260` | the thread is no longer subject to time slices |
| `Threads.Kernel.Resume` | `kernel/thread.c:287-310` | a suspended thread becomes ready; any other is left alone |
| `Threads.Kernel.WaitQueueBlock` | `kernel/thread.c:1094-1120` | joins the tail of the wait queue, or returns at once for a timeout of zero |
| `Threads.Kernel.WakeOne` | `kernel/thread.c:1144-1181` | wakes the first in the wait queue, with the caller put aside first if it is to be rescheduled |
| `Threads.Kernel.WakeAll` | `kernel/thread.c:1198-1240` | empties the wait queue; the count is zero afterwards and the branch taken on the count before agrees with what was woken |
| `Threads.Kernel.UnblockFromWaitQueue` | `kernel/thread.c:1269-1291` | takes a blocked thread out of its wait queue, and does nothing to any other |
| `Scheduling.After` | `kernel/thread.c:93-1291` | every critical section keeps the invariant |
| `Scheduling.Run` | `kernel/thread.c:93-1291` | so does every sequence of critical sections, from any state that satisfies it |
| `Scheduling.Placement` | `kernel/thread.c:93-115` | in every reachable state a thread is in exactly the queue that its state says: its run queue, its wait queue, or none; it is current on at most one processor, one that it is not pinned away from |
| `Scheduling.Summaries` | `kernel/thread.c:93-115` | the bitmap says which run queues are non-empty, the counts are the lengths, no quantum exceeds five |
| `Scheduling.PicksTheBest` | `kernel/thread.c:449-476` | no ready eligible thread has a higher priority than the chosen one or stands before it; idle only as a last resort |
| `Scheduling.OthersStay` | `kernel/thread.c:464-469` | only the chosen thread leaves a run queue |
| `Scheduling.RenewsIff` | `kernel/thread.c:508-516` | after it the current thread has no quantum if and only if it is the same as before and had none |
| `Scheduling.WokenOne` | `kernel/thread.c:1144-1181` | a single wake keeps the invariant and removes exactly the head of the wait queue |
| `Scheduling.WokenAll` | `kernel/thread.c:1198-1240` | waking all keeps the invariant and empties exactly this wait queue |
| `Scheduling.WentToWait` | `kernel/thread.c:1094-1120` | blocking keeps the invariant and appends exactly the caller |
| `Scheduling.Unblocked` | `kernel/thread.c:1269-1291` | a timeout or forced unblock keeps the invariant |
| `Scheduling.Yielded` | `kernel/thread.c:626-646` | keeps the invariant and all wait queues |
| `Scheduling.Preempted` | `kernel/thread.c:663-690` | keeps the invariant and all wait queues |
| `Scheduling.Ticked` | `kernel/thread.c:729-742` | keeps the invariant and all wait queues |
| `Scheduling.Reprioritised` | `kernel/thread.c:852-869` | keeps the invariant and all wait queues |
| `Scheduler.State.WakeKeeps` | `kernel/thread.c:1269-1291` | moving a thread from a wait queue to a run queue keeps each thread where its state says |
| `Scheduler.State.ReschedKeeps` | `kernel/thread.c:488-615` | switching keeps each thread where its state says |
| `Scheduler.State.FirstEligible` | `kernel/thread.c:458-463` | the first thread of a queue that may run on the processor |
| `Scheduler.State.TopPriority` | `kernel/thread.c:452-473` | the highest priority that has such a thread |
| `Policy.WokenRunsAtOnce` | `kernel/thread.c:1129-1181` | a wake with rescheduling: the woken thread runs at once if and only if it may run here, the caller has no higher priority, and nothing of higher priority is ready |
| `Policy.PreemptionResumes` | `kernel/thread.c:651-690` | a preempted thread goes on if and only if nothing of higher priority is ready, nor, if its quantum is used up, of the same; with quantum left it leaves the queues as they were |
| `Policy.YieldPasses` | `kernel/thread.c:618-646` | a thread that yields loses the processor if and only if another of at least its priority is ready for it |
| `Policy.WakeAllReverses` | `kernel/thread.c:1217-1227` | threads woken together stand before those that were ready, in the reverse of their order of waiting |
| `Waiting.WaitStep` | `kernel/thread.c:1058-1127` | one step ends the wait of a blocked thread with its code, or does not touch the wait; nothing touches the result of a wait that is over |
| `Waiting.WaitEndsOnce` | `kernel/thread.c:1094-1127` | in every run a wait is ended at most once, and wait_queue_block returns what that one wake or timeout said |
| `Waiting.FiniteWaitEnds` | `kernel/thread.c:1058-1074` | a wait is over once its timer has fired |
| `Waiting.LateTimeouts` | `kernel/thread.c:1058-1074` | timers that fire after the wake may as well be left out of any run |
| `Waiting.ListStep` | `kernel/thread.c:1094-1291` | what any step does to the list of a wait queue |
| `WaitRefinement.Refines` | `kernel/thread.c:1058-1291` | through any run of the scheduler, one of its wait queues goes through a run of the joins, wakes, timeouts and returns that mutexes, semaphores and events are built on, and every thread that has left it will find the result that the latter gives it |
| `RoundRobin.TurnComes` | `kernel/thread.c:514-516` | with ticks only, the thread at position i of the run queue is current within 5 * (i + 1) ticks |
| `RoundRobin.TickOver` | `kernel/thread.c:663-690` | at the end of a slice the first in the queue takes over with a slice of one to five ticks and the other goes to the end |
| `RoundRobin.NotRenewedIff` | `kernel/thread.c:488-516` | on any number of processors: a tick that ends a slice leaves a thread without a quantum in charge if and only if nothing of the same or a higher priority is ready for the processor |
| `RoundRobin.AloneItFalls` | `kernel/thread.c:508-516` | on one processor a thread alone at its priority gets no new quantum: the counter falls by one per tick without bound |
| `RoundRobin.FirstThreadFalls` | `kernel/thread.c:488-516` | it happens to the first thread that is created on one processor: its quantum after n ticks is 5 - n |
| `Effects.ThreadEffect` | `kernel/thread.c:152-1291` | what each critical section does to each thread, in a table: state, priority, quantum, pinning, result of a wait; where the section ends in a choice, the thread that takes over is renewed only if it has no quantum left |
| `Effects.QueueEffect` | `kernel/thread.c:93-1291` | and to each run queue: who enters at its head, who at its tail, in which order; and the chosen thread is taken out |
| `Effects.ChoiceEffect` | `kernel/thread.c:449-476` | whom the section chooses: the first eligible thread in the queue of the highest priority that has one, or the idle thread |
| `Effects.QuantumStep` | `kernel/thread.c:508-516` | a thread loses quantum only by its own ticks and yields, and is given five ticks only when it takes over with none left |
| `Effects.QuantumKept` | `kernel/thread.c:488-690` | through any run without its own ticks and yields, a thread that was preempted, blocked or put to sleep with quantum left keeps what it had left, on whatever processor it goes on |
| `Effects.SettingsStep` | `kernel/thread.c:152-260` | a thread has the priority and pinning that it was created with, until it sets its own priority, which is clamped to 1..31, or is made a real-time thread |
| `Effects.WokenAhead` | `kernel/thread.c:1144-1181` | a wake without rescheduling puts the thread ahead of all that are ready at its priority; at the end, as event_signal documents, if and only if there are none |
| `Clock.ComparisonsExact` | `include/sys/types.h:53-56` | the wrapping comparisons are right for instants less than half the range apart |
| `Clock.ComparisonsTurn` | `include/sys/types.h:53-56` | of instants less than a whole turn apart, both comparisons are right if and only if the first is less than half a turn ahead and at most half a turn behind; otherwise both say the opposite |
| `TimerQueue.InsertStable` | `kernel/timer.c:68-85` | the queue stays ordered by time, ties in the order of insertion |
| `TimerQueue.InsertSorted` | `kernel/timer.c:68-85` | insertion keeps the queue sorted and each timer at most once in it |
| `TimerQueue.State.SetGuards` | `kernel/timer.c:87-122` | setting a timer keeps an interrupt armed for the head of the queue, but for what passes between reading the clock and arming |
| `TimerQueue.State.SetSlips` | `kernel/timer.c:99-119` | the interrupt for a new first timer is late by exactly what passed between reading the clock and arming, and in time if and only if nothing did |
| `TimerQueue.State.CancelGuards` | `kernel/timer.c:192-210` | cancelling a timer keeps an interrupt armed for the head of the queue, likewise |
| `TimerQueue.State.CancelSlips` | `kernel/timer.c:192-210` | when the head is cancelled, the interrupt for the next timer is late by exactly what passed between reading the clock and arming, and in time if and only if nothing did or the timer was due |
| `TimerQueue.State.CancelKeeps` | `kernel/timer.c:169-213` | a cancelled timer is not queued, and the queue is in order |
| `Timer.Timers.InsertTimerInQueue` | `kernel/timer.c:68-85` | the loop with wrapping comparisons inserts at the right place |
| `Timer.Timers.TimerSet` | `kernel/timer.c:87-122` | queues the timer for the delay after the clock was read, and moves the interrupt to the delay after it is armed if the timer is the first |
| `Timer.Timers.TimerSetOneshot` | `kernel/timer.c:138-143` | a delay of zero counts as one; the timer has no period |
| `Timer.Timers.TimerSetPeriodic` | `kernel/timer.c:159-164` | a period of zero counts as one |
| `Timer.Timers.TimerCancel` | `kernel/timer.c:169-213` | removes the timer, stops its period, and moves or stops the interrupt |
| `Timer.Timers.Fire` | `kernel/timer.c:238-269` | one expired timer: its callback runs with any effect on the timers, then a live periodic timer returns |
| `Timer.Timers.Requeue` | `kernel/timer.c:262-269` | after its callback, a timer that is still periodic and was not queued by it returns |
| `Timer.Timers.TimerTick` | `kernel/timer.c:216-284` | fires the due timers for any well-behaved callbacks, terminates, and arms the next interrupt |
| `Expiry.FewerDue` | `kernel/timer.c:230-271` | every round leaves fewer due timers, so the loop ends for any callbacks |
| `Expiry.Expire` | `kernel/timer.c:230-271` | afterwards every queued timer is due later than now |
| `Expiry.FiresInOrder` | `kernel/timer.c:230-271` | what fires was queued and due at the interrupt, in queue order, at most once |
| `Expiry.FiresOnlyDue` | `kernel/timer.c:235-236` | no timer fires early |
| `Expiry.DueFires` | `kernel/timer.c:230-271` | every due timer fires unless a callback cancelled it |
| `Expiry.PeriodicReturns` | `kernel/timer.c:265-269` | a due periodic timer that no callback touches is queued for one period from now |
| `Expiry.TickSlips` | `kernel/timer.c:273-284` | the next interrupt is late by exactly the time that the tick took |
| `TimerRuns.OneShotOnce` | `kernel/timer.c:138-284` | through any run of calls and interrupts, a one-shot timer that nobody else touches waits until the first interrupt at or after its delay, fires at that one, once, and is in no queue afterwards |
| `TimerRuns.PeriodicForever` | `kernel/timer.c:159-284` | a periodic timer that nobody else touches fires at the first interrupt at or after a period from the call, then at the first at or after a period from each interrupt at which it fired, and is always queued |
| `TimerRuns.CancelledNeverFires` | `kernel/timer.c:169-284` | a cancelled timer that nobody sets again never fires |
| `Timeliness.LateRun` | `kernel/timer.c:216-284` | it happens in the shortest run: a timer of period 10, a tick of one millisecond, and the next interrupt is one millisecond late |
| `Expiry.AlwaysGuarded` | `kernel/timer.c:87-284` | through any run of calls and ticks a non-empty queue has an interrupt armed in time, but for the longest time that a call or tick takes between reading the clock and arming |
| `Timeliness.NeverOverdue` | `kernel/timer.c:87-284` | if interrupts come when they are armed for, then through any run of calls and ticks no queued timer is ever overdue by more than the longest time that a call or tick takes between reading the clock and arming |
| `Timeliness.FiresInTime` | `kernel/timer.c:87-284` | so every timer fires no earlier than it is due and no later than that time after, and every due one that no callback cancels fires |
| `Mutex.MutualExclusion` | `kernel/mutex.c:80-144` | in every run at most one thread owns the mutex, hand-over included |
| `Mutex.ArrivalOrder` | `kernel/mutex.c:136-139` | blocked threads are granted the mutex in the order in which they arrived |
| `Mutex.After` | `kernel/mutex.c:80-144` | every step keeps the count equal to owner, waiters and timed-out threads that have not yet run |
| `Mutex.AcquiresIff` | `kernel/mutex.c:80-94` | whatever its timeout, a call acquires the mutex if and only if it is free; else it changes nothing if the timeout is zero, and blocks behind all others if not |
| `Mutex.HandsOver` | `kernel/mutex.c:122-144` | releasing makes the thread that has waited longest the owner, or leaves none |
| `Mutex.Finishes` | `kernel/mutex.c:95-117` | a thread that runs again holds the mutex exactly if it was granted, and has left the queue either way |
| `Mutex.StrandsIff` | `kernel/mutex.c:92-94` | waiters are stranded exactly when someone comes to wait while the mutex is free and a timed-out thread has not yet run |
| `Mutex.StrandedForever` | `kernel/mutex.c:80-144` | whatever happens, stranded waiters are never woken, nobody acquires the mutex, and each waiter stays until its own timeout fires, one without a limit for ever |
| `Mutex.StrandedRun` | `kernel/mutex.c:80-144` | five steps after which, in every continuation, a thread waits without limit for a mutex that nobody owns |
| `Mutex.NoLimitsNoStranding` | `kernel/mutex.c:80-144` | if every timeout that is passed is zero or infinite, nobody is ever stranded |
| `Mutex.Mutex.AcquireTimeout` | `kernel/mutex.c:80-94` | returns NO_ERROR if and only if nobody owned the mutex, nobody waited and no timed-out thread had yet to run, whatever the timeout; ERR_TIMED_OUT if and only if that fails and the timeout is zero; otherwise it joins the end of the queue |
| `Mutex.Mutex.FinishAcquire` | `kernel/mutex.c:95-117` | becomes the holder, or takes itself off the count |
| `Mutex.Mutex.Release` | `kernel/mutex.c:122-144` | hands the mutex to the first waiter, if any |
| `Waiters.Waiters.Order` | `kernel/thread.c:1144-1181` | arrival order of grants and waiters |
| `Waiters.Waiters.Timeout` | `kernel/thread.c:1058-1074` | a thread that times out leaves the queue, once |
| `Semaphore.Conservation` | `kernel/semaphore.c:35-99` | count = initial + posts - successes - waiters - timed-out threads yet to run; successes never exceed initial + posts |
| `Semaphore.StrandsIff` | `kernel/semaphore.c:53-99` | waiters are stranded exactly when a waiter finds the count at or below zero only because of timed-out threads yet to run |
| `Semaphore.PostsDoNotHelp` | `kernel/semaphore.c:35-51` | once the count is not negative, no number of posts wakes those waiting |
| `Semaphore.StrandedRun` | `kernel/semaphore.c:35-99` | five steps after which a thread waits without limit, the count is not negative, and no number of posts wakes it |
| `Semaphore.NoLimitsNoStranding` | `kernel/semaphore.c:35-99` | if every timeout that is passed is zero or infinite, nobody is ever stranded |
| `Semaphore.After` | `kernel/semaphore.c:35-99` | every step keeps the token equation |
| `Semaphore.TakesIff` | `kernel/semaphore.c:53-99` | every wait succeeds at once if and only if the count is positive; else it changes nothing if it does not wait, and joins the end of the queue if it does |
| `Semaphore.Semaphore.SemPost` | `kernel/semaphore.c:35-51` | a token more, or the first waiter woken; it returns how many it woke, which is one exactly if the count was negative and somebody was in the queue |
| `Semaphore.Semaphore.SemWait` | `kernel/semaphore.c:53-67` | succeeds at once exactly if the count is positive, else blocks |
| `Semaphore.Semaphore.SemTryWait` | `kernel/semaphore.c:69-81` | succeeds exactly if the count is positive |
| `Semaphore.Semaphore.SemTimedWait` | `kernel/semaphore.c:83-99` | as sem_wait, but fails at once for a timeout of zero |
| `Semaphore.Semaphore.FinishWait` | `kernel/semaphore.c:88-95` | a timed-out waiter gives its place in the count back |
| `Event.SignalsAreSpentOnce` | `kernel/event.c:99-188` | a signaled event has no waiters; with auto-unsignal, successful waits and the signaled bit never exceed the initial bit and the signals |
| `Event.SignalsInTurn` | `kernel/event.c:140-167` | n signals let the n longest waiters through, in order; if there are fewer, one signal is kept and exactly those beyond it are lost |
| `Event.SignalReachesAll` | `kernel/event.c:99-167` | without auto-unsignal one signal lets all waiters through, and everybody who comes later |
| `Event.After` | `kernel/event.c:99-188` | every step keeps both |
| `Event.PassesIff` | `kernel/event.c:99-121` | a wait passes if and only if the event is signaled, and takes the signal with it exactly with auto-unsignal; else it changes nothing for a timeout of zero, and joins the end of the queue if not |
| `Event.LastWins` | `kernel/event.c:140-188` | through any run, an event without auto-unsignal is signaled if and only if the last call of event_signal and event_unsignal was the former, and one with it only if it was |
| `Event.Event.WaitTimeout` | `kernel/event.c:99-121` | passes at once exactly if signaled, fails at once for a timeout of zero, else joins the queue |
| `Event.Event.Signal` | `kernel/event.c:140-167` | wakes the first waiter or sets the bit; without auto-unsignal sets the bit and wakes all |
| `Ring.Ring.Write` | `kernel/port.c:112-123` | all of a batch is appended to the ring, or none |
| `Ring.Ring.Read` | `kernel/port.c:125-133` | takes the oldest packet out, or reports an empty ring and changes nothing |
| `PortState.After` | `kernel/port.c:141-596` | every call keeps ownership of rings exclusive and all histories intact |
| `PortState.State.NoSharing` | `kernel/port.c:226-257` | no two ports share a ring |
| `PortRuns.ReaderRun` | `kernel/port.c:388-596` | through any calls until it is closed, a reader reads, in order and once, what was unread in its ring and then every batch that was written to its port and fitted, and the rest of these is still in its ring |
| `PortRuns.SizedRun` | `kernel/port.c:94-105` | through any calls every ring has room for 8 packets, or for 64 exactly if it is the one that a port created as big began with |
| `PortRuns.GetsIff` | `kernel/port.c:112-424` | after any calls, a batch reaches a reader if and only if its 8 or 64 packets have that much room left |
| `PortRuns.SecondReader` | `kernel/port.c:200-457` | a further reader of a broadcast port receives the next batch of up to 8 packets and reads it back |
| `PortRuns.FirstReader` | `kernel/port.c:141-457` | what is written to a new port, up to 8 or 64 packets, is what its first reader reads |
| `PortRuns.HeldWrite` | `kernel/port.c:388-400` | a port without readers keeps a batch that fits its ring, if it is open |
| `PortRuns.OpenedReader` | `kernel/port.c:200-268` | who is let in, with what to read |
| `PortRuns.AttachedStep` | `kernel/port.c:200-535` | a reader stays with the port that it was opened on until that port is destroyed |
| `PortRuns.ModeStep` | `kernel/port.c:141-596` | a write port keeps the mode it was created with, and is open until it is closed |
| `PortRuns.WhichPorts` | `kernel/port.c:141-596` | which ports there are after each call |
| `PortState.State.UnicastHistory` | `kernel/port.c:388-596` | with at most one reader, what was read and what is unread is exactly what was accepted |
| `PortState.UnicastRun` | `kernel/port.c:141-596` | so it is after any calls whatever, and the unread rest is in one ring that no other port has |
| `PortState.State.LeftForTheNext` | `kernel/port.c:546-552` | the ring of the last reader goes back and on to the next one with its unread packets |
| `PortState.EachReader` | `kernel/port.c:402-424` | a batch reaches each reader whole or not at all, independently of the others |
| `PortState.LosesIff` | `kernel/port.c:543-557` | a ring is leaked exactly when a reader is closed whose write port was destroyed before |
| `PortState.LostIff` | `kernel/port.c:543-557` | a ring is lost exactly if no port points to it |
| `PortState.LostForever` | `kernel/port.c:141-596` | no later calls get a lost ring back |
| `PortState.LostRun` | `kernel/port.c:141-596` | five calls after which there is no port and one ring, for every mode |
| `Port.Ports.Create` | `kernel/port.c:141-198` | every mode is accepted: the check against big broadcast rings never fires |
| `Port.Ports.Open` | `kernel/port.c:200-268` | the first reader takes over the ring; further ones get their own ring of eight packets, or are refused by a unicast port |
| `Port.Ports.Write` | `kernel/port.c:388-438` | which status is returned when: not an open write port, no room in the port itself, some reader without room, or success |
| `Port.Ports.WriteReaders` | `kernel/port.c:405-424` | writes to each reader in turn, and reports a partial write exactly if some reader lacked room for the whole batch |
| `Port.Ports.Read` | `kernel/port.c:440-457` | yields the oldest packet of the ring, or a timeout exactly if the ring is empty |
| `Port.Ports.Close` | `kernel/port.c:537-596` | the last reader gives its ring back to the write port, any other frees it, and a second close of a write port is refused |
| `Port.Ports.Destroy` | `kernel/port.c:495-535` | succeeds exactly for a closed write port; its ring is freed or its readers are detached with theirs |
| `Fpu.SeesItsOwn` | `arch/arm64/fpu.c:32-113` | after any interleaving of uses, writes, switches and migrations a thread finds in the registers what it wrote last, even if the load was skipped |
| `Fpu.EnabledIff` | `arch/arm64/fpu.c:71-113` | through any run a processor runs the thread it was switched to last, with floating point enabled if and only if that thread used it since |
| `Fpu.NothingLoaded` | `arch/arm64/fpu.c:32-69` | a switch loads nothing, and a thread that is switched back before another one used floating point there finds its registers in place |
| `Fpu.Trapped` | `arch/arm64/fpu.c:102-113` | the trap enables floating point with the right registers in place |
| `Fpu.Switched` | `arch/arm64/include/arch/arm64.h:77-85` | switching out saves live registers and disables floating point |
| `Fpu.TrapKeeps` | `arch/arm64/fpu.c:32-42` | skipping the load when thread and processor agree is sound |
| `Fpu.InitialValid` | `arch/arm64/fpu.c:30` | nothing is cached at the start |
| `Fpu.Machine.Exception` | `arch/arm64/fpu.c:102-113` | after it the registers are those of the current thread |
| `Fpu.Machine.LoadState` | `arch/arm64/fpu.c:32-69` | the registers are loaded from the saved state unless thread and processor agree that they are in place |
| `Fpu.Machine.ContextSwitch` | `arch/arm64/thread.c:93-101` | live registers are saved, and floating point disabled, before the next thread takes over |
| `InitLevel.InitLevel` | `top/init.c:46-105` | calls exactly the hooks with one of the flags and a level in the range, each once, in the order of a stable sort by level, and terminates |
| `InitLevel.FindNext` | `top/init.c:59-91` | one scan, with its early exit, finds the next hook in that order |
| `InitLevel.AdjacentRanges` | `top/main.c:80-115` | adjacent ranges one after the other call what their union calls, in the same order |
| `InitLevel.OrderUnique` | `top/init.c:46-105` | there is only one such order |
| `Lkboot.Device.ReadsNext` | `app/lkboot/lkboot.c:154-192` | a read of what is left of an upload delivers exactly the next bytes, across any chunk boundaries |
| `Lkboot.Device.ReadsOn` | `app/lkboot/lkboot.c:154-192` | so it does whatever comes behind |
| `Lkboot.Device.ReadsBeyond` | `app/lkboot/lkboot.c:163-192` | a read of more than is left fails; the device goes on to its response if the end of the data comes next, and is in error if anything else does, or nothing |
| `Lkboot.Device.ReadsDeliverPayload` | `app/lkboot/lkboot.c:154-192` | reads of any sizes together deliver the matching prefix of the payload, and succeed exactly if they ask for no more than there is |
| `Lkboot.Device.WritesFrames` | `app/lkboot/lkboot.c:143-152` | writes produce the frames of the protocol exactly if the size of a pointer is that of the header |
| `Lkboot.Device.ShortReadIff` | `app/lkboot/lkboot.c:154-192` | a read succeeds without having delivered what was asked for if and only if the end of the data was read before |
| `Lkboot.ReadTwice` | `app/lkboot/lkboot.c:154-192` | it happens to any upload that is read too far and then once more |
| `Lkboot.Device.SilentWhileFed` | `app/lkboot/lkboot.c:91-95` | after OKAY, FAIL or an error no sequence of calls sends anything, as long as the reads stay within the upload |
| `Lkboot.Device.ReopensIff` | `app/lkboot/lkboot.c:91-172` | after a read, whatever is called next is silent if and only if the read stayed within the upload |
| `Lkboot.SendsAfterFail` | `app/lkboot/lkboot.c:91-172` | a device that sent FAIL, and then read the end of the data, sends a log message |
| `Lkboot.FirstRead` | `app/lkboot/lkboot.c:160-162` | the first read sends the go-ahead and then delivers the first bytes of the upload |
| `Lkboot.Lkb.Send` | `app/lkboot/lkboot.c:91-138` | one message goes out as header and data, or nothing after the end, or an internal error is reported for an opcode out of place |
| `Lkboot.Device.RefusesIff` | `app/lkboot/lkboot.c:91-138` | a message is refused, without a trace on the wire, if and only if it is too long for its length field; a final one ends the transfer even so |
| `Liblkboot.DeviceSpeaks` | `app/lkboot/lkboot.c:91-138` | whatever messages a device is asked to send, exactly those that are in place are on the wire, a failure in place of a second go-ahead, and nothing after the final one |
| `Liblkboot.FallsSilent` | `app/lkboot/lkboot.c:128-131` | on a target whose pointers are not as large as the header, only the header of the first message is sent |
| `Lkboot.Lkb.Write` | `app/lkboot/lkboot.c:143-152` | the chunking loop sends what the recursive specification of the frames says, and stops at the first failure |
| `Lkboot.Lkb.Read` | `app/lkboot/lkboot.c:154-192` | the loop over chunks delivers the bytes of the specification, or fails in the same state: end of data, wrong message, end of stream |
| `Liblkboot.Reassembles` | `tools/liblkboot.c:296-306` | the host reassembles what the device wrote, and fails exactly if its reply buffer is too small |
| `Liblkboot.WriteThenReply` | `tools/liblkboot.c:296-306` | write and reassembly are the identity up to the reply limit |
| `Liblkboot.UploadThenRead` | `tools/liblkboot.c:85-117` | go-ahead, upload and reads deliver the payload |
| `Liblkboot.HostAccepts` | `tools/liblkboot.c:273-312` | for any list of messages that a device sends, the transaction succeeds if and only if the first that is neither a go-ahead nor data is an OKAY, the data before it fits the reply buffer, and the file is not asked for twice; the reply is that data in order, and the file is sent at each go-ahead |
| `Liblkboot.SpeaksAndAccepts` | `tools/liblkboot.c:273-312` | so the transaction with any device that sends messages in any order comes out as the messages in place say |
| `Liblkboot.BrokenStream` | `tools/liblkboot.c:273-312` | a stream that breaks off within a message makes the transaction fail |
| `Liblkboot.LogEndsTransaction` | `tools/liblkboot.c:273-312` | a device that asks for the data, logs any text and confirms, as the protocol allows, makes the transaction fail; without the log message it succeeds |
| `Liblkboot.Host.UploadAll` | `tools/liblkboot.c:85-112` | the chunking loop of the host sends the frames of the payload |
| `Liblkboot.Host.Collect` | `tools/liblkboot.c:296-306` | a data message goes to the end of the reply buffer exactly if it arrives and fits |
| `Liblkboot.Host.Transaction` | `tools/liblkboot.c:273-312` | appends every data message to the fixed reply buffer, uploads the file at a go-ahead unless it was read to its end before, and ends in success only with OKAY |
| `LkbootProtocol.UploadFirst` | `app/lkboot/lkboot_protocol.h:53-59` | an upload begins with a chunk whose length field is one less than its length |
| `LkbootProtocol.HeaderBytes` | `app/lkboot/lkboot_protocol.h:25-31` | the four bytes of a header |

## Left out

- Translation: TLB maintenance, barriers, cache operations and address space identifiers; aligning and
  counting pages in `arch_mmu_map` and `arch_mmu_unmap`; a page for tables is one free frame.
- Mmu.AddressSpace.Map: promises the whole physical address; a descriptor holds one of 48 bits
  (`AddressBackIff`), and nothing in the source checks it.
- Table entries that the code meets with a panic (a table descriptor at page level) do not occur in a
  tree.
- List: the remaining accessors (`list_remove_tail`, `list_peek_head`, `list_next` and others).
  The other components keep their lists as sequences.
- Threads: the memory and stack of a new thread, exit, join, detach, stack checks, statistics,
  inter-processor interrupts, the preemption timer's arming on a switch. The idle
  thread is taken not to block, sleep, change its priority or be rescheduled by its own wakes.
- Threads.Kernel.Create: takes a priority of 0 to 31, as all callers pass; the source takes any `int` and
  does not check it.
- `run_queue_bitmap` is a set of priorities; the 32-bit word is not modelled.
- `thread_unblock`, which nothing here needs.
- Timers: several processors and their races, starting from a callback taken off the queue.
- Timer.Timers.TimerSet: instants are assumed to lie within half the range of the clock, because beyond it the
  comparisons of the source are wrong (`ComparisonsTurn`); the source accepts any delay.
- Timer.Timers.TimerSetOneshot: the same.
- Timer.Timers.TimerSetPeriodic: the same.
- Mutex, semaphore, event: destroying one in use. Their queue is that of `Waiters`, which describes that
  of the scheduler (`WaitRefinement.Refines`); the two are not one state.
- Initialisation hooks: what a hook does. The flag word is a set of the four flags.
- Ports: port groups, names and their race, failing allocation, blocking in `port_read`. A ring in
  `PortState` is the value that `Ring.Ring` is proved to hold; the array itself is not shared there.
- Floating point: reuse of freed thread structures.
- lkboot: transports, command parsing, file reading, byte swapping and trimming of FPGA images; streams
  are reliable.
- Everything else of the repository: boot applications, drivers, consoles, tools, file formats.
