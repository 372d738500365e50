# A verified model of the kernel's allocators, scheduler, semaphores, pipes and philosophers

This project models the parts of a small 64-bit teaching kernel whose correctness is not visible
from reading one function, and proves what they promise for all inputs, all reachable states or all
runs.

- **Buddy allocator** (`BuddyGeometry`, `BuddyModel`, `BuddyTheory`, `Buddy`). The class `BuddyHeap`
  keeps the headers in memory, indexed by offset from the start of the heap, with the free lists
  threaded through them; its methods are proved against functions on lists of offsets and a set of
  live blocks, and the theory is proved about those: the free blocks are a function of the live
  ones, freeing undoes allocating, a request fails exactly when no aligned span is unused.
- **Dining philosophers** (`Philosophers`, `PhilosophersGate`, `PhilosophersSafety`,
  `PhilosophersPassage`, `PhilosophersProgress`, `PhilosophersSeam`). A state machine with one step per
  semaphore call or shared write, a program counter for every philosopher, and a main process that
  grows and shrinks the ring.
- **Linked queue** (`LinkedQueue`), a class refined to a sequence.
- **Scheduler and semaphores** (`SchedulerModel`, `SchedulerPartition`, `SchedulerCalls`,
  `SchedulerMemory`, `SchedulerFairness`, `SemaphoreLedger`, `Semaphores`, `Scheduler`). Kernel entries run with interrupts off, so each one is
  an atomic step. The class `Kernel` keeps its processes in linked queues and makes each step in
  place; each method is proved equal to a step of the specification, about which the run theorems
  are proved.
- **Ring buffer and pipes** (`RingBuffer`, `PipeRefs`, `Pipes`). The ring is a class over an array, and
  every pipe has one; the pipe table is a class whose counters are proved to count the descriptors
  of all processes, whose reads and writes are proved to deliver the accepted bytes in order, and whose
  readers are woken in the order in which they fell asleep.
- **Simple memory manager** (`FirstFit`), **execv's stack image** (`ExecStack`) and **BMFS file
  creation** (`Bmfs`).

`Basics` holds shared types, `Sequences` and `Modular` shared facts.

## What does not hold as one would expect

- `Buddy.OrderFits`: a request so large that adding the header wraps around in 64 bits is served with
  a block that is too small. It is exactly those requests.
- `PhilosophersProgress.GrowthLosesWakeupIff`: adding a philosopher can leave somebody waiting for a
  neighbour that is none any more. It happens exactly when somebody at the seam waits for the
  philosopher across the seam and for nobody else. `PhilosophersSeam.WaiterCanBeStranded` gives a run
  that leaves a philosopher waiting between neighbours that do not drive, with SEM_ID free.
- `RingBuffer.UnwriteDropsLastIff`: taking back the last byte works except when that byte is in
  cell 0 while the head is at 2 or beyond.
- `Pipes.PipeTable.SysWrite`: the loop that should put a writer of a full pipe to sleep waits for a
  fill level that the ring never reaches, so a full pipe makes the call return 0 at once, and writing
  without readers is not refused. A write wakes one sleeper only: with two or more readers asleep it
  leaves one asleep on data, exactly if it writes anything; a read ends this only by emptying the ring.
- `SchedulerMemory`: `proc_ready`, `block` and `my_sem_wait` ignore that `enqueue` may find no memory.
  A woken process (`ReadyNeedsMemory`), one whose turn ends (`TurnNeedsMemory`) and a blocked one
  (`BlockNeedsMemory`) are then lost to every queue, and exactly then; a waiter without its node in the
  semaphore's queue sleeps where no post finds it (`WaitNeedsMemory`).
- `SchedulerPartition.UnblockKeepsIff`: unblocking by pid a process asleep on a semaphore leaves it in
  that semaphore's queue, and breaks the invariant for these processes only.
- `Bmfs.SearchIsSafeIff`: the gap search is safe for every request exactly when the sorted extents
  follow one another. Files of no blocks can break this: `CreateEmptyFile` creates three files on a
  formatted disk after which the search may hand out a block in use (`EmptyFileBreaksTheSearch`). So
  `Create` keeps the disk laid out only if the request reserves a block; `RequestIsReserved` says which do.
- `FirstFit.SimpleHeap.Kmalloc`: a request for no bytes returns the start of the heap without
  reserving anything.
- `ExecStack.ProcStack.Execv`: nothing checks that the image fits. It stays in the stack exactly when
  `Fits` holds.

## Model

| member | source | states |
|---|---|---|
| `BuddyGeometry.XorMultiple` | Kernel/memory/buddy.c:13-15 | exclusive or with a block size flips the last bit of the block's index at that size |
| `BuddyGeometry.BuddyIsOtherHalf` | Kernel/memory/buddy.c:13-15 | the buddy address computed by exclusive or is the other half of the enclosing block, whichever half the block is |
| `BuddyGeometry.BuddyPlaced` | Kernel/memory/buddy.c:104-108 | the buddy of a block below the top order is an aligned block inside the heap, shares its parent, and has the block as its own buddy |
| `BuddyGeometry.Laminar` | Kernel/memory/buddy.c:11-15 | two aligned blocks are disjoint or nested, never partly overlapping |
| `BuddyModel.PopKeepsWf` | Kernel/memory/buddy.c:62-68 | handing out the front of a free list keeps the tiling, the lists' exactness and the absence of free buddies |
| `BuddyModel.SplitKeepsWf` | Kernel/memory/buddy.c:70-86 | a live block becomes a live left half and a free right half without breaking the heap's invariant |
| `BuddyModel.PushKeepsWf` | Kernel/memory/buddy.c:137-138 | returning a live block keeps the invariant if its buddy is not free |
| `BuddyModel.MergeKeepsWf` | Kernel/memory/buddy.c:119-134 | a live block and its free buddy may be replaced by their live parent |
| `BuddyTheory.UnusedSpanInOneFreeBlock` | Kernel/memory/buddy.c:104-135 | coalescing leaves no unused aligned span spread over several free blocks |
| `BuddyTheory.CanonicalForm` | Kernel/memory/buddy.c:58-139 | the free blocks are exactly the maximal aligned blocks that meet no live allocation |
| `BuddyTheory.FreeSetIsFunctionOfLive` | Kernel/memory/buddy.c:58-139 | two states with the same live allocations have the same free blocks |
| `BuddyTheory.NothingLiveOneBlock` | Kernel/memory/buddy.c:29-48 | with nothing live the lists are the initial ones: one block of the top order |
| `BuddyTheory.AllocKeepsWf` | Kernel/memory/buddy.c:58-87 | the recursive split yields a new, aligned block of the order asked for, disjoint from all live ones |
| `BuddyTheory.FailsIffNoSpan` | Kernel/memory/buddy.c:58-74 | no list from the order up has a block if and only if every aligned span of that order is in use |
| `BuddyTheory.FreeKeepsWf` | Kernel/memory/buddy.c:93-139 | freeing any live block, with all its coalescing, keeps the invariant |
| `BuddyTheory.FreeUndoesAlloc` | Kernel/memory/buddy.c:62-138 | freeing the block just allocated restores every free list, the order of its entries included |
| `BuddyTheory.TilingFills` | Kernel/memory/buddy.c:29-139 | the blocks inside an aligned span that none of them exceeds add up to the span |
| `BuddyTheory.BytesConserved` | Kernel/memory/buddy.c:171-191 | free bytes plus live bytes equal the heap size in every state |
| `BuddyTheory.ReservedIsLive` | Kernel/memory/buddy.c:178-188 | the heap size minus the sum over the free lists is the sum of the live block sizes |
| `BuddyTheory.ReachableIsGood` | Kernel/memory/buddy.c:141-169 | every history of allocations and frees from initialisation keeps the invariant |
| `BuddyTheory.HistoryDoesNotMatter` | Kernel/memory/buddy.c:141-169 | two histories with the same live blocks at the end have the same free blocks; freeing everything restores the initial lists |
| `Buddy.GetOrder` | Kernel/memory/buddy.c:50-56 | the least order whose block holds the size plus header as computed in 64 bits |
| `Buddy.OrderFits` | Kernel/memory/buddy.c:50-56 | the chosen block holds payload and header if and only if the addition did not wrap, and is then less than twice as large unless it is the least block |
| `Buddy.OneHeaderPerBlock` | Kernel/memory/buddy.c:17-21 | every free or live block has a header offset of its own, listed at most once and only in the list of its order |
| `Buddy.HeadersOutsidePayloads` | Kernel/memory/buddy.c:17-21 | the bytes of every other block's header lie wholly before or after a live block, and its own header leaves room in it |
| `Buddy.BuddyInHeap` | Kernel/memory/buddy.c:105-108 | the range check of the coalescing loop never fails, and the smaller of block and buddy is the parent |
| `Buddy.BuddyHeap.constructor` | Kernel/memory/buddy.c:29-48 | the new heap starts right behind the manager's own record at the given address, is one free block of the top order and satisfies the invariant |
| `Buddy.BuddyHeap.PopFront` | Kernel/memory/buddy.c:62-68 | unlinks the first block of a list and marks it in use |
| `Buddy.BuddyHeap.PushFront` | Kernel/memory/buddy.c:137-138 | links a block in front of its list and touches no other header |
| `Buddy.BuddyHeap.WriteInterior` | Kernel/memory/buddy.c:141-153 | a write at any offset inside a live block but its header's changes no header the allocator relies on; `HeadersOutsidePayloads` extends this to the bytes of headers |
| `Buddy.BuddyHeap.SplitLive` | Kernel/memory/buddy.c:74-86 | writes the headers of both halves and lists the right one |
| `Buddy.BuddyHeap.AllocBlock` | Kernel/memory/buddy.c:58-87 | the recursion over header memory computes exactly the list-level allocation, or fails and changes nothing |
| `Buddy.BuddyHeap.Search` | Kernel/memory/buddy.c:110-122 | walking the links finds the buddy if and only if the list holds it, with its predecessor |
| `Buddy.BuddyHeap.Splice` | Kernel/memory/buddy.c:127-130 | the pointer surgery threads the list without the buddy and leaves every other list and live header alone |
| `Buddy.BuddyHeap.FindBuddy` | Kernel/memory/buddy.c:110-125 | the flags and order checked after the search always agree with the list |
| `Buddy.BuddyHeap.Merge` | Kernel/memory/buddy.c:124-134 | one coalescing round replaces the block and its buddy by their parent |
| `Buddy.BuddyHeap.FreeBlock` | Kernel/memory/buddy.c:93-139 | the loop over header memory computes exactly the list-level free; freeing a free block changes nothing |
| `Buddy.BuddyHeap.Kmalloc` | Kernel/memory/buddy.c:141-153 | NULL exactly for an empty request or when no aligned span of the order is unused, and then nothing changes; otherwise an unused block becomes live, and the payload lies in it behind its header |
| `Buddy.BuddyHeap.KmmFree` | Kernel/memory/buddy.c:155-169 | frees exactly the live block whose payload address is given; other pointers change nothing |
| `Buddy.BuddyHeap.KmmMemInfo` | Kernel/memory/buddy.c:171-191 | free is the sum of the free blocks and reserved the sum of the live ones |
| `Philosophers.RingArithmetic` | Userland/SampleCodeModule/programs/phylo.c:19-20 | the modular neighbour macros are the two neighbours on a ring and undo each other |
| `PhilosophersGate.PostGateKeeps` | Userland/SampleCodeModule/programs/phylo.c:66-79 | releasing SEM_ID hands the section to at most one process |
| `PhilosophersSafety.GrowKeeps` | Userland/SampleCodeModule/programs/phylo.c:96-116 | every step of adding a philosopher at the end keeps the ring's invariant |
| `PhilosophersSafety.CountDownKeepsRing` | Userland/SampleCodeModule/programs/phylo.c:128-134 | a ring whose count is lowered by one under the guard's promise never makes two driving philosophers neighbours; that the main process lowers it is `PhilosophersPassage.GuardPassedRemoves` |
| `PhilosophersSafety.GuardKeeps` | Userland/SampleCodeModule/programs/phylo.c:121-125 | the guard's decision keeps the ring's invariant |
| `PhilosophersSafety.ActKeeps` | Userland/SampleCodeModule/programs/phylo.c:50-138 | every step of every process keeps the invariant |
| `PhilosophersSafety.NeighboursNeverDriveTogether` | Userland/SampleCodeModule/programs/phylo.c:50-138 | for every capacity and every interleaving, growth and removal included, no two distinct neighbours are DRIVING |
| `PhilosophersPassage.MainLeavesOthers` | Userland/SampleCodeModule/programs/phylo.c:93-138 | a step of the main process changes nothing at any place but the one it adds or removes, except that it lets the first waiter of SEM_ID into the section |
| `PhilosophersPassage.MoveMayWakeMain` | Userland/SampleCodeModule/programs/phylo.c:50-80 | a philosopher's step never changes the count, and moves the main process only by waking it where it sleeps |
| `PhilosophersPassage.RemovalTakesLastOut` | Userland/SampleCodeModule/programs/phylo.c:118-138 | whatever the others do meanwhile, a removal that has run its course leaves the count one lower, the old last place empty, NONE and out of the ring, and every philosopher below in its place |
| `PhilosophersPassage.GrowthBringsOneIn` | Userland/SampleCodeModule/programs/phylo.c:93-116 | likewise a growth leaves the count one higher, a new philosopher at the end of the ring, and every other in its place |
| `PhilosophersPassage.NobodyIsMissing` | Userland/SampleCodeModule/programs/phylo.c:93-138 | in every run each place of the ring holds a philosopher, but perhaps the one being removed; with the main process idle, exactly the places of the ring do |
| `PhilosophersPassage.GuardIff` | Userland/SampleCodeModule/programs/phylo.c:121-125 | the guard lets the removal through if and only if the two neighbours of the last place do not both drive, and otherwise lets go of SEM_ID |
| `PhilosophersPassage.GuardPassedRemoves` | Userland/SampleCodeModule/programs/phylo.c:126-133 | past the guard the main process is done in six steps: the last place is cleared, its seat closed, the count lowered, and SEM_ID free or handed to its first waiter; nobody else's state or seat changes |
| `PhilosophersPassage.GuardHeldReleases` | Userland/SampleCodeModule/programs/phylo.c:121-123 | while both neighbours drive two steps release SEM_ID to its first waiter and change nothing else |
| `PhilosophersPassage.MainWaitsForSeat` | Userland/SampleCodeModule/programs/phylo.c:124 | then the main process goes on if and only if the last seat has a token, which it takes; else it lines up there |
| `PhilosophersPassage.SectionAdds` | Userland/SampleCodeModule/programs/phylo.c:96-116 | in the section the main process is done in four steps: a new philosopher sits at the end of the ring, with an empty seat and no state yet |
| `PhilosophersProgress.TokensBalance` | Userland/SampleCodeModule/programs/phylo.c:50-80 | a philosopher's semaphore value, plus one between take and leave, plus one for a post that is due, is one if it is DRIVING and zero otherwise |
| `PhilosophersProgress.NeverStuck` | Userland/SampleCodeModule/programs/phylo.c:50-116 | in every state reached without removals some philosopher, or the main process in its section, can move |
| `PhilosophersProgress.WaitersHaveDrivingNeighbour` | Userland/SampleCodeModule/programs/phylo.c:50-80 | whenever SEM_ID is free every WAITING philosopher has a DRIVING neighbour, for runs whose growth steps meet no waiting seam |
| `PhilosophersProgress.GrowthLosesWakeupIff` | Userland/SampleCodeModule/programs/phylo.c:110-112 | counting in a new philosopher loses a wakeup if and only if someone at the seam waits only for the philosopher across it |
| `PhilosophersSeam.GrowthCanLoseWakeup` | Userland/SampleCodeModule/programs/phylo.c:50-116 | a reachable state in which counting in the next philosopher loses a wakeup |
| `PhilosophersSeam.WaiterCanBeStranded` | Userland/SampleCodeModule/programs/phylo.c:50-116 | a run without removals after which SEM_ID is free and a philosopher waits although neither neighbour drives |
| `LinkedQueue.Queue.constructor` | Kernel/include/ds/queue.h:50-59 | a new queue is empty |
| `LinkedQueue.Queue.Enqueue` | Kernel/include/ds/queue.h:64-97 | appends one node at the tail; without memory nothing changes |
| `LinkedQueue.Queue.Dequeue` | Kernel/include/ds/queue.h:102-121 | takes the first value, or answers NULL on an empty queue |
| `LinkedQueue.Queue.Remove` | Kernel/include/ds/queue.h:126-149 | deletes exactly the first occurrence of a value and keeps the order of the rest |
| `LinkedQueue.Queue.CutLast` | Kernel/include/ds/queue.h:134-136 | the branch for the last node removes it and sets the tail |
| `LinkedQueue.Queue.CutInner` | Kernel/include/ds/queue.h:137-144 | the branch for an inner node links its neighbours to each other |
| `LinkedQueue.Queue.NodeRemove` | Kernel/include/ds/queue.h:154-170 | removes the given node at its place; NULL changes nothing |
| `LinkedQueue.Queue.Free` | Kernel/include/ds/queue.h:175-185 | leaves the queue empty |
| `Sequences.WithoutAt` | Kernel/include/ds/queue.h:126-149 | the specified removal deletes one position, the first that holds the value |
| `SchedulerPartition.DispatchKeeps` | Kernel/proc/scheduler.c:49-60 | taking the next process from the ready queue keeps every process in exactly one place |
| `SchedulerPartition.IdleIsReady` | Kernel/proc/scheduler.c:94-101 | with nobody running the ready queue is not empty, so the loops without a ready process are unreachable |
| `SchedulerPartition.TickKeeps` | Kernel/proc/scheduler.c:62-104 | a timer tick keeps every process in exactly one place with the matching status |
| `SchedulerPartition.BlockSelfKeeps` | Kernel/proc/scheduler.c:118-145 | a process that blocks itself moves to the blocked queue and the next one runs |
| `SchedulerPartition.BlockOtherKeeps` | Kernel/proc/scheduler.c:118-136 | blocking a ready process takes it out of the ready queue and puts it last in the blocked one, and the current process stays |
| `SchedulerPartition.UnblockKeepsIff` | Kernel/proc/scheduler.c:171-188 | unblocking a blocked process keeps the invariant if and only if it does not sleep on a semaphore |
| `SchedulerCalls.BlockAnswers` | Kernel/proc/scheduler.c:147-169 | the answer is -1 if and only if the process is unknown or dead, and else 0; unknown, dead and blocked ones change nothing |
| `SchedulerCalls.BlockReadyDoes` | Kernel/proc/scheduler.c:118-169 | a ready process is BLOCKED, last in the blocked queue and out of the ready one, answer 0; everybody else is as before |
| `SchedulerCalls.BlockRunningDoes` | Kernel/proc/scheduler.c:106-169 | so is the running process, and the head of the ready queue runs with a full quantum; the rest is as before |
| `SchedulerCalls.BlockNothingIff` | Kernel/proc/scheduler.c:147-169 | the answer is 0 if and only if the process is BLOCKED afterwards, and 0 with nothing changed if and only if it was before |
| `SchedulerCalls.UnblockDoes` | Kernel/proc/scheduler.c:171-188 | the answer is 0 if and only if the process is known; a blocked one goes last into the ready queue, and nothing changes for any other |
| `SchedulerCalls.SpawnDoes` | Kernel/proc/process.c:79-116 | a new process is last in the ready queue with the default quantum as priority, and a child of the caller |
| `SchedulerCalls.YieldDoes` | Kernel/proc/scheduler.c:62-109 | the caller goes to the end of the ready queue and its head runs, unless nobody else is ready |
| `SchedulerCalls.TickDoes` | Kernel/proc/scheduler.c:49-104 | a tick is a first dispatch, a full quantum for a process alone, one tick less, or a hand-over to the head of the ready queue, and nothing else |
| `SchedulerCalls.PriorityDoes` | Kernel/proc/process.c:336-355 | the answer is 0 if and only if the caller is the parent and the priority within 1 to QUANTUM_MAX, which the child then has; otherwise nothing changes |
| `SchedulerCalls.PriorityIsNextTurn` | Kernel/proc/process.c:336-355 | after a priority is set to n, the next turn of a ready child lasts exactly n ticks |
| `SchedulerCalls.CreateAnswers` | Kernel/ipc/semaphore.c:38-51 | the answer is 0 if and only if the number was free and within the table, and then just that semaphore is open with the value given |
| `SchedulerCalls.TryWaitAnswers` | Kernel/ipc/semaphore.c:116-130 | 0 if and only if the value dropped by one, 1 if and only if it was 0, -1 if and only if the semaphore is not open; without a 0 nothing changes |
| `SchedulerCalls.WaitAnswers` | Kernel/ipc/semaphore.c:94-114 | -1 with nothing changed if and only if it is not open; the answer 0 is a unit taken or a sleep begun |
| `SchedulerCalls.PostAnswers` | Kernel/ipc/semaphore.c:75-92 | -1 with nothing changed if and only if it is not open; the answer 0 is a unit more or the longest waiter made ready |
| `SchedulerMemory.ReadyNeedsMemory` | Kernel/proc/scheduler.c:36-46 | waking a blocked process keeps every process in its place if and only if there was memory for its node in the ready queue; otherwise it is in no queue |
| `SchedulerMemory.TurnNeedsMemory` | Kernel/proc/scheduler.c:82-101 | so does the end of a turn, if and only if there was memory for the node of the process that ran |
| `SchedulerMemory.BlockNeedsMemory` | Kernel/proc/scheduler.c:118-136 | so does blocking any running or ready process but idle, if and only if there was memory for its node in the blocked queue |
| `SchedulerMemory.WaitNeedsMemory` | Kernel/ipc/semaphore.c:94-114 | a wait that sleeps keeps the whole invariant if and only if both nodes were made; without the first the caller is in no semaphore's queue, without the second in no scheduling queue, and only then |
| `SchedulerPartition.WaitInv` | Kernel/ipc/semaphore.c:94-114 | a wait takes a unit, or appends the process to that semaphore's queue, blocks it and runs the next ready one |
| `SchedulerPartition.PostInv` | Kernel/ipc/semaphore.c:75-92 | a post raises the value, or takes the longest waiter out of the queue and puts it last among the ready |
| `SchedulerPartition.StepInv` | Kernel/proc/scheduler.c:36-188 | every kernel entry keeps the invariant |
| `SchedulerPartition.EveryProcessInOnePlace` | Kernel/proc/scheduler.c:36-188 | in every run each process is in exactly one of running, ready and blocked with matching status; the processes in semaphore queues are exactly those blocked for a semaphore, each in one queue; the kernel never halts |
| `SchedulerFairness.StepNearer` | Kernel/proc/scheduler.c:49-101 | no kernel entry moves a ready process back and every tick brings it nearer |
| `SchedulerFairness.ReadyProcessRuns` | Kernel/proc/scheduler.c:49-101 | in any run that does not block it, the process at place i of the ready queue runs before QUANTUM_MAX * (i + 1) ticks have passed |
| `SchedulerFairness.TurnOf` | Kernel/proc/scheduler.c:82-101 | under ticks alone the process at place i runs for exactly its priority, starting after the current quantum and the priorities ahead |
| `SchedulerFairness.RotationRepeats` | Kernel/proc/scheduler.c:82-101 | from a fresh dispatch the state after exactly the sum of all priorities is the same but for the quanta left over in ready processes, which are spent; it is wholly the same if and only if there are none |
| `SchedulerFairness.TickObserves` | Kernel/proc/scheduler.c:49-60 | those leftover quanta have no effect: states that agree otherwise agree after a tick |
| `SemaphoreLedger.SemaphoreStays` | Kernel/ipc/semaphore.c:38-130 | only wait, post and trywait on a semaphore change it |
| `SemaphoreLedger.EntryBalances` | Kernel/ipc/semaphore.c:75-130 | each kernel entry keeps the balance of one semaphore's units and arrivals |
| `SemaphoreLedger.UnitsConservedInOrder` | Kernel/ipc/semaphore.c:38-130 | in every run initial value plus posts is value plus completed waits, nobody sleeps on a positive value, and waiters are released in arrival order |
| `SemaphoreLedger.InsideIsBounded` | Kernel/ipc/semaphore.c:75-130 | used as a lock, the number of processes inside plus the value stays the initial value |
| `SemaphoreLedger.BinarySemaphoreExcludes` | Kernel/ipc/semaphore.c:38-130 | with initial value 1 at most one process is between wait and post |
| `Scheduler.Kernel.constructor` | Kernel/proc/scheduler.c:22-34 | an empty scheduler with the idle process ready |
| `Scheduler.Kernel.ProcReady` | Kernel/proc/scheduler.c:36-46 | the process leaves the blocked queue and goes to the end of the ready queue |
| `Scheduler.Kernel.EnqueueNextProcess` | Kernel/proc/scheduler.c:49-60 | the head of the ready queue becomes current, with a full quantum; without one the kernel hangs |
| `Scheduler.Kernel.Schedule` | Kernel/proc/scheduler.c:62-104 | one timer tick is the specified step |
| `Scheduler.Kernel.GiveWay` | Kernel/proc/scheduler.c:106-109 | yield gives up the rest of the quantum |
| `Scheduler.Kernel.Block` | Kernel/proc/scheduler.c:118-136 | blocking for a reason is the specified step |
| `Scheduler.Kernel.BlockProcessByPid` | Kernel/proc/scheduler.c:147-169 | state and return code of the specified step, errors included |
| `Scheduler.Kernel.UnblockProcessByPid` | Kernel/proc/scheduler.c:171-188 | state and return code of the specified step, errors included |
| `Scheduler.Kernel.SpawnProcess` | Kernel/proc/process.c:110-116 | a new process starts ready with the default quantum |
| `Scheduler.Kernel.SetPriority` | Kernel/proc/process.c:336-355 | only the parent sets a priority, within 1 to QUANTUM_MAX |
| `Scheduler.Kernel.CreateSemaphore` | Kernel/ipc/semaphore.c:38-51 | opens a semaphore that is not in use; without memory for its queue it answers -1 and changes nothing |
| `Scheduler.Kernel.WaitSemaphore` | Kernel/ipc/semaphore.c:94-114 | takes a unit or queues the caller and blocks it |
| `Scheduler.Kernel.PostSemaphore` | Kernel/ipc/semaphore.c:75-92 | hands the unit to the longest waiter or raises the value |
| `Scheduler.Kernel.TryWaitSemaphore` | Kernel/ipc/semaphore.c:116-130 | takes a unit or answers 1, never sleeps |
| `RingBuffer.StoredFits` | Kernel/include/ds/ringbuf.h:144-149 | the contents are at most size - 1 bytes and empty exactly when head and tail meet |
| `RingBuffer.FullTest` | Kernel/include/ds/ringbuf.h:106-113 | the write loop's full test holds exactly when size - 1 bytes are stored |
| `RingBuffer.StoredPop` | Kernel/include/ds/ringbuf.h:68-81 | taking the byte at the head, in either representation of position 0, removes the first byte |
| `RingBuffer.StoredPush` | Kernel/include/ds/ringbuf.h:106-122 | putting a byte at the tail appends it |
| `RingBuffer.UpToIsFirst` | Kernel/include/ds/ringbuf.h:172-184 | a positive find is the length of the shortest prefix ending in the character; zero means it is absent |
| `RingBuffer.DrainedIsPrefix` | Kernel/include/ds/ringbuf.h:68-81 | the reading loop, run from valid positions, delivers a prefix of the contents |
| `RingBuffer.UnwriteDropsLastIff` | Kernel/include/ds/ringbuf.h:186-193 | reads after an unwrite deliver the contents without the last byte if and only if not (tail = 1 and head at least 2) |
| `RingBuffer.UnwrittenStores` | Kernel/include/ds/ringbuf.h:186-193 | outside that case the positions stay valid and the contents lose their last byte |
| `RingBuffer.Ring.constructor` | Kernel/include/ds/ringbuf.h:33-51 | a new ring is empty |
| `RingBuffer.Ring.Available` | Kernel/include/ds/ringbuf.h:144-149 | the number of stored bytes |
| `RingBuffer.Ring.Read` | Kernel/include/ds/ringbuf.h:68-81 | delivers the first min(n, stored) bytes and removes them |
| `RingBuffer.Ring.Write` | Kernel/include/ds/ringbuf.h:106-122 | accepts exactly min(n, free) bytes and appends them |
| `RingBuffer.Ring.ReadUntil` | Kernel/include/ds/ringbuf.h:154-166 | reads up to and including the character, the count or the end, whichever is first |
| `RingBuffer.Ring.Find` | Kernel/include/ds/ringbuf.h:172-184 | the length of the prefix that reading until the character returns; 0 if absent |
| `RingBuffer.Ring.Unwrite` | Kernel/include/ds/ringbuf.h:186-193 | moves the tail back; drops the last byte outside the failing case |
| `PipeRefs.RefsAfterSet` | Kernel/ipc/pipe.c:172-214 | changing one descriptor changes the number of references to an end by exactly what was put in and taken out |
| `Pipes.AddKeepsCounts` | Kernel/ipc/pipe.c:200-214 | a descriptor filled together with its counter keeps the counters exact |
| `Pipes.DropKeepsCounts` | Kernel/ipc/pipe.c:172-198 | a descriptor cleared together with its counter keeps them exact, and the counter was positive |
| `Pipes.FreeKeepsCounts` | Kernel/ipc/pipe.c:109-120 | a pipe with both counters at zero can go without leaving a descriptor behind |
| `Pipes.NobodyRefersIff` | Kernel/ipc/pipe.c:176-195 | both counters are zero if and only if no descriptor of any process refers to the pipe |
| `Pipes.DropSound` | Kernel/ipc/pipe.c:172-198 | closing an end keeps the counters exact, leaves no reader asleep without a writer and moves no ring |
| `Pipes.CloseDoes` | Kernel/ipc/pipe.c:172-198 | a close lowers one counter by one; the last writer's wakes every sleeper, no other close wakes anybody, and the pipe goes exactly with its last descriptor |
| `Pipes.PipeTable.FirstToSleepFirstWoken` | Kernel/ipc/pipe.c:122-198 | in every sound state the readers of a pipe that were woken are the first of those that went to sleep, and the rest still sleep, in that order |
| `Pipes.ReadMisses` | Kernel/ipc/pipe.c:122-145 | after a read nobody sleeps on data if and only if nobody did before or the read could take all of it |
| `Pipes.PipeTable.FindFreeFd` | Kernel/proc/process.c:314-323 | the lowest free descriptor, or -1 if none is free |
| `Pipes.PipeTable.Attach` | Kernel/ipc/pipe.c:57-64 | opening an end raises its counter by one with the descriptor that refers to it |
| `Pipes.PipeTable.CloseEnd` | Kernel/ipc/pipe.c:172-198 | closing lowers the counter, wakes all readers at the last writer, and frees the pipe exactly when nobody refers to it any more, never twice |
| `Pipes.PipeTable.PipeFree` | Kernel/ipc/pipe.c:109-120 | the pipe leaves the table and was not freed before |
| `Pipes.PipeTable.SysCloseFd` | Kernel/interrupts/syscall_dispatcher.c:433-455 | clears one descriptor and closes its end as `CloseDoes` says; a number out of range is refused and changes nothing |
| `Pipes.PipeTable.SysPipeOpen` | Kernel/interrupts/syscall_dispatcher.c:242-262 | opens an end in the lowest free descriptor, creating the pipe if needed; a pipe that exists keeps its ring, bytes, sleepers and logs; each failure changes nothing |
| `Pipes.PipeTable.CreatePipe` | Kernel/ipc/pipe.c:67-107 | a new pipe has no readers, writers, data or sleepers |
| `Pipes.PipeTable.NewProcess` | Kernel/proc/process.c:99-103 | a new process has the keyboard and the screens as its descriptors or copies of its parent's, with references taken |
| `Pipes.PipeTable.InheritFds` | Kernel/ipc/filedesc.c:35-53 | descriptors are copied in order up to the first number out of range, each with a reference |
| `Pipes.PipeTable.KillProcess` | Kernel/proc/process.c:155-170 | the process leaves all wait queues and all its descriptors are closed; the others asleep stay asleep in order, except on pipes that have no writer left |
| `Pipes.PipeTable.OpenPipe` | Kernel/ipc/pipe.c:43-65 | a found pipe keeps its ring, bytes, sleepers and logs and gains one reference on the opened end; a new one has that reference, no bytes and no sleepers; all others stay; without room nothing changes |
| `Pipes.PipeTable.PipeRead` | Kernel/ipc/pipe.c:122-145 | sleeps exactly on an empty ring with writers, otherwise takes the first bytes out of the ring; accepted bytes are always delivered bytes followed by the ring's |
| `Pipes.PipeTable.PipeWrite` | Kernel/ipc/pipe.c:147-170 | the ring takes min(n, free) bytes in order and the sleeper that came first is woken; the sleeping loop is never entered, as the ring never holds its size |
| `Pipes.PipeTable.SysRead` | Kernel/interrupts/syscall_dispatcher.c:86-115 | a descriptor of a read end is read, that of the keyboard goes to the keyboard's own read, and any other is refused; nobody sleeps on data afterwards if and only if nobody did before or the ring was emptied |
| `Pipes.PipeTable.SysWrite` | Kernel/interrupts/syscall_dispatcher.c:117-144 | a descriptor of a write end is written, that of a screen accepts every byte, and any other is refused; the sleeper that came first is woken; if nobody slept on data before, somebody does afterwards if and only if something was to be written and two or more were asleep |
| `FirstFit.NaiveIsLeftmost` | Kernel/memory/my_mm.c:37-45 | the naive search finds the leftmost run of enough free cells, or there is none |
| `FirstFit.SkipAhead` | Kernel/memory/my_mm.c:40-44 | jumping past the taken cell that stopped the scan skips no fitting run |
| `FirstFit.FillKeepsTable` | Kernel/memory/my_mm.c:46-57 | laying a run over free cells keeps the table a concatenation of free cells and disjoint runs |
| `FirstFit.ClearKeepsTable` | Kernel/memory/my_mm.c:66-72 | releasing a run by the length in its first cell keeps the table in order |
| `FirstFit.FreeUndoesAlloc` | Kernel/memory/my_mm.c:34-73 | freeing an allocation at once restores the table |
| `FirstFit.CountIsRun` | Kernel/memory/my_mm.c:66-67 | a cell holds a length exactly when it is the first of a live run, and it is that run's length |
| `FirstFit.SimpleHeap.constructor` | Kernel/memory/my_mm.c:24-32 | the heap starts at the given address and all cells are free |
| `FirstFit.SimpleHeap.Search` | Kernel/memory/my_mm.c:37-45 | equals the naive search and inspects the cells in strictly rising order, so each at most once |
| `FirstFit.SimpleHeap.Kmalloc` | Kernel/memory/my_mm.c:34-60 | the leftmost fitting run becomes live, or NULL only if none exists and nothing changes |
| `FirstFit.SimpleHeap.KmmFree` | Kernel/memory/my_mm.c:62-73 | exactly the run whose first cell holds the address is released; any other address changes nothing |
| `ExecStack.WordRoundTrip` | Kernel/proc/exec.c:62-73 | a word stored byte by byte is read back |
| `ExecStack.ScanFindsText` | Kernel/proc/exec.c:33-36 | reading up to the first NUL gives back the copied string |
| `ExecStack.CopiesAreDisjoint` | Kernel/proc/exec.c:27-37 | the argument copies are pairwise disjoint, below the old stack pointer and above the pointer array |
| `ExecStack.ArrayIsRead` | Kernel/proc/exec.c:46-59 | following the NULL-terminated array yields exactly the arguments, a missing one as the empty string |
| `ExecStack.TextsAre` | Kernel/proc/exec.c:27-31 | what the process is to see is each argument itself, and an empty string for a missing one |
| `ExecStack.FitsIff` | Kernel/proc/exec.c:108-163 | the final stack pointer stays in the stack if and only if strings, padding, array, arguments and frame are no larger than it |
| `ExecStack.FrameIsPopped` | Kernel/proc/exec.c:77-102 | the frame pushed here, popped in the order of popState and iretq, gives rdi, rsi, rip, cs, rflags, rsp and ss their values and all other registers zero |
| `ExecStack.RegisterIsPopped` | Kernel/asm/macros.inc:18-43 | each register receives the word pushed at the mirrored place |
| `ExecStack.ImageIsMade` | Kernel/proc/exec.c:108-163 | laying the frame below the array completes an image from which the process starts with its arguments |
| `ExecStack.ProcStack.constructor` | Kernel/proc/process.c:91-97 | the stack pointer starts past the last byte of the stack |
| `ExecStack.ProcStack.StoreWord` | Kernel/proc/exec.c:62-73 | a word store changes only its eight bytes and is read back |
| `ExecStack.ProcStack.CopyText` | Kernel/lib/lib.c:86-93 | copies the string and its NUL and nothing else |
| `ExecStack.ProcStack.PrepareArgv` | Kernel/proc/exec.c:13-42 | copies every argument below the one before and records where; without kernel memory nothing changes |
| `ExecStack.ProcStack.CopyPointers` | Kernel/proc/exec.c:46-59 | lays the pointers and NULL out as an aligned array |
| `ExecStack.ProcStack.PushArgcArgv` | Kernel/proc/exec.c:62-73 | pushes the array's address and then the count |
| `ExecStack.ProcStack.SetupFrame` | Kernel/proc/exec.c:77-102 | pushes the twenty words of the initial frame |
| `ExecStack.ProcStack.Execv` | Kernel/proc/exec.c:108-163 | resuming starts process_wrapper with the count and an 8-aligned array giving back the arguments; writes stay between new and old stack pointer, and inside the stack exactly when the image fits |
| `Bmfs.AddedIsLaid` | Bootloader/BMFS/bmfs.c:591-596 | a file in a fitting gap keeps all extents disjoint and in the data blocks |
| `Bmfs.SortedIsChained` | Bootloader/BMFS/bmfs.c:556-558 | sorting disjoint non-empty extents by start puts each before the next |
| `Bmfs.SearchIsRight` | Bootloader/BMFS/bmfs.c:560-589 | on chained extents the search answers with the lowest gap, or with none exactly if none exists |
| `Bmfs.GapsDoNotWrap` | Bootloader/BMFS/bmfs.c:560-584 | on chained extents every unsigned subtraction of the search is the width of a gap and does not wrap |
| `Bmfs.SearchIsSafeIff` | Bootloader/BMFS/bmfs.c:560-584 | the search is safe for every request if and only if the sorted extents are chained |
| `Bmfs.CreateEmptyFile` | Bootloader/BMFS/bmfs.c:505-615 | on a formatted disk of 8 blocks, creating b and c of one block each and an empty a leads to one certain directory |
| `Bmfs.EmptyFileBreaksTheSearch` | Bootloader/BMFS/bmfs.c:560-584 | the three files of that directory are disjoint, and the search for one block may answer with that of c |
| `Bmfs.AnswerIsRight` | Bootloader/BMFS/bmfs.c:556-589 | on a disk laid out, whatever order the sort leaves, the search answers with the lowest gap, or with none exactly if none exists |
| `Bmfs.RequestIsReserved` | Bootloader/BMFS/bmfs.c:509-514 | every request but 0 and the one whose rounding wraps reserves at least its size, rounded up to blocks |
| `Bmfs.CreatedIsOk` | Bootloader/BMFS/bmfs.c:591-596 | a new name with a fitting extent keeps names distinct and the disk laid out |
| `Bmfs.FilesAdded` | Bootloader/BMFS/bmfs.c:591-603 | overwriting the end marker and marking the next record adds exactly one file |
| `Bmfs.Qsort` | Bootloader/BMFS/bmfs.c:493-503 | some permutation sorted by starting block |
| `Bmfs.Disk.constructor` | Bootloader/BMFS/bmfs.c:215-224 | a formatted disk has no files |
| `Bmfs.Disk.FindFile` | Bootloader/BMFS/bmfs.c:167-188 | the first record of that name, skipping deleted ones and stopping at the end marker |
| `Bmfs.Disk.CountUsed` | Bootloader/BMFS/bmfs.c:531-549 | the number of records before the end marker |
| `Bmfs.Disk.FindGap` | Bootloader/BMFS/bmfs.c:560-584 | the loop computes the specified gap search |
| `Bmfs.Disk.Create` | Bootloader/BMFS/bmfs.c:505-615 | a new name gets an answer of the gap search, which on a disk laid out is the lowest gap; it is refused only if the directory is full or there is no answer, and then nothing changes; the disk stays laid out unless the request is for no blocks |

## Left out

- Buddy: `buddy_kmm_dump_state` and the NULL arguments of initialisation, which only print or return.
- Buddy.BuddyHeap.Kmalloc: sizes are below 2^64 as in the source; the block for a request whose header addition wraps is too small, as `Buddy.OrderFits` says.
- Buddy.BuddyHeap.KmmFree: a pointer into the heap that is not the payload address of a block would make the allocator read an arbitrary header; it is excluded.
- Philosophers: a killed philosopher simply vanishes; `remove_all`, the error paths of `new_phylo`, the input process, printing and sleeping are not modelled, and the ring is a value changed step by step because its steps interleave.
- PhilosophersProgress.NeverStuck: only for runs without removals, because removal waits on the removed philosopher's own semaphore.
- PhilosophersProgress.WaitersHaveDrivingNeighbour: excludes growth at a waiting seam and removals; `GrowthLosesWakeupIff` gives the exact condition for growth.
- Scheduler: killing, zombies, waiting for children, the process tree and the process table; the pid of a new process is a parameter.
- SchedulerPartition.EveryProcessInOnePlace: over runs in which nobody is killed, no sleeper of a semaphore is unblocked by pid, idle is never blocked, and every queue node finds memory; `UnblockKeepsIff` and the lemmas of `SchedulerMemory` say what happens otherwise.
- Scheduler: the processes are entries of a map; the queues hold their pids.
- Semaphores: `my_sem_destroy`, `my_ksem_init` and the wrap-around of the value after 2^64 posts.
- RingBuffer.Ring.constructor: size zero, for which the source takes a remainder by zero.
- Ring buffer: `ringbuf_write_overwrite` and `ringbuf_read_noconsume`, used by the kernel log only.
- Pipes: the table of names and its slots, `sys_pipe_create` and `sys_pipe_close`; a freed pipe is never found again.
- Pipes: the wait queues are sequences, and the one for writers, always empty, is not modelled.
- Pipes: the keyboard's read and the bytes the screens show; the descriptors that stand for them are modelled.
- Pipes: memory for a new pipe is a parameter; forced unblocking of a sleeping reader is not modelled.
- Simple manager: requests larger than the heap, for which the loop bound wraps and the source reads past its table; printing.
- FirstFit.SimpleHeap.Kmalloc: the heap's cells are indexed from 0 and the address of the heap is a parameter.
- ExecStack.ProcStack.Execv: memory for the kernel buffer is a parameter; logging, and the process's fields other than the stack pointer, are not modelled.
- Bmfs.Disk.Create: names that are empty, start with 0x01 or have more than 31 characters, which the directory format excludes.
- BMFS: deleted records, directories with damaged markers, reading, writing, listing, formatting and initialising images.
- BMFS: the sorting routine of the C library is replaced by some sort by starting block; `Answer` and `Create` allow every order of ties.
- Drivers, system call dispatch, logging, the shell and its commands, fonts, sound and boot code.
