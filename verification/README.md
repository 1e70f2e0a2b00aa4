# The kernel of DLXOS, modelled and verified

DLXOS is a small teaching operating system that runs on a simulator of the DLX processor. These files
model the parts of it that keep state, in the copy under `heap/`, which has everything the other two
copies have and the heap allocator besides, and prove what the system relies on.

| files | what they model |
|---|---|
| `Powers`, `BuddyTree`, `BuddyArray`, `BuddyHeap`, `BuddyReuse`, `BuddyRuns` | the per-process heap: one array of 128 small integers that encodes a binary buddy tree by its block heads, through one owner of the control block after the other |
| `Queues`, `ProcessLinks`, `Kernel` | intrusive doubly-linked queues over a fixed pool of 400 links; the process control blocks on their four queues; the whole kernel on links |
| `KernelState`, `KernelInvariant`, `KernelRuns`, `KernelEffects`, `KernelFairness`, `KernelProtocols`, `KernelReplies`, `KernelConditions` | processes, scheduler, semaphores, locks and condition variables, as one machine of atomic steps |
| `Frames`, `AddressSpaces` | the bitmap of page frames, and who owns which frame as processes come and go |
| `Translation`, `Copy` | the processor's page-table walk, the kernel's translation, and copying between kernel and user memory |
| `Contexts`, `ContextRuns` | saving and restoring registers on traps, nested traps and process switches |
| `WholeSystem` | scheduler, memory and saved contexts in one run |
| `Digits`, `Arguments` | printing and reading integers; passing command-line strings to a new process |

`dafny verify dfyconfig.toml` checks everything.

## How the model is built

Code that works by changing things is imperative here too: the heap array, the links and queues, the
kernel's global variables, the frame bitmap, physical memory, the registers and the parser's position
are mutable, and each routine is proved against a function of the old state. What the system promises
is then proved of those functions, over whole runs.

- **Heap.** The tree in `BuddyTree` is the reference: what a heap is, what allocating and releasing
  mean. `Rep` in `BuddyArray` says which arrays encode which tree; with `clean` false it leaves open what
  lies inside the blocks, which is what a reused control block needs. The routines in `BuddyHeap` are proved
  against the tree, `BuddyReuse` is about entries that earlier owners left behind, and `BuddyRuns` reasons
  about sequences of calls and changes of owner through their replies alone.
- **Kernel.** Traps run with interrupts off, so every stretch between two points where a process leaves
  the kernel or falls asleep in `ProcessSleep` is one step. A process that sleeps inside a trap has a
  continuation that says where it goes on. `Step` is one such stretch; a run is any sequence of traps.
  The timer interrupt that ends a quantum is `Yield`, an illegal access or instruction is `Exit`, a trap that
  only sets a result is `OtherTrap`, and one without a case of its own, which ends the simulation, is
  `UnknownTrap`. Traps and interrupts that change none of this are no steps.
- **Queues.** `Queues` proves the pointer work against sequence operations. `ProcessLinks` does the work of
  `process.c` on the control blocks, their links and the four queues, and `Kernel` adds the tables and
  waiting queues of `synch.c` and the traps. Their ghost state is a value of `KernelState`, and `Valid` says
  that every queue of links lists what that value lists; so what is proved of runs of the value holds of the links.
- **Address spaces.** A fork that cannot read its program file is a fork followed at once by the release
  of its resources, as in the code. The marks that the processor or-s into an entry are
  events of their own.
- **The whole.** `WholeSystem` lets one run drive the scheduler, the frames and the contexts, and proves of the
  events the kernel causes what each of these theories asks of its own.
- **Contexts.** Memory is counted in words. Between traps any code may run (`Compute`); it is trusted
  only not to write over saved registers and to keep the kernel's stack pointer inside its stack.

## Where the code departs from its intent or its comments

The model follows the code.

- `shrink` merges a freed right child with its left buddy without comparing orders
  (`heap/os/memory.c:403-407`; the left branch does compare, line 419). The parameter `checked` selects
  the code as committed (`false`) or with the missing test (`true`). The committed free is correct
  if and only if no such mixed merge lies ahead (`BuddyArray.CommittedReleaseIsSoundIff`), and four calls
  suffice to reach a heap where one does (`BuddyRuns.CommittedFreeLosesABlock`).
- A fork resets only entry 0 of a reused control block's heap array (`HeapOwner.ResetForFork`), so used
  entries of the former owner stay, and `mfree` takes them for blocks. What that does to the reply and to
  the blocks is exact in `ReplyIsLawfulIff` and `FreeIsSoundIff`; `CommittedFreeOfStaleEntry` is a run that
  gets there. The theorems over runs hold through any number of owners, for the checked version on all
  calls, for the committed one up to the first free that does damage (`BuddyRuns.Perform`).
- At order 7 `shrink` looks at entry 128, the word behind the array. That is the first word of the next
  control block, its saved-frame pointer, a multiple of four and so never 7; the merge is not taken and the
  model stops at order 7. Behind the last control block, which the first process gets, lies whatever the
  linker puts there: that it is not 7 is an assumption.
- The trap by which `ProcessSleep` gives up the processor is served from user mode too
  (`heap/os/traps.c:364-369`, `simulator_source/dlxsim.cc:1221-1225`). A user program that takes it waits on no
  semaphore, lock or condition and is never woken: `WaitsNowhereIff`, `NeverWoken`, `SleepTrapLosesAProcess`.
- The trap for broadcast calls `CondSignal` (`heap/os/synch.c:535`): it falls short exactly when more than
  one process waits (`BroadcastTrapFallsShortIff`), and `BroadcastTrapForgetsAWaiter` gets there.
- `CondCreate` scans `MAX_LOCKS` entries but compares the result with `MAX_CONDS`, marks entry 32 before
  failing, and does not look at the lock: `CondHandleIsGoodIff`, `CondCreateFailsAsDocumentedIff`, and
  `CondHandleThatNobodyTakes` for a run. A lock that nobody created starts out with owner 0, so that process 0
  passes for its owner: `UnmadeLocksServeNobody`, `ZeroWaitsOnUnmadeLock`.
- A process that exits keeps its locks (`ExitKeepsTheLocks`); by `OnlyTheOwnerLetsGo` they stay with its
  number until a new process of that number runs.
- The end of a process frees neither its system stack nor the entries of its page table
  (`heap/os/process.c:144-148`); `FramesAreConserved` and `ForksAreBounded` say what follows.
- The comment on `MemoryMoveBetweenSpaces` says the copy stops at the first unmapped address; the exact
  condition is in `StopsAtFirstUnmappedIff`.
- `ditoa` writes only the sign of a negative number, and its scale overflows from 10^9 on. C leaves that
  undefined; the model wraps at 32 bits, as the processor's instructions do. `PrintingEndsIff` and
  `PrintedReadsBackIff` are exact about it.
- With ten strings the null word after the addresses falls behind the parameter array
  (`heap/os/process.c:538`): `NullWordFallsOutsideIff`, `TenStringsOverrun`.

## Model

| member | source | states |
|---|---|---|
| `BuddyHeap.PowerOfTwo` | heap/os/memory.c:269-277 | pow2 is 2 to the low four bits of its argument |
| `BuddyHeap.LogTwo` | heap/os/memory.c:280-288 | log2 gives an order whose block holds the request while the next smaller one does not |
| `BuddyHeap.LeastOrderIsUnique` | heap/os/memory.c:280-288 | that order is determined by the request: it is the least with 32 * 2^order >= size |
| `BuddyHeap.FindFree` | heap/os/memory.c:299-313 | the scan over block heads stops at the first free block of exactly the order, else at the first larger one, else reports none, without missing a head |
| `BuddyHeap.SplitFrom` | heap/os/memory.c:315-329 | splitting leaves a block of the wanted order and one free block of every order between, each at its buddy place, whatever earlier owners left inside the block |
| `BuddyHeap.MakeIndex` | heap/os/memory.c:295-331 | makeIndex finds and carves a block as the tree of blocks prescribes and leaves the array untouched when there is none, on any array whose heads encode a tree |
| `BuddyHeap.Shrink` | heap/os/memory.c:391-430 | the recursion of shrink writes the array that Shrunk prescribes, both with the committed test in the right branch and with the missing equal-order test added |
| `BuddyHeap.HeapOwner.constructor` | heap/os/process.c:441-444 | a zeroed control block starts as one free block of order 7 |
| `BuddyHeap.HeapOwner.ResetForFork` | heap/os/process.c:441-444 | a reused control block only has entry 0 reset; that is one free block of order 7 again, with stale entries inside it unless the other 127 are zero |
| `BuddyHeap.HeapOwner.Malloc` | heap/os/memory.c:366-389 | malloc rejects sizes below 0 and above a page, otherwise allocates in the tree and returns the address of the block, 0 without room, on the arrays of all owners |
| `BuddyHeap.HeapOwner.Mfree` | heap/os/memory.c:432-450 | mfree answers -1 and changes nothing unless the address falls on an entry with its used bit set on a page that passes for the heap page; a block that starts there is released in the tree, and from a stale entry no block changes; the committed version does so unless its merges do damage |
| `BuddyTree.CellsTile` | heap/os/memory.c:295-331 | walking the heads by their own sizes tiles the page exactly |
| `BuddyTree.CanonicalIsUnique` | heap/os/memory.c:391-430 | two heaps without free buddy pairs and with the same outstanding blocks are the same heap |
| `BuddyTree.AllocationAddsOneBlock` | heap/os/memory.c:295-331 | allocation adds exactly one outstanding block, one that was not there, and creates no free buddy pair |
| `BuddyTree.ReleaseKeepsCanonical` | heap/os/memory.c:391-430 | coalescing leaves no two free buddies of equal order |
| `BuddyTree.ReleaseUsed` | heap/os/memory.c:391-430 | a release takes out exactly the freed block and no other |
| `BuddyTree.UncheckedLoses` | heap/os/memory.c:399-407 | when the right branch merges with a split buddy that begins with a free block, some other outstanding block is lost |
| `BuddyArray.RepDetermines` | heap/os/memory.c:295-331 | the tree of blocks determines all 128 entries |
| `BuddyArray.OutstandingIsUsed` | heap/os/memory.c:290-292 | the used heads met on the walk over the array are the outstanding blocks of the tree |
| `BuddyArray.ShrinkClimbs` | heap/os/memory.c:391-430 | the recursion over the array climbs the tree: its result is the array of the tree after Release, and it stops because the order grows to at most 7 |
| `BuddyArray.UncheckedIsChecked` | heap/os/memory.c:399-407 | without a mixed merge ahead the committed recursion writes the same array as the one with the equal-order test |
| `BuddyArray.CommittedReleaseIsSoundIff` | heap/os/memory.c:391-450 | on any array, stale entries or not, the committed free of a block removes exactly that block if and only if no mixed merge lies ahead, a condition read off the array before the call |
| `BuddyReuse.ShrunkAtSummit` | heap/os/memory.c:391-430 | the recursion merges up to one place and leaves a free head of its order there; nothing outside the block it ends in changes |
| `BuddyReuse.CheckedStaleFreeIsHarmless` | heap/os/memory.c:432-450 | with the equal-order test, freeing a used entry that an earlier owner left inside a block changes no block, free or used |
| `BuddyReuse.CommittedStaleFreeIff` | heap/os/memory.c:432-450 | the committed code does so if and only if its merges do not end at a block head that then loses its order |
| `BuddyReuse.FreeIsSoundIff` | heap/os/memory.c:432-450 | for every entry with its used bit set: with the test the block that starts there, if one does, is released and nothing else; the committed code does that if and only if the merges ahead, read off the array, do no damage |
| `BuddyRuns.StepIsSafe` | heap/os/memory.c:366-450 | one call, or one change of owner, changes what clients hold exactly as its reply says and keeps the heap free of buddy pairs |
| `BuddyRuns.RunIsSafe` | heap/os/memory.c:295-450 | over every run of malloc and mfree with any arguments, through any number of owners of the control block, heads tile 128 units, and held blocks are aligned to their size, inside the page and pairwise disjoint |
| `BuddyRuns.HistoryIsForgotten` | heap/os/memory.c:366-450 | the block heads in the array depend only on the blocks held, not on the calls or owners that led there; so do all 128 entries while no earlier owner has left anything |
| `BuddyRuns.AllFreedIsWhole` | heap/os/memory.c:391-450 | once everything is given back, in any order, the heap is one free block of order 7 again |
| `BuddyRuns.MallocFailsIff` | heap/os/memory.c:366-389 | malloc answers 0 exactly when the size is out of range or no free block is large enough |
| `BuddyRuns.FreeUndoesMalloc` | heap/os/memory.c:366-450 | freeing what was just allocated restores the blocks |
| `BuddyRuns.MallocThenMfree` | heap/os/memory.c:366-450 | on the array of a first owner the corrected mfree of what malloc has just returned restores all 128 entries, and the committed one does so if and only if no mixed merge lies ahead in the array between the calls |
| `BuddyRuns.CommittedPairLosesABlock` | heap/os/memory.c:399-407 | a run of three calls after which malloc followed at once by the committed mfree makes the page whole while another block is held |
| `BuddyRuns.ReplyIsLawfulIff` | heap/os/memory.c:432-442 | the reply of mfree is the one the blocks call for if and only if the address does not hit, on the heap page, a used entry that an earlier owner left inside a block |
| `BuddyRuns.Perform` | heap/os/memory.c:366-450 | the array routines carry out any list of calls and changes of owner from any array earlier owners may have left: the corrected code all of it, the committed code up to the first free that would do damage; the array encodes the blocks of the run after every event |
| `BuddyRuns.CommittedFreeLosesABlock` | heap/os/memory.c:399-407 | a run of four calls after which the committed mfree of one block makes the whole page free while another block is still held |
| `BuddyRuns.CommittedFreeOfStaleEntry` | heap/os/process.c:441-444 | a run that reaches a stale entry: an owner exits with three blocks, and the committed mfree of the next owner, before any malloc, takes the page apart; the corrected one leaves it whole |
| `BuddyRuns.FreeStaleEntry` | heap/os/process.c:441-444 | the same on the array routines: afterwards a block of the former owner counts as held, with the corrected code none does |
| `Queues.LinkPool.constructor` | heap/os/queue.c:13-15 | the static storage: 400 different detached links, no live queue |
| `Queues.LinkPool.Init` | heap/os/queue.c:61-67 | a queue is set up empty; setting up a live queue that holds links is left to the caller to avoid |
| `Queues.LinkPool.ModuleInit` | heap/os/queue.c:37-56 | afterwards the free list holds all links of the pool in order |
| `Queues.LinkPool.AllocLink` | heap/os/queue.c:84-119 | the first free link, detached and carrying the object, or null when none is left; no other queue changes |
| `Queues.LinkPool.Remove` | heap/os/queue.c:125-152 | the link leaves its queue, whichever it is on, and joins the end of the free list; the caller's pointer becomes null; a detached link is refused |
| `Queues.LinkPool.InsertAfter` | heap/os/queue.c:167-203 | the link comes to stand right after the given one, or alone on an empty queue; success exactly when the place exists; every other queue and link is untouched |
| `Queues.LinkPool.InsertBefore` | heap/os/queue.c:208-244 | the same right before the given link |
| `Queues.LinkPool.MoveAfter` | heap/os/queue.c:249-284 | the link is taken out and put back after the given one; refused exactly when CanMove says so (the last link is never moved) |
| `Queues.LinkPool.InsertFirst` | heap/os/queue.c:289-293 | prepends |
| `Queues.LinkPool.InsertLast` | heap/os/queue.c:298-302 | appends |
| `Queues.LinkPool.EveryLinkHasOnePlace` | heap/os/queue.c:84-302 | the links are partitioned: each is detached and on no queue, or at one place of the one queue it names |
| `Queues.MovingFirstAfterLastRotates` | heap/os/process.c:217-219 | moving the first link after the last turns the queue round by one |
| `ProcessLinks.ControlBlocks.ProcessModuleInit` | heap/os/process.c:67-103 | every control block gets a link of the pool on the free queue, which then lists the processes in the boot order |
| `ProcessLinks.ControlBlocks.Detach` | heap/os/queue.c:125-152 | removing a process's own link takes that process, and nothing else, out of whichever of the four queues held it; the queues of waiting processes keep what they hold |
| `ProcessLinks.ControlBlocks.Attach` | heap/os/queue.c:84-119 | allocating a link for a process and inserting it puts the process at the chosen end of the chosen queue and changes no other |
| `ProcessLinks.ControlBlocks.ProcessSuspend` | heap/os/process.c:255-273 | the links of the four queues, and the control blocks, follow Suspend of KernelState |
| `ProcessLinks.ControlBlocks.ProcessWakeup` | heap/os/process.c:288-305 | they follow Wakeup |
| `ProcessLinks.ControlBlocks.ProcessDestroy` | heap/os/process.c:322-338 | they follow Destroy |
| `ProcessLinks.ControlBlocks.ProcessFork` | heap/os/process.c:395-606 | they follow Fork, also when the program cannot be read |
| `ProcessLinks.ControlBlocks.TurnRunQueue` | heap/os/process.c:217-219 | moving the first link after the last turns the list of runnable processes round by one |
| `ProcessLinks.ControlBlocks.DrainZombies` | heap/os/process.c:229-239 | the loop that empties the zombie queue ends and follows Drained |
| `ProcessLinks.ControlBlocks.ProcessSchedule` | heap/os/process.c:191-242 | the links follow Schedule, and the process read off the first link is the one it makes current |
| `ProcessLinks.ControlBlocks.Open` | heap/os/queue.c:61-67 | setting up the queue of a new semaphore, lock or condition adds an empty live queue and disturbs no other |
| `ProcessLinks.ControlBlocks.Join` | heap/os/synch.c:105-114 | a link carrying the process goes to the end of that one queue of waiting processes; the four process queues and all other waiting queues keep what they hold |
| `ProcessLinks.ControlBlocks.Leave` | heap/os/synch.c:152-159 | the first link comes off and goes back to the free list; the answer is the process that has waited longest |
| `KernelInvariant.SuspendMoves` | heap/os/process.c:255-273 | the suspended process is last on the wait queue and on no other; queues and status bits still match |
| `KernelInvariant.WakeupMoves` | heap/os/process.c:288-305 | the woken process is last in line to run and off the wait queue; queues and status bits still match |
| `KernelInvariant.DestroyMoves` | heap/os/process.c:322-338 | a destroyed process is a zombie on the zombie queue only; queues and status bits still match |
| `KernelInvariant.DrainMoves` | heap/os/process.c:125-151 | however many zombies there are, all of them and nobody else become free, in order, and no zombie is left |
| `KernelInvariant.ForkMoves` | heap/os/process.c:395-606 | a new process takes the first free control block and is last in line to run; queues and status bits still match |
| `Kernel.Kernel.Initialise` | heap/os/process.c:67-103 | the initialisation of both modules and the first fork bring the links to the boot state |
| `Kernel.Kernel.SemCreate` | heap/os/synch.c:66-83 | the scan takes the first semaphore not in use, or fails; its queue of links is set up empty |
| `Kernel.Kernel.SemSignal` | heap/os/synch.c:141-168 | raising the count, taking the first link off the queue and lowering the count again comes to SemSignal of the value |
| `Kernel.Kernel.LockCreate` | heap/os/synch.c:200-227 | the same scan for a lock |
| `Kernel.Kernel.CondCreate` | heap/os/synch.c:343-363 | the scan for a condition variable, with its mixed table sizes |
| `Kernel.Kernel.CondBroadcast` | heap/os/synch.c:513-530 | the loop of CondBroadcast over the links of the queue ends and is CondBroadcast of the value |
| `Kernel.Kernel.LinksAreInOrder` | heap/os/queue.c:13-15 | in every reachable state of the machine of links: each process's own link hangs on the queue its status names, a process asleep inside a trap hangs by a second link on the one queue it sleeps on and nobody else on any; of the 400 links exactly one for each process and one for each of these sleepers are in use, so AQueueAllocLink never fails |
| `Kernel.Kernel.PerformTraps` | heap/os/traps.c:332-549 | any list of traps on the links leads where the run of KernelState leads and keeps the invariant; reply i is what the run of the first i + 1 traps returns; for a call that may sleep that is nothing while the caller sleeps, and otherwise 1 if its handle is good and it owns the lock, where there is one, and -1 if not |
| `Kernel.RunFromBoot` | heap/os/traps.c:332-549 | the same from initialisation on |
| `KernelRuns.BootIsSound` | heap/os/process.c:67-103 | the invariant holds at boot |
| `KernelRuns.StepKeeps` | heap/os/traps.c:332-549 | every atomic step keeps it: queues match status bits, processes asleep inside a trap sit on the one queue they sleep on, locks and semaphores are in order, links add up |
| `KernelRuns.RunKeeps` | heap/os/traps.c:332-549 | so does every run |
| `KernelProtocols.EveryProcessHasItsPlace` | heap/os/process.c:67-338 | over every run each process is on exactly the queue its status names; a waiting process is on exactly one waiting queue if and only if it sleeps inside a trap, and nobody else is on any; no queue holds a process twice; one link per process and one per such sleeper are in use; no ASSERT fails; the current process heads the run queue |
| `KernelProtocols.WaitsNowhereIff` | heap/os/traps.c:364-369 | over every run from boot the processes that wait on no waiting queue are exactly those that took the sleep trap from user code |
| `KernelProtocols.DozersAre` | heap/os/traps.c:364-369 | between any two points of a run the set of such processes grows by those that take that trap and never shrinks |
| `KernelProtocols.NeverWoken` | heap/os/traps.c:364-369 | so a process asleep in this way is never woken, whatever anyone does |
| `KernelConditions.SleepTrapLosesAProcess` | heap/os/traps.c:364-369 | a run of five traps from boot that gets there: one process waits nowhere while two others run on |
| `KernelProtocols.LocksAreInOrder` | heap/os/synch.c:239-320 | over every run a free lock has no waiters and an owner never waits for its own lock |
| `KernelProtocols.SuccessMeansOwner` | heap/os/synch.c:239-274 | LockAcquire and CondWait return success only to the process that then owns the lock, however long it slept; the converse is WaitsAreAnswered |
| `KernelProtocols.OnlyTheOwnerLetsGo` | heap/os/synch.c:239-320 | mutual exclusion: over any run in which the owner does not run the lock stays with it and nobody who waits is served, even when the owner has exited |
| `KernelProtocols.UnmadeLocksServeNobody` | heap/os/synch.c:32-33 | over every run a lock that was never created has no waiters and no owner but process 0, at most process 0 waits for a condition on it, and while anyone passes for the owner no signal wakes anyone |
| `KernelProtocols.LockIsFirstComeFirstServed` | heap/os/synch.c:239-320 | over every run the processes given a lock are, in order, those who asked for it, and the rest are the waiting queue |
| `KernelProtocols.SemaphoreClosedForm` | heap/os/synch.c:97-168 | over every run: grants = min(waits, max(0, initial + signals)), count = initial + signals - grants, grants in order of arrival, waiters only at count <= 0 |
| `KernelReplies.WaitsAreAnswered` | heap/os/synch.c:239-274 | in any state of any run a step in SemWait, LockAcquire or CondWait, taken at once or after a sleep, either puts the caller to sleep and tells it nothing, or tells it 1 if and only if the handle is good and, for a lock or a condition, it owns the lock then, else -1 |
| `KernelReplies.AcquireAnswers` | heap/os/synch.c:260-273 | LockAcquire answers 1 when it does not wait, whether for the trap or for a CondWait that takes the lock back, and otherwise puts the caller to sleep in the call it came from |
| `KernelReplies.EveryWaitServedIsToldOnce` | heap/os/synch.c:97-168 | over every run from boot, for every semaphore and process: the process has been told of success once for each time it was served, those it slept for included, but for one still to come while it has been woken and has not run yet |
| `KernelReplies.NewHandles` | heap/os/synch.c:66-83 | SemCreate and LockCreate answer the least entry that was idle, now made and with nobody waiting, the lock free; or -1 with nothing changed exactly when all are in use |
| `KernelReplies.SignalsAreAnswered` | heap/os/synch.c:276-320 | SemSignal answers 1 for a good handle, LockRelease, CondSignal and the trap for broadcast 1 for a good handle when the caller owns the lock; all others -1 |
| `KernelReplies.OtherCallsReturn` | heap/os/traps.c:332-549 | every other trap answers its own caller in the same step or, for yield, exit, create and sleep, nobody |
| `KernelConditions.WaiterIsQueuedBeforeTheLockIsFree` | heap/os/synch.c:415-427 | when CondWait gives up the lock the caller is already on the condition queue, and the next waiter of the lock owns it |
| `KernelConditions.SignalWakesTheFirst` | heap/os/synch.c:461-489 | a signal by the lock's owner makes the longest waiter runnable, last in line, and takes no other off the queue |
| `KernelConditions.NoWakeupIsLost` | heap/os/synch.c:398-489 | over every run the processes woken are a prefix of those who waited, and the rest still wait: nobody is lost or overtaken |
| `KernelConditions.BroadcastWakesEveryone` | heap/os/synch.c:513-530 | a broadcast empties the queue, makes every waiter runnable in order of arrival and leaves the lock with the caller |
| `KernelConditions.BroadcastKeeps` | heap/os/synch.c:513-530 | a broadcast keeps the kernel invariant |
| `KernelConditions.BroadcastTrapFallsShortIff` | heap/os/synch.c:531-536 | the trap for broadcast, which calls CondSignal, does what CondBroadcast does if and only if at most one process waits |
| `KernelConditions.BroadcastTrapForgetsAWaiter` | heap/os/synch.c:531-536 | a run from boot of nine traps that reaches two waiters and the owner of the lock; the trap wakes one, CondBroadcast both |
| `KernelConditions.CondHandleIsGoodIff` | heap/os/synch.c:343-363 | what CondCreate returns can be used if and only if the lock is not negative and one of the first 32 entries is idle; it reports failure only with exactly these taken; a good handle names the first idle entry, now made for that lock with nobody waiting |
| `KernelConditions.CondCreateFailsAsDocumentedIff` | heap/os/synch.c:338-363 | it fails on an invalid lock or a full table, as documented, exactly under the stated condition |
| `KernelConditions.CondHandleThatNobodyTakes` | heap/os/synch.c:343-363 | a run from boot after which handle 33 is returned as a success and refused by every trap |
| `KernelConditions.ZeroWaitsOnUnmadeLock` | heap/os/synch.c:343-363 | a run from boot in which process 0 passes for the owner of a lock that nobody created and waits for its condition |
| `KernelFairness.StepGoesOn` | heap/os/process.c:191-242 | a step stops the machine exactly when nothing is left to run, no control block is free or the trap is unknown; otherwise the run queue loses at most its head and newcomers join behind, and which processes are free and which sleep outside a trap changes only as the trap says |
| `KernelFairness.PlaceInLine` | heap/os/process.c:191-242 | a runnable process moves up by exactly one place at each reschedule, whatever forks, sleeps, exits and wakeups occur |
| `KernelFairness.EveryoneGetsATurn` | heap/os/process.c:191-242 | so the process k places from the head runs after exactly k reschedules |
| `Frames.FrameMap.ModuleInit` | heap/os/memory.c:57-83 | at start-up exactly the frames up to the last page of the operating system are marked, given zeroed storage; in general one word keeps its old bits |
| `Frames.FrameMap.FindFreePage` | heap/os/memory.c:222-236 | the least free frame, whose bit and no other is flipped |
| `Frames.FrameMap.AllocUserPage` | heap/os/memory.c:238-242 | an entry with the least free frame and the valid bit; the mask applied to the address has no effect |
| `Frames.FrameMap.AllocSysPage` | heap/os/memory.c:244-248 | the address of the least free frame |
| `Frames.FrameMap.FreePage` | heap/os/memory.c:255-262 | clears the bit of the entry's frame only |
| `Frames.MarkAdds` | heap/os/memory.c:226-230 | marking a frame is insertion into the set of used frames |
| `Frames.ClearRemoves` | heap/os/memory.c:255-262 | clearing is removal from it |
| `Frames.SetDeterminesMap` | heap/os/memory.c:16-17 | the bitmap holds nothing but that set |
| `Frames.AllOnesIff` | heap/os/memory.c:226-226 | the shortcut that skips a word skips it exactly when all its frames are in use |
| `Frames.OrBits` | simulator_source/dlxsim.cc:2031-2034 | or-ing marks into an entry sets exactly the bits of the marks beside those that were set, whether or not they overlap |
| `Frames.OrKeepsAbove` | simulator_source/dlxsim.cc:2031-2034 | marks of k bits leave what lies above them and keep an entry valid |
| `Frames.FreeUndoesAllocate` | heap/os/memory.c:222-262 | freeing an entry restores the bitmap exactly, whatever flag bits it has collected |
| `AddressSpaces.FirstFreeIsFree` | heap/os/memory.c:222-236 | while a frame is spare the search finds the least one and uses one up |
| `AddressSpaces.MapPagesTakes` | heap/os/process.c:432-442 | the pages of a new process name frames that were free, each its own, in entries whose only flag is the valid bit, and nothing else changes |
| `AddressSpaces.ClearFromRemoves` | heap/os/process.c:144-148 | the loop at a process's end frees exactly the frames its table names |
| `AddressSpaces.MemoryManager.constructor` | heap/os/memory.c:57-83 | the memory at start-up |
| `AddressSpaces.MemoryManager.ForkMemory` | heap/os/process.c:432-442 | the memory after a fork is Forked: eight frames taken, the seven pages entered with the valid bit and no other flag; ForkTakesInOrder and NewPagesTranslate say what that means |
| `AddressSpaces.ForkTakesInOrder` | heap/os/process.c:432-442 | the frames a fork takes ascend from the least free one in the order system stack, user stack, five pages of code and data, heap |
| `AddressSpaces.MemoryManager.FreeResources` | heap/os/process.c:144-148 | the loop over the page table is Freed on the value; the table is left as it is |
| `AddressSpaces.StepKeeps` | heap/os/process.c:125-151 | forks, endings and marks set by the processor keep every frame with exactly one owner, and exactly the seven pages of every live process mapped and valid |
| `AddressSpaces.AddressSpacesAreIsolated` | heap/os/process.c:432-442 | over every run no frame occurs twice in the tables of live processes, and each is marked used, lies above the operating system and is no system stack |
| `AddressSpaces.FramesAreConserved` | heap/os/process.c:125-151 | over every run the frames in use number those of the operating system, seven per live process, and one for every fork ever made, because system stacks are never freed |
| `AddressSpaces.ForksAreBounded` | heap/os/process.c:432-433 | hence no run has more forks than frames beyond the operating system, however promptly processes end |
| `Translation.Cpu.VaddrToPaddr` | simulator_source/dlxsim.cc:1949-2058 | the walk as it updates registers and entries: its answer is Walk, it raises the exception of Walk with the faulting page, and it changes memory only by or-ing the marks into the entry it used |
| `Translation.WalkOfOneLevel` | simulator_source/dlxsim.cc:1968-2045 | for any page size and any table whose entry i is the word at (base + 4 * i) mod 2^32, the walk is a lookup of the page number in that table, with the offset kept |
| `Translation.WalkOfTwoLevels` | simulator_source/dlxsim.cc:1986-1999 | with a second level, each table at the address the first-level word gives and its entry j at 4 * j bytes behind, the walk is a lookup in the second-level tables put one behind the other; a zero word stands for a table without a valid entry |
| `Translation.WalkIsLookup` | simulator_source/dlxsim.cc:1968-2045 | for any meaningful registers the walk equals one lookup at the page number in a flat table |
| `Translation.TranslationsAgree` | simulator_source/dlxsim.cc:1968-2045 | with the registers a fork sets and the table in memory word by word: exception for a misaligned address, for one from 2^20 on, and for an invalid entry, each exactly then; otherwise the same physical address as the kernel |
| `Translation.KernelAddress` | heap/os/memory.c:94-105 | the kernel's translation keeps the offset and replaces the page by its frame |
| `Translation.KernelAcceptsMore` | heap/os/memory.c:94-105 | where it differs from the processor: it wraps addresses, and gives zero only for the first byte of an unmapped page |
| `Translation.ForkRegistersMean` | heap/os/process.c:475-477 | the registers set at a fork describe a one-level table of 4 KB pages |
| `Translation.NewPagesTranslate` | heap/os/memory.c:238-242 | after a fork the processor translates every aligned address of the seven pages of the new process, to frames that were free before |
| `Translation.LivePagesTranslate` | heap/os/process.c:432-442 | over every run a live process reaches exactly the aligned addresses below 0x6000 and of the last page |
| `Translation.FlagsStayFit` | simulator_source/dlxsim.cc:2020-2038 | over every run with marks in the low three bits, entries hold nothing else below the page offset, which is what the agreement of processor and kernel asks |
| `Translation.ProcessesShareNoMemory` | simulator_source/dlxsim.cc:1968-2045 | over every run of forks and endings the processor's translation is injective on pairs of process and address |
| `Copy.PhysicalMemory.Bcopy` | heap/os/misc.c:245-250 | copies forward, byte by byte |
| `Copy.PhysicalMemory.MoveBetweenSpaces` | heap/os/memory.c:127-172 | the page-by-page copy equals copying byte by byte with each byte translated on its own, in every case, and returns the number of bytes up to the first stop |
| `Copy.MovesEveryByte` | heap/os/memory.c:127-172 | with distinct places apart from the source, exactly byte i goes to the translation of byte i and nothing else changes |
| `Copy.EveryByteArrives` | heap/os/memory.c:127-172 | byte i of the kernel buffer comes to lie at the translation of user address i, or the other way, as the direction says |
| `Copy.RoundTrip` | heap/os/memory.c:182-188 | system to user and back into any kernel buffer: that buffer then holds the bytes sent |
| `Copy.RoundTripInPlace` | heap/os/memory.c:182-188 | back into the same buffer it changes nothing |
| `Copy.StopsAtFirstUnmappedIff` | heap/os/memory.c:121-124 | the copy stops at the first unmapped address, as documented, if and only if there is nothing to copy, the first page is mapped, or the buffer starts a page |
| `Copy.OrdinaryMoveIsExact` | heap/os/memory.c:127-172 | in every reachable state a move between kernel memory and the mapped pages of a live process is of that kind and copies everything |
| `Contexts.Computer.IntrHandler` | heap/os/dlxos.s:48-174 | storing and linking a frame is Handled on the machine: r29 and the saved-frame pointer are 85 words below where the stack stood, with cause, iar, isr and the interrupted r29 there; StoredFrame and HandlerStarts say what the rest means |
| `Contexts.Computer.IntrReturn` | heap/os/dlxos.s:189-286 | loading a frame, unlinking it and rfe are Returned on the machine |
| `Contexts.HandlerStatus` | simulator_source/dlxsim.cc:1926-1930 | the handler runs in system mode with all levels masked; every other status bit is kept |
| `ContextRuns.StoredFrame` | heap/os/dlxos.s:82-147 | the stored words are the interrupted context, and word 10 the previous frame |
| `ContextRuns.HandlerStarts` | heap/os/dlxos.s:71-168 | after any allowed trap the processor is at the vector in system mode with all levels masked, r29 is the saved frame, 85 words below where the stack stood, its first four words are cause, interrupted pc, status and stack pointer, nothing outside it is written, and a further trap is allowed if and only if the stack has room for one more frame |
| `ContextRuns.NextKeeps` | heap/os/dlxos.s:48-286 | traps, returns, switches, results, forks and ends keep the frames of every process a stack in its own area, linked through word 10 |
| `ContextRuns.ReturnResumes` | heap/os/dlxos.s:189-286 | a return loads exactly the innermost saved context of the current process |
| `ContextRuns.FrameIsKept` | heap/os/dlxos.s:48-286 | a saved context stays as it is over any run that does not return to it, but for r1 |
| `ContextRuns.FirstProcess` | heap/os/process.c:448-477 | the frame laid out by the first fork is such a stack, ready to be returned to |
| `ContextRuns.ContextIsTransparent` | heap/os/dlxos.s:48-286 | for any nesting of traps and any processes in between, a resumed process has the registers, floating-point registers, status, special and page-table registers it was interrupted with, but for r1 when a result was set |
| `WholeSystem.MemoryFollows` | heap/os/process.c:432-442 | the forks, failed forks and exits of a kernel step are events that the theory of address spaces allows, and afterwards exactly the control blocks in use have pages |
| `WholeSystem.NewStackIsApart` | heap/os/process.c:432-449 | the frame a fork gets for its system stack lies apart from those of all processes, as the theory of contexts asks |
| `WholeSystem.ContextsFollow` | heap/os/process.c:191-242 | the switches, creations and endings of a kernel step are events that the theory of contexts allows: whoever is scheduled has a saved context |
| `WholeSystem.TrapEntersHandler` | heap/os/dlxos.s:48-174 | a trap from anywhere leaves the processor in the state that a kernel step starts from |
| `WholeSystem.KernelStepKeeps` | heap/os/traps.c:332-549 | one kernel step keeps scheduler, memory and contexts in agreement on who is there, who runs and where each stack is |
| `WholeSystem.PagesHoldNoContexts` | simulator_source/dlxsim.cc:1968-2045 | code that writes only page frames of processes, as user programs must, changes no saved context of any process |
| `WholeSystem.ProcessesAreSeparate` | heap/os/process.c:432-449 | over every run of the whole from boot: no two processes share a page or a word of system stack, and no page lies in any system stack |
| `WholeSystem.FramesLast` | heap/os/process.c:432-442 | over every run, a fork that finds a control block finds its eight frames while the forks so far leave room for a process in every control block |
| `Digits.Ditoa` | heap/os/misc.c:155-174 | for every number on which it ends: decimal digits below 10^9, nine other characters above, of a negative number only the sign; no division is by zero; below 10^9 the result is the numeral of the number without leading zeros |
| `Digits.PrintingEndsIff` | heap/os/misc.c:164-166 | the loop that scales by ten in 32 bits ends exactly for numbers below 1874919424 |
| `Digits.PlacesAddUp` | heap/os/misc.c:167-171 | also for the other characters: each times its tenth of the scale, they add up to the number |
| `Digits.Dstrtol` | heap/os/misc.c:177-236 | skips blanks, takes a sign and a base prefix, and reads the longest run of digits of the base, or fails as the code does; the value is that number cut to 32 bits, with the position behind it |
| `Digits.NumeralsAreRead` | heap/os/misc.c:177-236 | for every number, written in base 2 to 16 in letters of either case with or without leading zeros, behind any blanks, an optional minus sign and the prefix of its base, and before anything that is no digit: the value read is that number, negated behind the sign, and the position is behind its last digit |
| `Digits.NoSuchBase` | heap/os/misc.c:212-214 | a radix below 0 or above 16 reads nothing and leaves the position behind the blanks |
| `Digits.PrintedReadsBackIff` | heap/os/misc.c:155-236 | reading back what was printed gives the number if and only if it is not negative and below 10^9 |
| `Arguments.CopyArgument` | heap/os/traps.c:118-132 | copies one string and its end, and fails when that fills the buffer |
| `Arguments.Pack` | heap/os/traps.c:111-141 | packs name and arguments, or exits, exactly when the name is too long, there are more than nine arguments, or the strings do not fit in 255 bytes |
| `Arguments.StringAt` | heap/os/traps.c:111-132 | string k and its end stand at its start offset in the buffer |
| `Arguments.ArgumentParser.GetArgument` | heap/os/process.c:952-974 | answers the start of the string it stands before and moves to the next, or 0 at the end or at an empty string |
| `Arguments.UserParameters` | heap/os/process.c:526-555 | the parameter block of a new process: argc, argv, and the address of every string found, then a null word, which may fall behind the array |
| `Arguments.FoundIsAllIff` | heap/os/process.c:526-543 | every string is found if and only if none is empty or there is only one |
| `Arguments.NullWordFallsOutsideIff` | heap/os/process.c:533-540 | of what the packing trap accepts, the null word falls behind the array of twelve words if and only if there are ten strings and none is empty |
| `Arguments.TenStringsOverrun` | heap/os/traps.c:111-141 | ten one-letter strings are accepted and overrun it |

## Left out

- Copy-on-write fork (`fork/`) and page faults: the committed handler adds pages without a check and goes on after it has killed the process, so it does not keep the invariants proved here.
- WholeSystem.KernelStep: loading a program into the pages of a new process counts as code that writes pages; the frame that a failed fork begins to lay out in a stack nobody uses is not followed.
- Running out of frames: `findFreePage` then returns no value, so a fork is modelled while eight frames are free.
- Kernel.Kernel.CondCreate: lock handles from 64 on, which the code takes unchecked and which point behind the table of locks, are excluded; runs (`Allowed`) also leave out a table with all 64 entries marked, where the code writes behind it.
- Digits.Ditoa: numbers from 1874919424 on are excluded, because the routine does not end on them (`PrintingEndsIff`).
- Contexts.Computer.IntrHandler: consecutive stores of registers are one parallel assignment, and the jump into and out of C code is not modelled.
- Translation.Cpu.VaddrToPaddr: the optional exception on writes to read-only pages (`USE_ROP`) is not modelled; `dlxsim.h` is not part of this model, so the flag bits below the page offset are taken to be what is masked off, and the flags a reference leaves are a parameter.
- Copy.PhysicalMemory.MoveBetweenSpaces: the page table is taken to lie outside the memory being written.
- Interrupt-level bookkeeping inside the kernel, timers, keyboard, file system, program loading, printing and tracing.
- Arithmetic, floating-point and halfword instructions of the simulator.
- Kernel processes started with `isUser` 0, of which the system has none.
