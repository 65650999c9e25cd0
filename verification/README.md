# UTK kernel: verified models

UTK is a small i386 kernel. This project models its components that carry real
algorithms and proves what they promise:

- **64-bit division** (`Digits.dfy`, `Div64.dfy`): Algorithm D (TAOCP volume 2,
  section 4.3.1) on 16-bit digits held in arrays and updated in place, with the
  wrap-around borrow arithmetic written out, and the shift-and-subtract routine.
- **Mutex and semaphore over a futex** (`Futex.dfy`, `Mutex.dfy`,
  `Semaphore.dfy`): the kernel's wait queue is a class; the two user-level
  protocols are state machines in which every atomic memory operation, every
  stretch of code under the spinlock and every futex call is one step, run by
  any number of threads in any order. The theorems are about every run.
- **Kernel heap** (`HeapLayout.dfy`, `IntrusiveList.dfy`, `HeapShape.dfy`, `HeapSpec.dfy`,
  `HeapFacts.dfy`, `KHeap.dfy`): memory is a map from word addresses to words,
  and the lists live inside it. The class `KHeap.Heap` performs the same reads
  and writes as the C code; its methods are proved against an abstract tiling
  of the heap into blocks (`HeapSpec`), about which the rest is proved.
- **Scheduler** (`KQueue.dfy`, `Scheduler.dfy`): the doubly linked kernel queue
  as node objects refining a sequence, and the scheduler's ready and sleep
  queues, election and thread transitions over such sequences.
- **Hash table** (`HashTable.dfy`): open addressing with tombstones and a
  doubling rehash, refining a finite map.
- **USTAR write** (`Ustar.dfy`) and **substring search** (`Memmem.dfy`).

`dafny verify dfyconfig.toml` checks everything.

## What the proofs found

Where the code does not do what its documentation says, or does so only under a
condition, the model follows the code, the condition is proved exact, and a run
from the initial state shows the failure:

- `mutex_unlock` and `sem_post` release correctly, but return a futex error
  exactly when the word has no wait queue at their wake, which during the first
  2^32 - 1 parks means that no thread ever parked on it (`Mutex.UnlockReturn`,
  `Mutex.UnlockCanReportError`; `Semaphore.PostReturn`,
  `Semaphore.PostCanReportError`).
- The size of a futex queue only ever grows, in 32 bits. A wake deletes the
  queue exactly when it releases somebody while the number of waits is a
  multiple of 2^32, and panics if somebody else is still parked then
  (`Futex.WaitQueue.Wake`). That is the only deadlock of the mutex and of the
  semaphore: a state can be driven to rest exactly when it is not doomed to this
  panic, and which states are doomed is told from where the threads stand
  (`Mutex.CanDrain`, `Semaphore.CanSettle`). Doomed states are reached
  (`Mutex.CanBeDoomed`, `Semaphore.CanBeDoomed`).
- `mem_free` drifts by 12 bytes per join; the value of `kheap_get_free` is right
  exactly when the number of joins is a multiple of 2^30
  (`KHeap.FreeCounterDrifts`). One allocation and its free already make it wrong
  (`KHeap.Drifted`).
- `kmalloc` rounds in 32 bits: the rounded size covers the request exactly up to
  0xFFFFFFFC, and a larger request is rounded to 8 bytes
  (`HeapFacts.RoundedCovers`) and served with them (`KHeap.ShortBlock`).
- The sleep queue is sorted by the low 32 bits of the wake time. A select wakes
  all due threads at every time exactly when the queue lies in the order of the
  full wake times (`Scheduler.WakesAllIffInOrder`), which holds while the wake
  times agree above bit 31. Two sleeps across a wrap of the key leave a due
  thread asleep (`Scheduler.SleepsOn`).
- A priority change keeps every thread in its queue exactly when the caller is
  not itself queued under another priority (`Scheduler.SetPriorityOk`). The idle
  thread before the first select is (`Scheduler.Misplaced`).
- The push of `sched_unlock_thread`, whose test lies in front of its critical
  section, is right exactly when the thread is in no queue by then
  (`Scheduler.LateUnlock`); two unlocks that both test first queue a thread twice
  (`Scheduler.UnlockedTwice`). The futex calls it inside a critical section.
- Setting a present key of the hash table is an update exactly when no tombstone
  lies before its entry, and otherwise stores the key twice
  (`HashTable.SetPresent`). Every hash function has two keys for which this
  happens (`HashTable.Clash`, `HashTable.Twice`).
- A reused tombstone is missing from `size` for good. A table without a NULL
  slot passes the load check exactly while the reuses, modulo 2^32, are between
  three tenths and all of its slots (`HashTable.FullUnnoticed`). With any hash
  function such a table is reached (`HashTable.FillUp`), and there a lookup of an
  absent key never stops (`HashTable.NeverFinds`). With more reuses than slots in
  use the sum of the load check wraps and each set doubles the table
  (`HashTable.WrapFires`), up to 2^29 slots. There the byte size of the next array
  wraps to 0 and every set fails (`HashTable.Runaway`): setting a key, and removing
  and setting it again twice, is enough to start this.
- A rehash with growth 1 always refuses, so past the graveyard threshold
  `uhashtable_remove` fails and changes nothing (`HashTable.Table.Remove`); five
  removals from six keys suffice (`HashTable.Refusing`).
- A block address is right exactly when the block number lies below 2^23 and the
  device block it falls into below 2^32 (`Ustar.AddressExact`); otherwise the
  address lies in front of the block (`Ustar.AddressWraps`, `Ustar.BlockWraps`).
- The RAM disk driver tests its bounds on 32-bit addresses. For an access that
  starts on the disk the test is right exactly when the end address does not wrap
  (`Ustar.DriverExact`). It adds block numbers as byte numbers, which is right
  exactly for device blocks of one byte (`Ustar.UnitBlocks`).
- `ustar_write_file` cuts a request at the end of the file exactly when cursor
  plus size does not wrap (`Ustar.ClampExact`). A request that wraps, made with the
  cursor on the disk, writes the rest of the block its cursor stands inside of,
  past the end of the file; then the driver accepts the rest, and the copy leaves
  the disk (`Ustar.WrapRunsPast`, `Ustar.RunPast`). The new modification date never
  reaches the device.

## Model

| member | source | states |
|---|---|---|
| Div64.TrialDigit | Kernel/Sources/lib/libc/src/div64.c:240-257 | the trial digit of D3 is the largest that the two leading divisor digits and three leading dividend digits allow, reached in at most two corrections for a normalised divisor |
| Div64.TrialTight | Kernel/Sources/lib/libc/src/div64.c:216-257 | for any window and divisor with a normalised leading digit, the trial digit is the true quotient digit or exactly one more |
| Div64.MulSub | Kernel/Sources/lib/libc/src/div64.c:264-270 | D4 in place: the window loses the trial digit times the divisor, modulo B^(n+1), the surplus being reported as the borrow |
| Div64.BorrowMeaning | Kernel/Sources/lib/libc/src/div64.c:271-277 | the borrow appears exactly when the trial digit was one too large, and one add-back then gives the exact remainder |
| Div64.AddBack | Kernel/Sources/lib/libc/src/div64.c:279-284 | D6 in place: the window gains the divisor, the carry out of its top digit dropped |
| Div64.DivideStep | Kernel/Sources/lib/libc/src/div64.c:240-286 | D3 to D6: old window equals digit times divisor plus new window, and the new window is below the divisor |
| Div64.Shl | Kernel/Sources/lib/libc/src/div64.c:316-325 | the digit string is multiplied by a power of two in place, other digits unchanged |
| Div64.Unshift | Kernel/Sources/lib/libc/src/div64.c:294-300 | the remainder is divided exactly by the normalising power of two |
| Div64.Normalise | Kernel/Sources/lib/libc/src/div64.c:216-222 | both operands are scaled by the same power of two, the divisor's leading digit reaches B/2, and the first window is below the divisor |
| Div64.DivideDigits | Kernel/Sources/lib/libc/src/div64.c:229-287 | the digits of the loop over j form the exact quotient and leave the exact remainder |
| Div64.DivideLong | Kernel/Sources/lib/libc/src/div64.c:204-308 | for divisors of two or more digits, dividend equals quotient times divisor plus remainder, remainder below divisor |
| Div64.DivideShort | Kernel/Sources/lib/libc/src/div64.c:183-195 | the same for a one-digit divisor |
| Div64.QDivRem | Kernel/Sources/lib/libc/src/div64.c:114-309 | for all 64-bit operands the mathematical quotient and remainder; for a zero divisor 0 and the dividend |
| Div64.UModDi3 | Kernel/Sources/lib/libc/src/div64.c:327-334 | the mathematical remainder |
| Div64.LeftJustify | Kernel/Sources/lib/libc/src/udivmoddi4.c:96-100 | the divisor and its quotient bit are shifted together until the top bit is set |
| Div64.UDivModDi4 | Kernel/Sources/lib/libc/src/udivmoddi4.c:84-119 | for every nonzero divisor the mathematical quotient and remainder, hence agreement with __qdivrem |
| Futex.WokenIsPrefix | Kernel/Sources/core/src/futex.c:457-482 | a wake of n releases the first n waiters from the head whose stored value has left the word, or all of them if there are fewer |
| Futex.WakeConserves | Kernel/Sources/core/src/futex.c:457-498 | no parked thread is lost or duplicated: parked before equals released plus still parked |
| Futex.WakeSplits | Kernel/Sources/core/src/futex.c:457-498 | a wake looks at the queue up to the n-th eligible waiter or the end; the others before that place and all behind it stay, in order |
| Futex.WokenNone | Kernel/Sources/core/src/futex.c:462-472 | nobody is released while every stored value is still in the word |
| Futex.WaitQueue.Wait | Kernel/Sources/core/src/futex.c:341-385 | parks at the head exactly when the word still has the expected value |
| Futex.WaitQueue.Wake | Kernel/Sources/core/src/futex.c:448-514 | the cursor loop releases and keeps exactly the specified waiters and fails exactly when the word has no queue; the queue-deleting branch is reached exactly when somebody is released and the number of waits is a multiple of 2^32, and panics if the queue is not empty |
| Mutex.StepInv | Kernel/Sources/lib/libapi/src/mutex.c:218-257 | every step of every thread keeps the invariant: one owner iff the word is not 0, parked threads queued once, parked threads attended |
| Mutex.RunInv | Kernel/Sources/lib/libapi/src/mutex.c:218-257 | the invariant holds after every interleaving of every number of threads |
| Mutex.MutualExclusion | Kernel/Sources/lib/libapi/src/mutex.c:219-256 | in every run from mutex_init at most one thread holds the mutex or is between its fetch-add and the store of 0, and the word is nonzero iff one is |
| Mutex.ParkedIsAttended | Kernel/Sources/lib/libapi/src/mutex.c:230-256 | no lost wakeup: while a thread is parked the word is 2, or an unlocker still owes a wake, or an awake thread is in the retry loop |
| Mutex.QuiescentIsFree | Kernel/Sources/lib/libapi/src/mutex.c:336-350 | when nobody is inside a call except parked threads, there are none and the mutex is free |
| Mutex.CanDrain | Kernel/Sources/lib/libapi/src/mutex.c:218-350 | no deadlock but one: some schedule without new lock calls brings every thread out of its call, from every state that keeps the invariant exactly when the system has not panicked, and not the counter stands at 0 with two threads parked and nobody able to park before the next wake |
| Mutex.DoomedRun | Kernel/Sources/core/src/futex.c:495-513 | from such a doomed state every schedule without new lock calls leaves a thread parked |
| Mutex.CanBeDoomed | Kernel/Sources/core/src/futex.c:384-385 | a run from mutex_init of 2^32 parks that ends in a doomed state |
| Mutex.EarlySteady | Kernel/Sources/core/src/futex.c:495-513 | during the first 2^32 - 1 parks no state is doomed |
| Mutex.UnlockReturn | Kernel/Sources/lib/libapi/src/mutex.c:340-350 | the unlock reports a futex error exactly when the word has no table entry, which with fewer than 2^32 parks means exactly that no thread parked earlier in the run |
| Mutex.UnlockOutcome | Kernel/Sources/lib/libapi/src/mutex.c:291-362 | in every run, from its call on an unlock returns Ok if its fetch-and-add found 1, and if it found 2 Ok or the futex error as there was a table entry at its wake or none; it never parks |
| Mutex.Uncontended | Kernel/Sources/lib/libapi/src/mutex.c:337-361 | a fetch-and-add on 1 leaves 0 and returns Ok |
| Mutex.LockOutcome | Kernel/Sources/lib/libapi/src/mutex.c:217-257 | in every run, from its call on a lock returns only with the mutex, taken by a step of its own, 1 at its first try and 2 in the retry loop; it goes to wait only with the mark 2 made or seen |
| Mutex.TryOutcome | Kernel/Sources/lib/libapi/src/mutex.c:364-450 | in every run, a try-lock returns with its second step, with a free mutex taken or refused with the word left alone; it never parks |
| Mutex.HeldTryOutcome | Kernel/Sources/lib/libapi/src/mutex.c:364-450 | a try-lock by the holder is refused with its second step, and the mutex stays held |
| Mutex.Uninitialized | Kernel/Sources/lib/libapi/src/mutex.c:184-197 | on a word that is none of the three states every call returns the error at its first step and changes nothing, and the retry loop does too |
| Mutex.UnlockCanReportError | Kernel/Sources/lib/libapi/src/mutex.c:336-350 | a run from mutex_init in which the mutex is released and the call returns an error |
| Semaphore.StepInv | Kernel/Sources/lib/libapi/src/semaphore.c:149-289 | every step keeps the spinlock, queue, permit and waiter-count invariants |
| Semaphore.PermitsConserved | Kernel/Sources/lib/libapi/src/semaphore.c:149-289 | in every run the level is the initial level plus posts minus acquisitions, and no more are acquired than there were |
| Semaphore.PermitsHaveTakers | Kernel/Sources/lib/libapi/src/semaphore.c:163-201 | while a thread is parked and the spinlock is free, the level is at most the number of counted waiters that are awake; a lock holder about to look or wake accounts for one more; so an available permit always has an awake taker |
| Semaphore.QuiescentHasNoPermit | Kernel/Sources/lib/libapi/src/semaphore.c:223-242 | when nobody runs, a parked thread means there is no permit |
| Semaphore.CanSettle | Kernel/Sources/lib/libapi/src/semaphore.c:149-289 | no deadlock and no stranded permit but one: while the posts under way fit an int32, some schedule without new calls brings every thread back or to its parking place with no permit left for those, exactly when the system has not panicked and is not doomed: the counter stands at 0 with several threads parked, and a post is about to wake, or one will be and no awake thread can park before it |
| Semaphore.LostRun | Kernel/Sources/core/src/futex.c:495-513 | from a doomed state every schedule without new calls stays doomed or panics |
| Semaphore.CanBeDoomed | Kernel/Sources/core/src/futex.c:384-385 | a run from sem_init of 2^32 parks that ends in such a state |
| Semaphore.PostReturn | Kernel/Sources/lib/libapi/src/semaphore.c:226-240 | a post that wakes keeps its permit and reports an error exactly when the level has no table entry, which with fewer than 2^32 parks means exactly that nobody ever parked |
| Semaphore.PostOutcome | Kernel/Sources/lib/libapi/src/semaphore.c:209-248 | in every run, from its call on a post adds one permit, wakes exactly if a permit is there then and a waiter counted, and returns Ok or, for want of a table entry, the futex error |
| Semaphore.PendOutcome | Kernel/Sources/lib/libapi/src/semaphore.c:149-207 | in every run, from its call on a pend returns only with Ok and one permit taken under the spinlock |
| Semaphore.TryOutcome | Kernel/Sources/lib/libapi/src/semaphore.c:250-289 | in every run, a try-pend returns with its second step, with one permit if it found one under the spinlock and otherwise refused with nothing changed; it never parks and is never counted as a waiter |
| Semaphore.PostCanReportError | Kernel/Sources/lib/libapi/src/semaphore.c:226-240 | a run from sem_init in which the permit is added and the call returns an error |
| IntrusiveList.InsertAfterRing | Kernel/Sources/core/src/kheap.c:336-345 | insert_after puts a lone node behind the given one in the ring |
| IntrusiveList.InsertBeforeRing | Kernel/Sources/core/src/kheap.c:325-334 | insert_before puts a lone node in front of the given one |
| IntrusiveList.RemoveRing | Kernel/Sources/core/src/kheap.c:347-353 | remove takes a node out of a ring of any length and leaves it linked to itself |
| HeapShape.Merge | Kernel/Sources/core/src/kheap.c:585-596 | taking a chunk off the address ring keeps tiling, flags and all 32 bins |
| HeapShape.Split | Kernel/Sources/core/src/kheap.c:531-543 | linking a new chunk into the payload of one that is in no bin keeps tiling, flags and bins |
| HeapShape.BinRemove | Kernel/Sources/core/src/kheap.c:385-395 | unlinking a chunk keeps every other bin and takes it out of its own |
| HeapShape.BinPush | Kernel/Sources/core/src/kheap.c:355-363 | a push puts a free chunk into exactly one bin |
| HeapSpec.AllocTiled | Kernel/Sources/core/src/kheap.c:531-554 | allocation keeps the tiling: no gaps, sizes multiples of 4 and at least 8, sentinels used, no two free neighbours |
| HeapSpec.FreeTiled | Kernel/Sources/core/src/kheap.c:581-610 | freeing keeps the tiling, in particular it leaves no two free neighbours |
| HeapSpec.RoundTrip | Kernel/Sources/core/src/kheap.c:490-616 | freeing what was just allocated restores the tiling exactly |
| HeapSpec.AllocBytes | Kernel/Sources/core/src/kheap.c:546-554 | the free bytes change by the block taken and the rest split off |
| HeapSpec.FreeBytesFreed | Kernel/Sources/core/src/kheap.c:587-610 | freeing returns the payload plus one header per neighbour joined |
| HeapSpec.Ordered | Kernel/Sources/core/src/kheap.c:404-410 | every payload ends before every later block begins |
| HeapFacts.SlotBounds | Kernel/Sources/core/src/kheap.c:412-421 | bin n holds the sizes from 2^n to 2^(n+1) - 1 |
| HeapFacts.GoodFit | Kernel/Sources/core/src/kheap.c:506-532 | any chunk from bin slot(size-1)+1 or above is large enough unchecked |
| HeapFacts.NothingFits | Kernel/Sources/core/src/kheap.c:514-529 | if those bins are empty, every free payload is below 2^(slot(size-1)+1), which is below twice the request |
| KHeap.LowestBin | Kernel/Sources/core/src/kheap.c:514-529 | when the searched bins below n are empty, every free block is in a lower bin than those searched or in bin n or above |
| HeapFacts.RoundedCovers | Kernel/Sources/core/src/kheap.c:499-504 | the rounded request is the least multiple of 4 that is at least 8 and the request; it covers the request exactly when rounding does not wrap, and is 8 when it does |
| HeapFacts.AccountsSplit | Kernel/Sources/core/src/kheap.c:531-554 | the counters follow an allocation that splits: mem_meta is two chunks plus one header per interior chunk |
| HeapFacts.AccountsFree | Kernel/Sources/core/src/kheap.c:587-610 | the counters, as the code adds them up, follow the freed tiling with one header of drift per join |
| KHeap.DataPointer | Kernel/Sources/core/src/kheap.c:82-85 | the word read as the data pointer of a popped chunk is its own free-node address, 12 bytes behind the chunk |
| KHeap.Heap.PopFrom | Kernel/Sources/core/src/kheap.c:365-383 | the popped chunk is the head of the bin, was free, of the bin's size class, is linked to itself, and nothing live changed |
| KHeap.Heap.KheapInit | Kernel/Sources/core/src/kheap.c:441-488 | lays out two used sentinels around one free block with all invariants and exact counters |
| KHeap.AlignExact | Kernel/Sources/core/src/kheap.c:449-451 | the heap starts and ends at the aligned addresses next to those given |
| KHeap.Heap.Kmalloc | Kernel/Sources/core/src/kheap.c:490-564 | keeps the heap invariant; null changes nothing and means that every free block is below twice the request; otherwise one free block at the head of the lowest searched bin that has any is carved for the rounded request, the pointer is that block's payload, and no live payload word changes |
| KHeap.Heap.Kfree | Kernel/Sources/core/src/kheap.c:566-616 | keeps the heap invariant; the block and its free neighbours become one free block at the head of a bin, and no other live payload word changes |
| KHeap.ShortBlock | Kernel/Sources/core/src/kheap.c:499-504 | a request of 0xFFFFFFFD bytes succeeds with a block of 8 |
| HeapFacts.OwnerWrite | Kernel/Sources/core/src/kheap.c:535-563 | a write into a live payload, free node included, keeps the whole heap invariant, the tiling and every other live payload |
| KHeap.Heap.WriteWord | Kernel/Sources/core/src/kheap.c:556-563 | the owner of an allocation writes any word of it: the heap stays valid and only that word changes |
| KHeap.AllocateUseFree | Kernel/Sources/core/src/kheap.c:490-616 | kmalloc, any writes to the allocation, then kfree restore the tiling and every other live payload |
| KHeap.FreeCounterDrifts | Kernel/Sources/core/src/kheap.c:618-621 | the reported free memory is right exactly when the joins so far are a multiple of 2^30 |
| KHeap.Drifted | Kernel/Sources/core/src/kheap.c:587-610 | a run of init, allocation and free after which 984 free bytes are reported where there are 972 |
| KHeap.LiveApart | Kernel/Sources/core/src/kheap.c:531-563 | live payloads are disjoint and lie between the sentinels |
| KHeap.AllocServes | Kernel/Sources/core/src/kheap.c:535-556 | the block handed out is used, keeps its address and exceeds the request by less than one chunk |
| KHeap.BinnedExactly | Kernel/Sources/core/src/kheap.c:423-439 | a chunk is in bin n, once, exactly when it is free and of that size class; used chunks are in none |
| KQueue.InsertFalling | Kernel/Sources/core/src/kqueue.c:226-231 | a sorted insert keeps the queue sorted and pops after all equal keys already there |
| KQueue.Queue.Push | Kernel/Sources/core/src/kqueue.c:161-199 | the node becomes the head, all links and the size agree, and no cycle arises |
| KQueue.Queue.PushPrio | Kernel/Sources/core/src/kqueue.c:202-268 | the node goes in front of the first key that is not larger |
| KQueue.Queue.Pop | Kernel/Sources/core/src/kqueue.c:270-311 | the tail leaves the queue, or null for an empty queue |
| KQueue.Queue.Find | Kernel/Sources/core/src/kqueue.c:313-335 | the node nearest to the head with the data, or null iff there is none |
| KQueue.Queue.Remove | Kernel/Sources/core/src/kqueue.c:337-388 | exactly that node leaves the list, while size still counts it |
| Scheduler.StepOk | Kernel/Sources/core/src/scheduler.c:394-472 | every create, select, sleep, lock, unlock and priority step keeps each thread in the one place its state and priority call for |
| Scheduler.RunOk | Kernel/Sources/core/src/scheduler.c:394-472 | the location invariant holds along every run |
| Scheduler.InitialOk | Kernel/Sources/core/src/scheduler.c:348-373 | it holds at the start, with the idle thread active and still queued |
| Scheduler.OnePlace | Kernel/Sources/core/src/scheduler.c:394-468 | a queued thread is in no other queue |
| Scheduler.SelectOk | Kernel/Sources/core/src/scheduler.c:403-468 | a select keeps the invariant and always finds a thread, so its assertions never fire |
| Scheduler.ElectedMostUrgent | Kernel/Sources/core/src/scheduler.c:452-468 | the elected thread is at least as urgent as every ready one and was at the tail of its queue |
| Scheduler.RoundRobin | Kernel/Sources/core/src/scheduler.c:403-468 | a ready thread with k nodes nearer the tail is elected at exactly the (k+1)-th select that serves its level, whatever is pushed meanwhile |
| Scheduler.UnlockedRuns | Kernel/Sources/core/src/scheduler.c:1228-1232 | an unlocked thread is elected at exactly the turn of its level after those of all that were queued there |
| Scheduler.UrgentFirst | Kernel/Sources/core/src/scheduler.c:452-468 | while a ready thread waits for its turn, no less urgent thread that was ready with it is elected, over every run |
| Scheduler.CreatedFirst | Kernel/Sources/core/src/scheduler.c:1391-1443 | of two created threads the one of smaller priority number is elected first, in whichever order they came |
| Scheduler.CreateMeans | Kernel/Sources/core/src/scheduler.c:1385-1443 | creating adds one ready record of the priority asked for at the head of that queue, and changes nothing else |
| Scheduler.UnlockMeans | Kernel/Sources/core/src/scheduler.c:1221-1232 | an accepted unlock changes one record to ready and pushes it behind all others of its level |
| Scheduler.SelectMeans | Kernel/Sources/core/src/scheduler.c:394-472 | a select changes only states: the elected thread runs, the one before is ready, due sleepers may be; every ready queue keeps its order, with the yielding thread behind those that waited |
| Scheduler.MovesUp | Kernel/Sources/core/src/scheduler.c:403-468 | until then it moves up one place per such select and stays in its queue |
| Scheduler.WakesTail | Kernel/Sources/core/src/scheduler.c:410-450 | a select wakes exactly the due sleepers behind the last one that is not due, none early, and loses none |
| Scheduler.WakesAllIffInOrder | Kernel/Sources/core/src/scheduler.c:410-450 | all due sleepers are woken at every time exactly when the queue is in the order of the full wake times |
| Scheduler.SameEpochInOrder | Kernel/Sources/core/includes/kqueue.h:55 | wake times that agree above the 32-bit key put the queue in that order |
| Scheduler.SleepsOn | Kernel/Sources/core/src/scheduler.c:412-414 | a run from the first boot across a wrap of the key, after whose last select a due thread still sleeps |
| Scheduler.Tables.SelectThread | Kernel/Sources/core/src/scheduler.c:394-472 | requeue, wake-up loop and election loop compute the specified select, with what it does to each record and queue stated on the tables |
| Scheduler.Tables.CreateThread | Kernel/Sources/core/src/scheduler.c:1347-1443 | an accepted thread is ready with the priority asked for, at the head of that queue, and nothing else changes; each refusal, of a priority above 63, of a stack size that is no multiple of the page size, or for a failed allocation, has its error and changes nothing |
| Scheduler.Tables.Sleep | Kernel/Sources/core/src/scheduler.c:561-585 | the running thread is marked asleep until the given number of milliseconds from now, and no other record changes; the idle thread is refused |
| Scheduler.Tables.LockThread | Kernel/Sources/core/src/scheduler.c:1186-1206 | the running thread waits for the given reason in no queue, and no other record changes; the idle thread is refused |
| Scheduler.Tables.UnlockThread | Kernel/Sources/core/src/scheduler.c:1208-1248 | a thread that waits for the given reason becomes ready and the head of the queue of its own priority, and nothing else changes; any other is refused with its error and nothing changes |
| Scheduler.Tables.UnlockPush | Kernel/Sources/core/src/scheduler.c:1228-1232 | the critical section on its own: it pushes the thread, and keeps the location invariant exactly when the thread was in no queue |
| Scheduler.LateUnlock | Kernel/Sources/core/src/scheduler.c:1221-1232 | a push that comes any time after its test is right exactly when the thread is in no queue |
| Scheduler.UnlockedTwice | Kernel/Sources/core/src/scheduler.c:1221-1232 | a run in which two unlocks test before either pushes, and the thread is queued twice |
| Scheduler.Tables.SetThreadParams | Kernel/Sources/core/src/scheduler.c:1521-1544 | the caller takes a valid priority and refuses any other; the location invariant is kept exactly when the change is safe |
| Scheduler.SetPriorityOk | Kernel/Sources/core/src/scheduler.c:1535-1543 | a priority change keeps each thread in its place exactly when the caller is not queued or keeps its priority |
| Scheduler.Misplaced | Kernel/Sources/core/src/scheduler.c:348-373 | the idle thread before the first select can leave its queue that way |
| HashTable.HomeCongruent | Kernel/Sources/lib/libstruct/src/uhashtable.c:177-179 | a key's home is its hash reduced modulo the capacity |
| HashTable.ProbeMiss | Kernel/Sources/lib/libstruct/src/uhashtable.c:414-428 | a probe that meets NULL without the key proves the key absent |
| HashTable.SetAbsent | Kernel/Sources/lib/libstruct/src/uhashtable.c:184-221 | writing an absent key where the probe stops keeps the table sound and adds one binding |
| HashTable.SetPresent | Kernel/Sources/lib/libstruct/src/uhashtable.c:184-221 | writing a present key is an update if and only if no tombstone lies before its entry |
| HashTable.CountedFill | Kernel/Sources/lib/libstruct/src/uhashtable.c:198-219 | non-NULL slots stay size plus graveyard plus reuses: a NULL slot adds one to size, a reused tombstone only leaves the graveyard |
| HashTable.CountedBury | Kernel/Sources/lib/libstruct/src/uhashtable.c:493-502 | a removal moves one slot from size to the graveyard |
| HashTable.LoadCheck | Kernel/Sources/lib/libstruct/src/uhashtable.c:442-451 | with reuses below three tenths of the capacity, a passed load check leaves a NULL slot after one more entry |
| HashTable.LoadSum | Kernel/Sources/lib/libstruct/src/uhashtable.c:442-451 | what the load check adds up is the number of non-NULL slots minus the reuses, modulo 2^32 |
| HashTable.FullUnnoticed | Kernel/Sources/lib/libstruct/src/uhashtable.c:442-451 | a table without a NULL slot passes the load check if and only if the reuses, modulo 2^32, are between three tenths and all of its slots |
| HashTable.WrapFires | Kernel/Sources/lib/libstruct/src/uhashtable.c:442-451 | with more reuses than slots in use the check asks for a rehash, however empty the table is |
| HashTable.Runaway | Kernel/Sources/lib/libstruct/src/uhashtable.c:255-282 | for every hash function, a run of sets and removes of one key that doubles the table at each further set until it has 2^29 slots, where the byte size of the next array is 0 and the set fails |
| HashTable.NeverFinds | Kernel/Sources/lib/libstruct/src/uhashtable.c:414-428 | a lookup passes a slot at every one of its steps, for ever, exactly when there is no NULL slot and the key is absent |
| HashTable.NeverStops | Kernel/Sources/lib/libstruct/src/uhashtable.c:184-200 | so does the search of a set for a place, exactly when every slot holds a live entry of another key |
| HashTable.Twice | Kernel/Sources/lib/libstruct/src/uhashtable.c:184-221 | for every hash function and two keys of one home, a run that stores a key twice |
| HashTable.Clash | Kernel/Sources/lib/libstruct/src/uhashtable.c:184-186 | every hash function has two such keys |
| HashTable.Refusing | Kernel/Sources/lib/libstruct/src/uhashtable.c:474-485 | for every hash function, a run after which a present key cannot be removed |
| HashTable.FillUp | Kernel/Sources/lib/libstruct/src/uhashtable.c:198-214 | for every hash function, a run of sets and removes after which every slot is in use and no rehash came |
| HashTable.Table.constructor | Kernel/Sources/lib/libstruct/src/uhashtable.c:335-361 | an empty table of 16 NULL slots stands for the empty map |
| HashTable.Table.Get | Kernel/Sources/lib/libstruct/src/uhashtable.c:395-429 | lookup, succeeding exactly for the keys of the map |
| HashTable.Table.Remove | Kernel/Sources/lib/libstruct/src/uhashtable.c:457-511 | deletion of exactly one binding; past the graveyard threshold it always refuses and changes nothing |
| HashTable.Table.Rehash | Kernel/Sources/lib/libstruct/src/uhashtable.c:255-310 | a doubling preserves the map and drops all tombstones; growth 1 always refuses; the allocation fails for certain when the byte size of the new array wraps |
| HashTable.Table.SetEntry | Kernel/Sources/lib/libstruct/src/uhashtable.c:170-222 | where the entry goes, what each counter becomes, and that a failed allocation changes nothing |
| HashTable.Table.Set | Kernel/Sources/lib/libstruct/src/uhashtable.c:431-455 | insertion, or update of a directly reached key, with the exact rehash condition and the guarantee of a NULL slot |
| Ustar.AddressExact | Kernel/Sources/fs/src/ustar_fs.c:384-397 | for every mountable block size and 64-bit first block the address computed is byte 512 times inode behind the partition's start if and only if neither the byte number nor the device block number wraps |
| Ustar.MountCheckExact | Kernel/Sources/fs/src/ustar_fs.c:820-827 | the mount check accepts exactly the block sizes for which all addresses are right |
| Ustar.DriverExact | Kernel/Sources/fs/src/init_rd.c:183-195 | the driver's two comparisons accept what fits the disk; for an access that starts on the disk they accept nothing else if and only if the end address does not wrap |
| Ustar.UnitBlocks | Kernel/Sources/fs/src/init_rd.c:183-187 | block number plus offset is the byte meant, for every block in reach, if and only if the device block is one byte |
| Ustar.AddressWraps | Kernel/Sources/fs/src/ustar_fs.c:384-397 | from block 2^23 on the address is one in front of the block |
| Ustar.BlockWraps | Kernel/Sources/fs/src/ustar_fs.c:384-397 | so it is when the device block number reaches 2^32 |
| Ustar.OctalRoundTrip | Kernel/Sources/fs/src/ustar_fs.c:440-479 | a 12-byte field written for any 32-bit value reads back as that value |
| Ustar.Oct2Uint | Kernel/Sources/fs/src/ustar_fs.c:440-449 | reads a field up to a NUL or its end, shifting in each byte with a bitwise or |
| Ustar.ShiftedDigit | Kernel/Sources/fs/src/ustar_fs.c:440-449 | an octal digit appends its three bits |
| Ustar.ShiftedOther | Kernel/Sources/fs/src/ustar_fs.c:440-449 | a byte below '0', or above 127 and so a negative char, leaves a value among the last 176 of 32 bits |
| Ustar.Uint2Oct | Kernel/Sources/fs/src/ustar_fs.c:451-479 | leaves right-aligned octal digits and a NUL, or zeros for zero |
| Ustar.ClampExact | Kernel/Sources/fs/src/ustar_fs.c:1165-1169 | the request is cut to the end of the file if and only if cursor plus size does not wrap |
| Ustar.WrapRunsPast | Kernel/Sources/fs/src/ustar_fs.c:1165-1222 | a request that wraps is not cut; from a cursor on the disk the rest of its block is written, past the end of a file that ends there, and then the driver accepts a copy that leaves the disk |
| Ustar.RunPast | Kernel/Sources/fs/src/ustar_fs.c:1165-1222 | a write at byte 1 of a file of 10 bytes on a disk of 1024 that changes byte 20 of its block and then runs off the disk |
| Ustar.Volume.PatchBlock | Kernel/Sources/fs/src/ustar_fs.c:1180-1208 | read, modify and write back changes exactly the patched bytes of the device |
| Ustar.Volume.WriteData | Kernel/Sources/fs/src/ustar_fs.c:1170-1262 | the three phases together splice exactly the bytes in at the cursor; otherwise the phases before the first access that does not fit have left a prefix, and the error is what the driver's test makes of that access |
| Ustar.Volume.WriteFile | Kernel/Sources/fs/src/ustar_fs.c:1114-1280 | all refusals leave the device alone, a header without "ustar " or of another type than a regular file among them; from the end of the file on nothing is written; otherwise success writes exactly the bytes the clamp leaves at the cursor, and a failure exactly those of the phases that fitted, with the outcome the driver's test gives |
| Ustar.Volume.RefusalMeans | Kernel/Sources/fs/src/ustar_fs.c:1132-1152 | what is refused, in terms of bytes 156 and 257 to 262 of the header |
| Ustar.Volume.RequestMeans | Kernel/Sources/fs/src/ustar_fs.c:1154-1169 | how much is written, in terms of bytes 124 to 135 of the header |
| Ustar.Volume.TestBounds | Kernel/Sources/fs/src/init_rd.c:222-234 | the comparisons on wrapped addresses compute the specified outcome, which is success exactly for what fits |
| Ustar.WrittenOutside | Kernel/Sources/fs/src/ustar_fs.c:1154-1269 | every byte outside the written range is unchanged, the header included |
| Memmem.Find | Kernel/Sources/lib/libc/src/memmem.c:74-112 | the first occurrence of a non-empty needle, and none exactly when there is none, without reading past the haystack |
| Memmem.MismatchSkips | Kernel/Sources/lib/libc/src/memmem.c:95-96 | a skip after a mismatch passes no occurrence |
| Memmem.MatchSkips | Kernel/Sources/lib/libc/src/memmem.c:97-102 | a skip after a match of the second character passes no occurrence |

## Left out

- KHeap.Heap.Kfree: covers pointers handed out by kmalloc and not freed since; what the code does to other memory is not modelled.
- KHeap.Heap.KheapInit: covers heaps with room for two sentinels and one chunk that end below 4 GiB.
- KQueue.Queue.Remove: covers nodes of the queue; for any other node the code dereferences a null cursor.
- Scheduler.Tables.UnlockThread: the test and the push follow each other without another step in between, as when the caller is in a critical section; `Scheduler.Tables.UnlockPush` covers any other time.
- Scheduler.Tables.CreateThread: the outcomes of the allocations are parameters, and the name, type and function of the thread are left out.
- Scheduler.StepOk: sleep and lock are steps of a running thread, which makes them about itself, or refused to the idle thread; a step that changes a priority must be safe in the sense of `SetPriorityOk`.
- HashTable.Table.Get: covers probes that end, as do Set and Remove; `HashTable.NeverFinds` and `HashTable.NeverStops` say exactly which do not.
- Ustar.Volume.WriteFile: covers a header and a first data block that can be addressed, on a RAM disk inside the address space; PatchBlock and WriteData likewise. What the driver does once it copies outside the disk is not modelled: the call ends there with `Overrun`, which is no error of the program.
- Ustar.Uint2Oct: covers fields with room for the digits; the code writes in front of a shorter one.
- Semaphore.CanSettle: a post at a level of INT32_MAX is undefined in C and is no step of the model.
- Mutex: recursive locking, priority elevation and destruction, the null-pointer checks and the value reported by try-lock; locking again by the holder, which never returns, and unlocking by a thread that does not hold the mutex are excluded, as the API demands.
- Semaphores: destruction, null-pointer and initialisation checks, and the value reported by try-pend.
- Futex: the paths that recover from failed allocations and from dead threads; removing a table entry is taken to succeed. No FIFO order of wakeups is claimed: the newest eligible waiter is released first.
- Memory model: compare-and-swap, fetch-and-add, stores and the spinlock are taken as atomic, sequentially consistent steps, and a critical section as one step.
- Kernel heap: the used flag, one byte in the source, has a word of its own here at the same offset, and memory is addressed by word; the debug counters and the self-test are not modelled.
- User-level `malloc.c` and `queue.c`: near copies of `kheap.c` and `kqueue.c`.
- Kernel queues: creating and deleting nodes and queues.
- Threads: fork, wait, exit, clean and join, stacks, contexts and thread identifiers. The scheduler's queues are the sequences that `KQueue.Queue` refines, not node objects, and a sleeper's key is read from its wake time, which cannot change while it is queued.
- Hash table entries are values, not pointers, so their allocation shows only as a flag; the FNV hash is an arbitrary function; load factors are exact rationals; destruction, failing creation and null-pointer checks are not modelled; the allocator returns NULL for a size of 0, as kmalloc does.
- USTAR: reading, truncating, renaming, removing, listing and opening files, and flushing. The device is an array of bytes behind the bounds test of the RAM disk driver; for device blocks larger than one byte it scales the block number, which that driver does not. The driver's check for a wrong device and other device errors are not modelled.
- Drivers, interrupts, paging, process management, the vector library and the remaining string functions.
