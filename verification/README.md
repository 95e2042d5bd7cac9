# The fiber runtime and its JSON library

A model of the subtle parts of a C++ fiber runtime (`eabase/fiber`) and of the JSON library it carries
(`eabase/rapidjson`), with proofs in Dafny. `dafny verify dfyconfig.toml` checks everything.

Each concurrent protocol is a state machine: a datatype `State`, the steps of any number of threads, one atomic
access or one locked section at a time, and a function `Apply`. An inductive invariant is proved for every step, and
the main theorems speak of every run. Beside the machine stands a class with the fields that the C++ code changes in
place; each of its methods is one of those accesses, or one of the code's loops, and is proved to do what the machine
says. Sequential code (the identifier list, the codecs, the JSON Pointer parser, the writers) is classes, arrays and
loops, proved against recursive definitions, about which the round trips are then proved.

| file | models |
|---|---|
| Butex.dfy | wait queues of butexes: wake, wake_all, wake_except, requeue, erase |
| FiberMutex.dfy, FiberMutexWord.dfy | the three-state lock word and condition variables over those queues |
| ExecutionQueue.dfy, ExecutionNodes.dfy | the wait-free task list, its consumer and iterator |
| ExecutionQueueRef.dfy | the versioned reference count that decides when the stop task is pushed |
| WorkStealingQueue.dfy, BitMask.dfy | the bounded work-stealing deque |
| TimerThread.dfy, TimerMissed.dfy, TimerBucket.dfy, TimerWords.dfy | buckets, heap, signals and versions of the timer thread |
| Session.dfy, SessionSlot.dfy, SessionVersion.dfy, SmallQueue.dfy | the versioned session lock, its pending errors and its 32-bit versions |
| AbaFreeList.dfy, AbaFreeBlocks.dfy | the linked blocks of identifiers |
| StealProbe.dfy | the probe sequence of an idle worker |
| Utf8.dfy, Utf16.dfy | the two codecs, against RFC 3629 and RFC 2781 |
| JsonPointer.dfy, JsonPointerParser.dfy, HexDigits.dfy | parsing and printing of JSON Pointers, RFC 6901 |
| JsonTree.dfy, JsonLens.dfy, JsonCursor.dfy | get, create, set and erase by pointer |
| JsonEvents.dfy, JsonString.dfy, JsonWriter.dfy, JsonWriterChecks.dfy, JsonReading.dfy | accepting a tree into a document and into the Writer, its assertions, string escaping (RFC 8259), and that the text determines the tree |
| Shared.dfy | two helpers of several modules |

Four properties do not hold of the code as its comments, its interface or its users would have them, and are proved
with the exact condition instead: a timed lock of a plain pthread can lose the wake it was given
(`FiberMutex.TimedLocksAreSafe`); the timer thread can run a task before an earlier one whose scheduling has returned
(`TimerMissed.MissesOnlyShared`); the identifier list loses ids when a block has fewer than four entries
(`AbaFreeList.FourEntriesNeeded`); and the probes of an idle worker can miss a group when their sum wraps
(`StealProbe.WrappedProbesExactly`).

## Model

| member | source | states |
|---|---|---|
| Butex.EveryRunReleasesOnce | eabase/fiber/butex.cc:293-521 | In every interleaving of wake, wake_all, wake_except, requeue, timer erase and interrupt erase: a waiter is in the queue its container names and in no other, is released exactly once per wait, and every finished call returns the number of waiters it released. |
| Butex.StepKeepsInv | eabase/fiber/butex.cc:293-521 | Each critical section, and each release of an unlinked waiter, keeps that bookkeeping: a waiter is linked, or in the hand of the one thread that unlinked it, or free. |
| Butex.RunKeepsInv | eabase/fiber/butex.cc:293-521 | The same over whole runs. |
| Butex.EnqueueKeepsLists | eabase/fiber/butex.cc:523-576 | Queueing a waiter that is in no queue keeps container and queues in agreement. |
| Butex.WakeUnlinks | eabase/fiber/butex.cc:293-318 | wake unlinks the longest waiter and nobody else; the others stay queued in order. |
| Butex.WakeAllUnlinks | eabase/fiber/butex.cc:320-376 | wake_all unlinks exactly the waiters of the butex, each once. |
| Butex.WakeExceptUnlinks | eabase/fiber/butex.cc:378-438 | wake_except unlinks exactly the other waiters; the excluded fiber, if it waits there, is what stays queued, and a plain pthread is never excluded. |
| Butex.RequeueUnlinks | eabase/fiber/butex.cc:440-478 | requeue unlinks the longest waiter and puts the others, in order, behind those of the second butex. |
| Butex.EraseEnds | eabase/fiber/butex.cc:490-521 | The loop of erase ends only when it has unlinked its waiter, which is then in the hand of its thread, or has read a NULL container. |
| Butex.EraseUnlinks | eabase/fiber/butex.cc:490-521 | The locked re-check of erase unlinks the waiter, and nobody else, exactly when it is still queued where the unlocked read saw it. |
| Butex.ButexTable.constructor | eabase/fiber/butex.cc:112-118 | No waiter is queued or runnable at the start. |
| Butex.ButexTable.Create | eabase/fiber/butex.cc:253-259 | A new butex has no waiters and disturbs no other. |
| Butex.ButexTable.Append | eabase/fiber/butex.cc:523-576 | The waiter is appended to the queue and its container set. |
| Butex.ButexTable.Wake | eabase/fiber/butex.cc:293-318 | The first waiter leaves the queue, is made runnable, and is counted. |
| Butex.ButexTable.UnlinkAll | eabase/fiber/butex.cc:325-337 | The locked loop splits the queue into fibers and pthreads, in order, and clears every container. |
| Butex.ButexTable.RunForwards | eabase/fiber/butex.cc:339-346 | A private list is made runnable from its head and counted. |
| Butex.ButexTable.RunBackwards | eabase/fiber/butex.cc:357-366 | A private list is made runnable from its tail and counted. |
| Butex.ButexTable.WakeAll | eabase/fiber/butex.cc:320-376 | Everybody is made runnable: pthreads first, then the fibers after the first backwards, the first fiber last; the result counts them. |
| Butex.ButexTable.UnlinkExcept | eabase/fiber/butex.cc:383-406 | The locked loop leaves exactly the excluded fiber in the queue. |
| Butex.ButexTable.WakeExcept | eabase/fiber/butex.cc:378-438 | Everybody but the excluded fiber is made runnable and counted. |
| Butex.ButexTable.MoveAll | eabase/fiber/butex.cc:457-462 | The locked loop puts the whole queue behind that of the other butex and redirects every container. |
| Butex.ButexTable.Requeue | eabase/fiber/butex.cc:440-478 | One waiter is made runnable, the others wait on the second butex. |
| Butex.ButexTable.EraseLocked | eabase/fiber/butex.cc:490-521 | The waiter is unlinked and made runnable exactly when it is still linked in the butex read before. |
| WaiterLists.ReverseTail | eabase/fiber/butex.cc:357-366 | Taking a list from its tail takes its reverse from the head. |
| WaiterLists.KeepSnoc | eabase/fiber/butex.cc:325-337 | Splitting a queue by kind of waiter is what the loop that takes one waiter after the other does. |
| FiberMutex.MutualExclusion | eabase/fiber/mutex.cc:647-672 | In every run, timed locks of plain pthreads included, at most one thread holds the mutex, and the locked byte is set exactly while one does. |
| FiberMutex.NoStrandedSleeper | eabase/fiber/mutex.cc:732-821 | While a thread sleeps on the mutex, moved there by a broadcast or not, the word is CONTENDED and held, or an unlocker owes a wake, or a thread out of the queue is about to exchange the word with CONTENDED; when all others are done nobody sleeps there. |
| FiberMutex.TimedLocksAreSafe | eabase/fiber/mutex.cc:660-672 | No run leaves a sleeper behind if and only if no plain pthread is among the threads that make timed locks. |
| FiberMutex.LateTimeoutStrands | eabase/fiber/butex.cc:135-176 | The run that loses a wake: a pthread whose futex wait times out as it is woken reports the timeout, although the unlock of the mutex chose it. |
| FiberMutex.StepKeepsSafe | eabase/fiber/mutex.cc:647-821 | Every step of any thread keeps mutual exclusion and the bookkeeping of sleepers, and strands nobody unless it resumes a timed pthread that gives up the wake. |
| FiberMutex.StepKeepsInv | eabase/fiber/mutex.cc:647-821 | Without timed locks of pthreads every step keeps all of it. |
| FiberMutex.RunKeepsInv | eabase/fiber/mutex.cc:647-821 | So does every run. |
| FiberMutex.RunKeepsSafe | eabase/fiber/mutex.cc:647-821 | Mutual exclusion and the bookkeeping hold after every run, without conditions. |
| FiberMutex.QuietMeansEmpty | eabase/fiber/mutex.cc:802-821 | If every thread is idle or asleep, nobody sleeps on the mutex. |
| FiberMutex.ContendedUnlockWakes | eabase/fiber/mutex.cc:802-821 | The unlock of a contended mutex owes a wake, which takes the longest sleeper. |
| FiberMutex.LockOfHeldSleeps | eabase/fiber/mutex.cc:744-768 | Locking a held mutex, undisturbed, marks the word CONTENDED and queues the thread. |
| FiberMutex.UnlockResumesFirst | eabase/fiber/mutex.cc:802-821 | Unlocking a contended mutex, undisturbed, frees the word and sends the first sleeper back to contend for it. |
| FiberMutex.ReadsStep | eabase/fiber/condition_variable.cc:81-138 | A counter value read by cond_wait is never ahead of the counter, and its condition variable stays bound to the mutex. |
| FiberMutex.SignalOutdates | eabase/fiber/condition_variable.cc:56-79 | A signal, or a broadcast, outdates every value read before it. |
| FiberMutex.OutdatedStaysAwake | eabase/fiber/condition_variable.cc:81-112 | A thread in cond_wait whose value is outdated never falls asleep on the condition variable: no signal is missed. |
| FiberMutexWord.MutexInternal.TryLock | eabase/fiber/mutex.cc:732-738 | The exchange of the locked byte takes the mutex exactly when the byte was 0. |
| FiberMutexWord.MutexInternal.LockFirst | eabase/fiber/mutex.cc:744-748 | The fast path of lock takes the mutex or goes on to contend. |
| FiberMutexWord.MutexInternal.ExchangeContended | eabase/fiber/mutex.cc:647-658 | The exchange of the whole word with CONTENDED takes the mutex exactly when its locked bit was clear. |
| FiberMutexWord.MutexInternal.StillContended | eabase/fiber/mutex.cc:650-650 | Comparing the whole word with CONTENDED tells whether a waiter may sleep. |
| FiberMutexWord.MutexInternal.Unlock | eabase/fiber/mutex.cc:802-816 | The exchange with 0 has to be followed by a wake exactly when the word was contended. |
| FiberMutexWord.LockedBit | eabase/fiber/mutex.cc:631-643 | The locked bit of the whole word, seen as a number or as its first byte, is the locked flag. |
| FiberMutexWord.MutexInternal.UnlockForWait | eabase/fiber/condition_variable.cc:93-95 | The unlock inside cond_wait releases the mutex and owes a wake exactly when it was contended. |
| FiberMutexWord.CondInternal.ReadAndBind | eabase/fiber/condition_variable.cc:81-92 | cond_wait keeps the counter it has read and binds the mutex. |
| FiberMutexWord.CondInternal.Signal | eabase/fiber/condition_variable.cc:56-65 | signal moves the counter on before it wakes. |
| FiberMutexWord.CondInternal.Broadcast | eabase/fiber/condition_variable.cc:67-79 | broadcast does nothing until a waiter has bound the mutex; then it moves the counter on and requeues. |
| ExecutionQueue.EveryTaskOnce | eabase/fiber/execution_queue.cc:64-204 | In every run there is at most one consumer; no task is run twice or both run and cancelled; a node goes back to the pool only after one of the two; without a consumer every task has been run or cancelled exactly once. |
| ExecutionQueue.EachPriorityInOrder | eabase/fiber/execution_queue.cc:425-449 | Tasks of one priority are run in the order of their head exchanges. |
| ExecutionQueue.DestroyedIsEmpty | eabase/fiber/execution_queue.cc:188-201 | When the stop task has been consumed the head is NULL, the high-priority counter 0, no producer is left and every node is returned. |
| ExecutionQueue.ReversalLinksNewer | eabase/fiber/execution_queue_inl.h:477-521 | _more_tasks reverses exactly the nodes pushed since the old tail: the consumer's list then runs through all of them in the order of their exchanges, and no other node is touched. |
| ExecutionQueue.ChecksHold | eabase/fiber/execution_queue.cc:140-204 | The checks the code makes hold in every run: an iterated head has a successor, the stop task has none, the last task is the only one left at the end, and the reversal meets the old tail. |
| ExecutionQueue.StepKeepsInv | eabase/fiber/execution_queue.cc:64-204 | Every step of producer, canceller or consumer keeps list, tasks, order and counter consistent. |
| ExecutionQueue.RunKeepsInv | eabase/fiber/execution_queue.cc:64-204 | The same over whole runs. |
| ExecutionQueue.RunFromInit | eabase/fiber/execution_queue.cc:381-414 | And from a newly created queue. |
| ExecutionQueue.StopIsAlone | eabase/fiber/execution_queue.cc:298-309 | When the consumer reaches the stop task, no other task is left and the high-priority counter is 0. |
| ExecutionQueue.ScanEffect | eabase/fiber/execution_queue.cc:425-449 | One round of the iterator takes, passes over or counts at most the node at hand. |
| ExecutionQueue.PushKeeps | eabase/fiber/execution_queue.cc:64-104 | The head exchange keeps the list whole while the new node is not connected yet. |
| ExecutionNodes.TaskNode.Cancel | eabase/fiber/execution_queue_inl.h:58-68 | cancel returns 0 exactly when it is the one that ends the task, 1 while it is executing, and a handle of a returned node changes nothing. |
| ExecutionNodes.TaskNode.PeekToExecute | eabase/fiber/execution_queue_inl.h:73-80 | The consumer takes a task only if it is unexecuted. |
| ExecutionNodes.ScanRound | eabase/fiber/execution_queue.cc:435-447 | One round of the iterator's loop on the real node is one step of the consumer. |
| ExecutionNodes.NextTask | eabase/fiber/execution_queue.cc:425-449 | The iterator's loop stops at the next task to run, or at the end of the pass, having counted what it passed over. |
| ExecutionNodes.MarkPass | eabase/fiber/execution_queue.cc:451-468 | The iterator's destructor marks exactly the iterated tasks of its priority that the pass has gone over. |
| ExecutionNodes.ReverseNewer | eabase/fiber/execution_queue_inl.h:501-519 | The pointer reversal turns the nodes from the new head back to the old tail into exchange order. |
| ExecutionNodes.FindTail | eabase/fiber/execution_queue.cc:176-179 | The walk of a new consumer ends at the last node. |
| ExecutionNodes.ReleaseIterated | eabase/fiber/execution_queue.cc:170-175 | The release stops at the first node not iterated, or at the last one. |
| ExecutionQueueRef.RecycledAtMostOnce | eabase/fiber/execution_queue_inl.h:523-579 | However address, dereference and stop interleave, no id is recycled twice, the count never drops below 0 and no version check of the code fails. |
| ExecutionQueueRef.QuiescentIsRecycled | eabase/fiber/execution_queue_inl.h:523-579 | A stopped queue without references, with nobody inside address or dereference, has been recycled. |
| ExecutionQueueRef.ReferencesHold | eabase/fiber/execution_queue_inl.h:523-579 | While somebody holds a reference the queue is not recycled and its list is open. |
| ExecutionQueueRef.AddressFindsLive | eabase/fiber/execution_queue.cc:331-379 | address succeeds exactly for the id of a queue that is in use and not stopped. |
| ExecutionQueueRef.StopTaskIsLast | eabase/fiber/execution_queue.cc:234-249 | Once the stop task is in the list nothing is pushed behind it. |
| ExecutionQueueRef.SlotComesBackEmpty | eabase/fiber/execution_queue.cc:381-414 | create finds the head NULL, no consumer and the high-priority counter 0 in every slot. |
| ExecutionQueueRef.JoinWaitsForLive | eabase/fiber/execution_queue.cc:251-271 | join sleeps exactly while the queue of its id has not been given back. |
| ExecutionQueueRef.GuardsHold | eabase/fiber/execution_queue_inl.h:307-335 | The reference counts justify what the task list assumes of its callers: producers with a reference find the list open, and the stop task is pushed when none is left. |
| ExecutionQueueRef.StepKeepsInv | eabase/fiber/execution_queue_inl.h:523-579 | Every step on the word, and every step of the list below it, keeps counts, versions and list in agreement. |
| ExecutionQueueRef.RunKeepsInv | eabase/fiber/execution_queue_inl.h:523-579 | The same over whole runs. |
| ExecutionQueueRef.PackedWord | eabase/fiber/execution_queue_inl.h:206-221 | Packing version and count into one word loses nothing, and adding or subtracting 1 moves the count alone. |
| ExecutionQueueRef.VersionedRef.constructor | eabase/fiber/execution_queue_inl.h:158-170 | A slot starts with the version and count of a free queue. |
| ExecutionQueueRef.VersionedRef.Create | eabase/fiber/execution_queue.cc:381-414 | create takes the additional reference and hands out the version. |
| ExecutionQueueRef.VersionedRef.Address | eabase/fiber/execution_queue.cc:331-344 | address takes a reference if the version matches. |
| ExecutionQueueRef.VersionedRef.LeaveStray | eabase/fiber/execution_queue.cc:346-377 | A failed address gives its stray reference back and tries to recycle if it was the last. |
| ExecutionQueueRef.VersionedRef.Dereference | eabase/fiber/execution_queue_inl.h:523-542 | dereference drops one reference and tries to recycle if it was the last of a stopped queue. |
| ExecutionQueueRef.VersionedRef.TryRecycle | eabase/fiber/execution_queue_inl.h:560-572 | Exactly the compare-exchange that succeeds has the stop task to push. |
| ExecutionQueueRef.VersionedRef.Stop | eabase/fiber/execution_queue.cc:273-296 | stop moves the version on once. |
| WorkStealingQueue.EveryRunConserves | eabase/fiber/work_stealing_queue.h:67-130 | With one owner and any number of thieves, in every run: what was pushed is what was popped, plus what was stolen, plus what is between top and bottom, each element as often as pushed; never more than the capacity is stored. |
| WorkStealingQueue.StepRefines | eabase/fiber/work_stealing_queue.h:67-130 | Every atomic access either changes nothing, appends the pushed element, takes the newest for the owner, or takes the oldest for a thief. |
| WorkStealingQueue.OwnerStepRefines | eabase/fiber/work_stealing_queue.h:67-107 | Which accesses of push and pop take effect, and that the owner takes the newest element, alone in the race for the last one. |
| WorkStealingQueue.ThiefStepRefines | eabase/fiber/work_stealing_queue.h:112-130 | Only a successful compare-exchange takes an element, and it is the oldest and the one read before. |
| WorkStealingQueue.StepKeepsInv | eabase/fiber/work_stealing_queue.h:67-130 | Every access keeps the invariant: no live slot of the ring is overwritten and no element is lost or duplicated. |
| WorkStealingQueue.RunKeepsInv | eabase/fiber/work_stealing_queue.h:67-130 | The same over whole runs. |
| WorkStealingQueue.WorkStealingQueue.constructor | eabase/fiber/work_stealing_queue.h:29-34 | A queue starts empty. |
| WorkStealingQueue.WorkStealingQueue.Initialize | eabase/fiber/work_stealing_queue.h:41-61 | init accepts exactly a power of two, once. |
| WorkStealingQueue.WorkStealingQueue.PushCheck | eabase/fiber/work_stealing_queue.h:67-72 | push refuses exactly when the queue is full. |
| WorkStealingQueue.WorkStealingQueue.PushWriteSlot | eabase/fiber/work_stealing_queue.h:73-73 | The element goes into the next slot of the ring, which holds no live element. |
| WorkStealingQueue.WorkStealingQueue.PushAdvance | eabase/fiber/work_stealing_queue.h:74-75 | Moving bottom on publishes the element. |
| WorkStealingQueue.WorkStealingQueue.PopCheck | eabase/fiber/work_stealing_queue.h:82-89 | pop gives up at once exactly when the queue is empty. |
| WorkStealingQueue.WorkStealingQueue.PopLower | eabase/fiber/work_stealing_queue.h:90-91 | Lowering bottom reserves the newest element against the thieves. |
| WorkStealingQueue.WorkStealingQueue.PopDecide | eabase/fiber/work_stealing_queue.h:93-101 | With more than one element left, or none, the second load of top decides. |
| WorkStealingQueue.WorkStealingQueue.PopRace | eabase/fiber/work_stealing_queue.h:102-104 | For the last element the owner takes part in the thieves' compare-exchange. |
| WorkStealingQueue.WorkStealingQueue.PopPutBack | eabase/fiber/work_stealing_queue.h:94-106 | bottom is restored. |
| WorkStealingQueue.WorkStealingQueue.StealLoadTop | eabase/fiber/work_stealing_queue.h:112-113 | A thief remembers top. |
| WorkStealingQueue.WorkStealingQueue.StealLoadBottom | eabase/fiber/work_stealing_queue.h:114-124 | It gives up when the queue is empty. |
| WorkStealingQueue.WorkStealingQueue.StealReadSlot | eabase/fiber/work_stealing_queue.h:125-125 | It reads the slot before it competes for it. |
| WorkStealingQueue.WorkStealingQueue.StealRace | eabase/fiber/work_stealing_queue.h:126-129 | The winner returns the oldest element. |
| BitMask.MaskIsRemainder | eabase/fiber/work_stealing_queue.h:73-73 | Masking an index with capacity - 1 is the remainder by the capacity, for powers of two. |
| BitMask.PowerOfTwoTest | eabase/fiber/work_stealing_queue.h:46-54 | c & (c - 1) is 0 exactly for powers of two. |
| BitMask.SlotsDiffer | eabase/fiber/work_stealing_queue.h:70-73 | Indices less than the capacity apart use different slots. |
| TimerThread.SleepsUntilFirstTask | eabase/fiber/timer_thread.cc:399-429 | While the timer thread sleeps with an unchanged signal count and no schedule is between its two sections, no task in a bucket or in the heap is due before its deadline. |
| TimerThread.SleeperIsWoken | eabase/fiber/timer_thread.cc:224-238 | When the signal count has moved under it a futex wake is on the way. |
| TimerMissed.MissesOnlyShared | eabase/fiber/timer_thread.cc:214-240 | No run puts off an earlier task whose schedule has returned if and only if no bucket sees a task inserted while another schedule of the same bucket is between its two sections; proved for any number of buckets and any set of buckets in which that may happen. |
| TimerMissed.MissedIsHidden | eabase/fiber/timer_thread.cc:364-387 | When a task passes the check, an earlier task whose schedule has returned waits in a bucket exactly when a schedule that has yet to announce its own, no later task hides it in that bucket. |
| TimerMissed.NothingMissed | eabase/fiber/timer_thread.cc:364-387 | Without such overlaps no earlier, completed task is missed. |
| TimerMissed.OverlapMisses | eabase/fiber/timer_thread.cc:202-238 | With one there is a run that misses a task: for every bucket, and any number of others. |
| TimerMissed.StepKeepsCovered | eabase/fiber/timer_thread.cc:164-429 | Unless it inserts into the bucket while another schedule of it is unannounced, a step keeps the global time no later than every completed task of the bucket. |
| TimerMissed.StepKeepsPending | eabase/fiber/timer_thread.cc:180-240 | A schedule between its sections knows the time of its task until the slot is used again. |
| TimerThread.EarlierIsUnannounced | eabase/fiber/timer_thread.cc:364-386 | When a task passes the check, no task in the heap is earlier; and any earlier one in a bucket, returned or not, comes with a schedule that has inserted an earlier task and not announced it. |
| TimerThread.TaskEndsOnce | eabase/fiber/timer_thread.cc:271-303 | A task is run at most once, unscheduled at most once and not both; its slot is given back at most once and only after one of the two. |
| TimerThread.UnscheduleTells | eabase/fiber/timer_thread.cc:251-268 | unschedule returns 0 exactly when it ends the task, 1 exactly while the callback runs, and -1 otherwise; a stale id changes nothing. |
| TimerThread.PooledSlotIsNowhere | eabase/fiber/timer_thread.cc:349-393 | A slot in the pool is in no bucket, not in the heap and not with the timer thread. |
| TimerThread.StepKeepsInv | eabase/fiber/timer_thread.cc:164-451 | Every locked section and atomic access keeps places, versions, histories and times consistent. |
| TimerThread.RunKeepsInv | eabase/fiber/timer_thread.cc:164-451 | The same over whole runs. |
| TimerBucket.EarliestIsLeast | eabase/fiber/timer_thread.cc:202-208 | The nearest run time of a bucket is the least run time in it. |
| TimerBucket.LiveIsFilter | eabase/fiber/timer_thread.cc:295-303 | What try_delete keeps are exactly the tasks nobody has unscheduled. |
| TimerBucket.Bucket.Schedule | eabase/fiber/timer_thread.cc:180-212 | The task is put in front of the list, and reported as earlier exactly when it is earlier than every task in the bucket. |
| TimerBucket.Bucket.ConsumeTasks | eabase/fiber/timer_thread.cc:164-178 | The whole list is taken away and the nearest run time cleared. |
| TimerBucket.PullTasks | eabase/fiber/timer_thread.cc:349-362 | The walk keeps the live tasks in order and gives back exactly the unscheduled ones, although giving one back may overwrite its next pointer. |
| TimerWords.TaskWord.MakeId | eabase/fiber/timer_thread.cc:193-199 | A new id carries the version of the slot, never 0. |
| TimerWords.TaskWord.Unschedule | eabase/fiber/timer_thread.cc:251-268 | The compare-exchange on the version decides what unschedule returns. |
| TimerWords.TaskWord.Start | eabase/fiber/timer_thread.cc:271-293 | The callback is called exactly when the version is still that of the id, and otherwise the slot is given back exactly when the task was unscheduled. |
| TimerWords.TaskWord.Finish | eabase/fiber/timer_thread.cc:278-280 | The version moves past that of the id when the callback is done. |
| TimerWords.TaskWord.TryDelete | eabase/fiber/timer_thread.cc:295-303 | An unscheduled task goes back to the pool instead of into the heap. |
| TimerWords.Global.Announce | eabase/fiber/timer_thread.cc:224-238 | The timer thread is woken exactly when the announced time is earlier than the known one. |
| TimerWords.Global.ClearNearest | eabase/fiber/timer_thread.cc:340-346 | A round starts by forgetting the nearest time. |
| TimerWords.Global.PullAgain | eabase/fiber/timer_thread.cc:370-387 | The task is put off exactly when something earlier has been announced. |
| TimerWords.Global.PlanSleep | eabase/fiber/timer_thread.cc:399-419 | The deadline becomes the nearest time, unless something earlier has been announced. |
| TimerWords.Global.SignalStop | eabase/fiber/timer_thread.cc:434-442 | stop makes every check pull again and the signal count move. |
| Session.NoLockerStranded | eabase/fiber/session.cc:399-634 | A sleeping lock call is never forgotten, across destruction and reuse of the slot: on a live session the word is contended, or a wake is owed, or a call that was contended before is about to retry; a dying session still owes a wake to all. |
| Session.QuietMeansNoSleeper | eabase/fiber/session.cc:561-601 | A free session with no wake owed and no call on its way has no sleeper. |
| Session.OneOwner | eabase/fiber/session.cc:410-426 | A session has one owner exactly while its word says locked. |
| Session.ErrorsHandledInOrder | eabase/fiber/session.cc:561-634 | Errors taken by a session reach on_error in posting order, each once; a session is unlocked only when none is pending; what destroy leaves unhandled is a tail of what was posted. |
| Session.OnlyDestroyDrops | eabase/fiber/session.cc:603-634 | Only unlock_and_destroy drops errors, and then exactly those pending. |
| Session.JoinersWoken | eabase/fiber/session.cc:507-530 | A join call sleeps only while its session lives or its destroyer has yet to wake it. |
| Session.StepKeepsInv | eabase/fiber/session.cc:399-736 | Every locked section, butex call and pool access keeps lock, errors, sleepers and joiners in agreement. |
| Session.RunKeepsInv | eabase/fiber/session.cc:399-736 | The same over whole runs. |
| SessionVersion.LiveStatesDistinct | eabase/fiber/session.cc:135-143 | In 32-bit arithmetic a live session has first_ver < locked_ver <= first_ver + 1024, nothing wraps, and the four values of its word differ. |
| SessionVersion.EndedIdRejected | eabase/fiber/session.cc:622-627 | The id of an ended session is rejected until the counter restarts at 1, also when end_ver wraps to 0. |
| SessionVersion.WrapsOnlyAtTheEnd | eabase/fiber/session.cc:319-376 | end_ver wraps to 0 exactly when the session used the last four versions. |
| SessionVersion.StartIsLive | eabase/fiber/session.cc:345-376 | create starts a session whose versions fit, never at version 0. |
| SessionVersion.SectionKeepsLive | eabase/fiber/session.cc:399-449 | lock, with or without a new range, keeps the versions of a live session in range. |
| SessionVersion.StepKeepsInv | eabase/fiber/session.cc:319-634 | Every section keeps live versions above ended ones. |
| SessionVersion.RunKeepsInv | eabase/fiber/session.cc:319-634 | The same over whole runs. |
| SessionSlot.Id.CreateRanged | eabase/fiber/session.cc:345-376 | create accepts exactly ranges from 1 to 1024 and returns the first version. |
| SessionSlot.Id.LockSection | eabase/fiber/session.cc:399-449 | One round of lock takes the session, tells what to wait for, or rejects the id. |
| SessionSlot.Id.TryLock | eabase/fiber/session.cc:532-554 | trylock takes a free session and otherwise changes nothing. |
| SessionSlot.Id.Error | eabase/fiber/session.cc:703-736 | An error takes a free session for its poster, or is queued, or finds no such id. |
| SessionSlot.Id.Unlock | eabase/fiber/session.cc:561-601 | unlock hands the oldest pending error to its caller, or frees the session and tells whether to wake. |
| SessionSlot.Id.UnlockAndDestroy | eabase/fiber/session.cc:603-634 | The session ends, its pending errors are dropped and its ids rejected. |
| SmallQueue.SmallQueue.constructor | eabase/fiber/session.cc:29-31 | A queue starts empty. |
| SmallQueue.SmallQueue.Push | eabase/fiber/session.cc:33-49 | The value is added at the end, in the ring or in the deque. |
| SmallQueue.SmallQueue.Pop | eabase/fiber/session.cc:50-65 | The oldest value comes out, exactly when there is one. |
| SmallQueue.SmallQueue.Empty | eabase/fiber/session.cc:66-68 | Empty tells whether there is none. |
| SmallQueue.SmallQueue.Size | eabase/fiber/session.cc:70-72 | Size counts them all. |
| SmallQueue.SmallQueue.Clear | eabase/fiber/session.cc:74-80 | Nothing is left. |
| SmallQueue.RingPush | eabase/fiber/session.cc:33-49 | Writing behind the ring's tail, wrapped or not, appends. |
| SmallQueue.RingPop | eabase/fiber/session.cc:50-65 | Moving the ring's begin on, wrapped or not, drops the oldest entry. |
| SmallQueue.CopyByRotation | eabase/fiber/session.cc:219-226 | Popping each entry and pushing it back copies the queue and leaves it as it was. |
| AbaFreeList.FourEntriesNeeded | eabase/fiber/list_of_abafree_id.h:124-184 | add keeps the live ids of every list, each as often as before, if and only if a block has at least four entries. |
| AbaFreeList.AddKeepsLiveIds | eabase/fiber/list_of_abafree_id.h:124-184 | With such blocks: after a successful add the live ids are the old ones and the new one, on every path including wrap-around and the single block; a failed add changes nothing. |
| AbaFreeList.SmallBlockLosesId | eabase/fiber/list_of_abafree_id.h:150-184 | With fewer than four entries, adding to any full single block loses an id. |
| AbaFreeList.AddFailsWhenCrowded | eabase/fiber/list_of_abafree_id.h:126-156 | add fails exactly when the next four entries are all in use and there is no room, or no memory, for another block. |
| AbaFreeList.AddKeepsShape | eabase/fiber/list_of_abafree_id.h:124-184 | The cursor stays on an entry and all blocks keep their size. |
| AbaFreeList.SplitCounts | eabase/fiber/list_of_abafree_id.h:157-166 | Moving the tail of the current block into a new one neither drops nor copies an id. |
| AbaFreeList.WritesCount | eabase/fiber/list_of_abafree_id.h:167-183 | The writes that spread the saved entries, aliased or not, add the new id and lose none. |
| AbaFreeList.VisitsEachLiveId | eabase/fiber/list_of_abafree_id.h:186-196 | apply visits each live id as often as it is held, and nothing else. |
| AbaFreeBlocks.ListOfABAFreeId.constructor | eabase/fiber/list_of_abafree_id.h:88-97 | A list starts with one unused block. |
| AbaFreeBlocks.ListOfABAFreeId.ForwardIndex | eabase/fiber/list_of_abafree_id.h:112-122 | The cursor goes to the next entry, to the next block, or back to the head block. |
| AbaFreeBlocks.ListOfABAFreeId.SplitBlock | eabase/fiber/list_of_abafree_id.h:153-166 | A new block after the current one takes over the entries from the cursor on. |
| AbaFreeBlocks.ListOfABAFreeId.ScatterEntries | eabase/fiber/list_of_abafree_id.h:167-183 | The saved entries are spread and the new id written. |
| AbaFreeBlocks.ListOfABAFreeId.AddToFull | eabase/fiber/list_of_abafree_id.h:138-184 | The crowded path as a whole. |
| AbaFreeBlocks.ListOfABAFreeId.Add | eabase/fiber/list_of_abafree_id.h:124-184 | add on the linked blocks is add on their contents. |
| AbaFreeBlocks.ListOfABAFreeId.Apply | eabase/fiber/list_of_abafree_id.h:186-196 | apply runs over the blocks in list order. |
| AbaFreeBlocks.MoveEntries | eabase/fiber/list_of_abafree_id.h:158-164 | The moving loop cuts the block at the cursor. |
| AbaFreeBlocks.ApplyToBlock | eabase/fiber/list_of_abafree_id.h:190-194 | The loop over a block meets its live ids in order. |
| StealProbe.ProbesVisitAll | eabase/fiber/task_control.cc:397-426 | The ngroup probes look at every group exactly once, from any seed, when the prime offset does not divide ngroup. |
| StealProbe.OffsetsVisitAll | eabase/fiber/task_group.cc:192-193 | They look at every group from every seed if and only if the prime offset does not divide ngroup; offsets above ngroup never do. |
| StealProbe.PrimeGenerates | eabase/fiber/task_control.cc:409-409 | Fewer than ngroup steps of such an offset never come back to the start. |
| StealProbe.ProbesDiffer | eabase/fiber/task_control.cc:409-410 | No two probes of a call look at the same group. |
| StealProbe.WrappedProbesExactly | eabase/fiber/task_control.cc:407-410 | With the sum kept in 64 bits, every group is looked at if and only if the sum does not wrap within the probes or ngroup divides 2^64. |
| StealProbe.WrappedProbesVisitAll | eabase/fiber/task_control.cc:407-410 | The one direction, group by group. |
| StealProbe.WrapMissesGroup | eabase/fiber/task_control.cc:407-410 | A seed from which three probes miss a group. |
| StealProbe.TaskGroup.Steal | eabase/fiber/task_control.cc:413-420 | A group gives the oldest task of its own queue, then of its remote queue, and fails only when both are empty. |
| StealProbe.StealTask | eabase/fiber/task_control.cc:397-426 | The loop takes one task from one group and leaves the others alone, or has found every group it probed empty; without a wrap it fails only if all groups are. |
| Utf8.EncodeIsChar | eabase/rapidjson/encodings.h:103-121 | Encoding any Unicode scalar value gives a character of the grammar in section 4 of RFC 3629 that carries the value. |
| Utf8.NumberEncodes | eabase/rapidjson/encodings.h:103-121 | Every character of that grammar is the encoding of its number, which is a scalar value. |
| Utf8.SurrogateIsNoChar | eabase/rapidjson/encodings.h:103-121 | A surrogate is put out as three octets that are no character. |
| Utf8.PrefixFree | eabase/rapidjson/encodings.h:143-202 | No character begins another one. |
| Utf8.Masks | eabase/rapidjson/encodings.h:258-274 | The transition masks select exactly the octet ranges of the grammar. |
| Utf8.LeadTypes | eabase/rapidjson/encodings.h:258-274 | The types of the table, with the transitions that follow, are exactly the multi-octet characters. |
| Utf8.DecodeTailIsGrammar | eabase/rapidjson/encodings.h:143-202 | What the switch accepts and computes after a lead octet is what the grammar and the bit layout say. |
| Utf8.CharLenByOctets | eabase/rapidjson/encodings.h:143-202 | The 0 read past the end continues no character. |
| Utf8.Decode | eabase/rapidjson/encodings.h:143-202 | Decode succeeds exactly on a character, returns its number and consumes exactly its octets. |
| Utf8.DecodeRest | eabase/rapidjson/encodings.h:154-198 | The switch, branch by branch. |
| Utf8.Validate | eabase/rapidjson/encodings.h:204-256 | Validate accepts what Decode accepts and copies exactly the octets of the character. |
| Utf8.ValidateRest | eabase/rapidjson/encodings.h:214-252 | The switch, branch by branch. |
| Utf8.PutEncoded | eabase/rapidjson/encodings.h:103-121 | The octets put out are the encoding. |
| Utf8.MemoryStream.Take | eabase/rapidjson/memorystream.h:40-60 | Taking past the end gives 0 and does not move. |
| Utf8.TextRoundTrip | eabase/rapidjson/encodings.h:103-202 | Every list of scalar values survives encoding and decoding. |
| Utf8.NumbersEncodeText | eabase/rapidjson/encodings.h:103-202 | Every well-formed text is the encoding of its numbers. |
| Utf8.TextWithChar | eabase/rapidjson/encodings.h:143-202 | A text followed by a character is a text. |
| Utf16.EncodeIsChar | eabase/rapidjson/encodings.h:331-344 | Encoding any scalar value gives a character of section 2 of RFC 2781 that carries the value. |
| Utf16.NumberEncodes | eabase/rapidjson/encodings.h:331-344 | Every such character is the encoding of its number. |
| Utf16.PrefixFree | eabase/rapidjson/encodings.h:362-377 | No character begins another one. |
| Utf16.Decode | eabase/rapidjson/encodings.h:362-377 | Decode succeeds exactly on a character, returns its number and consumes exactly its units. |
| Utf16.Validate | eabase/rapidjson/encodings.h:379-392 | Validate accepts the same and copies exactly the character. |
| Utf16.TextRoundTrip | eabase/rapidjson/encodings.h:331-377 | Every list of scalar values survives encoding and decoding. |
| Utf16.NumbersEncodeText | eabase/rapidjson/encodings.h:331-377 | Every well-formed text is the encoding of its numbers. |
| Utf16.TranscodeText | eabase/rapidjson/encodings.h:719-728 | Transcoding UTF-8 to UTF-16 succeeds exactly on well-formed text and keeps its code points. |
| Utf16.TranscodeRoundTrips | eabase/rapidjson/encodings.h:719-728 | There and back, from either encoding, gives the text back. |
| JsonPointer.PrintParses | eabase/rapidjson/pointer.h:832-998 | Parsing what Stringify prints gives back the names, for all names (sections 3 and 4 of RFC 6901). |
| JsonPointer.ParsedPrintsBack | eabase/rapidjson/pointer.h:832-998 | A plain pointer that parses is printed back as the source, and a text parses exactly when it is the printing of some names. |
| JsonPointer.FragmentParses | eabase/rapidjson/pointer.h:969-998 | Names that are UTF-8 texts survive the URI fragment form (section 6). |
| JsonPointer.FragmentIsCanonical | eabase/rapidjson/pointer.h:832-998 | What a fragment parses to can be printed, and parses to the same again. |
| JsonPointer.TokensFit | eabase/rapidjson/pointer.h:841-849 | A pointer has exactly as many tokens as slashes, and its names with their terminators fit into a buffer of the length of the source. |
| JsonPointer.ParsedFits | eabase/rapidjson/pointer.h:841-849 | The same for a whole pointer. |
| JsonPointer.OctetsOfPercentAll | eabase/rapidjson/pointer.h:1006-1068 | Percent decoding undoes percent encoding. |
| JsonPointer.ParseEscaped | eabase/rapidjson/pointer.h:899-916 | Un-escaping ~0 and ~1 undoes their escaping, inside any pointer. |
| JsonPointer.TokensArePrinted | eabase/rapidjson/pointer.h:864-948 | The text of the tokens is the printing of their names. |
| JsonPointer.FragmentNamesAreTexts | eabase/rapidjson/pointer.h:873-897 | Every name read from a fragment is a UTF-8 text. |
| JsonPointerParser.PercentDecodeStream.Take | eabase/rapidjson/pointer.h:1018-1038 | The m-th call returns the m-th octet of the run of triplets, and the stream turns invalid at the first thing that is none. |
| JsonPointerParser.ValidateInto | eabase/rapidjson/pointer.h:873-892 | One percent-encoded character is copied into the buffer exactly when the triplets start with a well-formed one. |
| JsonPointerParser.ParseStep | eabase/rapidjson/pointer.h:871-923 | One round of the inner loop writes what belongs to it, or reports the error and its place. |
| JsonPointerParser.ParseToken | eabase/rapidjson/pointer.h:868-927 | The loop over one token leaves its name in the buffer and knows whether it is all digits. |
| JsonPointerParser.ParseIndex | eabase/rapidjson/pointer.h:924-946 | A token is an array index exactly when it is a number without a leading zero; the index is its value. |
| JsonPointerParser.ParseRound | eabase/rapidjson/pointer.h:864-948 | One token is parsed into the buffer without disturbing the earlier ones or passing its end. |
| JsonPointerParser.ParseAll | eabase/rapidjson/pointer.h:864-952 | The outer loop parses all tokens, or reports the first error and its place, inside a buffer of the length of the source. |
| JsonPointerParser.CountTokens | eabase/rapidjson/pointer.h:841-845 | The first loop counts the slashes. |
| JsonPointerParser.GenericPointer.Parse | eabase/rapidjson/pointer.h:832-961 | The pointer holds the parsed names, or the error and its place and no tokens. |
| JsonPointerParser.GenericPointer.Stringify | eabase/rapidjson/pointer.h:969-998 | The plain form is printed. |
| JsonPointerParser.GenericPointer.StringifyUriFragment | eabase/rapidjson/pointer.h:969-998 | The fragment form is printed, and it fails exactly on names that are no UTF-8 text. |
| JsonPointerParser.GenericPointer.NameOf | eabase/rapidjson/pointer.h:978-979 | The name is read back from the buffer. |
| JsonPointerParser.EscapeName | eabase/rapidjson/pointer.h:978-994 | The loop escapes ~ and / and nothing else. |
| JsonPointerParser.PutPercent | eabase/rapidjson/pointer.h:1053-1068 | Each octet is put out as a triplet. |
| JsonPointerParser.EscapeFragmentName | eabase/rapidjson/pointer.h:978-995 | The loop over a name fails exactly when it is no UTF-8 text. |
| JsonLens.GetAfterSet | eabase/rapidjson/pointer.h:417-460 | Get after Set returns the value set if and only if no "-" met an array on the way; otherwise it finds nothing. |
| JsonLens.AlreadyExistTells | eabase/rapidjson/pointer.h:417-460 | alreadyExist is true exactly when Get resolved before, and then the tree is unchanged. |
| JsonLens.SetOfGet | eabase/rapidjson/pointer.h:632-639 | Setting what is there changes nothing. |
| JsonLens.SetTwice | eabase/rapidjson/pointer.h:632-639 | The last of two settings wins. |
| JsonLens.OffPathStays | eabase/rapidjson/pointer.h:417-460 | What resolves off the path stays equal, as long as the path turns no array into an object. |
| JsonLens.ArrayIsReplaced | eabase/rapidjson/pointer.h:427-433 | Where an array meets a token that is no index its elements are lost. |
| JsonLens.EraseTells | eabase/rapidjson/pointer.h:739-776 | Erase succeeds exactly when there is something to erase that is not the root, and otherwise changes nothing. |
| JsonLens.EraseUndoesSet | eabase/rapidjson/pointer.h:739-776 | Setting a new member, or the element behind the last one, and erasing it gives back the tree. |
| JsonCursor.Document.Create | eabase/rapidjson/pointer.h:417-460 | The cursor loop of Create changes the document in place into what the recursive definition says, leaves the cursor at the place to assign to, and reports whether it was there. |
| JsonCursor.Document.Set | eabase/rapidjson/pointer.h:632-634 | Assigning through that cursor gives what Set says. |
| JsonCursor.Document.Erase | eabase/rapidjson/pointer.h:739-776 | The cursor loop of Erase removes what the recursive definition says, or returns false and changes nothing. |
| JsonCursor.MakeRoomFor | eabase/rapidjson/pointer.h:422-453 | One round of the loop of Create, branch by branch: the value made ready, where the cursor goes, and whether that existed. |
| JsonCursor.StepDown | eabase/rapidjson/pointer.h:747-762 | One round of the loop of Erase. |
| JsonCursor.EraseMember | eabase/rapidjson/pointer.h:765-775 | The switch behind that loop. |
| JsonCursor.PutThere | eabase/rapidjson/pointer.h:417-460 | What is put at a place is there, may be replaced, and putting back what is there changes nothing. |
| JsonCursor.Further | eabase/rapidjson/pointer.h:417-460 | Putting something below the cursor is putting the changed value at the cursor. |
| JsonCursor.ReadTokens | eabase/rapidjson/pointer.h:417-421 | The tokens in the buffer of a parsed pointer are the names it holds with their indices. |
| JsonCursor.GetAfterSetByText | eabase/rapidjson/pointer.h:417-460 | From the text of a pointer to the tree: Get after Set returns the value set if and only if no "-" of the text met an array. |
| JsonLens.Resolve | eabase/rapidjson/pointer.h:493-520 | The cursor loop finds what the recursive definition does, and otherwise names the first token that cannot be resolved. |
| JsonEvents.AcceptPushesTree | eabase/rapidjson/document.h:2676-2749 | Accepting any tree into a document's stack pushes exactly that tree. |
| JsonEvents.DeepCopyIsEqual | eabase/rapidjson/document.h:2784-2795 | The deep copy of a tree is the tree. |
| JsonEvents.PairsOfFlat | eabase/rapidjson/document.h:2282-2292 | Names and values as they lie on the stack are the members again. |
| JsonEvents.GenericDocument.PushValue | eabase/rapidjson/document.h:2676-2725 | The handler of every atom: it is pushed, which is what Push says of its event. |
| JsonEvents.GenericDocument.StartObject | eabase/rapidjson/document.h:2727-2730 | An empty object is pushed, as Push says. |
| JsonEvents.GenericDocument.StartArray | eabase/rapidjson/document.h:2740-2743 | An empty array is pushed, as Push says. |
| JsonEvents.GenericDocument.Key | eabase/rapidjson/document.h:2732-2732 | The name is pushed as a string, as Push says. |
| JsonEvents.GenericDocument.EndObject | eabase/rapidjson/document.h:2734-2738 | The loop takes the members, names and values alternating, off the stack into the object below them. |
| JsonEvents.GenericDocument.EndArray | eabase/rapidjson/document.h:2745-2749 | The elements are taken off the stack into the array below them, as Push says. |
| JsonEvents.Accept | eabase/rapidjson/document.h:2076-2117 | The recursion over a tree pushes it. |
| JsonEvents.AcceptArray | eabase/rapidjson/document.h:2098-2104 | The loop over the elements. |
| JsonEvents.AcceptObject | eabase/rapidjson/document.h:2085-2096 | The loop over the members. |
| JsonWriter.AcceptPrints | eabase/rapidjson/writer.h:508-525 | Accepting any tree into the Writer writes the separator of its place and then what a recursive printer prints. |
| JsonWriter.WholeDocumentPrints | eabase/rapidjson/writer.h:508-525 | From a new Writer that is the printing of the tree, and nothing is left open. |
| JsonReading.WrittenTextDetermines | eabase/rapidjson/writer.h:508-525 | Two trees that new Writers have written alike are equal: the text determines the tree. |
| JsonReading.PrintInjective | eabase/rapidjson/writer.h:402-525 | No two trees are printed alike. |
| JsonReading.PrintUnique | eabase/rapidjson/writer.h:402-525 | Even in front of a comma, a closing bracket or the end, where a printed value ends can be told, and which value it is. |
| JsonReading.BodyUnique | eabase/rapidjson/writer.h:402-473 | The closing quote can be told from the escaped body, and the body determines the string. |
| JsonReading.NumberUnique | eabase/rapidjson/writer.h:191-209 | The decimal digits, with what may follow them, determine the number. |
| JsonWriterChecks.AcceptChecks | eabase/rapidjson/writer.h:508-525 | A tree can be accepted exactly where its first call can be made: no assertion of Prefix or of the ends fails inside it. |
| JsonWriterChecks.OneRoot | eabase/rapidjson/writer.h:508-525 | A new Writer accepts every tree without violating an assertion, and a second one after it never. |
| JsonWriter.KeyPlace | eabase/rapidjson/writer.h:508-525 | A key is an even value of its level: it is preceded by a comma, or by nothing if it is the first. |
| JsonWriter.ValuePlace | eabase/rapidjson/writer.h:508-525 | The value of a member is an odd one: it is preceded by a colon. |
| JsonWriter.Writer.PutPrefix | eabase/rapidjson/writer.h:508-525 | The separator of the innermost level goes out and the value is counted. |
| JsonWriter.Writer.PutAtom | eabase/rapidjson/writer.h:181-219 | Null, bool and number handlers write separator and text. |
| JsonWriter.Writer.String | eabase/rapidjson/writer.h:227-231 | A string is written quoted and escaped. |
| JsonWriter.Writer.Key | eabase/rapidjson/writer.h:245-245 | A key is written as a string. |
| JsonWriter.Writer.StartObject | eabase/rapidjson/writer.h:239-243 | A level is opened. |
| JsonWriter.Writer.EndObject | eabase/rapidjson/writer.h:247-253 | It is closed. |
| JsonWriter.Writer.StartArray | eabase/rapidjson/writer.h:255-259 | A level is opened. |
| JsonWriter.Writer.EndArray | eabase/rapidjson/writer.h:261-267 | It is closed. |
| JsonWriter.Writer.Accept | eabase/rapidjson/document.h:2076-2117 | The recursion over a tree prints it, whatever stands before it. |
| JsonWriter.Writer.AcceptArray | eabase/rapidjson/document.h:2098-2104 | The loop over the elements. |
| JsonWriter.Writer.AcceptObject | eabase/rapidjson/document.h:2085-2096 | The loop over the members. |
| JsonWriter.Writer.AcceptMember | eabase/rapidjson/document.h:2088-2095 | One member: its name, and its value after a colon. |
| JsonString.UnescapeOfBody | eabase/rapidjson/writer.h:402-473 | Unescaping what stands between the quotes, by section 7 of RFC 8259, gives the source back, for every string. |
| JsonString.AsciiRoundTrip | eabase/rapidjson/writer.h:426-454 | For a target without Unicode the output is ASCII, and unescaping it, surrogate pairs included, gives back the UTF-8 source. |
| JsonString.BodyConcat | eabase/rapidjson/optimized_writer.h:52-98 | Escaping may be done piece by piece. |
| JsonString.PlainRun | eabase/rapidjson/optimized_writer.h:74-92 | A run without entries in the table is its own escaping. |
| JsonString.EscapeIsItem | eabase/rapidjson/writer.h:455-465 | Each escape is read back as its octet. |
| JsonString.EscapeCodeIsItem | eabase/rapidjson/writer.h:426-454 | The \u escapes of a code point, one or a surrogate pair, are read back as that code point. |
| JsonString.WriteString | eabase/rapidjson/writer.h:402-473 | The octet-by-octet loop writes the quoted string. |
| JsonString.WriteStringInChunks | eabase/rapidjson/optimized_writer.h:52-98 | The loop of the OptimizedWriter, which puts out runs in one piece, writes the same. |
| JsonString.PutChunk | eabase/rapidjson/optimized_writer.h:76-87 | A run and the escape behind it continue what was written. |
| JsonString.WriteStringAscii | eabase/rapidjson/writer.h:402-473 | For a target without Unicode the loop fails exactly on text that is no UTF-8. |

## Left out

- Memory orderings and fences: every atomic access and every locked section is one step of one sequential order.
- Wrap-around of plain counters (`_bottom` and `_top`, condition sequence numbers, task, node and queue versions, `_nsignals`): they are unbounded. The versions of a session are modelled in 32 bits, the steal seed in 64.
- Context switches, stacks, fiber start and join, pthread creation, errno values, signals, logging and statistics: a waiter that is made runnable is a history event, in order.
- The contention profiler and the pthread hooks of mutex.cc, fd.cc, ParkingLot, CountdownEvent, keys.
- std::push_heap and pop_heap: the timer heap is a set from which a task with the least run time is taken; the pools are a supply of slots.
- FiberMutexWord.CondInternal.ReadAndBind: reading the counter and binding the mutex are one step, and binding a second mutex, an EINVAL of the code, does not arise with one mutex.
- FiberMutex: one mutex with any number of condition variables bound to it, so that the EINVAL of a second mutex does not arise; the load of the bound mutex and the increment of the counter in broadcast are one step.
- FiberMutex.NoStrandedSleeper: asks that no plain pthread makes timed locks. The documentation of timedlock makes no such exception; FiberMutex.TimedLocksAreSafe shows that the code needs it.
- TimerMissed.NothingMissed: the comment at the check promises that an earlier task is noticed; for a task whose schedule has returned it is not once schedules of one bucket overlap, and TimerMissed.MissesOnlyShared shows that this is exactly when.
- TimerThread: stop_and_join always owes a futex wake, also when a task calls it.
- ExecutionQueue: a node is named by its place in the exchange order, so reuse of node memory shows only in the version that a cancel compares (class ExecutionNodes.TaskNode); `_this_id` is read together with the fetch_sub of dereference; executors, the pthread mode and its condition variable are left out.
- ExecutionQueue: the start of a pass, its end (the iterator's destructor, the subtraction from the counter and the release of the executed prefix) and the end of a consumer (the compare-exchange, the return of its last node and the mark of a destroyed queue) are one step each, though they are several accesses. Apart from the one access to the counter or to the head in each, they touch only nodes that the consumer alone still owns; a cancel that falls between them finds the task executing, executed or returned and changes nothing in any of these cases, a push changes only the head and the counter, and a consumer started right after the compare-exchange has other nodes.
- ExecutionQueue.EveryTaskOnce: its steps are enabled only when callers hold references; ExecutionQueueRef composes both and proves that they do (GuardsHold).
- ExecutionNodes.NextTask: states the loop undisturbed; a cancel between two rounds is an interleaving of module ExecutionQueue.
- ExecutionQueueRef.VersionedRef: fewer than 2^32 references at a time.
- Session.NoLockerStranded: about_to_destroy, a new range while locked and cancel are left out of the lost-wake part, because they change which word means contended, and so are runs after create has restarted the counter of a used slot at 1, when old ids may be met again.
- Session.QuietMeansNoSleeper: with the same exclusions.
- Session.JoinersWoken: runs after the restart of the counter of a used slot are left out.
- SmallQueue.SmallQueue: the spilled part is a sequence, as std::deque promises.
- AbaFreeBlocks.ListOfABAFreeId: the entries of a block are a sequence field instead of an array; `memory` says whether the allocation succeeds; apply is told which ids are alive and returns what its function is called with, instead of calling it.
- StealProbe.StealTask: the queues of the groups do not change during the probes, and a work-stealing queue is taken by its contract (oldest first).
- StealProbe.WrappedProbesExactly: for offsets small enough that one call wraps at most once, as all of the table are.
- JsonCursor.Document: the cursor is the list of places from the root, and a write through it is a write to the root at that place; nodes as separate objects, allocators and moved-from values are not modelled. Erase is stated for tokens that Parse makes, where "-" is no index.
- JsonPointerParser.ParseIndex: an index is unbounded, where the code detects an overflow of its type and treats the token as a name.
- JsonPointerParser: reading one character behind the source, which the code does only to look for the end, gives 0.
- JsonWriter.Writer.PutAtom: a number is an integer printed in decimal digits; internal/itoa and dtoa are not part of this model, nor are doubles, NaN and Inf.
- JsonWriter: Flush, EndValue, PrettyWriter and raw values.
- JsonString.WriteStringAscii: sources are UTF-8; UTF-16 and UTF-32 sources are not modelled.
- Parsing of JSON text, SIMD scanning, short-string and pointer packing, allocators, file streams, schema and robust_json.
