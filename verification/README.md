# A Dafny model of the FreeRTOS V9 kernel and of the small rings beside it

The firmware in this repository runs on the FreeRTOS V9 kernel. This project models the kernel's
blocking queues, its scheduler and clock, mutexes with priority inheritance, block times, software
timers, event groups and its list type, and four smaller algorithms: the trace recorder's symbol
table, the SEGGER RTT ring, the Ethernet driver's copy loops and the Modbus CRC. What is proved are
statements over every run, every interleaving or every input.

`dafny verify dfyconfig.toml` checks everything.

## How it is organised

Every component that changes things in place has three layers: a specification on values, an object
whose methods are proved equal to it, and lemmas over whole runs of the specification. A critical
section is one step; with the scheduler suspended only interrupts interleave.

Each module is in the file of its name.

| modules | what they hold |
|---|---|
| `QueueProtocol`, `QueueCalls` | tasks and interrupts on one queue as a state machine with a program counter per task, no lost wake-up; when a call waits, tries again or ends |
| `Deque`, `Ring`, `QueueObject` | a bounded double-ended queue; the ring of slots that refines it; a queue object on its byte storage |
| `ListSpec`, `ListHeap` | the order of a list's items; `list.c` on the heap, the doubly linked ring with its end marker |
| `ReadyBits`, `KernelSpec`, `KernelInvariant` | the ready bitmap; the operations of `tasks.c` on values; what each keeps |
| `KernelClock` | the two wrapped delayed lists refine a scheduler with an unbounded clock |
| `KernelRuns`, `KernelEvents` | whole runs of the scheduler; who an event wakes |
| `Preemption`, `KernelWakes`, `KernelValues` | when a switch is asked for, and that none is missed; that no wake-up is lost; what an event item carries |
| `KernelObject` | `tasks.c` itself as an object with the file's static variables |
| `KernelCallers`, `BlockTime` | the calls that delay a task and the block times they ask for; time-out checks and the block-time budget |
| `KernelRanks`, `PriorityInheritance`, `MutexChain` | mutexes on top of the scheduler; chains of them |
| `TimerSpec`, `TimerObject`, `TimerSwitch`, `TimerRuns` | the timer daemon on values and as an object; switching its lists; catching up exactly |
| `TimerCommands`, `TimerBlocking` | what stop, reset and change of period do to an active timer; how long the daemon blocks |
| `EventBits`, `EventGroups`, `EventGroupRuns`, `EventWaits` | event words; event groups; stability and the rendezvous; one wait from call to return |
| `SymbolSpec`, `SymbolTables` | the interning table; its hash chains in a byte array |
| `RttRing`, `RttRuns`, `RttObject` | the single-producer, single-consumer ring: its bytes, its interleavings, its two directions as objects |
| `DescriptorRing`, `EthernetDriver` | the DMA ring; gathering a frame into its buffers and scattering it out of them |
| `CrcTable`, `Crc16` | the table; the table-driven CRC against the bit-by-bit one |
| `Ticks`, `Arithmetic`, `Options` | the 32-bit tick type; quotients; optional values |

The configuration is the repository's: 7 priorities, port-optimised task selection, 32-bit ticks,
preemption with time slicing, mutexes on (`Inc/FreeRTOSConfig.h`). The same file leaves
`configUSE_TIMERS` undefined and sets `INCLUDE_vTaskDelayUntil` to 0, so the timer code and
`vTaskDelayUntil` are not compiled in; the model takes both as enabled.

## Where the code needs a condition

Some statements one would expect hold only under a condition. Where a point below names a condition
of one call, one command or one event, it is proved exact; the conditions it puts on whole runs are
sufficient ones.

- With at most 127 interrupt operations in every lock window no wake-up is lost
  (`QueueProtocol.NoLostWakeUp`). A burst of interrupts posting to a mailbox in the window of its
  receiver loses one exactly from 128 on, when the `int8_t` lock counter goes negative
  (`QueueProtocol.LostWakeUpIffCounterWraps`).
- A time-out check can take a wait that went round the 32-bit clock for a short one
  (`BlockTime.TwiceRoundTheClock`); `BlockTime.CheckCorrectIff` says exactly when it answers correctly.
- The delayed lists would not survive a delay of zero ticks at the maximal tick: exactly then the list
  is not empty when it is switched, and the task sleeps twice round the clock
  (`KernelClock.ZeroDelayOverdueIff`). It is a precondition inside the kernel: no caller asks for such
  a delay (`KernelCallers.CallersAllowed`).
- `vTaskDelayUntil` delays until the right time if and only if the previous wake-up time is not ahead of
  the clock, and less than a whole wrap ago or so late that the wrap makes no difference
  (`KernelCallers.DelayUntilExactIff`). A previous wake-up ahead of the clock always gives a wrong answer
  (`KernelCallers.AheadIsNeverRight`, `KernelCallers.AheadOfTheClock`); a task gets one when it is
  suspended in the call and resumed before its time (`KernelCallers.ResumedBeforeItsTime`).
- The RTT writer stores a write offset equal to the buffer size before it wraps it to 0. A host that
  has caught up and looks in that window sees a full ring of old bytes (`RttRuns.HostReadSoundIff`,
  `RttRuns.WindowReachable`); the order of bytes is proved for runs in which it does not look then.
- A frame longer than the DMA ring overwrites its own start (`DescriptorRing.LostIff`).
- Overwriting an empty item adds instead of replacing: a queue of empty items behaves as a
  double-ended queue exactly as long as nothing is overwritten (`Deque.ServeAllMeetsDequeIff`); a
  binary semaphore given twice by overwriting has a count of 2 (`QueueObject.OverwriteTwice`).
- Priority inheritance is not passed along a chain of mutexes; the order of the claims decides. A claim
  of priority p raises the holder of the claimed mutex and nobody else
  (`PriorityInheritance.InheritanceIsOneLevel`), so the holder at the far end of the chain reaches p if
  and only if a claim that high is made on it later (`PriorityInheritance.EarlierClaimFallsShort`,
  `PriorityInheritance.LaterClaimCarries`). `MutexChain.ChainStopsHalfWay` is a run in which it stays
  below.
- An event list is not sorted again when a waiter changes its priority. An event wakes a waiter of the
  highest priority over all runs in which the waiters keep theirs (`KernelEvents.EventWakesHighest`).
  When a waiter inherits a priority or is given another one,
  `KernelEvents.InheritingWaiterPassedOverIff` and `KernelEvents.ChangedWaiterPassedOverIff` say
  exactly when the head of the list is still one of the highest.
- The timers catch up exactly while the daemon looks at the clock at least once per wrap, none of the
  timer's commands waits a whole wrap and the command queue has room (`TimerRuns.CatchUpExact`,
  `TimerRuns.OneShotExact`).
- A stop or delete silences a timer for good if no command of the timer is queued behind it
  (`TimerCommands.StoppedForGood`). When the daemon finds an auto-reload timer a whole period late
  while its stop is waiting, it queues a restart behind the stop
  (`TimerCommands.RestartsBehindTheStopIff`), and the timer goes on as if it had not been stopped
  (`TimerCommands.StopOutrun`).
- The count of a queue stays within its length over every run in which no empty item is overwritten
  (`QueueCalls.CountWithinLength`).

## Model

| member | source | states |
|---|---|---|
| QueueProtocol.NoLostWakeUp | Middlewares/Third_Party/FreeRTOS/Source/queue.c:723-918 | In every interleaving of tasks and interrupts from a new queue, with fewer than 128 interrupt operations per lock window: if a receiver is on the wait list, the messages present are at most the woken receivers that have not retried plus the pending transmit-lock count; the mirror for senders, free spaces and the receive-lock count |
| QueueProtocol.NobodyWaitsInVain | Middlewares/Third_Party/FreeRTOS/Source/queue.c:264-276 | Over the same runs: once the scheduler runs and every woken task has retried, a receiver is on the wait list only if the queue is empty, a sender only if it is full |
| QueueProtocol.WaitListsAreExact | Middlewares/Third_Party/FreeRTOS/Source/queue.c:1237-1431 | Over the same runs: no task is on both wait lists, whoever is on one is blocked or about to be, and the queue is locked only while some task holds the scheduler suspended |
| QueueProtocol.LostWakeUpIffCounterWraps | Middlewares/Third_Party/FreeRTOS/Source/queue.c:264-276 | The bound is exact: with k interrupts posting to a mailbox in the lock window of its receiver, the receiver ends up waiting beside a message if and only if k is at least 128, because the int8_t counter wraps |
| QueueProtocol.StepKeepsInvariant | Middlewares/Third_Party/FreeRTOS/Source/queue.c:1794-1911 | Every single step (critical section, lock, unlock half, placing, time-out, interrupt) keeps the protocol invariant: lock discipline, exact wait lists and all messages and spaces accounted for; where a call goes from its check, its looks at the queue and its wait is the matter of QueueCalls |
| QueueProtocol.RunInvariant | Middlewares/Third_Party/FreeRTOS/Source/queue.c:723-918 | The invariant holds after any run that starts in it |
| QueueProtocol.WakeReceiversEffect | Middlewares/Third_Party/FreeRTOS/Source/queue.c:1804-1878 | The unlock loop over the transmit count takes tasks from the front of the list only; if any is left waiting, exactly one was woken per pending transmission |
| QueueProtocol.WakeSendersEffect | Middlewares/Third_Party/FreeRTOS/Source/queue.c:1885-1908 | The same for the receive count and the senders |
| QueueProtocol.UnlockTxClaims | Middlewares/Third_Party/FreeRTOS/Source/queue.c:1802-1880 | Setting the transmit lock back to unlocked loses no claim: what the count promised has become woken receivers |
| QueueProtocol.UnlockRxClaims | Middlewares/Third_Party/FreeRTOS/Source/queue.c:1883-1910 | The same for the receive lock and woken senders |
| QueueProtocol.IsrSendClaims | Middlewares/Third_Party/FreeRTOS/Source/queue.c:951-1062 | An interrupt that posts a message either wakes a waiter or counts itself on the transmit lock, so a message too many is never left beside a waiter |
| QueueProtocol.IsrReceiveClaims | Middlewares/Third_Party/FreeRTOS/Source/queue.c:1461-1519 | An interrupt that takes a message either wakes a sender or counts itself on the receive lock |
| QueueProtocol.SendSectionClaims | Middlewares/Third_Party/FreeRTOS/Source/queue.c:744-838 | A successful send in a task wakes a receiver if one waits, so both sides stay accounted for |
| QueueProtocol.ReceiveSectionClaims | Middlewares/Third_Party/FreeRTOS/Source/queue.c:1258-1338 | A successful receive wakes a sender, and a peek passes the wake-up on to another receiver, so both sides stay accounted for |
| QueueProtocol.FailedRetryClaims | Middlewares/Third_Party/FreeRTOS/Source/queue.c:841-868 | A woken task that retries and fails gives up its claim only when there is nothing left to claim |
| QueueProtocol.PlaceKeepsInvariant | Middlewares/Third_Party/FreeRTOS/Source/queue.c:873-897 | A task may put itself on the wait list between its second check and the unlock although interrupts went on in between: they are on the lock counters |
| QueueProtocol.BurstEffect | Middlewares/Third_Party/FreeRTOS/Source/queue.c:1051-1056 | The transmit-lock counter after n posts from interrupts, through its wrap to negative and back to the unlocked value |
| QueueCalls.CallEndsWhenDue | Middlewares/Third_Party/FreeRTOS/Source/queue.c:869-918 | From start-up, in every interleaving with fewer than 128 interrupt operations per lock window: a call whose check comes at since + wait or later is never put on a wait list; three steps later a sender has returned and a receiver is at its last look. A call that checks earlier looks at the queue again |
| QueueCalls.CheckExpiresWhenDue | Middlewares/Third_Party/FreeRTOS/Source/queue.c:869-877 | Over every run and any number of wake-ups: the check of a call that began at since and has not timed out before expires if and only if it is made at since + wait or later, if the clock overflows at most once between checks |
| QueueCalls.TimedOutCallEnds | Middlewares/Third_Party/FreeRTOS/Source/queue.c:908-916 | In every interleaving an expired call is not put on a wait list and reaches its end |
| QueueCalls.RecheckDecides | Middlewares/Third_Party/FreeRTOS/Source/queue.c:1415-1429 | The last look of a receiver ends the call if and only if the queue is empty as the others have left it by then; otherwise it starts over |
| QueueCalls.WaitsIffUnsuitable | Middlewares/Third_Party/FreeRTOS/Source/queue.c:877-900 | With time left a call is on its wait list after the second look if and only if a sender found the queue full or a receiver found it empty |
| QueueCalls.SuitableTriesAgain | Middlewares/Third_Party/FreeRTOS/Source/queue.c:901-906 | A call that found the queue suitable is at the top again three steps later, and has not waited |
| QueueCalls.PlacedCallBlocks | Middlewares/Third_Party/FreeRTOS/Source/queue.c:880-900 | A call put on a list is blocked three steps later, and starts over only once it is on no list |
| QueueCalls.FirstLookDecides | Middlewares/Third_Party/FreeRTOS/Source/queue.c:743-868 | The first look ends the call if and only if there is room or a message, or it may not wait; the count moves by one, or not at all for a peek, a replaced item or a failure |
| QueueCalls.ReachesItsCheck | Middlewares/Third_Party/FreeRTOS/Source/queue.c:869-874 | A call that may wait reaches its check in two steps |
| QueueCalls.OthersRun | Middlewares/Third_Party/FreeRTOS/Source/queue.c:1794-1911 | Whatever others do, a call stays where it is, and they only ever take it off a wait list |
| QueueCalls.CountWithinLength | Middlewares/Third_Party/FreeRTOS/Source/queue.c:1697-1773 | Over every run the count stays within the length, as long as no empty item is overwritten |
| QueueCalls.InterruptsMoveCount | Middlewares/Third_Party/FreeRTOS/Source/queue.c:921-1069 | An interrupt stores a message if and only if there is room or it overwrites, and takes one if and only if there is one |
| QueueCalls.LockForgetsNothing | Middlewares/Third_Party/FreeRTOS/Source/queue.c:264-276 | Locking leaves the pending counts and everything else alone |
| Deque.FirstInFirstOut | Middlewares/Third_Party/FreeRTOS/Source/queue.c:723-918 | For any sequence of operations that sends to the back: what was received followed by what is stored is what was stored followed by what was accepted |
| Deque.FrontThenReceive | Middlewares/Third_Party/FreeRTOS/Source/queue.c:1736-1770 | An item sent to the front is the next one received, and the queue is then as it was |
| Deque.ServeMeetsDequeIff | Middlewares/Third_Party/FreeRTOS/Source/queue.c:1706-1770 | One call with items of any size meets the double-ended queue, and keeps the count within the length, except exactly when it overwrites an empty item |
| Deque.SurplusShows | Middlewares/Third_Party/FreeRTOS/Source/queue.c:1749-1770 | An empty item too many is never made up for: it shows in a later result or stays in the queue |
| Deque.ServeAllMeetsDequeIff | Middlewares/Third_Party/FreeRTOS/Source/queue.c:1706-1770 | Over any sequence of calls: results and items are those of the double-ended queue if and only if items are not empty or nothing is overwritten |
| Deque.AnswersExactly | Middlewares/Third_Party/FreeRTOS/Source/queue.c:723-918 | For any sequence of calls that sends to the back, each answer in terms of the earlier ones: a send is refused if and only if as many items are outstanding as there is room for; a receive or a peek gives the oldest outstanding item, or nothing if there is none |
| Deque.OverwriteThenPeek | Middlewares/Third_Party/FreeRTOS/Source/queue.c:1752-1764 | After an overwrite a peek and then a receive give that item, and nothing is left |
| Ring.PushBack | Middlewares/Third_Party/FreeRTOS/Source/queue.c:1723-1735 | Writing the slot behind the last stored item appends exactly that item, for any position of the ring |
| Ring.PushFront | Middlewares/Third_Party/FreeRTOS/Source/queue.c:1738-1745 | Overwriting the slot last read and stepping the read position back puts exactly that item in front |
| Ring.PopFront | Middlewares/Third_Party/FreeRTOS/Source/queue.c:1776-1791 | Advancing the read position yields the first stored item and leaves the rest |
| QueueObject.CopyChangesOneSlot | Middlewares/Third_Party/FreeRTOS/Source/queue.c:1723-1740 | Copying an item of the queue's item size over one slot of the storage area changes that slot and no other |
| QueueObject.SlotStep | Middlewares/Third_Party/FreeRTOS/Source/queue.c:1726-1730 | Adding the item size, with the wrap at the tail, moves a byte offset to the next slot of the ring |
| QueueObject.SlotStepBack | Middlewares/Third_Party/FreeRTOS/Source/queue.c:1741-1745 | Subtracting the item size, with the wrap at the head, moves a byte offset to the previous slot |
| QueueObject.Queue.constructor | Middlewares/Third_Party/FreeRTOS/Source/queue.c:279-329 | A new queue is empty, unlocked, with nobody waiting, its read position on the last slot |
| QueueObject.Queue.CopyToBack | Middlewares/Third_Party/FreeRTOS/Source/queue.c:1723-1735 | The stored items become the old ones and then the item, and the write offset is one slot on |
| QueueObject.Queue.CopyToFront | Middlewares/Third_Party/FreeRTOS/Source/queue.c:1738-1745 | The stored items become the item and then the old ones, and the read offset is one slot back |
| QueueObject.Queue.CopyDataToQueue | Middlewares/Third_Party/FreeRTOS/Source/queue.c:1697-1773 | On the byte storage: sending to the back appends, to the front prepends, overwriting a queue of length 1 replaces, and an empty item is only counted; the protocol fields change as in the protocol model |
| QueueObject.Queue.CopyDataFromQueue | Middlewares/Third_Party/FreeRTOS/Source/queue.c:1776-1791 | Copies out the oldest item and moves the read position to it; nothing else changes |
| QueueObject.Queue.Send | Middlewares/Third_Party/FreeRTOS/Source/queue.c:744-838 | First critical section of a send, for any item size: succeeds exactly when there is room or it overwrites; items and result are those that ServeMeetsDequeIff compares with the double-ended queue; control fields those of the protocol |
| QueueObject.Queue.Receive | Middlewares/Third_Party/FreeRTOS/Source/queue.c:1258-1338 | First critical section of a receive or peek: the oldest item if there is one; a peek leaves the items as they were |
| QueueObject.Queue.SendFromISR | Middlewares/Third_Party/FreeRTOS/Source/queue.c:921-1069 | The same from an interrupt; while the queue is locked the transmit-lock counter is incremented (as an int8_t) instead of waking a task |
| QueueObject.Queue.ReceiveFromISR | Middlewares/Third_Party/FreeRTOS/Source/queue.c:1434-1522 | The mirror for receiving from an interrupt |
| QueueObject.Queue.PeekFromISR | Middlewares/Third_Party/FreeRTOS/Source/queue.c:1525-1576 | Returns the oldest item and leaves items and control fields alone |
| QueueObject.Queue.Lock | Middlewares/Third_Party/FreeRTOS/Source/queue.c:264-276 | Both lock counters leave the unlocked value, or stay as they are |
| QueueObject.Queue.UnlockTx | Middlewares/Third_Party/FreeRTOS/Source/queue.c:1802-1880 | The loop wakes one receiver per pending transmission until the list is empty, and unlocks |
| QueueObject.Queue.UnlockRx | Middlewares/Third_Party/FreeRTOS/Source/queue.c:1883-1910 | The mirror for senders |
| QueueObject.Queue.PerformOperations | Middlewares/Third_Party/FreeRTOS/Source/queue.c:723-918 | Any sequence of sends, receives and peeks on the byte ring, for any item size and length, gives exactly the results and leaves exactly the items of a bounded double-ended queue, if and only if the items are not empty or nothing is ever overwritten |
| QueueObject.OverwriteStaysWithinLength | Middlewares/Third_Party/FreeRTOS/Source/queue.c:1706-1770 | Overwriting a length-1 queue meets the double-ended queue, and keeps the count within the length, exactly when items are not empty or the queue is |
| QueueObject.OverwriteTwice | Middlewares/Third_Party/FreeRTOS/Source/queue.c:1706-1770 | A new binary semaphore given twice by overwriting has a count of 2 with length 1 |
| QueueObject.Queue.CopyIn | Middlewares/Third_Party/FreeRTOS/Source/queue.c:1723-1723 | Copying an item into a slot of the storage changes that slot only |
| QueueObject.Queue.CopyOut | Middlewares/Third_Party/FreeRTOS/Source/queue.c:1789-1789 | What is copied out of the storage is the slot |
| ListSpec.SortedInsertion | Middlewares/Third_Party/FreeRTOS/Source/list.c:145-209 | Insertion keeps a sorted list sorted and puts the item behind all items of equal value and before all greater ones, the maximum value last |
| ListSpec.SortedPositionUnique | Middlewares/Third_Party/FreeRTOS/Source/list.c:164-197 | The place the walk stops at is the only one with no greater value before it and a greater one after it |
| ListSpec.RoundRobin | Middlewares/Third_Party/FreeRTOS/Source/include/list.h:318-329 | On a fixed list of k items, k next-entry steps visit each item exactly once, in order |
| ListSpec.InsertEndComesLast | Middlewares/Third_Party/FreeRTOS/Source/list.c:116-142 | The new item is visited last of all, except that the item the index is on comes after it; no other item is postponed |
| ListSpec.RemoveKeepsOrder | Middlewares/Third_Party/FreeRTOS/Source/list.c:212-238 | Removing an item leaves the order in which the others will be visited |
| ListHeap.ListItem.constructor | Middlewares/Third_Party/FreeRTOS/Source/list.c:104-113 | A new item is on no list |
| ListHeap.List.constructor | Middlewares/Third_Party/FreeRTOS/Source/list.c:79-101 | A new list is an empty ring: the end marker points at itself and has the maximum value |
| ListHeap.List.LinkIn | Middlewares/Third_Party/FreeRTOS/Source/list.c:199-208 | Linking in between two neighbours keeps one doubly linked ring whose count and containers are right |
| ListHeap.List.InsertEnd | Middlewares/Third_Party/FreeRTOS/Source/list.c:116-142 | On the heap: the ring stays well formed and its items are those of the specified insertion before the index |
| ListHeap.List.Insert | Middlewares/Third_Party/FreeRTOS/Source/list.c:145-209 | On the heap: the walk terminates and the item ends up at its sorted position, behind items of equal value |
| ListHeap.List.NextEntry | Middlewares/Third_Party/FreeRTOS/Source/include/list.h:318-329 | Moves the index to the next item, stepping over the end marker, and returns that item |
| ListHeap.SpliceIn | Middlewares/Third_Party/FreeRTOS/Source/list.c:129-136 | The four pointer assignments turn the linked ring into the linked ring with the item inserted |
| ListHeap.Unlink | Middlewares/Third_Party/FreeRTOS/Source/list.c:218-219 | The two pointer assignments turn the linked ring into the linked ring without the item |
| ListHeap.Remove | Middlewares/Third_Party/FreeRTOS/Source/list.c:212-238 | The item leaves the list it names as its container; order, count and index (which steps back if it was on the item) are as specified |
| ListHeap.ListsAreDisjoint | Middlewares/Third_Party/FreeRTOS/Source/list.c:212-238 | Two well-formed lists share no node |
| ListHeap.List.FindPlace | Middlewares/Third_Party/FreeRTOS/Source/list.c:164-197 | The walk terminates and ends at the node behind which the value belongs |
| KernelInvariant.SwitchContextSelectsHighest | Middlewares/Third_Party/FreeRTOS/Source/tasks.c:2761-2817 | With the invariant, a context switch always finds a task, and the task it selects is ready and of maximal priority among the ready ones |
| KernelInvariant.MakeReadyKeeps | Middlewares/Third_Party/FreeRTOS/Source/tasks.c:259-263 | Moving a task to its ready list keeps the scheduler invariant: every state item on exactly one list, ready lists by priority, bitmap exact |
| KernelInvariant.WakeExpiredKeeps | Middlewares/Third_Party/FreeRTOS/Source/tasks.c:2532-2608 | The unblocking loop of the tick keeps the invariant and touches only lists, bitmap and the next unblock time |
| KernelInvariant.IncrementTickKeeps | Middlewares/Third_Party/FreeRTOS/Source/tasks.c:2499-2668 | A tick, processed or pended, keeps the invariant |
| KernelInvariant.DelayCurrentKeeps | Middlewares/Third_Party/FreeRTOS/Source/tasks.c:4692-4801 | Blocking the running task keeps the invariant, with the ready bit cleared exactly when its list became empty |
| KernelInvariant.PlaceOnEventListKeeps | Middlewares/Third_Party/FreeRTOS/Source/tasks.c:2820-2834 | Waiting on an event list keeps the invariant |
| KernelInvariant.PlaceOnUnorderedKeeps | Middlewares/Third_Party/FreeRTOS/Source/tasks.c:2837-2858 | Waiting on an unordered event list keeps the invariant |
| KernelInvariant.PlaceRestrictedKeeps | Middlewares/Third_Party/FreeRTOS/Source/tasks.c:2863-2889 | The restricted wait of the timer task keeps the invariant |
| KernelInvariant.RemoveFromEventListKeeps | Middlewares/Third_Party/FreeRTOS/Source/tasks.c:2894-2959 | Waking a waiter, to its ready list or to the pending-ready list, keeps the invariant |
| KernelInvariant.RemoveFromUnorderedKeeps | Middlewares/Third_Party/FreeRTOS/Source/tasks.c:2962-3004 | Waking a given waiter of an event group keeps the invariant |
| KernelInvariant.ReadyPendingKeeps | Middlewares/Third_Party/FreeRTOS/Source/tasks.c:2041-2058 | Draining the pending-ready list leaves it empty and keeps the invariant |
| KernelInvariant.ResumeAllKeeps | Middlewares/Third_Party/FreeRTOS/Source/tasks.c:2017-2124 | Resuming the scheduler keeps the invariant and leaves no pending task and no pended tick once it runs |
| KernelInvariant.SuspendTaskKeeps | Middlewares/Third_Party/FreeRTOS/Source/tasks.c:1566-1601 | Suspending a task keeps the invariant |
| KernelInvariant.ResumeTaskKeeps | Middlewares/Third_Party/FreeRTOS/Source/tasks.c:1702-1821 | Resuming a task, from a task or from an interrupt, keeps the invariant |
| KernelInvariant.CreateTaskKeeps | Middlewares/Third_Party/FreeRTOS/Source/tasks.c:963-1043 | Adding a new task keeps the invariant |
| KernelInvariant.DeleteTaskKeeps | Middlewares/Third_Party/FreeRTOS/Source/tasks.c:1048-1117 | Deleting a task, itself or another, keeps the invariant |
| KernelInvariant.SetPriorityKeeps | Middlewares/Third_Party/FreeRTOS/Source/tasks.c:1402-1559 | Changing a priority moves a ready task to the list of its new priority and keeps the invariant |
| KernelInvariant.InheritPriorityKeeps | Middlewares/Third_Party/FreeRTOS/Source/tasks.c:3706-3765 | Priority inheritance keeps the invariant |
| KernelInvariant.DisinheritPriorityKeeps | Middlewares/Third_Party/FreeRTOS/Source/tasks.c:3772-3846 | Giving a mutex back keeps the invariant |
| KernelClock.CurrentListEmptyAtSwitch | Middlewares/Third_Party/FreeRTOS/Source/tasks.c:239-251 | Whenever the next tick wraps the count, the current delayed list is empty (the assertion of the list switch) |
| KernelClock.ProcessTickRefines | Middlewares/Third_Party/FreeRTOS/Source/tasks.c:2499-2608 | A processed tick on the two wrapped lists is exactly one tick of a scheduler with an unbounded clock: it wakes every task whose time has come and no other |
| KernelClock.DelayCurrentRefines | Middlewares/Third_Party/FreeRTOS/Source/tasks.c:4692-4762 | Blocking for d ticks at unbounded time N makes the task sleep until N + d, whichever of the two lists it goes to |
| KernelClock.ZeroDelayOverdueIff | Middlewares/Third_Party/FreeRTOS/Source/tasks.c:4731-4762 | If the running task were delayed for zero ticks: the list that the next tick switches is not empty exactly at the maximal tick, and exactly then that tick does not wake the task, which sleeps twice round the clock |
| KernelClock.InsertByWakeTimeSorted | Middlewares/Third_Party/FreeRTOS/Source/tasks.c:4733-4748 | Filing a task by wake time keeps the list sorted |
| KernelClock.ReplayTicksRefine | Middlewares/Third_Party/FreeRTOS/Source/tasks.c:2075-2099 | Ticks pended while the scheduler was suspended are replayed one by one: n of them are n ticks of the unbounded clock |
| KernelClock.ResumeAllRefines | Middlewares/Third_Party/FreeRTOS/Source/tasks.c:2017-2124 | Resuming the scheduler advances the unbounded clock by exactly the pended ticks and otherwise only readies the pending tasks |
| KernelClock.PlaceOnEventListRefines | Middlewares/Third_Party/FreeRTOS/Source/tasks.c:2820-2834 | Waiting on an event list with a block time sleeps until the same unbounded deadline |
| KernelClock.PlaceUnorderedRefines | Middlewares/Third_Party/FreeRTOS/Source/tasks.c:2837-2858 | The same for an unordered event list |
| KernelClock.PlaceRestrictedRefines | Middlewares/Third_Party/FreeRTOS/Source/tasks.c:2863-2889 | The same for the restricted wait |
| KernelClock.ReadyPendingClock | Middlewares/Third_Party/FreeRTOS/Source/tasks.c:2041-2058 | Draining the pending-ready list changes no other task's sleep |
| KernelClock.EventClock | Middlewares/Third_Party/FreeRTOS/Source/tasks.c:2894-2959 | Waking a waiter changes no other task's sleep and keeps the clock invariant |
| KernelClock.SpecTicksAdvance | Middlewares/Third_Party/FreeRTOS/Source/tasks.c:2499-2608 | n ticks of the unbounded clock wake exactly the tasks due within them |
| KernelClock.MissedAtSwitch | Middlewares/Third_Party/FreeRTOS/Source/tasks.c:239-251 | A task still on the current list when the lists are switched misses a whole epoch: it sleeps until twice round the clock later |
| KernelClock.WakeExpiredLeaves | Middlewares/Third_Party/FreeRTOS/Source/tasks.c:2532-2608 | The unblocking loop does not touch a task that is not on the current delayed list |
| KernelRuns.StepKeepsInvariant | Middlewares/Third_Party/FreeRTOS/Source/tasks.c:2499-2668 | Every kernel operation, in any state that satisfies it, keeps the invariant of structure, pending list and clock |
| KernelRuns.StructureAlways | Middlewares/Third_Party/FreeRTOS/Source/tasks.c:206-231 | Over every run of kernel operations and interrupts: each state item is on exactly one list, once; ready tasks are on the list of their priority; bit p is set exactly when ready list p is not empty; pending tasks and pended ticks exist only while the scheduler is suspended |
| KernelRuns.SwitchAlwaysSelectsHighest | Middlewares/Third_Party/FreeRTOS/Source/tasks.c:2761-2817 | Over every run: a context switch selects a ready task of maximal priority, the next in turn on its list |
| KernelRuns.ClockAlways | Middlewares/Third_Party/FreeRTOS/Source/tasks.c:2499-2608 | Over every run: nobody in the current list is overdue, the next unblock time exceeds no wake time in it, and the list is empty when the count is about to wrap |
| KernelRuns.TickAlwaysRefines | Middlewares/Third_Party/FreeRTOS/Source/tasks.c:2499-2608 | Over every run: a tick processed while the scheduler runs is a tick of the unbounded-clock scheduler |
| KernelRuns.NoTickLost | Middlewares/Third_Party/FreeRTOS/Source/tasks.c:2075-2099 | Over every run: processed plus pended ticks equal the tick interrupts that occurred |
| KernelRuns.SleepsUntilDue | Middlewares/Third_Party/FreeRTOS/Source/tasks.c:2532-2608 | A sleeping task that nobody wakes or removes sleeps on in every later state before its time |
| KernelRuns.NeverWokenEarly | Middlewares/Third_Party/FreeRTOS/Source/tasks.c:1224-1262 | A task that delays itself at unbounded time N for d ticks and is left alone is delayed in every later state before N + d, through any number of wraps and suspensions |
| KernelRuns.NeverWokenLate | Middlewares/Third_Party/FreeRTOS/Source/tasks.c:2075-2099 | Whenever the clock moves, by a tick or by pended ticks replayed on resuming, a sleeper is ready exactly if its time has come, and nobody who still sleeps is due |
| KernelRuns.DelayedExactly | Middlewares/Third_Party/FreeRTOS/Source/tasks.c:1224-1262 | A task that delays itself at unbounded time N for d ticks and is left alone is delayed in exactly those later states whose time is before N + d, and ready in all others |
| KernelRuns.StaysAwake | Middlewares/Third_Party/FreeRTOS/Source/tasks.c:2532-2608 | A ready task stays ready until it blocks or another removes it |
| KernelEvents.EventWakesHighest | Middlewares/Third_Party/FreeRTOS/Source/tasks.c:2894-2912 | Over every run in which no task waiting for the event changes its priority and all waiters joined in order: the waiter the event wakes has the highest priority of all waiting for it |
| KernelEvents.WaitOrdered | Middlewares/Third_Party/FreeRTOS/Source/tasks.c:2820-2834 | A task that begins to wait is filed so that the event list stays in priority order, and no other list is disturbed |
| KernelEvents.RunOrdered | Middlewares/Third_Party/FreeRTOS/Source/tasks.c:2820-2834 | Over every such run, with mutexes, deletions, event groups and changes of other tasks' priorities in between: the waiters' event items stand for their priorities and the list is in order |
| KernelEvents.SuspendThenResume | Middlewares/Third_Party/FreeRTOS/Source/tasks.c:1566-1748 | A task suspended by another is on the suspended list only and waits for nothing; resuming it gives it back, ready, at the end of the ready list of its priority |
| KernelEvents.StepOrdered | Middlewares/Third_Party/FreeRTOS/Source/tasks.c:2820-2959 | Every kernel step that leaves the waiters' priorities alone keeps the list of an event in order |
| KernelEvents.InheritingWaiterPassedOverIff | Middlewares/Third_Party/FreeRTOS/Source/tasks.c:3706-3765 | When a waiter inherits a priority the list is not sorted again: its head is still a waiter of the highest priority if and only if it is that waiter or already ranks as high |
| KernelEvents.ChangedWaiterPassedOverIff | Middlewares/Third_Party/FreeRTOS/Source/tasks.c:1402-1559 | When the priority of a waiter is set the list is not sorted again: its head is still a waiter of the highest priority if and only if the head ranks as high as the new priority or, being that waiter itself, as high as the next |
| Preemption.NoSwitchMissed | Middlewares/Third_Party/FreeRTOS/Source/tasks.c:2499-2668 | Over every run of the kernel: unless a switch is pending or has been asked for since the last one, by an answer or because the running task itself left the ready lists, the running task is ready and no ready task has a higher priority |
| Preemption.TickAnswersAlways | Middlewares/Third_Party/FreeRTOS/Source/tasks.c:2499-2668 | Over every run with the scheduler running, the tick function asks for a switch if and only if a yield is pending, a task that was not ready before and is ready after ranks at least as high as the running one, or two ready tasks have its priority |
| Preemption.TickAnswer | Middlewares/Third_Party/FreeRTOS/Source/tasks.c:2499-2668 | The same of any state that satisfies the invariant, and of a suspended scheduler: then the answer is whether a yield is pending |
| Preemption.PeersOfRunning | Middlewares/Third_Party/FreeRTOS/Source/tasks.c:2606-2626 | While the running task is ready, the last case means another ready task of its priority |
| Preemption.WakeExpiredAnswer | Middlewares/Third_Party/FreeRTOS/Source/tasks.c:2551-2600 | The flag of the unblocking loop is raised if and only if some task whose time has come ranks at least as high as the running one |
| Preemption.ResumeAnswer | Middlewares/Third_Party/FreeRTOS/Source/tasks.c:2017-2124 | After xTaskResumeAll a yield is pending if and only if one was, or the scheduler runs again and a task that was not ready before and is ready now ranks at least as high as the running one, or a tick was pended and two ready tasks have its priority |
| Preemption.ReplayAnswer | Middlewares/Third_Party/FreeRTOS/Source/tasks.c:2073-2098 | The same of the replay of any number of pended ticks |
| Preemption.PendingAnswer | Middlewares/Third_Party/FreeRTOS/Source/tasks.c:2040-2060 | The same of emptying the pending-ready list |
| Preemption.EventServed | Middlewares/Third_Party/FreeRTOS/Source/tasks.c:2894-2959 | An event leaves a yield pending if and only if one was or the waiter it wakes outranks the running task |
| Preemption.BitsServed | Middlewares/Third_Party/FreeRTOS/Source/tasks.c:2962-3003 | The same of a waiter for event bits |
| Preemption.StepServed | Middlewares/Third_Party/FreeRTOS/Source/tasks.c:2761-2817 | Every kernel step keeps it that the running task is of the highest ready priority, or a switch is pending or asked for |
| KernelWakes.NoWakeUpLost | Middlewares/Third_Party/FreeRTOS/Source/tasks.c:2017-2124 | Over every run: a task woken or resumed while the scheduler was suspended, and not suspended or deleted since, has become ready or is still pending, and then the scheduler is still suspended |
| KernelWakes.ResumeAllServes | Middlewares/Third_Party/FreeRTOS/Source/tasks.c:2040-2060 | xTaskResumeAll makes every pending task ready once the scheduler runs again |
| KernelWakes.PendingStep | Middlewares/Third_Party/FreeRTOS/Source/tasks.c:2017-2124 | Every kernel step leaves a pending task pending until the scheduler is resumed, and then it is ready |
| KernelWakes.EventWakesIff | Middlewares/Third_Party/FreeRTOS/Source/tasks.c:2894-2940 | An event makes the first waiter ready if the scheduler runs and pending if it does not, and touches nobody else |
| KernelWakes.ResumeWakesIff | Middlewares/Third_Party/FreeRTOS/Source/tasks.c:1702-1750 | After vTaskResume a task is ready if and only if it was, or it is suspended, waits for nothing and is not the running one; nobody else is touched |
| KernelWakes.ResumeFromISRWakesIff | Middlewares/Third_Party/FreeRTOS/Source/tasks.c:1756-1821 | From an interrupt a suspended task becomes ready if the scheduler runs and pending if it does not |
| KernelWakes.DeletedIs | Middlewares/Third_Party/FreeRTOS/Source/tasks.c:1048-1133 | A task that deletes itself is on the termination list and waits for nothing; any other is gone; nobody else is touched |
| KernelWakes.ResetUnblockExact | Middlewares/Third_Party/FreeRTOS/Source/tasks.c:3635-3658 | The recomputed next unblock time is the earliest wake time on the current delayed list, and the maximum if nobody is on it |
| KernelWakes.DeleteUnblockExact | Middlewares/Third_Party/FreeRTOS/Source/tasks.c:1130-1146 | It is exact after another task has been deleted |
| KernelWakes.PendingUnblockExact | Middlewares/Third_Party/FreeRTOS/Source/tasks.c:2062-2071 | It is exact after pending tasks have been made ready |
| KernelValues.WaitedForStays | Middlewares/Third_Party/FreeRTOS/Source/tasks.c:2837-2870 | Over every run, the bits and options a task waits for stay in its event item until a setter wakes it or it uses the item again, whatever happens to its priority |
| KernelValues.DeliveredStays | Middlewares/Third_Party/FreeRTOS/Source/tasks.c:2962-3003 | Over every run, what a setter of event bits leaves in the item is what the woken task finds there, whatever happens to its priority |
| KernelValues.StepCarries | Middlewares/Third_Party/FreeRTOS/Source/tasks.c:1402-1559 | No kernel step by others, a change or inheritance of priority included, changes an event item that is in use for event bits |
| KernelValues.ResetStandsForPriority | Middlewares/Third_Party/FreeRTOS/Source/tasks.c:4162-4173 | After the reset the item stands for the task's priority |
| KernelObject.TaskKernel.AddTaskToReadyList | Middlewares/Third_Party/FreeRTOS/Source/tasks.c:259-263 | Sets the ready bit and appends the task to the ready list of its priority; the new state is the specified one |
| KernelObject.TaskKernel.ResetNextTaskUnblockTime | Middlewares/Third_Party/FreeRTOS/Source/tasks.c:3635-3656 | The next unblock time becomes the head's wake time, or the maximum for an empty list |
| KernelObject.TaskKernel.SwitchLists | Middlewares/Third_Party/FreeRTOS/Source/tasks.c:239-251 | The two delayed lists change roles, given that the current one is empty, and the overflow count goes up |
| KernelObject.TaskKernel.UnblockExpired | Middlewares/Third_Party/FreeRTOS/Source/tasks.c:2532-2608 | The loop unblocks every task whose time has come and says whether one should preempt; state and flag equal the specified recursion |
| KernelObject.TaskKernel.IncrementTickCount | Middlewares/Third_Party/FreeRTOS/Source/tasks.c:2499-2668 | The whole tick function, suspended or not, equals its specification: it refines the unbounded clock, and Preemption.TickAnswersAlways says of states and priorities when its answer asks for a switch |
| KernelObject.TaskKernel.LeaveReadyList | Middlewares/Third_Party/FreeRTOS/Source/tasks.c:4706-4717 | The running task leaves its ready list; the bit is cleared exactly when the list is empty |
| KernelObject.TaskKernel.AddCurrentTaskToDelayedList | Middlewares/Third_Party/FreeRTOS/Source/tasks.c:4692-4762 | Files the running task on the current, overflow or suspended list as specified, and lowers the next unblock time if needed |
| KernelObject.TaskKernel.FindPosition | Middlewares/Third_Party/FreeRTOS/Source/list.c:164-197 | The walk stops at the sorted position |
| KernelObject.TaskKernel.RemoveTaskFromEventList | Middlewares/Third_Party/FreeRTOS/Source/tasks.c:2894-2959 | Wakes the head of the event list as specified and returns whether it has a higher priority than the running task |
| KernelObject.TaskKernel.SwitchToHighest | Middlewares/Third_Party/FreeRTOS/Source/tasks.c:2761-2817 | A list that is not empty is always found by the bitmap, its index moves on by one, and that task runs; SwitchAlwaysSelectsHighest says it is the right one |
| KernelObject.TaskKernel.DrainPending | Middlewares/Third_Party/FreeRTOS/Source/tasks.c:2041-2058 | The loop readies every pending task as specified |
| KernelObject.TaskKernel.ReplayPendedTicks | Middlewares/Third_Party/FreeRTOS/Source/tasks.c:2075-2099 | The loop replays exactly the pended ticks, each with its list switch safe |
| KernelObject.TaskKernel.ResumeScheduler | Middlewares/Third_Party/FreeRTOS/Source/tasks.c:2017-2124 | Pending tasks are readied and pended ticks replayed as in the model that ResumeAllRefines relates to the unbounded clock; says that a yield was done exactly when one was pending and the scheduler runs |
| KernelObject.TaskKernel.MoveToPriority | Middlewares/Third_Party/FreeRTOS/Source/tasks.c:3733-3754 | Moves a ready task between ready lists with the bitmap kept, or only changes the number |
| KernelObject.TaskKernel.Inherit | Middlewares/Third_Party/FreeRTOS/Source/tasks.c:3706-3765 | The holder is raised and moved between ready lists as in the model; InheritRanks says what that does to every priority |
| KernelObject.TaskKernel.Disinherit | Middlewares/Third_Party/FreeRTOS/Source/tasks.c:3772-3846 | The new state is the one GiveRanks describes; asks for a switch exactly when the last mutex was given and a priority was inherited |
| KernelObject.TaskKernel.PlaceOnEventList | Middlewares/Third_Party/FreeRTOS/Source/tasks.c:2820-2834 | The running task is filed by priority among the waiters and delayed, as specified |
| KernelObject.TaskKernel.FindEventPosition | Middlewares/Third_Party/FreeRTOS/Source/list.c:164-197 | The walk over event items stops at the position behind all waiters of equal or higher priority |
| KernelObject.TaskKernel.PlaceOnUnorderedEventList | Middlewares/Third_Party/FreeRTOS/Source/tasks.c:2837-2858 | Stores the marked item value, joins the waiters at the end and delays, as specified |
| KernelObject.TaskKernel.PlaceOnEventListRestricted | Middlewares/Third_Party/FreeRTOS/Source/tasks.c:2863-2889 | Joins the waiters at the end and delays, without time-out on request |
| KernelObject.TaskKernel.RemoveTaskFromUnorderedEventList | Middlewares/Third_Party/FreeRTOS/Source/tasks.c:2962-3004 | Stores the marked value, takes the task off both lists and readies it although the scheduler is suspended; says whether it outranks the caller |
| KernelObject.TaskKernel.Suspend | Middlewares/Third_Party/FreeRTOS/Source/tasks.c:1566-1601 | The task leaves every list, the ready bit follows, and it ends on the suspended list |
| KernelObject.TaskKernel.Resume | Middlewares/Third_Party/FreeRTOS/Source/tasks.c:1702-1748 | Readies the task exactly when it is really suspended and not the caller; asks for a yield exactly when it then ranks at least as high |
| KernelObject.TaskKernel.ResumeFromISR | Middlewares/Third_Party/FreeRTOS/Source/tasks.c:1756-1821 | The same from an interrupt; while the scheduler is suspended the task goes to the pending-ready list |
| KernelObject.TaskKernel.Delete | Middlewares/Third_Party/FreeRTOS/Source/tasks.c:1048-1117 | A task that deletes itself ends on the termination list; another is gone and the next unblock time is reset |
| KernelObject.TaskKernel.PrioritySet | Middlewares/Third_Party/FreeRTOS/Source/tasks.c:1402-1559 | The base priority changes, an inherited priority stays, and a ready task changes lists; asks for a yield exactly when another task may now have to run |
| KernelObject.TaskKernel.ResetEventValue | Middlewares/Third_Party/FreeRTOS/Source/tasks.c:4162-4173 | Returns the value of the event item and makes it stand for the priority again |
| KernelRanks.NeutralRanks | Middlewares/Third_Party/FreeRTOS/Source/tasks.c:2499-2668 | Every kernel operation that is not about priorities or mutexes leaves all priorities, base priorities and mutex counts alone, and every event item's value except that of a task that waits for event bits, is set bits for, or resets its item; a new task starts with its base priority and no mutex |
| PriorityInheritance.InheritanceAlways | Middlewares/Third_Party/FreeRTOS/Source/tasks.c:3706-3846 | Over every run with mutexes given only by their holder: the mutex count is the number of mutexes naming the task; its priority is exactly the highest of its base and the priorities lent to it since it last held none, so equal to the base when it holds none; every priority is some task's base priority |
| PriorityInheritance.InheritedUntilGiven | Middlewares/Third_Party/FreeRTOS/Source/queue.c:1380-1397 | From the moment a task of priority p found a mutex taken until the holder gives that mutex, whatever else happens in any order, the holder is the same and its priority is at least p |
| PriorityInheritance.InheritanceIsOneLevel | Middlewares/Third_Party/FreeRTOS/Source/tasks.c:3706-3765 | A claim of priority p on one mutex leaves the holder of another at p or above if and only if it holds both or was that high already |
| PriorityInheritance.StepKeeps | Middlewares/Third_Party/FreeRTOS/Source/queue.c:1706-1721 | Every take, claim, give and other kernel step keeps the inheritance invariant and the scheduler invariant |
| PriorityInheritance.ClaimStays | Middlewares/Third_Party/FreeRTOS/Source/queue.c:1380-1397 | A claim on a mutex and its holder stay until the mutex is given |
| PriorityInheritance.InheritRanks | Middlewares/Third_Party/FreeRTOS/Source/tasks.c:3706-3765 | Inheritance raises the holder to the claimant's priority if that is higher and changes nobody else |
| PriorityInheritance.GiveRanks | Middlewares/Third_Party/FreeRTOS/Source/tasks.c:3772-3846 | Giving lowers the count by one and restores the base priority exactly when it was the last mutex |
| PriorityInheritance.TakeRanks | Middlewares/Third_Party/FreeRTOS/Source/tasks.c:4178-4188 | Taking adds one to the count of the running task and changes nothing else |
| PriorityInheritance.ReachedIffClaimed | Middlewares/Third_Party/FreeRTOS/Source/tasks.c:3706-3846 | Over every run: a task is at p or above if and only if its own priority is, or a task that high at the time claimed one of its mutexes since it last held none |
| PriorityInheritance.OneStepRaisesIff | Middlewares/Third_Party/FreeRTOS/Source/tasks.c:3706-3846 | A step raises a task from below p to p or above if and only if it is a claim that high on a mutex it holds |
| PriorityInheritance.ReachesIffClaimed | Middlewares/Third_Party/FreeRTOS/Source/tasks.c:3706-3846 | In the course of a run a task below p reaches p if and only if some step is such a claim |
| PriorityInheritance.EarlierClaimFallsShort | Middlewares/Third_Party/FreeRTOS/Source/queue.c:1380-1397 | The order of claims decides: when a task of priority p claims a mutex, the holder of a second one that its holder waits for already is raised to p later if and only if such a claim on it is made later |
| PriorityInheritance.LaterClaimCarries | Middlewares/Third_Party/FreeRTOS/Source/queue.c:1380-1397 | In the other order p is handed on: a holder from whom a task of priority p has claimed hands p on when it then claims a second mutex itself, until that is given |
| BlockTime.WaitingCall.SetTimeOutState | Middlewares/Third_Party/FreeRTOS/Source/tasks.c:3007-3012 | Records the two counters |
| BlockTime.WaitingCall.CheckForTimeOut | Middlewares/Third_Party/FreeRTOS/Source/tasks.c:3015-3073 | Answer, time-out state and remaining ticks are those of the check that CheckCorrectIff judges; state and ticks are updated only when there was no time-out |
| BlockTime.CheckCorrectIff | Middlewares/Third_Party/FreeRTOS/Source/tasks.c:3015-3073 | On the unbounded clock a check answers correctly (time-out exactly when the wait is over, else the right remainder) if and only if the clock overflowed at most once since the reset, or the overflow test catches it, or the wrapped difference is already long enough |
| BlockTime.TwiceRoundTheClock | Middlewares/Third_Party/FreeRTOS/Source/tasks.c:3043-3056 | A wait that went twice round the clock is mistaken for a short one |
| BlockTime.BudgetConserved | Middlewares/Third_Party/FreeRTOS/Source/queue.c:841-917 | Through any number of wake-and-retry rounds, with at most one overflow between checks: last reset plus remaining ticks is the original deadline, and a time-out is reported exactly when a check reached it |
| BlockTime.NeverTimesOutEarly | Middlewares/Third_Party/FreeRTOS/Source/tasks.c:3015-3073 | A time-out is never reported early, however often the clock overflows between checks |
| BlockTime.MaxDelayNeverTimesOut | Middlewares/Third_Party/FreeRTOS/Source/tasks.c:3032-3041 | The maximum block time never times out |
| BlockTime.BlocksUntilTheDeadline | Middlewares/Third_Party/FreeRTOS/Source/queue.c:883-897 | A call that blocks again after any rounds sleeps, on the kernel's delayed lists, until its original deadline |
| BlockTime.KernelCounters | Middlewares/Third_Party/FreeRTOS/Source/tasks.c:239-251 | The tick count and the overflow count of the kernel are the two halves of the unbounded time |
| TimerSpec.PlacementExact | Middlewares/Third_Party/FreeRTOS/Source/timers.c:683-721 | For a command given at true time C and performed at T less than one wrap later, with any period P: process now exactly when T - C >= P; otherwise the current list exactly when C + P lies in T's epoch, else the overflow list |
| TimerSpec.SwitchHeadProgress | Middlewares/Third_Party/FreeRTOS/Source/timers.c:882-922 | Each turn of the switch loop strictly lowers the ticks left in the epoch summed over the list, although timers are filed again, and sends at most one command per timer |
| TimerObject.TimerDaemon.InsertTimerInActiveList | Middlewares/Third_Party/FreeRTOS/Source/timers.c:683-721 | Result and new lists are those of the specified insertion: the decision of PlacementExact, and the entry at its sorted place |
| TimerObject.TimerDaemon.ProcessExpiredTimer | Middlewares/Third_Party/FreeRTOS/Source/timers.c:498-535 | The head leaves the current list; an auto-reload timer is filed again or, when late, sent a restart command, a one-shot timer is done; either is called back, as TimerRuns.CatchUpExact and TimerRuns.OneShotExact count over whole runs |
| TimerObject.TimerDaemon.ExpireHead | Middlewares/Third_Party/FreeRTOS/Source/timers.c:882-922 | One turn of the loop: the head is called back and stays in the epoch or is sent a restart command (counted exactly in TimerRuns.SwitchOwn) |
| TimerObject.TimerDaemon.SwitchTimerLists | Middlewares/Third_Party/FreeRTOS/Source/timers.c:871-927 | The loop terminates, and its state is that of the switch whose callbacks SwitchCallsExactly counts; with room for one command per listed timer the command queue does not overflow |
| TimerObject.TimerDaemon.SampleTimeNow | Middlewares/Third_Party/FreeRTOS/Source/timers.c:660-680 | Switches the lists exactly when the tick count is less than at the last sample |
| TimerObject.TimerDaemon.PerformCommand | Middlewares/Third_Party/FreeRTOS/Source/timers.c:783-865 | Start, stop, change of period, deletion and a pended function each have the effect of the daemon model of TimerRuns, where PerformOwn and ReceivesOwn say what a start does |
| TimerObject.TimerDaemon.ProcessReceivedCommand | Middlewares/Third_Party/FreeRTOS/Source/timers.c:724-868 | Takes the oldest message, takes its timer off its list, samples the time and performs the command |
| TimerObject.TimerDaemon.SendCommand | Middlewares/Third_Party/FreeRTOS/Source/timers.c:417-457 | Appends the command unless the queue is full |
| TimerObject.SwitchLeavesRoom | Middlewares/Third_Party/FreeRTOS/Source/timers.c:871-927 | A switch sends at most one command per listed timer |
| TimerObject.TimerDaemon.ProcessTimerOrBlockTask | Middlewares/Third_Party/FreeRTOS/Source/timers.c:574-631 | Switches the lists, processes the expired head, or says for how long to block: exactly until there is something to do (TimerBlocking.BlocksUntilWork) |
| TimerSwitch.SwitchCallsExactly | Middlewares/Third_Party/FreeRTOS/Source/timers.c:871-927 | Before the lists are switched, an auto-reload timer that expires at E is called back exactly (2^32 - 1 - E) / P + 1 times, a one-shot timer once, whatever other timers are on the list |
| TimerSwitch.SwitchLeavesOthers | Middlewares/Third_Party/FreeRTOS/Source/timers.c:871-927 | A timer that is not on the current list is not called back by the switch |
| TimerRuns.CatchUpExact | Middlewares/Third_Party/FreeRTOS/Source/timers.c:574-631 | In every interleaving of daemon, clock and other tasks' commands: an auto-reload timer started at C and not otherwise commanded has been called back exactly floor((T - C) / P) times whenever the daemon blocks at tick T, if the clock is sampled once per wrap while a timer is active, no command for the timer waits 2^32 ticks and the command queue never overflows |
| TimerRuns.StepKeeps | Middlewares/Third_Party/FreeRTOS/Source/timers.c:574-868 | Every step keeps the timer in exactly one place: its restart command in the queue or in hand with the time it was last due, or an item on the list its next due time belongs to |
| TimerRuns.PerformOwn | Middlewares/Third_Party/FreeRTOS/Source/timers.c:785-813 | Performing the timer's start command either calls back once and sends the next command, exactly when it is late, or files it for its next due time |
| TimerRuns.ExpiredOwn | Middlewares/Third_Party/FreeRTOS/Source/timers.c:498-535 | An expired timer is called back once and is filed, or commanded, for the right time |
| TimerRuns.SwitchOwn | Middlewares/Third_Party/FreeRTOS/Source/timers.c:882-922 | In the switch loop the timer is called back once and stays in the epoch or is commanded to restart |
| TimerRuns.ReceivesOwn | Middlewares/Third_Party/FreeRTOS/Source/timers.c:724-868 | Receiving the timer's own command keeps it in exactly one place |
| TimerRuns.PollIsProcessOrBlock | Middlewares/Third_Party/FreeRTOS/Source/timers.c:574-631 | The first look of the daemon model at the lists is that function, and it is blocked exactly when the function blocks and no command has come |
| TimerRuns.OneShotExact | Middlewares/Third_Party/FreeRTOS/Source/timers.c:498-535 | The one-shot counterpart: called back exactly once if T - C >= P and not at all otherwise, whenever the daemon blocks at T; after the call the timer is on no list and in no command |
| TimerRuns.CatchUpFrom | Middlewares/Third_Party/FreeRTOS/Source/timers.c:574-631 | Both counts hold from any state in which the timer is tracked |
| TimerRuns.StartReceived | Middlewares/Third_Party/FreeRTOS/Source/timers.c:784-812 | Taking the start command of a timer tracks it from there, whether the command is performed at once or after a switch of the lists |
| TimerCommands.StoppedForGood | Middlewares/Third_Party/FreeRTOS/Source/timers.c:759-819 | Over every run: a timer whose stop or delete command has been taken is on no list, in no command and never called back, until somebody commands it again |
| TimerCommands.StopOutrun | Middlewares/Third_Party/FreeRTOS/Source/timers.c:815-819 | But the stop must come last: with a restart of the timer's own queued behind it the timer goes on exactly as if it had not been stopped |
| TimerCommands.RestartsBehindTheStopIff | Middlewares/Third_Party/FreeRTOS/Source/timers.c:509-535 | The daemon queues such a restart if and only if it finds the auto-reload timer a whole period late |
| TimerCommands.ResetCatchUp | Middlewares/Third_Party/FreeRTOS/Source/timers.c:784-812 | Resetting an active timer at C begins anew: the callbacks made by the time the daemon blocks are those due since C |
| TimerCommands.ResetStartsAnew | Middlewares/Third_Party/FreeRTOS/Source/timers.c:784-812 | Taking the reset of an active timer tracks it from the time of the reset |
| TimerCommands.ChangeCatchUp | Middlewares/Third_Party/FreeRTOS/Source/timers.c:821-833 | Changing the period at T begins anew: the callbacks made by the time the daemon blocks are those due since T with the new period |
| TimerCommands.ChangeStartsAnew | Middlewares/Third_Party/FreeRTOS/Source/timers.c:821-833 | Taking a change of period tracks the timer with the new period from that time |
| TimerCommands.HeldChangeStartsAnew | Middlewares/Third_Party/FreeRTOS/Source/timers.c:821-833 | The same when the lists had to be switched first |
| TimerCommands.TakenIsAbsent | Middlewares/Third_Party/FreeRTOS/Source/timers.c:759-770 | Whatever the command is, once it is taken the timer is on no list and in no other command |
| TimerBlocking.BlocksUntilWork | Middlewares/Third_Party/FreeRTOS/Source/timers.c:574-631 | The daemon blocks exactly until the first tick at which a timer expires or the epoch ends, without end if no timer is active, and not at all if there is something to do now; at tick 0 of an epoch in which no timer expires it only looks again |
| TimerBlocking.NeverOversleeps | Middlewares/Third_Party/FreeRTOS/Source/timers.c:600-625 | Over every run the daemon blocks no longer than until the next due time of any active timer |
| TimerBlocking.TurnsAreTheSwitch | Middlewares/Third_Party/FreeRTOS/Source/timers.c:871-927 | The daemon left alone in its switching loop does what the switch of the lists is specified to do |
| TimerBlocking.FallenTickCount | Middlewares/Third_Party/FreeRTOS/Source/timers.c:660-680 | When the tick count has fallen the lists are switched, turn by turn as in the runs, and the daemon does not block |
| EventBits.PackRoundTrip | Middlewares/Third_Party/FreeRTOS/Source/event_groups.c:378-399 | Bits and options packed into an event list item decode to themselves, and the item is not taken for a wake-up |
| EventBits.UnblockedRoundTrip | Middlewares/Third_Party/FreeRTOS/Source/event_groups.c:600-605 | The bits stored at a wake-up come back without control bits and are recognised as a wake-up |
| EventBits.MetMonotone | Middlewares/Third_Party/FreeRTOS/Source/event_groups.c:682-714 | Clearing bits never satisfies a wait condition |
| EventGroups.EventGroup.SetEventBits | Middlewares/Third_Party/FreeRTOS/Source/event_groups.c:530-621 | The walk over the waiters equals the specified set: who stays, who is woken and with what, which bits are cleared; EventWaits.SetReleasesIff says bit by bit which waiter is released |
| EventGroups.EventGroup.ClearEventBits | Middlewares/Third_Party/FreeRTOS/Source/event_groups.c:472-496 | Clears the bits and returns the value before |
| EventGroups.EventGroup.WaitForBits | Middlewares/Third_Party/FreeRTOS/Source/event_groups.c:342-409 | Returns at once, blocks with the packed item, or gives up, as specified; EventWaits.WaitAnswer says bit by bit when it returns and with what |
| EventGroups.EventGroup.SyncOn | Middlewares/Third_Party/FreeRTOS/Source/event_groups.c:223-265 | Sets, and then returns at once, blocks or gives up; EventWaits.SyncAnswer says bit by bit which |
| EventGroups.EventGroup.FinishWait | Middlewares/Third_Party/FreeRTOS/Source/event_groups.c:422-464 | What the wait returns and clears when the blocked task runs again; EventWaits.TimedOutAnswer and EventWaits.WaitsUntilEnough say what that is |
| EventGroups.SetBitsExact | Middlewares/Third_Party/FreeRTOS/Source/event_groups.c:530-621 | Setting bits wakes exactly the waiters satisfied by the old and the set bits together, each with those bits, keeps the order of the others, and leaves the old and the set bits less the bits waited for by the woken clear-on-exit waiters |
| EventGroups.StayingExact | Middlewares/Third_Party/FreeRTOS/Source/event_groups.c:556-612 | Exactly the unsatisfied waiters stay |
| EventGroups.StayingOrder | Middlewares/Third_Party/FreeRTOS/Source/event_groups.c:556-612 | Those that stay keep their order |
| EventGroups.ToClearExact | Middlewares/Third_Party/FreeRTOS/Source/event_groups.c:588-616 | Exactly the union over the woken clear-on-exit waiters is cleared |
| EventGroups.WakeExact | Middlewares/Third_Party/FreeRTOS/Source/event_groups.c:588-606 | Exactly the satisfied waiters receive the new bits, nobody else's item changes |
| EventGroupRuns.StableAlways | Middlewares/Third_Party/FreeRTOS/Source/event_groups.c:530-621 | Over every run: whenever the scheduler is not suspended, no waiting task's condition is satisfied by the bits |
| EventGroupRuns.ReleasedResult | Middlewares/Third_Party/FreeRTOS/Source/event_groups.c:426-464 | A released waiter gets back exactly the bits of the set that released it, and they satisfy its condition |
| EventGroupRuns.TimedOutResult | Middlewares/Third_Party/FreeRTOS/Source/event_groups.c:428-453 | A waiter that timed out returns the present bits, and clears its own exactly when they now satisfy it and it was to clear |
| EventGroupRuns.Rendezvous | Middlewares/Third_Party/FreeRTOS/Source/event_groups.c:208-321 | If each task of a party sets a bit no other sets, waits for the union without time-out, from a state with the union clear and untouched by others, then in any order of arrival and with any other operations in between nobody is released before the last arrival; from then on everybody is, with every bit of the union, and the union is clear |
| EventGroupRuns.CompleteExactly | Middlewares/Third_Party/FreeRTOS/Source/event_groups.c:225-238 | The union is complete exactly when the last task arrives |
| EventGroupRuns.StepKeeps | Middlewares/Third_Party/FreeRTOS/Source/event_groups.c:208-496 | Every operation keeps bits, waiters and woken tasks consistent and leaves no satisfied waiter |
| EventGroupRuns.TimeOutExact | Middlewares/Third_Party/FreeRTOS/Source/tasks.c:2570-2582 | A timed-out waiter leaves the list with its item unchanged, and nobody else does |
| EventWaits.WaitsUntilEnough | Middlewares/Third_Party/FreeRTOS/Source/event_groups.c:324-469 | Over every run: a blocked task whose block time does not run out waits exactly as long as no setter makes the bits enough (any: one bit set and waited for; all: every bit), and then returns the bits of the first such moment |
| EventWaits.WaitAnswer | Middlewares/Third_Party/FreeRTOS/Source/event_groups.c:342-409 | xEventGroupWaitBits returns at once if and only if one bit, or for all every bit, waited for is set, or it may not block; it returns the bits as they were and clears those waited for if let through and asked to; otherwise its caller is the last waiter |
| EventWaits.SetReleasesIff | Middlewares/Third_Party/FreeRTOS/Source/event_groups.c:553-611 | A setter releases a waiter if and only if one bit, or for all every bit, it waits for was set or is set now; the waiter later returns exactly the bits of that moment, and if it clears they are clear |
| EventWaits.SyncAnswer | Middlewares/Third_Party/FreeRTOS/Source/event_groups.c:220-262 | xEventGroupSync returns at once if and only if with its own bits every bit waited for is set, or it may not block; then it returns them all and they are clear |
| EventWaits.TimedOutAnswer | Middlewares/Third_Party/FreeRTOS/Source/event_groups.c:425-455 | A wait that ran out of time returns the bits as they are, and clears those waited for if and only if they are enough by then and it was to clear |
| EventWaits.MetIsEnough | Middlewares/Third_Party/FreeRTOS/Source/event_groups.c:682-713 | The test of the wait condition means one bit set and waited for, or for all every bit |
| SymbolSpec.Interning | Middlewares/Third_Party/FreeRTOS-Plus/Source/FreeRTOS-Plus-Trace/trcBase.c:418-441 | Over every run of requests from an empty table: once a symbol (name and channel) has a label, every later request for it returns that label and no other symbol ever gets it |
| SymbolSpec.RefusedIff | Middlewares/Third_Party/FreeRTOS-Plus/Source/FreeRTOS-Plus-Trace/trcBase.c:745-749 | Over every run of requests: one is answered with 0 if and only if no earlier request for the symbol got a label and 1 + the bytes of the symbols labelled so far (length of the name + 6 each) + the length of the new name + 5 reaches the size; otherwise a new symbol gets the first position behind the others. So every symbol gets a label while there is room |
| SymbolSpec.OpenKeeps | Middlewares/Third_Party/FreeRTOS-Plus/Source/FreeRTOS-Plus-Trace/trcBase.c:418-441 | Opening a symbol never alters earlier entries and never stores one twice |
| SymbolSpec.LabelStays | Middlewares/Third_Party/FreeRTOS-Plus/Source/FreeRTOS-Plus-Trace/trcBase.c:418-441 | A label is the same in every later table |
| SymbolSpec.LabelsDiffer | Middlewares/Third_Party/FreeRTOS-Plus/Source/FreeRTOS-Plus-Trace/trcBase.c:418-441 | Different symbols have different labels |
| SymbolSpec.TableHolds | Middlewares/Third_Party/FreeRTOS-Plus/Source/FreeRTOS-Plus-Trace/trcBase.c:735-788 | After any run of requests the table holds exactly the symbols that got a label, without gaps |
| SymbolSpec.ChecksumAdds | Middlewares/Third_Party/FreeRTOS-Plus/Source/FreeRTOS-Plus-Trace/trcBase.c:797-818 | The checksum of two strings in a row is the sum of theirs modulo 64 |
| SymbolTables.SymbolTable.constructor | Middlewares/Third_Party/FreeRTOS-Plus/Source/FreeRTOS-Plus-Trace/trcBase.c:165-167 | The empty table: index 0 is reserved |
| SymbolTables.SymbolTable.GetChecksum | Middlewares/Third_Party/FreeRTOS-Plus/Source/FreeRTOS-Plus-Trace/trcBase.c:797-817 | The 6-bit sum of the characters, and the length with the terminator |
| SymbolTables.SymbolTable.SameString | Middlewares/Third_Party/FreeRTOS-Plus/Source/FreeRTOS-Plus-Trace/trcBase.c:710-710 | The comparison of name and stored bytes, up to the terminator, says whether the strings are equal |
| SymbolTables.SymbolTable.Matches | Middlewares/Third_Party/FreeRTOS-Plus/Source/FreeRTOS-Plus-Trace/trcBase.c:704-716 | The four tests on an entry hold exactly when it is the entry of this name and channel, although the length probe may read beyond the entry |
| SymbolTables.SymbolTable.LookupSymbolTableEntry | Middlewares/Third_Party/FreeRTOS-Plus/Source/FreeRTOS-Plus-Trace/trcBase.c:692-720 | Walking the hash chain in the byte pool terminates because its indices strictly decrease, and finds exactly the symbol's entry, 0 if there is none |
| SymbolTables.SymbolTable.WriteEntry | Middlewares/Third_Party/FreeRTOS-Plus/Source/FreeRTOS-Plus-Trace/trcBase.c:753-775 | The bytes of the new entry are its encoding, and no byte before it changes |
| SymbolTables.SymbolTable.LinkEntry | Middlewares/Third_Party/FreeRTOS-Plus/Source/FreeRTOS-Plus-Trace/trcBase.c:777-784 | Making the entry the head of its chain keeps the whole pool well formed |
| SymbolTables.SymbolTable.CreateSymbolTableEntry | Middlewares/Third_Party/FreeRTOS-Plus/Source/FreeRTOS-Plus-Trace/trcBase.c:735-788 | Appends the entry, or returns 0 when it does not fit, which SymbolSpec.RefusedIff states in bytes over whole runs; earlier bytes are unchanged |
| SymbolTables.SymbolTable.OpenSymbol | Middlewares/Third_Party/FreeRTOS-Plus/Source/FreeRTOS-Plus-Trace/trcBase.c:418-441 | On the bytes: table and result are those of the specified interning table; earlier bytes are unchanged |
| SymbolTables.NewestBelow | Middlewares/Third_Party/FreeRTOS-Plus/Source/FreeRTOS-Plus-Trace/trcBase.c:702-718 | The next index along a chain is smaller |
| SymbolTables.SymbolTable.WriteMeta | Middlewares/Third_Party/FreeRTOS-Plus/Source/FreeRTOS-Plus-Trace/trcBase.c:753-767 | The four bytes of meta-data are written and earlier bytes stand |
| RttRuns.FifoAlways | Middlewares/Third_Party/FreeRTOS-Plus/Source/FreeRTOS-Plus-Trace(streaming)/SEGGER_RTT.c:294-356 | In every interleaving of writer steps with a host that reads at once, or samples the write offset, copies byte by byte and moves the read offset, and does not sample in one window: what the host has read is a prefix of what was accepted, and the rest is in the ring in order |
| RttRuns.WriteCompletes | Middlewares/Third_Party/FreeRTOS-Plus/Source/FreeRTOS-Plus-Trace(streaming)/SEGGER_RTT.c:337-356 | When a call has returned exactly what it set out to store was accepted; without blocking it needs at most two copy passes |
| RttRuns.CallDecides | Middlewares/Third_Party/FreeRTOS-Plus/Source/FreeRTOS-Plus-Trace(streaming)/SEGGER_RTT.c:308-332 | Skip mode sets out to store all or nothing, trim mode the longest prefix that fitted at the check, blocking mode everything |
| RttRuns.HostReadSoundIff | Middlewares/Third_Party/FreeRTOS-Plus/Source/FreeRTOS-Plus-Trace(streaming)/SEGGER_RTT.c:349-352 | A host that takes the offsets as they are reads the next accepted bytes if and only if it is not in the window where the write offset equals the size and the host has caught up |
| RttRuns.WindowReachable | Middlewares/Third_Party/FreeRTOS-Plus/Source/FreeRTOS-Plus-Trace(streaming)/SEGGER_RTT.c:349-352 | That window is reachable in every mode |
| RttRuns.StepKeeps | Middlewares/Third_Party/FreeRTOS-Plus/Source/FreeRTOS-Plus-Trace(streaming)/SEGGER_RTT.c:294-356 | Every step keeps the order of bytes, the progress of the call and the bounds of the offsets |
| RttRuns.FrontTaken | Middlewares/Third_Party/FreeRTOS-Plus/Source/FreeRTOS-Plus-Trace(streaming)/SEGGER_RTT.c:227-273 | Taking the front of what is pending, at once or after copying it byte by byte, keeps order and progress |
| RttRuns.HostCopyKeeps | Middlewares/Third_Party/FreeRTOS-Plus/Source/FreeRTOS-Plus-Trace(streaming)/SEGGER_RTT.c:227-273 | While the writer goes on, the next byte the host copies is the next pending one |
| RttRuns.TurnStores | Middlewares/Third_Party/FreeRTOS-Plus/Source/FreeRTOS-Plus-Trace(streaming)/SEGGER_RTT.c:337-353 | Every turn of the copy loop, in every mode and whatever the host does meanwhile, stores all that is left, or up to the end of the buffer, or until the ring is full: something whenever a byte is free |
| RttRing.PublishAppends | Middlewares/Third_Party/FreeRTOS-Plus/Source/FreeRTOS-Plus-Trace(streaming)/SEGGER_RTT.c:349-352 | Moving the write offset over copied bytes appends exactly them |
| RttRing.StoreDisturbsNothing | Middlewares/Third_Party/FreeRTOS-Plus/Source/FreeRTOS-Plus-Trace(streaming)/SEGGER_RTT.c:345-345 | Copying into free space disturbs no pending byte |
| RttRing.ReadFront | Middlewares/Third_Party/FreeRTOS-Plus/Source/FreeRTOS-Plus-Trace(streaming)/SEGGER_RTT.c:235-267 | Bytes read from the read offset, around the end, are the front of the pending bytes |
| RttObject.UpBuffer.Write | Middlewares/Third_Party/FreeRTOS-Plus/Source/FreeRTOS-Plus-Trace(streaming)/SEGGER_RTT.c:294-356 | With the host moving the read offset before each look at it, in all three modes: the accepted bytes grow by a prefix of the data, all or nothing in skip mode, at least what fitted in trim mode, both in at most two passes; in blocking mode by all of it unless a given number of passes was not enough |
| RttObject.UpBuffer.WritePass | Middlewares/Third_Party/FreeRTOS-Plus/Source/FreeRTOS-Plus-Trace(streaming)/SEGGER_RTT.c:337-353 | One pass appends a chunk, and it goes on until the data is finished, the ring is full or the end of the buffer is reached |
| RttObject.UpBuffer.CheckSpace | Middlewares/Third_Party/FreeRTOS-Plus/Source/FreeRTOS-Plus-Trace(streaming)/SEGGER_RTT.c:309-313 | The computed space is the ring's free space, one byte always unused |
| RttObject.DownBuffer.Read | Middlewares/Third_Party/FreeRTOS-Plus/Source/FreeRTOS-Plus-Trace(streaming)/SEGGER_RTT.c:227-273 | Returns the oldest bytes, all of them or as many as there is room for, and leaves the rest in order |
| RttObject.UpBuffer.WriteBlocking | Middlewares/Third_Party/FreeRTOS-Plus/Source/FreeRTOS-Plus-Trace(streaming)/SEGGER_RTT.c:336-353 | The loop in blocking mode: a growing prefix of the data is accepted, in two passes at least what fitted at the call, and all of it unless a given number of passes was not enough |
| EthernetDriver.LowLevelOutput | Src/netif_ex.c:54-126 | Fails exactly when a descriptor the frame wants is not free, and never writes to a buffer of the DMA; otherwise the length handed over is the frame's, and the buffers in ring order hold the end of the frame: all of it exactly when it is no longer than the ring |
| EthernetDriver.CopyPbuf | Src/netif_ex.c:75-107 | The inner loop terminates on bytes left plus offset and appends one payload to what the buffers hold, or stops at a descriptor that is not free |
| EthernetDriver.LowLevelInput | Src/ethernetif.c:338-416 | Whatever the chain's lengths, the payloads together are the frame in the buffers; all descriptors of the frame go back to the DMA, also when there was no memory, and no others |
| EthernetDriver.Scatter | Src/ethernetif.c:365-392 | The copying loops fill every pbuf of the chain with the frame's bytes in order |
| EthernetDriver.FillPbuf | Src/ethernetif.c:371-390 | The inner loop takes the next bytes of the frame, across buffers |
| EthernetDriver.ReturnDescriptors | Src/ethernetif.c:394-405 | Sets the own bit of exactly the frame's descriptors |
| EthernetDriver.GatherThenScatter | Src/netif_ex.c:54-126 | For any split of a frame into pbufs on either side, what was gathered on a big enough ring with free descriptors is scattered unchanged, and exactly the frame's descriptors go back to the DMA |
| EthernetDriver.BlockedIff | Src/netif_ex.c:54-126 | A frame is refused if and only if the first descriptor, or one that the buffers before it cannot spare, belongs to the DMA |
| DescriptorRing.LostIff | Src/netif_ex.c:66-107 | Nothing of a frame is overwritten exactly when the frame is no longer than the ring |
| DescriptorRing.PutAppends | Src/netif_ex.c:82-106 | Copying into the current buffer appends to what the ring holds |
| CrcTable.EntryIsBitwise | Src/crc16.c:3-38 | Every one of the 256 table entries is eight bit steps of the reflected polynomial 0xA001 from its index |
| Crc16.TableStepIsStep | Src/crc16.c:45-50 | One turn of the loop is eight bit steps on the register with the byte added |
| Crc16.Calc | Src/crc16.c:40-53 | For every byte string the table form computes the bit-by-bit CRC-16 with initial value 0xFFFF |
| Crc16.ResidueIsZeroIff | Src/crc16.c:40-53 | A message followed by two bytes has CRC 0 exactly when they are its CRC, low byte first |
| Crc16.AdjacentBytesNeverCollide | Src/crc16.c:40-53 | Messages that differ only within two adjacent bytes have the same CRC exactly when they are equal |
| Crc16.OneByteNeverCollides | Src/crc16.c:40-53 | The same for one byte |
| Crc16.SuffixInjective | Src/crc16.c:45-50 | Different registers stay different under the same bytes |
| Crc16.TwoBytesAsWord | Src/crc16.c:45-50 | Two bytes at once are sixteen bit steps on the register with their word added |
| KernelCallers.CallersAllowed | Middlewares/Third_Party/FreeRTOS/Source/tasks.c:1224-1262 | None of the blocking calls asks for zero ticks at the maximal tick: task delays, periodic delays, queue, event-group and notification waits with their time-out checks, and the timer task |
| KernelCallers.DelayUntilExactIff | Middlewares/Third_Party/FreeRTOS/Source/tasks.c:1140-1190 | For every previous wake-up time: a periodic delay lasts exactly until that plus increment, and is none at all if that has come, if and only if the previous wake-up is not ahead of the clock and the wrap since then does no harm |
| KernelCallers.DelayingTaskMayBlock | Middlewares/Third_Party/FreeRTOS/Source/tasks.c:1224-1262 | Whenever a delay call blocks, its delay is a step the runs of the scheduler model contain |
| KernelCallers.AheadIsNeverRight | Middlewares/Third_Party/FreeRTOS/Source/tasks.c:1161-1187 | A previous wake-up ahead of the clock always gives a wrong answer |
| KernelCallers.AheadOfTheClock | Middlewares/Third_Party/FreeRTOS/Source/tasks.c:1161-1187 | Previous wake-up 15, increment 10, tick 10: the answer is not to delay, although 25 has not come |
| KernelCallers.ResumedBeforeItsTime | Middlewares/Third_Party/FreeRTOS/Source/tasks.c:1566-1748 | A task that delays itself, is suspended by another and resumed at once is ready while its wake-up time is still ahead |
| KernelCallers.TaskDelaySleeps | Middlewares/Third_Party/FreeRTOS/Source/tasks.c:1222-1262 | vTaskDelay blocks if and only if the ticks are positive, and then the task sleeps on the unbounded clock until exactly that many ticks later |
| KernelCallers.DelayUntilSleeps | Middlewares/Third_Party/FreeRTOS/Source/tasks.c:1140-1217 | Where the wrap does no harm, vTaskDelayUntil blocks if and only if previous + increment is still to come, and then the task sleeps until exactly that time |
| KernelCallers.QueueWaitSleeps | Middlewares/Third_Party/FreeRTOS/Source/queue.c:869-900 | A queue call that waits since a tick blocks again if and only if since + wait is still to come, and then sleeps until exactly that time |
| KernelCallers.BitsWaitSleeps | Middlewares/Third_Party/FreeRTOS/Source/event_groups.c:385-409 | A wait for event bits or a notification that finds nothing sleeps exactly its block time, or without end; it does not block otherwise |
| MutexChain.ChainStopsHalfWay | Middlewares/Third_Party/FreeRTOS/Source/tasks.c:3706-3765 | A run from the start of the system: low holds the second mutex, middle holds the first and waits for the second, high waits for the first; middle is raised to the priority of high, low is not |

## Left out

- Queue sets, and resetting or deleting a queue in use: they add cases, or break what the protocol assumes.
- The creating and holding side of recursive mutexes, and the choice between queue, mutex and semaphore at creation: a mutex is a queue of length 1 with empty items here.
- Deletion of a task that holds or waits for a mutex, and priority changes by `vTaskPrioritySet` in the inheritance runs: the kernel does not keep holder and priority together there.
- Reaping of deleted tasks by the idle task: the termination list only grows in the model.
- Task notifications, apart from the block times of their waits, co-routines, tickless idle, `xTaskAbortDelay` (compiled out), MPU, static allocation, stacks, statistics, trace hooks.
- Start-up: runs begin in the kernel as the scheduler's start leaves it with only the idle task created, or in any state that satisfies the invariant; the idle task is always ready.
- KernelEvents.EventWakesHighest: speaks of lists that are only waited on in order of priority, by tasks whose event item is not in use by an event group, because the code orders no other lists.
- The position at which a task joins a queue's wait list: `QueueProtocol` leaves it free, which covers every priority order.
- The value copied by a protocol step: `QueueProtocol` counts messages, `QueueObject` has the bytes; its methods use the same control functions.
- The retry loop around the critical sections of `xQueueGenericSend` and `xQueueGenericReceive` as one method: it is the program counter of a task in `QueueProtocol`.
- The wrap of `uxMessagesWaiting`, `uxPendedTicks` and `uxMutexesHeld`, 32-bit counters that are natural numbers here. `xNumOfOverflows` is one in `KernelSpec` too; its wrap is modelled in `BlockTime`.
- Pointers between a task and its list items in the scheduler model: its lists hold task numbers. `ListHeap` has the pointers and is proved against the same list functions of `ListSpec`; a heap of tasks with both is not modelled. `KernelObject` keeps the wake time and the event value in the task.
- Event words and the ready bitmap as machine words: they are the set, or the sequence, of their bits.
- KernelObject.TaskKernel.SwitchLists: the 16-bit tick variant is not modelled, because the configuration uses 32-bit ticks.
- TimerRuns.CatchUpExact: one timer among other timers' commands; a command for this timer ends the run it speaks of, and `TimerCommands` says what the timer does from there.
- TimerObject.TimerDaemon.SendCommand: the block time of a sender is not modelled, because a full queue only matters to the daemon as a refusal.
- EventGroups.EventGroup.WaitForBits: the blocking itself is a step of the scheduler model; here the caller is recorded as a waiter and runs on in `FinishWait`.
- RttObject.UpBuffer.WriteBlocking: follows the loop for a given number of passes, because the source's loop ends only if the host reads.
- RttRuns.FifoAlways: the host does not read in the window where the write offset equals the size, for the reason proved in `RttRuns.HostReadSoundIff`.
- RTT channel allocation, `printf` and input helpers: they store nothing of their own in the rings.
- SymbolTables.SymbolTable.OpenSymbol: names have at most 254 characters, because the stored length is one byte; the byte array has slack for the length probe.
- The driver calls that start or end a DMA transfer and the descriptor status words other than the own bit: hardware. `pbuf_alloc` is a parameter.
- The DMA buffer size is a parameter, because the header that defines ETH_MAX_PACKET_SIZE is not part of this model.
- Memory safety of the C code, memory ordering and the compiler.
- HAL, flash, network stack, shell, bill-counter parsers and serial port: little to prove, or hardware.
