# Verified models of the Furi core

Dafny models of the parts of this firmware whose correctness is hard to see from the code, and proofs
about them:

- **Heap** (`HeapLayout.dfy`, `Heap.dfy`): the first-fit, address-ordered, coalescing allocator. `Heap` is a
  class over linked block headers; its methods are proved to compute the functions `Alloc` and `Release` on a
  `Layout` value, and the theorems (tiling, canonical form, success condition, whole histories) are about those.
- **Event loop** (`Timers.dfy`, `TimerLoop.dfy`, `EventLoop.dfy`, `EventLoopSafety.dfy`, `EventLoopRuns.dfy`,
  `EventLoopHistory.dfy`, `EventLoopService.dfy`, `EventLoopTiming.dfy`, `EventLoopPending.dfy`, `EventSources.dfy`,
  `LoopObject.dfy`): a state machine whose steps are the critical sections of all threads, with a program
  counter for the loop and the set of notifications that producers still owe. Theorems hold for every run from
  allocation on: item lifetime, no lost level event, service within a bounded number of iterations and no callback without a reason,
  notification bits, when timers fire, pending callbacks. What a run does is stated from its steps alone where that
  says more: the subscription last asked for, the messages put and got, the ticks that passed. `EventSources` has the queues and semaphores as objects, `TimerLoop`
  the timers and `LoopObject` the loop, all updated in place. From allocation through the application's setup
  and every branch of `furi_event_loop_run`, the loop object's history is proved to be a run of the state
  machine, with other threads coming in between its critical sections, so the theorems about runs hold of the object.
- **Bit library** (`Bits.dfy`, `BitLib.dfy`, `BitWriter.dfy`, `Parity.dfy`, `Crc.dfy`, `Crc16.dfy`,
  `Polynomials.dfy`, `CrcDivision.dfy`, `CrcLoops.dfy`): extractors, in-place writers, parity insertion and removal,
  both CRCs and the polynomial division they perform.
- **Record registry** (`Record.dfy`), **calendar** (`DateTime.dfy`), **thread list** (`ThreadList.dfy`).

`Sequences.dfy` holds facts about sequences. `dafny verify dfyconfig.toml` checks everything. Where a proof
needs only what a definition promises, a `hide` statement keeps its body away from the solver.

## How to read the model

- A failed `furi_check` or `furi_crash` halts the system. Methods return `ok == false` there; in the state
  machines the step is not enabled, and lemmas show which checks can never fail
  (`UnsubscribeChecksHold`, `CloseAndReturnNeverFault`).
- Sizes, ticks, timestamps and `holders_count` wrap at 32 bits explicitly. The heap uses the 32-bit ARM port's
  alignment and header size, both 8. Pointer protection is a function that undoes itself
  (`CanaryIsInvolution`), the identity before initialisation.
- Clock readings, addresses handed out by the heap, and what a callback or another thread does are parameters.
- M*LIB lists, trees and dictionaries are sequences and maps; a FreeRTOS call, or a critical section, is one
  atomic step.

## Where the code and its promises differ

- `add_parity` with Even makes the number of ones even, while `test_parity_32` with Even accepts an odd number:
  `Parity.InsertedBlockAccepted` and `Parity.InsertThenTest` state which mode accepts what. Of a longer block the
  parity bit counts the last 32 bits only (`Parity.InsertedBlockCounts`).
- The timestamp equals "Seconds Since the Epoch" (section 4.16 of the Base Definitions of POSIX.1-2017) modulo
  2^32 exactly up to the year 2306, because the count of common years is a single byte
  (`DateTime.ExactIffCountersFit`).
- The 16-bit CRC shows every corruption of one byte exactly when one of the low nine bits of the polynomial is
  set, so not only for odd polynomials (`Crc16.Crc16DetectsIff`); the 8-bit one exactly for odd polynomials.
- The header of the event loop allows one subscription per direction of an object; the tree admits one per
  object (`EventLoopRuns.SecondDirectionRefused`), whatever the direction
  (`LoopObject.FuriEventLoop.ObjectSubscribe`).
- A timer left alone for 2^32 ticks looks new again: `Timers.WrapBreaksOrder` is the counterexample to the order
  of the timer list without the bound on elapsed time. With the bound the order holds
  (`Timers.SortedAsTimePasses`).
- A thread that has gone stays in the thread list when it was last seen at the very tick of the next scan
  (`ThreadList.FuriThreadList.Enumerate` has the exact condition, `ThreadList.GoneThreadStays` an input).
- A ThreadFlag bit read together with Pending, but with neither Event nor Timer, is dropped, and this can happen
  right after allocation (`EventLoopRuns.ThreadFlagCanBeDropped`). `EventLoopRuns.ThreadFlagStep` and
  `EventLoopRuns.ThreadFlagFate` state exactly when the bit stays, is delivered and is lost.
- The signed product of the calendar conversion leaves its type after the year 2038, and returns to it in some
  years after 2306, when the byte counters have wrapped (`DateTime.SignedProductFitsIff` says which;
  `DateTime.SignedProductFitsAgain` is one).

## Model

| member | source | states |
|---|---|---|
| `HeapLayout.RoundedSize` | furi/core/memmgr_heap.c:324-350 | the rounded size is a multiple of the alignment, covers the request and its header with less than one alignment of excess, and is 0 exactly for an empty or overflowing request |
| `HeapLayout.CarveTiles` | furi/core/memmgr_heap.c:394-435 | taking a block, split or whole, leaves blocks that are aligned, large enough, disjoint and without gaps, with the free ones listed in address order |
| `HeapLayout.ReleaseWellFormed` | furi/core/memmgr_heap.c:613-669 | giving back any live block keeps the tiling, leaves no two free blocks touching, and removes exactly that block from the live ones |
| `HeapLayout.ReleaseByCases` | furi/core/memmgr_heap.c:630-668 | two successive merges give, for each combination of free neighbours, the list and sizes with the neighbours absorbed |
| `HeapLayout.ReleaseBytes` | furi/core/memmgr_heap.c:516-518 | the bytes in the free list grow by exactly the size of the released block |
| `HeapLayout.CarveBytes` | furi/core/memmgr_heap.c:401-422 | the bytes in the free list shrink by exactly the size of the taken block |
| `HeapLayout.CoveredExactlyOnce` | furi/core/memmgr_heap.c:600-605 | every address of the heap lies in exactly one block |
| `HeapLayout.Canonical` | furi/core/memmgr_heap.c:613-669 | the free list and all sizes are determined by the live blocks and their sizes |
| `HeapLayout.AllocThenRelease` | furi/core/memmgr_heap.c:394-435 | a successful request followed by the release of its block restores the layout exactly |
| `HeapLayout.SucceedsIffFitsLargest` | furi/core/memmgr_heap.c:367-384 | a positive request that does not overflow succeeds exactly when its rounded size is at most the largest free block |
| `HeapLayout.PrecheckRejectsNothing` | furi/core/memmgr_heap.c:368-368 | a request above the total of free bytes fits no free block |
| `HeapLayout.AllocServes` | furi/core/memmgr_heap.c:367-435 | a successful request gets the lowest adequate block, aligned, at least as large as asked and with slack of at most the minimum block size, split exactly when more than that would be left, and leaves every live block as it was |
| `HeapLayout.Run` | furi/core/memmgr_heap.c:311-529 | every sequence of calls from a well-formed heap ends in a well-formed heap with the same bounds |
| `HeapLayout.LowWaterIsLeast` | furi/core/memmgr_heap.c:424-426 | `LowWater` is the number of free bytes after some part of the history, and after no part are there fewer |
| `HeapLayout.HistoryIndependent` | furi/core/memmgr_heap.c:311-529 | two histories that end with the same live blocks end with the same free list |
| `HeapLayout.AllFreedIsInitial` | furi/core/memmgr_heap.c:600-609 | a history that leaves nothing live ends with the single initial block |
| `HeapLayout.FreeAllInAnyOrder` | furi/core/memmgr_heap.c:472-529 | freeing all live blocks, in any order, restores the single initial block |
| `Heap.Heap.HeapInit` | furi/core/memmgr_heap.c:567-610 | the headers come to represent one free block between the aligned bounds, and both counters equal its size |
| `Heap.Heap.Search` | furi/core/memmgr_heap.c:371-380 | walking the protected links stops at the first block of adequate size or at the end marker, with its predecessor |
| `Heap.Heap.TakeBlock` | furi/core/memmgr_heap.c:392-436 | the header writes represent the layout with the block taken; free bytes and the low-water mark follow |
| `Heap.Heap.Malloc` | furi/core/memmgr_heap.c:311-469 | the heap computes `Alloc` of its layout, initialising first if needed, returns the payload of the first fit, or 0 where the source halts, and its low-water mark becomes the lesser of itself and the bytes now free |
| `Heap.Heap.InsertBlock` | furi/core/memmgr_heap.c:613-669 | the header writes are those of a release with its merges on both sides |
| `Heap.Heap.Free` | furi/core/memmgr_heap.c:472-529 | the heap computes `Release` of its layout for exactly the live pointers; NULL changes nothing, and a pointer outside the heap, to a free block or to the end marker halts the system |
| `Heap.Heap.Serve` | furi/core/memmgr_heap.c:311-529 | any history of calls on the linked headers computes `Run` of the layout, and the low-water mark is the lesser of what it was and `LowWater` of the history |
| `Heap.Heap.GetHeapStats` | furi/core/memmgr_heap.c:672-710 | the walk reports the true largest and smallest free block and the length of the free list, and the fixed values before initialisation |
| `Ticks.RemainingCountsDown` | furi/core/event_loop_timer.c:12-20 | across wrap-around of the tick counter the remaining time counts down by the ticks that pass and stops at 0 |
| `Timers.Place` | furi/core/event_loop_timer.c:29-50 | the position found has no timer with more time left before it and only timers with more time left from it on |
| `Timers.OrderConsistent` | furi/core/event_loop_timer.c:173-203 | after start, restart, stop or free, exactly the timers with a request are queued, once, and exactly the active ones listed, once |
| `Timers.DrainOneConsistent` | furi/core/event_loop_timer.c:89-116 | carrying out one request keeps that bookkeeping |
| `Timers.FireConsistent` | furi/core/event_loop_timer.c:118-144 | firing the first timer keeps that bookkeeping |
| `Timers.SortedAsTimePasses` | furi/core/event_loop_timer.c:12-51 | the list stays sorted by saturated remaining time as ticks pass and the counter wraps, while elapsed times stay below 2^32 |
| `Timers.WrapBreaksOrder` | furi/core/event_loop_timer.c:12-20 | without that bound there is a sorted list that becomes unsorted |
| `Timers.DrainOneSorted` | furi/core/event_loop_timer.c:26-51 | carrying out a request keeps the list sorted |
| `Timers.FireSorted` | furi/core/event_loop_timer.c:129-140 | firing and rescheduling keeps the list sorted |
| `Timers.NoDrift` | furi/core/event_loop_timer.c:131-136 | however late, a periodic timer moves by a whole positive number of intervals without overflow, keeps its phase, and its next deadline is after the tick read and at most one interval ahead |
| `Timers.FireKeepsPhase` | furi/core/event_loop_timer.c:118-144 | a periodic timer found due at one tick and moved at a later one lands in its next period: a whole positive number of intervals on, with a deadline still to come |
| `Timers.FireChangesOnlyFirst` | furi/core/event_loop_timer.c:118-144 | firing changes no interval, request or kind: of the first timer the start when periodic, the activity when not, of the others nothing; it is listed again exactly when periodic |
| `Timers.DrainStartsClock` | furi/core/event_loop_timer.c:97-104 | the timer at the head of the queue, started with the tick read, runs with the interval asked for and has all of it left at that tick |
| `Timers.QueuedInOrder` | furi/core/event_loop_timer.c:53-72 | between two drains the queue holds the timers in the order of their last orders |
| `Timers.DrainSettles` | furi/core/event_loop_timer.c:89-116 | a drain gives every timer the outcome of its request and leaves no request |
| `Timers.LastOrderWins` | furi/core/event_loop_timer.c:53-116 | after a drain a timer's existence, activity and interval are what its last order since the previous drain says, whatever the earlier orders were |
| `Timers.TickPaysOneInterval` | furi/core/event_loop_tick.c:35-40 | a due tick is paid off by exactly one interval, one not due is left alone |
| `Timers.SleepsNoLongerThanAnyTimer` | furi/core/event_loop.c:223-225 | the computed sleep is at most the remaining time of every active timer and of the tick |
| `Timers.SleepEndsInWork` | furi/core/event_loop.c:223-225 | a finite sleep slept out ends with the first timer or the tick due, and no listed timer's elapsed time wraps before that |
| `TimerLoop.TimerLoop.Alloc` | furi/core/event_loop_timer.c:150-171 | a new timer is inactive, without a request, neither queued nor listed, and the bookkeeping is kept |
| `TimerLoop.TimerLoop.ScheduleTimer` | furi/core/event_loop_timer.c:26-51 | the backward scan inserts the timer where `Schedule` does |
| `TimerLoop.TimerLoop.EnqueueRequest` | furi/core/event_loop_timer.c:53-72 | the timer is moved to the back of the queue with the new request; a freed timer is refused |
| `TimerLoop.TimerLoop.Start` | furi/core/event_loop_timer.c:180-187 | starting is the start order on the timers, with the bookkeeping kept |
| `TimerLoop.TimerLoop.Restart` | furi/core/event_loop_timer.c:189-196 | restarting is the restart order, with the bookkeeping kept |
| `TimerLoop.TimerLoop.Stop` | furi/core/event_loop_timer.c:198-203 | stopping is the stop order, with the bookkeeping kept |
| `TimerLoop.TimerLoop.FreeTimer` | furi/core/event_loop_timer.c:173-178 | freeing is the free order, with the bookkeeping kept |
| `TimerLoop.TimerLoop.ProcessTimerQueue` | furi/core/event_loop_timer.c:89-116 | the loop carries out all requests in order, ends with an empty queue and keeps the bookkeeping |
| `TimerLoop.TimerLoop.ProcessExpiredTimers` | furi/core/event_loop_timer.c:118-144 | fires exactly when the first timer has run out at the tick of the test, and then changes the timers as `Fire` does; a periodic timer, its elapsed periods read no earlier than that, is then in its next period |
| `TimerLoop.TimerLoop.GetTimerWaitTime` | furi/core/event_loop_timer.c:78-87 | the wait time is that of the first timer, and no active timer of a sorted list has less time left |
| `EventLoopSafety.SafeStep` | furi/core/event_loop.c:118-191 | every step of every thread keeps tree, links, waiting list and live items in agreement, without duplicates |
| `EventLoopSafety.UnsubscribeChecksHold` | furi/core/event_loop.c:452-469 | for a subscribed object no check of unsubscribe can fail |
| `EventLoopSafety.CallbackOnlyForSubscribed` | furi/core/event_loop.c:118-141 | a callback starts only for an item that its object is subscribed with at that moment |
| `EventLoopSafety.FreedOnceAndForgotten` | furi/core/event_loop.c:183-185 | a deferred free hits a live item that list, tree and links no longer name, and leaves only owned items |
| `EventLoopSafety.RisesOnlyWhenOwed` | furi/core/message_queue.c:57-141 | a level rises only by an operation that then notifies that direction, for queues and for semaphores |
| `EventLoopSafety.NoLostLevelStep` | furi/core/event_loop.c:104-191 | every step keeps this: a high level of a level subscription is queued, in hand before its last check or re-queue, or some thread owes its notification |
| `EventLoopRuns.RunInvariant` | furi/core/event_loop.c:208-258 | all invariants hold after every run of steps of all threads |
| `EventLoopRuns.ItemsLiveWhileNamed` | furi/core/event_loop.c:172-191 | in every run the loop touches only live items, and the item about to be processed is subscribed |
| `EventLoopRuns.NothingLeaks` | furi/core/event_loop.c:446-482 | with no item in hand the live items are exactly the subscribed ones |
| `EventLoopRuns.QueuedWorkHasItsBit` | furi/core/event_loop.c:158-258 | at the top of the loop a non-empty waiting list, timer queue or pending queue has its bit set |
| `EventLoopRuns.SleepIsNeverTooLong` | furi/core/event_loop.c:223-225 | in every run the computed sleep exceeds the remaining time of no active timer and not that of the tick |
| `EventLoopRuns.SleepIsNeverTooShort` | furi/core/event_loop.c:223-225 | in every run, sleeping the computed finite time undisturbed is possible and ends with the first timer or the tick due |
| `EventLoopRuns.FiresOnlyIfArmed` | furi/core/event_loop.c:255-257 | timers are fired only with an empty request queue and only when last started |
| `EventLoopRuns.NeverFiresAfterStop` | furi/core/event_loop_timer.c:173-203 | after stop or free returns, no run fires the timer until it is started again |
| `EventLoopRuns.ThreadFlagStep` | furi/core/event_loop.c:231-249 | the ThreadFlag bit stays set or to be restored through every step but a wait that reads Stop or neither Event nor Timer; that wait delivers it exactly if it reads neither Stop nor Pending |
| `EventLoopRuns.ThreadFlagFate` | furi/core/event_loop.c:222-258 | through every run the bit stays until the first such wait, which delivers or drops it under that condition |
| `EventLoopRuns.ThreadFlagCanBeDropped` | furi/core/event_loop.c:244-245 | a run from allocation on in which the bit is dropped |
| `EventLoopRuns.SecondDirectionRefused` | furi/core/event_loop.c:330-347 | an object subscribed in one direction takes no subscription in the other, although that slot of its link is free |
| `EventLoopRuns.PlaceImproves` | furi/core/event_loop.c:143-156 | no step moves a waiting item back, and every iteration that begins, by reading bits or by timing out, brings it forward |
| `EventLoopRuns.FairTurn` | furi/core/event_loop.c:172-191 | an item at index k is taken within k + 1 iterations, timed-out ones included, unless it is unsubscribed or the loop stops, whatever else happens |
| `EventLoopHistory.SubscriptionsFromHistory` | furi/core/event_loop.c:316-482 | in every run from allocation on, an object is subscribed exactly as its last subscription not followed by its end asked: that item, that direction, that trigger kind |
| `EventLoopHistory.NoLevelEventIsLost` | furi/core/event_loop.c:104-191 | in every run from allocation on, when an object's last subscription is level-triggered and its level is high, the item is queued, in hand before its last check or re-queue, or some thread owes the notification |
| `EventLoopHistory.QuietMeansServed` | furi/core/event_loop.c:222-258 | when the loop is about to sleep without bits and no notification is owed, no object last subscribed level-triggered has a high level |
| `EventLoopHistory.QueueIsFifo` | furi/core/message_queue.c:57-208 | through every run a queue holds the messages put since the last reset without those got since, in the order of putting; put succeeds exactly below the capacity, get exactly when fewer were got than put |
| `EventLoopHistory.SemaphoreAccounts` | furi/core/semaphore.c:59-127 | through every run the count is what it was plus the units released minus those acquired; release succeeds exactly below the maximum, acquire exactly above zero |
| `EventLoopHistory.NotificationsAccount` | furi/core/event_loop.c:587-601 | the notifications owed are one for each operation in its direction, less those made |
| `EventLoopHistory.TimerBitIffRequests` | furi/core/event_loop_timer.c:63-72 | in every run, at the top of the loop the Timer bit is set exactly if a request waits |
| `EventLoopHistory.EventBitMeansWork` | furi/core/event_loop.c:158-170 | in every run the Event bit goes up only when an item waits |
| `EventLoopHistory.StopIsPrompt` | furi/core/event_loop.c:231-234 | once a stop is requested at most one more iteration begins, and that one stops the loop for good |
| `EventLoopService.HighLevelIsServed` | furi/core/event_loop.c:172-258 | after every run from allocation on that ends at the top of the loop: an object last subscribed level-triggered, its level high and no notification owed, waits at some index k, and at most k + 1 iterations begin before its callback is started, unless its level falls, it is unsubscribed or the loop stops, whatever else happens |
| `EventLoopService.EdgeIsServed` | furi/core/event_loop.c:543-601 | a notification in the direction of an object's last subscription, edge-triggered, leads to its callback before more than k + 1 iterations begin, k being its place, unless it is unsubscribed or the loop stops |
| `EventLoopService.CallbackHasReason` | furi/core/event_loop.c:96-141 | in every run a callback starts only for the item of its object's last subscription, and a level-triggered one only while the level is high |
| `EventLoopService.EdgeNeedsNotification` | furi/core/event_loop.c:330-356 | an edge-triggered subscription is not called back before a notification in its direction, whatever its level |
| `EventLoopService.EdgeIsCalledOnce` | furi/core/event_loop.c:96-102 | after an edge-triggered callback has started, with no notification since it was taken from the list, it is not called again before the next one |
| `EventLoopService.QueuedForReason` | furi/core/event_loop.c:104-356 | an item comes into the waiting list only by a notification for its object and direction, a level-triggered subscription at high level, or by being put back |
| `EventLoopService.PutBackIffStillHigh` | furi/core/event_loop.c:104-116 | the loop decides to put an item back at its second look only, exactly if the level is high then |
| `EventLoopTiming.FiringsTakeTime` | furi/core/event_loop_timer.c:89-144 | from the order to start a timer with interval n on, without another order for it, a run in which it fires k times lets at least k * n ticks pass |
| `EventLoopTiming.StartedTimerCountsDown` | furi/core/event_loop_timer.c:97-104 | from the tick read when the request is taken up, the time left counts down tick by tick from the interval asked for, until the timer fires or gets another order |
| `EventLoopTiming.ListedAgainIfPeriodic` | furi/core/event_loop_timer.c:118-171 | through every run from its allocation, a timer that fires is listed again exactly when it was allocated as periodic, and keeps its interval either way |
| `EventLoopTiming.OutcomeThroughStep` | furi/core/event_loop_timer.c:53-144 | existence, activity and interval that a timer has or is about to have change only by an order, as that order says, and by a one-shot timer's firing, which ends it |
| `EventLoopTiming.PhaseThroughStep` | furi/core/event_loop_timer.c:118-144 | no step without an order for it changes a running periodic timer, but for firing, which moves it by whole intervals into a period that is not over |
| `EventLoopTiming.PhaseKept` | furi/core/event_loop_timer.c:131-136 | through every run without an order for it, a periodic timer keeps its interval and its start stays a whole number of intervals, modulo 2^32, after where it was, at least one for each firing and none without |
| `EventLoopTiming.TickCallsTakeTime` | furi/core/event_loop_tick.c:29-69 | from setting the tick on, a run in which it is called k times lets at least k intervals pass |
| `EventLoopTiming.SleptOutIsServed` | furi/core/event_loop.c:222-257 | a loop about to sleep for a finite time with no bits set, left alone, calls a timer back when it wakes, or else the tick |
| `EventLoopPending.EachCallbackOnceInOrder` | furi/core/event_loop.c:193-310 | in every run the pending callbacks completed, followed by those still queued, are exactly those asked for, in the order of asking |
| `EventLoopPending.RunningCallbackKeepsItsEntry` | furi/core/event_loop.c:193-199 | whatever happens while a pending callback runs, the entry removed afterwards is its own |
| `EventSources.EventSource.PutMessage` | furi/core/message_queue.c:57-99 | reports a parameter error for NULL and for a time-out in interrupt mode, success exactly when there is space once the wait ends, otherwise a time-out or, without a wait, lack of space; after success the message is last, the In level is high and the Out level has not risen, otherwise nothing changes, and the capacity is never exceeded |
| `EventSources.EventSource.GetMessage` | furi/core/message_queue.c:101-141 | the same status codes, with success exactly when there is a message; then it is the oldest one, the Out level is high and the In level has not risen |
| `EventSources.EventSource.ResetQueue` | furi/core/message_queue.c:189-208 | refused in interrupt mode; otherwise the In level is low and the Out level, which is notified, is high |
| `EventSources.EventSource.ReleaseSemaphore` | furi/core/semaphore.c:98-127 | succeeds exactly below the maximum, which is never exceeded, and reports lack of room otherwise; then the In level is high and the Out level has not risen |
| `EventSources.EventSource.AcquireSemaphore` | furi/core/semaphore.c:59-96 | a parameter error for a time-out in interrupt mode, success exactly above zero once the wait ends, otherwise a time-out or lack of units; then the Out level is high and the In level has not risen |
| `LoopObject.FuriEventLoop.Operate` | furi/core/message_queue.c:57-141 | an operation by any thread is that step of the state machine, and the notification is owed from then on; a failed one is no step |
| `LoopObject.FuriEventLoop.LinkNotify` | furi/core/event_loop.c:587-601 | an owed notification is that step of the state machine: the item in the slot, if any, waits once and the Event bit is set |
| `LoopObject.FuriEventLoop.ObjectSubscribe` | furi/core/event_loop.c:316-359 | fails exactly for a subscribed object; otherwise it is that step of the state machine, with the level read from the source |
| `LoopObject.FuriEventLoop.Unsubscribe` | furi/core/event_loop.c:446-482 | fails exactly for an object not subscribed; otherwise it is that step of the state machine, with the free deferred for the current item |
| `LoopObject.FuriEventLoop.TimerAlloc` | furi/core/event_loop_timer.c:150-171 | a timer allocated by the application is that step of the state machine |
| `LoopObject.FuriEventLoop.TimerOrder` | furi/core/event_loop_timer.c:53-203 | start, restart, stop and free fail exactly for a timer freed before; otherwise the order is that step of the state machine, Timer bit included |
| `LoopObject.FuriEventLoop.SetTick` | furi/core/event_loop_tick.c:56-69 | fails exactly for a callback with interval 0; otherwise it is that step of the state machine |
| `LoopObject.FuriEventLoop.RunUserCode` | furi/core/event_loop.c:96-116 | whatever the application calls in its setup or in any callback, and whatever other threads do meanwhile, is a run of the state machine that stays in that code and begins no iteration |
| `LoopObject.FuriEventLoop.GetWaitingItem` | furi/core/event_loop.c:143-156 | takes the first waiting item, or NULL exactly from an empty list, as a step of the state machine |
| `LoopObject.FuriEventLoop.ProcessEvent` | furi/core/event_loop.c:96-141 | from the first look at an item to its status, the code is a run of the state machine with both levels read from the source; the status is the one that run arrives at |
| `LoopObject.FuriEventLoop.ProcessWaitingList` | furi/core/event_loop.c:172-191 | one call is a run of the state machine from the pop to the restoring of the bits, whatever the callback and, at every point in between, other threads do |
| `LoopObject.FuriEventLoop.SyncFlags` | furi/core/event_loop.c:158-170 | that step of the state machine; the Event bit is set whenever the waiting list is not empty |
| `LoopObject.FuriEventLoop.ProcessTimerQueue` | furi/core/event_loop_timer.c:89-116 | the drain, which reads the clock for each request and carries it out while other threads go on, is a run of the state machine that ends with an empty queue |
| `LoopObject.FuriEventLoop.ProcessPendingCallbacks` | furi/core/event_loop.c:193-199 | the pending callbacks, with those they ask for, are a run of the state machine that ends with none left |
| `LoopObject.FuriEventLoop.ProcessExpiredTimers` | furi/core/event_loop_timer.c:118-144 | the test, the counting of elapsed periods and the move, each with its own reading of the clock and other threads in between, are steps of the state machine that lead to the callback exactly when the first timer was due |
| `LoopObject.FuriEventLoop.Enter` | furi/core/event_loop.c:208-222 | the end of the setup is that step of the state machine, and a tick with a callback begins now |
| `LoopObject.FuriEventLoop.Sleep` | furi/core/event_loop.c:227-231 | the wait reads and clears all bits and leads to their branch, or times out exactly with none |
| `LoopObject.FuriEventLoop.TicksToSleep` | furi/core/event_loop.c:223-225 | the time to sleep is at most what any active timer and the tick have left |
| `LoopObject.FuriEventLoop.Iterate` | furi/core/event_loop.c:222-258 | one iteration, in whichever branch, is a run of the state machine in which exactly one iteration begins, from the top of the loop back to it or to its end, whatever callbacks and, at every point in between, other threads do |
| `LoopObject.FuriEventLoop.Run` | furi/core/event_loop.c:208-258 | the loop, from the setup through any number of iterations, is a run of the state machine with as many iterations, which ends early only when stopped or halted |
| `LoopObject.RunApplication` | furi/core/event_loop.c:54-258 | allocation, setup and loop in sequence keep the object a state of such a run |
| `LoopObject.ServedMeanwhile` | furi/core/event_loop.c:222-258 | between two moments of an object's life, the first at the top of the loop, a level-triggered subscription found high with nothing owed has had its callback started once k + 2 iterations have begun, k being its place, unless the level fell, it was unsubscribed or the loop stopped |
| `LoopObject.FuriEventLoop.SubscribedAsAsked` | furi/core/event_loop.c:316-482 | tree and items hold, for every object, the item, direction and trigger kind of the last subscription in the object's history |
| `LoopObject.FuriEventLoop.NoLevelIsLost` | furi/core/event_loop.c:104-191 | at any time in the life of the object, one whose last subscription is level-triggered and whose source is high is waiting, in hand, or owed a notification |
| `LoopObject.FuriEventLoop.TidyAtTop` | furi/core/event_loop.c:222-258 | at the top of the loop the live items are exactly the subscribed ones, none is current, and non-empty waiting list, pending queue and timer queue have their bits |
| `BitLib.GetBitsValue` | lib/bit_lib/bit_lib.c:36-49 | the shifts yield the big-endian value of the selected bits |
| `BitLib.ExtractorsAgree` | lib/bit_lib/bit_lib.c:36-132 | all four extractors equal that value for every length of their width, which is below 2^length |
| `BitWriter.SetBit` | lib/bit_lib/bit_lib.c:14-20 | exactly the addressed bit of the array changes |
| `BitWriter.SetBits` | lib/bit_lib/bit_lib.c:22-30 | the low bits of the byte replace the bits from the position on, and no others |
| `BitWriter.SetThenGet` | lib/bit_lib/bit_lib.c:22-49 | reading back what was written gives the low bits of the byte |
| `BitWriter.RemoveBitEveryNth` | lib/bit_lib/bit_lib.c:224-250 | in place, the bits whose position is not a multiple of n come to the front in order, their number is returned, and the other bits keep their values |
| `BitWriter.ReverseBits` | lib/bit_lib/bit_lib.c:263-274 | the selected bits are in opposite order and the others unchanged |
| `Parity.AddParity` | lib/bit_lib/bit_lib.c:185-222 | the destination receives each block followed by its parity bit, nothing else changes, and the bit count is returned |
| `Parity.RemovalUndoesInsertion` | lib/bit_lib/bit_lib.c:185-250 | dropping every n-th bit of what insertion writes gives the source bits |
| `Parity.RoundTripInPlace` | lib/bit_lib/bit_lib.c:185-250 | on the destination the source is recovered in place and everything outside the region is as before |
| `Parity.InsertThenRemove` | lib/bit_lib/bit_lib.c:185-250 | the two routines in sequence recover source and count, and change nothing outside the region |
| `Parity.ParityOfValue` | lib/bit_lib/bit_lib.c:134-147 | the parity of a word is that of the ones among its bits |
| `Parity.InsertedBlockAccepted` | lib/bit_lib/bit_lib.c:134-222 | an inserted block passes the test of the opposite mode for Even and Odd, and of its own mode exactly for the markers |
| `Parity.InsertedBlockCounts` | lib/bit_lib/bit_lib.c:185-217 | the appended bit makes the number of ones even for Even and odd for Odd, counting at most the last 32 bits of the block; for the markers it is the marker |
| `Parity.AllBlocksAccepted` | lib/bit_lib/bit_lib.c:149-222 | so does every block of an inserted message |
| `Parity.WrittenBlocksAccepted` | lib/bit_lib/bit_lib.c:149-222 | in the destination all blocks pass in the opposite mode, and in their own exactly for the markers or without blocks |
| `Parity.TestParity` | lib/bit_lib/bit_lib.c:149-183 | accepts exactly when every whole block passes |
| `Parity.InsertThenTest` | lib/bit_lib/bit_lib.c:149-222 | the two routines in sequence accept the whole message in the opposite mode, and in the same mode exactly for the markers or an empty source |
| `Crc.Reverse8Bits` | lib/bit_lib/bit_lib.c:357-362 | the masks and shifts put bit k at 7 - k |
| `Crc.Crc8Affine` | lib/bit_lib/bit_lib.c:364-392 | for messages of any length, the CRC of the sum of three messages and registers is the sum of their CRCs, under all flags |
| `Crc.Crc8DetectsOneByte` | lib/bit_lib/bit_lib.c:364-392 | with an odd polynomial any corruption of one byte changes the result |
| `Crc.Crc8DetectsIffOdd` | lib/bit_lib/bit_lib.c:364-392 | detecting all of them is equivalent to an odd polynomial |
| `Polynomials.RegisterDivides` | lib/bit_lib/bit_lib.c:364-420 | feeding bits into the shift register divides: the bits moved up by the width, plus the initial value on top, are quotient times divisor plus register, for any number of bits and any width |
| `Polynomials.RemainderUnique` | lib/bit_lib/bit_lib.c:364-420 | there is only one such remainder |
| `CrcDivision.Crc8IsRemainder` | lib/bit_lib/bit_lib.c:364-392 | for messages of any length the register is the remainder of message times x^8 plus init times x^(8n) on division by x^8 + poly; the flags say in which order bits go in and come out, xorOut is added to the result |
| `CrcDivision.Crc16IsRemainder` | lib/bit_lib/bit_lib.c:394-420 | the same with sixteen bits |
| `CrcDivision.Reverse16Bits` | lib/bit_lib/bit_lib.c:336-355 | the masks and shifts put bit k at 15 - k |
| `CrcLoops.ComputeCrc8` | lib/bit_lib/bit_lib.c:364-392 | the loops compute that CRC, reflection in place included |
| `Crc16.ByteIsTurn` | lib/bit_lib/bit_lib.c:408-413 | feeding a byte bit by bit equals adding it on top and turning the register eight times |
| `Crc16.ReverseThrough16Is8` | lib/bit_lib/bit_lib.c:406-406 | reversing a byte through the 16-bit routine is reversing its eight bits |
| `Crc16.Crc16Affine` | lib/bit_lib/bit_lib.c:394-420 | affine in register and message, for any length and all flags |
| `Crc16.Crc16DetectsOneByte` | lib/bit_lib/bit_lib.c:394-420 | with any of the low nine bits of the polynomial set, any corruption of one byte changes the result |
| `Crc16.Crc16DetectsIff` | lib/bit_lib/bit_lib.c:394-420 | detecting all of them is equivalent to one of those nine bits being set |
| `CrcLoops.ComputeCrc16` | lib/bit_lib/bit_lib.c:394-420 | the loops compute that CRC |
| `Record.FuriRecord.Create` | furi/core/record.c:80-94 | succeeds exactly for non-NULL data and an entry without data, whoever holds it; then the entry has the data and is ready, its holders unchanged |
| `Record.FuriRecord.Destroy` | furi/core/record.c:96-114 | erases exactly an entry without holders; a missing entry halts the system |
| `Record.FuriRecord.OpenBegin` | furi/core/record.c:116-125 | finds or makes the entry and counts one more holder |
| `Record.FuriRecord.Close` | furi/core/record.c:138-149 | counts one holder less; a missing entry halts the system |
| `Record.InvariantStep` | furi/core/record.c:45-149 | every step keeps: holders are the opens not yet closed, ready means data, a present entry has data or a holder, every open's entry is still the one in the dictionary with the data it returned |
| `Record.RecordSafety` | furi/core/record.c:80-149 | all of that after every interleaving of well-paired clients from the empty registry |
| `Record.DestroySucceedsIffUnused` | furi/core/record.c:104-109 | destroy erases the record exactly when nobody has it open or waits for it |
| `Record.CloseAndReturnNeverFault` | furi/core/record.c:127-146 | the check in close cannot fail, the entry address kept across the wait is never stale, and a waiter can return exactly when data is there |
| `Record.HeldUntilClosed` | furi/core/record.c:116-149 | from an open's return to its close the record is never erased and its data never changes |
| `Record.CreateFillsAndWakes` | furi/core/record.c:80-136 | data can be created for every name without data; then the record has it, and every open waiting for that name can return, with that data |
| `Record.WakeupIsNotLost` | furi/core/record.c:80-136 | whatever happens between the create that fills its record and its return, a waiting open stays able to return and returns that data |
| `Record.CallsDecideNames` | furi/core/record.c:80-149 | after every interleaving of paired clients the calls alone decide: create is possible exactly where nothing is provided, destroy exactly for what is provided or in use, with effect exactly when not in use |
| `Record.CallsDecideOpens` | furi/core/record.c:116-149 | and an open is present from its call to its close, can return exactly when its name is provided, and holds the data provided |
| `Record.DataComesFromCreate` | furi/core/record.c:80-94 | an entry's data changes only when create fills an empty one |
| `DateTime.SecondsArePosix` | lib/datetime/datetime.c:40-70 | the count by years, months and days is the POSIX formula, with the day of the year in closed form, for all dates from 1970 |
| `DateTime.MonthByFormula` | lib/datetime/datetime.c:12-16 | every entry of the month table is the difference of two values of the closed form (367 m - 362) / 12, less two, in leap years one, from March on |
| `DateTime.MonthsByFormula` | lib/datetime/datetime.c:60-62 | the days before a month, added up from the table, are that closed form |
| `DateTime.WeekdayIsGregorian` | lib/datetime/datetime.c:74-78 | the day of the week is that of the Gregorian calendar counted from 1 January of year 1, a Monday |
| `DateTime.OrderAgrees` | lib/datetime/datetime.c:40-70 | lexicographic order of real dates is the order of their seconds, and equal seconds mean equal dates |
| `DateTime.ExactIffCountersFit` | lib/datetime/datetime.c:43-56 | the result is the POSIX value modulo 2^32 exactly up to the year 2306 |
| `DateTime.SignedProductFitsIff` | lib/datetime/datetime.c:43-56 | for every year, the signed product is in range exactly up to 2038 and in those years after 2306 whose two counts, reduced modulo 256, make at most 24855 days |
| `DateTime.SignedProductFitsAgain` | lib/datetime/datetime.c:43-56 | in the year 3025 the wrapped counters bring the product back in range |
| `DateTime.MonthsFillTheYear` | lib/datetime/datetime.c:12-16 | the month table adds up to the days of the year |
| `DateTime.ToTimestamp` | lib/datetime/datetime.c:40-70 | the loops with byte counters and a 32-bit sum give the stated value, the POSIX one modulo 2^32 from 1970 to 2306 |
| `DateTime.FromTimestamp` | lib/datetime/datetime.c:72-97 | gives the real date with exactly that many seconds, no later than 2106, and its day of the week, counted day by day from a Thursday |
| `DateTime.TimestampRoundTrip` | lib/datetime/datetime.c:40-97 | timestamp to date to timestamp is the identity on all 32-bit values |
| `DateTime.DateRoundTrip` | lib/datetime/datetime.c:40-97 | date to timestamp to date is the identity on every real date from 1970 that 32 bits can hold |
| `ThreadList.Bijection` | furi/core/thread_list.c:23-25 | array and dictionary are in bijection |
| `ThreadList.FuriThreadList.GetOrInsert` | furi/core/thread_list.c:70-84 | returns the thread's item, or adds a zeroed one to array and dictionary |
| `ThreadList.FuriThreadList.Process` | furi/core/thread_list.c:86-117 | array and dictionary stay in step, the array keeps exactly the items of this tick in order, and exactly their threads remain known, with their entries |
| `ThreadList.FuriThreadList.Enumerate` | furi/core/thread.c:656-688 | afterwards exactly the listed tasks are known, with moved counters, and the gone ones last seen at this very tick |
| `ThreadList.ScanTwice` | furi/core/thread.c:656-688 | after two enumerations that list a task, its entry has the first counter as previous, the second as current one, and the second tick |
| `ThreadList.GoneThreadStays` | furi/core/thread_list.c:86-117 | a thread seen at a tick and gone is still known after a second enumeration at that tick |

## Left out

- FuriEventLoopEventFlagOnce: the item is unsubscribed before it becomes the current one, so it takes the immediate-free path; lifetimes and levels are stated without it.
- Thread flags themselves, and whether their callback is subscribed: only the notification bit is modelled.
- Running a loop again after Stop, and freeing it: the bits read with Stop are discarded; invariants about bits end at the first Stop.
- Mutexes, stream buffers and event flags as event sources: their notifications do not follow the level contract of queues and semaphores.
- Objects destroyed inside their own level callback, and sources linked to several loops: the object outlives the callback, and there is one loop.
- LoopObject.FuriEventLoop.Sleep: how long the kernel sleeps is open; the wait may time out at any moment without bits, and time passes as the other threads' steps say.
- LoopObject.FuriEventLoop.TimerOrder: a periodic timer is not started with interval 0, since the code would divide by it.
- EventSources.EventSource.PutMessage: a waiting call takes effect in one step when its wait ends; the kernel's queue of waiting threads is not modelled. The same holds for the other calls that wait.
- TimerLoop.TimerLoop.ProcessExpiredTimers: a periodic timer has a positive interval, since the code divides by it; an interval of 0xFFFFFFFF cannot be told from waiting forever.
- Timers.SortedAsTimePasses: needs elapsed times below 2^32, which `Timers.WrapBreaksOrder` shows necessary; the state machine lets time pass only that far.
- Timers firing on time: events have priority over timers, so no deadline is promised.
- Heap.Heap.Free: a pointer into the middle of a block is excluded; what the source then takes for a header is payload, which is not modelled.
- Heap.Heap.Serve: resetting the low-water mark (`xPortResetHeapMinimumEverFreeHeapSize`) is no call of the history.
- Heap.Heap.Malloc: payload contents (zeroing), the interrupt check, thread tracing, and wrap-around of the two call counters are not modelled.
- `realloc`, `calloc`, heap tracing and the printing of free blocks.
- Parity.AddParity: the block length is at least 2, as a block has to hold a bit; source and destination are different arrays that hold all blocks, the last partial one counted in full.
- Parity.TestParity: for Even and Odd the block length is at most 32, what the 32-bit extractor takes.
- BitWriter.ReverseBits: the length is at least 1, since the source's index wraps for 0.
- BitWriter.RemoveBitEveryNth: lengths are not limited to a byte, n is positive.
- `bit_lib_push_bit`, `bit_lib_copy_bits`, the conversions between numbers and bytes, and printing: easy beside the rest.
- DateTime.ToTimestamp: the month is at most 13, beyond which the source reads past its table; the signed overflow of the product from 2039 on is taken modulo 2^32.
- Record.RecordSafety: clients close only what they opened, and fewer than 2^32 opens are outstanding; a failed check ends the run.
- ThreadList.FuriThreadList.Process: CPU percentages, in floating point, and the run-time counters of the list.
- ThreadList.FuriThreadList.Enumerate: the kernel lists each task once, and a failing allocation of the status array is not modelled.
- FreeRTOS, interrupt handling and M*LIB themselves, and everything outside the files named in the table.
