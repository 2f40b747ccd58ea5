# RK0 in Dafny

A model of the RK0 real-time kernel (one CPU, every kernel call a critical section) and proofs about
it. Each kernel call is one atomic step; a blocking call is two, with steps of other tasks, ticks and
context switches in between. The runs at the end of each part (`Execute`) take any sequence of steps
from start-up, so what they ensure holds in every reachable state.

Pointers to task control blocks, mutexes and messages are indices into the tables that hold them, as
in the kernel's own static arrays. Error checking is on.

## What is proved

**Scheduler, mutexes, priority inheritance** (`Kernel`, with `KernelState`, `PriorityWalk`,
`NetSteps`, `ReadyQueues`, `QueueOrder`, `SchedSteps`). The effective priority of a task is the least of its
nominal priority, the priorities of the tasks it blocks through inheriting mutexes and the ceilings of the
messages it owns. The kernel repairs it incrementally: `UpdateEffectivePrioChain` walks from one task along the
mutexes the visited tasks are blocked on, re-sorting queues on the way. The walk ends, even when the
blocked-on graph has a cycle, and it restores the from-scratch value of every task but the ones it is
told may be off. Every step keeps this together with sorted waiting queues, exact ownership, the placement
of every task in at most one queue, the ready bitmask, and the promise that a task that should be
displaced has a switch pended or deferred. `Runs.Execute` is the theorem over all runs.

The contracts of single steps also state the two switch flags, the lock depth and the order of the queues.
Under the scheduler lock no wake-up, hand-off, tick or change of priority pends a switch; for a
better task it is deferred, and leaving the last level pends it. So a task that has locked the scheduler
keeps the processor until it gives it up itself (`Runs.Protected`). A task that becomes ready, or comes with
a new priority, goes behind its equals, and tasks that keep their priority keep their order (`QueueOrder`);
tasks that time out on one tick become ready in the order of the timeout list. They stay in it if and only
if the first does not lose a donor to a later expiry on the same tick: `SchedSteps.TickOrder` is that
condition and `Runs.OutOfListOrder` an input that ends the other way round.

**What the local rule means globally** (`Transitive`, `SettledValues`, `PhantomBoost`). With no deadlock
behind it, a task runs at exactly the least priority demanded by itself or by anyone it holds up, directly
or not; `LeastDemand` is that direction. `SettledAt` gives the converse: on a cycle every priority from the
best down to the least demand satisfies the local rule, so it determines the priority exactly when no cycle
lies behind the task or somebody there demands the best priority (`Determined`). The kernel gets there:
`PhantomBoost.Reached` runs it from start-up into a deadlock whose two tasks still have the priority of a
third one that has timed out and returned. A blocking lock deadlocks exactly when the owner already waits
for the caller.

**Timeouts and periodic release** (`TimeoutList`, `TimeoutSpec`, `PhaseLock`, `BoundedCalls`,
`PeriodicTask`). The linked list of differences does, operation by operation, what a table of remaining
ticks does; a node armed with t is among the nodes the t-th tick expires, and no other tick (`ArmAndRun`).
`BoundedCalls` puts the kernel and the list together: a bounded wait for a mutex is over, acquired or timed out, on its last tick at the
latest (`Follow`). `PeriodicTask` runs a periodic task on the list. The delay computed with
wrapping words is the distance to the next point of the period's grid, so the branch for a zero delay is
dead. The interface promises a constant phase
across calls (core/inc/kapi.h:1652-1663); the code keeps it exactly until the tick counter wraps, because
the counter restarts at 2^32 - 1 while the arithmetic works modulo 2^32. `GridAfterWraps` is the exact
condition and `WrapMovesPhase` an input that misses the grid. The interface also says that each skipped
release increments the overrun counter (core/inc/kapi.h:1669-1670); the code increments it once a call.
`Sleeper.SleepRelease` states exactly when that is the same, and `TwoSkippedOneCounted` is an input for
which it is not.

**Synchronous messages** (`SynchMesg` and the `Synch*` modules). Sends and receives match one to one,
a timed-out payload is never received, a call is answered at most once, within its capacity and never
after its timeout, and a caller that gave up after acceptance is locked out until its server replies.

**Asynchronous messages** (`AsynchMesg`, `AsynchState`, `AsynchSteps`). Blocks are conserved, and the
letters a task took from a sender are the first ones that sender sent to it, in order, under filters, direct
delivery and timeouts.

**Message queues and broadcast** (`RingBuf`, `MesgQueue`, `MesgQueueState`, `QueueHistory`). The word ring
refines a bounded deque, and over any run the results of the calls explain its contents, first in first
out without jams and overwrites; a receiver woken by a hand-off returns its own message; while a broadcast
is under way the mailbox holds exactly its message and only its targets change it, each once.

**Memory** (`MemPartition`, `Mrm`, `KList`). The free list threaded through the pool holds each block
that is not live exactly once; r + 1 most-recent-message buffers suffice for one writer and r borrowers;
the circular list with a dummy node refines a sequence, which is how all other modules treat queues.

Findings about the code that the proofs rest on: the third way round the allocation loop
(core/src/kmesg.c:681-691), the wake-up of a normal receiver after a stored send
(core/src/kmesgq.c:520-521) and the failure of the data pool alone in a reservation
(core/src/kmrm.c:246-251) are never taken. A reservation wipes the current buffer when nobody borrows it
(core/src/kmrm.c:231-236), so a reader can miss the last published message: `Mrm.ReserveThenGet` says
exactly when, by the guard of that branch, and `Mrm.ReservedTooEarly` is an input. A reader that borrows
the buffer between a reservation and its publication makes the publication a fault
(core/src/kmrm.c:318-323).

## Model

| member | source | states |
|---|---|---|
| Kernel.Kernel.constructor | core/src/ksch.c:1407-1431 | start-up reaches the invariant: of the tasks of least priority the first in the table runs, all others are ready, queued in table order, and no switch is pended |
| Kernel.Kernel.StartUp | core/src/ksch.c:1418-1431 | filling the ready queues in table order and taking the head of the best one establishes every kernel promise, in exactly that state |
| Kernel.Kernel.FillReady | core/src/ksch.c:1418-1428 | every initialised task becomes ready, once, in the queue of its own priority, in table order |
| Kernel.Kernel.PendCtxSwtch | core/src/ksch.c:85-104 | a switch is pended at once unless the running task may go on and the scheduler is locked, then it is deferred |
| Kernel.Kernel.NextTaskPrio | core/src/ksch.c:1451-1462 | the priority found in the mask is no worse than that of any ready task |
| Kernel.Kernel.ReschedTask | core/src/ksch.c:253-271 | switched, pending or not needed, with exactly the flag that goes with each |
| Kernel.Kernel.ReschedRunning | core/src/ksch.c:274-289 | a switch is pended or deferred exactly when the running task may be preempted and some ready task is strictly better, and the dispatch promise holds afterwards |
| Kernel.Kernel.CalcEffectivePrio | core/src/ksch.c:298-427 | the scan over queue heads and owned messages yields the least of all demands and all donors, not only of the heads |
| Kernel.Kernel.MoveReady | core/src/ksch.c:463-473 | a ready task goes to the end of the queue of its new priority, and the mask follows both queues |
| Kernel.Kernel.UpdateEffectivePrio | core/src/ksch.c:448-491 | the task gets its from-scratch priority; only a ready task whose value changed moves; a switch is decided exactly when that task, or a ready one against it, is better, and deferred under the scheduler lock |
| Kernel.Kernel.FindPrioSlot | core/src/ksch.c:232-249 | the slot found lies behind all tasks of equal or better priority and ahead of all worse ones |
| Kernel.Kernel.EnqByPrio | core/src/ksch.c:232-249 | the queue stays sorted, gains exactly the task, and keeps everything else in order |
| Kernel.Kernel.RequeueWaiterByPrio | core/src/ksch.c:429-446 | after a change of priority every waiting queue is sorted again, with the same members, the waiter behind its equals and the others in their order |
| Kernel.Kernel.VisitTask | core/src/ksch.c:499-529 | one visit settles the task and leaves at most the next task of the chain off, in the direction the task moved; queues keep their order but for that task; under the scheduler lock nothing is pended |
| Kernel.Kernel.UpdateEffectivePrioChain | core/src/ksch.c:493-533 | the walk terminates also on cycles, settles every task not listed as open, keeps structure and dispatch, and does nothing when nothing was off; under the scheduler lock it pends nothing; with nothing else open all priorities move one way and tasks that keep theirs keep their places |
| Kernel.Kernel.BlockOn | core/src/kmutex.c:184-194 | the caller is linked behind its equals and blocked, and nothing else changes; only the owner of an inheriting mutex can be off |
| Kernel.Kernel.WaitOn | core/src/kmutex.c:184-200 | blocking, with inheritance to the owner, keeps every promise and pends a switch; without inheritance only the caller changes; with it priorities can only get better and tasks that keep theirs keep their places |
| Kernel.Kernel.ReadySwtch | core/src/ksch.c:535-552 | the woken task enters its queue at the back, the post-processing task at the front; the switch to a better one is pended at once, or deferred under the scheduler lock |
| Kernel.Kernel.MutexLock | core/src/kmutex.c:148-200 | which of the five outcomes occurs, exactly; a free mutex is taken and nothing else changes, a refused call changes nothing, a waiting caller is linked behind its equals and its priority felt |
| Kernel.Kernel.MutexLockResume | core/src/kmutex.c:204-243 | the call returns with a timeout exactly when the caller is not the owner; queues and pending switches stay as they are |
| Kernel.Kernel.MutexUnlock | core/src/kmutex.c:282-338 | refused unless the caller owns the mutex; with waiters it passes to the head of the queue, without a moment in which it is free; under the scheduler lock the switch to a better waiter is deferred, never pended |
| Kernel.Kernel.PassOn | core/src/kmutex.c:313-336 | hand-off to the first waiter, with both priorities repaired: nobody else changes, the waiter enters the ready queue of its own priority, and the switch is decided by lock depth |
| Kernel.Kernel.TimeoutNodeReady | core/src/ktimer.c:603-649 | a timed-out waiter leaves its queue, the owner it boosted is repaired, and it becomes ready with its flag set, the last in the ready queue of its priority; the others keep their order; where every priority is right without it, nothing else changes; a sleeper keeps its flag; nothing is pended under the scheduler lock |
| Kernel.Kernel.Tick | core/src/ksch.c:1517-1586 | all expired tasks become ready, behind their equals, one after the other in list order; nobody else changes but in effective priority; whether a switch is pended, deferred or neither, exactly |
| Kernel.Kernel.TickDecision | core/src/ksch.c:1560-1586 | when the tick pends a switch, defers it, or leaves the flags alone |
| Kernel.Kernel.MesgSetOwner | core/src/kmesg.c:133-174 | ownership moves and the ceilings of both parties are repaired, the old owner first; queues keep their order unless two walks go in opposite directions; nothing is pended under the scheduler lock |
| Kernel.Kernel.GiveMesg | core/src/kmesg.c:133-174 | a change of ownership is a step that keeps every promise, and nothing at all when the owner stays |
| Kernel.Kernel.HandoffToAllocator | core/src/kmesg.c:224-256 | a freed message goes to the first waiting allocator, who gets its ceiling and becomes ready, the last of its priority; under the scheduler lock the switch to it is deferred, never pended |
| Kernel.Kernel.AllocResume | core/src/kmesg.c:657-674 | the caller of a blocking allocation goes on with its call closed |
| Kernel.Kernel.SchLock | core/src/ksch.c:106-119 | one level deeper, recorded in the running task, for preemptible tasks only; nothing else changes |
| Kernel.Kernel.SchUnlock | core/src/ksch.c:121-136 | one level up; leaving the last level, and nothing else, turns a deferred switch into a pended one |
| Kernel.Kernel.Sleep | core/src/ktimer.c:264-308 | refused for a length of zero or beyond the limit, without a change; otherwise the task sleeps, its timeout runs and a switch is pended |
| Kernel.Kernel.WakeSleeper | core/src/ksch.c:535-552 | a woken sleeper becomes ready, behind its equals, and nobody else changes; the switch to a better one is decided by lock depth |
| Kernel.Kernel.Yield | core/src/ksch.c:1492-1507 | the task gives way exactly when a ready task is at least as good (the idle task always), and goes behind its equals; the switch is pended, or deferred under the scheduler lock |
| Kernel.Kernel.Swtch | core/src/ksch.c:1464-1491 | a task still running goes to the front of its queue; the first task of the best queue runs, with its own lock depth; it has the least priority of all ready ones; nothing else changes |
| Kernel.Kernel.Dispatch | core/src/ksch.c:1472-1482 | the head of the best non-empty queue runs with its own lock depth, the depth of the old task is saved, and nothing else changes |
| Runs.Do | core/src/ksch.c:1464-1586 | each kind of step keeps the invariant and has its effect, or none where it is not allowed; while the scheduler stays locked and the task runnable no step pends a switch, and one that makes a better task ready defers it |
| Runs.Execute | core/src/ksch.c:493-533 | in every reachable state all promises hold, and every task with no deadlock behind it runs at exactly the least transitive demand |
| Kernel.Kernel.Repair | core/src/ksch.c:493-533 | from a single task that is off the walk settles everything; priorities move one way and queues keep their order |
| Kernel.Kernel.GiveAway | core/src/kmutex.c:313-331 | the first waiter owns the mutex; only it and the old owner change, no ready queue does, and a switch is decided exactly when the old owner, at its new priority, is no longer best |
| Kernel.Kernel.TakeOff | core/src/ktimer.c:611-625 | the timed-out waiter is unlinked; the owner it boosted can only get worse, and queues keep their order |
| Kernel.Kernel.RepairOwners | core/src/kmesg.c:163-174 | both chains are walked, the old owner first; one walk, or a running old owner, disturbs no order |
| Kernel.Kernel.GiveToFirst | core/src/kmesg.c:224-250 | the first waiting allocator is taken out and owns the message |
| SchedSteps.StillInTurn | core/src/ktimer.c:625-640 | a task that became ready earlier and keeps its priority stays ahead of one that comes, or comes back with a new priority, later |
| SchedSteps.TickOrder | core/src/ktimer.c:722-733 | of two tasks that expire on one tick and end with the same priority, the second of which keeps it, the first in the list is ahead if and only if it has that priority already when the second becomes ready |
| SchedSteps.KeepsAhead | core/src/ksch.c:463-473 | through the rest of a tick a task that keeps its priority stays ahead of one that comes later or was behind |
| Runs.OutOfListOrder | core/src/ktimer.c:611-640 | an input: of two sleepers and a waiter that expire in this order the first sleeper, boosted by the waiter, ends up behind the second |
| SchedSteps.ExpiredMore | core/src/ktimer.c:603-649 | one more expired task keeps what a tick promises about states and order |
| QueueOrder.KeptSlot | core/src/ksch.c:232-249 | a task put in at the slot of its priority goes behind its equals, and the others keep their order |
| QueueOrder.KeptTail | core/src/ksch.c:463-473 | a task put at the tail goes behind all, and the others keep their order |
| QueueOrder.TableTrans | core/src/ksch.c:493-533 | two steps keep the order of the tasks whose priority the second does not bring back |
| QueueOrder.RequeuedKept | core/src/ksch.c:463-473 | a ready task that moves to the queue of its new priority disturbs no order |
| NetSteps.WaitingFalls | core/src/kmutex.c:184-194 | one more waiter can only improve the owner |
| NetSteps.UnlinkedRises | core/src/ktimer.c:611-625 | one waiter less can only worsen the owner |
| NetSteps.TransferredRises | core/src/kmesg.c:144-167 | losing a message can only worsen the old owner |
| NetSteps.TransferredFalls | core/src/kmesg.c:155-173 | gaining a message can only improve the new owner, whatever a running old owner has become |
| Runs.Protected | core/src/ksch.c:85-136 | a task that has locked the scheduler keeps the processor, whatever ticks, wake-ups and hand-offs happen, until it blocks, sleeps, yields or unlocks; a better task that is ready by then has its switch deferred |
| Runs.TickLawful | core/src/ksch.c:1560-1586 | a tick under the scheduler lock pends nothing, and defers for a better task it makes ready |
| BoundedCalls.DueInTurn | core/src/ktimer.c:722-733 | tasks that time out on one tick become ready in the order of the timeout list |
| NetSteps.AcquiredKeeps | core/src/kmutex.c:148-157 | taking a free mutex leaves every task settled |
| NetSteps.WaitingKeeps | core/src/kmutex.c:184-194 | blocking can put at most the owner of an inheriting mutex off |
| NetSteps.ReleasedKeeps | core/src/kmutex.c:298-308 | releasing a mutex nobody waits for leaves every task settled |
| NetSteps.HandedOverKeeps | core/src/kmutex.c:313-331 | passing a mutex on can put at most the two parties off |
| NetSteps.UnlinkedKeeps | core/src/ktimer.c:611-625 | an expired waiter can put at most the owner off |
| NetSteps.TransferredKeeps | core/src/kmesg.c:133-174 | a message that changes hands can put at most its old and its new owner off |
| NetSteps.HandedOverCalls | core/src/kmutex.c:313-336 | the new owner wakes up with the call it made for this mutex fulfilled |
| NetSteps.UnlinkedCalls | core/src/ktimer.c:611-634 | an expired waiter wakes up with its flag set and does not own what it waited for |
| PriorityWalk.WalkStep | core/src/ksch.c:493-533 | after one visit only the next task of the chain can be off, and in the direction of the change |
| PriorityWalk.MovesAlong | core/src/ksch.c:404-427 | the beneficiary of a donor moves the way the donor moved |
| PriorityWalk.DonatesToNext | core/src/ksch.c:508-526 | the chain follows the only task a blocked task donates to |
| PriorityWalk.PrioSumUpdate | core/src/ksch.c:493-533 | a changed priority moves the sum of priorities, the termination measure, by the same amount |
| PriorityWalk.PrioSumBound | core/src/ksch.c:493-533 | the sum of priorities is bounded |
| ReadyQueues.Repositioned | core/src/ksch.c:463-473 | moving a ready task keeps queues, membership and mask in step |
| ReadyQueues.SchedStarted | core/src/ksch.c:194-208 | the head of a non-empty queue is a ready task of that priority, and taking it keeps queues and mask in step |
| ReadyQueues.NextPrioReady | core/src/ksch.c:1451-1462 | the queue the mask points at is not empty while any task is ready |
| Transitive.ChainBound | core/src/ksch.c:493-533 | priorities do not get worse along a chain of waiters and owners |
| Transitive.NeverWorse | core/src/ksch.c:404-427 | no task runs at a worse priority than any task it holds up demands, deadlocked or not |
| Transitive.Attained | core/src/ksch.c:404-427 | without a deadlock the priority is somebody's demand |
| Transitive.LeastDemand | core/src/ksch.c:404-533 | without a deadlock behind it a settled task runs at exactly the least transitive demand |
| Transitive.NoInversion | core/src/ksch.c:298-323 | a task is at least as good as every task that waits for it through any chain |
| PhantomBoost.Reached | core/src/ksch.c:493-533 | a run from start-up in which two tasks deadlock, a third waits behind them, times out and returns, and both keep its priority although nobody behind them demands it |
| PhantomBoost.AllBlock | core/src/kmutex.c:148-198 | two tasks that lock the mutex of each other deadlock, and a waiter behind them lends its priority to both |
| PhantomBoost.ThirdGivesUp | core/src/ktimer.c:611-634 | the timeout of that waiter takes nothing back: without it each still has the priority of the other |
| PhantomBoost.NobodyDemands | core/src/ksch.c:298-427 | after that only the nominal priorities of the two are demanded behind them |
| SettledValues.SettledAt | core/src/ksch.c:298-533 | the values the local rule can settle at: the least transitive demand alone with no cycle behind the task, every priority from the best down to it otherwise |
| SettledValues.Determined | core/src/ksch.c:298-533 | the local rule determines the priority of a task if and only if no cycle lies behind it or somebody behind it demands the best priority |
| SettledValues.PricedAt | core/src/ksch.c:298-427 | lowering a whole cycle to any value leaves every task settled |
| SettledValues.StaysOnCycle | core/src/ksch.c:508-526 | a task waits for one other at most, so what a task on a cycle waits for lies on that cycle |
| Transitive.DeadlockIff | core/src/kmutex.c:184-194 | a new waiting edge closes a circle exactly when the owner already waits for the caller |
| Transitive.LockDeadlocks | core/src/kmutex.c:184-198 | a blocking lock deadlocks exactly when the owner waits for the caller, and never on a mutex without inheritance |
| Transitive.HandOverSafe | core/src/kmutex.c:313-325 | passing a mutex to its first waiter creates no deadlock |
| Transitive.FewerEdges | core/src/ktimer.c:611-634 | a step that removes waiting edges creates no deadlock |
| TimeoutList.TimeoutList.constructor | core/src/ktimer.c:61-82 | an empty list with nothing pending |
| TimeoutList.TimeoutList.FindPlace | core/src/ktimer.c:475-486 | the search ends behind all nodes that expire earlier and ahead of all others, with what is left of the timeout |
| TimeoutList.TimeoutList.Insert | core/src/ktimer.c:475-506 | the new node has its timeout left, all others what they had; it goes ahead of those that expire with it; no word under- or overflows |
| TimeoutList.TimeoutList.MergeDelta | core/src/ktimer.c:746-750 | the follower takes over what the leaving node counted, without overflow |
| TimeoutList.TimeoutList.Remove | core/src/ktimer.c:736-766 | the node is gone and all others have left what they had |
| TimeoutList.TimeoutList.Add | core/src/ktimer.c:522-579 | accepted exactly for timeouts from 1 to the maximum; the node goes behind those that expire earlier and ahead of all others |
| TimeoutList.TimeoutList.Disarm | core/src/ktimer.c:84-97 | succeeds exactly for a pending node, which it removes; the others keep their order |
| TimeoutList.TimeoutList.ExpireDue | core/src/ktimer.c:722-733 | the nodes with no difference leave in list order, and the next one still counts |
| TimeoutList.TimeoutList.HandleTick | core/src/ktimer.c:712-735 | everything pending has one tick less; exactly the nodes that had one left expire, in list order |
| TimeoutList.TimeoutList.HeadCounts | core/src/ktimer.c:717-720 | between ticks the head has at least one tick to count |
| TimeoutList.Execute | core/src/ktimer.c:475-766 | any run of arming, cancelling and ticking does on the list what it does on the table of remaining ticks; a node left alone is in the list of expired nodes of exactly the tick it had left |
| TimeoutList.ArmAndRun | core/src/ktimer.c:522-766 | a node armed with t and left alone leaves the list on exactly the t-th tick |
| BoundedCalls.System.Lock | core/src/kmutex.c:148-200 | a bounded lock that must wait is due after its timeout; any other outcome arms nothing |
| BoundedCalls.System.Unlock | core/src/kmutex.c:298-336 | what the unlock does to the network, exactly; the waiter that gets the mutex is not timed any more, and no other timeout changes |
| BoundedCalls.System.SleepFor | core/src/ktimer.c:264-308 | a sleep is due after its length |
| BoundedCalls.System.Tick | core/src/ktimer.c:603-766 | a tick makes ready exactly the tasks that are due, with the timeout flag set for a blocked one, behind their equals and in the order of the timeout list; it leaves the state of all others |
| BoundedCalls.DueTasks | core/src/ktimer.c:712-766 | the owners of the expired nodes are exactly the tasks with one tick left |
| BoundedCalls.Do | core/src/ktimer.c:522-766 | no step of any task moves the deadline of a blocked one |
| BoundedCalls.Follow | core/src/kmutex.c:148-244 | a bounded wait for a mutex is over, acquired or timed out, when as many ticks have passed as its timeout says, and not later, whatever all other tasks do |
| PeriodicTask.Periodic.Tick | core/src/ktimer.c:712-766 | a sleeping task is ready again on exactly the tick the list has counted down to |
| PeriodicTask.Periodic.EndCycle | core/src/ktimer.c:354-403 | the node is armed with the distance to the next release |
| PeriodicTask.Execute | core/src/ktimer.c:354-766 | on the linked list, and whatever other tasks do with it, a periodic task is ready only at multiples of its period, each within a period of its call, until the counter wraps |
| TimeoutSpec.RemainingTick | core/src/ktimer.c:712-735 | a tick on the list of differences is a tick on every remaining time |
| TimeoutSpec.RemainingInsert | core/src/ktimer.c:475-506 | an insertion into the list is an entry into the table |
| TimeoutSpec.RemainingRemove | core/src/ktimer.c:736-766 | a removal from the list is a removal from the table |
| TimeoutSpec.ExactExpiry | core/src/ktimer.c:712-735 | a node armed with t and left alone is pending until the t-th tick and gone from then on, whatever happens to the others |
| TimeoutSpec.PrefixSums | core/src/ktimer.c:475-506 | the sum of the differences up to a node is its remaining time |
| PhaseLock.ToNextRelease | core/src/ktimer.c:354-370 | the distance to the next grid point lies between 1 and the period |
| PhaseLock.DelayWords | core/src/ktimer.c:354-370 | the wrapping words of the code compute exactly that distance, for all ticks, bases and periods |
| PhaseLock.Sleeper.SleepRelease | core/src/ktimer.c:339-403 | the delay is the distance to the next release, never 0; the overrun counter goes up by the number of skipped releases if and only if fewer than two periods have passed |
| PhaseLock.TwoSkippedOneCounted | core/src/ktimer.c:358-366 | a sleeper that calls 20 ticks after its last release with period 10 skips two releases and counts one |
| PhaseLock.TimerReload | core/src/ksystasks.c:241-252 | a reloaded timer follows the same law |
| PhaseLock.Sleeper.SleepUntil | core/src/ktimer.c:439-472 | for every pair of ticks: elapsed, and counted, exactly when the new anchor lies at most half the word range back; refused at exactly half; else asleep until the anchor |
| PhaseLock.OnTheGrid | core/src/ktimer.c:344-403 | before the counter wraps a task is released only at increasing multiples of its period, each within a period of the call |
| PhaseLock.GridAfterWraps | core/src/ksch.c:1522-1528 | however late the call, the release stays on the grid if and only if the period divides what the restarts of the counter and the wraps of the word add up to |
| PhaseLock.GridAfterOneCounterPeriod | core/src/ksch.c:1522-1528 | less than one counter period late, that is the number of restarts, 2 at most |
| PhaseLock.WrapMovesPhase | core/src/ksch.c:1522-1528 | an input whose release misses the grid by one tick |
| SynchMesg.Synch.constructor | core/src/ksynchmesg.c:347-377 | no task has sent, called or waits |
| SynchMesg.Synch.DirectRecv | core/src/ksynchmesg.c:155-175 | the waiting receiver gets the bytes and wakes; this send and this receive are matched |
| SynchMesg.Synch.Post | core/src/ksynchmesg.c:490-525 | the sender queues and blocks; a filled slot keeps its sender, an empty one gets this one |
| SynchMesg.Synch.Send | core/src/ksynchmesg.c:411-527 | which outcome occurs, exactly; a task whose call was abandoned can not send; a refused send changes nothing |
| SynchMesg.Synch.SendResume | core/src/ksynchmesg.c:528-540 | a send returns with a timeout exactly when its payload was never taken; the sender is free again, its timeout flag cleared |
| SynchMesg.Synch.Consume | core/src/ksynchmesg.c:193-237 | the payload of the pending sender is taken, it leaves the queue and is woken; the others keep their order and the first of them fills the slot |
| SynchMesg.Synch.Recv | core/src/ksynchmesg.c:579-626 | which outcome occurs, exactly; a successful receive takes an unmatched send with its own bytes, and of two senders that stay queued the one ahead stays ahead |
| SynchMesg.Synch.RecvResume | core/src/ksynchmesg.c:627-647 | a receive returns the bytes of the send it is matched with, or a timeout exactly when it has none |
| SynchMesg.Synch.ExpireSend | core/src/ksynchmesg.c:239-260 | a timed-out send is withdrawn and can not be received any more; the other senders keep their order and the slot follows their first |
| SynchMesg.Synch.ExpireRecv | core/src/ktimer.c:677-691 | a timed-out receiver withdraws its buffer |
| SynchMesg.Synch.Enqueue | core/src/ksynchmesg.c:740-779 | the caller queues at its server and a waiting acceptor wakes |
| SynchMesg.Synch.Call | core/src/ksynchmesg.c:676-781 | which outcome occurs, exactly; a task whose call was abandoned can not call |
| SynchMesg.Synch.CallResume | core/src/ksynchmesg.c:782-794 | a call returns its one reply within capacity, or a timeout exactly when there is none |
| SynchMesg.Synch.Take | core/src/ksynchmesg.c:904-932 | the first caller becomes the active one, its request is copied, and its call counts as accepted, once |
| SynchMesg.Synch.TryAccept | core/src/ksynchmesg.c:855-932 | a request is taken exactly when a caller is queued; the acceptor blocks only on an empty queue |
| SynchMesg.Synch.Accept | core/src/ksynchmesg.c:834-932 | which outcome occurs, exactly; busy while a call is active; a refused call changes nothing |
| SynchMesg.Synch.AcceptResume | core/src/ksynchmesg.c:892-902 | after a wake-up in time the first caller is taken exactly when one is queued, else the acceptor blocks again |
| SynchMesg.Synch.ExpireAccept | core/src/ktimer.c:611-634 | a timed-out acceptor is unlinked |
| SynchMesg.Synch.ExpireCall | core/src/ksynchmesg.c:262-292 | before acceptance the call is withdrawn, after it it is abandoned and the server keeps its caller |
| SynchMesg.Synch.Reply | core/src/ksynchmesg.c:951-1012 | which outcome occurs, exactly: answered, with one copy, if and only if the call is active, has not timed out and the reply fits; none for an abandoned one; a refusal changes nothing |
| SynchMesg.Synch.Answer | core/src/ksynchmesg.c:994-1014 | the reply is copied and the caller wakes, free again |
| SynchMesg.Synch.LetGo | core/src/ksynchmesg.c:974-981 | an abandoned caller is released without a copy |
| SynchMesg.Do | core/src/ksynchmesg.c:440-1012 | each step keeps the protocol, and two senders that stay queued keep their order; an abandoned caller stays locked out unless its server replies |
| SynchMesg.Execute | core/src/ksynchmesg.c:440-1012 | over any run: sends and receives match one to one with equal bytes, no lapsed send is received, no dropped call is answered |
| SynchHistory.MatchedHistory | core/src/ksynchmesg.c:193-237 | matching a waiting send with an open receive keeps the history one to one |
| SynchHistory.RepliedHistory | core/src/ksynchmesg.c:994-1014 | an answer within capacity to an accepted call that has not timed out keeps the history |
| SynchSend.PostedOneWay | core/src/ksynchmesg.c:490-525 | posting keeps slot, queue and senders in agreement |
| SynchSend.SenderGoneOneWay | core/src/ksynchmesg.c:205-226 | a leaving sender keeps slot, queue and senders in agreement |
| SynchCall.CalledOk | core/src/ksynchmesg.c:740-779 | queuing a call keeps servers and callers in agreement |
| SynchCall.AcceptTakesOk | core/src/ksynchmesg.c:904-932 | acceptance keeps server and active caller pointing at each other |
| SynchCall.ReleasedOk | core/src/ksynchmesg.c:974-1010 | letting the active caller go keeps servers and callers in agreement |
| AsynchMesg.Messages.constructor | core/src/kmesg.c:464-516 | all blocks free, nobody waits, nothing sent |
| AsynchMesg.Messages.SetOwner | core/src/kmesg.c:133-174 | the new owner lists the message, once, and nobody else does; all other messages stay where they are |
| AsynchMesg.Messages.Alloc | core/src/kmesg.c:611-661 | a block exactly when the pool has one, and then a free one; the caller blocks only on an empty pool |
| AsynchMesg.Messages.HandOn | core/src/kmesg.c:224-256 | a block that was given back goes to the allocator that has waited first; the others keep their order |
| AsynchMesg.Messages.FreeMesg | core/src/kmesg.c:731-772 | refused for a message not in hand; handed on exactly when an allocator waits; else put back |
| AsynchMesg.Messages.Deliver | core/src/kmesg.c:352-393 | the waiting receiver gets the message, and nothing it skips matched its filter |
| AsynchMesg.Messages.Post | core/src/kmesg.c:935-960 | the message goes behind the others of its receiver |
| AsynchMesg.Messages.Send | core/src/kmesg.c:914-961 | delivered exactly to a blocked receiver whose filter matches, else queued; the receiver owns it either way |
| AsynchMesg.Messages.Search | core/src/kmesg.c:298-328 | the position of the oldest match |
| AsynchMesg.Messages.Take | core/src/kmesg.c:298-328 | the match leaves the queue and the others keep their order |
| AsynchMesg.Messages.Wait | core/src/kmesg.c:1021-1088 | refused without an endpoint; the oldest match is taken; the receiver blocks only when nothing matches |
| AsynchMesg.Messages.Resume | core/src/kmesg.c:663-692 | a blocking call returns a message exactly when it did not time out |
| AsynchMesg.Messages.Expire | core/src/ktimer.c:611-634 | a timeout takes the task off its list and nothing else; the others keep their order |
| AsynchSteps.OldestFirst | core/src/kmesg.c:298-328 | the oldest match of a filter is, for its sender, the first letter in the queue |
| AsynchSteps.FifoQueued | core/src/kmesg.c:935-960 | queuing keeps letters of each sender in order |
| AsynchSteps.FifoDirect | core/src/kmesg.c:352-393 | direct delivery overtakes nothing |
| AsynchSteps.FifoTaken | core/src/kmesg.c:298-328 | a filtered receive keeps letters of each sender in order |
| AsynchSteps.OwnerMoved | core/src/kmesg.c:133-174 | a change of owner keeps each owned block once in the list of its owner |
| AsynchMesg.Conserved | core/src/kmesg.c:133-256 | free blocks and owned blocks make up the pool |
| AsynchMesg.TakenInOrder | core/src/kmesg.c:298-393 | what a task took from a sender is a prefix of what that sender sent to it |
| AsynchMesg.Execute | core/src/kmesg.c:518-1107 | both hold in every reachable state |
| RingBuf.Ring.constructor | core/src/kringbuf.c:56-80 | an empty ring of the given slots |
| RingBuf.Ring.CopyIn | core/src/kringbuf.c:20-31 | one slot gets the message, the others keep theirs |
| RingBuf.Ring.Write | core/src/kringbuf.c:92-100 | the message goes behind the others |
| RingBuf.Ring.Read | core/src/kringbuf.c:102-109 | the oldest message leaves |
| RingBuf.Ring.Peek | core/src/kringbuf.c:111-116 | the oldest message, which stays |
| RingBuf.Ring.Jam | core/src/kringbuf.c:118-126 | the message goes ahead of the others |
| RingBuf.Ring.Overwrite | core/src/kringbuf.c:128-137 | the single slot holds the message |
| RingBuf.Ring.Reset | core/src/kringbuf.c:75-80 | the ring is empty |
| RingBuf.Ring.WritePosition | core/src/kringbuf.c:34-54 | the write position is the read position and the filled slots, modulo the capacity in words |
| MesgQueue.Queue.constructor | core/src/kmesgq.c:79-106 | an empty queue nobody waits for |
| MesgQueue.Queue.DirectSendIfAny | core/src/kmesgq.c:310-350 | the first plain receiver gets the message exactly when nothing is queued, as if it had been stored and read |
| MesgQueue.Queue.Put | core/src/kmesgq.c:504-521 | handed over, or stored behind or in front; nobody is left to wake |
| MesgQueue.Queue.Send | core/src/kmesgq.c:450-523 | which outcome occurs, exactly; a caller that blocks is queued with its own message and armed for a bounded timeout, and nobody else changes; a broadcast under way is not disturbed |
| MesgQueue.Queue.SendResume | core/src/kmesgq.c:483-521 | late exactly after its timeout, blocked again exactly when the queue is full; else the message is stored, or handed to a waiting receiver of an empty queue |
| MesgQueue.Queue.WakeSenderIfAny | core/src/kmesgq.c:352-366 | the sender that has waited first runs again |
| MesgQueue.Queue.Recv | core/src/kmesgq.c:572-650 | the oldest message exactly when there is one and no broadcast is under way; its place goes to the first waiting sender, which is woken; a caller that waits is blocked, queued and armed for a bounded timeout, and nobody else changes |
| MesgQueue.Queue.RecvResume | core/src/kmesgq.c:611-641 | a woken receiver has its message or is late |
| MesgQueue.Queue.Peek | core/src/kmesgq.c:686-698 | the oldest message unless a broadcast is under way |
| MesgQueue.Queue.PostOverwrite | core/src/kmesgq.c:1016-1053 | a mailbox only, and never over a broadcast; handed over or the one message |
| MesgQueue.Queue.CountWaiters | core/src/kmesgq.c:180-202 | the number of tasks that wait for a broadcast |
| MesgQueue.Queue.PrepareReceivers | core/src/kmesgq.c:204-226 | exactly those are marked, and lose their timeouts |
| MesgQueue.Queue.BroadcastWake | core/src/kmesgq.c:254-273 | exactly the marked tasks are unlinked and made ready |
| MesgQueue.Queue.Broadcast | core/src/kmesgq.c:1099-1164 | which outcome occurs, exactly; then every waiter is a target, the count is their number and the mailbox holds the message |
| MesgQueue.Queue.RunJob | core/src/kmesgq.c:228-284 | the deferred wake-up finds all targets still linked |
| MesgQueue.Queue.BroadcastRecv | core/src/kmesgq.c:1213-1257 | a receiver waits unmarked, without touching a broadcast under way |
| MesgQueue.Queue.BroadcastResume | core/src/kmesgq.c:1257-1299 | a target takes the broadcast message, once; the last one empties the mailbox and wakes the first waiting sender, any other wakes nobody; both assertions hold |
| MesgQueue.Queue.Expire | core/src/ktimer.c:611-634 | a timeout takes the task off its list; a target has none |
| MesgQueue.Do | core/src/kmesgq.c:406-1298 | while a broadcast is under way no step changes it but a target that takes it; the result of a call explains the change of the contents |
| MesgQueue.Resume | core/src/kmesgq.c:483-1295 | a sender, receiver or target that runs again finishes its call; a plain receiver returns what it carries |
| MesgQueue.Execute | core/src/kmesgq.c:406-1298 | over any run the results of the calls explain the contents as those of one deque and what each woken receiver carries; the count is the number of targets, and while positive the mailbox holds exactly the message |
| MesgQueue.OwnHandOff | core/src/kmesgq.c:148-178 | a receiver woken by a direct hand-off returns the message of that hand-off, and of each hand-off only once |
| QueueHistory.FirstInFirstOut | core/src/kmesgq.c:310-648 | without jams and overwrites messages come out in the order they went in, and none is lost or made up |
| QueueHistory.NothingLost | core/src/kmesgq.c:310-648 | with jams the order may change, but what went in is what came out and what is left |
| MemPartition.Partition.constructor | core/src/kmem.c:93-128 | sizes are rounded up to words and all blocks are threaded in address order |
| MemPartition.Partition.Alloc | core/src/kmem.c:182-200 | the block given out was free and is live now; none exactly when no block is free |
| MemPartition.Partition.ClientWrite | core/src/kmem.c:104-116 | a client that writes its own block does not disturb the list |
| MemPartition.Partition.BlockValid | core/src/kmem.c:48-64 | true exactly for block addresses of the pool |
| MemPartition.Partition.ListContains | core/src/kmem.c:27-45 | true exactly for addresses of free blocks |
| MemPartition.Partition.Free | core/src/kmem.c:229-251 | succeeds exactly on live blocks; otherwise nothing changes |
| MemPartition.Partition.Accounted | core/src/kmem.c:184-190 | free and live blocks make up the pool |
| Mrm.Buffers.constructor | core/src/kmrm.c:157-195 | all buffers free, none current |
| Mrm.Buffers.AllocPair | core/src/kmrm.c:238-253 | control and data block come together; never one without the other |
| Mrm.Buffers.Release | core/src/kmrm.c:114-125 | both blocks go back together |
| Mrm.Buffers.Reserve | core/src/kmrm.c:228-275 | a current buffer nobody borrows is the one reserved, and wiped, else the head of the free list or none; borrowed buffers keep their contents; with nothing stranded and fewer borrowers than buffers there always is one |
| Mrm.ReserveThenGet | core/src/kmrm.c:228-275 | unless an earlier reservation wiped it, the last published message is read after a reservation if and only if its buffer was borrowed then or it is all zeros |
| Mrm.ReservedTooEarly | core/src/kmrm.c:231-236 | for any buffers of one word: 7 is published, the writer reserves again, the published buffer stays current, and a reader gets 0 |
| Mrm.Buffers.Publish | core/src/kmrm.c:318-346 | exactly for a buffer in use that nobody borrows; borrowed buffers are neither rewritten nor freed |
| Mrm.Buffers.Get | core/src/kmrm.c:385-400 | one borrower more; the last published message unless the buffer was reserved again since |
| Mrm.Buffers.Unget | core/src/kmrm.c:437-475 | exactly for a borrowed buffer; the last borrower of one that is not current frees it |
| Mrm.Execute | core/src/kmrm.c:198-470 | with r + 1 buffers, one alternating writer and at most r borrowers no reservation fails, and no publication is a fault unless a reader borrows while the writer has a buffer reserved |
| KList.List.constructor | core/src/klist.c:27-34 | an empty sequence |
| KList.List.InsertAfter | core/src/klist.c:36-46 | the node enters the sequence behind its reference |
| KList.List.AddTail | core/src/klist.c:76-79 | the node enters at the end |
| KList.List.AddHead | core/src/klist.c:81-84 | the node enters at the front |
| KList.List.Remove | core/src/klist.c:48-59 | the node leaves, unlinked on both sides, and the others keep their order |
| KList.List.RemoveHead | core/src/klist.c:61-74 | the first node leaves, if any |
| KList.List.RemoveTail | core/src/klist.c:86-100 | the last node leaves, if any |

## Left out

- Ready bitmask as a word: the mask is the set of its bits; isolating the lowest one and finding its number by multiplication and table (arch/armv6m/kernel/inc/kcoredefs.h:100-116) is not modelled, its result is.
- Synchronous-message donation: the effective priority of a receiver or server from its senders and callers (core/src/ksch.c:326-360) is not part of the fixed point, because the chain walk does not cross those edges and their queues are not re-sorted for waits without a timeout.
- Queue order by priority in the message modules: a blocking sender, caller, receiver or allocator enters its list at any slot, so what is proved there holds for every order; the search by priority is proved in the scheduler part.
- Which task runs: outside the scheduler part any unblocked task may take a step, and a blocked one may time out even if it asked for no timeout.
- Kernel.Kernel.Yield: under the scheduler lock it leaves the running task linked as ready (core/src/ksch.c:1492-1507); until the switch, a run lets such a task only lock and unlock the scheduler, because a blocking call would link it twice.
- Kernel.Kernel.Swtch: in a run it happens at any point while it is pended; the interrupt hardware that runs it is not modelled. BoundedCalls.Do lets it happen at any time.
- Kernel.Kernel.Sleep: all kinds of sleep are one.
- Kernel.Kernel.Tick: any list of timed tasks; BoundedCalls.System.Tick takes the list from the timeout list.
- Kernel.Kernel.MesgSetOwner: from an owner that is not running to another one, the two walks can go in opposite directions, and a task on both loses its place in its queue; the order of the queues is not stated for that case.
- BoundedCalls.Do: locks, sleeps, switches and ticks; a bounded wait for a message block is not composed with the timeout list.
- Number of priorities: 32 and the idle one, the largest configuration (core/inc/kcommondefs.h:262-263); smaller settings are not modelled.
- PhaseLock.Sleeper.SleepRelease: the overrun counter is unbounded; its wrap after 2^32 overruns is not modelled.
- SettledValues.SettledAt: speaks of networks that differ in effective priorities only; re-sorting their queues is not part of it.
- QueueHistory.FirstInFirstOut: counts a direct hand-off when it happens; MesgQueue.OwnHandOff says what the receiver gets when it runs again.
- MesgQueue.Execute: runs without queue reset and without task termination, which do not keep the broadcast count (core/src/kmesgq.c:918-919).
- MesgQueue.Queue.Broadcast: whether the post-processing task has room for the job is an input; the job ring itself is not modelled.
- PhaseLock.OnTheGrid: like PeriodicTask.Execute, stops at the first wrap of the tick counter; PhaseLock.GridAfterWraps says what one release does after any number of wraps.
- Exact timing of callout timers: their list pauses while its head waits for the post-processing task (core/src/ksch.c:1546-1555); only the reload arithmetic is modelled.
- MemPartition.Partition.constructor: pool addresses are unbounded integers; a pool that wraps around the address space is not modelled, and null and double initialisation are excluded.
- Mrm.Buffers.AllocPair: the two pools are lists of block numbers; how a list lies in memory is proved for one partition.
- AsynchMesg.Messages.Send: as in the code nothing ties the sender to the owner of the message.
- Semaphores, event flags, sleep queues, condition variables, and dynamic tasks: simpler relatives of what is modelled.
- Send and timer callbacks: arbitrary user code.
- Trace, error handler, panic, interrupt-context and null checks, memory barriers, stacks, assembly and hardware registers: diagnostics or hardware; the checks are preconditions.
- Liveness: that a waiting sender of a message queue makes progress is not claimed, because a direct hand-off wakes no sender.
