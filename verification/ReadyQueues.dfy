// The ready-queue table under enqueue, jam and removal, with the bitmask kept in step.
module ReadyQueues {
  import opened KernelState
  import opened Queues

  function MaskAfter(mask: set<nat>, p: nat, queue: seq<nat>): set<nat> {
    if p >= IDLE_PRIO then mask
    else if queue == [] then mask - {p} else mask + {p}
  }

  ghost predicate BetterReady(tcb: seq<Tcb>, prio: nat) {
    exists t: nat :: t < |tcb| && tcb[t].status == Ready && tcb[t].prio < prio
  }

  // After its priority changed, ready task t displaces the running one, or running t must give way.
  ghost predicate WantsSwitch(tcb: seq<Tcb>, run: nat, t: nat)
    requires run < |tcb| && t < |tcb|
  {
    && tcb[run].preempt
    && (|| (tcb[t].status == Ready && tcb[t].prio < tcb[run].prio)
        || (tcb[t].status == Running && BetterReady(tcb, tcb[t].prio)))
  }

  // What a dispatch decision does with the flags: nothing unless a better task waits; then the switch is
  // pended at once, or deferred while the scheduler is locked.
  ghost predicate Decided(better: bool, schLock: nat, pendSv: bool, deferred: bool, pendSv2: bool, deferred2: bool) {
    if !better then pendSv2 == pendSv && deferred2 == deferred
    else if schLock == 0 then pendSv2 && !deferred2
    else pendSv2 == pendSv && deferred2
  }

  // Any number of decisions: under the lock nothing is pended and nothing deferred is forgotten, and a
  // task that can not be preempted is left alone.
  ghost predicate Steady(preempt: bool, schLock: nat, pendSv: bool, deferred: bool, pendSv2: bool, deferred2: bool) {
    || (pendSv2 == pendSv && deferred2 == deferred)
    || (preempt && if schLock == 0 then pendSv2 && !deferred2 else pendSv2 == pendSv && deferred2)
  }

  // Task t, not ready before, enters the queue of its priority at slot i and becomes ready.
  lemma Entered(tcb: seq<Tcb>, x: Tcb, ready: seq<seq<nat>>, mask: set<nat>, t: nat, i: nat)
    requires ReadyOk(tcb, ready, mask)
    requires t < |tcb| && tcb[t].status != Ready && tcb[t].prio <= IDLE_PRIO
    requires x.status == Ready && x.prio == tcb[t].prio
    requires i <= |ready[tcb[t].prio]|
    ensures var p := tcb[t].prio; var r := InsertAt(ready[p], i, t);
            ReadyOk(tcb[t := x], ready[p := r], MaskAfter(mask, p, r))
  {
    var p := tcb[t].prio;
    InsertFacts(ready[p], i, t);
  }

  // Ready task t leaves its queue and is no longer ready.
  lemma Left(tcb: seq<Tcb>, x: Tcb, ready: seq<seq<nat>>, mask: set<nat>, t: nat)
    requires ReadyOk(tcb, ready, mask)
    requires t < |tcb| && tcb[t].status == Ready
    requires x.status != Ready
    ensures var p := tcb[t].prio; var r := Without(ready[p], t);
            ReadyOk(tcb[t := x], ready[p := r], MaskAfter(mask, p, r))
  {
    var p := tcb[t].prio;
    WithoutFacts(ready[p], t);
  }

  // A change to a task that is not ready before or after does not concern the ready queues.
  lemma NotConcerned(tcb: seq<Tcb>, x: Tcb, ready: seq<seq<nat>>, mask: set<nat>, t: nat)
    requires ReadyOk(tcb, ready, mask)
    requires t < |tcb| && tcb[t].status != Ready
    requires x.status != Ready
    ensures ReadyOk(tcb[t := x], ready, mask)
  {
  }

  // The table after ready task t has gone from the queue of priority o to the end of that of p.
  function Requeued(ready: seq<seq<nat>>, o: nat, p: nat, t: nat): seq<seq<nat>> {
    if o < |ready| && p < |ready| && t in ready[o] then
      var r1 := ready[o := Without(ready[o], t)];
      r1[p := r1[p] + [t]]
    else ready
  }

  // A ready task leaves its queue, changes priority and enters the queue of the new one.
  lemma Repositioned(tcb: seq<Tcb>, ready: seq<seq<nat>>, mask: set<nat>, t: nat, p: nat)
    requires ReadyOk(tcb, ready, mask)
    requires t < |tcb| && tcb[t].status == Ready && p <= IDLE_PRIO
    ensures var o := tcb[t].prio;
            var r1 := ready[o := Without(ready[o], t)];
            var r2 := r1[p := InsertAt(r1[p], |r1[p]|, t)];
            ReadyOk(tcb[t := tcb[t].(prio := p)], r2, MaskAfter(MaskAfter(mask, o, r1[o]), p, r2[p]))
  {
    var o := tcb[t].prio;
    var idle := tcb[t].(status := Sleeping);
    var r1 := ready[o := Without(ready[o], t)];
    var m1 := MaskAfter(mask, o, r1[o]);
    Left(tcb, idle, ready, mask, t);
    NotConcerned(tcb[t := idle], idle.(prio := p), r1, m1, t);
    assert tcb[t := idle][t := idle.(prio := p)] == tcb[t := idle.(prio := p)];
    Entered(tcb[t := idle.(prio := p)], tcb[t].(prio := p), r1, m1, t, |r1[p]|);
    assert tcb[t := idle.(prio := p)][t := tcb[t].(prio := p)] == tcb[t := tcb[t].(prio := p)];
  }

  // Same states and priorities: the scheduler's promises carry over.
  ghost predicate SameSched(tcb: seq<Tcb>, tcb': seq<Tcb>) {
    && |tcb| == |tcb'|
    && forall t: nat :: t < |tcb| ==>
         && tcb[t].status == tcb'[t].status
         && tcb[t].prio == tcb'[t].prio
         && tcb[t].preempt == tcb'[t].preempt
  }

  lemma SchedSame(tcb: seq<Tcb>, tcb': seq<Tcb>, ready: seq<seq<nat>>, mask: set<nat>, run: nat,
                  schLock: nat, pendSv: bool, deferred: bool)
    requires SameSched(tcb, tcb')
    requires ReadyOk(tcb, ready, mask) && RunOk(tcb, run) && IdleOk(tcb)
    ensures ReadyOk(tcb', ready, mask) && RunOk(tcb', run) && IdleOk(tcb')
    ensures DispatchOk(tcb, run, schLock, pendSv, deferred) ==> DispatchOk(tcb', run, schLock, pendSv, deferred)
  {
  }

  // The running task stops running and is not ready: nothing is left to dispatch against.
  lemma SchedStops(tcb: seq<Tcb>, x: Tcb, ready: seq<seq<nat>>, mask: set<nat>, run: nat,
                   schLock: nat, pendSv: bool, deferred: bool)
    requires ReadyOk(tcb, ready, mask) && RunOk(tcb, run) && IdleOk(tcb)
    requires tcb[run].status == Running && run != IDLE_TASK && x.status !in {Ready, Running}
    ensures ReadyOk(tcb[run := x], ready, mask) && RunOk(tcb[run := x], run) && IdleOk(tcb[run := x])
    ensures DispatchOk(tcb[run := x], run, schLock, pendSv, deferred)
  {
  }

  // A task that was neither ready nor running becomes ready at one end of its queue.
  lemma SchedReadied(tcb: seq<Tcb>, x: Tcb, ready: seq<seq<nat>>, mask: set<nat>, run: nat, t: nat, i: nat)
    requires ReadyOk(tcb, ready, mask) && RunOk(tcb, run)
    requires t < |tcb| && tcb[t].status !in {Ready, Running} && tcb[t].prio <= IDLE_PRIO
    requires x.status == Ready && x.prio == tcb[t].prio && i <= |ready[x.prio]|
    ensures var r := InsertAt(ready[x.prio], i, t);
            ReadyOk(tcb[t := x], ready[x.prio := r], MaskAfter(mask, x.prio, r))
    ensures RunOk(tcb[t := x], run) && (IdleOk(tcb) ==> IdleOk(tcb[t := x]))
    // the dispatch promise can only be broken by the newcomer
    ensures forall schLock: nat, pendSv: bool, deferred: bool ::
              DispatchOk(tcb, run, schLock, pendSv, deferred) ==>
              DispatchOk(tcb[t := x], run, schLock, pendSv, deferred)
              || (x.prio < tcb[run].prio && tcb[run].preempt)
  {
    Entered(tcb, x, ready, mask, t, i);
  }

  // A change of lock depth is no reason to dispatch, unless it ends the lock with a switch deferred.
  lemma DepthOnly(tcb: seq<Tcb>, tcb': seq<Tcb>, run: nat)
    requires run < |tcb| == |tcb'| && tcb' == tcb[run := tcb[run].(schLock := tcb'[run].schLock)]
    ensures forall schLock: nat, pendSv: bool, deferred: bool ::
              DispatchOk(tcb, run, schLock, pendSv, deferred) ==> DispatchOk(tcb', run, schLock, pendSv, deferred)
  {
  }

  lemma LessLocked(tcb: seq<Tcb>, run: nat, depth: nat, schLock: nat, pendSv: bool, deferred: bool)
    requires run < |tcb| && DispatchOk(tcb, run, depth, pendSv, deferred)
    requires schLock > 0 || !deferred
    ensures DispatchOk(tcb, run, schLock, pendSv, deferred)
  {
  }

  lemma Pended(tcb: seq<Tcb>, run: nat, schLock: nat, deferred: bool)
    requires run < |tcb|
    ensures DispatchOk(tcb, run, schLock, true, deferred)
  {
  }

  // The running task goes back into its queue, at the front when preempted, at the back when it
  // yields.
  lemma SchedRequeued(tcb: seq<Tcb>, ready: seq<seq<nat>>, mask: set<nat>, run: nat, i: nat)
    requires ReadyOk(tcb, ready, mask) && RunOk(tcb, run) && IdleOk(tcb)
    requires tcb[run].status == Running && tcb[run].prio <= IDLE_PRIO && i <= |ready[tcb[run].prio]|
    ensures var p := tcb[run].prio;
            var r := InsertAt(ready[p], i, run);
            var x := tcb[run].(status := Ready);
            && ReadyOk(tcb[run := x], ready[p := r], MaskAfter(mask, p, r))
            && RunOk(tcb[run := x], run) && IdleOk(tcb[run := x])
  {
    Entered(tcb, tcb[run].(status := Ready), ready, mask, run, i);
  }

  // The head of queue p starts running.
  lemma SchedStarted(tcb: seq<Tcb>, ready: seq<seq<nat>>, mask: set<nat>, run: nat, p: nat)
    requires ReadyOk(tcb, ready, mask) && IdleOk(tcb) && p < |ready| && ready[p] != []
    requires RunOk(tcb, run) && tcb[run].status != Running
    ensures var h := ready[p][0];
            && h < |tcb| && tcb[h].prio == p && tcb[h].status == Ready
            && var x := tcb[h].(status := Running);
            && ReadyOk(tcb[h := x], ready[p := ready[p][1..]], MaskAfter(mask, p, ready[p][1..]))
            && RunOk(tcb[h := x], h) && IdleOk(tcb[h := x])
  {
    var h := ready[p][0];
    assert h in ready[p];
    assert Without(ready[p], h) == ready[p][1..];
    Left(tcb, tcb[h].(status := Running), ready, mask, h);
  }

  lemma ReadySlots(tcb: seq<Tcb>, ready: seq<seq<nat>>, mask: set<nat>, t: nat)
    requires ReadyOk(tcb, ready, mask) && Capped(tcb) && t < |tcb|
    ensures tcb[t].prio < |ready| == IDLE_PRIO + 1
  {
  }

  // The queue the search points at is not empty as long as any task is ready.
  lemma NextPrioReady(tcb: seq<Tcb>, ready: seq<seq<nat>>, mask: set<nat>, p: nat)
    requires ReadyOk(tcb, ready, mask)
    requires p in mask || (mask == {} && p == IDLE_PRIO)
    ensures p < |ready|
    ensures (exists t: nat :: t < |tcb| && tcb[t].status == Ready) ==>
              ready[p] != [] && ready[p][0] < |tcb| && tcb[ready[p][0]].status == Ready && tcb[ready[p][0]].prio == p
  {
    if t: nat :| t < |tcb| && tcb[t].status == Ready {
      assert ready[tcb[t].prio] != [];
      assert tcb[t].prio in mask || tcb[t].prio == IDLE_PRIO;
      assert ready[p] != [];
      assert ready[p][0] in ready[p];
    }
  }

  // A best priority stands for a ready task, but for the idle priority.
  lemma SomeReady(tcb: seq<Tcb>, ready: seq<seq<nat>>, mask: set<nat>, p: nat, q: nat)
    requires ReadyOk(tcb, ready, mask) && p <= q <= IDLE_PRIO
    requires p in mask || (mask == {} && p == IDLE_PRIO)
    ensures q == IDLE_PRIO || exists t: nat :: t < |tcb| && tcb[t].status == Ready && tcb[t].prio <= q
  {
    if p in mask {
      assert ready[p][0] in ready[p];
    }
  }

  // While nothing runs, some task is ready: the idle task at least.
  lemma IdleReady(tcb: seq<Tcb>, ready: seq<seq<nat>>, mask: set<nat>, run: nat)
    requires ReadyOk(tcb, ready, mask) && RunOk(tcb, run) && IdleOk(tcb) && tcb[run].status != Running
    ensures exists t: nat :: t < |tcb| && tcb[t].status == Ready
  {
  }

  // While the best task runs there is nothing to dispatch.
  lemma BestRuns(tcb: seq<Tcb>, run: nat, schLock: nat, pendSv: bool, deferred: bool)
    requires run < |tcb|
    requires forall t: nat :: t < |tcb| && tcb[t].status == Ready ==> tcb[run].prio <= tcb[t].prio
    ensures DispatchOk(tcb, run, schLock, pendSv, deferred)
  {
  }

  lemma NoneReady(tcb: seq<Tcb>, ready: seq<seq<nat>>)
    requires forall t: nat :: t < |tcb| ==> tcb[t].status == Initialised
    requires ready == seq(IDLE_PRIO + 1, _ => [])
    ensures ReadyOk(tcb, ready, {})
  {
  }

  lemma SomeQueued(tcb: seq<Tcb>, ready: seq<seq<nat>>, mask: set<nat>, p: nat)
    requires ReadyOk(tcb, ready, mask) && exists t: nat :: t < |tcb| && tcb[t].status == Ready && tcb[t].prio == p
    ensures p < |ready| && ready[p] != []
  {
  }
}
