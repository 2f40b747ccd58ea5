// What the scheduler operations do to ready queues, pending switches and the order of tasks, and why: the
// laws that the methods of the kernel promise.
module SchedSteps {
  import opened Prelude
  import opened KernelState
  import opened Queues
  import opened ReadyQueues
  import opened QueueOrder
  import opened PriorityWalk
  import opened NetSteps

  // ---- facts about one network ---------------------------------------------------------------

  lemma Parts(s: Net)
    requires Structured(s)
    ensures Wired(s) && Sorted(s) && Capped(s.tcb)
  {
  }

  lemma Whole(s: Net)
    requires Wired(s) && Sorted(s) && Capped(s.tcb)
    ensures Structured(s)
  {
  }

  lemma RunInRange(tcb: seq<Tcb>, run: nat)
    requires RunOk(tcb, run)
    ensures run < |tcb|
  {
  }

  lemma OwnerInRange(s: Net, m: nat)
    requires Wired(s)
    ensures m < |s.mtx| && s.mtx[m].owner.Some? ==> s.mtx[m].owner.value < |s.tcb|
  {
  }

  lemma SettledMore(s: Net, left: set<nat>, open: set<nat>)
    requires SettledExcept(s, left) && left <= open
    ensures SettledExcept(s, open)
  {
  }

  lemma CappedSum(tcb: seq<Tcb>)
    requires Capped(tcb)
    ensures PrioSum(tcb) <= IDLE_PRIO * |tcb|
  {
    PrioSumBound(tcb);
  }

  // Only tasks that are blocked are linked in a waiting queue.
  lemma NotLinked(s: Net, t: nat)
    requires Wired(s) && t < |s.tcb| && s.tcb[t].status != Blocked
    ensures s.tcb[t].waitQ == None && Next(s, t) == None
  {
  }

  lemma StillBlocked(s: Net, s2: Net, t: nat)
    requires SameShape(s, s2) && t < |s.tcb|
    ensures t < |s2.tcb| && s2.tcb[t].status == s.tcb[t].status
  {
    assert s.tcb[t].(prio := s2.tcb[t].prio) == s2.tcb[t];
  }

  lemma ShapeRun(a: Net, b: Net, t: nat)
    requires SameShape(a, b) && t < |a.tcb|
    ensures |a.tcb| == |b.tcb| && b.tcb[t] == a.tcb[t].(prio := b.tcb[t].prio)
  {
  }

  // ---- start-up and the context switch -------------------------------------------------------

  // Task h, the first of ready queue p, has left it.
  ghost predicate TakenFirst(ready: seq<seq<nat>>, p: nat, h: nat, ready2: seq<seq<nat>>) {
    p < |ready| && ready[p] != [] && h == ready[p][0] && ready2 == ready[p := ready[p][1..]]
  }

  // The tasks of priority p in table order.
  function ByPrio(tcb: seq<Tcb>, p: nat): seq<nat> {
    if tcb == [] then []
    else
      var n := |tcb| - 1;
      ByPrio(tcb[..n], p) + if tcb[n].prio == p then [n] else []
  }

  function TableOrder(tcb: seq<Tcb>): seq<seq<nat>> {
    seq(IDLE_PRIO + 1, p requires p >= 0 => ByPrio(tcb, p))
  }

  lemma OneMore(tcb: seq<Tcb>, i: nat)
    requires i < |tcb| && tcb[i].prio <= IDLE_PRIO
    ensures var p := tcb[i].prio; var r := TableOrder(tcb[..i]);
            TableOrder(tcb[..i + 1]) == r[p := r[p] + [i]]
  {
    assert tcb[..i + 1][..i] == tcb[..i];
    var k, r := tcb[i].prio, TableOrder(tcb[..i]);
    forall p: nat {:trigger r[p]} | p <= IDLE_PRIO ensures TableOrder(tcb[..i + 1])[p] == r[k := r[k] + [i]][p] {
      assert ByPrio(tcb[..i + 1], p) == ByPrio(tcb[..i], p) + if tcb[i].prio == p then [i] else [];
    }
  }

  // Of the best tasks the first in the table runs, with its own lock depth; all the others are ready, and
  // queued in table order.
  ghost predicate Begun(tasks: seq<Tcb>, tcb: seq<Tcb>, ready: seq<seq<nat>>, run: nat, schLock: nat) {
    && |tcb| == |tasks| && run < |tcb| && schLock == tcb[run].schLock
    && (forall t: nat :: t < |tcb| ==> tcb[t] == tasks[t].(status := if t == run then Running else Ready))
    && (forall t: nat :: t < |tcb| ==> tcb[run].prio <= tcb[t].prio)
    && TakenFirst(TableOrder(tasks), tcb[run].prio, run, ready)
  }

  lemma Beginning(tasks: seq<Tcb>, filled: seq<Tcb>, tcb: seq<Tcb>, ready: seq<seq<nat>>, run: nat)
    requires |tasks| == |filled| == |tcb| && run < |tcb| && tcb == filled[run := filled[run].(status := Running)]
    requires forall t: nat :: t < |tasks| ==> filled[t] == tasks[t].(status := Ready) && tcb[run].prio <= tasks[t].prio
    requires TakenFirst(TableOrder(tasks), tcb[run].prio, run, ready)
    ensures Begun(tasks, tcb, ready, run, tcb[run].schLock)
    ensures forall t: nat :: t < |tcb| ==> tcb[run].prio <= tcb[t].prio
  {
    hide TableOrder;
  }

  // A task still running when it is switched out is ready, at the front of its queue.
  function PutBack(tcb: seq<Tcb>, run: nat): seq<Tcb>
    requires run < |tcb|
  {
    if tcb[run].status == Running then tcb[run := tcb[run].(status := Ready)] else tcb
  }

  function PutFront(tcb: seq<Tcb>, run: nat, ready: seq<seq<nat>>): seq<seq<nat>>
    requires run < |tcb|
  {
    var p := tcb[run].prio;
    if tcb[run].status == Running && p < |ready| then ready[p := [run] + ready[p]] else ready
  }

  // Task h runs, and the depth of the task run before is kept in its control block.
  function SwitchedTo(tcb: seq<Tcb>, h: nat, current: nat, depth: nat): seq<Tcb>
    requires h < |tcb| && current < |tcb|
  {
    var a := tcb[h := tcb[h].(status := Running)];
    a[current := a[current].(schLock := depth)]
  }

  // ---- the walk along the inheritance chain --------------------------------------------------

  lemma VisitReady(tcb: seq<Tcb>, ready: seq<seq<nat>>, mask: set<nat>, tcb2: seq<Tcb>, ready2: seq<seq<nat>>, c: nat)
    requires ReadyOk(tcb, ready, mask) && c < |tcb| == |tcb2| && tcb2 == tcb[c := tcb[c].(prio := tcb2[c].prio)]
    requires tcb2[c].prio <= IDLE_PRIO
    requires ready2 == if tcb2[c].prio != tcb[c].prio && tcb2[c].status == Ready
                       then Requeued(ready, tcb[c].prio, tcb2[c].prio, c) else ready
    ensures TableKept(tcb, ready, tcb2, ready2)
  {
    hide Requeued;
    if tcb2[c].prio == tcb[c].prio {
      TableSame(tcb, tcb2, ready);
    } else if tcb[c].status == Ready {
      RequeuedKept(tcb, ready, mask, tcb2, c);
    } else {
      ReadyApart(tcb, ready, mask, tcb2, c);
    }
  }

  lemma Unmoved(a: Sched, b: Sched)
    requires b.s == a.s && b.ready == a.ready
    ensures InOrder(a, b, true) && InOrder(a, b, false)
  {
    TableSame(a.s.tcb, a.s.tcb, a.s.q);
    TableSame(a.s.tcb, a.s.tcb, a.ready);
  }

  lemma WalkStarts(a: Sched, preempt: bool, schLock: nat)
    ensures InOrder(a, a, true) && InOrder(a, a, false)
    ensures Steady(preempt, schLock, a.pendSv, a.deferred, a.pendSv, a.deferred)
  {
    Unmoved(a, a);
  }

  lemma SteadyMore(tcb: seq<Tcb>, run: nat, c: nat, changed: bool, schLock: nat,
                   p0: bool, d0: bool, p1: bool, d1: bool, p2: bool, d2: bool)
    requires run < |tcb| && c < |tcb| && Steady(tcb[run].preempt, schLock, p0, d0, p1, d1)
    requires Decided(changed && WantsSwitch(tcb, run, c), schLock, p1, d1, p2, d2)
    ensures Steady(tcb[run].preempt, schLock, p0, d0, p2, d2)
  {
  }

  lemma SteadyTrans(preempt: bool, schLock: nat, a: Sched, b: Sched, c: Sched)
    requires Steady(preempt, schLock, a.pendSv, a.deferred, b.pendSv, b.deferred)
    requires Steady(preempt, schLock, b.pendSv, b.deferred, c.pendSv, c.deferred)
    ensures Steady(preempt, schLock, a.pendSv, a.deferred, c.pendSv, c.deferred)
  {
  }

  lemma NudgedShape(a: Net, b: Net, c: Net, cur: nat)
    requires SameShape(a, b) && Nudged(b, c, cur)
    ensures SameShape(a, c)
  {
    SameShapeTrans(a, b, c);
  }

  // One more visit of a walk in one direction.
  lemma WalkOrder(a: Net, ra: seq<seq<nat>>, ma: set<nat>, b: Net, rb: seq<seq<nat>>, mb: set<nat>,
                  c: Net, rc: seq<seq<nat>>, mc: set<nat>, cur: nat, up: bool)
    requires ReadyOk(a.tcb, ra, ma) && ReadyOk(b.tcb, rb, mb) && ReadyOk(c.tcb, rc, mc)
    requires SameShape(a, b) && Nudged(b, c, cur) && cur < |b.tcb| == |c.tcb|
    requires if up then c.tcb[cur].prio >= b.tcb[cur].prio else c.tcb[cur].prio <= b.tcb[cur].prio
    requires Shifted(a.tcb, b.tcb, up)
    requires TableKept(a.tcb, a.q, b.tcb, b.q) && TableKept(b.tcb, b.q, c.tcb, c.q)
    requires TableKept(a.tcb, ra, b.tcb, rb) && TableKept(b.tcb, rb, c.tcb, rc)
    ensures Shifted(a.tcb, c.tcb, up)
    ensures TableKept(a.tcb, a.q, c.tcb, c.q) && TableKept(a.tcb, ra, c.tcb, rc)
  {
    hide TableKept, ReadyOk;
    forall t: nat | t < |b.tcb| ensures a.tcb[t].(prio := b.tcb[t].prio) == b.tcb[t] {
    }
    assert Shifted(b.tcb, c.tcb, up);
    WaitTrans(a.tcb, a.q, b.tcb, b.q, c.tcb, c.q, up);
    ReadyTrans(a.tcb, ra, ma, b.tcb, rb, mb, c.tcb, rc, mc, up);
  }

  // One more visit of a walk.
  lemma Visited(a: Sched, b: Sched, c: Sched, run: nat, cur: nat, changed: bool, schLock: nat, down: bool)
    requires ReadyOk(a.s.tcb, a.ready, a.mask) && ReadyOk(b.s.tcb, b.ready, b.mask) && ReadyOk(c.s.tcb, c.ready, c.mask)
    requires SameShape(a.s, b.s) && Nudged(b.s, c.s, cur) && run < |c.s.tcb| && cur < |b.s.tcb| == |c.s.tcb|
    requires IsEff(b.s, cur, c.s.tcb[cur].prio) && (changed <==> c.s.tcb[cur].prio != b.s.tcb[cur].prio)
    requires Heads(b.s, cur, down)
    requires TableKept(b.s.tcb, b.s.q, c.s.tcb, c.s.q) && TableKept(b.s.tcb, b.ready, c.s.tcb, c.ready)
    requires Decided(changed && WantsSwitch(c.s.tcb, run, cur), schLock, b.pendSv, b.deferred, c.pendSv, c.deferred)
    requires Steady(c.s.tcb[run].preempt, schLock, a.pendSv, a.deferred, b.pendSv, b.deferred)
    ensures SameShape(a.s, c.s)
    ensures Steady(c.s.tcb[run].preempt, schLock, a.pendSv, a.deferred, c.pendSv, c.deferred)
    ensures IsEff(b.s, cur, b.s.tcb[cur].prio) || (Falls(b.s, cur) && Rises(b.s, cur)) ==> !changed
    ensures if down then c.s.tcb[cur].prio <= b.s.tcb[cur].prio else c.s.tcb[cur].prio >= b.s.tcb[cur].prio
    ensures InOrder(a, b, !down) ==> InOrder(a, c, !down)
  {
    hide ReadyOk, Falls, Rises, IsEff, TableKept, Decided, Steady, Nudged, SameShape;
    Moved(b.s, cur, c.s.tcb[cur].prio);
    UniqueEff(b.s, cur, c.s.tcb[cur].prio);
    NudgedShape(a.s, b.s, c.s, cur);
    SteadyMore(c.s.tcb, run, cur, changed, schLock, a.pendSv, a.deferred, b.pendSv, b.deferred, c.pendSv, c.deferred);
    if InOrder(a, b, !down) {
      WalkOrder(a.s, a.ready, a.mask, b.s, b.ready, b.mask, c.s, c.ready, c.mask, cur, !down);
    }
  }

  // ---- handing a mutex over ------------------------------------------------------------------

  // Task t has joined the ready queue of priority p, at the front if it is the post-processing task.
  ghost predicate Queued(ready: seq<seq<nat>>, t: nat, p: nat, ready2: seq<seq<nat>>) {
    p < |ready| && ready2 == ready[p := if t == POSTPROC_TASK then [t] + ready[p] else ready[p] + [t]]
  }

  // The running task, whose priority has changed, no longer is better than all the ready ones.
  ghost predicate GivesWay(tcb: seq<Tcb>, tcb2: seq<Tcb>, run: nat)
    requires run < |tcb| == |tcb2|
  {
    tcb2[run].prio != tcb[run].prio && tcb2[run].preempt && BetterReady(tcb, tcb2[run].prio)
  }

  // Which tasks are better than the running one does not depend on how it became so.
  lemma BetterSame(tcb: seq<Tcb>, tcb2: seq<Tcb>, run: nat)
    requires run < |tcb| == |tcb2| && tcb[run].status == Running
    requires tcb2 == tcb[run := tcb[run].(prio := tcb2[run].prio)]
    ensures forall p: nat :: BetterReady(tcb, p) <==> BetterReady(tcb2, p)
  {
    forall p: nat ensures BetterReady(tcb, p) <==> BetterReady(tcb2, p) {
      assert tcb2[run].status == Running;
      assert forall t: nat :: t < |tcb| && t != run ==> tcb2[t] == tcb[t];
    }
  }

  // Handing a mutex over makes nobody ready.
  lemma BetterHanded(s: Net, h: Net, run: nat, w: nat)
    requires run < |s.tcb| && w < |s.tcb| == |h.tcb| && s.tcb[run].status == Running && s.tcb[w].status == Blocked
    requires forall t: nat :: t < |s.tcb| && t !in {run, w} ==> h.tcb[t] == s.tcb[t]
    requires h.tcb[run].status == Running && h.tcb[w].status == Blocked
    ensures forall p: nat :: BetterReady(s.tcb, p) <==> BetterReady(h.tcb, p)
  {
    forall p: nat ensures BetterReady(s.tcb, p) <==> BetterReady(h.tcb, p) {
      if t: nat :| t < |s.tcb| && s.tcb[t].status == Ready && s.tcb[t].prio < p {
        assert h.tcb[t] == s.tcb[t];
      }
    }
  }

  // Task run has passed mutex m to its first waiter, which has become ready. Nobody else changes, and
  // under the scheduler lock the switch to a better task is deferred, never pended.
  ghost predicate PassedTo(a: Sched, b: Sched, run: nat, m: nat, schLock: nat) {
    && run < |a.s.tcb| == |b.s.tcb| && m < |a.s.mtx| && m < |a.s.q| && m in a.s.tcb[run].owned && a.s.q[m] != []
    && var w := a.s.q[m][0];
    && w < |a.s.tcb| && w != run
    && var h := BecameReady(HandedOver(a.s, run, m), w, false);
    && SameShape(h, b.s) && (!a.s.mtx[m].inherit ==> b.s == h)
    && (forall t: nat :: t < |a.s.tcb| && t !in {run, w} ==> b.s.tcb[t] == a.s.tcb[t])
    && b.s.q == h.q && Queued(a.ready, w, b.s.tcb[w].prio, b.ready)
    && Decided(GivesWay(a.s.tcb, b.s.tcb, run) || (b.s.tcb[w].prio < b.s.tcb[run].prio && b.s.tcb[run].preempt),
               schLock, a.pendSv, a.deferred, b.pendSv, b.deferred)
  }

  lemma Passing(a: Sched, c: Sched, b: Sched, run: nat, m: nat, schLock: nat)
    requires run < |a.s.tcb| && m < |a.s.mtx| && m < |a.s.q| && m in a.s.tcb[run].owned && a.s.q[m] != []
    requires a.s.q[m][0] < |a.s.tcb| && a.s.q[m][0] != run && |c.s.tcb| == |a.s.tcb|
    requires var w := a.s.q[m][0];
             && SameShape(HandedOver(a.s, run, m), c.s) && (!a.s.mtx[m].inherit ==> c.s == HandedOver(a.s, run, m))
             && (forall t: nat :: t < |a.s.tcb| && t !in {run, w} ==> c.s.tcb[t] == a.s.tcb[t])
             && b.s == BecameReady(c.s, w, false) && Queued(c.ready, w, b.s.tcb[w].prio, b.ready)
             && Decided(c.s.tcb[run].prio > c.s.tcb[w].prio && c.s.tcb[run].preempt,
                        schLock, c.pendSv, c.deferred, b.pendSv, b.deferred)
    requires c.s.q == a.s.q[m := a.s.q[m][1..]] && c.ready == a.ready
    requires Decided(GivesWay(a.s.tcb, c.s.tcb, run), schLock, a.pendSv, a.deferred, c.pendSv, c.deferred)
    ensures PassedTo(a, b, run, m, schLock)
  {
    hide Without, IndexOf, Queued, SameShape, BetterReady;
    ReadyShape(HandedOver(a.s, run, m), c.s, a.s.q[m][0], false);
  }

  // ---- ticks ---------------------------------------------------------------------------------

  // Task t is the last one in the ready queue of its priority.
  ghost predicate EnteredLast(s: Net, ready: seq<seq<nat>>, t: nat) {
    && t < |s.tcb| && s.tcb[t].prio < |ready|
    && var r := ready[s.tcb[t].prio]; r != [] && r[|r| - 1] == t
  }

  // Task t has been woken by its timeout: a blocked one has left its waiting queue and has its flag set.
  // Priorities can only have got worse, queues keep their order, and t enters at the tail of its own.
  ghost predicate ExpiredFrom(a: Sched, b: Sched, t: nat) {
    && t < |a.s.tcb|
    && (a.s.tcb[t].status == Sleeping ==> b.s == BecameReady(a.s, t, a.s.tcb[t].timeOut))
    && (a.s.tcb[t].status == Blocked ==>
          && a.s.tcb[t].waitQ.Some? && a.s.tcb[t].waitQ.value < |a.s.q| && t in a.s.q[a.s.tcb[t].waitQ.value]
          && SameShape(BecameReady(Unlinked(a.s, t), t, true), b.s))
    && QuietExpiry(a.s, b.s, t)
    && InOrder(a, b, true) && EnteredLast(b.s, b.ready, t)
  }

  lemma QuietAt(a: Sched, b: Sched, t: nat)
    requires ExpiredFrom(a, b, t)
    ensures QuietExpiry(a.s, b.s, t)
  {
  }

  lemma UnlinkedOrder(s: Net, t: nat)
    requires Wired(s) && t < |s.tcb| && s.tcb[t].waitQ.Some? && s.tcb[t].waitQ.value < |s.q|
    requires t in s.q[s.tcb[t].waitQ.value]
    ensures TableKept(s.tcb, s.q, s.tcb, Unlinked(s, t).q)
  {
    hide TableKept, Without, IndexOf;
    LeftKept(s.tcb, s.q, s.tcb[t].waitQ.value, t);
  }

  // A task that expires: out of its waiting queue, the owner repaired, and into its ready queue.
  lemma Expiring(a: Sched, u: Net, c: Sched, b: Sched, t: nat, timeOut: bool)
    requires ReadyOk(a.s.tcb, a.ready, a.mask) && ReadyOk(c.s.tcb, c.ready, c.mask) && ReadyOk(b.s.tcb, b.ready, b.mask)
    requires t < |a.s.tcb| && a.s.tcb[t].status in {Sleeping, Blocked}
    requires a.s.tcb[t].status == Sleeping ==> u == a.s == c.s && timeOut == a.s.tcb[t].timeOut
    requires a.s.tcb[t].status == Blocked ==>
               && a.s.tcb[t].waitQ.Some? && a.s.tcb[t].waitQ.value < |a.s.q| && t in a.s.q[a.s.tcb[t].waitQ.value]
               && timeOut && u == Unlinked(a.s, t) && (SettledExcept(u, {}) ==> c.s == u)
    requires TableKept(a.s.tcb, a.s.q, u.tcb, u.q) && Followed(u, a.ready, c.s, c.ready, true)
    requires t < |c.s.tcb| && c.s.tcb[t].status != Ready && c.s.tcb[t].prio < |c.ready|
    requires b.s == BecameReady(c.s, t, timeOut)
    requires b.ready == c.ready[c.s.tcb[t].prio := c.ready[c.s.tcb[t].prio] + [t]]
    ensures ExpiredFrom(a, b, t)
  {
    hide ReadyOk, TableKept, SettledExcept, Without;
    ReadyShape(u, c.s, t, timeOut);
    forall x: nat | x < |u.tcb| ensures u.tcb[x].(prio := c.s.tcb[x].prio) == c.s.tcb[x] {
    }
    WaitTrans(a.s.tcb, a.s.q, u.tcb, u.q, c.s.tcb, c.s.q, true);
    TableSame(c.s.tcb, b.s.tcb, c.s.q);
    WaitTrans(a.s.tcb, a.s.q, c.s.tcb, c.s.q, b.s.tcb, b.s.q, true);
    EnqueuedKept(c.s.tcb, c.ready, c.mask, b.s.tcb, t, c.s.tcb[t].prio);
    ReadyTrans(a.s.tcb, a.ready, a.mask, c.s.tcb, c.ready, c.mask, b.s.tcb, b.ready, b.mask, true);
  }

  ghost predicate InTurn(tcb: seq<Tcb>, tcb2: seq<Tcb>, ready: seq<seq<nat>>, x: nat, y: nat) {
    x < |tcb| && x < |tcb2| && y < |tcb2| && tcb2[y].prio == tcb2[x].prio == tcb[x].prio ==>
      tcb2[x].prio < |ready| && Ahead(ready[tcb2[x].prio], x, y)
  }

  // Of two tasks that became ready one after the other and have the same priority, the first is ahead if
  // it has kept that priority all the time.
  ghost predicate EnteredInOrder(tcb: seq<Tcb>, tcb2: seq<Tcb>, ready: seq<seq<nat>>, gone: seq<nat>) {
    forall i: nat, j: nat :: i < j < |gone| ==> InTurn(tcb, tcb2, ready, gone[i], gone[j])
  }

  lemma StillInTurn(tcb: seq<Tcb>, s: Sched, b: Sched, x: nat, y: nat)
    requires ReadyOk(s.s.tcb, s.ready, s.mask) && ReadyOk(b.s.tcb, b.ready, b.mask)
    requires x < |tcb| == |s.s.tcb| == |b.s.tcb| && y < |tcb| && x != y
    requires Shifted(tcb, s.s.tcb, true) && InOrder(s, b, true)
    requires s.s.tcb[x].status == Ready && b.s.tcb[x].status == Ready && b.s.tcb[y].status == Ready
    requires s.s.tcb[y].status == Ready ==> InTurn(tcb, s.s.tcb, s.ready, x, y)
    ensures InTurn(tcb, b.s.tcb, b.ready, x, y)
  {
    if b.s.tcb[y].prio == b.s.tcb[x].prio == tcb[x].prio {
      var p := tcb[x].prio;
      assert s.s.tcb[x].prio == p;
      assert QueueKept(s.s.tcb, s.ready[p], b.s.tcb, b.ready[p]);
      assert x in s.ready[p] && x in b.ready[p] && y in b.ready[p];
      assert Behind(s.s.tcb, s.ready[p], b.s.tcb, x, y);
    }
  }

  lemma EnteredMore(a: Sched, s: Sched, b: Sched, gone: seq<nat>, t: nat)
    requires ReadyOk(s.s.tcb, s.ready, s.mask) && ReadyOk(b.s.tcb, b.ready, b.mask)
    requires |a.s.tcb| == |s.s.tcb| == |b.s.tcb| && Shifted(a.s.tcb, s.s.tcb, true) && InOrder(s, b, true)
    requires EnteredInOrder(a.s.tcb, s.s.tcb, s.ready, gone) && NoDup(gone)
    requires forall x: nat :: x in gone ==> x < |a.s.tcb| && s.s.tcb[x].status == Ready && b.s.tcb[x].status == Ready
    requires t < |a.s.tcb| && t !in gone && s.s.tcb[t].status != Ready && b.s.tcb[t].status == Ready
    ensures EnteredInOrder(a.s.tcb, b.s.tcb, b.ready, gone + [t])
  {
    hide ReadyOk, TableKept, InTurn, Shifted;
    var more := gone + [t];
    forall i: nat, j: nat | i < j < |more| ensures InTurn(a.s.tcb, b.s.tcb, b.ready, more[i], more[j]) {
      assert more[i] == gone[i] && gone[i] in gone;
      if j < |gone| {
        assert InTurn(a.s.tcb, s.s.tcb, s.ready, gone[i], gone[j]);
        assert gone[j] in gone;
      }
      StillInTurn(a.s.tcb, s, b, more[i], more[j]);
    }
  }

  lemma SamePreempt(a: Net, s: Net, gone: seq<nat>, t: nat)
    requires TimedOut(a, s, gone) && t < |a.tcb|
    ensures |s.tcb| == |a.tcb| && s.tcb[t].preempt == a.tcb[t].preempt
  {
    assert t !in gone ==> s.tcb[t] == a.tcb[t].(prio := s.tcb[t].prio);
  }

  lemma NotYetExpired(a: Net, s: Net, gone: seq<nat>, t: nat)
    requires TimedOut(a, s, gone) && t < |a.tcb| && t !in gone
    ensures |s.tcb| == |a.tcb| && s.tcb[t] == a.tcb[t].(prio := s.tcb[t].prio)
  {
  }

  lemma ExpiredStay(a: Net, s: Net, b: Net, gone: seq<nat>, t: nat)
    requires TimedOut(a, s, gone) && TimedOut(a, b, gone + [t])
    ensures |a.q| == |s.q| == |b.q| && forall k: nat, x: nat :: k < |a.q| && x in b.q[k] ==> x in s.q[k]
    ensures forall x: nat :: x < |a.tcb| && a.tcb[x].status == Ready ==> s.tcb[x].status == Ready
    ensures forall x: nat :: x < |a.tcb| && x in gone ==> s.tcb[x].status == Ready && b.tcb[x].status == Ready
    ensures t < |a.tcb| ==> b.tcb[t].status == Ready && (t !in gone ==> s.tcb[t].status == a.tcb[t].status)
    ensures forall x: nat :: x in gone ==> x < |a.tcb|
  {
    forall x: nat | x < |a.tcb| && x !in gone ensures s.tcb[x] == a.tcb[x].(prio := s.tcb[x].prio) {
    }
    assert forall x: nat :: x in gone + [t] <==> x in gone || x == t;
  }

  // One more task has expired.
  lemma ExpiredMore(a: Sched, s: Sched, b: Sched, gone: seq<nat>, t: nat)
    requires ReadyOk(a.s.tcb, a.ready, a.mask) && ReadyOk(s.s.tcb, s.ready, s.mask) && ReadyOk(b.s.tcb, b.ready, b.mask)
    requires Wired(s.s) && TimedOut(a.s, s.s, gone) && InOrder(a, s, true) && ExpiredFrom(s, b, t)
    requires EnteredInOrder(a.s.tcb, s.s.tcb, s.ready, gone) && NoDup(gone)
    requires t < |a.s.tcb| == |s.s.tcb| && t !in gone && a.s.tcb[t].status in {Sleeping, Blocked}
    ensures TimedOut(a.s, b.s, gone + [t]) && InOrder(a, b, true)
    ensures EnteredInOrder(a.s.tcb, b.s.tcb, b.ready, gone + [t])
  {
    hide ReadyOk, TableKept, Wired, EnteredInOrder, TimedOut, QuietExpiry, SameShape, Without;
    NotYetExpired(a.s, s.s, gone, t);
    TimedOutMore(a.s, s.s, b.s, gone, t);
    ExpiredStay(a.s, s.s, b.s, gone, t);
    WaitTrans(a.s.tcb, a.s.q, s.s.tcb, s.s.q, b.s.tcb, b.s.q, true);
    ReadyTrans(a.s.tcb, a.ready, a.mask, s.s.tcb, s.ready, s.mask, b.s.tcb, b.ready, b.mask, true);
    EnteredMore(a, s, b, gone, t);
  }

  // Part of a tick: from a to b the tasks in gone have expired, in this order.
  ghost predicate TickedTo(a: Sched, b: Sched, gone: seq<nat>, run: nat, schLock: nat) {
    && TimedOut(a.s, b.s, gone) && InOrder(a, b, true) && EnteredInOrder(a.s.tcb, b.s.tcb, b.ready, gone)
    && run < |a.s.tcb| && Steady(a.s.tcb[run].preempt, schLock, a.pendSv, a.deferred, b.pendSv, b.deferred)
  }

  // The states of a tick: one task after the other expires.
  ghost predicate TraceOf(trace: seq<Sched>, gone: seq<nat>) {
    && |trace| == |gone| + 1
    && (forall i: nat :: i < |trace| ==> ReadyOk(trace[i].s.tcb, trace[i].ready, trace[i].mask))
    && (forall i: nat :: i < |gone| ==> ExpiredFrom(trace[i], trace[i + 1], gone[i]))
  }

  // The tasks that have not had their turn are not runnable.
  ghost predicate StillOut(tcb: seq<Tcb>, gone: seq<nat>, i: nat) {
    forall k: nat :: i <= k < |gone| ==> gone[k] < |tcb| && tcb[gone[k]].status in {Sleeping, Blocked}
  }

  lemma TraceMore(trace: seq<Sched>, gone: seq<nat>, b: Sched, t: nat)
    requires TraceOf(trace, gone) && ExpiredFrom(trace[|gone|], b, t) && ReadyOk(b.s.tcb, b.ready, b.mask)
    ensures TraceOf(trace + [b], gone + [t])
  {
    hide ReadyOk, ExpiredFrom;
  }

  // An expired task becomes ready, and no other task changes its state; priorities can only rise.
  lemma ExpiredStates(a: Sched, b: Sched, t: nat)
    requires ExpiredFrom(a, b, t) && a.s.tcb[t].status in {Sleeping, Blocked}
    ensures |a.s.tcb| == |b.s.tcb| && b.s.tcb[t].status == Ready
    ensures forall u: nat :: u < |a.s.tcb| && u != t ==> b.s.tcb[u].status == a.s.tcb[u].status
    ensures forall u: nat :: u < |a.s.tcb| ==> b.s.tcb[u].prio >= a.s.tcb[u].prio
  {
    hide TableKept, Without;
    if a.s.tcb[t].status == Blocked {
      var u := BecameReady(Unlinked(a.s, t), t, true);
      forall x: nat | x < |u.tcb| ensures u.tcb[x].(prio := b.s.tcb[x].prio) == b.s.tcb[x] {
      }
    }
  }

  // Between two states of a tick.
  lemma {:induction false} TraceStates(trace: seq<Sched>, gone: seq<nat>, i: nat, j: nat)
    requires TraceOf(trace, gone) && i <= j <= |gone| && NoDup(gone)
    requires StillOut(trace[i].s.tcb, gone, i)
    ensures |trace[j].s.tcb| == |trace[i].s.tcb|
    ensures forall u: nat :: u < |trace[i].s.tcb| && u !in gone[i..j] ==>
              trace[j].s.tcb[u].status == trace[i].s.tcb[u].status
    ensures forall k: nat :: i <= k < j ==> trace[j].s.tcb[gone[k]].status == Ready
    ensures StillOut(trace[j].s.tcb, gone, j)
    ensures forall u: nat :: u < |trace[i].s.tcb| ==> trace[j].s.tcb[u].prio >= trace[i].s.tcb[u].prio
    decreases j - i
  {
    hide ReadyOk, ExpiredFrom;
    if i < j {
      TraceStates(trace, gone, i, j - 1);
      assert gone[i..j] == gone[i..j - 1] + [gone[j - 1]];
      assert gone[j - 1] !in gone[i..j - 1];
      ExpiredStates(trace[j - 1], trace[j], gone[j - 1]);
    }
  }

  // A task x that keeps its priority p from state j to state k stays ahead of a task y that has p in the
  // end, if y came later or was behind.
  lemma {:induction false} KeepsAhead(trace: seq<Sched>, gone: seq<nat>, j: nat, k: nat, x: nat, y: nat, p: nat)
    requires TraceOf(trace, gone) && j <= k <= |gone| && NoDup(gone) && x != y && p < |trace[j].ready|
    requires StillOut(trace[j].s.tcb, gone, j)
    requires x < |trace[j].s.tcb| && trace[j].s.tcb[x].status == Ready && trace[j].s.tcb[x].prio == p
    requires x < |trace[k].s.tcb| && trace[k].s.tcb[x].prio == p
    requires y < |trace[k].s.tcb| && trace[k].s.tcb[y].status == Ready && trace[k].s.tcb[y].prio == p
    requires y in trace[j].ready[p] ==> Ahead(trace[j].ready[p], x, y)
    ensures p < |trace[k].ready| && Ahead(trace[k].ready[p], x, y)
    decreases k - j
  {
    hide ExpiredFrom;
    if j == k {
      assert y in trace[k].ready[p];
    } else {
      TraceStates(trace, gone, j, k - 1);
      var s, b := trace[k - 1], trace[k];
      ExpiredStates(s, b, gone[k - 1]);
      assert x !in gone[j..k - 1] ==> s.s.tcb[x].status == Ready;
      if y in s.ready[p] {
        KeepsAhead(trace, gone, j, k - 1, x, y, p);
      }
      OneStepAhead(s, b, gone[k - 1], x, y, p);
    }
  }

  lemma OneStepAhead(s: Sched, b: Sched, t: nat, x: nat, y: nat, p: nat)
    requires ReadyOk(s.s.tcb, s.ready, s.mask) && ReadyOk(b.s.tcb, b.ready, b.mask) && ExpiredFrom(s, b, t)
    requires x != y && x < |s.s.tcb| == |b.s.tcb| && y < |b.s.tcb| && p < |s.ready|
    requires s.s.tcb[x].status == b.s.tcb[x].status == b.s.tcb[y].status == Ready
    requires s.s.tcb[x].prio == b.s.tcb[x].prio == b.s.tcb[y].prio == p
    requires y in s.ready[p] ==> Ahead(s.ready[p], x, y)
    ensures p < |b.ready| && Ahead(b.ready[p], x, y)
  {
    assert QueueKept(s.s.tcb, s.ready[p], b.s.tcb, b.ready[p]);
    assert x in s.ready[p] && x in b.ready[p] && y in b.ready[p];
    assert Behind(s.s.tcb, s.ready[p], b.s.tcb, x, y);
  }

  // Of two tasks that expire on one tick and end up with the same priority, the second of which keeps it,
  // the first in the list is ahead if and only if it has that priority when the second becomes ready: if
  // a later expiry takes a donor from it, it goes behind.
  lemma TickOrder(trace: seq<Sched>, gone: seq<nat>, i: nat, j: nat, p: nat)
    requires TraceOf(trace, gone) && NoDup(gone) && i < j < |gone| && StillOut(trace[0].s.tcb, gone, 0)
    requires var b := trace[|gone|].s.tcb;
             gone[i] < |b| && gone[j] < |b| && b[gone[i]].prio == b[gone[j]].prio == p
    requires gone[j] < |trace[j + 1].s.tcb| && trace[j + 1].s.tcb[gone[j]].prio == p
    ensures p < |trace[|gone|].ready| && gone[i] < |trace[j + 1].s.tcb|
    ensures Ahead(trace[|gone|].ready[p], gone[i], gone[j]) <==> trace[j + 1].s.tcb[gone[i]].prio == p
  {
    hide ExpiredFrom, ReadyOk, StillOut, Ahead;
    var x, y, n := gone[i], gone[j], |gone|;
    TraceStates(trace, gone, 0, j + 1);
    TraceStates(trace, gone, 0, n);
    QueueOf(trace[j + 1], x, y);
    QueueOf(trace[n], x, y);
    if trace[j + 1].s.tcb[x].prio == p {
      LastAhead(trace[j], trace[j + 1], x, y, p);
      KeepsAhead(trace, gone, j + 1, n, x, y, p);
    } else {
      KeepsAhead(trace, gone, j + 1, n, y, x, p);
      NotBoth(trace[n].ready[p], x, y);
    }
  }

  lemma QueueOf(s: Sched, x: nat, y: nat)
    requires ReadyOk(s.s.tcb, s.ready, s.mask) && y < |s.s.tcb| && s.s.tcb[y].status == Ready
    ensures var p := s.s.tcb[y].prio;
            p < |s.ready| && NoDup(s.ready[p]) && (x in s.ready[p] ==> x < |s.s.tcb| && s.s.tcb[x].prio == p)
  {
  }

  lemma LastAhead(a: Sched, b: Sched, x: nat, y: nat, p: nat)
    requires ExpiredFrom(a, b, y) && ReadyOk(b.s.tcb, b.ready, b.mask) && x != y
    requires x < |b.s.tcb| && b.s.tcb[x].status == Ready && b.s.tcb[x].prio == b.s.tcb[y].prio == p
    ensures p < |b.ready| && Ahead(b.ready[p], x, y)
  {
    var r := b.ready[p];
    var i: nat :| i < |r| && r[i] == x;
    assert i < |r| - 1;
  }

  lemma NotBoth(r: seq<nat>, x: nat, y: nat)
    requires NoDup(r) && Ahead(r, y, x)
    ensures !Ahead(r, x, y)
  {
  }

  lemma TickStarts(a: Sched, run: nat, schLock: nat)
    requires run < |a.s.tcb| && ReadyOk(a.s.tcb, a.ready, a.mask)
    ensures TickedTo(a, a, [], run, schLock) && TraceOf([a], [])
  {
    Unmoved(a, a);
  }

  lemma TickEnds(a: Sched, s: Sched, b: Sched, gone: seq<nat>, run: nat, schLock: nat)
    requires TickedTo(a, s, gone, run, schLock) && b.s == s.s && b.ready == s.ready
    ensures TimedOut(a.s, b.s, gone) && InOrder(a, b, true) && EnteredInOrder(a.s.tcb, b.s.tcb, b.ready, gone)
    ensures run < |a.s.tcb| == |s.s.tcb|
    ensures Steady(s.s.tcb[run].preempt, schLock, a.pendSv, a.deferred, s.pendSv, s.deferred)
  {
    SamePreempt(a.s, s.s, gone, run);
  }

  lemma Unseen(expired: seq<nat>, i: nat)
    requires NoDup(expired) && i < |expired|
    ensures expired[i] !in expired[..i] && NoDup(expired[..i])
  {
  }

  // ---- message owners ------------------------------------------------------------------------

  // A message about to change hands, from a to o.
  ghost predicate Changing(s: Net, x: nat, a: Option<nat>, o: Option<nat>) {
    && Structured(s) && SettledExcept(s, {}) && x < |s.mesg| && s.mesg[x].owner == a && a != o
    && (o.Some? ==> o.value < |s.tcb|) && (a.Some? ==> a.value < |s.tcb| && x in s.tcb[a.value].mesgs)
  }

  ghost function Winner(o: Option<nat>): set<nat> {
    if o.Some? then {o.value} else {}
  }

  lemma RunningLoser(s: Net, x: nat, o: Option<nat>)
    requires Structured(s) && x < |s.mesg| && (o.Some? ==> o.value < |s.tcb|)
    requires OneWalk(s, x, o) && s.mesg[x].owner != o
    requires s.mesg[x].owner.Some? ==> s.mesg[x].owner.value < |s.tcb| && x in s.tcb[s.mesg[x].owner.value].mesgs
    requires Wired(Transferred(s, x, o)) && s.mesg[x].owner.Some? && o.Some?
    ensures var m, a := Transferred(s, x, o), s.mesg[x].owner.value;
            m.tcb[a].waitQ == None && Next(m, a) == None && m.tcb[a].status == Running
  {
    hide Transferred, Wired, Sorted, Without;
    TransferredSame(s, x, o);
    NotLinked(Transferred(s, x, o), s.mesg[x].owner.value);
  }

  // Only the running loser has changed its priority so far.
  lemma LoserApart(s: Net, x: nat, o: Option<nat>, mid: Net)
    requires x < |s.mesg| && o.Some? && o.value < |s.tcb| && OneWalk(s, x, o) && s.mesg[x].owner != o
    requires s.mesg[x].owner.Some? ==> s.mesg[x].owner.value < |s.tcb| && x in s.tcb[s.mesg[x].owner.value].mesgs
    requires var m := Transferred(s, x, o);
             if s.mesg[x].owner.None? then mid == m
             else var a := s.mesg[x].owner.value;
                  |mid.tcb| == |m.tcb| && mid.tcb == m.tcb[a := m.tcb[a].(prio := mid.tcb[a].prio)]
    ensures |mid.tcb| == |s.tcb|
    ensures forall t: nat :: t < |s.tcb| && Some(t) != s.mesg[x].owner ==> mid.tcb[t].prio == s.tcb[t].prio
    ensures forall u: nat ::
              u < |s.tcb| && (u == o.value || s.tcb[u].status == Blocked) ==> mid.tcb[u].prio == s.tcb[u].prio
  {
    hide Without;
    TransferredSame(s, x, o);
  }

  // The table of a change of owner that one walk repairs, or two of which the first only concerns a task
  // that is linked nowhere.
  lemma OneWalkKept(s: Net, x: nat, o: Option<nat>, moved: Sched, mid: Sched, b: Sched)
    requires x < |s.mesg| && (o.Some? ==> o.value < |s.tcb|) && OneWalk(s, x, o) && s.mesg[x].owner != o
    requires s.mesg[x].owner.Some? ==> s.mesg[x].owner.value < |s.tcb| && x in s.tcb[s.mesg[x].owner.value].mesgs
    requires moved.s == Transferred(s, x, o) && SameShape(moved.s, b.s) && Structured(s) && Structured(b.s)
    requires ReadyOk(moved.s.tcb, moved.ready, moved.mask) && ReadyOk(b.s.tcb, b.ready, b.mask)
    requires |mid.s.tcb| == |s.tcb|
    requires if o.None? then InOrder(moved, b, true)
             else InOrder(mid, b, false) && mid.s.q == moved.s.q && mid.ready == moved.ready
    requires o.Some? ==>
               forall t: nat :: t < |s.tcb| && Some(t) != s.mesg[x].owner ==> mid.s.tcb[t].prio == s.tcb[t].prio
    ensures TableKept(s.tcb, s.q, b.s.tcb, b.s.q) && TableKept(s.tcb, moved.ready, b.s.tcb, b.ready)
  {
    hide Without, IndexOf, TableKept, OwnedOk, MesgsOk, LocksOk, WaitsOk, Transferred;
    TransferredSame(s, x, o);
    forall t: nat | t < |s.tcb| ensures b.s.tcb[t].status == s.tcb[t].status {
      assert moved.s.tcb[t].(prio := b.s.tcb[t].prio) == b.s.tcb[t];
    }
    forall k: nat, t: nat | k < |s.q| && (t in s.q[k] || t in b.s.q[k])
      ensures t < |s.tcb| && s.tcb[t].status == Blocked
    {
      assert Waiter(s, k, t) || Waiter(b.s, k, t);
    }
    var from := if o.None? then moved else mid;
    KeptFrom(s.tcb, from.s.tcb, s.q, b.s.tcb, b.s.q);
    KeptFrom(s.tcb, from.s.tcb, moved.ready, b.s.tcb, b.ready);
  }

  // The first waiter w of pool queue k has become ready, with message x. It enters the ready queue of its
  // own priority, and under the scheduler lock the switch to it is deferred, never pended.
  ghost predicate Served(a: Sched, b: Sched, k: nat, x: nat, run: nat, schLock: nat) {
    && k < |a.s.q| && a.s.q[k] != [] && x < |a.s.mesg| && run < |b.s.tcb|
    && var w := a.s.q[k][0];
    && w < |b.s.tcb| && b.s.tcb[w].prio < |b.ready|
    && var r := b.ready[b.s.tcb[w].prio];
    && r != [] && w == (if w == POSTPROC_TASK then r[0] else r[|r| - 1])
    && Steady(b.s.tcb[run].preempt, schLock, a.pendSv, a.deferred, b.pendSv, b.deferred)
    && (b.s.tcb[w].prio < b.s.tcb[run].prio && b.s.tcb[run].preempt ==>
          if schLock == 0 then b.pendSv && !b.deferred else b.deferred)
    && (OneWalk(a.s, x, Some(w)) && w != POSTPROC_TASK ==>
          TableKept(a.s.tcb, a.s.q, b.s.tcb, b.s.q) && TableKept(a.s.tcb, a.ready, b.s.tcb, b.ready))
  }

  lemma ServingOrder(a: Sched, c: Sched, b: Sched, k: nat, w: nat)
    requires k < |a.s.q| && a.s.q[k] != [] && NoDup(a.s.q[k])
    requires w == a.s.q[k][0] < |a.s.tcb| == |c.s.tcb| && w != POSTPROC_TASK
    requires ReadyOk(a.s.tcb, a.ready, a.mask) && ReadyOk(c.s.tcb, c.ready, c.mask) && ReadyOk(b.s.tcb, b.ready, b.mask)
    requires c.s.tcb[w].status != Ready && forall t: nat :: t < |a.s.tcb| ==> c.s.tcb[t].status == a.s.tcb[t].status
    requires SameMembers(Popped(a.s, k).q, c.s.q)
    requires TableKept(Popped(a.s, k).tcb, Popped(a.s, k).q, c.s.tcb, c.s.q)
    requires TableKept(Popped(a.s, k).tcb, a.ready, c.s.tcb, c.ready)
    requires b.s == BecameReady(c.s, w, false) && Queued(c.ready, w, b.s.tcb[w].prio, b.ready)
    ensures TableKept(a.s.tcb, a.s.q, b.s.tcb, b.s.q) && TableKept(a.s.tcb, a.ready, b.s.tcb, b.ready)
  {
    hide TableKept;
    var p := Popped(a.s, k);
    HeadKept(a.s.tcb, p.tcb, a.s.q, k);
    TableTrans(a.s.tcb, a.s.q, p.tcb, p.q, c.s.tcb, c.s.q);
    TableSame(c.s.tcb, b.s.tcb, c.s.q);
    TableTrans(a.s.tcb, a.s.q, c.s.tcb, c.s.q, b.s.tcb, b.s.q);
    KeptFrom(a.s.tcb, p.tcb, a.ready, c.s.tcb, c.ready);
    EnqueuedKept(c.s.tcb, c.ready, c.mask, b.s.tcb, w, c.s.tcb[w].prio);
    TableTrans(a.s.tcb, a.ready, c.s.tcb, c.ready, b.s.tcb, b.ready);
  }

  lemma Serving(a: Sched, c: Sched, b: Sched, k: nat, x: nat, run: nat, schLock: nat)
    requires k < |a.s.q| && a.s.q[k] != [] && NoDup(a.s.q[k]) && x < |a.s.mesg| && run < |a.s.tcb| == |c.s.tcb|
    requires a.s.q[k][0] < |a.s.tcb| && a.s.tcb[a.s.q[k][0]].status == Blocked && c.s.tcb[a.s.q[k][0]].status == Blocked
    requires ReadyOk(a.s.tcb, a.ready, a.mask) && ReadyOk(c.s.tcb, c.ready, c.mask) && ReadyOk(b.s.tcb, b.ready, b.mask)
    requires Steady(c.s.tcb[run].preempt, schLock, a.pendSv, a.deferred, c.pendSv, c.deferred)
    requires var w := a.s.q[k][0]; var p := Popped(a.s, k);
             && (p.mesg[x].owner.Some? ==> p.mesg[x].owner.value < |p.tcb| && x in p.tcb[p.mesg[x].owner.value].mesgs)
             && SameShape(Transferred(p, x, Some(w)), c.s)
             && (OneWalk(p, x, Some(w)) ==>
                   TableKept(p.tcb, p.q, c.s.tcb, c.s.q) && TableKept(p.tcb, a.ready, c.s.tcb, c.ready))
             && b.s == BecameReady(c.s, w, false) && Queued(c.ready, w, b.s.tcb[w].prio, b.ready)
             && Decided(c.s.tcb[run].prio > c.s.tcb[w].prio && c.s.tcb[run].preempt,
                        schLock, c.pendSv, c.deferred, b.pendSv, b.deferred)
    ensures Served(a, b, k, x, run, schLock)
  {
    hide TableKept, Transferred, ReadyOk, SameMembers, NoDup;
    var w, p := a.s.q[k][0], Popped(a.s, k);
    TransferredSame(p, x, Some(w));
    forall t: nat | t < |a.s.tcb| ensures c.s.tcb[t].status == a.s.tcb[t].status {
      assert Transferred(p, x, Some(w)).tcb[t].(prio := c.s.tcb[t].prio) == c.s.tcb[t];
    }
    if OneWalk(a.s, x, Some(w)) && w != POSTPROC_TASK {
      ServingOrder(a, c, b, k, w);
    }
  }
}
