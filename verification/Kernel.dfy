// The scheduler core: effective-priority calculation, the inheritance chain walk, the ready
// queues, dispatch decisions, and the mutex and message-ownership operations built on them.
module Kernel {
  import opened Prelude
  import opened KernelState
  import opened Queues
  import opened ReadyQueues
  import opened QueueOrder
  import opened PriorityWalk
  import opened NetSteps
  import opened SchedSteps

  datatype Resched = Switched | Pending | NotNeeded

  datatype LockResult = Acquired | Locked | Recursive | InvalidTimeout | MustWait

  datatype UnlockResult = Released | NotLocked | NotOwner

  datatype SleepResult = TooLong | NoSleep | Asleep

  class Kernel {
    var tcb: seq<Tcb>            // table of task control blocks
    var mtx: seq<Mutex>
    var mesg: seq<Mesg>
    var q: seq<seq<nat>>         // waiting queues
    var ready: seq<seq<nat>>     // ready queues, one per priority
    var mask: set<nat>           // bits of the ready bitmask
    var run: nat                 // task being run
    var schLock: nat             // scheduler lock depth
    var pendSv: bool             // a context switch is pended
    var deferred: bool           // a context switch waits for the scheduler unlock
    var calls: map<nat, nat>     // blocking calls in progress: task to waiting queue

    ghost function S(): Net
      reads this
    {
      Net(tcb, mtx, mesg, q)
    }

    // Everything the kernel keeps between steps but for the dispatch promise.
    ghost predicate Inv0()
      reads this
    {
      && Structured(S()) && Placed(S()) && SettledExcept(S(), {}) && CallsOk(S(), calls)
      && ReadyOk(tcb, ready, mask) && RunOk(tcb, run) && IdleOk(tcb)
    }

    ghost predicate Inv()
      reads this
    {
      Inv0() && DispatchOk(tcb, run, schLock, pendSv, deferred)
    }

    // Start-up: every task enters the ready queue of its priority in table order and the best one
    // runs first. Task 0 is the idle task, alone at the idle priority.
    constructor (tasks: seq<Tcb>, mutexes: seq<Mutex>, messages: seq<Mesg>, queues: nat)
      requires Pristine(Net(tasks, mutexes, messages, seq(queues, _ => [])))
      requires forall t: nat :: t < |tasks| ==> tasks[t].status == Initialised
      requires tasks != [] && tasks[IDLE_TASK].prio == IDLE_PRIO
      ensures Inv() && calls == map[] && !pendSv && !deferred
      ensures mtx == mutexes && mesg == messages && q == seq(queues, _ => [])
      ensures Begun(tasks, tcb, ready, run, schLock)
    {
      tcb, mtx, mesg, q := tasks, mutexes, messages, seq(queues, _ => []);
      ready, mask := seq(IDLE_PRIO + 1, _ => []), {};
      run, schLock, pendSv, deferred, calls := IDLE_TASK, 0, false, false, map[];
      new;
      StartUp();
    }

    method HighestPrio() returns (p: nat)
      requires tcb != [] && IDLE_TASK < |tcb| && tcb[IDLE_TASK].prio == IDLE_PRIO
      ensures exists t: nat :: t < |tcb| && tcb[t].prio == p
      ensures forall t: nat :: t < |tcb| ==> p <= tcb[t].prio
    {
      p := IDLE_PRIO;
      for i := 0 to |tcb|
        invariant exists t: nat :: t < |tcb| && tcb[t].prio == p
        invariant p <= IDLE_PRIO && forall t: nat :: t < i ==> p <= tcb[t].prio
      {
        if tcb[i].prio < p {
          p := tcb[i].prio;
        }
      }
    }

    // Every task enters the ready queue of its priority.
    method FillReady()
      requires Pristine(S()) && tcb != [] && run < |tcb|
      requires forall t: nat :: t < |tcb| ==> tcb[t].status == Initialised
      requires ready == seq(IDLE_PRIO + 1, _ => []) && mask == {}
      modifies this`tcb, this`ready, this`mask
      ensures |tcb| == |old(tcb)| && ReadyOk(tcb, ready, mask) && RunOk(tcb, run) && IdleOk(tcb)
      ensures Structured(S()) && Placed(S()) && SettledExcept(S(), {}) && CallsOk(S(), map[])
      ensures forall t: nat :: t < |tcb| ==> tcb[t] == old(tcb)[t].(status := Ready)
      ensures ready == TableOrder(old(tcb))
    {
      hide ReadyOk, DispatchOk, Wired, Sorted, CallsOk, SettledExcept, Placed, Pristine;
      NoneReady(tcb, ready);
      for i := 0 to |tcb|
        invariant |tcb| == |old(tcb)| && ReadyOk(tcb, ready, mask)
        invariant forall t: nat :: t < |tcb| ==>
                    tcb[t] == old(tcb)[t].(status := if t < i then Ready else Initialised)
        invariant ready == TableOrder(old(tcb)[..i])
      {
        PristineTurned(old(S()), S());
        OneMore(old(tcb), i);
        EnqReady(i, false, false);
      }
      assert old(tcb)[..|old(tcb)|] == old(tcb);
      PristineTurned(old(S()), S());
    }

    // The second half of start-up: fill the ready queues and take the first task.
    method StartUp()
      requires Pristine(S()) && calls == map[] && tcb != [] && run < |tcb| && tcb[IDLE_TASK].prio == IDLE_PRIO
      requires forall t: nat :: t < |tcb| ==> tcb[t].status == Initialised
      requires ready == seq(IDLE_PRIO + 1, _ => []) && mask == {}
      modifies this`tcb, this`ready, this`mask, this`run, this`schLock
      ensures Inv() && Begun(old(tcb), tcb, ready, run, schLock)
    {
      hide ReadyOk, DispatchOk, Structured, CallsOk, SettledExcept, Placed, Pristine, IdleOk, TableOrder, Begun;
      ghost var tasks := tcb;
      var highestPrio := HighestPrio();
      FillReady();
      ghost var filled := tcb;
      SomeQueued(tcb, ready, mask, highestPrio);
      run := Take(highestPrio);
      Beginning(tasks, filled, tcb, ready, run);
      schLock := tcb[run].schLock;
      BestRuns(tcb, run, schLock, pendSv, deferred);
    }

    // Take the first task of ready queue p.
    method Take(p: nat) returns (h: nat)
      requires Inv0() && tcb[run].status != Running && p < |ready| && ready[p] != []
      modifies this`tcb, this`ready, this`mask
      ensures Structured(S()) && Placed(S()) && SettledExcept(S(), {}) && CallsOk(S(), calls)
      ensures ReadyOk(tcb, ready, mask) && RunOk(tcb, h) && IdleOk(tcb)
      ensures h == old(ready)[p][0] && ready == old(ready)[p := old(ready)[p][1..]]
      ensures |tcb| == |old(tcb)| && h < |tcb| && run < |tcb|
      ensures old(tcb)[h].status == Ready && tcb == old(tcb)[h := old(tcb)[h].(status := Running)]
      ensures tcb[h].prio == p
    {
      hide Structured, Placed, ReadyOk, CallsOk, SettledExcept, IdleOk, Turned, MaskAfter;
      SchedStarted(tcb, ready, mask, run, p);
      h := ready[p][0];
      TurnedOne(S(), h, Running, tcb[h].schLock, calls);
      ready := ready[p := ready[p][1..]];
      mask := MaskAfter(mask, p, ready[p]);
      tcb := tcb[h := tcb[h].(status := Running)];
    }

    // ---- dispatch decisions --------------------------------------------------------------

    method PendNow()
      modifies this`pendSv, this`deferred
      ensures pendSv && !deferred
    {
      deferred := false;
      pendSv := true;
    }

    method Defer()
      modifies this`deferred
      ensures deferred
    {
      deferred := true;
    }

    method PendCtxSwtch()
      requires run < |tcb|
      modifies this`pendSv, this`deferred
      ensures tcb[run].status !in {Running, Ready} || schLock == 0 ==> pendSv && !deferred
      ensures tcb[run].status in {Running, Ready} && schLock > 0 ==> pendSv == old(pendSv) && deferred
    {
      if tcb[run].status == Ready && schLock > 0 {
        Defer();
      } else if tcb[run].status != Running {
        PendNow();
      } else if schLock == 0 {
        PendNow();
      } else {
        Defer();
      }
    }

    // The best priority present in the ready queues; the idle priority when no bit is set.
    method NextTaskPrio() returns (p: nat)
      requires ReadyOk(tcb, ready, mask)
      ensures p <= IDLE_PRIO && (p in mask || (mask == {} && p == IDLE_PRIO))
      ensures forall t: nat :: t < |tcb| && tcb[t].status == Ready ==> p <= tcb[t].prio
    {
      if mask == {} {
        p := IDLE_PRIO;
        assert forall t: nat :: t < |tcb| && tcb[t].status == Ready ==> tcb[t].prio !in mask;
      } else {
        p := LeastOf(mask);
      }
    }

    method ReschedTask(t: nat) returns (r: Resched)
      requires run < |tcb| && t < |tcb|
      modifies this`pendSv, this`deferred
      ensures r.NotNeeded? <==> !(tcb[run].prio > tcb[t].prio && tcb[run].preempt)
      ensures r.Switched? ==> schLock == 0 && pendSv && !deferred
      ensures r.Pending? ==> schLock > 0 && pendSv == old(pendSv) && deferred
      ensures r.NotNeeded? ==> pendSv == old(pendSv) && deferred == old(deferred)
      ensures Decided(tcb[run].prio > tcb[t].prio && tcb[run].preempt,
                      schLock, old(pendSv), old(deferred), pendSv, deferred)
    {
      if tcb[run].prio > tcb[t].prio && tcb[run].preempt {
        if schLock == 0 {
          PendNow();
          return Switched;
        } else {
          Defer();
          return Pending;
        }
      }
      return NotNeeded;
    }

    method ReschedRunning() returns (r: Resched)
      requires run < |tcb| && ReadyOk(tcb, ready, mask) && Capped(tcb)
      modifies this`pendSv, this`deferred
      ensures DispatchOk(tcb, run, schLock, pendSv, deferred)
      ensures r.NotNeeded? <==>
                !(tcb[run].status == Running && tcb[run].preempt
                  && exists t: nat :: t < |tcb| && tcb[t].status == Ready && tcb[t].prio < tcb[run].prio)
      ensures r.Switched? ==> schLock == 0 && pendSv && !deferred
      ensures r.Pending? ==> schLock > 0 && pendSv == old(pendSv) && deferred
      ensures r.NotNeeded? ==> pendSv == old(pendSv) && deferred == old(deferred)
      ensures Decided(tcb[run].status == Running && tcb[run].preempt
                      && exists t: nat :: t < |tcb| && tcb[t].status == Ready && tcb[t].prio < tcb[run].prio,
                      schLock, old(pendSv), old(deferred), pendSv, deferred)
    {
      var readyPrio := NextTaskPrio();
      if tcb[run].status == Running && tcb[run].preempt && readyPrio < tcb[run].prio {
        SomeReady(tcb, ready, mask, readyPrio, tcb[run].prio - 1);
        PendCtxSwtch();
        if schLock != 0 {
          return Pending;
        }
        return Switched;
      }
      return NotNeeded;
    }

    // ---- effective priority --------------------------------------------------------------

    // The from-scratch value, scanning the owned mutexes and then the owned messages.
    method CalcEffectivePrio(t: nat) returns (p: nat)
      requires Wired(S()) && Sorted(S()) && t < |tcb|
      ensures IsEff(S(), t, p)
      ensures p <= tcb[t].nominal
    {
      p := tcb[t].nominal;
      var i := 0;
      while i < |tcb[t].owned|
        invariant i <= |tcb[t].owned|
        invariant p <= tcb[t].nominal
        invariant forall w: nat {:trigger Donates(S(), w, t)} ::
                    Donates(S(), w, t) && tcb[w].waitingFor.value in tcb[t].owned[..i] ==> p <= tcb[w].prio
        invariant Demand(S(), t, p) || exists w: nat :: Donates(S(), w, t) && tcb[w].prio == p
      {
        var m := tcb[t].owned[i];
        assert m in tcb[t].owned;
        if mtx[m].inherit && |q[m]| > 0 {
          var w := q[m][0];
          assert w in q[m] && Waiter(S(), m, w);
          assert Donates(S(), w, t);
          assert SortedQueue(tcb, q[m]);
          p := if tcb[w].prio < p then tcb[w].prio else p;
        }
        i := i + 1;
      }
      assert tcb[t].owned[..i] == tcb[t].owned;
      assert forall l: nat :: l < |tcb[t].mesgs| ==> tcb[t].mesgs[l] in tcb[t].mesgs;
      var j := 0;
      while j < |tcb[t].mesgs|
        invariant j <= |tcb[t].mesgs|
        invariant p <= tcb[t].nominal
        invariant forall w: nat {:trigger Donates(S(), w, t)} :: Donates(S(), w, t) ==> p <= tcb[w].prio
        invariant forall l: nat :: l < |tcb[t].mesgs| ==> tcb[t].mesgs[l] < |mesg|
        invariant forall c: nat, l: nat ::
                    l < j && mesg[tcb[t].mesgs[l]].ceiling == Some(c) ==> p <= c
        invariant Demand(S(), t, p) || exists w: nat :: Donates(S(), w, t) && tcb[w].prio == p
      {
        var x := tcb[t].mesgs[j];
        assert x in tcb[t].mesgs;
        if mesg[x].ceiling.Some? {
          p := if mesg[x].ceiling.value < p then mesg[x].ceiling.value else p;
        }
        j := j + 1;
      }
    }

    method MoveReady(t: nat, newPrio: nat)
      requires ReadyOk(tcb, ready, mask) && t < |tcb| && tcb[t].status == Ready && newPrio <= IDLE_PRIO
      modifies this`tcb, this`ready, this`mask
      ensures tcb == old(tcb)[t := old(tcb)[t].(prio := newPrio)]
      ensures ReadyOk(tcb, ready, mask)
      ensures ready == Requeued(old(ready), old(tcb)[t].prio, newPrio, t)
    {
      var oldPrio := tcb[t].prio;
      Repositioned(tcb, ready, mask, t, newPrio);
      ready := ready[oldPrio := Without(ready[oldPrio], t)];
      mask := MaskAfter(mask, oldPrio, ready[oldPrio]);
      tcb := tcb[t := tcb[t].(prio := newPrio)];
      assert InsertAt(ready[newPrio], |ready[newPrio]|, t) == ready[newPrio] + [t];
      ready := ready[newPrio := InsertAt(ready[newPrio], |ready[newPrio]|, t)];
      mask := MaskAfter(mask, newPrio, ready[newPrio]);
    }

    // Recompute one task and, when the value changed, apply it: a ready task moves to the queue of
    // its new priority, and the dispatch decision is taken again.
    method UpdateEffectivePrio(t: nat) returns (changed: bool)
      requires Wired(S()) && Sorted(S()) && Capped(tcb) && t < |tcb|
      requires ReadyOk(tcb, ready, mask) && RunOk(tcb, run)
      modifies this`tcb, this`ready, this`mask, this`pendSv, this`deferred
      ensures |tcb| == |old(tcb)| && tcb == old(tcb)[t := old(tcb)[t].(prio := tcb[t].prio)]
      ensures IsEff(old(S()), t, tcb[t].prio) && Capped(tcb)
      ensures changed <==> tcb[t].prio != old(tcb)[t].prio
      ensures ReadyOk(tcb, ready, mask)
      ensures ready == if changed && tcb[t].status == Ready
                       then Requeued(old(ready), old(tcb)[t].prio, tcb[t].prio, t) else old(ready)
      ensures !changed ==> pendSv == old(pendSv) && deferred == old(deferred)
      ensures old(DispatchOk(tcb, run, schLock, pendSv, deferred)) ==>
                DispatchOk(tcb, run, schLock, pendSv, deferred)
      ensures old(pendSv) ==> pendSv
      ensures Decided(changed && WantsSwitch(tcb, run, t),
                      schLock, old(pendSv), old(deferred), pendSv, deferred)
    {
      hide Wired, Sorted, IsEff, ReadyOk, Requeued;
      var newPrio := CalcEffectivePrio(t);
      if tcb[t].prio == newPrio {
        assert tcb == tcb[t := tcb[t].(prio := tcb[t].prio)];
        return false;
      }
      var oldPrio := tcb[t].prio;
      if tcb[t].status == Ready {
        MoveReady(t, newPrio);
        var _ := ReschedTask(t);
      } else {
        NotConcerned(tcb, tcb[t].(prio := newPrio), ready, mask, t);
        tcb := tcb[t := tcb[t].(prio := newPrio)];
        if tcb[t].status == Running {
          var _ := ReschedRunning();
        }
      }
      return true;
    }

    // Where a task of priority p belongs in waiting queue k: behind its equals.
    method FindPrioSlot(k: nat, p: nat) returns (i: nat)
      requires k < |q| && SortedQueue(tcb, q[k])
      ensures IsPrioSlot(tcb, q[k], p, i)
    {
      i := 0;
      while i < |q[k]| && tcb[q[k][i]].prio <= p
        invariant i <= |q[k]|
        invariant forall j: nat :: j < i ==> tcb[q[k][j]].prio <= p
      {
        i := i + 1;
      }
    }

    method EnqByPrio(k: nat, t: nat)
      requires k < |q| && t < |tcb| && SortedQueue(tcb, q[k]) && NoDup(q[k]) && t !in q[k]
      modifies this`q
      ensures |q| == |old(q)| && q == old(q)[k := q[k]]
      ensures SortedQueue(tcb, q[k]) && NoDup(q[k]) && |q[k]| == |old(q)[k]| + 1
      ensures forall x: nat :: x in q[k] <==> x in old(q)[k] || x == t
      ensures exists i: nat :: i <= |old(q)[k]| && q[k] == InsertAt(old(q)[k], i, t)
                && IsPrioSlot(tcb, old(q)[k], tcb[t].prio, i)
    {
      var i := FindPrioSlot(k, tcb[t].prio);
      SortedInsert(tcb, q[k], i, t);
      InsertFacts(q[k], i, t);
      q := q[k := InsertAt(q[k], i, t)];
    }

    // After its priority changed, a linked waiter is taken out and put back in order.
    method RequeueWaiterByPrio(t: nat, ghost before: seq<Tcb>)
      requires Wired(S()) && t < |tcb|
      requires |before| == |tcb| && forall x: nat :: x < |tcb| && x != t ==> before[x].prio == tcb[x].prio
      requires before[t].prio != tcb[t].prio
      requires forall k: nat :: k < |q| ==> SortedQueue(before, q[k])
      modifies this`q
      ensures SameMembers(old(q), q) && Sorted(S())
      ensures forall k: nat :: k < |q| ==> NoDup(q[k])
      // a waiter with company goes behind its equals; the others keep their order
      ensures TableKept(before, old(q), tcb, q)
      ensures if tcb[t].waitQ.Some? && t in old(q)[tcb[t].waitQ.value] && |old(q)[tcb[t].waitQ.value]| > 1 then
                var k := tcb[t].waitQ.value;
                exists i: nat :: i <= |Without(old(q)[k], t)|
                  && IsPrioSlot(tcb, Without(old(q)[k], t), tcb[t].prio, i)
                  && q == old(q)[k := InsertAt(Without(old(q)[k], t), i, t)]
              else q == old(q)
    {
      hide OwnedOk, MesgsOk, LocksOk, SortedQueue, Without, InsertAt, IsPrioSlot, TableKept;
      ghost var s := S();
      if tcb[t].waitQ.None? || |q[tcb[t].waitQ.value]| <= 1 || t !in q[tcb[t].waitQ.value] {
        forall k: nat | k < |q| ensures SortedQueue(tcb, q[k]) {
          assert t in q[k] ==> Waiter(s, k, t);
          SortedApart(before, tcb, q[k], t);
        }
        AloneKept(before, q, tcb, t);
        return;
      }
      var k := tcb[t].waitQ.value;
      forall j: nat | j < |q| && j != k ensures t !in q[j] {
        assert t in q[j] ==> Waiter(s, j, t);
      }
      PutInOrder(k, t, before);
    }

    // Waiter t of queue k, and of no other, is taken out and put back in order.
    method PutInOrder(k: nat, t: nat, ghost before: seq<Tcb>)
      requires k < |q| && t < |tcb| && t in q[k] && forall j: nat :: j < |q| && j != k ==> t !in q[j]
      requires |before| == |tcb| && forall x: nat :: x < |tcb| && x != t ==> before[x].prio == tcb[x].prio
      requires before[t].prio != tcb[t].prio
      requires forall j: nat :: j < |q| ==> SortedQueue(before, q[j]) && NoDup(q[j])
      modifies this`q
      ensures SameMembers(old(q), q) && TableKept(before, old(q), tcb, q)
      ensures forall j: nat :: j < |q| ==> SortedQueue(tcb, q[j]) && NoDup(q[j])
      ensures exists i: nat :: i <= |Without(old(q)[k], t)|
                && IsPrioSlot(tcb, Without(old(q)[k], t), tcb[t].prio, i)
                && q == old(q)[k := InsertAt(Without(old(q)[k], t), i, t)]
    {
      hide SortedQueue, Without, IsPrioSlot, TableKept;
      ghost var was := q;
      WithoutFacts(q[k], t);
      SortedWithout(before, tcb, q[k], t);
      q := q[k := Without(q[k], t)];
      EnqByPrio(k, t);
      ghost var i: nat :| i <= |Without(was[k], t)| && q[k] == InsertAt(Without(was[k], t), i, t)
                          && IsPrioSlot(tcb, Without(was[k], t), tcb[t].prio, i);
      assert q == was[k := InsertAt(Without(was[k], t), i, t)];
      PutBackKept(before, was, tcb, k, t, i);
      forall j: nat | j < |q| && j != k ensures SortedQueue(tcb, q[j]) {
        SortedApart(before, tcb, was[j], t);
      }
    }

    // Recompute one task of a network in order.
    method Recompute(c: nat) returns (changed: bool)
      requires Wired(S()) && Sorted(S()) && Capped(tcb) && c < |tcb|
      requires ReadyOk(tcb, ready, mask) && RunOk(tcb, run)
      modifies this`tcb, this`ready, this`mask, this`pendSv, this`deferred
      ensures |tcb| == |old(tcb)| && tcb == old(tcb)[c := old(tcb)[c].(prio := tcb[c].prio)]
      ensures IsEff(old(S()), c, tcb[c].prio) && Capped(tcb) && Wired(S())
      ensures forall k: nat :: k < |q| ==> SortedQueue(old(tcb), q[k]) && NoDup(q[k])
      ensures changed <==> tcb[c].prio != old(tcb)[c].prio
      ensures ReadyOk(tcb, ready, mask) && RunOk(tcb, run) && TableKept(old(tcb), old(ready), tcb, ready)
      ensures !changed || tcb[c].status != Ready ==> ready == old(ready)
      ensures !changed ==> pendSv == old(pendSv) && deferred == old(deferred)
      ensures old(DispatchOk(tcb, run, schLock, pendSv, deferred)) ==>
                DispatchOk(tcb, run, schLock, pendSv, deferred)
      ensures old(pendSv) ==> pendSv
      ensures Decided(changed && WantsSwitch(tcb, run, c),
                      schLock, old(pendSv), old(deferred), pendSv, deferred)
    {
      hide Wired, Sorted, ReadyOk, DispatchOk, IsEff, Requeued, Capped, TableKept, Decided, WantsSwitch;
      ghost var s := S();
      SortedQueues(s);
      QueuesDistinct(s);
      changed := UpdateEffectivePrio(c);
      PrioOnly(s, S(), c);
      CappedAt(tcb, c);
      VisitReady(s.tcb, old(ready), old(mask), tcb, ready, c);
    }

    // One visit of the chain walk: recompute, and requeue if the value changed.
    method VisitTask(c: nat, ghost open: set<nat>) returns (changed: bool)
      requires Wired(S()) && Sorted(S()) && Capped(tcb) && c < |tcb|
      requires SettledExcept(S(), open + {c}) && c !in open
      requires ReadyOk(tcb, ready, mask) && RunOk(tcb, run)
      modifies this`tcb, this`q, this`ready, this`mask, this`pendSv, this`deferred
      ensures Wired(S()) && Sorted(S()) && Capped(tcb)
      ensures Nudged(old(S()), S(), c) && Next(S(), c) == Next(old(S()), c)
      ensures IsEff(old(S()), c, tcb[c].prio)
      ensures changed <==> tcb[c].prio != old(tcb)[c].prio
      ensures !changed ==> tcb == old(tcb) && q == old(q) && ready == old(ready)
      ensures !changed ==> pendSv == old(pendSv) && deferred == old(deferred)
      ensures |tcb| == |old(tcb)|
      ensures PrioSum(tcb) == PrioSum(old(tcb)) - old(tcb)[c].prio + tcb[c].prio
      ensures !changed || Next(S(), c).None? ==> SettledExcept(S(), open)
      ensures Next(S(), c).Some? ==>
                var n := Next(S(), c).value;
                && n < |tcb|
                && SettledExcept(S(), open + {n})
                && (n !in open && tcb[c].prio <= old(tcb)[c].prio ==> Falls(S(), n))
                && (n !in open && tcb[c].prio >= old(tcb)[c].prio ==> Rises(S(), n))
      ensures ReadyOk(tcb, ready, mask) && RunOk(tcb, run)
      ensures old(DispatchOk(tcb, run, schLock, pendSv, deferred)) ==>
                DispatchOk(tcb, run, schLock, pendSv, deferred)
      ensures old(pendSv) ==> pendSv
      ensures Decided(changed && WantsSwitch(tcb, run, c),
                      schLock, old(pendSv), old(deferred), pendSv, deferred)
      ensures TableKept(old(tcb), old(q), tcb, q) && TableKept(old(tcb), old(ready), tcb, ready)
      ensures old(tcb)[c].status != Ready ==> ready == old(ready)
      ensures old(tcb)[c].waitQ.None? ==> q == old(q)
      ensures tcb == old(tcb)[c := old(tcb)[c].(prio := tcb[c].prio)]
    {
      hide Wired, Sorted, ReadyOk, DispatchOk, IsEff, Falls, Rises, Nudged, SameMembers, RunOk, NoDup;
      hide Settled, SettledExcept, Capped, TableKept, Decided, WantsSwitch, InsertAt, Without, IsPrioSlot, SortedQueue;
      ghost var s := S();
      changed := Recompute(c);
      PrioSumUpdate(s.tcb, c, tcb[c]);
      if changed {
        RequeueWaiterByPrio(c, s.tcb);
      } else {
        assert tcb == s.tcb;
        TableSame(s.tcb, tcb, q);
        NowSettled(s, c, open);
      }
      NudgedBy(s, S(), c);
      WalkStep(s, S(), c, open);
    }

    // A visit as part of a walk that has led from a to here.
    method Visit(c: nat, ghost open: set<nat>, ghost a: Sched, ghost down: bool) returns (changed: bool)
      requires Wired(S()) && Sorted(S()) && Capped(tcb) && c < |tcb| && Heads(S(), c, down)
      requires SettledExcept(S(), open + {c}) && c !in open
      requires ReadyOk(tcb, ready, mask) && RunOk(tcb, run)
      requires SameShape(a.s, S()) && ReadyOk(a.s.tcb, a.ready, a.mask)
      requires Steady(tcb[run].preempt, schLock, a.pendSv, a.deferred, pendSv, deferred)
      modifies this`tcb, this`q, this`ready, this`mask, this`pendSv, this`deferred
      ensures Wired(S()) && Sorted(S()) && Capped(tcb)
      ensures SameShape(a.s, S()) && |tcb| == |old(tcb)| && Next(S(), c) == Next(old(S()), c)
      ensures Steady(tcb[run].preempt, schLock, a.pendSv, a.deferred, pendSv, deferred)
      ensures IsEff(old(S()), c, old(tcb)[c].prio) ==> !changed
      ensures changed <==> tcb[c].prio != old(tcb)[c].prio
      ensures !changed ==> tcb == old(tcb) && q == old(q) && ready == old(ready)
      ensures !changed ==> pendSv == old(pendSv) && deferred == old(deferred)
      ensures PrioSum(tcb) == PrioSum(old(tcb)) - old(tcb)[c].prio + tcb[c].prio
      ensures !changed || Next(S(), c).None? ==> SettledExcept(S(), open)
      ensures Next(S(), c).Some? ==>
                var n := Next(S(), c).value;
                n < |tcb| && SettledExcept(S(), open + {n})
      // the direction is passed on
      ensures if down then tcb[c].prio <= old(tcb)[c].prio else tcb[c].prio >= old(tcb)[c].prio
      ensures InOrder(a, old(Now()), !down) ==> InOrder(a, Now(), !down)
      ensures Falls(old(S()), c) && Rises(old(S()), c) ==> !changed
      ensures Next(S(), c).Some? && Next(S(), c).value !in open ==> Heads(S(), Next(S(), c).value, down)
      ensures ReadyOk(tcb, ready, mask) && RunOk(tcb, run)
      ensures old(DispatchOk(tcb, run, schLock, pendSv, deferred)) ==>
                DispatchOk(tcb, run, schLock, pendSv, deferred)
      ensures old(pendSv) ==> pendSv
      ensures tcb == old(tcb)[c := old(tcb)[c].(prio := tcb[c].prio)]
      ensures TableKept(old(tcb), old(q), tcb, q) && TableKept(old(tcb), old(ready), tcb, ready)
      ensures old(tcb)[c].status != Ready ==> ready == old(ready)
      ensures old(tcb)[c].waitQ.None? ==> q == old(q)
      ensures Decided(changed && WantsSwitch(tcb, run, c),
                      schLock, old(pendSv), old(deferred), pendSv, deferred)
    {
      hide Wired, Sorted, ReadyOk, DispatchOk, IsEff, Falls, Rises, Settled, SettledExcept, Capped;
      hide TableKept, Decided, Steady, WantsSwitch, SameShape, Next, InOrder, Nudged, NoDup;
      ghost var was := Now();
      changed := VisitTask(c, open);
      Visited(a, was, Now(), run, c, changed, schLock, down);
    }

    // The chain walk: from one task whose value may be off, along the mutexes the visited tasks are
    // blocked on, until a recomputation changes nothing. Tasks in open may be off as well; the walk
    // leaves every task settled that is not in open. It ends even when the blocked-on graph has a
    // cycle, because on any stretch between open tasks all changes go in one direction.
    method UpdateEffectivePrioChain(start: nat, ghost open: set<nat>)
      requires Wired(S()) && Sorted(S()) && Capped(tcb) && start < |tcb|
      requires SettledExcept(S(), open + {start}) && start !in open
      requires ReadyOk(tcb, ready, mask) && RunOk(tcb, run)
      modifies this`tcb, this`q, this`ready, this`mask, this`pendSv, this`deferred
      ensures Wired(S()) && Sorted(S()) && Capped(tcb) && SettledExcept(S(), open)
      ensures SameShape(old(S()), S())
      ensures IsEff(old(S()), start, old(tcb)[start].prio) ==>
                S() == old(S()) && ready == old(ready) && pendSv == old(pendSv) && deferred == old(deferred)
      ensures ReadyOk(tcb, ready, mask) && RunOk(tcb, run)
      ensures old(DispatchOk(tcb, run, schLock, pendSv, deferred)) ==>
                DispatchOk(tcb, run, schLock, pendSv, deferred)
      ensures old(pendSv) ==> pendSv
      ensures Steady(tcb[run].preempt, schLock, old(pendSv), old(deferred), pendSv, deferred)
      // with nothing else open all changes go in one direction, and queues keep their order
      ensures open == {} && Falls(old(S()), start) ==> InOrder(old(Now()), Now(), false)
      ensures open == {} && Rises(old(S()), start) ==> InOrder(old(Now()), Now(), true)
      // a task that waits for nobody is the only one visited
      ensures Next(old(S()), start) == None ==>
                && tcb == old(tcb)[start := old(tcb)[start].(prio := tcb[start].prio)]
                && TableKept(old(tcb), old(q), tcb, q) && TableKept(old(tcb), old(ready), tcb, ready)
                && (old(tcb)[start].status != Ready ==> ready == old(ready))
                && (old(tcb)[start].waitQ.None? ==> q == old(q))
                && Decided(tcb[start].prio != old(tcb)[start].prio && WantsSwitch(tcb, run, start),
                           schLock, old(pendSv), old(deferred), pendSv, deferred)
    {
      hide Wired, Sorted, ReadyOk, DispatchOk, IsEff, Falls, Rises, Settled, SettledExcept, Capped, RunOk;
      hide TableKept, Decided, Steady, WantsSwitch, SameShape, Next, InOrder;
      ghost var a := Now();
      RunInRange(tcb, run);
      WalkStarts(a, tcb[run].preempt, schLock);
      SameShapeRefl(S());
      FallsOrRises(S(), start);
      ghost var down := Falls(S(), start);
      var changed := Visit(start, open, a, down);
      if !changed {
        Unmoved(a, Now());
        return;
      }
      var next := NextTask(start);
      if next.None? {
        return;
      }
      ghost var rest := open - {next.value};
      assert rest + {next.value} == open + {next.value};
      if next.value in open {
        FallsOrRises(S(), next.value);
        down := Falls(S(), next.value);
      }
      WalkOn(next.value, rest, a, down, open == {});
      SettledMore(S(), rest, open);
    }

    // A visit, and the task to visit after it, if the value changed.
    method VisitNext(c: nat, ghost open: set<nat>, ghost a: Sched, ghost down: bool) returns (next: Option<nat>)
      requires Wired(S()) && Sorted(S()) && Capped(tcb) && c < |tcb| && Heads(S(), c, down)
      requires SettledExcept(S(), open + {c}) && c !in open
      requires ReadyOk(tcb, ready, mask) && RunOk(tcb, run)
      requires SameShape(a.s, S()) && ReadyOk(a.s.tcb, a.ready, a.mask)
      requires Steady(tcb[run].preempt, schLock, a.pendSv, a.deferred, pendSv, deferred)
      modifies this`tcb, this`q, this`ready, this`mask, this`pendSv, this`deferred
      ensures Wired(S()) && Sorted(S()) && Capped(tcb) && |tcb| == |old(tcb)| && SameShape(a.s, S())
      ensures ReadyOk(tcb, ready, mask) && RunOk(tcb, run)
      ensures Steady(tcb[run].preempt, schLock, a.pendSv, a.deferred, pendSv, deferred)
      ensures next.None? ==> SettledExcept(S(), open)
      ensures next.Some? ==>
                && next.value < |tcb| && SettledExcept(S(), open + {next.value})
                && (next.value !in open ==> Heads(S(), next.value, down))
                && if down then PrioSum(tcb) < PrioSum(old(tcb)) else PrioSum(tcb) > PrioSum(old(tcb))
      ensures InOrder(a, old(Now()), !down) ==> InOrder(a, Now(), !down)
      ensures old(DispatchOk(tcb, run, schLock, pendSv, deferred)) ==>
                DispatchOk(tcb, run, schLock, pendSv, deferred)
      ensures old(pendSv) ==> pendSv
    {
      hide Wired, Sorted, ReadyOk, DispatchOk, IsEff, Falls, Rises, Heads, Settled, SettledExcept, Capped, RunOk;
      hide TableKept, Decided, Steady, WantsSwitch, SameShape, Next, InOrder, PrioSum;
      var changed := Visit(c, open, a, down);
      if !changed {
        return None;
      }
      next := NextTask(c);
    }

    // The rest of a walk that began in a and goes down or up; straight when nothing was left open.
    method WalkOn(start: nat, ghost open: set<nat>, ghost a: Sched, ghost down: bool, ghost straight: bool)
      requires Wired(S()) && Sorted(S()) && Capped(tcb) && start < |tcb| && Heads(S(), start, down)
      requires SettledExcept(S(), open + {start}) && start !in open
      requires ReadyOk(tcb, ready, mask) && RunOk(tcb, run)
      requires SameShape(a.s, S()) && ReadyOk(a.s.tcb, a.ready, a.mask)
      requires Steady(tcb[run].preempt, schLock, a.pendSv, a.deferred, pendSv, deferred)
      requires straight ==> open == {} && InOrder(a, Now(), !down)
      modifies this`tcb, this`q, this`ready, this`mask, this`pendSv, this`deferred
      ensures Wired(S()) && Sorted(S()) && Capped(tcb) && SettledExcept(S(), open)
      ensures SameShape(a.s, S()) && ReadyOk(tcb, ready, mask) && RunOk(tcb, run)
      ensures old(DispatchOk(tcb, run, schLock, pendSv, deferred)) ==>
                DispatchOk(tcb, run, schLock, pendSv, deferred)
      ensures old(pendSv) ==> pendSv
      ensures Steady(tcb[run].preempt, schLock, a.pendSv, a.deferred, pendSv, deferred)
      ensures straight ==> InOrder(a, Now(), !down)
    {
      hide Wired, Sorted, ReadyOk, DispatchOk, IsEff, Falls, Rises, Settled, SettledExcept, Capped, RunOk;
      hide TableKept, Decided, Steady, WantsSwitch, SameShape, Next, InOrder;
      RunInRange(tcb, run);
      var cur: nat := start;
      ghost var left, dir := open, down;
      ghost var wasOk, was := DispatchOk(tcb, run, schLock, pendSv, deferred), pendSv;
      while true
        invariant Wired(S()) && Sorted(S()) && Capped(tcb) && cur < |tcb| && run < |tcb|
        invariant left <= open && cur !in left && SettledExcept(S(), left + {cur})
        invariant Heads(S(), cur, dir) && SameShape(a.s, S())
        invariant straight ==> dir == down && InOrder(a, Now(), !dir)
        invariant ReadyOk(tcb, ready, mask) && RunOk(tcb, run)
        invariant wasOk ==> DispatchOk(tcb, run, schLock, pendSv, deferred)
        invariant was ==> pendSv
        invariant Steady(tcb[run].preempt, schLock, a.pendSv, a.deferred, pendSv, deferred)
        decreases left, if dir then PrioSum(tcb) else IDLE_PRIO * |tcb| - PrioSum(tcb)
      {
        CappedSum(tcb);
        var next := VisitNext(cur, left, a, dir);
        CappedSum(tcb);
        if next.None? {
          break;
        }
        if next.value in left {
          assert left - {next.value} + {next.value} == left + {next.value};
          left := left - {next.value};
          FallsOrRises(S(), next.value);
          dir := Falls(S(), next.value);
        }
        cur := next.value;
      }
      SettledMore(S(), left, open);
    }

    // The task to visit after c: the owner of the inheriting mutex it is blocked on.
    method NextTask(c: nat) returns (n: Option<nat>)
      requires Wired(S()) && c < |tcb|
      ensures n == Next(S(), c)
    {
      if tcb[c].status != Blocked || tcb[c].waitingFor.None? {
        return None;
      }
      var m := tcb[c].waitingFor.value;
      if !mtx[m].inherit || mtx[m].owner.None? {
        return None;
      }
      return mtx[m].owner;
    }

    ghost function Now(): Sched
      reads this
    {
      Sched(S(), ready, mask, pendSv, deferred)
    }

    // ---- blocking and waking -------------------------------------------------------------

    // Link the running task into waiting queue k by priority and block it.
    method BlockOn(k: nat, bounded: bool)
      requires Inv0() && k < |q| && tcb[run].status == Running && run != IDLE_TASK && run !in calls
      requires k < |mtx| ==> mtx[k].owner.Some? && mtx[k].owner.value != run
      modifies this`tcb, this`q, this`calls
      ensures Structured(S()) && Placed(S()) && CallsOk(S(), calls)
      ensures SettledExcept(S(), if k < |mtx| && mtx[k].inherit then {mtx[k].owner.value} else {})
      ensures SameShape(Waiting(old(S()), run, k, 0, bounded), S())
      ensures exists i: nat :: k < |old(q)| && i <= |old(q)[k]|
                && IsPrioSlot(old(tcb), old(q)[k], old(tcb)[run].prio, i)
                && S() == Waiting(old(S()), run, k, i, bounded)
      ensures calls == old(calls)[run := k] && tcb[run].status == Blocked
      ensures ReadyOk(tcb, ready, mask) && RunOk(tcb, run) && IdleOk(tcb)
      ensures DispatchOk(tcb, run, schLock, pendSv, deferred)
    {
      hide OwnedOk, MesgsOk, LocksOk, WaitsOk, Settled, ReadyOk, DispatchOk, CallsOk, Placed;
      ghost var s := S();
      assert |s.q| == |q| && NoDup(q[k]) && SortedQueue(tcb, q[k]);
      assert run in q[k] ==> Waiter(s, k, run);
      var i := FindPrioSlot(k, tcb[run].prio);
      q := q[k := InsertAt(q[k], i, run)];
      var waitingFor := if k < |mtx| then Some(k) else None;
      tcb := tcb[run := tcb[run].(status := Blocked, waitQ := Some(k), waitingFor := waitingFor,
                                  armed := bounded, timeOut := !bounded && tcb[run].timeOut)];
      calls := calls[run := k];
      WaitingKeeps(s, run, k, i, bounded);
      WaitingCalls(s, run, k, i, bounded, old(calls));
      WaitingShape(s, run, k, i, bounded);
      SchedStops(s.tcb, tcb[run], ready, mask, run, schLock, pendSv, deferred);
    }

    // The walk from the one task that is off, all changes going up or all going down.
    method Repair(o: nat, ghost up: bool)
      requires Structured(S()) && o < |tcb| && SettledExcept(S(), {o}) && Heads(S(), o, !up)
      requires ReadyOk(tcb, ready, mask) && RunOk(tcb, run)
      modifies this`tcb, this`q, this`ready, this`mask, this`pendSv, this`deferred
      ensures Structured(S()) && SettledExcept(S(), {})
      ensures Followed(old(S()), old(ready), S(), ready, up)
      ensures IsEff(old(S()), o, old(tcb)[o].prio) ==>
                S() == old(S()) && ready == old(ready) && pendSv == old(pendSv) && deferred == old(deferred)
      ensures ReadyOk(tcb, ready, mask) && RunOk(tcb, run)
      ensures old(DispatchOk(tcb, run, schLock, pendSv, deferred)) ==>
                DispatchOk(tcb, run, schLock, pendSv, deferred)
      ensures old(pendSv) ==> pendSv
      ensures Steady(tcb[run].preempt, schLock, old(pendSv), old(deferred), pendSv, deferred)
    {
      hide Wired, Sorted, ReadyOk, DispatchOk, IsEff, Falls, Rises, Settled, SettledExcept, Capped;
      hide TableKept, Shifted, Decided, Steady, SameShape;
      assert {} + {o} == {o};
      UpdateEffectivePrioChain(o, {});
    }

    // Block on queue k and let an inheriting owner feel it.
    method Suspend(k: nat, bounded: bool)
      requires Inv0() && k < |q| && tcb[run].status == Running && run != IDLE_TASK && run !in calls
      requires k < |mtx| ==> mtx[k].owner.Some? && mtx[k].owner.value != run
      modifies this`tcb, this`q, this`ready, this`mask, this`pendSv, this`deferred, this`calls
      ensures Inv() && calls == old(calls)[run := k] && tcb[run].status == Blocked
      ensures SameShape(Waiting(old(S()), run, k, 0, bounded), S())
      ensures exists i: nat :: k < |old(q)| && i <= |old(q)[k]|
                && IsPrioSlot(old(tcb), old(q)[k], old(tcb)[run].prio, i)
                && Followed(Waiting(old(S()), run, k, i, bounded), old(ready), S(), ready, false)
                && (k >= |mtx| || !mtx[k].inherit ==>
                      S() == Waiting(old(S()), run, k, i, bounded) && ready == old(ready))
    {
      hide Wired, Sorted, Settled, ReadyOk, DispatchOk, IsEff, IdleOk, Placed, CallsOk, SettledExcept, Capped;
      hide InsertAt, IsPrioSlot, TableKept, Shifted, Steady, Falls, Rises, SameMembers, SameButPrio;
      ghost var s := S();
      assert k < |mtx| ==> mtx[k].owner.value < |tcb| by {
        OwnerInRange(s, k);
      }
      BlockOn(k, bounded);
      ghost var blocked := S();
      ghost var i: nat :| k < |s.q| && i <= |s.q[k]| && IsPrioSlot(s.tcb, s.q[k], s.tcb[run].prio, i)
                          && blocked == Waiting(s, run, k, i, bounded);
      FollowedSelf(blocked, ready);
      if k < |mtx| && mtx[k].inherit {
        WaitingFalls(s, run, k, i, bounded);
        Repair(mtx[k].owner.value, false);
        ShapeKeeps(blocked, S(), calls);
        SameShapeTrans(Waiting(s, run, k, 0, bounded), blocked, S());
        StillBlocked(blocked, S(), run);
      }
      assert Followed(Waiting(s, run, k, i, bounded), old(ready), S(), ready, false);
    }

    // Block on queue k and give up the processor.
    method WaitOn(k: nat, bounded: bool)
      requires Inv0() && k < |q| && tcb[run].status == Running && run != IDLE_TASK && run !in calls
      requires k < |mtx| ==> mtx[k].owner.Some? && mtx[k].owner.value != run
      modifies this`tcb, this`q, this`ready, this`mask, this`pendSv, this`deferred, this`calls
      ensures Inv() && calls == old(calls)[run := k] && pendSv && !deferred
      ensures SameShape(Waiting(old(S()), run, k, 0, bounded), S())
      // behind its equals; then priorities can only get better, and a task keeps its place among those
      // that keep their priority
      ensures exists i: nat :: k < |old(q)| && i <= |old(q)[k]|
                && IsPrioSlot(old(tcb), old(q)[k], old(tcb)[run].prio, i)
                && Followed(Waiting(old(S()), run, k, i, bounded), old(ready), S(), ready, false)
                && (k >= |mtx| || !mtx[k].inherit ==>
                      S() == Waiting(old(S()), run, k, i, bounded) && ready == old(ready))
    {
      hide Structured, Settled, ReadyOk, DispatchOk, IdleOk, Placed, CallsOk, SettledExcept, Followed, IsPrioSlot;
      hide Waiting, SameShape;
      Suspend(k, bounded);
      PendCtxSwtch();
      Pended(tcb, run, schLock, deferred);
    }

    // Put a task that was neither ready nor running into its ready queue and decide on dispatch;
    // the post-processing task goes to the front.
    method ReadySwtch(t: nat) returns (r: Resched)
      requires t < |tcb| && tcb[t].status !in {Ready, Running} && Capped(tcb)
      requires ReadyOk(tcb, ready, mask) && RunOk(tcb, run) && IdleOk(tcb)
      requires DispatchOk(tcb, run, schLock, pendSv, deferred)
      modifies this`tcb, this`ready, this`mask, this`pendSv, this`deferred
      ensures tcb == BecameReady(old(S()), t, old(tcb)[t].timeOut).tcb
      ensures Queued(old(ready), t, tcb[t].prio, ready)
      ensures r == if !(tcb[run].prio > tcb[t].prio && tcb[run].preempt) then NotNeeded
                   else if schLock == 0 then Switched else Pending
      // under the scheduler lock the switch is deferred
      ensures Decided(tcb[run].prio > tcb[t].prio && tcb[run].preempt,
                      schLock, old(pendSv), old(deferred), pendSv, deferred)
      ensures ReadyOk(tcb, ready, mask) && RunOk(tcb, run) && IdleOk(tcb)
      ensures DispatchOk(tcb, run, schLock, pendSv, deferred)
      ensures old(pendSv) ==> pendSv
    {
      EnqReady(t, t == POSTPROC_TASK, tcb[t].timeOut);
      r := ReschedTask(t);
    }

    method EnqReady(t: nat, front: bool, timeOut: bool)
      requires t < |tcb| && tcb[t].status !in {Ready, Running} && Capped(tcb)
      requires ReadyOk(tcb, ready, mask) && RunOk(tcb, run)
      modifies this`tcb, this`ready, this`mask
      ensures tcb == BecameReady(old(S()), t, timeOut).tcb
      ensures ReadyOk(tcb, ready, mask) && RunOk(tcb, run) && (old(IdleOk(tcb)) ==> IdleOk(tcb))
      ensures old(DispatchOk(tcb, run, schLock, pendSv, deferred)) ==>
                DispatchOk(tcb, run, schLock, pendSv, deferred)
                || (tcb[t].prio < tcb[run].prio && tcb[run].preempt)
      ensures var p := tcb[t].prio;
              && p < |old(ready)|
              && ready == old(ready)[p := if front then [t] + old(ready)[p] else old(ready)[p] + [t]]
    {
      hide ReadyOk, IdleOk, MaskAfter, Capped;
      ReadySlots(tcb, ready, mask, t);
      var p := tcb[t].prio;
      var i := if front then 0 else |ready[p]|;
      ghost var x := tcb[t].(status := Ready, waitQ := None, armed := false, timeOut := timeOut);
      SchedReadied(tcb, x, ready, mask, run, t, i);
      assert InsertAt(ready[p], i, t) == if front then [t] + ready[p] else ready[p] + [t];
      ready := ready[p := InsertAt(ready[p], i, t)];
      mask := MaskAfter(mask, p, ready[p]);
      tcb := tcb[t := tcb[t].(status := Ready, waitQ := None, armed := false, timeOut := timeOut)];
    }

    // ---- mutexes -------------------------------------------------------------------------

    // The first half of a lock call: everything up to the point where the caller may be switched out.
    method MutexLock(m: nat, timeout: nat) returns (r: LockResult)
      requires Inv() && m < |mtx| && timeout <= WAIT_FOREVER
      requires tcb[run].status == Running && run != IDLE_TASK && run !in calls
      modifies this`tcb, this`mtx, this`q, this`ready, this`mask, this`pendSv, this`deferred, this`calls
      ensures Inv()
      ensures r.Acquired? <==> !old(mtx)[m].lock
      ensures r.Recursive? <==> old(mtx)[m].owner == Some(run)
      ensures r.Locked? <==> old(mtx)[m].lock && old(mtx)[m].owner != Some(run) && timeout == NO_WAIT
      ensures r.InvalidTimeout? <==>
                old(mtx)[m].lock && old(mtx)[m].owner != Some(run) && MAX_PERIOD < timeout < WAIT_FOREVER
      ensures r.Acquired? ==> S() == NetSteps.Acquired(old(S()), run, m)
      ensures r.MustWait? ==>
                && m < |old(q)|
                && SameShape(Waiting(old(S()), run, m, 0, timeout != WAIT_FOREVER), S())
                && calls == old(calls)[run := m] && pendSv && !deferred
                && (exists i: nat :: i <= |old(q)[m]| && IsPrioSlot(old(tcb), old(q)[m], old(tcb)[run].prio, i)
                      && var w := Waiting(old(S()), run, m, i, timeout != WAIT_FOREVER);
                         && Followed(w, old(ready), S(), ready, false)
                         && (!mtx[m].inherit ==> S() == w && ready == old(ready)))
      ensures r in {Locked, Recursive, InvalidTimeout} ==> S() == old(S())
      ensures !r.MustWait? ==>
                calls == old(calls) && ready == old(ready) && pendSv == old(pendSv) && deferred == old(deferred)
    {
      hide LinksOk, OwnedOk, MesgsOk, WaitsOk, Sorted, Settled, ReadyOk, DispatchOk;
      hide IsEff, IdleOk, Placed, CallsOk, SettledExcept, SameShape, Capped, Followed, IsPrioSlot, InsertAt;
      ghost var s := S();
      if !mtx[m].lock {
        mtx := mtx[m := mtx[m].(lock := true, owner := Some(run))];
        tcb := tcb[run := tcb[run].(owned := tcb[run].owned + [m])];
        AcquiredKeeps(s, run, m);
        AcquiredCalls(s, run, m, calls);
        SchedSame(s.tcb, tcb, ready, mask, run, schLock, pendSv, deferred);
        return LockResult.Acquired;
      }
      if mtx[m].owner != Some(run) {
        if timeout == NO_WAIT {
          return Locked;
        }
        if timeout != WAIT_FOREVER && timeout > MAX_PERIOD {
          return InvalidTimeout;
        }
        WaitOn(m, timeout != WAIT_FOREVER);
        return MustWait;
      } else {
        return Recursive;
      }
    }

    method HandOver(m: nat)
      requires Inv() && m < |mtx| && mtx[m].owner == Some(run) && m in tcb[run].owned
      requires m < |q| && q[m] != [] && q[m][0] < |tcb| && q[m][0] != run
      modifies this`tcb, this`mtx, this`q
      ensures S() == HandedOver(old(S()), run, m)
      ensures ReadyOk(tcb, ready, mask) && RunOk(tcb, run) && IdleOk(tcb)
      ensures DispatchOk(tcb, run, schLock, pendSv, deferred)
    {
      hide Wired, Sorted, ReadyOk, DispatchOk, Placed, CallsOk, IdleOk, Without, IndexOf;
      ghost var was := tcb;
      var w := q[m][0];
      tcb := tcb[run := tcb[run].(owned := Without(tcb[run].owned, m))];
      q := q[m := q[m][1..]];
      mtx := mtx[m := mtx[m].(owner := Some(w), lock := true)];
      tcb := tcb[w := tcb[w].(owned := tcb[w].owned + [m], waitQ := None, waitingFor := None, armed := false)];
      SchedSame(was, tcb, ready, mask, run, schLock, pendSv, deferred);
    }

    // The running task and the new owner w of the mutex it gave away get their from-scratch priorities.
    method RepairParties(w: nat)
      requires Structured(S()) && SettledExcept(S(), {run, w}) && w < |tcb| && w != run
      requires ReadyOk(tcb, ready, mask) && RunOk(tcb, run) && tcb[run].status == Running
      requires tcb[w].status == Blocked && tcb[w].waitingFor == None && tcb[w].waitQ == None
      modifies this`tcb, this`q, this`ready, this`mask, this`pendSv, this`deferred
      ensures Structured(S()) && SettledExcept(S(), {}) && SameShape(old(S()), S())
      ensures ReadyOk(tcb, ready, mask) && RunOk(tcb, run)
      ensures old(DispatchOk(tcb, run, schLock, pendSv, deferred)) ==>
                DispatchOk(tcb, run, schLock, pendSv, deferred)
      ensures |tcb| == |old(tcb)| && q == old(q) && ready == old(ready)
      ensures forall t: nat :: t < |tcb| && t !in {run, w} ==> tcb[t] == old(tcb)[t]
      ensures Decided(GivesWay(old(tcb), tcb, run), schLock, old(pendSv), old(deferred), pendSv, deferred)
    {
      hide Wired, Sorted, ReadyOk, DispatchOk, IsEff, Settled, SettledExcept, Capped, TableKept, SameMembers, InOrder;
      hide BetterReady;
      ghost var was := S();
      NotLinked(S(), run);
      assert {run, w} == {w} + {run};
      UpdateEffectivePrioChain(run, {w});
      ghost var mid := S();
      assert {} + {w} == {w};
      UpdateEffectivePrioChain(w, {});
      SameShapeTrans(was, mid, S());
      BetterSame(was.tcb, mid.tcb, run);
    }

    // Ownership of m goes to the head of its queue, which is unlinked but not ready yet.
    method GiveAway(m: nat) returns (w: nat)
      requires Inv() && m < |mtx| && tcb[run].status == Running && run !in calls
      requires mtx[m].owner == Some(run) && m in tcb[run].owned && m < |q| && q[m] != []
      modifies this`tcb, this`mtx, this`q, this`ready, this`mask, this`pendSv, this`deferred
      ensures Structured(S()) && SettledExcept(S(), {})
      ensures |tcb| == |old(tcb)| && w < |tcb| && w == old(q)[m][0] && w != run
      ensures SameShape(HandedOver(old(S()), run, m), S()) && tcb[w].status == Blocked && !tcb[w].timeOut
      ensures PlacedExcept(S(), w) && !Linked(S(), w) && CallsOk(BecameReady(S(), w, false), calls)
      ensures ReadyOk(tcb, ready, mask) && RunOk(tcb, run) && IdleOk(tcb)
      ensures DispatchOk(tcb, run, schLock, pendSv, deferred)
      ensures !old(mtx)[m].inherit ==> S() == HandedOver(old(S()), run, m)
      ensures forall t: nat :: t < |tcb| && t !in {run, w} ==> tcb[t] == old(tcb)[t]
      ensures q == old(q)[m := old(q)[m][1..]] && ready == old(ready)
      ensures Decided(GivesWay(old(tcb), tcb, run), schLock, old(pendSv), old(deferred), pendSv, deferred)
    {
      hide Wired, Sorted, ReadyOk, DispatchOk, IsEff, Placed, CallsOk, IdleOk, Capped;
      hide Without, IndexOf, Settled, SettledExcept, SameMembers, BetterReady, Linked, PlacedExcept;
      ghost var s := S();
      HandedOverKeeps(s, run, m);
      HandedOverCalls(s, run, m, calls);
      w := q[m][0];
      HandOver(m);
      ghost var h := S();
      SameShapeRefl(h);
      if mtx[m].inherit {
        RepairParties(w);
        BetterHanded(s, h, run, w);
      }
      ShapeKeeps(h, S(), calls);
      ReadyShape(h, S(), w, false);
      ShapeKeeps(BecameReady(h, w, false), BecameReady(S(), w, false), calls);
    }

    // Unlock with waiters: ownership goes straight to the head of the queue, which becomes ready.
    method PassOn(m: nat)
      requires Inv() && m < |mtx| && tcb[run].status == Running && run !in calls
      requires mtx[m].owner == Some(run) && m in tcb[run].owned && m < |q| && q[m] != []
      modifies this`tcb, this`mtx, this`q, this`ready, this`mask, this`pendSv, this`deferred
      ensures Inv() && PassedTo(old(Now()), Now(), run, m, schLock)
    {
      hide Wired, Sorted, ReadyOk, DispatchOk, IsEff, Placed, CallsOk, IdleOk, Linked, PlacedExcept, PassedTo;
      hide Without, IndexOf, Settled, SettledExcept, SameMembers, BetterReady, Queued, Decided, GivesWay;
      ghost var a := Now();
      HandedOverKeeps(S(), run, m);
      var w := GiveAway(m);
      ghost var c := Now();
      BecameReadyKeeps(S(), w, false);
      var _ := ReadySwtch(w);
      Passing(a, c, Now(), run, m, schLock);
    }

    // The second half of a lock call, when the caller runs again.
    method MutexLockResume(m: nat) returns (timedOut: bool)
      requires Inv() && m < |mtx| && tcb[run].status == Running && run in calls && calls[run] == m
      modifies this`tcb, this`q, this`ready, this`mask, this`pendSv, this`deferred, this`calls
      ensures Inv() && calls == old(calls) - {run}
      ensures S() == Resumed(old(S()), run)
      ensures ready == old(ready) && pendSv == old(pendSv) && deferred == old(deferred)
      ensures timedOut == old(tcb)[run].timeOut
      ensures timedOut <==> mtx[m].owner != Some(run)
    {
      hide LinksOk, OwnedOk, MesgsOk, WaitsOk, Sorted, ReadyOk, DispatchOk, IsEff, Capped, Placed, IdleOk;
      hide SameShape;
      ResumedKeeps(S(), run);
      ResumedCalls(S(), run, calls);
      timedOut := tcb[run].timeOut;
      if timedOut {
        if mtx[m].inherit && mtx[m].owner.Some? {
          assert Settled(S(), mtx[m].owner.value);
          UpdateEffectivePrioChain(mtx[m].owner.value, {});
        }
      }
      ghost var before := tcb;
      tcb := tcb[run := tcb[run].(timeOut := false, waitingFor := None)];
      calls := calls - {run};
      SchedSame(before, tcb, ready, mask, run, schLock, pendSv, deferred);
    }

    // Unlock with nobody waiting.
    method Release(m: nat)
      requires Inv() && m < |mtx| && tcb[run].status == Running && run !in calls
      requires mtx[m].owner == Some(run) && m in tcb[run].owned && m < |q| && q[m] == []
      modifies this`tcb, this`mtx, this`q, this`ready, this`mask, this`pendSv, this`deferred
      ensures Inv() && S() == NetSteps.Released(old(S()), run, m)
      ensures ready == old(ready) && pendSv == old(pendSv) && deferred == old(deferred)
    {
      hide Wired, Sorted, ReadyOk, DispatchOk, IsEff, Placed, CallsOk, IdleOk, Capped, Without, IndexOf;
      ghost var s := S();
      tcb := tcb[run := tcb[run].(owned := Without(tcb[run].owned, m))];
      mtx := mtx[m := mtx[m].(lock := false, owner := None)];
      ReleasedKeeps(s, run, m);
      ReleasedCalls(s, run, m, calls);
      SchedSame(s.tcb, tcb, ready, mask, run, schLock, pendSv, deferred);
      if mtx[m].inherit {
        assert Settled(S(), run);
        UpdateEffectivePrioChain(run, {});
      }
    }

    method MutexUnlock(m: nat) returns (r: UnlockResult)
      requires Inv() && m < |mtx| && tcb[run].status == Running && run !in calls
      modifies this`tcb, this`mtx, this`q, this`ready, this`mask, this`pendSv, this`deferred
      ensures Inv()
      ensures r.NotLocked? <==> !old(mtx)[m].lock
      ensures r.NotOwner? <==> old(mtx)[m].lock && old(mtx)[m].owner != Some(run)
      ensures !r.Released? ==> S() == old(S()) && ready == old(ready)
      ensures r.Released? ==> m < |old(q)| && m in old(tcb)[run].owned
      ensures r.Released? && old(q)[m] == [] ==> S() == NetSteps.Released(old(S()), run, m)
      ensures !r.Released? || old(q)[m] == [] ==>
                ready == old(ready) && pendSv == old(pendSv) && deferred == old(deferred)
      ensures r.Released? && old(q)[m] != [] ==> PassedTo(old(Now()), Now(), run, m, schLock)
    {
      hide LinksOk, MesgsOk, WaitsOk, Sorted, ReadyOk, DispatchOk, SettledExcept, Placed, CallsOk, IdleOk, Capped;
      hide Without, IndexOf, PassedTo;
      if !mtx[m].lock {
        return NotLocked;
      }
      if mtx[m].owner != Some(run) {
        return NotOwner;
      }
      if |q[m]| == 0 {
        Release(m);
      } else {
        PassOn(m);
      }
      return UnlockResult.Released;
    }

    // ---- timeouts ------------------------------------------------------------------------

    // A blocked task is taken off its queue, and the owner it was boosting is repaired.
    method TakeOff(t: nat)
      requires Inv0() && t < |tcb| && tcb[t].status == Blocked
      requires tcb[t].waitQ.Some? && tcb[t].waitQ.value < |q| && t in q[tcb[t].waitQ.value]
      modifies this`tcb, this`q, this`ready, this`mask, this`pendSv, this`deferred
      ensures Structured(S()) && SettledExcept(S(), {}) && Followed(Unlinked(old(S()), t), old(ready), S(), ready, true)
      ensures PlacedExcept(S(), t) && !Linked(S(), t) && t < |tcb| && tcb[t].status == Blocked
      ensures CallsOk(BecameReady(S(), t, true), calls)
      ensures ReadyOk(tcb, ready, mask) && RunOk(tcb, run) && IdleOk(tcb)
      ensures SettledExcept(Unlinked(old(S()), t), {}) ==>
                && S() == Unlinked(old(S()), t) && ready == old(ready)
                && pendSv == old(pendSv) && deferred == old(deferred)
      ensures Steady(tcb[run].preempt, schLock, old(pendSv), old(deferred), pendSv, deferred)
    {
      hide Wired, Sorted, Capped, ReadyOk, DispatchOk, IsEff, CallsOk, Settled, IdleOk, Placed, PlacedExcept, Linked;
      hide Without, IndexOf, SettledExcept, SameMembers, SameButPrio, TableKept, Shifted, Falls, Rises;
      ghost var s := S();
      UnlinkedKeeps(s, t);
      UnlinkedCalls(s, t, calls);
      var k := tcb[t].waitQ.value;
      q := q[k := Without(q[k], t)];
      ghost var u := S();
      FollowedSelf(u, ready);
      if k < |mtx| && mtx[k].inherit && mtx[k].owner.Some? {
        UnlinkedRises(s, t, mtx[k].owner.value);
        SettledOne(u, mtx[k].owner.value);
        Repair(mtx[k].owner.value, true);
      }
      ShapeKeeps(u, S(), calls);
      StillBlocked(u, S(), t);
      ReadyShape(u, S(), t, true);
      ShapeKeeps(BecameReady(u, t, true), BecameReady(S(), t, true), calls);
    }

    // The timeout node of task t expired: a blocked task leaves its queue, the owner it was
    // boosting is repaired, and the task becomes ready with its timeout flag set.
    method TimeoutNodeReady(t: nat)
      requires Inv0() && CanExpire(t)
      modifies this`tcb, this`q, this`ready, this`mask, this`pendSv, this`deferred
      ensures Inv0()
      ensures ExpiredFrom(old(Now()), Now(), t)
      ensures Steady(tcb[run].preempt, schLock, old(pendSv), old(deferred), pendSv, deferred)
      ensures old(tcb)[t].status == Sleeping ==> pendSv == old(pendSv) && deferred == old(deferred)
    {
      hide Wired, Sorted, ReadyOk, DispatchOk, IsEff, CallsOk, Settled, IdleOk, Placed, PlacedExcept, Linked;
      hide Without, IndexOf, SettledExcept, SameShape, TableKept, Shifted, Followed, ExpiredFrom;
      ghost var a := Now();
      if tcb[t].status == Blocked {
        UnlinkedKeeps(a.s, t);
        TakeOff(t);
        ghost var c := Now();
        UnlinkedOrder(a.s, t);
        BecameReadyKeeps(c.s, t, true);
        EnqReady(t, false, true);
        Expiring(a, Unlinked(a.s, t), c, Now(), t, true);
      } else {
        SleeperReadyKeeps(a.s, t, calls);
        TableSame(a.s.tcb, a.s.tcb, a.s.q);
        FollowedSelf(a.s, a.ready);
        EnqReady(t, false, tcb[t].timeOut);
        Expiring(a, a.s, a, Now(), t, a.s.tcb[t].timeOut);
      }
    }

    predicate CanExpire(t: nat)
      reads this`tcb
    {
      t < |tcb| && Expirable(tcb[t])
    }

    // The decision the tick handler returns.
    method TickDecision(expired: bool)
      requires Inv0() && (!expired ==> DispatchOk(tcb, run, schLock, pendSv, deferred))
      modifies this`pendSv, this`deferred
      ensures Inv()
      ensures var left := (!expired && tcb[run].status != Ready) || (tcb[run].status == Running && !tcb[run].preempt);
              var later := !left && tcb[run].status in {Running, Ready} && schLock > 0;
              && pendSv == (old(pendSv) || (!left && !later))
              && deferred == if left then old(deferred) else later
    {
      if tcb[run].status != Ready && !expired {
        return;
      }
      if tcb[run].status == Running {
        if !tcb[run].preempt {
          return;
        }
        if schLock > 0 {
          Defer();
          return;
        }
      }
      if tcb[run].status == Ready && schLock > 0 {
        Defer();
        return;
      }
      PendNow();
    }

    // One tick that expires the given tasks in list order.
    method Tick(expired: seq<nat>) returns (ghost trace: seq<Sched>)
      requires Inv() && NoDup(expired) && forall i: nat :: i < |expired| ==> CanExpire(expired[i])
      modifies this`tcb, this`q, this`ready, this`mask, this`pendSv, this`deferred
      ensures Inv() && mtx == old(mtx) && mesg == old(mesg) && TimedOut(old(S()), S(), expired)
      ensures |expired| == 1 ==> QuietExpiry(old(S()), S(), expired[0])
      // one task after the other, in list order; whoever comes, comes behind its equals
      ensures TraceOf(trace, expired) && trace[0] == old(Now()) && trace[|expired|].s == S()
      ensures trace[|expired|].ready == ready
      ensures InOrder(old(Now()), Now(), true) && EnteredInOrder(old(tcb), tcb, ready, expired)
      // the scheduler lock and a task that can not be preempted hold the switch off
      ensures var st := tcb[run].status;
              var left := (expired == [] && st != Ready) || (st == Running && !tcb[run].preempt);
              var later := !left && st in {Running, Ready} && schLock > 0;
              && pendSv == (old(pendSv) || (!left && !later))
              && deferred == if left then old(deferred) else later
    {
      hide Structured, Placed, ReadyOk, DispatchOk, CallsOk, SettledExcept, IdleOk;
      hide TimedOut, InOrder, EnteredInOrder, QuietExpiry, ExpiredFrom, NoDup, TickedTo, TraceOf;
      ghost var a := Now();
      TickStarts(a, run, schLock);
      trace := [a];
      assert expired[..0] == [];
      var i := 0;
      while i < |expired|
        invariant i <= |expired| && Inv0() && mtx == old(mtx) && mesg == old(mesg)
        invariant i == 0 ==> S() == old(S()) && pendSv == old(pendSv) && deferred == old(deferred)
        invariant i == 1 ==> QuietExpiry(old(S()), S(), expired[0])
        invariant TickedTo(a, Now(), expired[..i], run, schLock)
        invariant TraceOf(trace, expired[..i]) && |trace| == i + 1 && trace[0] == a && trace[i] == Now()
      {
        var t := expired[i];
        ghost var s := Now();
        Unseen(expired, i);
        assert old(CanExpire(expired[i]));
        ExpireNext(t, a, expired[..i]);
        QuietAt(s, Now(), t);
        TraceMore(trace, expired[..i], Now(), t);
        trace := trace + [Now()];
        assert expired[..i + 1] == expired[..i] + [t];
        i := i + 1;
      }
      assert expired[..i] == expired;
      ghost var s := Now();
      TickDecision(|expired| > 0);
      TickEnds(a, s, Now(), expired, run, schLock);
    }

    // One more task of a tick that began in a and has expired the tasks in gone.
    method ExpireNext(t: nat, ghost a: Sched, ghost gone: seq<nat>)
      requires Inv0() && TickedTo(a, Now(), gone, run, schLock) && NoDup(gone) && t !in gone
      requires t < |a.s.tcb| && Expirable(a.s.tcb[t])
      requires ReadyOk(a.s.tcb, a.ready, a.mask)
      modifies this`tcb, this`q, this`ready, this`mask, this`pendSv, this`deferred
      ensures Inv0() && TickedTo(a, Now(), gone + [t], run, schLock) && ExpiredFrom(old(Now()), Now(), t)
    {
      hide Wired, Sorted, Capped, Placed, ReadyOk, DispatchOk, CallsOk, SettledExcept, IdleOk;
      hide TimedOut, InOrder, EnteredInOrder, QuietExpiry, ExpiredFrom, NoDup, Steady;
      ghost var s := Now();
      NotYetExpired(a.s, s.s, gone, t);
      SamePreempt(a.s, s.s, gone, run);
      TimeoutNodeReady(t);
      ExpiredMore(a, s, Now(), gone, t);
      SamePreempt(a.s, S(), gone + [t], run);
      SteadyTrans(tcb[run].preempt, schLock, a, s, Now());
    }

    // ---- message ownership -----------------------------------------------------------------

    // Message x has gone from the list of a: the loser's chain is repaired, before that of the winner, if any.
    method RepairLoser(x: nat, a: nat, o: Option<nat>, ghost s: Net)
      requires Changing(s, x, Some(a), o) && S() == Transferred(s, x, o) && Structured(S())
      requires SettledExcept(S(), Winner(o) + {a}) && ReadyOk(tcb, ready, mask) && RunOk(tcb, run)
      modifies this`tcb, this`q, this`ready, this`mask, this`pendSv, this`deferred
      ensures Structured(S()) && SettledExcept(S(), Winner(o)) && SameShape(old(S()), S())
      ensures ReadyOk(tcb, ready, mask) && RunOk(tcb, run)
      ensures old(DispatchOk(tcb, run, schLock, pendSv, deferred)) ==>
                DispatchOk(tcb, run, schLock, pendSv, deferred)
      ensures old(pendSv) ==> pendSv
      ensures Steady(tcb[run].preempt, schLock, old(pendSv), old(deferred), pendSv, deferred)
      ensures o.None? ==> InOrder(old(Now()), Now(), true)
      ensures o.Some? && OneWalk(s, x, o) ==>
                && |tcb| == |old(tcb)| && a < |tcb| && tcb == old(tcb)[a := old(tcb)[a].(prio := tcb[a].prio)]
                && q == old(q) && ready == old(ready)
    {
      hide Structured, ReadyOk, DispatchOk, IsEff, Settled, SettledExcept, RunOk;
      hide Without, IndexOf, SameShape, Transferred, TableKept, InOrder, Falls, Rises, Steady, Decided, OneWalk;
      assert Wired(S()) && Sorted(S()) && Capped(tcb) by {
        Parts(S());
      }
      if o.None? {
        TransferredRises(s, x);
      } else if OneWalk(s, x, o) {
        RunningLoser(s, x, o);
      }
      UpdateEffectivePrioChain(a, Winner(o));
      Whole(S());
    }

    method RepairLoserIfAny(x: nat, a: Option<nat>, o: Option<nat>, ghost s: Net)
      requires Changing(s, x, a, o) && S() == Transferred(s, x, o) && Structured(S())
      requires SettledExcept(S(), Winner(o) + Winner(a)) && ReadyOk(tcb, ready, mask) && RunOk(tcb, run)
      modifies this`tcb, this`q, this`ready, this`mask, this`pendSv, this`deferred
      ensures Structured(S()) && SettledExcept(S(), Winner(o)) && SameShape(old(S()), S())
      ensures ReadyOk(tcb, ready, mask) && RunOk(tcb, run) && |tcb| == |s.tcb|
      ensures old(DispatchOk(tcb, run, schLock, pendSv, deferred)) ==>
                DispatchOk(tcb, run, schLock, pendSv, deferred)
      ensures old(pendSv) ==> pendSv
      ensures Steady(tcb[run].preempt, schLock, old(pendSv), old(deferred), pendSv, deferred)
      ensures o.None? ==> InOrder(old(Now()), Now(), true)
      ensures o.Some? && OneWalk(s, x, o) ==>
                && Falls(S(), o.value) && q == old(q) && ready == old(ready)
                && (forall t: nat :: t < |s.tcb| && Some(t) != a ==> tcb[t].prio == s.tcb[t].prio)
    {
      hide Structured, ReadyOk, DispatchOk, IsEff, Settled, SettledExcept, RunOk;
      hide Without, IndexOf, SameShape, Transferred, TableKept, InOrder, Falls, Rises, Steady, Decided, OneWalk;
      RunInRange(tcb, run);
      Unmoved(Now(), Now());
      SameShapeRefl(S());
      WalkStarts(Now(), tcb[run].preempt, schLock);
      assert Winner(o) + {} == Winner(o);
      ghost var moved := S();
      if a.Some? {
        RepairLoser(x, a.value, o, s);
      }
      ShapeRun(moved, S(), run);
      if o.Some? && OneWalk(s, x, o) {
        LoserApart(s, x, o, S());
        TransferredFalls(s, x, o.value, S());
      }
    }

    // Message x, of which a was the owner, is on the list of o now: both get their priorities repaired.
    method RepairOwners(x: nat, a: Option<nat>, o: Option<nat>, ghost s: Net)
      requires Changing(s, x, a, o) && S() == Transferred(s, x, o) && Structured(S())
      requires SettledExcept(S(), Winner(o) + Winner(a)) && ReadyOk(tcb, ready, mask) && RunOk(tcb, run)
      modifies this`tcb, this`q, this`ready, this`mask, this`pendSv, this`deferred
      ensures Structured(S()) && SettledExcept(S(), {}) && SameShape(old(S()), S())
      ensures ReadyOk(tcb, ready, mask) && RunOk(tcb, run)
      ensures old(DispatchOk(tcb, run, schLock, pendSv, deferred)) ==>
                DispatchOk(tcb, run, schLock, pendSv, deferred)
      ensures old(pendSv) ==> pendSv
      ensures Steady(tcb[run].preempt, schLock, old(pendSv), old(deferred), pendSv, deferred)
      ensures OneWalk(s, x, o) ==> TableKept(s.tcb, s.q, tcb, q) && TableKept(s.tcb, old(ready), tcb, ready)
    {
      hide Structured, ReadyOk, DispatchOk, IsEff, Settled, SettledExcept, RunOk;
      hide Without, IndexOf, SameShape, Transferred, TableKept, InOrder, Falls, Rises, Steady, Decided, OneWalk;
      ghost var moved, oneWalk := Now(), OneWalk(s, x, o);
      RepairLoserIfAny(x, a, o, s);
      ghost var mid := Now();
      if o.Some? {
        RepairWinner(o.value, oneWalk);
        SameShapeTrans(moved.s, mid.s, S());
        RunInRange(mid.s.tcb, run);
        ShapeRun(mid.s, S(), run);
        SteadyTrans(tcb[run].preempt, schLock, moved, mid, Now());
      }
      if oneWalk {
        OneWalkKept(s, x, o, moved, mid, Now());
      }
    }

    method RepairWinner(o: nat, ghost falls: bool)
      requires Structured(S()) && o < |tcb| && SettledExcept(S(), {o}) && (falls ==> Falls(S(), o))
      requires ReadyOk(tcb, ready, mask) && RunOk(tcb, run)
      modifies this`tcb, this`q, this`ready, this`mask, this`pendSv, this`deferred
      ensures Structured(S()) && SettledExcept(S(), {}) && SameShape(old(S()), S())
      ensures ReadyOk(tcb, ready, mask) && RunOk(tcb, run)
      ensures old(DispatchOk(tcb, run, schLock, pendSv, deferred)) ==>
                DispatchOk(tcb, run, schLock, pendSv, deferred)
      ensures old(pendSv) ==> pendSv
      ensures Steady(tcb[run].preempt, schLock, old(pendSv), old(deferred), pendSv, deferred)
      ensures falls ==> InOrder(old(Now()), Now(), false)
    {
      hide Wired, Sorted, ReadyOk, DispatchOk, IsEff, Falls, Rises, Settled, SettledExcept, Capped;
      hide TableKept, Shifted, Decided, Steady, SameShape;
      assert {} + {o} == {o};
      UpdateEffectivePrioChain(o, {});
    }

    // The one place where an asynchronous message changes hands, and with it its ceiling.
    method MesgSetOwner(x: nat, o: Option<nat>)
      requires Structured(S()) && SettledExcept(S(), {}) && x < |mesg| && (o.Some? ==> o.value < |tcb|)
      requires ReadyOk(tcb, ready, mask) && RunOk(tcb, run) && IdleOk(tcb)
      modifies this`tcb, this`mesg, this`q, this`ready, this`mask, this`pendSv, this`deferred
      ensures Structured(S()) && SettledExcept(S(), {})
      ensures var a := old(mesg)[x].owner; a.Some? ==> a.value < |old(tcb)| && x in old(tcb)[a.value].mesgs
      ensures SameShape(Transferred(old(S()), x, o), S())
      ensures ReadyOk(tcb, ready, mask) && RunOk(tcb, run) && IdleOk(tcb)
      ensures old(DispatchOk(tcb, run, schLock, pendSv, deferred)) ==>
                DispatchOk(tcb, run, schLock, pendSv, deferred)
      ensures old(pendSv) ==> pendSv
      ensures old(mesg)[x].owner == o ==>
                S() == old(S()) && ready == old(ready) && pendSv == old(pendSv) && deferred == old(deferred)
      ensures Steady(tcb[run].preempt, schLock, old(pendSv), old(deferred), pendSv, deferred)
      // queues keep their order unless two walks go in opposite directions
      ensures OneWalk(old(S()), x, o) ==>
                TableKept(old(tcb), old(q), tcb, q) && TableKept(old(tcb), old(ready), tcb, ready)
    {
      hide Wired, Sorted, ReadyOk, DispatchOk, IsEff, Capped, Settled, SettledExcept, IdleOk, Steady, TableKept;
      hide Without, IndexOf, SameMembers;
      ghost var s := S();
      MesgOwnerLists(s, x);
      TransferredKeeps(s, x, o);
      WalkStarts(Now(), tcb[run].preempt, schLock);
      Unmoved(Now(), Now());
      var oldOwner := mesg[x].owner;
      if oldOwner == o {
        SameShapeRefl(s);
        return;
      }
      if oldOwner.Some? {
        tcb := tcb[oldOwner.value := tcb[oldOwner.value].(mesgs := Without(tcb[oldOwner.value].mesgs, x))];
      }
      mesg := mesg[x := mesg[x].(owner := o)];
      if o.Some? {
        tcb := tcb[o.value := tcb[o.value].(mesgs := tcb[o.value].mesgs + [x])];
      }
      ghost var moved := S();
      assert moved == Transferred(s, x, o);
      TransferredOnly(s, x, o);
      MesgsOnlyKeeps(s, moved, calls, 0);
      SchedSame(s.tcb, tcb, ready, mask, run, schLock, pendSv, deferred);
      RepairOwners(x, oldOwner, o, s);
      ShapeKeeps(moved, S(), calls);
    }

    // A message is allocated, received or freed with nobody waiting for it.
    method GiveMesg(x: nat, o: Option<nat>)
      requires Inv() && x < |mesg| && (o.Some? ==> o.value < |tcb|)
      modifies this`tcb, this`mesg, this`q, this`ready, this`mask, this`pendSv, this`deferred
      ensures Inv()
      ensures var a := old(mesg)[x].owner; a.Some? ==> a.value < |old(tcb)| && x in old(tcb)[a.value].mesgs
      ensures SameShape(Transferred(old(S()), x, o), S())
      ensures old(mesg)[x].owner == o ==>
                S() == old(S()) && ready == old(ready) && pendSv == old(pendSv) && deferred == old(deferred)
      ensures Steady(tcb[run].preempt, schLock, old(pendSv), old(deferred), pendSv, deferred)
      ensures OneWalk(old(S()), x, o) ==>
                TableKept(old(tcb), old(q), tcb, q) && TableKept(old(tcb), old(ready), tcb, ready)
    {
      hide Structured, ReadyOk, DispatchOk, SettledExcept, IdleOk, Placed, CallsOk, Transferred, SameMembers;
      hide TableKept, Steady, OneWalk;
      ghost var s := S();
      MesgOwnerLists(s, x);
      TransferredOnly(s, x, o);
      MesgsOnlyKeeps(s, Transferred(s, x, o), calls, 0);
      MesgSetOwner(x, o);
      ShapeKeeps(Transferred(s, x, o), S(), calls);
    }

    method PopWaiter(k: nat)
      requires Structured(S()) && k < |q| && q[k] != [] && q[k][0] < |tcb|
      requires ReadyOk(tcb, ready, mask) && RunOk(tcb, run) && IdleOk(tcb)
      requires DispatchOk(tcb, run, schLock, pendSv, deferred)
      modifies this`tcb, this`q
      ensures S() == Popped(old(S()), k)
      ensures ReadyOk(tcb, ready, mask) && RunOk(tcb, run) && IdleOk(tcb)
      ensures DispatchOk(tcb, run, schLock, pendSv, deferred)
    {
      hide Structured, ReadyOk, DispatchOk, IdleOk, RunOk;
      ghost var was := tcb;
      var w := q[k][0];
      q := q[k := q[k][1..]];
      tcb := tcb[w := tcb[w].(waitQ := None, armed := false)];
      SchedSame(was, tcb, ready, mask, run, schLock, pendSv, deferred);
    }

    // The first waiter w of pool queue k is taken out and owns message x now, but is not ready yet.
    method GiveToFirst(k: nat, x: nat) returns (w: nat)
      requires Inv() && |mtx| <= k < |q| && q[k] != [] && x < |mesg|
      modifies this`tcb, this`mesg, this`q, this`ready, this`mask, this`pendSv, this`deferred
      ensures w == old(q)[k][0] && w < |old(tcb)| && old(tcb)[w].status == Blocked && NoDup(old(q)[k])
      ensures Structured(S()) && SettledExcept(S(), {}) && PlacedExcept(S(), w) && !Linked(S(), w)
      ensures |tcb| == |old(tcb)| && tcb[w].status == Blocked && !tcb[w].timeOut
      ensures var p := Popped(old(S()), k);
              && (p.mesg[x].owner.Some? ==> p.mesg[x].owner.value < |p.tcb| && x in p.tcb[p.mesg[x].owner.value].mesgs)
              && SameShape(Transferred(p, x, Some(w)), S())
              && CallsOk(BecameReady(Transferred(p, x, Some(w)), w, false), calls)
              && (OneWalk(p, x, Some(w)) ==> TableKept(p.tcb, p.q, tcb, q) && TableKept(p.tcb, old(ready), tcb, ready))
      ensures ReadyOk(tcb, ready, mask) && RunOk(tcb, run) && IdleOk(tcb)
      ensures DispatchOk(tcb, run, schLock, pendSv, deferred)
      ensures Steady(tcb[run].preempt, schLock, old(pendSv), old(deferred), pendSv, deferred)
    {
      hide Wired, Sorted, Capped, ReadyOk, DispatchOk, SettledExcept, IdleOk, Placed, CallsOk;
      hide Transferred, Linked, PlacedExcept, SameMembers, TableKept, Steady, OneWalk, NoDup, Without;
      ghost var s := S();
      GivenToWaiterKeeps(s, k, x, calls);
      PoppedKeeps(s, k);
      QueuesDistinct(s);
      w := q[k][0];
      PopWaiter(k);
      ghost var g := Transferred(S(), x, Some(w));
      MesgSetOwner(x, Some(w));
      ShapeKeeps(g, S(), calls);
      ShapeRun(g, S(), w);
    }

    // A freed message goes straight to the first task waiting for a block of its pool.
    method HandoffToAllocator(k: nat, x: nat)
      requires Inv() && |mtx| <= k < |q| && q[k] != [] && x < |mesg|
      modifies this`tcb, this`mesg, this`q, this`ready, this`mask, this`pendSv, this`deferred
      ensures Inv()
      ensures SameShape(GivenToWaiter(old(S()), k, x), S())
      ensures Served(old(Now()), Now(), k, x, run, schLock)
    {
      hide Wired, Sorted, Capped, ReadyOk, DispatchOk, SettledExcept, IdleOk, Placed, CallsOk, RunOk;
      hide Transferred, Linked, PlacedExcept, SameShape, TableKept, Steady, Served, Decided, OneWalk, Queued;
      ghost var was := Now();
      RunInRange(tcb, run);
      var w := GiveToFirst(k, x);
      ghost var c, g := Now(), Transferred(Popped(was.s, k), x, Some(w));
      BecameReadyKeeps(c.s, w, false);
      ReadyShape(g, c.s, w, false);
      var _ := ReadySwtch(w);
      ShapeKeeps(BecameReady(g, w, false), S(), calls);
      Serving(was, c, Now(), k, x, run, schLock);
    }

    // The caller of a blocking allocation runs again.
    method AllocResume(k: nat) returns (timedOut: bool)
      requires Inv() && |mtx| <= k && tcb[run].status == Running && run in calls && calls[run] == k
      modifies this`tcb, this`calls
      ensures Inv() && calls == old(calls) - {run}
      ensures S() == Resumed(old(S()), run) && timedOut == old(tcb)[run].timeOut
    {
      hide Structured, Placed, ReadyOk, DispatchOk, SettledExcept;
      ResumedKeeps(S(), run);
      ResumedCalls(S(), run, calls);
      timedOut := tcb[run].timeOut;
      ghost var before := tcb;
      tcb := tcb[run := tcb[run].(timeOut := false)];
      calls := calls - {run};
      SchedSame(before, tcb, ready, mask, run, schLock, pendSv, deferred);
    }

    // ---- scheduler lock, yielding, sleeping and switching ------------------------------------

    // Record a scheduler-lock depth in a control block; h is the task being run.
    method SaveDepth(t: nat, depth: nat, ghost h: nat)
      requires Structured(S()) && Placed(S()) && SettledExcept(S(), {}) && CallsOk(S(), calls) && t < |tcb|
      requires ReadyOk(tcb, ready, mask) && RunOk(tcb, h) && IdleOk(tcb)
      modifies this`tcb
      ensures Structured(S()) && Placed(S()) && SettledExcept(S(), {}) && CallsOk(S(), calls)
      ensures ReadyOk(tcb, ready, mask) && RunOk(tcb, h) && IdleOk(tcb)
      ensures tcb == old(tcb)[t := old(tcb)[t].(schLock := depth)]
    {
      hide Structured, Placed, ReadyOk, CallsOk, SettledExcept, IdleOk, DispatchOk, RunOk;
      TurnedOne(S(), t, tcb[t].status, depth, calls);
      ghost var was := tcb;
      tcb := tcb[t := tcb[t].(schLock := depth)];
      SchedSame(was, tcb, ready, mask, h, depth, pendSv, deferred);
    }

    // A task that yielded under the lock is ready and still goes on; it may lock and unlock.
    method SchLock()
      requires Inv() && tcb[run].status in {Running, Ready}
      modifies this`tcb, this`schLock
      ensures Inv() && schLock == old(schLock) + (if tcb[run].preempt then 1 else 0)
      ensures tcb == if tcb[run].preempt then old(tcb)[run := old(tcb)[run].(schLock := schLock)] else old(tcb)
    {
      if !tcb[run].preempt {
        return;
      }
      hide Structured, Placed, ReadyOk, CallsOk, SettledExcept, IdleOk;
      schLock := schLock + 1;
      SaveDepth(run, schLock, run);
    }

    method SchUnlock()
      requires Inv() && tcb[run].status in {Running, Ready}
      modifies this`tcb, this`schLock, this`pendSv, this`deferred
      ensures Inv() && schLock == (if old(schLock) == 0 then 0 else old(schLock) - 1)
      ensures tcb == if old(schLock) > 0 then old(tcb)[run := old(tcb)[run].(schLock := schLock)] else old(tcb)
      // only leaving the last level makes a deferred switch a pended one
      ensures pendSv == (old(pendSv) || (old(schLock) == 1 && old(deferred)))
      ensures deferred == (old(deferred) && old(schLock) != 1)
    {
      hide Structured, Placed, ReadyOk, CallsOk, SettledExcept, IdleOk, DispatchOk;
      if schLock == 0 {
        return;
      }
      ghost var was, depth := tcb, schLock;
      schLock := schLock - 1;
      SaveDepth(run, schLock, run);
      DepthOnly(was, tcb, run);
      if schLock == 0 && deferred {
        PendNow();
        Pended(tcb, run, schLock, deferred);
      } else {
        LessLocked(tcb, run, depth, schLock, pendSv, deferred);
      }
    }

    // The running task goes to sleep on its own; while it sleeps its timeout runs.
    method Sleep(ticks: nat) returns (r: SleepResult)
      requires Inv() && tcb[run].status == Running && run != IDLE_TASK && run !in calls
      modifies this`tcb, this`pendSv, this`deferred
      ensures Inv()
      ensures r.TooLong? <==> ticks > MAX_PERIOD
      ensures r.NoSleep? <==> ticks == 0
      ensures r.Asleep? ==>
                tcb == old(tcb)[run := old(tcb)[run].(status := Sleeping)] && CanExpire(run) && pendSv && !deferred
      ensures !r.Asleep? ==> tcb == old(tcb) && pendSv == old(pendSv) && deferred == old(deferred)
    {
      if ticks > MAX_PERIOD {
        return TooLong;
      }
      if ticks == 0 {
        return NoSleep;
      }
      hide Structured, Placed, ReadyOk, DispatchOk, CallsOk, SettledExcept, Turned;
      ghost var s := S();
      TurnedOne(s, run, Sleeping, tcb[run].schLock, calls);
      tcb := tcb[run := tcb[run].(status := Sleeping)];
      SchedStops(s.tcb, tcb[run], ready, mask, run, schLock, pendSv, deferred);
      PendCtxSwtch();
      Pended(tcb, run, schLock, deferred);
      return Asleep;
    }

    // A sleeping task is woken by an event.
    method WakeSleeper(t: nat)
      requires Inv() && t < |tcb| && tcb[t].status == Sleeping
      modifies this`tcb, this`ready, this`mask, this`pendSv, this`deferred
      ensures Inv() && S() == BecameReady(old(S()), t, old(tcb)[t].timeOut)
      ensures Queued(old(ready), t, tcb[t].prio, ready)
      ensures Decided(tcb[t].prio < tcb[run].prio && tcb[run].preempt,
                      schLock, old(pendSv), old(deferred), pendSv, deferred)
    {
      hide Wired, Sorted, Placed, ReadyOk, DispatchOk, CallsOk, SettledExcept, IdleOk;
      SleeperReadyKeeps(S(), t, calls);
      var _ := ReadySwtch(t);
    }

    // The running task goes back into its ready queue.
    method Requeue(front: bool)
      requires Inv0() && tcb[run].status == Running
      modifies this`tcb, this`ready, this`mask
      ensures Inv0()
      ensures tcb == old(tcb)[run := old(tcb)[run].(status := Ready)]
      ensures var p := old(tcb)[run].prio;
              && p < |old(ready)|
              && ready == old(ready)[p := if front then [run] + old(ready)[p] else old(ready)[p] + [run]]
    {
      hide Wired, Sorted, Placed, ReadyOk, CallsOk, SettledExcept, IdleOk, Turned;
      var p := tcb[run].prio;
      ReadySlots(tcb, ready, mask, run);
      var i := if front then 0 else |ready[p]|;
      SchedRequeued(tcb, ready, mask, run, i);
      assert InsertAt(ready[p], i, run) == if front then [run] + ready[p] else ready[p] + [run];
      TurnedOne(S(), run, Ready, tcb[run].schLock, calls);
      ready := ready[p := InsertAt(ready[p], i, run)];
      mask := MaskAfter(mask, p, ready[p]);
      tcb := tcb[run := tcb[run].(status := Ready)];
    }

    // Go behind the equals, with the switch pended, or deferred under the scheduler lock.
    method GiveWay()
      requires Inv() && tcb[run].status == Running
      modifies this`tcb, this`ready, this`mask, this`pendSv, this`deferred
      ensures Inv() && tcb == old(tcb)[run := old(tcb)[run].(status := Ready)]
      ensures var p := old(tcb)[run].prio; p < |old(ready)| && ready == old(ready)[p := old(ready)[p] + [run]]
      ensures if schLock == 0 then pendSv && !deferred else pendSv == old(pendSv) && deferred
    {
      hide Structured, Placed, ReadyOk, CallsOk, SettledExcept, IdleOk;
      Requeue(false);
      if schLock == 0 {
        PendNow();
      } else {
        Defer();
      }
    }

    // Give way to a ready task of at least equal priority. Under the scheduler lock the switch is
    // deferred and the task goes on, linked as ready.
    method Yield()
      requires Inv() && tcb[run].status == Running
      modifies this`tcb, this`ready, this`mask, this`pendSv, this`deferred
      ensures Inv()
      ensures tcb[run].status == Ready <==>
                || old(tcb)[run].prio == IDLE_PRIO
                || exists t: nat ::
                     t < |old(tcb)| && old(tcb)[t].status == Ready && old(tcb)[t].prio <= old(tcb)[run].prio
      ensures tcb[run].status == Ready ==>
                var p := tcb[run].prio;
                && tcb == old(tcb)[run := old(tcb)[run].(status := Ready)]
                && p < |old(ready)| && ready == old(ready)[p := old(ready)[p] + [run]]
                && (if schLock == 0 then pendSv && !deferred else pendSv == old(pendSv) && deferred)
      ensures tcb[run].status != Ready ==>
                tcb == old(tcb) && ready == old(ready) && pendSv == old(pendSv) && deferred == old(deferred)
    {
      hide Structured, Placed, ReadyOk, CallsOk, SettledExcept, IdleOk, DispatchOk;
      PrioBound(S(), run);
      var readyPrio := NextTaskPrio();
      NextPrioReady(tcb, ready, mask, readyPrio);
      if readyPrio <= tcb[run].prio {
        SomeReady(tcb, ready, mask, readyPrio, tcb[run].prio);
        GiveWay();
      }
    }

    // Take the first task of the best non-empty ready queue.
    method TakeBest() returns (h: nat)
      requires Inv0() && tcb[run].status != Running
      modifies this`tcb, this`ready, this`mask
      ensures Structured(S()) && Placed(S()) && SettledExcept(S(), {}) && CallsOk(S(), calls)
      ensures ReadyOk(tcb, ready, mask) && RunOk(tcb, h) && IdleOk(tcb)
      ensures |tcb| == |old(tcb)| && h < |tcb| && run < |tcb|
      ensures old(tcb)[h].status == Ready && tcb == old(tcb)[h := old(tcb)[h].(status := Running)]
      ensures forall t: nat :: t < |tcb| && old(tcb)[t].status == Ready ==> tcb[h].prio <= tcb[t].prio
      ensures TakenFirst(old(ready), tcb[h].prio, h, ready)
    {
      hide Structured, Placed, ReadyOk, CallsOk, SettledExcept, IdleOk, Turned, DispatchOk, RunOk;
      var next := NextTaskPrio();
      NextPrioReady(tcb, ready, mask, next);
      IdleReady(tcb, ready, mask, run);
      h := Take(next);
    }

    // The first task of the best non-empty ready queue becomes the one being run.
    method Dispatch()
      requires Inv0() && tcb[run].status != Running
      modifies this`tcb, this`ready, this`mask, this`run, this`schLock, this`pendSv
      ensures Inv() && !pendSv && tcb[run].status == Running && schLock == tcb[run].schLock
      ensures |tcb| == |old(tcb)| && Turned(old(S()), S()) && old(tcb)[run].status == Ready
      ensures tcb == SwitchedTo(old(tcb), run, old(run), old(schLock))
      ensures forall t: nat :: t < |tcb| && old(tcb)[t].status == Ready ==> tcb[run].prio <= tcb[t].prio
      ensures TakenFirst(old(ready), tcb[run].prio, run, ready)
    {
      hide Structured, Placed, ReadyOk, CallsOk, SettledExcept, IdleOk, Turned, DispatchOk, RunOk;
      var current := run;
      var h := TakeBest();
      TurnedTwo(old(S()), h, Running, current, schLock);
      SaveDepth(current, schLock, h);
      run := h;
      schLock := tcb[run].schLock;
      pendSv := false;
      BestRuns(tcb, run, schLock, pendSv, deferred);
    }

    // The context switch: a task still running is put back at the front of its queue, and the first
    // task of the best non-empty queue runs next, with its own scheduler-lock depth.
    method Swtch()
      requires Inv()
      modifies this`tcb, this`ready, this`mask, this`run, this`schLock, this`pendSv
      ensures Inv() && !pendSv && tcb[run].status == Running && schLock == tcb[run].schLock
      ensures |tcb| == |old(tcb)| && Turned(old(S()), S()) && old(tcb)[run].status in {Ready, Running}
      ensures forall t: nat :: t < |tcb| && t != run ==>
                tcb[t].status == if old(tcb)[t].status == Running then Ready else old(tcb)[t].status
      ensures forall t: nat :: t < |tcb| && tcb[t].status == Ready ==> tcb[run].prio <= tcb[t].prio
      ensures old(tcb)[old(run)].status == Running && run != old(run) ==> tcb[run].prio < tcb[old(run)].prio
      // a task still running goes to the front of its queue; then the first of the best queue leaves it
      ensures tcb == SwitchedTo(PutBack(old(tcb), old(run)), run, old(run), old(schLock))
      ensures TakenFirst(PutFront(old(tcb), old(run), old(ready)), tcb[run].prio, run, ready)
    {
      hide Structured, Placed, ReadyOk, CallsOk, SettledExcept, IdleOk;
      if tcb[run].status == Running {
        Requeue(true);
      }
      Dispatch();
    }
  }

  method LeastOf(s: set<nat>) returns (p: nat)
    requires s != {}
    ensures p in s && forall x: nat :: x in s ==> p <= x
  {
    p :| p in s;
    var rest := s - {p};
    while rest != {}
      invariant p in s && rest <= s
      invariant forall x: nat :: x in s && x !in rest ==> p <= x
      decreases rest
    {
      var x :| x in rest;
      rest := rest - {x};
      p := if x < p then x else p;
    }
  }
}
