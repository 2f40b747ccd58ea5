// Runs of the kernel: any sequence of calls, returns from blocking calls, ticks and switches.
module Runs {
  import opened Prelude
  import opened KernelState
  import opened Queues
  import opened ReadyQueues
  import opened QueueOrder
  import opened NetSteps
  import opened SchedSteps
  import opened Kernel
  import opened Transitive

  datatype Step =
    | Lock(mutex: nat, timeout: nat)
    | Unlock(mutex: nat)
    | WaitIn(queue: nat, bounded: bool)   // block on a message pool
    | Return                              // a switched-out blocking call goes on
    | Give(mesg: nat, receiver: Option<nat>)
    | GiveWaiter(queue: nat, mesg: nat)
    | Ticks(expired: seq<nat>)
    | LockScheduler
    | UnlockScheduler
    | GoToSleep(ticks: nat)
    | Wake(task: nat)
    | YieldNow
    | Switch

  // The running task may start a call.
  predicate MayCall(k: Kernel)
    requires k.Inv()
    reads k
  {
    k.tcb[k.run].status == Running && k.run !in k.calls
  }

  // The steps by which the task being run does not give up the processor on its own: interrupts, which may
  // wake, time out and serve others, and calls that do not block, sleep, yield or unlock the scheduler.
  predicate Unforced(step: Step) {
    !step.Lock? && !step.WaitIn? && !step.GoToSleep? && !step.YieldNow? && !step.UnlockScheduler?
  }

  ghost predicate Came(s: Net, s2: Net, t: nat) {
    t < |s.tcb| && t < |s2.tcb| && s.tcb[t].status != Ready && s2.tcb[t].status == Ready
  }

  // While the scheduler is locked no switch is pended, and for a better task that becomes ready it is deferred.
  ghost predicate HeldOff(a: Sched, b: Sched, run: nat) {
    && b.pendSv == a.pendSv
    && forall t: nat ::
         Came(a.s, b.s, t) && run < |b.s.tcb| && b.s.tcb[run].preempt && b.s.tcb[t].prio < b.s.tcb[run].prio ==>
           b.deferred
  }

  // What a step does to the task being run, from lock depth d to d2: under the lock the switch is held off,
  // and a step that is not its own decision leaves it running.
  ghost predicate Lawful(a: Sched, d: nat, b: Sched, d2: nat, run: nat, unforced: bool) {
    && run < |a.s.tcb| == |b.s.tcb|
    && (d > 0 && d2 > 0 && b.s.tcb[run].status in {Running, Ready} ==> HeldOff(a, b, run))
    && (unforced && a.s.tcb[run].status == Running ==> b.s.tcb[run].status == Running && d2 >= d)
  }

  // The running task may start a call, as MayCall.
  ghost predicate MayStart(s: Net, run: nat, calls: map<nat, nat>) {
    run < |s.tcb| && s.tcb[run].status == Running && run !in calls
  }

  // What a step does to the network, but for the order inside the queues and the priorities repaired
  // after it; where it is not allowed, or refused, nothing.
  ghost predicate Effect(step: Step, s: Net, run: nat, calls: map<nat, nat>, s2: Net) {
    match step
    case Lock(m, timeout) =>
      if !MayStart(s, run, calls) || run == IDLE_TASK || m >= |s.mtx| || timeout > WAIT_FOREVER then s2 == s
      else if !s.mtx[m].lock then s2 == NetSteps.Acquired(s, run, m)
      else if s.mtx[m].owner == Some(run) || timeout == NO_WAIT || MAX_PERIOD < timeout < WAIT_FOREVER then s2 == s
      else m < |s.q| && SameShape(Waiting(s, run, m, 0, timeout != WAIT_FOREVER), s2)
    case Unlock(m) =>
      if !MayStart(s, run, calls) || m >= |s.mtx| || s.mtx[m].owner != Some(run) then s2 == s
      else
        && m < |s.q| && m in s.tcb[run].owned
        && if s.q[m] == [] then s2 == NetSteps.Released(s, run, m)
           else s.q[m][0] < |s.tcb| && s.q[m][0] != run
                && SameShape(BecameReady(HandedOver(s, run, m), s.q[m][0], false), s2)
    case WaitIn(queue, bounded) =>
      if !MayStart(s, run, calls) || run == IDLE_TASK || !(|s.mtx| <= queue < |s.q|) then s2 == s
      else SameShape(Waiting(s, run, queue, 0, bounded), s2)
    case Return =>
      if run < |s.tcb| && s.tcb[run].status == Running && run in calls then s2 == Resumed(s, run) else s2 == s
    case Give(x, receiver) =>
      if x >= |s.mesg| || (receiver.Some? && receiver.value >= |s.tcb|) then s2 == s
      else
        var o := s.mesg[x].owner;
        && (o.Some? ==> o.value < |s.tcb| && x in s.tcb[o.value].mesgs)
        && SameShape(Transferred(s, x, receiver), s2)
    case GiveWaiter(queue, x) =>
      if |s.mtx| <= queue < |s.q| && s.q[queue] != [] && x < |s.mesg| then
        Structured(s) && Placed(s) && SettledExcept(s, {}) && SameShape(GivenToWaiter(s, queue, x), s2)
      else s2 == s
    case Ticks(expired) =>
      if Distinct(expired) && (forall i: nat :: i < |expired| ==> expired[i] < |s.tcb| && Expirable(s.tcb[expired[i]]))
      then s2.mtx == s.mtx && s2.mesg == s.mesg && TimedOut(s, s2, expired)
      else s2 == s
    case LockScheduler => Turned(s, s2)
    case UnlockScheduler => Turned(s, s2)
    case GoToSleep(ticks) =>
      if MayStart(s, run, calls) && run != IDLE_TASK && 0 < ticks <= MAX_PERIOD then
        s2 == s.(tcb := s.tcb[run := s.tcb[run].(status := Sleeping)])
      else s2 == s
    case Wake(t) =>
      if t < |s.tcb| && s.tcb[t].status == Sleeping then s2 == BecameReady(s, t, s.tcb[t].timeOut) else s2 == s
    case YieldNow => Turned(s, s2)
    case Switch => Turned(s, s2)
  }

  // What a step does to the lock depth, and a switch to the task being run. Unlocking the last level turns
  // a deferred switch into a pended one.
  ghost predicate Depth(step: Step, a: Sched, d: nat, run: nat, calls: map<nat, nat>, b: Sched, d2: nat, run2: nat) {
    var may := run < |a.s.tcb| && a.s.tcb[run].status in {Running, Ready} && run !in calls;
    match step
    case LockScheduler => d2 == d + (if may && a.s.tcb[run].preempt then 1 else 0)
    case UnlockScheduler =>
      && d2 == (if may && d > 0 then d - 1 else d)
      && (may && d == 1 && a.deferred ==> b.pendSv && !b.deferred)
    case Switch =>
      if !a.pendSv then b == a && d2 == d && run2 == run
      else
        && !b.pendSv && run2 < |b.s.tcb| && b.s.tcb[run2].status == Running && d2 == b.s.tcb[run2].schLock
        && forall t: nat :: t < |b.s.tcb| && b.s.tcb[t].status == Ready ==> b.s.tcb[run2].prio <= b.s.tcb[t].prio
    case _ => d2 == d
  }

  // ---- one method for each kind of step ---------------------------------------------------------

  method DoLock(k: Kernel, m: nat, timeout: nat)
    requires k.Inv()
    modifies k
    ensures k.Inv() && k.run == old(k.run) && Lawful(old(k.Now()), old(k.schLock), k.Now(), k.schLock, k.run, false)
    ensures Effect(Lock(m, timeout), old(k.S()), old(k.run), old(k.calls), k.S())
    ensures k.schLock == old(k.schLock)
  {
    hide Kernel.Inv, Lawful;
    ghost var a := k.Now();
    InRange(k);
    if !(MayCall(k) && k.run != IDLE_TASK && m < |k.mtx| && timeout <= WAIT_FOREVER) {
      Calm(a, k.schLock, a, k.schLock, k.run, false);
      return;
    }
    var r := k.MutexLock(m, timeout);
    if r.MustWait? {
      ghost var w := Waiting(a.s, k.run, m, 0, timeout != WAIT_FOREVER);
      StillBlocked(w, k.S(), k.run);
      Gone(a, k.schLock, k.Now(), k.schLock, k.run);
    } else {
      Calm(a, k.schLock, k.Now(), k.schLock, k.run, false);
    }
  }

  method DoUnlock(k: Kernel, m: nat)
    requires k.Inv()
    modifies k
    ensures k.Inv() && k.run == old(k.run) && Lawful(old(k.Now()), old(k.schLock), k.Now(), k.schLock, k.run, true)
    ensures Effect(Unlock(m), old(k.S()), old(k.run), old(k.calls), k.S())
    ensures k.schLock == old(k.schLock)
  {
    hide Structured, Placed, SettledExcept, CallsOk, ReadyOk, IdleOk, DispatchOk, Lawful, PassedTo;
    ghost var a := k.Now();
    Parts(a.s);
    InRange(k);
    if !(MayCall(k) && m < |k.mtx|) {
      Calm(a, k.schLock, a, k.schLock, k.run, true);
      return;
    }
    var r := k.MutexUnlock(m);
    if r.Released? && a.s.q[m] != [] {
      PassedLawful(a, k.Now(), k.run, m, k.schLock);
    } else {
      Calm(a, k.schLock, k.Now(), k.schLock, k.run, true);
    }
  }

  method DoWait(k: Kernel, queue: nat, bounded: bool)
    requires k.Inv()
    modifies k
    ensures k.Inv() && k.run == old(k.run) && Lawful(old(k.Now()), old(k.schLock), k.Now(), k.schLock, k.run, false)
    ensures Effect(WaitIn(queue, bounded), old(k.S()), old(k.run), old(k.calls), k.S())
    ensures k.schLock == old(k.schLock)
  {
    hide Structured, Placed, SettledExcept, CallsOk, ReadyOk, IdleOk, DispatchOk, Lawful;
    ghost var a := k.Now();
    InRange(k);
    if !(MayCall(k) && k.run != IDLE_TASK && |k.mtx| <= queue < |k.q|) {
      Calm(a, k.schLock, a, k.schLock, k.run, false);
      return;
    }
    k.WaitOn(queue, bounded);
    StillBlocked(Waiting(a.s, k.run, queue, 0, bounded), k.S(), k.run);
    Gone(a, k.schLock, k.Now(), k.schLock, k.run);
  }

  method DoReturn(k: Kernel)
    requires k.Inv()
    modifies k
    ensures k.Inv() && k.run == old(k.run) && Lawful(old(k.Now()), old(k.schLock), k.Now(), k.schLock, k.run, true)
    ensures Effect(Return, old(k.S()), old(k.run), old(k.calls), k.S())
    ensures k.schLock == old(k.schLock)
  {
    hide Kernel.Inv, Lawful;
    ghost var a := k.Now();
    InRange(k);
    if !(k.tcb[k.run].status == Running && k.run in k.calls) {
      Calm(a, k.schLock, a, k.schLock, k.run, true);
      return;
    }
    var queue := k.calls[k.run];
    if queue < |k.mtx| {
      var _ := k.MutexLockResume(queue);
    } else {
      var _ := k.AllocResume(queue);
    }
    Calm(a, k.schLock, k.Now(), k.schLock, k.run, true);
  }

  method DoGive(k: Kernel, x: nat, receiver: Option<nat>)
    requires k.Inv()
    modifies k
    ensures k.Inv() && k.run == old(k.run) && Lawful(old(k.Now()), old(k.schLock), k.Now(), k.schLock, k.run, true)
    ensures Effect(Give(x, receiver), old(k.S()), old(k.run), old(k.calls), k.S())
    ensures k.schLock == old(k.schLock)
  {
    hide Kernel.Inv, Lawful, Transferred;
    ghost var a := k.Now();
    InRange(k);
    if !(x < |k.mesg| && (receiver.None? || receiver.value < |k.tcb|)) {
      Calm(a, k.schLock, a, k.schLock, k.run, true);
      return;
    }
    k.GiveMesg(x, receiver);
    GivenLawful(a, k.Now(), k.run, x, receiver, k.schLock);
  }

  method DoGiveWaiter(k: Kernel, queue: nat, x: nat)
    requires k.Inv()
    modifies k
    ensures k.Inv() && k.run == old(k.run) && Lawful(old(k.Now()), old(k.schLock), k.Now(), k.schLock, k.run, true)
    ensures Effect(GiveWaiter(queue, x), old(k.S()), old(k.run), old(k.calls), k.S())
    ensures k.schLock == old(k.schLock)
  {
    hide Structured, Placed, SettledExcept, CallsOk, ReadyOk, IdleOk, DispatchOk, Lawful, Served, GivenToWaiter;
    ghost var a := k.Now();
    InRange(k);
    if !(|k.mtx| <= queue < |k.q| && k.q[queue] != [] && x < |k.mesg|) {
      Calm(a, k.schLock, a, k.schLock, k.run, true);
      return;
    }
    k.HandoffToAllocator(queue, x);
    ServedLawful(a, k.Now(), k.run, queue, x, k.schLock);
  }

  method DoTicks(k: Kernel, expired: seq<nat>)
    requires k.Inv()
    modifies k
    ensures k.Inv() && k.run == old(k.run) && Lawful(old(k.Now()), old(k.schLock), k.Now(), k.schLock, k.run, true)
    ensures Effect(Ticks(expired), old(k.S()), old(k.run), old(k.calls), k.S())
    ensures k.schLock == old(k.schLock)
  {
    hide Kernel.Inv, Lawful, TimedOut, InOrder, EnteredInOrder, QuietExpiry;
    ghost var a := k.Now();
    InRange(k);
    if !(Distinct(expired) && (forall i: nat :: i < |expired| ==> k.CanExpire(expired[i]))) {
      Calm(a, k.schLock, a, k.schLock, k.run, true);
      return;
    }
    ghost var _ := k.Tick(expired);
    TickLawful(a, k.Now(), k.run, expired, k.schLock);
  }

  method DoLockScheduler(k: Kernel)
    requires k.Inv()
    modifies k
    ensures k.Inv() && k.run == old(k.run) && Lawful(old(k.Now()), old(k.schLock), k.Now(), k.schLock, k.run, true)
    ensures Effect(LockScheduler, old(k.S()), old(k.run), old(k.calls), k.S())
    ensures Depth(LockScheduler, old(k.Now()), old(k.schLock), old(k.run), old(k.calls), k.Now(), k.schLock, k.run)
  {
    hide Kernel.Inv, Lawful;
    ghost var a := k.Now();
    InRange(k);
    if !(k.tcb[k.run].status in {Running, Ready} && k.run !in k.calls) {
      Calm(a, k.schLock, a, k.schLock, k.run, true);
      return;
    }
    k.SchLock();
    Calm(a, old(k.schLock), k.Now(), k.schLock, k.run, true);
  }

  method DoUnlockScheduler(k: Kernel)
    requires k.Inv()
    modifies k
    ensures k.Inv() && k.run == old(k.run) && Lawful(old(k.Now()), old(k.schLock), k.Now(), k.schLock, k.run, false)
    ensures Effect(UnlockScheduler, old(k.S()), old(k.run), old(k.calls), k.S())
    ensures Depth(UnlockScheduler, old(k.Now()), old(k.schLock), old(k.run), old(k.calls), k.Now(), k.schLock, k.run)
  {
    hide Kernel.Inv, Lawful;
    ghost var a := k.Now();
    InRange(k);
    if !(k.tcb[k.run].status in {Running, Ready} && k.run !in k.calls) {
      Calm(a, k.schLock, a, k.schLock, k.run, false);
      return;
    }
    k.SchUnlock();
    Calm(a, old(k.schLock), k.Now(), k.schLock, k.run, false);
  }

  method DoSleep(k: Kernel, ticks: nat)
    requires k.Inv()
    modifies k
    ensures k.Inv() && k.run == old(k.run) && Lawful(old(k.Now()), old(k.schLock), k.Now(), k.schLock, k.run, false)
    ensures Effect(GoToSleep(ticks), old(k.S()), old(k.run), old(k.calls), k.S())
    ensures k.schLock == old(k.schLock)
  {
    hide Kernel.Inv, Lawful;
    ghost var a := k.Now();
    InRange(k);
    if !(MayCall(k) && k.run != IDLE_TASK) {
      Calm(a, k.schLock, a, k.schLock, k.run, false);
      return;
    }
    var r := k.Sleep(ticks);
    if r.Asleep? {
      Gone(a, k.schLock, k.Now(), k.schLock, k.run);
    } else {
      Calm(a, k.schLock, k.Now(), k.schLock, k.run, false);
    }
  }

  method DoWake(k: Kernel, t: nat)
    requires k.Inv()
    modifies k
    ensures k.Inv() && k.run == old(k.run) && Lawful(old(k.Now()), old(k.schLock), k.Now(), k.schLock, k.run, true)
    ensures Effect(Wake(t), old(k.S()), old(k.run), old(k.calls), k.S())
    ensures k.schLock == old(k.schLock)
  {
    hide Kernel.Inv, Lawful, Queued;
    ghost var a := k.Now();
    InRange(k);
    if !(t < |k.tcb| && k.tcb[t].status == Sleeping) {
      Calm(a, k.schLock, a, k.schLock, k.run, true);
      return;
    }
    k.WakeSleeper(t);
    Woke(a, k.Now(), k.run, t, k.schLock, true);
  }

  method DoYield(k: Kernel)
    requires k.Inv()
    modifies k
    ensures k.Inv() && k.run == old(k.run) && Lawful(old(k.Now()), old(k.schLock), k.Now(), k.schLock, k.run, false)
    ensures Effect(YieldNow, old(k.S()), old(k.run), old(k.calls), k.S())
    ensures k.schLock == old(k.schLock)
  {
    hide Kernel.Inv, Lawful;
    ghost var a := k.Now();
    InRange(k);
    if !(MayCall(k)) {
      Calm(a, k.schLock, a, k.schLock, k.run, false);
      return;
    }
    k.Yield();
    if k.tcb[k.run].status == Ready {
      Woke(a, k.Now(), k.run, k.run, k.schLock, false);
    } else {
      Calm(a, k.schLock, k.Now(), k.schLock, k.run, false);
    }
  }

  method DoSwitch(k: Kernel)
    requires k.Inv()
    modifies k
    ensures k.Inv() && Effect(Switch, old(k.S()), old(k.run), old(k.calls), k.S())
    ensures Depth(Switch, old(k.Now()), old(k.schLock), old(k.run), old(k.calls), k.Now(), k.schLock, k.run)
  {
    hide Structured, Placed, SettledExcept, CallsOk, ReadyOk, IdleOk, DispatchOk, TakenFirst, SwitchedTo;
    if k.pendSv {
      k.Swtch();
    }
  }

  // Steps whose precondition does not hold in the present state are skipped; a switch happens only when it
  // is pended. As long as the task being run stays runnable and the scheduler locked, nothing is pended.
  method Do(k: Kernel, step: Step)
    requires k.Inv()
    modifies k
    ensures k.Inv()
    ensures !step.Switch? ==>
              k.run == old(k.run) && Lawful(old(k.Now()), old(k.schLock), k.Now(), k.schLock, k.run, Unforced(step))
    ensures Depth(step, old(k.Now()), old(k.schLock), old(k.run), old(k.calls), k.Now(), k.schLock, k.run)
    ensures Effect(step, old(k.S()), old(k.run), old(k.calls), k.S())
  {
    hide Kernel.Inv, Lawful, Effect;
    match step
    case Lock(m, timeout) => DoLock(k, m, timeout);
    case Unlock(m) => DoUnlock(k, m);
    case WaitIn(queue, bounded) => DoWait(k, queue, bounded);
    case Return => DoReturn(k);
    case Give(x, receiver) => DoGive(k, x, receiver);
    case GiveWaiter(queue, x) => DoGiveWaiter(k, queue, x);
    case Ticks(expired) => DoTicks(k, expired);
    case LockScheduler => DoLockScheduler(k);
    case UnlockScheduler => DoUnlockScheduler(k);
    case GoToSleep(ticks) => DoSleep(k, ticks);
    case Wake(t) => DoWake(k, t);
    case YieldNow => DoYield(k);
    case Switch => DoSwitch(k);
  }

  lemma InRange(k: Kernel)
    requires k.Inv()
    ensures k.run < |k.tcb| && |k.mtx| <= |k.q|
  {
  }

  // Nobody becomes ready.
  lemma Calm(a: Sched, d: nat, b: Sched, d2: nat, run: nat, unforced: bool)
    requires run < |a.s.tcb| == |b.s.tcb| && forall t: nat :: t < |a.s.tcb| ==> b.s.tcb[t].status == a.s.tcb[t].status
    requires (d > 0 && d2 > 0 ==> b.pendSv == a.pendSv) && (unforced ==> d2 >= d)
    ensures Lawful(a, d, b, d2, run, unforced)
  {
  }

  // The task being run gives up the processor.
  lemma Gone(a: Sched, d: nat, b: Sched, d2: nat, run: nat)
    requires run < |a.s.tcb| == |b.s.tcb| && b.s.tcb[run].status !in {Running, Ready}
    ensures Lawful(a, d, b, d2, run, false)
  {
  }

  // Task w alone becomes ready.
  lemma Woke(a: Sched, b: Sched, run: nat, w: nat, d: nat, unforced: bool)
    requires run < |a.s.tcb| == |b.s.tcb| && w < |a.s.tcb| && (unforced ==> a.s.tcb[w].status != Running)
    requires forall t: nat :: t < |a.s.tcb| && t != w ==> b.s.tcb[t].status == a.s.tcb[t].status
    requires d > 0 ==> b.pendSv == a.pendSv
    requires d > 0 && b.s.tcb[w].prio < b.s.tcb[run].prio && b.s.tcb[run].preempt ==> b.deferred
    ensures Lawful(a, d, b, d, run, unforced)
  {
  }

  lemma PassedLawful(a: Sched, b: Sched, run: nat, m: nat, d: nat)
    requires Wired(a.s) && m < |a.s.q| && a.s.q[m] != [] && m < |a.s.mtx| && run < |a.s.tcb| && m in a.s.tcb[run].owned
    requires PassedTo(a, b, run, m, d) && a.s.tcb[run].status == Running
    ensures Lawful(a, d, b, d, run, true)
    ensures a.s.q[m][0] < |a.s.tcb| && a.s.q[m][0] != run
    ensures SameShape(BecameReady(HandedOver(a.s, run, m), a.s.q[m][0], false), b.s)
  {
    hide BetterReady, Queued, Lawful;
    var w := a.s.q[m][0];
    assert w in a.s.q[m] && Waiter(a.s, m, w);
    StillBlocked(BecameReady(HandedOver(a.s, run, m), w, false), b.s, run);
    Woke(a, b, run, w, d, true);
  }

  lemma GivenLawful(a: Sched, b: Sched, run: nat, x: nat, o: Option<nat>, d: nat)
    requires x < |a.s.mesg| && (o.Some? ==> o.value < |a.s.tcb|) && run < |a.s.tcb| && run < |b.s.tcb|
    requires a.s.mesg[x].owner.Some? ==>
               a.s.mesg[x].owner.value < |a.s.tcb| && x in a.s.tcb[a.s.mesg[x].owner.value].mesgs
    requires SameShape(Transferred(a.s, x, o), b.s)
    requires Steady(b.s.tcb[run].preempt, d, a.pendSv, a.deferred, b.pendSv, b.deferred)
    ensures Lawful(a, d, b, d, run, true)
  {
    hide Transferred, Lawful;
    TransferredSame(a.s, x, o);
    forall t: nat | t < |a.s.tcb| ensures t < |b.s.tcb| && b.s.tcb[t].status == a.s.tcb[t].status {
      StillBlocked(Transferred(a.s, x, o), b.s, t);
    }
    Calm(a, d, b, d, run, true);
  }

  lemma ServedLawful(a: Sched, b: Sched, run: nat, k: nat, x: nat, d: nat)
    requires Structured(a.s) && Placed(a.s) && SettledExcept(a.s, {}) && |a.s.mtx| <= k < |a.s.q| && a.s.q[k] != []
    requires x < |a.s.mesg| && run < |a.s.tcb| && SameShape(GivenToWaiter(a.s, k, x), b.s) && Served(a, b, k, x, run, d)
    ensures Lawful(a, d, b, d, run, true)
  {
    hide Transferred, Lawful, Structured, Placed, SettledExcept, TableKept;
    PoppedKeeps(a.s, k);
    var w, p := a.s.q[k][0], Popped(a.s, k);
    MesgOwnerLists(p, x);
    TransferredSame(p, x, Some(w));
    forall t: nat | t < |a.s.tcb| && t != w ensures t < |b.s.tcb| && b.s.tcb[t].status == a.s.tcb[t].status {
      StillBlocked(GivenToWaiter(a.s, k, x), b.s, t);
    }
    Woke(a, b, run, w, d, true);
  }

  lemma TickLawful(a: Sched, b: Sched, run: nat, expired: seq<nat>, d: nat)
    requires TimedOut(a.s, b.s, expired) && run < |a.s.tcb|
    requires forall i: nat :: i < |expired| ==> expired[i] < |a.s.tcb| && Expirable(a.s.tcb[expired[i]])
    requires var st := b.s.tcb[run].status;
             var left := (expired == [] && st != Ready) || (st == Running && !b.s.tcb[run].preempt);
             var later := !left && st in {Running, Ready} && d > 0;
             b.pendSv == (a.pendSv || (!left && !later)) && b.deferred == if left then a.deferred else later
    ensures Lawful(a, d, b, d, run, true)
  {
    forall t: nat | t < |a.s.tcb| && t !in expired ensures b.s.tcb[t].status == a.s.tcb[t].status {
    }
  }

  predicate Distinct(s: seq<nat>) {
    forall i: nat, j: nat :: i < j < |s| ==> s[i] != s[j]
  }

  // A preemptible task that has locked the scheduler, with no switch pended, keeps the processor whatever
  // else happens, until it blocks, sleeps, yields or unlocks. If a better task is ready by then, the switch
  // is deferred, so that the unlock will pend it.
  method Protected(k: Kernel, steps: seq<Step>)
    requires k.Inv() && k.tcb[k.run].status == Running && k.schLock > 0 && !k.pendSv
    requires forall i: nat :: i < |steps| ==> Unforced(steps[i])
    modifies k
    ensures k.Inv() && k.run == old(k.run) && k.tcb[k.run].status == Running && k.schLock >= old(k.schLock) && !k.pendSv
    ensures k.tcb[k.run].preempt && BetterReady(k.tcb, k.tcb[k.run].prio) ==> k.deferred
  {
    hide Structured, Placed, SettledExcept, CallsOk, ReadyOk, IdleOk;
    for i := 0 to |steps|
      invariant k.Inv() && k.run == old(k.run) && k.tcb[k.run].status == Running
      invariant k.schLock >= old(k.schLock) && !k.pendSv
    {
      Do(k, steps[i]);
    }
  }

  // Every state a run reaches from start-up keeps every promise, and outside deadlocks every task
  // runs at the least priority demanded by itself or anyone it holds up.
  method Execute(k: Kernel, steps: seq<Step>)
    requires k.Inv()
    modifies k
    ensures k.Inv()
    ensures forall t: nat :: t < |k.tcb| && NoCycleBehind(k.S(), t) ==> IsLeastDemand(k.S(), t, k.tcb[t].prio)
  {
    for i := 0 to |steps|
      invariant k.Inv()
    {
      Do(k, steps[i]);
    }
    forall t: nat | t < |k.tcb| && NoCycleBehind(k.S(), t) ensures IsLeastDemand(k.S(), t, k.tcb[t].prio) {
      LeastDemand(k.S(), t);
    }
  }

  // ---- one tick, out of list order ------------------------------------------------------------

  // Task x sleeps with an inheriting mutex for which y alone waits, and has the better priority of y. On
  // one tick the sleepers x and z and the waiter y expire, in this order. With y the boost of x goes, after
  // z has become ready with the nominal priority of both: x, the first in the list, comes behind z.
  method OutOfListOrder(k: Kernel, x: nat, z: nat, y: nat)
    requires k.Inv() && x < |k.tcb| && y < |k.tcb| && z < |k.tcb| && x != z
    requires k.tcb[x].status == k.tcb[z].status == Sleeping && k.tcb[y].status == Blocked && k.tcb[y].armed
    requires k.tcb[x].prio < k.tcb[x].nominal == k.tcb[z].nominal == k.tcb[z].prio && k.tcb[x].mesgs == []
    requires forall w: nat :: Donates(k.S(), w, x) ==> w == y
    modifies k
    ensures k.Inv() && |k.tcb| == |old(k.tcb)| && k.tcb[x].status == k.tcb[z].status == Ready
    ensures var p := old(k.tcb)[x].nominal;
            k.tcb[x].prio == k.tcb[z].prio == p && p < |k.ready| && Ahead(k.ready[p], z, x)
  {
    hide Structured, Placed, SettledExcept, CallsOk, ReadyOk, IdleOk, DispatchOk;
    hide InOrder, EnteredInOrder, QuietExpiry, TimedOut, TraceOf, Ahead;
    ghost var a, p := k.Now(), k.tcb[x].nominal;
    var gone := [x, z, y];
    ghost var trace := k.Tick(gone);
    OnlyRises(a, k.Now(), z);
    Unboosted(a.s, k.S(), x, z, y);
    SleepersFirst(trace, a, x, z, y);
    AllOut(a.s.tcb, x, z, y);
    TickOrder(trace, gone, 0, 1, p);
    EitherWay(k.tcb, k.ready, k.mask, x, z, p);
  }

  lemma OnlyRises(a: Sched, b: Sched, t: nat)
    requires InOrder(a, b, true) && t < |a.s.tcb|
    ensures |b.s.tcb| == |a.s.tcb| && b.s.tcb[t].prio >= a.s.tcb[t].prio
  {
  }

  lemma AllOut(tcb: seq<Tcb>, x: nat, z: nat, y: nat)
    requires x < |tcb| && z < |tcb| && y < |tcb| && x != z
    requires tcb[x].status == tcb[z].status == Sleeping && tcb[y].status == Blocked
    ensures NoDup([x, z, y]) && StillOut(tcb, [x, z, y], 0)
  {
  }

  // What is left of the priorities of x and z when the tick is over.
  lemma Unboosted(s: Net, s2: Net, x: nat, z: nat, y: nat)
    requires x < |s.tcb| && z < |s.tcb| && y < |s.tcb| && x != z && s.tcb[x].mesgs == []
    requires s.tcb[x].status == s.tcb[z].status == Sleeping && s.tcb[y].status == Blocked
    requires s.tcb[x].nominal == s.tcb[z].nominal == s.tcb[z].prio && s2.mtx == s.mtx && s2.mesg == s.mesg
    requires forall w: nat :: Donates(s, w, x) ==> w == y
    requires TimedOut(s, s2, [x, z, y]) && SettledExcept(s2, {}) && Structured(s2)
    requires s2.tcb[z].prio >= s.tcb[z].prio
    ensures |s2.tcb| == |s.tcb| && s2.tcb[x].status == s2.tcb[z].status == Ready
    ensures s2.tcb[x].prio == s2.tcb[z].prio == s.tcb[x].nominal
  {
    hide Wired, Sorted;
    forall t: nat | t < |s.tcb| ensures s2.tcb[t].waitingFor == s.tcb[t].waitingFor {
      assert t !in [x, z, y] ==> s2.tcb[t] == s.tcb[t].(prio := s2.tcb[t].prio);
    }
    assert x in [x, z, y] && z in [x, z, y] && y in [x, z, y];
    forall w: nat | Donates(s2, w, x) ensures Donates(s, w, x) {
    }
    assert Settled(s2, x);
  }

  lemma SleepersFirst(trace: seq<Sched>, a: Sched, x: nat, z: nat, y: nat)
    requires TraceOf(trace, [x, z, y]) && trace[0] == a && x != z
    requires x < |a.s.tcb| && z < |a.s.tcb| && a.s.tcb[x].status == a.s.tcb[z].status == Sleeping
    ensures |trace[2].s.tcb| == |a.s.tcb|
    ensures trace[2].s.tcb[x].prio == a.s.tcb[x].prio && trace[2].s.tcb[z].prio == a.s.tcb[z].prio
  {
    assert ExpiredFrom(trace[0], trace[1], [x, z, y][0]);
    assert ExpiredFrom(trace[1], trace[2], [x, z, y][1]);
  }

  lemma EitherWay(tcb: seq<Tcb>, ready: seq<seq<nat>>, mask: set<nat>, x: nat, z: nat, p: nat)
    requires ReadyOk(tcb, ready, mask) && x < |tcb| && z < |tcb| && x != z
    requires tcb[x].status == tcb[z].status == Ready && tcb[x].prio == tcb[z].prio == p < |ready|
    requires !Ahead(ready[p], x, z)
    ensures Ahead(ready[p], z, x)
  {
    var i: nat :| i < |ready[p]| && ready[p][i] == x;
    var j: nat :| j < |ready[p]| && ready[p][j] == z;
    assert !(i < j);
  }
}
