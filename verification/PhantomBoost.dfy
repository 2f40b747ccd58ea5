// A run into a deadlock whose tasks keep a priority that nobody demands any more. Two tasks lock
// each other's mutex; a third waits behind them for a while and gives up.
module PhantomBoost {
  import opened Prelude
  import opened KernelState
  import opened Kernel
  import opened Queues
  import opened QueueOrder
  import opened NetSteps
  import opened SchedSteps
  import opened Transitive

  // Behind the idle task and the post-processing task of every system: the two that deadlock, and
  // the third.
  const A: nat := 2
  const B: nat := 3
  const C: nat := 4

  function Nominal(): seq<nat> {
    [IDLE_PRIO, 0, 5, 6, 0]
  }

  // The tasks and two inheriting mutexes with the given owners.
  ghost predicate Cast(s: Net, owner0: Option<nat>, owner1: Option<nat>) {
    && |s.tcb| == 5 && |s.mtx| == |s.q| == 2 && s.mesg == []
    && (forall t: nat :: t < 5 ==> s.tcb[t].nominal == Nominal()[t])
    && s.mtx[0].inherit && s.mtx[1].inherit && s.mtx[0].owner == owner0 && s.mtx[1].owner == owner1
  }

  ghost predicate Scene(k: Kernel, owner0: Option<nat>, owner1: Option<nat>, run: nat, calls: map<nat, nat>)
    reads k
  {
    && k.Inv() && Cast(k.S(), owner0, owner1) && k.run == run && k.calls == calls
    && k.tcb[run].status == Running
  }

  // ---- what the invariant says about a scene ---------------------------------------------------

  // Nobody donates to a task for whose mutexes nobody waits, so it has its nominal priority.
  lemma OwnPriority(s: Net, t: nat, calls: map<nat, nat>)
    requires LinksOk(s) && MesgsOk(s) && SettledExcept(s, {}) && CallsOk(s, calls) && t < |s.tcb| && s.mesg == []
    requires forall w: nat :: w in calls && w < |s.tcb| && calls[w] < |s.mtx| && s.tcb[w].status == Blocked ==>
               s.mtx[calls[w]].owner != Some(t)
    ensures s.tcb[t].prio == s.tcb[t].nominal
  {
    assert Settled(s, t);
    forall w: nat ensures !Donates(s, w, t) {
      if w < |s.tcb| && s.tcb[w].waitingFor.Some? {
        var m := s.tcb[w].waitingFor.value;
        assert m < |s.mtx| && w in s.q[m] ==> Waiter(s, m, w);
      }
    }
    assert Demand(s, t, s.tcb[t].nominal);
  }

  // The idle task has its priority, nobody has a worse one than its own, and while nobody is blocked
  // everybody has its own.
  lemma Lowest(s: Net, calls: map<nat, nat>, owner0: Option<nat>, owner1: Option<nat>)
    requires Structured(s) && SettledExcept(s, {}) && CallsOk(s, calls) && Cast(s, owner0, owner1)
    requires owner0 != Some(IDLE_TASK) && owner1 != Some(IDLE_TASK)
    ensures s.tcb[IDLE_TASK].prio == IDLE_PRIO
    ensures forall t: nat :: t < 5 ==> s.tcb[t].prio <= Nominal()[t]
    ensures calls == map[] ==> forall t: nat :: t < 5 ==> s.tcb[t].prio == Nominal()[t]
  {
    hide CallsOk, SettledExcept, LinksOk, LocksOk, OwnedOk, MesgsOk, Sorted, WaitsOk;
    OwnPriority(s, IDLE_TASK, calls);
    if calls == map[] {
      forall t: nat | t < 5 ensures s.tcb[t].prio == Nominal()[t] {
        OwnPriority(s, t, calls);
      }
    }
  }

  // ---- the steps -------------------------------------------------------------------------------

  function NewTask(prio: nat): Tcb {
    Tcb(prio, prio, Initialised, true, 0, None, None, false, false, [], [])
  }

  function Tasks(): seq<Tcb> {
    [NewTask(IDLE_PRIO), NewTask(0), NewTask(5), NewTask(6), NewTask(0)]
  }

  function Mutexes(): seq<Mutex> {
    [Mutex(false, true, None), Mutex(false, true, None)]
  }

  lemma StartPristine()
    ensures Pristine(Net(Tasks(), Mutexes(), [], seq(2, _ => [])))
  {
    assert forall t: nat :: t < 5 ==> Nominal()[t] <= IDLE_PRIO;
  }

  method Start() returns (k: Kernel)
    ensures Scene(k, None, None, k.run, map[]) && k.run in {1, C}
    ensures forall t: nat :: t < 5 && t != k.run ==> k.tcb[t].status == Ready
    ensures fresh(k)
  {
    hide Pristine, Structured, Placed, SettledExcept, CallsOk, ReadyOk, IdleOk, DispatchOk;
    StartPristine();
    assert Tasks()[IDLE_TASK].prio == IDLE_PRIO && Tasks()[1].prio == 0;
    k := new Kernel(Tasks(), Mutexes(), [], 2);
    assert k.tcb[k.run].prio <= k.tcb[1].prio;
  }

  // The same tasks at the same priorities; status st for task t.
  ghost predicate Became(was: seq<Tcb>, tcb: seq<Tcb>, t: nat, st: Status) {
    && |was| == |tcb| == 5
    && forall u: nat :: u < 5 ==>
         tcb[u].prio == was[u].prio && tcb[u].status == if u == t then st else was[u].status
  }

  // The switch picks a best ready task.
  method Switch(k: Kernel, ghost owner0: Option<nat>, ghost owner1: Option<nat>)
    requires k.Inv() && Cast(k.S(), owner0, owner1) && k.tcb[k.run].status != Running
    modifies k
    ensures Scene(k, owner0, owner1, k.run, old(k.calls)) && old(k.tcb)[k.run].status == Ready
    ensures Became(old(k.tcb), k.tcb, k.run, Running)
    ensures forall t: nat :: t < 5 && old(k.tcb)[t].status == Ready ==> k.tcb[k.run].prio <= k.tcb[t].prio
    ensures forall t: nat :: t < 5 ==> k.tcb[t].armed == old(k.tcb)[t].armed
  {
    hide Structured, Placed, SettledExcept, CallsOk, ReadyOk, IdleOk, DispatchOk;
    hide TakenFirst, PutFront;
    ghost var was := k.tcb;
    k.Swtch();
    forall t: nat | t < 5
      ensures k.tcb[t].prio == was[t].prio && k.tcb[t].nominal == was[t].nominal && k.tcb[t].armed == was[t].armed
    {
      assert k.tcb[t] == was[t].(status := k.tcb[t].status, schLock := k.tcb[t].schLock);
    }
  }

  method SleepOn(k: Kernel, ghost owner0: Option<nat>, ghost owner1: Option<nat>)
    requires Scene(k, owner0, owner1, k.run, map[]) && k.run != IDLE_TASK
    modifies k
    ensures Scene(k, owner0, owner1, k.run, map[]) && old(k.tcb)[k.run].status == Ready && k.run != old(k.run)
    ensures Became(old(k.tcb)[old(k.run) := old(k.tcb)[old(k.run)].(status := Sleeping)], k.tcb, k.run, Running)
    ensures forall t: nat :: t < 5 && old(k.tcb)[t].status == Ready ==> k.tcb[k.run].prio <= k.tcb[t].prio
  {
    hide Structured, Placed, SettledExcept, CallsOk, ReadyOk, IdleOk, DispatchOk;
    var r := k.Sleep(1);
    assert r.Asleep?;
    Switch(k, owner0, owner1);
  }

  // The running task takes a free mutex.
  method TakeMutex(k: Kernel, m: nat, ghost owner0: Option<nat>, ghost owner1: Option<nat>)
    requires Scene(k, owner0, owner1, k.run, map[]) && k.run != IDLE_TASK && m < 2
    requires (if m == 0 then owner0 else owner1) == None
    modifies k
    ensures k.run == old(k.run) && Became(old(k.tcb), k.tcb, k.run, Running)
    ensures var o := Some(k.run);
            Scene(k, if m == 0 then o else owner0, if m == 0 then owner1 else o, k.run, map[])
  {
    hide Structured, Placed, SettledExcept, CallsOk, ReadyOk, IdleOk, DispatchOk;
    assert !k.mtx[m].lock by {
      Unlocked(k.S(), m);
    }
    var r := k.MutexLock(m, WAIT_FOREVER);
    assert r.Acquired?;
  }

  lemma Unlocked(s: Net, m: nat)
    requires Structured(s) && m < |s.mtx| && s.mtx[m].owner == None
    ensures !s.mtx[m].lock
  {
  }

  // The two urgent tasks go to sleep.
  method UrgentSleep() returns (k: Kernel)
    ensures Scene(k, None, None, A, map[]) && fresh(k)
    ensures k.tcb[1].status == k.tcb[C].status == Sleeping && k.tcb[B].status == k.tcb[IDLE_TASK].status == Ready
  {
    hide Structured, Placed, SettledExcept, CallsOk, ReadyOk, IdleOk, DispatchOk;
    k := Start();
    ghost var other: nat := if k.run == 1 then C else 1;
    Lowest(k.S(), k.calls, None, None);
    SleepOn(k, None, None);
    assert k.tcb[k.run].prio <= k.tcb[other].prio;
    Lowest(k.S(), k.calls, None, None);
    SleepOn(k, None, None);
    assert k.tcb[k.run].prio <= k.tcb[A].prio;
  }

  // A takes the first mutex and sleeps; B takes the second.
  method EachTakesOne() returns (k: Kernel)
    ensures Scene(k, Some(A), Some(B), B, map[]) && fresh(k)
    ensures k.tcb[A].status == k.tcb[C].status == k.tcb[1].status == Sleeping && k.tcb[IDLE_TASK].status == Ready
  {
    hide Structured, Placed, SettledExcept, CallsOk, ReadyOk, IdleOk, DispatchOk;
    k := UrgentSleep();
    TakeMutex(k, 0, None, None);
    Lowest(k.S(), k.calls, Some(A), None);
    SleepOn(k, Some(A), None);
    assert k.tcb[k.run].prio <= k.tcb[B].prio;
    TakeMutex(k, 1, Some(A), None);
  }

  // A sleeping task better than the running and all ready ones wakes up and runs.
  method WakeUp(k: Kernel, t: nat, ghost owner0: Option<nat>, ghost owner1: Option<nat>)
    requires Scene(k, owner0, owner1, k.run, k.calls) && t < 5 && k.tcb[t].status == Sleeping
    requires forall u: nat :: u < 5 && k.tcb[u].status in {Ready, Running} ==> k.tcb[t].prio < k.tcb[u].prio
    modifies k
    ensures Scene(k, owner0, owner1, t, old(k.calls))
    ensures Became(old(k.tcb)[old(k.run) := old(k.tcb)[old(k.run)].(status := Ready)], k.tcb, t, Running)
  {
    hide Structured, Placed, SettledExcept, CallsOk, ReadyOk, IdleOk, DispatchOk;
    hide Queued, TakenFirst, SwitchedTo, PutBack, PutFront;
    k.WakeSleeper(t);
    ghost var woken := k.tcb;
    k.Swtch();
    assert forall u: nat :: u < 5 ==> k.tcb[u].prio == woken[u].prio && k.tcb[u].nominal == woken[u].nominal;
    assert k.tcb[k.run].prio <= k.tcb[t].prio;
  }

  // The running task blocks behind the owner of mutex m, and the best ready task runs.
  method BlockBehind(k: Kernel, m: nat, timeout: nat, ghost owner0: Option<nat>, ghost owner1: Option<nat>)
    requires Scene(k, owner0, owner1, k.run, k.calls) && k.run != IDLE_TASK && k.run !in k.calls && m < 2
    requires var o := if m == 0 then owner0 else owner1; o.Some? && o.value != k.run
    requires 1 <= timeout <= MAX_PERIOD || timeout == WAIT_FOREVER
    modifies k
    ensures Scene(k, owner0, owner1, k.run, old(k.calls)[old(k.run) := m]) && old(k.tcb)[k.run].status == Ready
    ensures k.run != old(k.run) && k.tcb[old(k.run)].armed == (timeout != WAIT_FOREVER)
    ensures forall t: nat :: t < 5 && t != k.run ==>
              k.tcb[t].status == if t == old(k.run) then Blocked else old(k.tcb)[t].status
    ensures forall t: nat :: t < 5 && old(k.tcb)[t].status == Ready ==> k.tcb[k.run].prio <= k.tcb[t].prio
  {
    hide Structured, Placed, SettledExcept, CallsOk, ReadyOk, IdleOk, DispatchOk;
    OwnedLocked(k.S(), m);
    var r := k.MutexLock(m, timeout);
    assert r.MustWait?;
    ghost var wait := Waiting(old(k.S()), k.run, m, 0, timeout != WAIT_FOREVER).tcb;
    assert forall u: nat :: u < 5 ==> wait[u].(prio := k.tcb[u].prio) == k.tcb[u];
    Switch(k, owner0, owner1);
  }

  lemma OwnedLocked(s: Net, m: nat)
    requires Structured(s) && m < |s.mtx| && s.mtx[m].owner.Some?
    ensures s.mtx[m].lock
  {
  }

  // ---- the deadlock ----------------------------------------------------------------------------

  // A and B wait for each other.
  ghost predicate Deadlock(s: Net) {
    Cast(s, Some(A), Some(B)) && Donates(s, A, B) && Donates(s, B, A)
  }

  lemma Locked(s: Net, calls: map<nat, nat>)
    requires Structured(s) && Placed(s) && SettledExcept(s, {}) && CallsOk(s, calls) && Cast(s, Some(A), Some(B))
    requires calls == map[A := 1, B := 0, C := 0]
    requires s.tcb[A].status == s.tcb[B].status == s.tcb[C].status == Blocked
    ensures Deadlock(s) && s.tcb[A].prio == s.tcb[B].prio == 0
    ensures s.tcb[C].waitQ == Some(0) && C in s.q[0]
  {
    assert calls[A] == 1 && calls[B] == 0 && calls[C] == 0;
    assert Waiter(s, 1, A) && Waiter(s, 0, B) && Waiter(s, 0, C);
    assert Donates(s, A, B) && Donates(s, B, A) && Donates(s, C, A);
    assert s.tcb[C].prio <= s.tcb[C].nominal == Nominal()[C];
    assert Settled(s, A) && Settled(s, B);
  }

  // Without C both are still right: each has the priority of the other.
  lemma StillSettled(s: Net)
    requires Deadlock(s) && SettledExcept(s, {}) && s.tcb[A].prio == s.tcb[B].prio == 0
    requires Structured(s) && s.tcb[C].waitQ == Some(0) && C in s.q[0]
    ensures SettledExcept(Unlinked(s, C), {})
  {
    var s2 := Unlinked(s, C);
    WithoutFacts(s.q[0], C);
    hide Without, IndexOf;
    assert Donates(s2, A, B) && Donates(s2, B, A);
    forall t: nat | t < |s2.tcb| ensures Settled(s2, t) {
      if t != A && t != B {
        assert Settled(s, t);
        EffSame(s, s2, t, s.tcb[t].prio);
      }
    }
  }

  // The tasks A and B demand 5 and 6; nobody else waits for either.
  lemma NobodyDemands(s: Net, t: nat, c: nat)
    requires Deadlock(s) && Structured(s) && s.tcb[C].status != Blocked
    requires s.tcb[1].status != Blocked && s.tcb[IDLE_TASK].status != Blocked
    requires t in {A, B} && TransitiveDemand(s, t, c)
    ensures c in {5, 6}
  {
    var w: nat :| WaitsFor(s, w, t) && Demand(s, w, c);
    var p: seq<nat> :| Chain(s, p) && p[0] == w && p[|p| - 1] == t;
    if |p| > 1 {
      assert Donates(s, p[0], p[1]) && Waiter(s, s.tcb[w].waitingFor.value, w);
    }
    assert w in {A, B};
    assert c == s.tcb[w].nominal == Nominal()[w];
  }

  lemma Circle(s: Net)
    requires Deadlock(s)
    ensures !NoCycleBehind(s, A)
  {
    var p: seq<nat> := [A, B, A];
    assert Chain(s, p) && p[|p| - 1] == A && p[0] == p[2];
  }

  // Each of A and B asks for the mutex of the other.
  method BothBlock() returns (k: Kernel)
    ensures Scene(k, Some(A), Some(B), IDLE_TASK, map[A := 1, B := 0]) && fresh(k)
    ensures k.tcb[A].status == k.tcb[B].status == Blocked
    ensures k.tcb[C].status == k.tcb[1].status == Sleeping
  {
    hide Structured, Placed, SettledExcept, CallsOk, ReadyOk, IdleOk, DispatchOk;
    k := EachTakesOne();
    Lowest(k.S(), k.calls, Some(A), Some(B));
    WakeUp(k, A, Some(A), Some(B));
    BlockBehind(k, 1, WAIT_FOREVER, Some(A), Some(B));
    Lowest(k.S(), k.calls, Some(A), Some(B));
    assert k.run == B;
    BlockBehind(k, 0, WAIT_FOREVER, Some(A), Some(B));
    assert k.run == IDLE_TASK;
  }

  // C waits behind them for ten ticks.
  method AllBlock() returns (k: Kernel)
    ensures Scene(k, Some(A), Some(B), IDLE_TASK, map[A := 1, B := 0, C := 0]) && fresh(k)
    ensures k.tcb[A].status == k.tcb[B].status == k.tcb[C].status == Blocked && k.tcb[C].armed
    ensures k.tcb[1].status == Sleeping
  {
    hide Structured, Placed, SettledExcept, CallsOk, ReadyOk, IdleOk, DispatchOk;
    k := BothBlock();
    Lowest(k.S(), k.calls, Some(A), Some(B));
    WakeUp(k, C, Some(A), Some(B));
    BlockBehind(k, 0, 10, Some(A), Some(B));
  }

  method ThirdTimesOut(k: Kernel)
    requires Scene(k, Some(A), Some(B), IDLE_TASK, map[A := 1, B := 0, C := 0])
    requires k.tcb[A].status == k.tcb[B].status == k.tcb[C].status == Blocked && k.tcb[C].armed
    requires Deadlock(k.S()) && k.tcb[A].prio == k.tcb[B].prio == 0
    requires k.tcb[C].waitQ == Some(0) && C in k.q[0]
    modifies k
    ensures k.Inv() && k.run == old(k.run) && k.calls == old(k.calls)
    ensures k.S() == BecameReady(Unlinked(old(k.S()), C), C, true)
  {
    hide Structured, Placed, SettledExcept, CallsOk, ReadyOk, IdleOk, DispatchOk;
    hide InOrder, EnteredInOrder, TimedOut, Without;
    StillSettled(k.S());
    ghost var _ := k.Tick([C]);
  }

  // The timeout of C expires; C runs again, and nothing else has changed.
  method ThirdGivesUp(k: Kernel)
    requires Scene(k, Some(A), Some(B), IDLE_TASK, map[A := 1, B := 0, C := 0])
    requires k.tcb[A].status == k.tcb[B].status == k.tcb[C].status == Blocked && k.tcb[C].armed
    requires k.tcb[1].status == Sleeping
    modifies k
    ensures Scene(k, Some(A), Some(B), C, map[A := 1, B := 0, C := 0]) && Deadlock(k.S())
    ensures k.tcb[A].prio == k.tcb[B].prio == 0
    ensures k.tcb[1].status == Sleeping && k.tcb[IDLE_TASK].status == Ready
  {
    hide Structured, Placed, SettledExcept, CallsOk, ReadyOk, IdleOk, DispatchOk;
    hide TakenFirst, SwitchedTo, PutBack, PutFront, Without;
    ghost var s := k.S();
    Locked(s, k.calls);
    Lowest(s, k.calls, Some(A), Some(B));
    ThirdTimesOut(k);
    StillDeadlocked(s);
    ghost var expired := k.S();
    k.Swtch();
    assert k.tcb[k.run].prio <= k.tcb[C].prio;
    OnlyTurned(expired, k.S());
  }

  lemma StillDeadlocked(s: Net)
    requires Deadlock(s) && Structured(s) && s.tcb[C].waitQ == Some(0) && C in s.q[0]
    ensures Deadlock(BecameReady(Unlinked(s, C), C, true))
  {
    WithoutFacts(s.q[0], C);
  }

  lemma OnlyTurned(s: Net, s2: Net)
    requires Deadlock(s) && Turned(s, s2)
    ensures Deadlock(s2) && forall t: nat :: t < 5 ==> s2.tcb[t].prio == s.tcb[t].prio
  {
    forall t: nat | t < 5 ensures s2.tcb[t] == s.tcb[t].(status := s2.tcb[t].status, schLock := s2.tcb[t].schLock) {
    }
  }

  // C returns. A and B stay at its priority, which nobody demands any more.
  method Reached() returns (k: Kernel)
    ensures fresh(k) && k.Inv() && Deadlock(k.S()) && !NoCycleBehind(k.S(), A)
    ensures k.tcb[A].prio == k.tcb[B].prio == 0
    ensures forall t: nat, c: nat :: t in {A, B} && TransitiveDemand(k.S(), t, c) ==> c in {5, 6}
  {
    hide Structured, Placed, SettledExcept, CallsOk, ReadyOk, IdleOk, DispatchOk;
    k := AllBlock();
    ThirdGivesUp(k);
    var _ := k.MutexLockResume(0);
    Circle(k.S());
    forall t: nat, c: nat | t in {A, B} && TransitiveDemand(k.S(), t, c) ensures c in {5, 6} {
      NobodyDemands(k.S(), t, c);
    }
  }
}
