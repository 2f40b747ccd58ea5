// The data the scheduler, the mutexes and the message-ceiling protocol share: the table of task
// control blocks, the mutexes, the asynchronous messages and the waiting queues.
module KernelState {
  import opened Prelude

  // Priorities run from 0 (highest) to 31; the idle task alone has 32.
  const IDLE_PRIO: nat := 32
  const IDLE_TASK: nat := 0
  const POSTPROC_TASK: nat := 1

  datatype Status = Initialised | Ready | Running | Blocked | Sleeping

  datatype Tcb = Tcb(
    nominal: nat,
    prio: nat,                  // effective priority in use
    status: Status,
    preempt: bool,
    schLock: nat,
    waitingFor: Option<nat>,    // mutex this task is blocked on
    waitQ: Option<nat>,         // waiting queue recorded in the timeout node
    armed: bool,                // a blocking timeout is armed
    timeOut: bool,              // the last bounded wait expired
    owned: seq<nat>,            // mutexes owned, in acquisition order
    mesgs: seq<nat>             // asynchronous messages owned
  )

  // A task whose timeout runs: asleep, or blocked with a timeout armed.
  predicate Expirable(x: Tcb) {
    x.status == Sleeping || (x.status == Blocked && x.armed)
  }

  datatype Mutex = Mutex(lock: bool, inherit: bool, owner: Option<nat>)

  // A message carries the ceiling of the pool it came from, if that pool has one.
  datatype Mesg = Mesg(owner: Option<nat>, ceiling: Option<nat>)

  // Queue m < |mtx| is the waiting queue of mutex m; the others belong to message pools.
  datatype Net = Net(tcb: seq<Tcb>, mtx: seq<Mutex>, mesg: seq<Mesg>, q: seq<seq<nat>>)

  // ---- priority demands ------------------------------------------------------------------

  // A priority task t is entitled to on its own account: nominal, or a ceiling of an owned message.
  ghost predicate Demand(s: Net, t: nat, c: nat) {
    && t < |s.tcb|
    && (|| c == s.tcb[t].nominal
        || exists x: nat :: x in s.tcb[t].mesgs && x < |s.mesg| && s.mesg[x].ceiling == Some(c))
  }

  // Task w waits in the queue of an inheriting mutex that t owns.
  ghost predicate Donates(s: Net, w: nat, t: nat) {
    && w < |s.tcb|
    && s.tcb[w].waitingFor.Some?
    && var m := s.tcb[w].waitingFor.value;
    && m < |s.mtx| && m < |s.q|
    && s.mtx[m].inherit && s.mtx[m].owner == Some(t)
    && w in s.q[m]
  }

  // p is the from-scratch effective priority of t: the least of its demands and of the effective
  // priorities of the tasks it blocks through inheriting mutexes.
  ghost predicate IsEff(s: Net, t: nat, p: nat) {
    && (forall c: nat :: Demand(s, t, c) ==> p <= c)
    && (forall w: nat {:trigger Donates(s, w, t)} :: Donates(s, w, t) ==> p <= s.tcb[w].prio)
    && (Demand(s, t, p) || exists w: nat {:trigger Donates(s, w, t)} :: Donates(s, w, t) && s.tcb[w].prio == p)
  }

  ghost predicate Settled(s: Net, t: nat)
    requires t < |s.tcb|
  {
    IsEff(s, t, s.tcb[t].prio)
  }

  // Every task outside the given set has its from-scratch priority.
  ghost predicate SettledExcept(s: Net, open: set<nat>) {
    forall t: nat :: t < |s.tcb| && t !in open ==> Settled(s, t)
  }

  lemma SettledOne(s: Net, t: nat)
    requires t < |s.tcb|
    ensures SettledExcept(s, {}) ==> IsEff(s, t, s.tcb[t].prio)
  {
    assert SettledExcept(s, {}) ==> Settled(s, t);
  }

  // ---- structure -------------------------------------------------------------------------

  ghost predicate SortedQueue(tcb: seq<Tcb>, s: seq<nat>) {
    && (forall i: nat :: i < |s| ==> s[i] < |tcb|)
    && (forall i: nat, j: nat :: i < j < |s| ==> tcb[s[i]].prio <= tcb[s[j]].prio)
  }

  ghost predicate Sorted(s: Net) {
    forall k: nat :: k < |s.q| ==> SortedQueue(s.tcb, s.q[k])
  }

  // A linked waiter is blocked, remembers its queue, and names the mutex it waits for.
  ghost predicate Waiter(s: Net, k: nat, w: nat) {
    && w < |s.tcb|
    && s.tcb[w].status == Blocked
    && s.tcb[w].waitQ == Some(k)
    && s.tcb[w].waitingFor == (if k < |s.mtx| then Some(k) else None)
  }

  ghost predicate LinksOk(s: Net) {
    && |s.mtx| <= |s.q|
    && (forall k: nat :: k < |s.q| ==> NoDup(s.q[k]))
    && (forall k: nat, w: nat {:trigger w in s.q[k]} :: k < |s.q| && w in s.q[k] ==> Waiter(s, k, w))
  }

  // A mutex is locked exactly when it has an owner; a free mutex has no waiters, and the owner of a
  // mutex does not wait for it.
  ghost predicate LocksOk(s: Net) {
    && |s.mtx| <= |s.q|
    && (forall m: nat :: m < |s.mtx| ==> (s.mtx[m].lock <==> s.mtx[m].owner.Some?))
    && (forall m: nat :: m < |s.mtx| && s.mtx[m].owner.None? ==> s.q[m] == [])
    && (forall m: nat :: m < |s.mtx| && s.mtx[m].owner.Some? ==>
          s.mtx[m].owner.value < |s.tcb| && s.mtx[m].owner.value !in s.q[m])
  }

  // A task's list of owned mutexes holds, once each, exactly the mutexes whose owner it is.
  ghost predicate OwnedOk(s: Net) {
    && (forall t: nat :: t < |s.tcb| ==> NoDup(s.tcb[t].owned))
    && (forall t: nat, m: nat {:trigger m in s.tcb[t].owned} ::
          t < |s.tcb| && m in s.tcb[t].owned ==> m < |s.mtx| && s.mtx[m].owner == Some(t))
    && (forall m: nat :: m < |s.mtx| && s.mtx[m].owner.Some? ==>
          s.mtx[m].owner.value < |s.tcb| && m in s.tcb[s.mtx[m].owner.value].owned)
  }

  // The same for messages.
  ghost predicate MesgsOk(s: Net) {
    && (forall t: nat :: t < |s.tcb| ==> NoDup(s.tcb[t].mesgs))
    && (forall t: nat, x: nat {:trigger x in s.tcb[t].mesgs} ::
          t < |s.tcb| && x in s.tcb[t].mesgs ==> x < |s.mesg| && s.mesg[x].owner == Some(t))
    && (forall x: nat :: x < |s.mesg| && s.mesg[x].owner.Some? ==>
          s.mesg[x].owner.value < |s.tcb| && x in s.tcb[s.mesg[x].owner.value].mesgs)
  }

  ghost predicate WaitsOk(s: Net) {
    && (forall t: nat :: t < |s.tcb| && s.tcb[t].waitingFor.Some? ==>
          s.tcb[t].waitingFor.value < |s.mtx|)
    && (forall t: nat :: t < |s.tcb| && s.tcb[t].waitQ.Some? ==>
          s.tcb[t].waitQ.value < |s.q| && s.tcb[t].status == Blocked)
  }

  ghost predicate Wired(s: Net) {
    LinksOk(s) && LocksOk(s) && OwnedOk(s) && MesgsOk(s) && WaitsOk(s)
  }

  // No effective priority is worse than the nominal one.
  ghost predicate Capped(tcb: seq<Tcb>) {
    forall t: nat :: t < |tcb| ==> tcb[t].prio <= tcb[t].nominal <= IDLE_PRIO
  }

  lemma CappedAt(tcb: seq<Tcb>, t: nat)
    requires Capped(tcb) && t < |tcb|
    ensures tcb[t].prio <= IDLE_PRIO
  {
  }

  // Every blocked task is linked in the queue it remembers.
  ghost predicate Placed(s: Net) {
    forall t: nat :: t < |s.tcb| && s.tcb[t].status == Blocked ==>
      s.tcb[t].waitQ.Some? && s.tcb[t].waitQ.value < |s.q| && t in s.q[s.tcb[t].waitQ.value]
  }

  ghost predicate PlacedExcept(s: Net, w: nat) {
    forall t: nat :: t < |s.tcb| && t != w && s.tcb[t].status == Blocked ==>
      s.tcb[t].waitQ.Some? && s.tcb[t].waitQ.value < |s.q| && t in s.q[s.tcb[t].waitQ.value]
  }

  ghost predicate Linked(s: Net, w: nat) {
    exists j: nat :: j < |s.q| && w in s.q[j]
  }

  // Blocking calls not yet resumed, with the queue each waits in. Until a task resumes it is still
  // linked there; or its timeout expired and it does not own the mutex; or the mutex is its own.
  ghost predicate CallsOk(s: Net, calls: map<nat, nat>) {
    && (forall t: nat :: t in calls ==> t < |s.tcb| && calls[t] < |s.q|)
    && (forall t: nat :: t in calls && s.tcb[t].status == Blocked ==>
          s.tcb[t].waitQ == Some(calls[t]) && !s.tcb[t].timeOut)
    && (forall t: nat :: t in calls && s.tcb[t].status != Blocked ==>
          if s.tcb[t].timeOut
          then s.tcb[t].waitingFor == (if calls[t] < |s.mtx| then Some(calls[t]) else None)
               && (calls[t] < |s.mtx| ==> s.mtx[calls[t]].owner != Some(t))
          else s.tcb[t].waitingFor == None && (calls[t] < |s.mtx| ==> s.mtx[calls[t]].owner == Some(t)))
    && (forall t: nat :: t < |s.tcb| && t !in calls ==>
          s.tcb[t].status != Blocked && !s.tcb[t].timeOut && s.tcb[t].waitingFor == None)
  }

  // The control blocks agree on everything but the effective priority.
  ghost predicate SameButPrio(a: seq<Tcb>, b: seq<Tcb>) {
    && |a| == |b|
    && forall t: nat :: t < |a| ==> a[t].(prio := b[t].prio) == b[t]
  }

  // The same network up to effective priorities and the order inside the queues.
  ghost predicate SameShape(a: Net, b: Net) {
    SameButPrio(a.tcb, b.tcb) && a.mtx == b.mtx && a.mesg == b.mesg && SameMembers(a.q, b.q)
  }

  ghost predicate SameMembers(a: seq<seq<nat>>, b: seq<seq<nat>>) {
    && |a| == |b|
    && forall k: nat :: k < |a| ==> |a[k]| == |b[k]| && forall x: nat :: x in a[k] <==> x in b[k]
  }

  // ---- ready queues ----------------------------------------------------------------------

  // A task is in ready queue p, once, exactly when it is ready with priority p; the mask has
  // bit p < 32 exactly when queue p is not empty.
  ghost predicate ReadyOk(tcb: seq<Tcb>, ready: seq<seq<nat>>, mask: set<nat>) {
    && |ready| == IDLE_PRIO + 1
    && (forall p: nat :: p < |ready| ==> NoDup(ready[p]))
    && (forall p: nat, t: nat {:trigger t in ready[p]} :: p < |ready| && t in ready[p] ==>
          t < |tcb| && tcb[t].status == Ready && tcb[t].prio == p)
    && (forall t: nat :: t < |tcb| && tcb[t].status == Ready ==>
          tcb[t].prio < |ready| && t in ready[tcb[t].prio])
    && (forall p: nat :: p in mask <==> p < IDLE_PRIO && ready[p] != [])
  }

  ghost predicate RunOk(tcb: seq<Tcb>, run: nat) {
    && run < |tcb|
    && (forall t: nat :: t < |tcb| && tcb[t].status == Running ==> t == run)
  }

  // The idle task never blocks.
  ghost predicate IdleOk(tcb: seq<Tcb>) {
    && IDLE_TASK < |tcb|
    && tcb[IDLE_TASK].status in {Ready, Running}
  }

  // A preemptible running task that some ready task should displace has a switch pended, or
  // deferred while the scheduler is locked.
  ghost predicate DispatchOk(tcb: seq<Tcb>, run: nat, schLock: nat, pendSv: bool, deferred: bool)
    requires run < |tcb|
  {
    tcb[run].status == Running && tcb[run].preempt
    && (exists t: nat :: t < |tcb| && tcb[t].status == Ready && tcb[t].prio < tcb[run].prio)
    ==> pendSv || (schLock > 0 && deferred)
  }

  // ---- the start of time -----------------------------------------------------------------

  // Nothing is owned, nobody waits.
  ghost predicate Pristine(s: Net) {
    && |s.mtx| <= |s.q|
    && (forall t: nat :: t < |s.tcb| ==>
          var x := s.tcb[t];
          && x.prio == x.nominal <= IDLE_PRIO && x.status in {Initialised, Ready, Running}
          && x.waitingFor == None && x.waitQ == None && !x.armed && !x.timeOut && x.owned == [] && x.mesgs == [])
    && (forall m: nat :: m < |s.mtx| ==> !s.mtx[m].lock && s.mtx[m].owner == None)
    && (forall x: nat :: x < |s.mesg| ==> s.mesg[x].owner == None)
    && (forall k: nat :: k < |s.q| ==> s.q[k] == [])
  }

  lemma PristineOk(s: Net)
    requires Pristine(s)
    ensures Wired(s) && Sorted(s) && Capped(s.tcb)
    ensures Placed(s) && SettledExcept(s, {}) && CallsOk(s, map[])
  {
    forall t: nat | t < |s.tcb| ensures Settled(s, t) {
      assert Demand(s, t, s.tcb[t].nominal);
    }
  }

  // Tasks starting up.
  lemma PristineTurned(s: Net, s2: Net)
    requires Pristine(s) && |s2.tcb| == |s.tcb| && s2.mtx == s.mtx && s2.mesg == s.mesg && s2.q == s.q
    requires forall t: nat :: t < |s.tcb| ==>
               s2.tcb[t] == s.tcb[t].(status := s2.tcb[t].status) && s2.tcb[t].status in {Initialised, Ready, Running}
    ensures forall t: nat :: t < |s.tcb| ==> !s2.tcb[t].timeOut && !s2.tcb[t].armed && s2.tcb[t].waitQ == None
    ensures Wired(s2) && Sorted(s2) && Capped(s2.tcb)
    ensures Placed(s2) && SettledExcept(s2, {}) && CallsOk(s2, map[])
  {
    hide Wired, Sorted, Capped, Placed, SettledExcept, CallsOk;
    forall t: nat | t < |s.tcb| ensures s2.tcb[t] == s.tcb[t].(status := s2.tcb[t].status) {
    }
    PristineOk(s2);
  }

  // ---- lemmas on one network -------------------------------------------------------------

  lemma EffUnique(s: Net, t: nat, p: nat, r: nat)
    requires IsEff(s, t, p) && IsEff(s, t, r)
    ensures p == r
  {
  }

  // The from-scratch priority only looks at demands and donors.
  lemma EffSame(s: Net, s': Net, t: nat, p: nat)
    requires forall c: nat :: Demand(s, t, c) <==> Demand(s', t, c)
    requires forall w: nat :: Donates(s, w, t) <==> Donates(s', w, t)
    requires forall w: nat :: Donates(s, w, t) && Donates(s', w, t) ==> s.tcb[w].prio == s'.tcb[w].prio
    ensures IsEff(s, t, p) <==> IsEff(s', t, p)
  {
  }
}
