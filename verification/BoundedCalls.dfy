// The kernel and the timeout list together: every task has a node in the list, a bounded blocking call
// or a sleep arms it, a hand-off disarms it, and a tick times out exactly the tasks that are due.
module BoundedCalls {
  import opened Prelude
  import opened KernelState
  import opened Kernel
  import opened NetSteps
  import opened SchedSteps
  import opened Queues
  import opened QueueOrder
  import opened TimeoutSpec
  import opened TimeoutList

  // The list holds the nodes of exactly those tasks, each with the ticks that are left until it is due.
  ghost predicate Timed(tcb: seq<Tcb>, nodes: seq<Node>, pending: map<Node, nat>, now: nat, due: map<nat, nat>) {
    && |nodes| == |tcb| && NoDup(nodes) && (forall n :: n in pending ==> n in nodes)
    && (forall t: nat :: t < |tcb| ==> (nodes[t] in pending <==> Expirable(tcb[t])))
    && (forall t: nat :: t < |tcb| && nodes[t] in pending ==>
          t in due && pending[nodes[t]] >= 1 && due[t] == now + pending[nodes[t]])
  }

  // The tasks in gained start to be timed, those in lost are not timed any more.
  ghost predicate Shift(tcb: seq<Tcb>, tcb2: seq<Tcb>, gained: set<nat>, lost: set<nat>) {
    && |tcb2| == |tcb|
    && forall t: nat :: t < |tcb| ==>
         (Expirable(tcb2[t]) <==> t in gained || (t !in lost && Expirable(tcb[t])))
  }

  // A task that is timed stays so as long as it is blocked.
  ghost predicate StaysArmed(tcb: seq<Tcb>, tcb2: seq<Tcb>) {
    && |tcb2| == |tcb|
    && forall t: nat :: t < |tcb| && Expirable(tcb[t]) && tcb2[t].status == Blocked ==> Expirable(tcb2[t])
  }

  lemma ArmedUnlessLost(tcb: seq<Tcb>, tcb2: seq<Tcb>, gained: set<nat>, lost: set<nat>)
    requires Shift(tcb, tcb2, gained, lost)
    requires forall t: nat :: t in lost && t < |tcb2| ==> tcb2[t].status != Blocked
    ensures StaysArmed(tcb, tcb2)
  {
  }

  lemma NodeOf(tcb: seq<Tcb>, nodes: seq<Node>, pending: map<Node, nat>, now: nat, due: map<nat, nat>, t: nat)
    requires Timed(tcb, nodes, pending, now, due) && t < |tcb|
    ensures |nodes| == |tcb| && nodes[t] in nodes && (nodes[t] in pending <==> Expirable(tcb[t]))
  {
  }

  lemma StillTimed(tcb: seq<Tcb>, tcb2: seq<Tcb>, nodes: seq<Node>, pending: map<Node, nat>, now: nat,
                   due: map<nat, nat>)
    requires Timed(tcb, nodes, pending, now, due) && Shift(tcb, tcb2, {}, {})
    ensures Timed(tcb2, nodes, pending, now, due)
  {
  }

  lemma NowTimed(tcb: seq<Tcb>, tcb2: seq<Tcb>, nodes: seq<Node>, pending: map<Node, nat>, now: nat, due: map<nat, nat>,
                 t: nat, timeout: nat)
    requires Timed(tcb, nodes, pending, now, due) && Shift(tcb, tcb2, {t}, {}) && t < |tcb| && timeout >= 1
    ensures Timed(tcb2, nodes, pending[nodes[t] := timeout], now, due[t := now + timeout])
  {
  }

  lemma NotTimed(tcb: seq<Tcb>, tcb2: seq<Tcb>, nodes: seq<Node>, pending: map<Node, nat>, now: nat,
                 due: map<nat, nat>, t: nat)
    requires Timed(tcb, nodes, pending, now, due) && Shift(tcb, tcb2, {}, {t}) && t < |tcb|
    ensures Timed(tcb2, nodes, pending - {nodes[t]}, now, due)
  {
  }

  // Those that had one tick left are gone.
  lemma TickTimed(tcb: seq<Tcb>, tcb2: seq<Tcb>, nodes: seq<Node>, pending: map<Node, nat>, now: nat,
                  due: map<nat, nat>, gone: set<nat>)
    requires Timed(tcb, nodes, pending, now, due) && Shift(tcb, tcb2, {}, gone)
    requires forall t: nat :: t < |tcb| ==> (t in gone <==> nodes[t] in pending && pending[nodes[t]] == 1)
    ensures Timed(tcb2, nodes, Ticked(pending), now + 1, due)
  {
  }

  lemma SameShapeShift(tcb: seq<Tcb>, a: Net, b: Net, gained: set<nat>, lost: set<nat>)
    requires Shift(tcb, a.tcb, gained, lost) && SameShape(a, b)
    ensures Shift(tcb, b.tcb, gained, lost)
  {
    forall t: nat | t < |a.tcb| ensures a.tcb[t].(prio := b.tcb[t].prio) == b.tcb[t] {
    }
  }

  // What an unlock of mutex m by task t does to the network.
  ghost predicate Unlocked(s: Net, s2: Net, t: nat, m: nat, r: UnlockResult) {
    && t < |s.tcb| && m < |s.mtx| && (r.Released? <==> s.mtx[m].lock && s.mtx[m].owner == Some(t))
    && if !r.Released? then s2 == s
       else
         && m < |s.q| && m in s.tcb[t].owned
         && if s.q[m] == [] then s2 == NetSteps.Released(s, t, m)
            else
              var w := s.q[m][0];
              w < |s.tcb| && w != t && SameShape(BecameReady(HandedOver(s, t, m), w, false), s2)
  }

  // The node of the waiter it passes the mutex to.
  ghost function Woken(s: Net, m: nat, r: UnlockResult, nodes: seq<Node>): set<Node> {
    if r.Released? && m < |s.q| && s.q[m] != [] && s.q[m][0] < |nodes| then {nodes[s.q[m][0]]} else {}
  }

  class System {
    const k: Kernel
    const list: TimeoutList
    const nodes: seq<Node>         // the timeout node of each task
    var now: nat
    ghost var due: map<nat, nat>   // when the last bounded wait of a task is over

    ghost predicate Valid()
      reads this, k, list, list.pool
    {
      && k.Inv() && list.Valid() && (forall n :: n in nodes ==> n in list.pool)
      && Timed(k.tcb, nodes, list.Pending(), now, due)
    }

    constructor (k: Kernel, list: TimeoutList, nodes: seq<Node>)
      requires k.Inv() && list.Valid() && list.Pending() == map[] && |nodes| == |k.tcb| && NoDup(nodes)
      requires forall n :: n in nodes ==> n in list.pool
      requires forall t: nat :: t < |k.tcb| ==> !Expirable(k.tcb[t])
      ensures Valid() && this.k == k && this.list == list && this.nodes == nodes && now == 0
    {
      this.k, this.list, this.nodes, now, due := k, list, nodes, 0, map[];
    }

    // Everything but that the list is up to date; was is the task table it is up to date with.
    ghost predicate Before(was: seq<Tcb>)
      reads this, k, list, list.pool
    {
      && k.Inv() && list.Valid() && (forall n :: n in nodes ==> n in list.pool)
      && Timed(was, nodes, list.Pending(), now, due)
    }

    method StartTimer(t: nat, timeout: nat, ghost was: seq<Tcb>)
      requires Before(was) && t < |was| && !Expirable(was[t]) && Shift(was, k.tcb, {t}, {})
      requires 1 <= timeout <= MAX_PERIOD
      modifies this`due, list`head, list`nodes, list`left, list.pool
      ensures Valid() && t < |nodes| && due == old(due)[t := now + timeout]
      ensures list.Pending() == old(list.Pending())[nodes[t] := timeout]
    {
      hide Timed, Shift, Expirable, Kernel.Inv, TimeoutList.Linked, Positive, TimeoutList.Pending;
      NodeOf(was, nodes, list.Pending(), now, due, t);
      NotArmed(list, nodes[t]);
      var _ := list.Add(nodes[t], timeout);
      NowTimed(was, k.tcb, nodes, old(list.Pending()), now, due, t, timeout);
      due := due[t := now + timeout];
    }

    method StopTimer(t: nat, ghost was: seq<Tcb>)
      requires Before(was) && t < |was| && Shift(was, k.tcb, {}, {t})
      modifies list`head, list`nodes, list`left, list.pool
      ensures Valid() && t < |nodes| && list.Pending() == old(list.Pending()) - {nodes[t]}
    {
      hide Timed, Shift, Kernel.Inv, TimeoutList.Linked, Positive, TimeoutList.Pending;
      NodeOf(was, nodes, list.Pending(), now, due, t);
      var _ := list.Disarm(nodes[t]);
      NotTimed(was, k.tcb, nodes, old(list.Pending()), now, due, t);
    }

    // A lock call with a timeout, up to the point where the caller may be switched out.
    method Lock(m: nat, timeout: nat) returns (r: LockResult)
      requires Valid() && m < |k.mtx| && timeout <= WAIT_FOREVER
      requires k.tcb[k.run].status == Running && k.run != IDLE_TASK && k.run !in k.calls
      modifies this`due, k, list`head, list`nodes, list`left, list.pool
      ensures Valid() && StaysArmed(old(k.tcb), k.tcb)
      ensures r.Acquired? <==> !old(k.mtx)[m].lock
      ensures r.MustWait? <==>
                && old(k.mtx)[m].lock && old(k.mtx)[m].owner != Some(old(k.run))
                && timeout != NO_WAIT && !(MAX_PERIOD < timeout < WAIT_FOREVER)
      ensures r.Acquired? ==> k.S() == NetSteps.Acquired(old(k.S()), old(k.run), m)
      ensures r.MustWait? ==>
                m < |old(k.q)| && SameShape(Waiting(old(k.S()), old(k.run), m, 0, timeout != WAIT_FOREVER), k.S())
      ensures !r.Acquired? && !r.MustWait? ==> k.S() == old(k.S())
      ensures r.MustWait? && timeout != WAIT_FOREVER ==>
                && due == old(due)[old(k.run) := now + timeout]
                && old(k.run) < |k.tcb| && Expirable(k.tcb[old(k.run)])
      ensures !r.MustWait? || timeout == WAIT_FOREVER ==> due == old(due) && list.Pending() == old(list.Pending())
    {
      hide Timed, Shift, StaysArmed, SameShape, Structured, Placed, SettledExcept, CallsOk, ReadyOk, DispatchOk, IdleOk;
      hide TimeoutList.Linked, Positive, TimeoutList.Pending;
      var t := k.run;
      ghost var was := k.S();
      r := k.MutexLock(m, timeout);
      Locking(was, k.S(), t, m, timeout, r);
      if r.MustWait? && timeout != WAIT_FOREVER {
        StartTimer(t, timeout, was.tcb);
      } else {
        StillTimed(was.tcb, k.tcb, nodes, list.Pending(), now, due);
      }
    }

    // An unlock call; the waiter it passes the mutex to is not timed any more.
    method Unlock(m: nat) returns (r: UnlockResult)
      requires Valid() && m < |k.mtx| && k.tcb[k.run].status == Running && k.run !in k.calls
      modifies k, list`head, list`nodes, list`left, list.pool
      ensures Valid() && StaysArmed(old(k.tcb), k.tcb)
      ensures Unlocked(old(k.S()), k.S(), old(k.run), m, r)
      ensures list.Pending() == old(list.Pending()) - Woken(old(k.S()), m, r, nodes)
    {
      hide Timed, Shift, StaysArmed, SameShape, Structured, Placed, SettledExcept, CallsOk, ReadyOk, DispatchOk, IdleOk;
      hide TimeoutList.Linked, Positive, TimeoutList.Pending;
      ghost var was := k.S();
      var waiters := if m < |k.q| then k.q[m] else [];
      ghost var t := k.run;
      r := k.MutexUnlock(m);
      Unlocking(was, k.S(), t, m, r);
      if r.Released? && waiters != [] {
        StopTimer(waiters[0], was.tcb);
      } else {
        StillTimed(was.tcb, k.tcb, nodes, list.Pending(), now, due);
      }
    }

    // The running task returns from a blocking lock.
    method Return(m: nat) returns (timedOut: bool)
      requires Valid() && m < |k.mtx| && k.tcb[k.run].status == Running && k.run in k.calls && k.calls[k.run] == m
      modifies k
      ensures Valid() && StaysArmed(old(k.tcb), k.tcb) && k.run == old(k.run) && k.run < |old(k.tcb)|
      ensures k.S() == Resumed(old(k.S()), k.run) && k.calls == old(k.calls) - {k.run}
      ensures (timedOut <==> m < |k.mtx| && k.mtx[m].owner != Some(k.run))
    {
      hide Timed, Shift, StaysArmed, SameShape, Structured, Placed, SettledExcept, CallsOk, ReadyOk, DispatchOk, IdleOk;
      hide TimeoutList.Linked, Positive, TimeoutList.Pending;
      ghost var was := k.S();
      timedOut := k.MutexLockResume(m);
      Returning(was, k.S(), k.run);
      StillTimed(was.tcb, k.tcb, nodes, list.Pending(), now, due);
    }

    method SleepFor(ticks: nat) returns (r: SleepResult)
      requires Valid() && k.tcb[k.run].status == Running && k.run != IDLE_TASK && k.run !in k.calls
      modifies this`due, k, list`head, list`nodes, list`left, list.pool
      ensures Valid() && StaysArmed(old(k.tcb), k.tcb)
      ensures r == if ticks > MAX_PERIOD then TooLong else if ticks == 0 then NoSleep else Asleep
      ensures due == if r.Asleep? then old(due)[old(k.run) := now + ticks] else old(due)
      ensures !r.Asleep? ==> k.S() == old(k.S())
      ensures r.Asleep? ==>
                var w, t := old(k.tcb), old(k.run);
                k.S() == old(k.S()).(tcb := w[t := w[t].(status := Sleeping)])
    {
      hide Timed, Shift, StaysArmed, SameShape, Structured, Placed, SettledExcept, CallsOk, ReadyOk, DispatchOk, IdleOk;
      hide TimeoutList.Linked, Positive, TimeoutList.Pending;
      ghost var was := k.S();
      var t := k.run;
      r := k.Sleep(ticks);
      Sleeps(was.tcb, k.tcb, t, r);
      if r.Asleep? {
        StartTimer(t, ticks, was.tcb);
      } else {
        StillTimed(was.tcb, k.tcb, nodes, list.Pending(), now, due);
      }
    }

    method Wake(t: nat)
      requires Valid() && t < |k.tcb| && k.tcb[t].status == Sleeping
      modifies k, list`head, list`nodes, list`left, list.pool
      ensures Valid() && t < |k.tcb| && k.tcb[t].status == Ready && StaysArmed(old(k.tcb), k.tcb)
      ensures k.S() == BecameReady(old(k.S()), t, old(k.tcb)[t].timeOut)
      ensures t < |nodes| && list.Pending() == old(list.Pending()) - {nodes[t]}
    {
      hide Timed, Shift, StaysArmed, SameShape, Structured, Placed, SettledExcept, CallsOk, ReadyOk, DispatchOk, IdleOk;
      hide TimeoutList.Linked, Positive, TimeoutList.Pending;
      ghost var was := k.S();
      k.WakeSleeper(t);
      Wakes(was, t);
      StopTimer(t, was.tcb);
    }

    method Switch()
      requires Valid()
      modifies k
      ensures Valid() && StaysArmed(old(k.tcb), k.tcb)
      ensures Turned(old(k.S()), k.S()) && !k.pendSv && k.run < |k.tcb| && k.tcb[k.run].status == Running
      ensures forall t: nat :: t < |k.tcb| && k.tcb[t].status == Ready ==> k.tcb[k.run].prio <= k.tcb[t].prio
    {
      hide Timed, Shift, StaysArmed, SameShape, Structured, Placed, SettledExcept, CallsOk, ReadyOk, DispatchOk, IdleOk;
      hide TimeoutList.Linked, Positive, TimeoutList.Pending;
      ghost var was := k.S();
      k.Swtch();
      SwitchShift(was, k.S(), k.run);
      StillTimed(was.tcb, k.tcb, nodes, list.Pending(), now, due);
    }

    // The task a node belongs to.
    method OwnerOf(n: Node) returns (t: nat)
      requires n in nodes
      ensures t < |nodes| && nodes[t] == n
    {
      t := 0;
      while nodes[t] != n
        invariant t < |nodes| && n !in nodes[..t]
        decreases |nodes| - t
      {
        assert nodes[..t + 1] == nodes[..t] + [nodes[t]];
        assert nodes == nodes[..t + 1] + nodes[t + 1..];
        t := t + 1;
      }
    }

    method OwnersOf(expired: seq<Node>) returns (tasks: seq<nat>)
      requires forall n :: n in expired ==> n in nodes
      ensures |tasks| == |expired|
      ensures forall i: nat :: i < |tasks| ==> tasks[i] < |nodes| && nodes[tasks[i]] == expired[i]
    {
      tasks := [];
      for i := 0 to |expired|
        invariant |tasks| == i
        invariant forall j: nat :: j < i ==> tasks[j] < |nodes| && nodes[tasks[j]] == expired[j]
      {
        var t := OwnerOf(expired[i]);
        tasks := tasks + [t];
      }
    }

    // One tick on the list, and the tasks whose nodes it expires.
    method DueNow() returns (tasks: seq<nat>)
      requires Valid()
      modifies list`head, list`nodes, list`left, list.pool
      ensures list.Valid() && list.Pending() == Ticked(old(list.Pending()))
      ensures NoDup(tasks) && forall i: nat :: i < |tasks| ==> tasks[i] < |k.tcb| && Expirable(k.tcb[tasks[i]])
      ensures |nodes| == |k.tcb|
      ensures forall t: nat :: t < |k.tcb| ==>
                (t in tasks <==> nodes[t] in old(list.Pending()) && old(list.Pending())[nodes[t]] == 1)
      ensures ListOrder(tasks, nodes, old(list.nodes))
    {
      hide Timed, Kernel.Inv, Ticked, NoDup, TimeoutList.Linked, Positive, TimeoutList.Pending;
      ghost var pending := list.Pending();
      PendingNodes(k.tcb, nodes, pending, now, due);
      var expired := list.HandleTick();
      tasks := OwnersOf(expired);
      DueTasks(k.tcb, nodes, pending, now, due, expired, tasks);
    }

    // A tick times out exactly the tasks that are due.
    method Tick()
      requires Valid()
      modifies this`now, k, list`head, list`nodes, list`left, list.pool
      ensures Valid() && now == old(now) + 1 && |k.tcb| == |old(k.tcb)| && StaysArmed(old(k.tcb), k.tcb)
      ensures list.Pending() == Ticked(old(list.Pending()))
      ensures forall t: nat :: t < |k.tcb| && old(Expirable(k.tcb[t])) ==>
                && t in due
                && (if due[t] == now
                    then k.tcb[t].status == Ready && (old(k.tcb)[t].status == Blocked ==> k.tcb[t].timeOut)
                    else due[t] > now && k.tcb[t].status == old(k.tcb)[t].status)
      ensures forall t: nat :: t < |k.tcb| && !old(Expirable(k.tcb[t])) ==> k.tcb[t].status == old(k.tcb)[t].status
      // tasks come behind their equals, and those due on this tick in the order of the timeout list
      ensures InOrder(old(k.Now()), k.Now(), true)
      ensures forall t: nat, u: nat {:trigger InTurn(old(k.tcb), k.tcb, k.ready, t, u)} ::
                (&& t < |nodes| && u < |nodes| && old(list.IsDue(nodes[t])) && old(list.IsDue(nodes[u]))
                 && Ahead(old(list.nodes), nodes[t], nodes[u])) ==> InTurn(old(k.tcb), k.tcb, k.ready, t, u)
    {
      hide Timed, Shift, StaysArmed, SameShape, Structured, Placed, SettledExcept, CallsOk, ReadyOk, DispatchOk, IdleOk;
      hide TimeoutList.Linked, Positive, TimeoutList.Pending;
      hide TimedOut, Ticked, NoDup, Expirable;
      hide InOrder, EnteredInOrder, InTurn, Ahead, ListOrder;
      ghost var was, pending, order := k.S(), list.Pending(), list.nodes;
      NodesDistinct(list, k.tcb, nodes, pending, now, due);
      var tasks := DueNow();
      forall i: nat | i < |tasks| ensures k.CanExpire(tasks[i]) {
        CanBeTimedOut(k, tasks[i]);
      }
      ghost var _ := k.Tick(tasks);
      now := now + 1;
      ghost var gone := set t | t in tasks;
      Expires(was, k.S(), nodes, pending, now - 1, due, tasks, gone);
      TickTimed(was.tcb, k.tcb, nodes, pending, now - 1, due, gone);
      forall t: nat, u: nat {:trigger InTurn(was.tcb, k.tcb, k.ready, t, u)}
        | t < |nodes| && u < |nodes| && t in tasks && u in tasks && Ahead(order, nodes[t], nodes[u])
        ensures InTurn(was.tcb, k.tcb, k.ready, t, u)
      {
        DueInTurn(was.tcb, k.tcb, k.ready, tasks, nodes, order, t, u);
      }
    }
  }

  // ---- runs ------------------------------------------------------------------------------------

  datatype Step =
    | LockStep(mutex: nat, timeout: nat)
    | UnlockStep(mutex: nat)
    | ReturnStep
    | SleepStep(ticks: nat)
    | WakeStep(task: nat)
    | SwitchStep
    | TickStep

  function Ticks(steps: seq<Step>): nat {
    if steps == [] then 0 else Ticks(steps[..|steps| - 1]) + if steps[|steps| - 1].TickStep? then 1 else 0
  }

  // Steps whose precondition does not hold in the present state are skipped. A task that is blocked
  // starts no call, so its deadline stays.
  method Do(s: System, step: Step)
    requires s.Valid()
    modifies s, s.k, s.list`head, s.list`nodes, s.list`left, s.list.pool
    ensures s.Valid() && StaysArmed(old(s.k.tcb), s.k.tcb) && s.now == old(s.now) + if step.TickStep? then 1 else 0
    ensures forall t: nat :: t < |old(s.k.tcb)| && old(s.k.tcb)[t].status == Blocked && t in old(s.due) ==>
              t in s.due && s.due[t] == old(s.due)[t]
  {
    hide Timed, StaysArmed, Structured, Placed, SettledExcept, CallsOk, ReadyOk, DispatchOk, IdleOk;
    hide TimeoutList.Linked, Positive, TimeoutList.Pending;
    Same(s.k.tcb);
    var k := s.k;
    var mayCall := k.tcb[k.run].status == Running && k.run !in k.calls;
    match step
    case LockStep(m, timeout) =>
      if mayCall && k.run != IDLE_TASK && m < |k.mtx| && timeout <= WAIT_FOREVER {
        var _ := s.Lock(m, timeout);
      }
    case UnlockStep(m) =>
      if mayCall && m < |k.mtx| {
        var _ := s.Unlock(m);
      }
    case ReturnStep =>
      if k.tcb[k.run].status == Running && k.run in k.calls && k.calls[k.run] < |k.mtx| {
        var _ := s.Return(k.calls[k.run]);
      }
    case SleepStep(ticks) =>
      if mayCall && k.run != IDLE_TASK {
        var _ := s.SleepFor(ticks);
      }
    case WakeStep(t) =>
      if t < |k.tcb| && k.tcb[t].status == Sleeping {
        s.Wake(t);
      }
    case SwitchStep =>
      s.Switch();
    case TickStep =>
      s.Tick();
  }

  lemma Same(tcb: seq<Tcb>)
    ensures StaysArmed(tcb, tcb)
  {
  }

  // Follow a task in a bounded wait until it is not blocked any more. That is no later than its
  // deadline: when enough ticks have passed, the wait is over, however the other tasks behave.
  method Follow(s: System, t: nat, steps: seq<Step>) returns (over: bool, n: nat)
    requires s.Valid() && t < |s.k.tcb| && s.k.tcb[t].status == Blocked && s.k.tcb[t].armed
    modifies s, s.k, s.list`head, s.list`nodes, s.list`left, s.list.pool
    ensures s.Valid() && t < |s.k.tcb| && n <= |steps| && s.now == old(s.now) + Ticks(steps[..n])
    ensures t in old(s.due)
    ensures over <==> s.k.tcb[t].status != Blocked
    ensures !over ==> n == |steps| && s.now < old(s.due)[t]
    ensures s.now <= old(s.due)[t]
    ensures old(s.now) + Ticks(steps) >= old(s.due)[t] ==> over
  {
    hide System.Valid, StaysArmed, Ticks;
    NoTicksYet();
    n := 0;
    DueLater(s, t);
    while n < |steps| && s.k.tcb[t].status == Blocked
      invariant n <= |steps| && s.Valid() && t < |s.k.tcb| && s.now == old(s.now) + Ticks(steps[..n])
      invariant t in s.due && t in old(s.due) && s.due[t] == old(s.due)[t] && s.now <= s.due[t]
      invariant s.k.tcb[t].status == Blocked ==> Expirable(s.k.tcb[t]) && s.now < s.due[t]
    {
      ghost var was := s.k.tcb;
      MoreTicks(steps, n);
      Do(s, steps[n]);
      StillArmed(was, s.k.tcb, t);
      n := n + 1;
      if s.k.tcb[t].status == Blocked {
        DueLater(s, t);
      }
    }
    over := s.k.tcb[t].status != Blocked;
    assert steps[..|steps|] == steps;
  }

  lemma NoTicksYet()
    ensures Ticks([]) == 0
  {
  }

  lemma MoreTicks(steps: seq<Step>, n: nat)
    requires n < |steps|
    ensures Ticks(steps[..n + 1]) == Ticks(steps[..n]) + if steps[n].TickStep? then 1 else 0
  {
    assert steps[..n + 1][..n] == steps[..n];
  }

  lemma DueLater(s: System, t: nat)
    requires s.Valid() && t < |s.k.tcb| && Expirable(s.k.tcb[t])
    ensures t in s.due && s.now < s.due[t]
  {
  }

  lemma StillArmed(tcb: seq<Tcb>, tcb2: seq<Tcb>, t: nat)
    requires StaysArmed(tcb, tcb2) && t < |tcb| && Expirable(tcb[t])
    ensures t < |tcb2| && (tcb2[t].status == Blocked ==> Expirable(tcb2[t]))
  {
  }

  lemma NotArmed(list: TimeoutList, node: Node)
    requires list.Valid() && node in list.pool && node !in list.Pending()
    ensures !node.armed
  {
    assert node !in list.Pending().Keys;
  }

  lemma Locking(s: Net, s2: Net, t: nat, m: nat, timeout: nat, r: LockResult)
    requires t < |s.tcb| && s.tcb[t].status == Running && m < |s.mtx|
    requires r.Acquired? ==> s2 == NetSteps.Acquired(s, t, m)
    requires r.MustWait? ==> m < |s.q| && SameShape(Waiting(s, t, m, 0, timeout != WAIT_FOREVER), s2)
    requires !r.Acquired? && !r.MustWait? ==> s2 == s
    ensures Shift(s.tcb, s2.tcb, if r.MustWait? && timeout != WAIT_FOREVER then {t} else {}, {})
    ensures StaysArmed(s.tcb, s2.tcb)
    ensures !Expirable(s.tcb[t]) && (r.MustWait? && timeout != WAIT_FOREVER ==> t < |s2.tcb| && Expirable(s2.tcb[t]))
  {
    if r.MustWait? {
      var w := Waiting(s, t, m, 0, timeout != WAIT_FOREVER);
      SameShapeShift(s.tcb, w, s2, if timeout != WAIT_FOREVER then {t} else {}, {});
    }
    ArmedUnlessLost(s.tcb, s2.tcb, if r.MustWait? && timeout != WAIT_FOREVER then {t} else {}, {});
  }

  lemma Unlocking(s: Net, s2: Net, t: nat, m: nat, r: UnlockResult)
    requires t < |s.tcb| && s.tcb[t].status == Running && Unlocked(s, s2, t, m, r)
    ensures r.Released? && s.q[m] != [] ==> Shift(s.tcb, s2.tcb, {}, {s.q[m][0]})
    ensures !(r.Released? && s.q[m] != []) ==> Shift(s.tcb, s2.tcb, {}, {})
    ensures StaysArmed(s.tcb, s2.tcb)
  {
    if r.Released? && s.q[m] != [] {
      var w := s.q[m][0];
      var b := BecameReady(HandedOver(s, t, m), w, false);
      SameShapeShift(s.tcb, b, s2, {}, {w});
      assert b.tcb[w].(prio := s2.tcb[w].prio) == s2.tcb[w];
      ArmedUnlessLost(s.tcb, s2.tcb, {}, {w});
    } else {
      ArmedUnlessLost(s.tcb, s2.tcb, {}, {});
    }
  }

  lemma Returning(s: Net, s2: Net, t: nat)
    requires t < |s.tcb| && s.tcb[t].status == Running && s2 == Resumed(s, t)
    ensures Shift(s.tcb, s2.tcb, {}, {}) && StaysArmed(s.tcb, s2.tcb)
  {
  }

  lemma Sleeps(tcb: seq<Tcb>, tcb2: seq<Tcb>, t: nat, r: SleepResult)
    requires t < |tcb| && tcb[t].status == Running
    requires tcb2 == if r.Asleep? then tcb[t := tcb[t].(status := Sleeping)] else tcb
    ensures Shift(tcb, tcb2, if r.Asleep? then {t} else {}, {}) && !Expirable(tcb[t]) && StaysArmed(tcb, tcb2)
  {
  }

  lemma Wakes(s: Net, t: nat)
    requires t < |s.tcb|
    ensures Shift(s.tcb, BecameReady(s, t, s.tcb[t].timeOut).tcb, {}, {t})
    ensures StaysArmed(s.tcb, BecameReady(s, t, s.tcb[t].timeOut).tcb)
  {
  }

  lemma SwitchShift(s: Net, s2: Net, run: nat)
    requires Turned(s, s2) && run < |s.tcb| && s.tcb[run].status in {Ready, Running} && s2.tcb[run].status == Running
    requires forall t: nat :: t < |s2.tcb| && t != run ==>
               s2.tcb[t].status == if s.tcb[t].status == Running then Ready else s.tcb[t].status
    ensures Shift(s.tcb, s2.tcb, {}, {}) && StaysArmed(s.tcb, s2.tcb)
  {
    forall t: nat | t < |s.tcb|
      ensures s2.tcb[t] == s.tcb[t].(status := s2.tcb[t].status, schLock := s2.tcb[t].schLock)
    {
    }
  }

  lemma CanBeTimedOut(k: Kernel, t: nat)
    requires t < |k.tcb| && Expirable(k.tcb[t])
    ensures k.CanExpire(t)
  {
  }

  lemma PendingNodes(tcb: seq<Tcb>, nodes: seq<Node>, pending: map<Node, nat>, now: nat, due: map<nat, nat>)
    requires Timed(tcb, nodes, pending, now, due)
    ensures |nodes| == |tcb| && forall n :: n in pending ==> n in nodes
  {
  }

  // The owners of the expired nodes are the tasks with one tick left.
  lemma DueTasks(tcb: seq<Tcb>, nodes: seq<Node>, pending: map<Node, nat>, now: nat, due: map<nat, nat>,
                 expired: seq<Node>, tasks: seq<nat>)
    requires Timed(tcb, nodes, pending, now, due) && NoDup(expired) && |tasks| == |expired|
    requires forall n :: n in expired <==> n in pending && pending[n] == 1
    requires forall i: nat :: i < |tasks| ==> tasks[i] < |nodes| && nodes[tasks[i]] == expired[i]
    ensures NoDup(tasks) && forall i: nat :: i < |tasks| ==> tasks[i] < |tcb| && Expirable(tcb[tasks[i]])
    ensures forall t: nat :: t < |tcb| ==> (t in tasks <==> nodes[t] in pending && pending[nodes[t]] == 1)
  {
    forall i: nat | i < |tasks| ensures tasks[i] < |tcb| && Expirable(tcb[tasks[i]]) {
      assert expired[i] in expired;
    }
    forall t: nat | t < |tcb| && nodes[t] in expired ensures t in tasks {
      var i: nat :| i < |expired| && expired[i] == nodes[t];
      assert tasks[i] == t;
    }
    forall t: nat | t < |tcb| && t in tasks ensures nodes[t] in expired {
      var i: nat :| i < |tasks| && tasks[i] == t;
      assert expired[i] in expired;
    }
  }

  // The tasks own the first nodes of the list, one by one.
  ghost predicate ListOrder(tasks: seq<nat>, nodes: seq<Node>, order: seq<Node>) {
    |tasks| <= |order| && forall i: nat :: i < |tasks| ==> tasks[i] < |nodes| && order[i] == nodes[tasks[i]]
  }

  lemma NodesDistinct(list: TimeoutList, tcb: seq<Tcb>, nodes: seq<Node>, pending: map<Node, nat>, now: nat,
                      due: map<nat, nat>)
    requires list.Valid() && Timed(tcb, nodes, pending, now, due)
    ensures NoDup(list.nodes) && NoDup(nodes) && |nodes| == |tcb|
  {
  }

  lemma DueInTurn(tcb: seq<Tcb>, tcb2: seq<Tcb>, ready: seq<seq<nat>>, tasks: seq<nat>, nodes: seq<Node>,
                  order: seq<Node>, t: nat, u: nat)
    requires EnteredInOrder(tcb, tcb2, ready, tasks) && NoDup(order) && ListOrder(tasks, nodes, order)
    requires t < |nodes| && u < |nodes| && t in tasks && u in tasks && Ahead(order, nodes[t], nodes[u])
    ensures InTurn(tcb, tcb2, ready, t, u)
  {
    hide InTurn;
    var i: nat :| i < |tasks| && tasks[i] == t;
    var j: nat :| j < |tasks| && tasks[j] == u;
    var a: nat, b: nat :| a < b < |order| && order[a] == nodes[t] && order[b] == nodes[u];
    assert a == i && b == j;
  }

  lemma Expires(s: Net, s2: Net, nodes: seq<Node>, pending: map<Node, nat>, now: nat, due: map<nat, nat>,
                tasks: seq<nat>, gone: set<nat>)
    requires Timed(s.tcb, nodes, pending, now, due) && TimedOut(s, s2, tasks)
    requires forall t: nat :: t in gone <==> t in tasks
    requires forall t: nat :: t < |s.tcb| ==> (t in tasks <==> nodes[t] in pending && pending[nodes[t]] == 1)
    ensures Shift(s.tcb, s2.tcb, {}, gone) && StaysArmed(s.tcb, s2.tcb)
    ensures forall t: nat :: t < |s.tcb| && Expirable(s.tcb[t]) ==>
              && t in due
              && (if due[t] == now + 1
                  then s2.tcb[t].status == Ready && (s.tcb[t].status == Blocked ==> s2.tcb[t].timeOut)
                  else due[t] > now + 1 && s2.tcb[t].status == s.tcb[t].status)
    ensures forall t: nat :: t < |s.tcb| && !Expirable(s.tcb[t]) ==> s2.tcb[t].status == s.tcb[t].status
  {
    forall t: nat | t < |s.tcb| && t !in tasks ensures s2.tcb[t] == s.tcb[t].(prio := s2.tcb[t].prio) {
    }
  }
}
