// A periodic task on the real timeout list: it computes for as long as it likes, asks for its next
// release, sleeps in the list among the other tasks, and is ready again when the list expires it.
module PeriodicTask {
  import opened Prelude
  import opened PhaseLock
  import opened TimeoutSpec
  import opened TimeoutList

  // The ticks a sleeping task has left in the list; none when it is awake.
  ghost function LeftOf(pending: map<Node, nat>, node: Node): Option<nat> {
    if node in pending then Some(pending[node]) else None
  }

  // Each release comes after its call, within a period of it, on the grid, and before the next call.
  ghost predicate OnGrid(calls: seq<nat>, releases: seq<nat>, period: nat)
    requires period >= 1
  {
    && |releases| <= |calls| <= |releases| + 1
    && (forall i: nat :: i < |releases| ==> releases[i] % period == 0)
    && (forall i: nat :: i < |releases| ==> calls[i] < releases[i] <= calls[i] + period)
    && (forall i: nat :: i < |releases| && i + 1 < |calls| ==> releases[i] <= calls[i + 1])
  }

  // The wake time is the pending release, as far ahead as the list says, or the last one.
  ghost predicate Punctual(left: Option<nat>, now: nat, calls: seq<nat>, releases: seq<nat>, wake: Word, period: nat)
    requires period >= 1
  {
    && OnGrid(calls, releases, period)
    && (releases != [] ==> releases[|releases| - 1] <= now)
    && if left.Some? then
         var next := now + left.value;
         && |calls| == |releases| + 1 && next % period == 0 && wake == Wrap(next)
         && calls[|releases|] <= now < next <= calls[|releases|] + period
       else
         |calls| == |releases| && wake <= now && wake % period == 0
  }

  lemma TickPassed(left: Option<nat>, now: nat, calls: seq<nat>, releases: seq<nat>, wake: Word, period: nat)
    requires 1 <= period && Punctual(left, now, calls, releases, wake, period) && now + 1 < TICK_WRAP
    ensures left.Some? ==> left.value >= 1
    ensures left.None? ==> Punctual(None, now + 1, calls, releases, wake, period)
    ensures left.Some? && left.value > 1 ==> Punctual(Some(left.value - 1), now + 1, calls, releases, wake, period)
    ensures left == Some(1) ==> Punctual(None, now + 1, calls, releases + [now + 1], wake, period)
  {
    if left == Some(1) {
      WrapNear(now + 1);
    }
  }

  lemma CycleEnded(now: Word, calls: seq<nat>, releases: seq<nat>, wake: Word, period: nat)
    requires 1 <= period <= MAX_PERIOD && Punctual(None, now, calls, releases, wake, period)
    ensures var d := ToNextRelease(now, wake, period);
            Punctual(Some(d), now, calls + [now], releases, Wrap(now + d), period)
  {
    var d := ToNextRelease(now, wake, period);
    WrapNear(now - wake);
    SumMod(wake, now - wake + d, period);
  }

  lemma LeftTicked(pending: map<Node, nat>, node: Node)
    ensures LeftOf(Ticked(pending), node) ==
              if node in pending && pending[node] > 1 then Some(pending[node] - 1) else None
    ensures LeftOf(pending, node) == if node in pending then Some(pending[node]) else None
  {
  }

  // What happens next: a tick, the end of a cycle of the task, or somebody else arming or cancelling.
  datatype Event = TickEvent | EndOfCycle | ArmOther(node: Node, timeout: Tick) | CancelOther(node: Node)

  class Periodic {
    const list: TimeoutList
    const node: Node               // the timeout node of the task
    const sleeper: Sleeper
    const period: nat
    var now: nat                   // ticks since start; the counter shows them until it wraps
    var calls: seq<nat>            // when the task ended a cycle, and when it became ready again
    var releases: seq<nat>

    ghost predicate Valid()
      reads this, list, list.pool, sleeper
    {
      && node in list.pool && 1 <= period <= MAX_PERIOD && now < TICK_WRAP && list.Valid()
      && Punctual(LeftOf(list.Pending(), node), now, calls, releases, sleeper.wakeTime, period)
    }

    constructor (list: TimeoutList, node: Node, period: nat)
      requires list.Valid() && node in list.pool && node !in list.Pending() && 1 <= period <= MAX_PERIOD
      ensures Valid() && fresh(sleeper) && this.list == list && this.node == node && this.period == period
      ensures now == 0 && calls == releases == []
    {
      this.list, this.node, this.period := list, node, period;
      sleeper := new Sleeper();
      now, calls, releases := 0, [], [];
    }

    method Tick()
      requires Valid() && now + 1 < TICK_WRAP
      modifies this`now, this`releases, list`head, list`nodes, list`left, list.pool
      ensures Valid() && now == old(now) + 1 && list.Pending() == Ticked(old(list.Pending()))
      ensures releases == old(releases) + if LeftOf(old(list.Pending()), node) == Some(1) then [now] else []
    {
      hide Punctual, Ticked, NoDup, Positive, TimeoutList.Linked, TimeoutList.Pending, LeftOf;
      LeftTicked(list.Pending(), node);
      TickPassed(LeftOf(list.Pending(), node), now, calls, releases, sleeper.wakeTime, period);
      var expired := list.HandleTick();
      now := now + 1;
      if node in expired {
        releases := releases + [now];
      }
    }

    // The task ends its cycle; a task that sleeps does not run.
    method EndCycle()
      requires Valid() && !node.armed
      modifies this`calls, sleeper, list`head, list`nodes, list`left, list.pool
      ensures Valid() && calls == old(calls) + [now]
      ensures list.Pending() == old(list.Pending())[node := ToNextRelease(now, old(sleeper.wakeTime), period)]
    {
      hide Punctual, PlacedAt, Positive, TimeoutList.Linked, TimeoutList.Pending;
      ArmedIff(list, node);
      CycleEnded(now, calls, releases, sleeper.wakeTime, period);
      var r := sleeper.SleepRelease(now, period);
      var _ := list.Add(node, r.ticks);
      calls := calls + [now];
    }

    method Other(event: Event)
      requires Valid() && (event.ArmOther? || event.CancelOther?)
      requires event.node in list.pool && event.node != node
      modifies list`head, list`nodes, list`left, list.pool
      ensures Valid()
      ensures list.Pending() == Apply(old(list.Pending()), if event.ArmOther? then Arm(event.node, event.timeout)
                                                           else Cancel(event.node))
    {
      hide Punctual, PlacedAt, Unlisted, Positive, TimeoutList.Linked, TimeoutList.Pending;
      ArmedIff(list, event.node);
      match event
      case ArmOther(n, t) =>
        if !n.armed {
          var _ := list.Add(n, t);
        }
      case CancelOther(n) =>
        var _ := list.Disarm(n);
    }
  }

  // Until the counter wraps, and whatever the other tasks do with the list, the task becomes ready
  // only at multiples of its period, each time within a period of the call that asked for it.
  method Execute(k: Periodic, events: seq<Event>)
    requires k.Valid()
    requires forall i: nat :: i < |events| && (events[i].ArmOther? || events[i].CancelOther?) ==>
               events[i].node in k.list.pool
    modifies k, k.sleeper, k.list`head, k.list`nodes, k.list`left, k.list.pool
    ensures k.Valid() && OnGrid(k.calls, k.releases, k.period)
    ensures old(k.calls) <= k.calls && old(k.releases) <= k.releases
  {
    hide Punctual, OnGrid, LeftOf, ToNextRelease, TimeoutList.Linked, TimeoutList.Pending, Positive;
    for i := 0 to |events|
      invariant k.Valid() && old(k.calls) <= k.calls && old(k.releases) <= k.releases
    {
      match events[i]
      case TickEvent =>
        if k.now + 1 < TICK_WRAP {
          k.Tick();
        }
      case EndOfCycle =>
        if !k.node.armed {
          k.EndCycle();
        }
      case _ =>
        if events[i].node != k.node {
          k.Other(events[i]);
        }
    }
    Aligned(LeftOf(k.list.Pending(), k.node), k.now, k.calls, k.releases, k.sleeper.wakeTime, k.period);
  }

  lemma ArmedIff(list: TimeoutList, node: Node)
    requires list.Valid() && node in list.pool
    ensures node.armed <==> node in list.Pending()
  {
    assert node in list.Pending().Keys <==> node in list.nodes;
  }

  lemma Aligned(left: Option<nat>, now: nat, calls: seq<nat>, releases: seq<nat>, wake: Word, period: nat)
    requires period >= 1 && Punctual(left, now, calls, releases, wake, period)
    ensures OnGrid(calls, releases, period)
  {
  }
}
