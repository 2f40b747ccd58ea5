// Why one change of priority, followed by one re-insertion, disturbs at most the next task of the
// inheritance chain, and in which direction.
module PriorityWalk {
  import opened Prelude
  import opened KernelState

  // From s to s2 only the priority of c and the order inside the queues have changed.
  ghost predicate Nudged(s: Net, s2: Net, c: nat) {
    && SameShape(s, s2)
    && (forall t: nat :: t < |s.tcb| && t != c ==> s2.tcb[t] == s.tcb[t])
  }

  lemma WiredKept(s: Net, s2: Net)
    requires Wired(s) && SameShape(s, s2)
    requires forall k: nat :: k < |s2.q| ==> NoDup(s2.q[k])
    ensures Wired(s2)
  {
    forall t: nat | t < |s.tcb| ensures s.tcb[t].(prio := s2.tcb[t].prio) == s2.tcb[t] {
    }
    forall m: nat | m < |s.mtx| && s.mtx[m].owner.None? ensures s2.q[m] == [] {
      assert |s2.q[m]| == |s.q[m]|;
    }
  }

  lemma NudgedGraph(s: Net, s2: Net, c: nat)
    requires Nudged(s, s2, c)
    ensures forall t: nat, d: nat :: Demand(s, t, d) <==> Demand(s2, t, d)
    ensures forall t: nat, w: nat :: Donates(s, w, t) <==> Donates(s2, w, t)
  {
    forall t: nat | t < |s.tcb| ensures s.tcb[t].(prio := s2.tcb[t].prio) == s2.tcb[t] {
    }
  }

  // A task that c does not donate to is not affected.
  lemma OthersUnaffected(s: Net, s2: Net, c: nat, t: nat, p: nat)
    requires Nudged(s, s2, c) && !Donates(s, c, t)
    ensures IsEff(s, t, p) <==> IsEff(s2, t, p)
  {
    NudgedGraph(s, s2, c);
    EffSame(s, s2, t, p);
  }

  // No task donates to itself, so a task that has taken its from-scratch value keeps it.
  lemma SelfSettled(s: Net, s2: Net, c: nat)
    requires Wired(s) && Nudged(s, s2, c) && c < |s.tcb| && IsEff(s, c, s2.tcb[c].prio)
    ensures Settled(s2, c)
  {
    OthersUnaffected(s, s2, c, c, s2.tcb[c].prio);
  }

  // The beneficiary of c moves the way c moved.
  lemma MovesAlong(s: Net, s2: Net, c: nat, t: nat, e: nat)
    requires Nudged(s, s2, c) && c < |s.tcb| && t < |s.tcb| && t != c
    requires Settled(s, t) && IsEff(s2, t, e)
    ensures s2.tcb[c].prio <= s.tcb[c].prio ==> e <= s2.tcb[t].prio
    ensures s2.tcb[c].prio >= s.tcb[c].prio ==> e >= s2.tcb[t].prio
  {
    NudgedGraph(s, s2, c);
  }

  // The from-scratch value of t is at most (at least) the one in use.
  ghost predicate Falls(s: Net, t: nat)
    requires t < |s.tcb|
  {
    forall e: nat :: IsEff(s, t, e) ==> e <= s.tcb[t].prio
  }

  ghost predicate Rises(s: Net, t: nat)
    requires t < |s.tcb|
  {
    forall e: nat :: IsEff(s, t, e) ==> e >= s.tcb[t].prio
  }

  ghost predicate Heads(s: Net, t: nat, down: bool)
    requires t < |s.tcb|
  {
    if down then Falls(s, t) else Rises(s, t)
  }

  lemma Moved(s: Net, t: nat, e: nat)
    requires t < |s.tcb| && IsEff(s, t, e)
    ensures Falls(s, t) ==> e <= s.tcb[t].prio
    ensures Rises(s, t) ==> e >= s.tcb[t].prio
  {
  }

  lemma UniqueEff(s: Net, t: nat, p: nat)
    requires t < |s.tcb| && IsEff(s, t, p)
    ensures IsEff(s, t, s.tcb[t].prio) ==> p == s.tcb[t].prio
  {
  }

  lemma FallsOrRises(s: Net, t: nat)
    requires t < |s.tcb|
    ensures Falls(s, t) || Rises(s, t)
  {
    if !Falls(s, t) {
      var e: nat :| IsEff(s, t, e) && e > s.tcb[t].prio;
      forall r: nat | IsEff(s, t, r) ensures r >= s.tcb[t].prio {
        EffUnique(s, t, e, r);
      }
    }
  }

  lemma NowSettled(s: Net, c: nat, open: set<nat>)
    requires c < |s.tcb| && SettledExcept(s, open + {c}) && IsEff(s, c, s.tcb[c].prio)
    ensures SettledExcept(s, open)
  {
    forall t: nat | t < |s.tcb| && t !in open ensures Settled(s, t) {
    }
  }

  lemma SortedQueues(s: Net)
    requires Sorted(s)
    ensures forall k: nat :: k < |s.q| ==> SortedQueue(s.tcb, s.q[k])
  {
  }

  lemma QueuesDistinct(s: Net)
    requires Wired(s)
    ensures forall k: nat :: k < |s.q| ==> NoDup(s.q[k])
  {
  }

  lemma PrioOnly(s: Net, s2: Net, c: nat)
    requires Wired(s) && c < |s.tcb| && |s2.tcb| == |s.tcb|
    requires s2 == s.(tcb := s.tcb[c := s.tcb[c].(prio := s2.tcb[c].prio)])
    ensures Wired(s2)
  {
    WiredKept(s, s2);
  }

  lemma NudgedBy(s: Net, s2: Net, c: nat)
    requires c < |s.tcb| && |s2.tcb| == |s.tcb|
    requires s2.tcb == s.tcb[c := s.tcb[c].(prio := s2.tcb[c].prio)] && s2.mtx == s.mtx && s2.mesg == s.mesg
    requires SameMembers(s.q, s2.q) || s2.q == s.q
    ensures Nudged(s, s2, c)
  {
    assert s2.q == s.q ==> SameMembers(s.q, s2.q);
  }

  // Where the walk goes on from c, if anywhere.
  function Next(s: Net, c: nat): Option<nat> {
    if c < |s.tcb| && s.tcb[c].status == Blocked && s.tcb[c].waitingFor.Some? then
      var m := s.tcb[c].waitingFor.value;
      if m < |s.mtx| && s.mtx[m].inherit then s.mtx[m].owner else None
    else None
  }

  lemma DonatesToNext(s: Net, c: nat, t: nat)
    requires Wired(s) && Donates(s, c, t)
    ensures Next(s, c) == Some(t)
  {
    assert Waiter(s, s.tcb[c].waitingFor.value, c);
  }

  // One iteration of the walk: c takes its from-scratch value and is requeued. Afterwards only the
  // next task can be off besides the open ones, and only in the direction c moved.
  lemma WalkStep(s: Net, s2: Net, c: nat, open: set<nat>)
    requires Wired(s) && c < |s.tcb| && Nudged(s, s2, c) && IsEff(s, c, s2.tcb[c].prio)
    requires SettledExcept(s, open + {c}) && c !in open
    requires forall k: nat :: k < |s2.q| ==> NoDup(s2.q[k])
    ensures Wired(s2) && Next(s2, c) == Next(s, c)
    ensures Next(s, c).None? ==> SettledExcept(s2, open)
    ensures Next(s, c).Some? ==>
              var n := Next(s, c).value;
              && n < |s2.tcb|
              && SettledExcept(s2, open + {n})
              && (n !in open && s2.tcb[c].prio <= s.tcb[c].prio ==> Falls(s2, n))
              && (n !in open && s2.tcb[c].prio >= s.tcb[c].prio ==> Rises(s2, n))
  {
    WiredKept(s, s2);
    SelfSettled(s, s2, c);
    forall t: nat | t < |s.tcb| && t !in open && !Donates(s, c, t) ensures Settled(s2, t) {
      if t != c {
        OthersUnaffected(s, s2, c, t, s.tcb[t].prio);
      }
    }
    forall t: nat | Donates(s, c, t) ensures Next(s, c) == Some(t) {
      DonatesToNext(s, c, t);
    }
    if Next(s, c).Some? {
      var n := Next(s, c).value;
      if n !in open && Donates(s, c, n) {
        forall e: nat | IsEff(s2, n, e)
          ensures s2.tcb[c].prio <= s.tcb[c].prio ==> e <= s2.tcb[n].prio
          ensures s2.tcb[c].prio >= s.tcb[c].prio ==> e >= s2.tcb[n].prio
        {
          MovesAlong(s, s2, c, n, e);
        }
      }
    }
  }

  lemma SameShapeRefl(a: Net)
    ensures SameShape(a, a)
  {
  }

  lemma SameShapeTrans(a: Net, b: Net, c: Net)
    requires SameShape(a, b) && SameShape(b, c)
    ensures SameShape(a, c)
  {
    forall t: nat | t < |a.tcb| ensures a.tcb[t].(prio := c.tcb[t].prio) == c.tcb[t] {
      assert a.tcb[t].(prio := b.tcb[t].prio) == b.tcb[t];
    }
  }

  // Promises that do not mention priorities or queue order carry over.
  lemma ShapeKeeps(a: Net, b: Net, calls: map<nat, nat>)
    requires SameShape(a, b)
    ensures CallsOk(a, calls) ==> CallsOk(b, calls)
    ensures Placed(a) ==> Placed(b)
    ensures forall w: nat :: (PlacedExcept(a, w) ==> PlacedExcept(b, w)) && (Linked(b, w) ==> Linked(a, w))
    ensures IdleOk(a.tcb) ==> IdleOk(b.tcb)
  {
    forall t: nat | t < |a.tcb| ensures a.tcb[t].(prio := b.tcb[t].prio) == b.tcb[t] {
    }
  }

  // ---- the termination measure ------------------------------------------------------------

  function PrioSum(tcb: seq<Tcb>): nat {
    if tcb == [] then 0 else tcb[0].prio + PrioSum(tcb[1..])
  }

  lemma {:induction false} PrioSumUpdate(tcb: seq<Tcb>, c: nat, x: Tcb)
    requires c < |tcb|
    ensures PrioSum(tcb[c := x]) == PrioSum(tcb) - tcb[c].prio + x.prio
  {
    if c == 0 {
      assert tcb[0 := x][1..] == tcb[1..];
    } else {
      assert tcb[c := x][1..] == tcb[1..][c - 1 := x];
      PrioSumUpdate(tcb[1..], c - 1, x);
    }
  }

  lemma {:induction false} PrioSumBound(tcb: seq<Tcb>)
    requires forall t: nat :: t < |tcb| ==> tcb[t].prio <= IDLE_PRIO
    ensures PrioSum(tcb) <= IDLE_PRIO * |tcb|
  {
    if tcb != [] {
      PrioSumBound(tcb[1..]);
    }
  }
}
