// The order inside waiting and ready queues when priorities change: tasks that keep their priority keep
// their order, and a task that arrives, or comes with a new priority, goes behind its equals.
module QueueOrder {
  import opened Prelude
  import opened KernelState
  import opened Queues
  import opened ReadyQueues

  // Task y comes behind task x: it was, or was not in the queue, or had another priority.
  ghost predicate Behind(tcb: seq<Tcb>, q: seq<nat>, tcb2: seq<Tcb>, x: nat, y: nat) {
    y < |tcb| && y < |tcb2| && (y !in q || Ahead(q, x, y) || tcb[y].prio != tcb2[y].prio)
  }

  ghost predicate QueueKept(tcb: seq<Tcb>, q: seq<nat>, tcb2: seq<Tcb>, q2: seq<nat>) {
    forall x: nat, y: nat {:trigger Ahead(q2, x, y)} {:trigger Behind(tcb, q, tcb2, x, y)} ::
      && x in q && x in q2 && x < |tcb| && x < |tcb2| && tcb2[x].prio == tcb[x].prio
      && y in q2 && y != x && y < |tcb2| && tcb2[y].prio == tcb2[x].prio && Behind(tcb, q, tcb2, x, y)
      ==> Ahead(q2, x, y)
  }

  ghost predicate TableKept(tcb: seq<Tcb>, qs: seq<seq<nat>>, tcb2: seq<Tcb>, qs2: seq<seq<nat>>) {
    |qs2| == |qs| && forall k: nat :: k < |qs| ==> QueueKept(tcb, qs[k], tcb2, qs2[k])
  }

  // All priorities have moved in one direction, if at all.
  ghost predicate Shifted(tcb: seq<Tcb>, tcb2: seq<Tcb>, up: bool) {
    && |tcb2| == |tcb|
    && forall t: nat :: t < |tcb| ==> if up then tcb2[t].prio >= tcb[t].prio else tcb2[t].prio <= tcb[t].prio
  }

  // What a walk along the inheritance chain changes.
  datatype Sched = Sched(s: Net, ready: seq<seq<nat>>, mask: set<nat>, pendSv: bool, deferred: bool)

  ghost predicate InOrder(a: Sched, b: Sched, up: bool) {
    && Shifted(a.s.tcb, b.s.tcb, up)
    && TableKept(a.s.tcb, a.s.q, b.s.tcb, b.s.q) && TableKept(a.s.tcb, a.ready, b.s.tcb, b.ready)
  }

  // From a, with ready queues ra, priorities have moved in one direction, if at all, and tasks that came
  // with a new priority have gone behind their equals.
  ghost predicate Followed(a: Net, ra: seq<seq<nat>>, b: Net, rb: seq<seq<nat>>, up: bool) {
    SameShape(a, b) && Shifted(a.tcb, b.tcb, up) && TableKept(a.tcb, a.q, b.tcb, b.q) && TableKept(a.tcb, ra, b.tcb, rb)
  }

  lemma FollowedSelf(a: Net, ra: seq<seq<nat>>)
    ensures Followed(a, ra, a, ra, true) && Followed(a, ra, a, ra, false)
  {
    TableSame(a.tcb, a.tcb, a.q);
    TableSame(a.tcb, a.tcb, ra);
  }

  // ---- one queue -------------------------------------------------------------------------------

  lemma KeptSame(tcb: seq<Tcb>, tcb2: seq<Tcb>, q: seq<nat>)
    requires |tcb2| == |tcb| && forall t: nat :: t < |tcb| && t in q ==> tcb2[t].prio == tcb[t].prio
    ensures QueueKept(tcb, q, tcb2, q)
  {
  }

  lemma KeptSingle(tcb: seq<Tcb>, tcb2: seq<Tcb>, q: seq<nat>)
    requires |q| <= 1
    ensures QueueKept(tcb, q, tcb2, q)
  {
  }

  // Leaving does not disturb the others.
  lemma KeptOrder(tcb: seq<Tcb>, tcb2: seq<Tcb>, q: seq<nat>, q2: seq<nat>)
    requires |tcb2| == |tcb| && OrderKept(q, q2) && forall x :: x in q2 ==> x in q
    requires forall t: nat :: t < |tcb| && t in q2 ==> tcb2[t].prio == tcb[t].prio
    ensures QueueKept(tcb, q, tcb2, q2)
  {
  }

  // A task put in at the slot of its priority, new or taken out before.
  lemma KeptSlot(tcb: seq<Tcb>, tcb2: seq<Tcb>, q: seq<nat>, rest: seq<nat>, i: nat, c: nat)
    requires |tcb2| == |tcb| && c < |tcb| && OrderKept(q, rest) && forall x :: x in rest ==> x in q && x != c
    requires forall t: nat :: t < |tcb| && t != c ==> tcb2[t].prio == tcb[t].prio
    requires c in q ==> tcb2[c].prio != tcb[c].prio
    requires IsPrioSlot(tcb2, rest, tcb2[c].prio, i)
    ensures QueueKept(tcb, q, tcb2, InsertAt(rest, i, c))
  {
    var r := InsertAt(rest, i, c);
    InsertOrder(rest, i, c);
    assert forall x :: x in r ==> x in rest || x == c;
    assert r[i] == c && forall j: nat :: j < i ==> r[j] == rest[j];
    hide InsertAt, OrderKept;
    forall x: nat, y: nat
      | x in q && x in r && x != c && x < |tcb| && y in r && y != x && y < |tcb| && tcb2[y].prio == tcb2[x].prio
        && Behind(tcb, q, tcb2, x, y)
      ensures Ahead(r, x, y)
    {
      assert x in rest;
      if y == c {
        var j: nat :| j < |rest| && rest[j] == x;
        assert j < i;
        assert r[j] == x && r[i] == c;
      } else {
        AheadIn(q, rest, r, x, y);
      }
    }
  }

  lemma AheadIn(q: seq<nat>, rest: seq<nat>, r: seq<nat>, x: nat, y: nat)
    requires OrderKept(q, rest) && OrderKept(rest, r) && x in rest && y in rest && x in r && y in r && Ahead(q, x, y)
    ensures Ahead(r, x, y)
  {
  }

  // At the tail of a queue whose tasks all have one priority.
  lemma KeptTail(tcb: seq<Tcb>, tcb2: seq<Tcb>, q: seq<nat>, rest: seq<nat>, c: nat)
    requires |tcb2| == |tcb| && c < |tcb| && OrderKept(q, rest) && forall x :: x in rest ==> x in q && x != c
    requires forall t: nat :: t < |tcb| && t != c ==> tcb2[t].prio == tcb[t].prio
    requires c in q ==> tcb2[c].prio != tcb[c].prio
    ensures QueueKept(tcb, q, tcb2, rest + [c])
  {
    var r := rest + [c];
    forall x: nat, y: nat
      | x in q && x in r && x != c && x < |tcb| && y in r && y != x && y < |tcb| && tcb2[y].prio == tcb2[x].prio
        && Behind(tcb, q, tcb2, x, y)
      ensures Ahead(r, x, y)
    {
      var j: nat :| j < |rest| && rest[j] == x;
      assert r[j] == x;
      if y == c {
        assert r[|rest|] == c;
      } else {
        assert Ahead(rest, x, y);
        var k: nat, l: nat :| k < l < |rest| && rest[k] == x && rest[l] == y;
        assert r[k] == x && r[l] == y;
      }
    }
  }

  lemma KeptTrans(a: seq<Tcb>, q: seq<nat>, b: seq<Tcb>, q2: seq<nat>, c: seq<Tcb>, q3: seq<nat>)
    requires QueueKept(a, q, b, q2) && QueueKept(b, q2, c, q3) && |a| == |b| == |c|
    requires forall x: nat :: x in q && x in q3 && x < |a| && a[x].prio == c[x].prio ==>
               x in q2 && b[x].prio == a[x].prio
    ensures QueueKept(a, q, c, q3)
  {
    forall x: nat, y: nat
      | x in q && x in q3 && x < |a| && c[x].prio == a[x].prio && y in q3 && y != x && y < |c|
        && c[y].prio == c[x].prio && Behind(a, q, c, x, y)
      ensures Ahead(q3, x, y)
    {
      assert x in q2 && b[x].prio == a[x].prio;
      if y in q2 && b[y].prio == c[y].prio {
        assert Behind(a, q, b, x, y);
        assert Ahead(q2, x, y);
      }
      assert Behind(b, q2, c, x, y);
    }
  }

  // ---- tables of queues ------------------------------------------------------------------------

  lemma TableSame(tcb: seq<Tcb>, tcb2: seq<Tcb>, qs: seq<seq<nat>>)
    requires |tcb2| == |tcb| && forall t: nat :: t < |tcb| ==> tcb2[t].prio == tcb[t].prio
    ensures TableKept(tcb, qs, tcb2, qs)
  {
    forall k: nat | k < |qs| ensures QueueKept(tcb, qs[k], tcb2, qs[k]) {
      KeptSame(tcb, tcb2, qs[k]);
    }
  }

  // Only the priorities of linked tasks matter.
  lemma KeptFrom(tcb: seq<Tcb>, mid: seq<Tcb>, qs: seq<seq<nat>>, tcb2: seq<Tcb>, qs2: seq<seq<nat>>)
    requires TableKept(mid, qs, tcb2, qs2) && |mid| == |tcb|
    requires forall k: nat, t: nat ::
               k < |qs| && t < |tcb| && (t in qs[k] || t in qs2[k]) ==> mid[t].prio == tcb[t].prio
    ensures TableKept(tcb, qs, tcb2, qs2)
  {
    forall k: nat | k < |qs| ensures QueueKept(tcb, qs[k], tcb2, qs2[k]) {
      assert QueueKept(mid, qs[k], tcb2, qs2[k]);
      forall x: nat, y: nat
        | x in qs[k] && x in qs2[k] && x < |tcb| && x < |tcb2| && tcb2[x].prio == tcb[x].prio
          && y in qs2[k] && y != x && y < |tcb2| && tcb2[y].prio == tcb2[x].prio && Behind(tcb, qs[k], tcb2, x, y)
        ensures Ahead(qs2[k], x, y)
      {
        assert Behind(mid, qs[k], tcb2, x, y);
      }
    }
  }

  // A ready task goes to the tail of the queue of its new priority.
  lemma RequeuedKept(tcb: seq<Tcb>, ready: seq<seq<nat>>, mask: set<nat>, tcb2: seq<Tcb>, t: nat)
    requires ReadyOk(tcb, ready, mask) && t < |tcb| == |tcb2| && tcb[t].status == Ready
    requires tcb[t].prio != tcb2[t].prio < |ready|
    requires forall u: nat :: u < |tcb| && u != t ==> tcb2[u].prio == tcb[u].prio
    ensures TableKept(tcb, ready, tcb2, Requeued(ready, tcb[t].prio, tcb2[t].prio, t))
  {
    var o, p := tcb[t].prio, tcb2[t].prio;
    var r2 := Requeued(ready, o, p, t);
    WithoutFacts(ready[o], t);
    WithoutOrder(ready[o], t);
    hide Without, IndexOf;
    forall k: nat | k < |ready| ensures QueueKept(tcb, ready[k], tcb2, r2[k]) {
      if k == o {
        KeptOrder(tcb, tcb2, ready[o], r2[o]);
      } else if k == p {
        SameOrder(ready[p]);
        KeptTail(tcb, tcb2, ready[p], ready[p], t);
      } else {
        KeptSame(tcb, tcb2, ready[k]);
      }
    }
  }

  // The priority of a task that is not ready does not concern the ready queues.
  lemma ReadyApart(tcb: seq<Tcb>, ready: seq<seq<nat>>, mask: set<nat>, tcb2: seq<Tcb>, t: nat)
    requires ReadyOk(tcb, ready, mask) && t < |tcb| == |tcb2| && tcb[t].status != Ready
    requires forall u: nat :: u < |tcb| && u != t ==> tcb2[u].prio == tcb[u].prio
    ensures TableKept(tcb, ready, tcb2, ready)
  {
    forall k: nat | k < |ready| ensures QueueKept(tcb, ready[k], tcb2, ready[k]) {
      KeptSame(tcb, tcb2, ready[k]);
    }
  }

  // A waiter whose priority changed is put back in its place.
  lemma PutBackKept(tcb: seq<Tcb>, qs: seq<seq<nat>>, tcb2: seq<Tcb>, k: nat, t: nat, i: nat)
    requires k < |qs| && t in qs[k] && NoDup(qs[k]) && t < |tcb| == |tcb2| && tcb2[t].prio != tcb[t].prio
    requires forall u: nat :: u < |tcb| && u != t ==> tcb2[u].prio == tcb[u].prio
    requires forall j: nat :: j < |qs| && j != k ==> t !in qs[j]
    requires IsPrioSlot(tcb2, Without(qs[k], t), tcb2[t].prio, i)
    ensures TableKept(tcb, qs, tcb2, qs[k := InsertAt(Without(qs[k], t), i, t)])
  {
    WithoutFacts(qs[k], t);
    WithoutOrder(qs[k], t);
    hide Without, IndexOf, IsPrioSlot, InsertAt;
    var qs2 := qs[k := InsertAt(Without(qs[k], t), i, t)];
    forall j: nat | j < |qs| ensures QueueKept(tcb, qs[j], tcb2, qs2[j]) {
      if j == k {
        KeptSlot(tcb, tcb2, qs[k], Without(qs[k], t), i, t);
      } else {
        KeptSame(tcb, tcb2, qs[j]);
      }
    }
  }

  lemma AloneKept(tcb: seq<Tcb>, qs: seq<seq<nat>>, tcb2: seq<Tcb>, t: nat)
    requires t < |tcb| == |tcb2| && forall u: nat :: u < |tcb| && u != t ==> tcb2[u].prio == tcb[u].prio
    requires forall j: nat :: j < |qs| && t in qs[j] ==> |qs[j]| <= 1
    ensures TableKept(tcb, qs, tcb2, qs)
  {
    forall j: nat | j < |qs| ensures QueueKept(tcb, qs[j], tcb2, qs[j]) {
      if t in qs[j] {
        KeptSingle(tcb, tcb2, qs[j]);
      } else {
        KeptSame(tcb, tcb2, qs[j]);
      }
    }
  }

  // A task leaves a queue.
  lemma LeftKept(tcb: seq<Tcb>, qs: seq<seq<nat>>, k: nat, t: nat)
    requires k < |qs| && NoDup(qs[k]) && t in qs[k]
    ensures TableKept(tcb, qs, tcb, qs[k := Without(qs[k], t)])
  {
    WithoutFacts(qs[k], t);
    WithoutOrder(qs[k], t);
    hide Without, IndexOf;
    forall j: nat | j < |qs| ensures QueueKept(tcb, qs[j], tcb, qs[k := Without(qs[k], t)][j]) {
      if j == k {
        KeptOrder(tcb, tcb, qs[k], Without(qs[k], t));
      } else {
        KeptSame(tcb, tcb, qs[j]);
      }
    }
  }

  lemma HeadKept(tcb: seq<Tcb>, tcb2: seq<Tcb>, qs: seq<seq<nat>>, k: nat)
    requires k < |qs| && qs[k] != [] && NoDup(qs[k])
    requires |tcb2| == |tcb| && forall u: nat :: u < |tcb| ==> tcb2[u].prio == tcb[u].prio
    ensures TableKept(tcb, qs, tcb2, qs[k := qs[k][1..]])
  {
    TailOrder(qs[k]);
    forall j: nat | j < |qs| ensures QueueKept(tcb, qs[j], tcb2, qs[k := qs[k][1..]][j]) {
      if j == k {
        KeptOrder(tcb, tcb2, qs[k], qs[k][1..]);
      } else {
        KeptSame(tcb, tcb2, qs[j]);
      }
    }
  }

  // A task that becomes ready enters at the tail.
  lemma EnqueuedKept(tcb: seq<Tcb>, ready: seq<seq<nat>>, mask: set<nat>, tcb2: seq<Tcb>, t: nat, p: nat)
    requires ReadyOk(tcb, ready, mask) && t < |tcb| && tcb[t].status != Ready && p < |ready|
    requires |tcb2| == |tcb| && forall u: nat :: u < |tcb| ==> tcb2[u].prio == tcb[u].prio
    ensures TableKept(tcb, ready, tcb2, ready[p := ready[p] + [t]])
  {
    forall k: nat | k < |ready| ensures QueueKept(tcb, ready[k], tcb2, ready[p := ready[p] + [t]][k]) {
      if k == p {
        SameOrder(ready[p]);
        KeptTail(tcb, tcb2, ready[p], ready[p], t);
      } else {
        KeptSame(tcb, tcb2, ready[k]);
      }
    }
  }

  // Two steps of which the second does not undo what the first did to a priority.
  lemma TableTrans(a: seq<Tcb>, qa: seq<seq<nat>>, b: seq<Tcb>, qb: seq<seq<nat>>, c: seq<Tcb>, qc: seq<seq<nat>>)
    requires TableKept(a, qa, b, qb) && TableKept(b, qb, c, qc) && |a| == |b| == |c|
    requires forall k: nat, x: nat :: k < |qa| && x in qa[k] && x in qc[k] && x < |a| && a[x].prio == c[x].prio ==>
               x in qb[k] && b[x].prio == a[x].prio
    ensures TableKept(a, qa, c, qc)
  {
    forall k: nat | k < |qa| ensures QueueKept(a, qa[k], c, qc[k]) {
      KeptTrans(a, qa[k], b, qb[k], c, qc[k]);
    }
  }

  // Two steps in one direction, between which nobody leaves and returns.
  lemma WaitTrans(a: seq<Tcb>, qa: seq<seq<nat>>, b: seq<Tcb>, qb: seq<seq<nat>>, c: seq<Tcb>, qc: seq<seq<nat>>,
                  up: bool)
    requires TableKept(a, qa, b, qb) && TableKept(b, qb, c, qc) && Shifted(a, b, up) && Shifted(b, c, up)
    requires forall k: nat, x: nat :: k < |qa| && x in qa[k] && x in qc[k] ==> x in qb[k]
    ensures TableKept(a, qa, c, qc)
  {
    TableTrans(a, qa, b, qb, c, qc);
  }

  lemma ReadyTrans(a: seq<Tcb>, ra: seq<seq<nat>>, ma: set<nat>, b: seq<Tcb>, rb: seq<seq<nat>>, mb: set<nat>,
                   c: seq<Tcb>, rc: seq<seq<nat>>, mc: set<nat>, up: bool)
    requires ReadyOk(a, ra, ma) && ReadyOk(b, rb, mb) && ReadyOk(c, rc, mc)
    requires TableKept(a, ra, b, rb) && TableKept(b, rb, c, rc) && Shifted(a, b, up) && Shifted(b, c, up)
    requires forall t: nat :: t < |a| && a[t].status == Ready && c[t].status == Ready ==> b[t].status == Ready
    ensures TableKept(a, ra, c, rc)
  {
    forall k: nat, x: nat | k < |ra| && x in ra[k] && x in rc[k] ensures x in rb[k] {
      assert a[x].prio == k == c[x].prio && b[x].prio == k;
    }
    WaitTrans(a, ra, b, rb, c, rc, up);
  }
}
