// What the local priority rule means globally: along the blocked-on graph a settled task runs at
// the least priority demanded by itself or by any task that waits for it, directly or not.
module Transitive {
  import opened Prelude
  import opened KernelState
  import opened Queues
  import opened NetSteps

  // A chain of tasks, each waiting for an inheriting mutex that the next one owns.
  ghost predicate Chain(s: Net, p: seq<nat>) {
    && p != []
    && (forall i: nat :: i < |p| ==> p[i] < |s.tcb|)
    && (forall i: nat :: i + 1 < |p| ==> Donates(s, p[i], p[i + 1]))
  }

  ghost predicate WaitsFor(s: Net, w: nat, t: nat) {
    exists p: seq<nat> :: Chain(s, p) && p[0] == w && p[|p| - 1] == t
  }

  // Some task that waits for t, or t itself, is entitled to priority c.
  ghost predicate TransitiveDemand(s: Net, t: nat, c: nat) {
    exists w: nat :: WaitsFor(s, w, t) && Demand(s, w, c)
  }

  ghost predicate IsLeastDemand(s: Net, t: nat, p: nat) {
    && TransitiveDemand(s, t, p)
    && forall c: nat :: TransitiveDemand(s, t, c) ==> p <= c
  }

  // No deadlock among the tasks that wait for t.
  ghost predicate NoCycleBehind(s: Net, t: nat) {
    forall p: seq<nat> :: Chain(s, p) && p[|p| - 1] == t ==> NoDup(p)
  }

  // Priorities do not get worse along a chain; this half needs no assumption on the graph.
  lemma {:induction false} ChainBound(s: Net, p: seq<nat>)
    requires SettledExcept(s, {}) && Chain(s, p)
    ensures s.tcb[p[|p| - 1]].prio <= s.tcb[p[0]].prio
  {
    if |p| > 1 {
      assert Donates(s, p[0], p[1]) && Settled(s, p[1]);
      assert Chain(s, p[1..]);
      ChainBound(s, p[1..]);
    }
  }

  lemma NeverWorse(s: Net, t: nat, c: nat)
    requires SettledExcept(s, {}) && t < |s.tcb| && TransitiveDemand(s, t, c)
    ensures s.tcb[t].prio <= c
  {
    var w: nat :| WaitsFor(s, w, t) && Demand(s, w, c);
    var p: seq<nat> :| Chain(s, p) && p[0] == w && p[|p| - 1] == t;
    assert Settled(s, w);
    ChainBound(s, p);
  }

  lemma ChainShort(s: Net, p: seq<nat>)
    requires Chain(s, p) && NoDup(p)
    ensures |p| <= |s.tcb|
  {
    var elems := set x | x in p;
    NoDupSize(p, elems);
    BoundedSetSize(elems, |s.tcb|);
  }

  // Following the donor that accounts for the priority leads to a demand, unless it leads in a circle.
  lemma {:induction false} Attained(s: Net, p: seq<nat>, t: nat)
    requires SettledExcept(s, {}) && NoCycleBehind(s, t)
    requires Chain(s, p) && p[|p| - 1] == t && s.tcb[p[0]].prio == s.tcb[t].prio
    ensures TransitiveDemand(s, t, s.tcb[t].prio)
    decreases |s.tcb| - |p|
  {
    assert Settled(s, p[0]);
    if Demand(s, p[0], s.tcb[t].prio) {
      assert WaitsFor(s, p[0], t);
    } else {
      var w: nat :| Donates(s, w, p[0]) && s.tcb[w].prio == s.tcb[t].prio;
      var longer := [w] + p;
      assert Chain(s, longer) && longer[|longer| - 1] == t;
      ChainShort(s, longer);
      Attained(s, longer, t);
    }
  }

  // Without a deadlock behind it, a task runs at exactly the least transitive demand.
  lemma LeastDemand(s: Net, t: nat)
    requires SettledExcept(s, {}) && t < |s.tcb| && NoCycleBehind(s, t)
    ensures IsLeastDemand(s, t, s.tcb[t].prio)
  {
    assert Chain(s, [t]);
    Attained(s, [t], t);
    forall c: nat | TransitiveDemand(s, t, c) ensures s.tcb[t].prio <= c {
      NeverWorse(s, t, c);
    }
  }

  // Hence a waiter never has a better priority than the task that holds it up, however long the chain.
  lemma NoInversion(s: Net, w: nat, t: nat)
    requires SettledExcept(s, {}) && w < |s.tcb| && t < |s.tcb| && WaitsFor(s, w, t)
    ensures s.tcb[t].prio <= s.tcb[w].prio
  {
    var p: seq<nat> :| Chain(s, p) && p[0] == w && p[|p| - 1] == t;
    ChainBound(s, p);
  }

  // ---- deadlock -----------------------------------------------------------------------------

  lemma JoinChains(s: Net, p: seq<nat>, r: seq<nat>)
    requires Chain(s, p) && Chain(s, r) && p[|p| - 1] == r[0]
    ensures Chain(s, p + r[1..])
  {
    var j := p + r[1..];
    forall i: nat | i + 1 < |j| ensures Donates(s, j[i], j[i + 1]) {
      if i + 1 < |p| {
        assert Donates(s, p[i], p[i + 1]);
      } else {
        assert Donates(s, r[i + 1 - |p|], r[i + 2 - |p|]);
      }
    }
  }

  // s2 has one more edge, from w to t.
  ghost predicate OneMoreEdge(s: Net, s2: Net, w: nat, t: nat) {
    && |s.tcb| == |s2.tcb| && w < |s.tcb| && t < |s.tcb|
    && forall x: nat, y: nat {:trigger Donates(s2, x, y)} ::
         Donates(s2, x, y) <==> Donates(s, x, y) || (x == w && y == t)
  }

  // Cutting a chain at its first use of the new edge.
  lemma {:induction false} FirstUse(s: Net, s2: Net, w: nat, t: nat, p: seq<nat>)
    requires OneMoreEdge(s, s2, w, t) && Chain(s2, p)
    ensures Chain(s, p) || (exists i: nat :: i < |p| && p[i] == w && Chain(s, p[..i + 1]))
  {
    if |p| > 1 {
      var q := p[..|p| - 1];
      assert Chain(s2, q);
      FirstUse(s, s2, w, t, q);
      if Chain(s, q) {
        assert Donates(s2, p[|p| - 2], p[|p| - 1]);
        if p[|p| - 2] == w {
          assert p[..|p| - 2 + 1] == q;
        } else {
          assert Chain(s, p);
        }
      } else {
        var i: nat :| i < |q| && q[i] == w && Chain(s, q[..i + 1]);
        assert p[..i + 1] == q[..i + 1];
      }
    }
  }

  ghost predicate Acyclic(s: Net) {
    forall p: seq<nat> {:trigger Chain(s, p)} :: Chain(s, p) ==> NoDup(p)
  }

  lemma SubChain(s: Net, p: seq<nat>, i: nat, j: nat)
    requires Chain(s, p) && i < j <= |p|
    ensures Chain(s, p[i..j])
  {
    var c := p[i..j];
    forall k: nat | k + 1 < |c| ensures Donates(s, c[k], c[k + 1]) {
      assert Donates(s, p[i + k], p[i + k + 1]);
    }
  }

  // A walk from t to w can do without the edge from w to t.
  lemma WithoutDetour(s: Net, s2: Net, w: nat, t: nat, p: seq<nat>)
    requires OneMoreEdge(s, s2, w, t) && Chain(s2, p) && p[0] == t && p[|p| - 1] == w
    ensures WaitsFor(s, t, w)
  {
    FirstUse(s, s2, w, t, p);
    if !Chain(s, p) {
      var i: nat :| i < |p| && p[i] == w && Chain(s, p[..i + 1]);
    }
  }

  // Letting w wait for t deadlocks exactly when t already waits for w.
  lemma DeadlockIff(s: Net, s2: Net, w: nat, t: nat)
    requires OneMoreEdge(s, s2, w, t) && Acyclic(s)
    ensures Acyclic(s2) <==> !WaitsFor(s, t, w)
  {
    if WaitsFor(s, t, w) {
      var p: seq<nat> :| Chain(s, p) && p[0] == t && p[|p| - 1] == w;
      assert Chain(s2, [w] + p);
      assert ([w] + p)[0] == ([w] + p)[|p|];
    } else {
      forall p: seq<nat> | Chain(s2, p) ensures NoDup(p) {
        NoNewCycle(s, s2, w, t, p);
      }
    }
  }

  lemma NoNewCycle(s: Net, s2: Net, w: nat, t: nat, p: seq<nat>)
    requires OneMoreEdge(s, s2, w, t) && Acyclic(s) && !WaitsFor(s, t, w) && Chain(s2, p)
    ensures NoDup(p)
  {
    hide Acyclic, OneMoreEdge, WaitsFor;
    forall i, j | 0 <= i < j < |p| ensures p[i] != p[j] {
      if p[i] == p[j] {
        SubChain(s2, p, i, j + 1);
        CycleUsesEdge(s, s2, w, t, p[i..j + 1]);
      }
    }
  }

  lemma CycleUsesEdge(s: Net, s2: Net, w: nat, t: nat, c: seq<nat>)
    requires OneMoreEdge(s, s2, w, t) && Acyclic(s)
    requires Chain(s2, c) && |c| > 1 && c[0] == c[|c| - 1]
    ensures WaitsFor(s, t, w)
  {
    if k: nat :| k + 1 < |c| && c[k] == w && c[k + 1] == t {
      SubChain(s2, c, k + 1, |c|);
      SubChain(s2, c, 0, k + 1);
      JoinChains(s2, c[k + 1..], c[..k + 1]);
      WithoutDetour(s, s2, w, t, c[k + 1..] + c[..k + 1][1..]);
    } else {
      forall k: nat | k + 1 < |c| ensures Donates(s, c[k], c[k + 1]) {
        assert Donates(s2, c[k], c[k + 1]);
      }
      assert Chain(s, c);
    }
  }

  // Blocking on an inheriting mutex adds exactly the edge to its owner.
  lemma LockDeadlocks(s: Net, t: nat, m: nat, i: nat, bounded: bool)
    requires Wired(s) && Acyclic(s) && t < |s.tcb| && m < |s.mtx| && i <= |s.q[m]|
    requires s.tcb[t].status == Running && s.tcb[t].waitingFor == None
    requires s.mtx[m].owner.Some?
    ensures s.mtx[m].inherit ==>
              (Acyclic(Waiting(s, t, m, i, bounded)) <==> !WaitsFor(s, s.mtx[m].owner.value, t))
    ensures !s.mtx[m].inherit ==> Acyclic(Waiting(s, t, m, i, bounded))
  {
    var s2 := Waiting(s, t, m, i, bounded);
    WaitingEdges(s, t, m, i, bounded);
    if s.mtx[m].inherit {
      DeadlockIff(s, s2, t, s.mtx[m].owner.value);
    } else {
      FewerEdges(s, s2);
    }
  }

  lemma WaitingEdges(s: Net, t: nat, m: nat, i: nat, bounded: bool)
    requires Wired(s) && t < |s.tcb| && m < |s.mtx| && i <= |s.q[m]|
    requires s.tcb[t].status == Running && s.tcb[t].waitingFor == None && s.mtx[m].owner.Some?
    ensures forall x: nat, y: nat {:trigger Donates(Waiting(s, t, m, i, bounded), x, y)} ::
              Donates(Waiting(s, t, m, i, bounded), x, y) <==>
              Donates(s, x, y) || (s.mtx[m].inherit && x == t && s.mtx[m].owner == Some(y))
  {
    var s2 := Waiting(s, t, m, i, bounded);
    var r := InsertAt(s.q[m], i, t);
    assert s.q[m] == s.q[m][..i] + s.q[m][i..];
    forall x: nat ensures x in r <==> x in s.q[m] || x == t {
    }
    forall x: nat, y: nat
      ensures Donates(s2, x, y) <==> Donates(s, x, y) || (s.mtx[m].inherit && x == t && s.mtx[m].owner == Some(y))
    {
      assert x != t && x < |s.tcb| ==> s2.tcb[x] == s.tcb[x];
      assert s2.q[m] == r;
    }
  }

  // Without a new edge there is no new deadlock.
  lemma FewerEdges(s: Net, s2: Net)
    requires Acyclic(s) && |s2.tcb| == |s.tcb|
    requires forall x: nat, y: nat {:trigger Donates(s2, x, y)} :: Donates(s2, x, y) ==> Donates(s, x, y)
    ensures Acyclic(s2)
  {
    forall p: seq<nat> | Chain(s2, p) ensures NoDup(p) {
      assert Chain(s, p);
    }
  }

  // New edges into a task that waits for nobody close no circle.
  lemma EdgesIntoSink(s: Net, s2: Net, w: nat)
    requires Acyclic(s) && |s2.tcb| == |s.tcb|
    requires forall x: nat, y: nat {:trigger Donates(s2, x, y)} :: Donates(s2, x, y) ==> Donates(s, x, y) || y == w
    requires forall y: nat {:trigger Donates(s2, w, y)} :: !Donates(s2, w, y)
    ensures Acyclic(s2)
  {
    forall p: seq<nat> | Chain(s2, p) ensures NoDup(p) {
      var n := |p| - 1;
      assert forall i: nat :: i < n ==> p[i] != w by {
        forall i: nat | i < n ensures p[i] != w {
          assert Donates(s2, p[i], p[i + 1]);
        }
      }
      if n > 0 {
        SubChain(s2, p, 0, n);
        assert Chain(s, p[..n]) by {
          forall i: nat | i + 1 < n ensures Donates(s, p[i], p[i + 1]) {
            assert Donates(s2, p[i], p[i + 1]);
          }
        }
        if p[n] != w {
          assert Donates(s2, p[n - 1], p[n]);
          assert Chain(s, p) by {
            forall i: nat | i + 1 < |p| ensures Donates(s, p[i], p[i + 1]) {
              assert Donates(s2, p[i], p[i + 1]);
            }
          }
        }
      }
    }
  }

  // Passing a mutex on to its first waiter never deadlocks.
  lemma HandOverSafe(s: Net, t: nat, m: nat)
    requires Wired(s) && Acyclic(s) && t < |s.tcb| && m < |s.mtx| && s.mtx[m].owner == Some(t)
    requires m in s.tcb[t].owned && s.q[m] != []
    requires s.q[m][0] < |s.tcb| && s.q[m][0] != t
    ensures Acyclic(HandedOver(s, t, m))
  {
    hide Without, IndexOf, OwnedOk, MesgsOk;
    var s2 := HandedOver(s, t, m);
    var w := s.q[m][0];
    HeadLeaves(s, s2, m);
    forall x: nat, y: nat | Donates(s2, x, y) ensures Donates(s, x, y) || y == w {
    }
    EdgesIntoSink(s, s2, w);
  }
}
