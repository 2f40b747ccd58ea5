// What each mutex and message operation does to the network before priorities are repaired, and
// which tasks it can leave with a stale effective priority.
module NetSteps {
  import opened Prelude
  import opened KernelState
  import opened Queues
  import opened ReadyQueues
  import opened PriorityWalk

  ghost predicate Structured(s: Net) {
    Wired(s) && Sorted(s) && Capped(s.tcb)
  }

  lemma PrioBound(s: Net, t: nat)
    requires Structured(s) && t < |s.tcb|
    ensures s.tcb[t].prio <= IDLE_PRIO
  {
  }

  // Task t takes the free mutex m.
  function Acquired(s: Net, t: nat, m: nat): Net
    requires t < |s.tcb| && m < |s.mtx|
  {
    s.(mtx := s.mtx[m := s.mtx[m].(lock := true, owner := Some(t))],
       tcb := s.tcb[t := s.tcb[t].(owned := s.tcb[t].owned + [m])])
  }

  // Task t blocks in slot i of queue k.
  function Waiting(s: Net, t: nat, k: nat, i: nat, bounded: bool): Net
    requires t < |s.tcb| && k < |s.q| && i <= |s.q[k]|
  {
    s.(q := s.q[k := InsertAt(s.q[k], i, t)],
       tcb := s.tcb[t := s.tcb[t].(status := Blocked,
                                   waitQ := Some(k),
                                   waitingFor := if k < |s.mtx| then Some(k) else None,
                                   armed := bounded,
                                   timeOut := if bounded then false else s.tcb[t].timeOut)])
  }

  // Task t gives up mutex m, for which nobody waits.
  function Released(s: Net, t: nat, m: nat): Net
    requires t < |s.tcb| && m < |s.mtx| && m in s.tcb[t].owned
  {
    s.(mtx := s.mtx[m := s.mtx[m].(lock := false, owner := None)],
       tcb := s.tcb[t := s.tcb[t].(owned := Without(s.tcb[t].owned, m))])
  }

  // Task t passes mutex m to w, the head of its queue; w stays blocked for the moment.
  function HandedOver(s: Net, t: nat, m: nat): Net
    requires t < |s.tcb| && m < |s.mtx| && m < |s.q| && m in s.tcb[t].owned
    requires s.q[m] != [] && s.q[m][0] < |s.tcb| && s.q[m][0] != t
  {
    var w := s.q[m][0];
    var t' := s.tcb[t].(owned := Without(s.tcb[t].owned, m));
    var w' := s.tcb[w].(owned := s.tcb[w].owned + [m], waitQ := None, waitingFor := None, armed := false);
    s.(mtx := s.mtx[m := s.mtx[m].(lock := true, owner := Some(w))],
       tcb := s.tcb[t := t'][w := w'],
       q := s.q[m := s.q[m][1..]])
  }

  // Waiter w is unlinked by its timeout; it still remembers what it waited for.
  function Unlinked(s: Net, w: nat): Net
    requires w < |s.tcb| && s.tcb[w].waitQ.Some? && s.tcb[w].waitQ.value < |s.q|
    requires w in s.q[s.tcb[w].waitQ.value]
  {
    var k := s.tcb[w].waitQ.value;
    s.(q := s.q[k := Without(s.q[k], w)])
  }

  // The first waiter of pool queue k is taken out; it stays blocked for the moment.
  function Popped(s: Net, k: nat): Net
    requires k < |s.q| && s.q[k] != [] && s.q[k][0] < |s.tcb|
  {
    var w := s.q[k][0];
    s.(tcb := s.tcb[w := s.tcb[w].(waitQ := None, armed := false)], q := s.q[k := s.q[k][1..]])
  }

  // Message x leaves the owned list of its owner, if any.
  function Disowned(s: Net, x: nat): Net
    requires x < |s.mesg|
    requires s.mesg[x].owner.Some? ==> s.mesg[x].owner.value < |s.tcb| && x in s.tcb[s.mesg[x].owner.value].mesgs
  {
    match s.mesg[x].owner
    case None => s
    case Some(t) =>
      s.(mesg := s.mesg[x := s.mesg[x].(owner := None)],
         tcb := s.tcb[t := s.tcb[t].(mesgs := Without(s.tcb[t].mesgs, x))])
  }

  // It joins the list of o, if any.
  function Owned(s: Net, x: nat, o: Option<nat>): Net
    requires x < |s.mesg| && (o.Some? ==> o.value < |s.tcb|)
  {
    match o
    case None => s
    case Some(t) =>
      s.(mesg := s.mesg[x := s.mesg[x].(owner := Some(t))],
         tcb := s.tcb[t := s.tcb[t].(mesgs := s.tcb[t].mesgs + [x])])
  }

  // Ownership of x moves to o.
  function Transferred(s: Net, x: nat, o: Option<nat>): (s2: Net)
    requires x < |s.mesg| && (o.Some? ==> o.value < |s.tcb|)
    requires s.mesg[x].owner.Some? ==> s.mesg[x].owner.value < |s.tcb| && x in s.tcb[s.mesg[x].owner.value].mesgs
    ensures |s2.tcb| == |s.tcb|
  {
    if s.mesg[x].owner == o then s else Owned(Disowned(s, x), x, o)
  }

  // ---- settled tasks under a step ----------------------------------------------------------

  // If demands, donors and their priorities are the same for every task outside open, those
  // tasks stay settled.
  lemma StaySettled(s: Net, s2: Net, open: set<nat>, open2: set<nat>)
    requires |s.tcb| == |s2.tcb| && SettledExcept(s, open) && open <= open2
    requires forall t: nat :: t < |s.tcb| ==> s2.tcb[t].prio == s.tcb[t].prio
    requires forall t: nat, c: nat :: t < |s.tcb| && t !in open2 ==> (Demand(s, t, c) <==> Demand(s2, t, c))
    requires forall t: nat, w: nat :: t < |s.tcb| && t !in open2 ==> (Donates(s, w, t) <==> Donates(s2, w, t))
    ensures SettledExcept(s2, open2)
  {
    forall t: nat | t < |s.tcb| && t !in open2 ensures Settled(s2, t) {
      assert Settled(s, t);
      EffSame(s, s2, t, s.tcb[t].prio);
    }
  }

  // Lists of owned things that did not change stay in order.
  lemma OwnedSame(s: Net, s2: Net)
    requires OwnedOk(s) && s.mtx == s2.mtx && |s.tcb| == |s2.tcb|
    requires forall t: nat :: t < |s.tcb| ==> s2.tcb[t].owned == s.tcb[t].owned
    ensures OwnedOk(s2)
  {
  }

  lemma MesgsSame(s: Net, s2: Net)
    requires MesgsOk(s) && s.mesg == s2.mesg && |s.tcb| == |s2.tcb|
    requires forall t: nat :: t < |s.tcb| ==> s2.tcb[t].mesgs == s.tcb[t].mesgs
    ensures MesgsOk(s2)
  {
  }

  // Mutex m, owned by nobody, is appended to the list of t.
  lemma OwnedAppend(s: Net, s2: Net, t: nat, m: nat)
    requires OwnedOk(s) && t < |s.tcb| && m < |s.mtx| && s.mtx[m].owner.None? && |s2.tcb| == |s.tcb|
    requires |s2.mtx| == |s.mtx| && s2.mtx[m].owner == Some(t)
    requires forall l: nat :: l < |s.mtx| && l != m ==> s2.mtx[l].owner == s.mtx[l].owner
    requires s2.tcb[t].owned == s.tcb[t].owned + [m]
    requires forall u: nat :: u < |s.tcb| && u != t ==> s2.tcb[u].owned == s.tcb[u].owned
    ensures OwnedOk(s2)
  {
    assert m !in s.tcb[t].owned;
    assert m in s2.tcb[t].owned;
    forall u: nat, l: nat | u < |s2.tcb| && l in s2.tcb[u].owned
      ensures l < |s2.mtx| && s2.mtx[l].owner == Some(u)
    {
      assert l in s.tcb[u].owned || (u == t && l == m);
    }
  }

  // Mutex m, owned by t, is taken off the list of t.
  lemma OwnedRemove(s: Net, s2: Net, t: nat, m: nat)
    requires OwnedOk(s) && t < |s.tcb| && m in s.tcb[t].owned && m < |s.mtx| && |s2.tcb| == |s.tcb|
    requires |s2.mtx| == |s.mtx| && s2.mtx[m].owner == None
    requires forall l: nat :: l < |s.mtx| && l != m ==> s2.mtx[l].owner == s.mtx[l].owner
    requires s2.tcb[t].owned == Without(s.tcb[t].owned, m)
    requires forall u: nat :: u < |s.tcb| && u != t ==> s2.tcb[u].owned == s.tcb[u].owned
    ensures OwnedOk(s2)
  {
    WithoutFacts(s.tcb[t].owned, m);
    forall u: nat, l: nat | u < |s2.tcb| && l in s2.tcb[u].owned
      ensures l < |s2.mtx| && s2.mtx[l].owner == Some(u)
    {
      assert l in s.tcb[u].owned;
    }
    forall l: nat | l < |s2.mtx| && s2.mtx[l].owner.Some?
      ensures s2.mtx[l].owner.value < |s2.tcb| && l in s2.tcb[s2.mtx[l].owner.value].owned
    {
      assert l != m && l in s.tcb[s.mtx[l].owner.value].owned;
    }
  }

  lemma AcquiredKeeps(s: Net, t: nat, m: nat)
    requires Structured(s) && Placed(s) && SettledExcept(s, {}) && t < |s.tcb| && m < |s.mtx|
    requires !s.mtx[m].lock
    ensures var s2 := Acquired(s, t, m); Structured(s2) && Placed(s2) && SettledExcept(s2, {})
  {
    hide OwnedOk, MesgsOk;
    var s2 := Acquired(s, t, m);
    OwnedAppend(s, s2, t, m);
    MesgsSame(s, s2);
    assert s.q[m] == [];
    StaySettled(s, s2, {}, {});
  }

  // A task that blocks can only affect the owner of the inheriting mutex it waits for.
  lemma WaitingKeeps(s: Net, t: nat, k: nat, i: nat, bounded: bool)
    requires Structured(s) && Placed(s) && SettledExcept(s, {})
    requires t < |s.tcb| && s.tcb[t].status == Running && k < |s.q|
    requires IsPrioSlot(s.tcb, s.q[k], s.tcb[t].prio, i)
    requires k < |s.mtx| ==> s.mtx[k].owner.Some? && s.mtx[k].owner.value != t
    ensures var s2 := Waiting(s, t, k, i, bounded);
            && Structured(s2) && Placed(s2)
            && SettledExcept(s2, if k < |s.mtx| && s.mtx[k].inherit then {s.mtx[k].owner.value} else {})
  {
    hide OwnedOk, MesgsOk, LinksOk, LocksOk, Settled, SettledExcept;
    var s2 := Waiting(s, t, k, i, bounded);
    OwnedSame(s, s2);
    MesgsSame(s, s2);
    WaitingLinks(s, t, k, i, bounded);
    SortedInsert(s.tcb, s.q[k], i, t);
    StaySettled(s, s2, {}, if k < |s.mtx| && s.mtx[k].inherit then {s.mtx[k].owner.value} else {});
  }

  // With more demands and donors a settled task can only fall; with fewer it can only rise.
  lemma MoreFalls(s: Net, s2: Net, t: nat)
    requires t < |s.tcb| == |s2.tcb| && Settled(s, t) && s2.tcb[t].prio == s.tcb[t].prio
    requires forall c: nat :: Demand(s, t, c) ==> Demand(s2, t, c)
    requires forall w: nat {:trigger Donates(s, w, t)} ::
               Donates(s, w, t) ==> Donates(s2, w, t) && s2.tcb[w].prio == s.tcb[w].prio
    ensures Falls(s2, t)
  {
  }

  lemma FewerRises(s: Net, s2: Net, t: nat)
    requires t < |s.tcb| == |s2.tcb| && Settled(s, t) && s2.tcb[t].prio == s.tcb[t].prio
    requires forall c: nat :: Demand(s2, t, c) ==> Demand(s, t, c)
    requires forall w: nat {:trigger Donates(s2, w, t)} ::
               Donates(s2, w, t) ==> Donates(s, w, t) && s2.tcb[w].prio == s.tcb[w].prio
    ensures Rises(s2, t)
  {
  }

  // One more waiter can only improve the owner.
  lemma WaitingFalls(s: Net, t: nat, k: nat, i: nat, bounded: bool)
    requires Wired(s) && SettledExcept(s, {}) && t < |s.tcb| && s.tcb[t].status == Running && k < |s.mtx|
    requires k < |s.q| && i <= |s.q[k]| && s.mtx[k].owner.Some? && s.mtx[k].owner.value < |s.tcb|
    ensures Falls(Waiting(s, t, k, i, bounded), s.mtx[k].owner.value)
  {
    hide SettledExcept, Settled, Falls, OwnedOk, MesgsOk, LocksOk, WaitsOk;
    var s2, o := Waiting(s, t, k, i, bounded), s.mtx[k].owner.value;
    SettledIn(s, o);
    forall w: nat | Donates(s, w, o) ensures Donates(s2, w, o) {
      assert Waiter(s, s.tcb[w].waitingFor.value, w);
      assert s.q[k] == s.q[k][..i] + s.q[k][i..];
    }
    MoreFalls(s, s2, o);
  }

  // One waiter less can only worsen the owner.
  lemma UnlinkedRises(s: Net, w: nat, o: nat)
    requires Wired(s) && SettledExcept(s, {}) && w < |s.tcb| && s.tcb[w].waitQ.Some? && s.tcb[w].waitQ.value < |s.q|
    requires w in s.q[s.tcb[w].waitQ.value] && o < |s.tcb|
    ensures Rises(Unlinked(s, w), o)
  {
    hide SettledExcept, Settled, Rises, OwnedOk, MesgsOk, LocksOk, WaitsOk, Without;
    WithoutFacts(s.q[s.tcb[w].waitQ.value], w);
    SettledIn(s, o);
    FewerRises(s, Unlinked(s, w), o);
  }

  lemma SettledIn(s: Net, t: nat)
    requires SettledExcept(s, {}) && t < |s.tcb|
    ensures Settled(s, t)
  {
  }

  lemma WaitingLinks(s: Net, t: nat, k: nat, i: nat, bounded: bool)
    requires LinksOk(s) && LocksOk(s) && Placed(s)
    requires t < |s.tcb| && s.tcb[t].status == Running && k < |s.q| && i <= |s.q[k]|
    requires k < |s.mtx| ==> s.mtx[k].owner.Some? && s.mtx[k].owner.value != t
    ensures var s2 := Waiting(s, t, k, i, bounded);
            && LinksOk(s2) && LocksOk(s2) && Placed(s2)
            && (forall x: nat :: x in s2.q[k] <==> x in s.q[k] || x == t)
            && (forall j: nat :: j < |s.q| ==> t !in s.q[j])
  {
    forall j: nat | j < |s.q| ensures t !in s.q[j] {
      assert t in s.q[j] ==> Waiter(s, j, t);
    }
    InsertFacts(s.q[k], i, t);
    hide InsertAt, NoDup;
  }

  lemma ReleasedKeeps(s: Net, t: nat, m: nat)
    requires Structured(s) && Placed(s) && SettledExcept(s, {}) && t < |s.tcb| && m < |s.mtx|
    requires s.mtx[m].owner == Some(t) && m in s.tcb[t].owned && s.q[m] == []
    ensures var s2 := Released(s, t, m); Structured(s2) && Placed(s2) && SettledExcept(s2, {})
  {
    hide OwnedOk, MesgsOk, Without, IndexOf;
    var s2 := Released(s, t, m);
    OwnedRemove(s, s2, t, m);
    MesgsSame(s, s2);
    StaySettled(s, s2, {}, {});
  }

  // Passing a mutex on can only affect the two parties.
  lemma HandedOverKeeps(s: Net, t: nat, m: nat)
    requires Structured(s) && Placed(s) && SettledExcept(s, {}) && t < |s.tcb| && m < |s.mtx|
    requires s.mtx[m].owner == Some(t) && m in s.tcb[t].owned && m < |s.q| && s.q[m] != []
    ensures var w := s.q[m][0];
            && w < |s.tcb| && w != t && s.tcb[w].status == Blocked && s.tcb[w].waitQ == Some(m)
            && var s2 := HandedOver(s, t, m);
            && Structured(s2) && PlacedExcept(s2, w) && !Linked(s2, w)
            && SettledExcept(s2, if s.mtx[m].inherit then {t, w} else {})
  {
    hide OwnedOk, MesgsOk, Settled, SettledExcept, IsEff, Without, IndexOf;
    var w := s.q[m][0];
    assert w in s.q[m] && Waiter(s, m, w);
    var s2 := HandedOver(s, t, m);
    HandedOverOwned(s, t, m);
    MesgsSame(s, s2);
    HeadLeaves(s, s2, m);
    HandedOverSettled(s, t, m);
  }

  lemma HandedOverSettled(s: Net, t: nat, m: nat)
    requires SettledExcept(s, {}) && LinksOk(s) && t < |s.tcb| && m < |s.mtx|
    requires s.mtx[m].owner == Some(t) && m in s.tcb[t].owned && m < |s.q| && s.q[m] != []
    requires s.q[m][0] < |s.tcb| && s.q[m][0] != t
    ensures SettledExcept(HandedOver(s, t, m), if s.mtx[m].inherit then {t, s.q[m][0]} else {})
  {
    hide Without, IndexOf, SettledExcept, LinksOk;
    HandedOverGraph(s, t, m);
    StaySettled(s, HandedOver(s, t, m), {}, if s.mtx[m].inherit then {t, s.q[m][0]} else {});
  }

  lemma HandedOverOwned(s: Net, t: nat, m: nat)
    requires OwnedOk(s) && LinksOk(s) && t < |s.tcb| && m < |s.mtx|
    requires s.mtx[m].owner == Some(t) && m in s.tcb[t].owned && m < |s.q| && s.q[m] != []
    requires s.q[m][0] < |s.tcb| && s.q[m][0] != t
    ensures OwnedOk(HandedOver(s, t, m))
  {
    hide OwnedOk, LinksOk, Without, IndexOf;
    var s1 := Released(s, t, m);
    OwnedRemove(s, s1, t, m);
    OwnedAppend(s1, HandedOver(s, t, m), s.q[m][0], m);
  }

  lemma HandedOverGraph(s: Net, t: nat, m: nat)
    requires LinksOk(s) && t < |s.tcb| && m < |s.mtx| && s.mtx[m].owner == Some(t)
    requires m in s.tcb[t].owned && m < |s.q| && s.q[m] != []
    requires s.q[m][0] < |s.tcb| && s.q[m][0] != t
    ensures var s2 := HandedOver(s, t, m);
            && (forall u: nat, c: nat :: Demand(s, u, c) <==> Demand(s2, u, c))
            && (forall u: nat, v: nat :: (s.mtx[m].inherit ==> u !in {t, s.q[m][0]}) ==>
                  (Donates(s, v, u) <==> Donates(s2, v, u)))
  {
    hide Without, IndexOf;
    var s2 := HandedOver(s, t, m);
    var w := s.q[m][0];
    assert w in s.q[m] && Waiter(s, m, w);
    HeadLeaves(s, s2, m);
    forall u: nat, c: nat ensures Demand(s, u, c) <==> Demand(s2, u, c) {
      assert u < |s.tcb| ==> s2.tcb[u].nominal == s.tcb[u].nominal && s2.tcb[u].mesgs == s.tcb[u].mesgs;
    }
    forall u: nat, v: nat | s.mtx[m].inherit ==> u !in {t, w}
      ensures Donates(s, v, u) <==> Donates(s2, v, u)
    {
      assert v < |s.tcb| && v != w ==> s2.tcb[v].waitingFor == s.tcb[v].waitingFor;
    }
  }

  // The head of queue k is gone; every other task is linked where it was.
  lemma HeadLeaves(s: Net, s2: Net, k: nat)
    requires LinksOk(s) && k < |s.q| && s.q[k] != [] && s2.q == s.q[k := s.q[k][1..]]
    ensures forall j: nat, u: nat :: j < |s.q| ==> (u in s2.q[j] <==> u in s.q[j] && u != s.q[k][0])
  {
    var w := s.q[k][0];
    assert w in s.q[k];
    forall j: nat, u: nat | j < |s.q| ensures u in s2.q[j] <==> u in s.q[j] && u != w {
      assert w in s.q[j] ==> Waiter(s, j, w) && Waiter(s, k, w);
      assert s.q[k] == [w] + s.q[k][1..];
    }
  }

  // A waiter whose timeout expired can only affect the owner of the mutex it waited for.
  lemma UnlinkedKeeps(s: Net, w: nat)
    requires Structured(s) && Placed(s) && SettledExcept(s, {}) && w < |s.tcb|
    requires s.tcb[w].status == Blocked
    ensures s.tcb[w].waitQ.Some? && s.tcb[w].waitQ.value < |s.q|
    ensures var k := s.tcb[w].waitQ.value;
            && w in s.q[k] && s.tcb[w].waitingFor == (if k < |s.mtx| then Some(k) else None)
            && (k < |s.mtx| ==> s.mtx[k].owner.Some? && s.mtx[k].owner.value < |s.tcb| && s.mtx[k].owner.value != w)
            && var s2 := Unlinked(s, w);
            && Structured(s2) && PlacedExcept(s2, w)
            && SettledExcept(s2, if k < |s.mtx| && s.mtx[k].inherit then {s.mtx[k].owner.value} else {})
            && !Linked(s2, w)
  {
    hide OwnedOk, MesgsOk, Without, IndexOf, SettledExcept, Settled, IsEff;
    var k := s.tcb[w].waitQ.value;
    assert Waiter(s, k, w);
    var s2 := Unlinked(s, w);
    OwnedSame(s, s2);
    MesgsSame(s, s2);
    WithoutFacts(s.q[k], w);
    SortedWithout(s.tcb, s.tcb, s.q[k], w);
    forall j: nat | j < |s2.q| ensures w !in s2.q[j] {
      assert w in s.q[j] ==> Waiter(s, j, w);
    }
    UnlinkedSettled(s, w);
  }

  lemma UnlinkedSettled(s: Net, w: nat)
    requires SettledExcept(s, {}) && w < |s.tcb| && s.tcb[w].waitQ.Some? && s.tcb[w].waitQ.value < |s.q|
    requires var k := s.tcb[w].waitQ.value;
             && NoDup(s.q[k]) && w in s.q[k] && s.tcb[w].waitingFor == (if k < |s.mtx| then Some(k) else None)
             && (k < |s.mtx| ==> s.mtx[k].owner.Some?)
    ensures var k := s.tcb[w].waitQ.value;
            SettledExcept(Unlinked(s, w), if k < |s.mtx| && s.mtx[k].inherit then {s.mtx[k].owner.value} else {})
  {
    hide Without, IndexOf, SettledExcept;
    var k := s.tcb[w].waitQ.value;
    WithoutFacts(s.q[k], w);
    StaySettled(s, Unlinked(s, w), {}, if k < |s.mtx| && s.mtx[k].inherit then {s.mtx[k].owner.value} else {});
  }

  lemma PoppedKeeps(s: Net, k: nat)
    requires Structured(s) && Placed(s) && SettledExcept(s, {})
    requires |s.mtx| <= k < |s.q| && s.q[k] != []
    ensures var w := s.q[k][0];
            && w < |s.tcb| && s.tcb[w].status == Blocked && s.tcb[w].waitingFor == None
            && var s2 := Popped(s, k);
            && Structured(s2) && PlacedExcept(s2, w) && SettledExcept(s2, {})
            && !Linked(s2, w)
  {
    hide OwnedOk, MesgsOk;
    var w := s.q[k][0];
    assert w in s.q[k] && Waiter(s, k, w);
    var s2 := Popped(s, k);
    OwnedSame(s, s2);
    MesgsSame(s, s2);
    HeadLeaves(s, s2, k);
    StaySettled(s, s2, {}, {});
  }

  // Losing or gaining a message can only affect the task that loses or gains it.
  lemma DisownedKeeps(s: Net, x: nat, t: nat, open: set<nat>)
    requires Structured(s) && SettledExcept(s, open) && x < |s.mesg| && s.mesg[x].owner == Some(t)
    ensures t < |s.tcb| && x in s.tcb[t].mesgs
    ensures var s2 := Disowned(s, x); Structured(s2) && SettledExcept(s2, open + {t})
  {
    hide OwnedOk;
    var s2 := Disowned(s, x);
    OwnedSame(s, s2);
    WithoutFacts(s.tcb[t].mesgs, x);
    StaySettled(s, s2, open, open + {t});
  }

  lemma OwnedKeeps(s: Net, x: nat, t: nat, open: set<nat>)
    requires Structured(s) && SettledExcept(s, open) && x < |s.mesg| && s.mesg[x].owner == None && t < |s.tcb|
    ensures var s2 := Owned(s, x, Some(t)); Structured(s2) && SettledExcept(s2, open + {t})
  {
    hide OwnedOk;
    var s2 := Owned(s, x, Some(t));
    OwnedSame(s, s2);
    assert x !in s.tcb[t].mesgs && x in s2.tcb[t].mesgs;
    forall u: nat, y: nat | u < |s2.tcb| && y in s2.tcb[u].mesgs
      ensures y < |s2.mesg| && s2.mesg[y].owner == Some(u)
    {
      assert y in s.tcb[u].mesgs || (u == t && y == x);
    }
    StaySettled(s, s2, open, open + {t});
  }

  // ---- becoming ready, and blocking calls ---------------------------------------------------

  function BecameReady(s: Net, w: nat, timeOut: bool): Net
    requires w < |s.tcb|
  {
    s.(tcb := s.tcb[w := s.tcb[w].(status := Ready, waitQ := None, armed := false, timeOut := timeOut)])
  }

  lemma BecameReadyKeeps(s: Net, w: nat, timeOut: bool)
    requires Structured(s) && PlacedExcept(s, w) && SettledExcept(s, {}) && w < |s.tcb| && !Linked(s, w)
    ensures var s2 := BecameReady(s, w, timeOut);
            Structured(s2) && Placed(s2) && SettledExcept(s2, {})
  {
    hide OwnedOk, MesgsOk;
    var s2 := BecameReady(s, w, timeOut);
    OwnedSame(s, s2);
    MesgsSame(s, s2);
    StaySettled(s, s2, {}, {});
  }

  // A task resumes from its blocking call.
  function Resumed(s: Net, t: nat): Net
    requires t < |s.tcb|
  {
    s.(tcb := s.tcb[t := s.tcb[t].(timeOut := false, waitingFor := None)])
  }

  lemma ResumedKeeps(s: Net, t: nat)
    requires Structured(s) && Placed(s) && SettledExcept(s, {}) && t < |s.tcb| && s.tcb[t].status != Blocked
    ensures var s2 := Resumed(s, t); Structured(s2) && Placed(s2) && SettledExcept(s2, {})
  {
    hide OwnedOk, MesgsOk;
    var s2 := Resumed(s, t);
    OwnedSame(s, s2);
    MesgsSame(s, s2);
    forall j: nat | j < |s.q| ensures t !in s.q[j] {
      assert t in s.q[j] ==> Waiter(s, j, t);
    }
    StaySettled(s, s2, {}, {});
  }

  lemma ResumedCalls(s: Net, t: nat, calls: map<nat, nat>)
    requires CallsOk(s, calls) && t in calls && s.tcb[t].status != Blocked
    ensures CallsOk(Resumed(s, t), calls - {t})
  {
  }

  lemma WaitingCalls(s: Net, t: nat, k: nat, i: nat, bounded: bool, calls: map<nat, nat>)
    requires CallsOk(s, calls) && t < |s.tcb| && t !in calls && k < |s.q| && i <= |s.q[k]|
    ensures CallsOk(Waiting(s, t, k, i, bounded), calls[t := k])
  {
  }

  // The slot does not matter up to order.
  lemma WaitingShape(s: Net, t: nat, k: nat, i: nat, bounded: bool)
    requires t < |s.tcb| && k < |s.q| && i <= |s.q[k]|
    ensures SameShape(Waiting(s, t, k, 0, bounded), Waiting(s, t, k, i, bounded))
  {
    var a, b := InsertAt(s.q[k], 0, t), InsertAt(s.q[k], i, t);
    forall x: nat ensures x in a <==> x in b {
      assert s.q[k] == s.q[k][..i] + s.q[k][i..];
    }
  }

  lemma AcquiredCalls(s: Net, t: nat, m: nat, calls: map<nat, nat>)
    requires CallsOk(s, calls) && Wired(s) && t < |s.tcb| && t !in calls && m < |s.mtx| && !s.mtx[m].lock
    ensures CallsOk(Acquired(s, t, m), calls)
  {
  }

  lemma ReleasedCalls(s: Net, t: nat, m: nat, calls: map<nat, nat>)
    requires CallsOk(s, calls) && t < |s.tcb| && t !in calls && m < |s.mtx|
    requires m in s.tcb[t].owned && s.mtx[m].owner == Some(t)
    ensures CallsOk(Released(s, t, m), calls)
  {
    hide Without, IndexOf;
  }

  // The new owner wakes up with its call fulfilled.
  lemma HandedOverCalls(s: Net, t: nat, m: nat, calls: map<nat, nat>)
    requires CallsOk(s, calls) && Wired(s) && t < |s.tcb| && t !in calls && m < |s.mtx|
    requires m in s.tcb[t].owned && s.mtx[m].owner == Some(t) && m < |s.q| && s.q[m] != []
    requires s.q[m][0] < |s.tcb| && s.q[m][0] != t
    ensures var w := s.q[m][0]; w in calls && calls[w] == m && !s.tcb[w].timeOut
    ensures CallsOk(BecameReady(HandedOver(s, t, m), s.q[m][0], false), calls)
  {
    hide Without, IndexOf;
    var w := s.q[m][0];
    assert w in s.q[m] && Waiter(s, m, w);
  }

  lemma UnlinkedCalls(s: Net, w: nat, calls: map<nat, nat>)
    requires CallsOk(s, calls) && Wired(s) && w < |s.tcb| && s.tcb[w].status == Blocked
    requires s.tcb[w].waitQ.Some? && s.tcb[w].waitQ.value < |s.q| && w in s.q[s.tcb[w].waitQ.value]
    ensures CallsOk(BecameReady(Unlinked(s, w), w, true), calls)
  {
    hide Without, IndexOf;
    assert Waiter(s, s.tcb[w].waitQ.value, w);
  }

  lemma ReadyShape(a: Net, b: Net, w: nat, timeOut: bool)
    requires SameShape(a, b) && w < |a.tcb|
    ensures SameShape(BecameReady(a, w, timeOut), BecameReady(b, w, timeOut))
  {
    assert a.tcb[w].(prio := b.tcb[w].prio) == b.tcb[w];
  }

  lemma TransferredKeeps(s: Net, x: nat, o: Option<nat>)
    requires Structured(s) && SettledExcept(s, {}) && x < |s.mesg| && (o.Some? ==> o.value < |s.tcb|)
    ensures s.mesg[x].owner.Some? ==> s.mesg[x].owner.value < |s.tcb| && x in s.tcb[s.mesg[x].owner.value].mesgs
    ensures var s2 := Transferred(s, x, o);
            && Structured(s2)
            && SettledExcept(s2, if s.mesg[x].owner == o then {}
                                 else (if o.Some? then {o.value} else {})
                                      + (if s.mesg[x].owner.Some? then {s.mesg[x].owner.value} else {}))
  {
    hide Structured, SettledExcept, Without, IndexOf;
    MesgOwnerLists(s, x);
    if s.mesg[x].owner != o {
      var old_ := if s.mesg[x].owner.Some? then {s.mesg[x].owner.value} else {};
      var s1 := Disowned(s, x);
      if s.mesg[x].owner.Some? {
        DisownedKeeps(s, x, s.mesg[x].owner.value, {});
        assert {} + old_ == old_;
      }
      if o.Some? {
        OwnedKeeps(s1, x, o.value, old_);
        assert old_ + {o.value} == {o.value} + old_;
      } else {
        assert {} + old_ == old_;
      }
    }
  }

  // A change of owner that no two walks in opposite directions have to repair: one side is nobody, or the
  // old owner is running, so that it is linked nowhere and boosts nobody.
  ghost predicate OneWalk(s: Net, x: nat, o: Option<nat>)
    requires x < |s.mesg|
  {
    || s.mesg[x].owner.None? || o.None? || s.mesg[x].owner == o
    || (s.mesg[x].owner.value < |s.tcb| && s.tcb[s.mesg[x].owner.value].status == Running)
  }

  lemma TransferredSame(s: Net, x: nat, o: Option<nat>)
    requires x < |s.mesg| && (o.Some? ==> o.value < |s.tcb|)
    requires s.mesg[x].owner.Some? ==> s.mesg[x].owner.value < |s.tcb| && x in s.tcb[s.mesg[x].owner.value].mesgs
    ensures var m := Transferred(s, x, o);
            && m.q == s.q
            && forall t: nat :: t < |s.tcb| ==> m.tcb[t].prio == s.tcb[t].prio && m.tcb[t].status == s.tcb[t].status
  {
    hide Without, IndexOf;
  }

  // The loser can only rise.
  lemma TransferredRises(s: Net, x: nat)
    requires Structured(s) && SettledExcept(s, {}) && x < |s.mesg| && s.mesg[x].owner.Some?
    requires s.mesg[x].owner.value < |s.tcb| && x in s.tcb[s.mesg[x].owner.value].mesgs
    ensures Rises(Transferred(s, x, None), s.mesg[x].owner.value)
  {
    hide SettledExcept, Settled, Rises, OwnedOk, LocksOk, WaitsOk, LinksOk, Without;
    var t := s.mesg[x].owner.value;
    WithoutFacts(s.tcb[t].mesgs, x);
    SettledIn(s, t);
    FewerRises(s, Transferred(s, x, None), t);
  }

  // The winner can only fall, whatever priority a loser that boosts nobody has taken by then.
  lemma TransferredFalls(s: Net, x: nat, t: nat, mid: Net)
    requires Structured(s) && SettledExcept(s, {}) && x < |s.mesg| && t < |s.tcb| && s.mesg[x].owner != Some(t)
    requires s.mesg[x].owner.Some? ==> s.mesg[x].owner.value < |s.tcb| && x in s.tcb[s.mesg[x].owner.value].mesgs
    requires SameShape(Transferred(s, x, Some(t)), mid) && |mid.tcb| == |s.tcb|
    requires forall u: nat :: u < |s.tcb| && (u == t || s.tcb[u].status == Blocked) ==> mid.tcb[u].prio == s.tcb[u].prio
    ensures Falls(mid, t)
  {
    hide SettledExcept, Settled, Falls, OwnedOk, LocksOk, WaitsOk, Without, IndexOf;
    TransferredGraph(s, x, t, mid);
    SettledIn(s, t);
    MoreFalls(s, mid, t);
  }

  lemma TransferredGraph(s: Net, x: nat, t: nat, mid: Net)
    requires Structured(s) && x < |s.mesg| && t < |s.tcb| && s.mesg[x].owner != Some(t)
    requires s.mesg[x].owner.Some? ==> s.mesg[x].owner.value < |s.tcb| && x in s.tcb[s.mesg[x].owner.value].mesgs
    requires SameShape(Transferred(s, x, Some(t)), mid)
    ensures |mid.tcb| == |s.tcb|
    ensures forall c: nat :: Demand(s, t, c) ==> Demand(mid, t, c)
    ensures forall w: nat :: Donates(s, w, t) ==> Donates(mid, w, t) && s.tcb[w].status == Blocked
  {
    hide OwnedOk, LocksOk, WaitsOk, Without, IndexOf;
    var m := Transferred(s, x, Some(t));
    TransferredOnly(s, x, Some(t));
    forall u: nat | u < |s.tcb|
      ensures m.tcb[u] == s.tcb[u].(mesgs := m.tcb[u].mesgs) && mid.tcb[u] == m.tcb[u].(prio := mid.tcb[u].prio)
    {
    }
    forall c: nat | Demand(s, t, c) ensures Demand(mid, t, c) {
      if c != s.tcb[t].nominal {
        var y: nat :| y in s.tcb[t].mesgs && y < |s.mesg| && s.mesg[y].ceiling == Some(c);
        assert mid.tcb[t].mesgs == s.tcb[t].mesgs + [x];
        assert y in mid.tcb[t].mesgs;
      }
    }
    forall w: nat | Donates(s, w, t) ensures Donates(mid, w, t) && s.tcb[w].status == Blocked {
      assert Waiter(s, s.tcb[w].waitingFor.value, w);
    }
  }

  lemma MesgOwnerLists(s: Net, x: nat)
    requires Structured(s) && x < |s.mesg|
    ensures s.mesg[x].owner.Some? ==> s.mesg[x].owner.value < |s.tcb| && x in s.tcb[s.mesg[x].owner.value].mesgs
  {
  }

  // Only message ownership differs.
  ghost predicate MesgsOnly(s: Net, s2: Net) {
    && |s2.tcb| == |s.tcb| && s2.mtx == s.mtx && s2.q == s.q
    && forall t: nat :: t < |s.tcb| ==> s2.tcb[t] == s.tcb[t].(mesgs := s2.tcb[t].mesgs)
  }

  lemma TransferredOnly(s: Net, x: nat, o: Option<nat>)
    requires x < |s.mesg| && (o.Some? ==> o.value < |s.tcb|)
    requires s.mesg[x].owner.Some? ==> s.mesg[x].owner.value < |s.tcb| && x in s.tcb[s.mesg[x].owner.value].mesgs
    ensures MesgsOnly(s, Transferred(s, x, o))
  {
    hide Without, IndexOf;
  }

  // Everything about waiting and scheduling carries over.
  lemma MesgsOnlyKeeps(s: Net, s2: Net, calls: map<nat, nat>, w: nat)
    requires MesgsOnly(s, s2)
    ensures SameSched(s.tcb, s2.tcb)
    ensures CallsOk(s, calls) ==> CallsOk(s2, calls)
    ensures Placed(s) ==> Placed(s2)
    ensures PlacedExcept(s, w) ==> PlacedExcept(s2, w)
    ensures Linked(s2, w) ==> Linked(s, w)
  {
    forall t: nat | t < |s.tcb| ensures s2.tcb[t] == s.tcb[t].(mesgs := s2.tcb[t].mesgs) {
    }
  }

  lemma MesgsOnlyReady(s: Net, s2: Net, w: nat)
    requires MesgsOnly(s, s2) && w < |s.tcb|
    ensures MesgsOnly(BecameReady(s, w, false), BecameReady(s2, w, false))
  {
    assert s2.tcb[w] == s.tcb[w].(mesgs := s2.tcb[w].mesgs);
  }

  lemma PoppedCalls(s: Net, k: nat, calls: map<nat, nat>)
    requires CallsOk(s, calls) && Structured(s) && |s.mtx| <= k < |s.q| && s.q[k] != [] && s.q[k][0] < |s.tcb|
    ensures var w := s.q[k][0]; w in calls && calls[w] == k && !s.tcb[w].timeOut
    ensures CallsOk(BecameReady(Popped(s, k), s.q[k][0], false), calls)
  {
    assert s.q[k][0] in s.q[k] && Waiter(s, k, s.q[k][0]);
  }

  // The tasks in gone were woken by their timeout, those that were blocked with the flag set, and are
  // linked nowhere any more; the others changed at most their effective priority.
  ghost predicate TimedOut(a: Net, b: Net, gone: seq<nat>) {
    && |b.tcb| == |a.tcb| && |b.q| == |a.q| && (forall t: nat :: t in gone ==> t < |a.tcb|)
    && (forall t: nat :: t < |a.tcb| ==>
          b.tcb[t] == if t in gone
                      then a.tcb[t].(status := Ready, waitQ := None, armed := false, prio := b.tcb[t].prio,
                                     timeOut := a.tcb[t].timeOut || a.tcb[t].status == Blocked)
                      else a.tcb[t].(prio := b.tcb[t].prio))
    && (forall k: nat, x: nat {:trigger x in a.q[k]} {:trigger x in b.q[k]} ::
          k < |a.q| ==> (x in b.q[k] <==> x in a.q[k] && x !in gone))
  }

  lemma TimedOutMore(a: Net, s: Net, b: Net, gone: seq<nat>, t: nat)
    requires Wired(s) && TimedOut(a, s, gone) && t < |s.tcb| && t !in gone && s.tcb[t].status in {Sleeping, Blocked}
    requires s.tcb[t].status == Sleeping ==> b == BecameReady(s, t, s.tcb[t].timeOut)
    requires s.tcb[t].status == Blocked ==>
               && s.tcb[t].waitQ.Some? && s.tcb[t].waitQ.value < |s.q| && t in s.q[s.tcb[t].waitQ.value]
               && SameShape(BecameReady(Unlinked(s, t), t, true), b)
    ensures TimedOut(a, b, gone + [t])
  {
    hide Without, IndexOf, OwnedOk, MesgsOk, LocksOk, WaitsOk;
    var c := if s.tcb[t].status == Blocked then BecameReady(Unlinked(s, t), t, true) else b;
    ExpiredLeaves(s, t);
    forall x: nat | x < |s.tcb| ensures b.tcb[x] == c.tcb[x].(prio := b.tcb[x].prio) {
    }
    forall x: nat | x < |a.tcb| && x !in gone ensures s.tcb[x] == a.tcb[x].(prio := s.tcb[x].prio) {
    }
  }

  // Task t is linked in no queue, or only in the one it is unlinked from.
  lemma ExpiredLeaves(s: Net, t: nat)
    requires LinksOk(s) && t < |s.tcb|
    requires s.tcb[t].status == Blocked ==>
               s.tcb[t].waitQ.Some? && s.tcb[t].waitQ.value < |s.q| && t in s.q[s.tcb[t].waitQ.value]
    ensures s.tcb[t].status == Blocked ==>
              forall k: nat, x: nat :: k < |s.q| ==> (x in Unlinked(s, t).q[k] <==> x in s.q[k] && x != t)
    ensures s.tcb[t].status != Blocked ==> forall k: nat :: k < |s.q| ==> t !in s.q[k]
  {
    forall k: nat | k < |s.q| && t in s.q[k] ensures Waiter(s, k, t) {
    }
    if s.tcb[t].status == Blocked {
      WithoutFacts(s.q[s.tcb[t].waitQ.value], t);
    }
  }

  // When every priority is still right without the expired waiter, nothing else changes.
  ghost predicate QuietExpiry(s: Net, s2: Net, t: nat) {
    t < |s.tcb| && s.tcb[t].status == Blocked ==>
      && s.tcb[t].waitQ.Some? && s.tcb[t].waitQ.value < |s.q| && t in s.q[s.tcb[t].waitQ.value]
      && (SettledExcept(Unlinked(s, t), {}) ==> s2 == BecameReady(Unlinked(s, t), t, true))
  }

  // Tasks change between running, ready and sleeping, and lock depths change; nothing else does.
  ghost predicate Turned(s: Net, s2: Net) {
    && |s2.tcb| == |s.tcb| && s2.mtx == s.mtx && s2.mesg == s.mesg && s2.q == s.q
    && forall t: nat :: t < |s.tcb| ==>
         && s2.tcb[t] == s.tcb[t].(status := s2.tcb[t].status, schLock := s2.tcb[t].schLock)
         && (s.tcb[t].status == Blocked <==> s2.tcb[t].status == Blocked)
  }

  lemma TurnedCalls(s: Net, s2: Net, calls: map<nat, nat>)
    requires Placed(s) && CallsOk(s, calls) && Turned(s, s2)
    ensures Placed(s2) && CallsOk(s2, calls)
  {
    forall t: nat | t < |s.tcb|
      ensures s2.tcb[t] == s.tcb[t].(status := s2.tcb[t].status, schLock := s2.tcb[t].schLock)
    {
    }
  }

  lemma TurnedKeeps(s: Net, s2: Net, calls: map<nat, nat>)
    requires Structured(s) && Placed(s) && SettledExcept(s, {}) && CallsOk(s, calls) && Turned(s, s2)
    ensures Structured(s2) && Placed(s2) && SettledExcept(s2, {}) && CallsOk(s2, calls)
  {
    hide OwnedOk, MesgsOk, CallsOk, Placed, SettledExcept, Settled;
    TurnedCalls(s, s2, calls);
    forall t: nat | t < |s.tcb|
      ensures s2.tcb[t] == s.tcb[t].(status := s2.tcb[t].status, schLock := s2.tcb[t].schLock)
    {
    }
    OwnedSame(s, s2);
    MesgsSame(s, s2);
    StaySettled(s, s2, {}, {});
  }

  lemma TurnedOne(s: Net, t: nat, st: Status, depth: nat, calls: map<nat, nat>)
    requires Structured(s) && Placed(s) && SettledExcept(s, {}) && CallsOk(s, calls)
    requires t < |s.tcb| && (s.tcb[t].status == Blocked <==> st == Blocked)
    ensures var s2 := s.(tcb := s.tcb[t := s.tcb[t].(status := st, schLock := depth)]);
            && Turned(s, s2)
            && Structured(s2) && Placed(s2) && SettledExcept(s2, {}) && CallsOk(s2, calls)
  {
    hide Structured, Placed, SettledExcept, CallsOk;
    TurnedKeeps(s, s.(tcb := s.tcb[t := s.tcb[t].(status := st, schLock := depth)]), calls);
  }

  lemma TurnedTwo(s: Net, t: nat, st: Status, u: nat, depth: nat)
    requires t < |s.tcb| && u < |s.tcb| && s.tcb[t].status != Blocked && st != Blocked
    ensures var a := s.tcb[t := s.tcb[t].(status := st)];
            Turned(s, s.(tcb := a[u := a[u].(schLock := depth)]))
  {
  }

  // A sleeping task is linked nowhere and has no call in progress.
  lemma SleeperReadyKeeps(s: Net, w: nat, calls: map<nat, nat>)
    requires Structured(s) && Placed(s) && SettledExcept(s, {}) && CallsOk(s, calls)
    requires w < |s.tcb| && s.tcb[w].status == Sleeping
    ensures var s2 := BecameReady(s, w, s.tcb[w].timeOut);
            Structured(s2) && Placed(s2) && SettledExcept(s2, {}) && CallsOk(s2, calls)
  {
    forall j: nat | j < |s.q| ensures w !in s.q[j] {
      assert w in s.q[j] ==> Waiter(s, j, w);
    }
    BecameReadyKeeps(s, w, s.tcb[w].timeOut);
  }

  // Message x goes to the head of pool queue k, which becomes ready.
  ghost function GivenToWaiter(s: Net, k: nat, x: nat): Net
    requires Structured(s) && Placed(s) && SettledExcept(s, {})
    requires |s.mtx| <= k < |s.q| && s.q[k] != [] && x < |s.mesg|
  {
    PoppedKeeps(s, k);
    MesgOwnerLists(Popped(s, k), x);
    BecameReady(Transferred(Popped(s, k), x, Some(s.q[k][0])), s.q[k][0], false)
  }

  // What the waiter needs to be made ready once it owns the message.
  lemma GivenToWaiterKeeps(s: Net, k: nat, x: nat, calls: map<nat, nat>)
    requires Structured(s) && Placed(s) && SettledExcept(s, {}) && CallsOk(s, calls)
    requires |s.mtx| <= k < |s.q| && s.q[k] != [] && x < |s.mesg|
    ensures var w := s.q[k][0];
            && w < |s.tcb| && w in calls && calls[w] == k && !s.tcb[w].timeOut
            && var p := Popped(s, k);
            && (p.mesg[x].owner.Some? ==> p.mesg[x].owner.value < |p.tcb| && x in p.tcb[p.mesg[x].owner.value].mesgs)
            && var g := Transferred(p, x, Some(w));
            && PlacedExcept(g, w) && !Linked(g, w)
            && |g.tcb| == |s.tcb| && g.tcb[w].status == Blocked && !g.tcb[w].timeOut
            && CallsOk(GivenToWaiter(s, k, x), calls)
  {
    hide Structured, CallsOk, Placed, PlacedExcept, Linked, SettledExcept;
    PoppedKeeps(s, k);
    PoppedCalls(s, k, calls);
    var w := s.q[k][0];
    var p := Popped(s, k);
    MesgOwnerLists(p, x);
    var g := Transferred(p, x, Some(w));
    TransferredOnly(p, x, Some(w));
    MesgsOnlyKeeps(p, g, calls, w);
    MesgsOnlyReady(p, g, w);
    MesgsOnlyKeeps(BecameReady(p, w, false), BecameReady(g, w, false), calls, w);
  }
}
