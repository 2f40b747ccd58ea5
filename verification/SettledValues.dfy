// Every value a settled network can give a task, deadlocks included: with no cycle behind it, its
// least transitive demand alone; on a cycle, anything from that demand down to the best priority.
module SettledValues {
  import opened Prelude
  import opened KernelState
  import opened Transitive

  // Some network that differs from s in effective priorities only settles with v at t.
  ghost predicate CanSettle(s: Net, t: nat, v: nat) {
    exists s2: Net :: SameShape(s, s2) && SettledExcept(s2, {}) && t < |s2.tcb| && s2.tcb[t].prio == v
  }

  // ---- networks of the same shape ------------------------------------------------------------

  lemma SameEdges(s: Net, s2: Net)
    requires SameShape(s, s2)
    ensures forall w: nat, t: nat {:trigger Donates(s2, w, t)} :: Donates(s, w, t) <==> Donates(s2, w, t)
    ensures forall t: nat, c: nat {:trigger Demand(s2, t, c)} :: Demand(s, t, c) <==> Demand(s2, t, c)
  {
    forall t: nat | t < |s.tcb| ensures s.tcb[t].(prio := s2.tcb[t].prio) == s2.tcb[t] {
    }
  }

  lemma SameChains(s: Net, s2: Net, t: nat)
    requires SameShape(s, s2)
    ensures NoCycleBehind(s, t) <==> NoCycleBehind(s2, t)
    ensures forall c: nat :: TransitiveDemand(s, t, c) <==> TransitiveDemand(s2, t, c)
  {
    SameEdges(s, s2);
    hide Donates, Demand;
    assert forall p: seq<nat> {:trigger Chain(s2, p)} :: Chain(s, p) <==> Chain(s2, p);
    assert forall w: nat {:trigger WaitsFor(s2, w, t)} :: WaitsFor(s, w, t) <==> WaitsFor(s2, w, t);
    forall c: nat ensures TransitiveDemand(s, t, c) <==> TransitiveDemand(s2, t, c) {
      if TransitiveDemand(s, t, c) {
        var w: nat :| WaitsFor(s, w, t) && Demand(s, w, c);
        assert WaitsFor(s2, w, t) && Demand(s2, w, c);
      }
      if TransitiveDemand(s2, t, c) {
        var w: nat :| WaitsFor(s2, w, t) && Demand(s2, w, c);
        assert WaitsFor(s, w, t) && Demand(s, w, c);
      }
    }
  }

  // ---- the least demand ------------------------------------------------------------------------

  lemma {:induction false} LeastBelow(s: Net, t: nat, c: nat) returns (p: nat)
    requires TransitiveDemand(s, t, c)
    ensures IsLeastDemand(s, t, p) && p <= c
    decreases c
  {
    if d: nat :| d < c && TransitiveDemand(s, t, d) {
      p := LeastBelow(s, t, d);
    } else {
      p := c;
    }
  }

  ghost function Least(s: Net, t: nat): (p: nat)
    requires t < |s.tcb|
    ensures IsLeastDemand(s, t, p)
  {
    OwnDemand(s, t);
    var p: nat :| IsLeastDemand(s, t, p);
    p
  }

  lemma OwnDemand(s: Net, t: nat)
    requires t < |s.tcb|
    ensures exists p: nat :: IsLeastDemand(s, t, p)
    ensures forall c: nat :: Demand(s, t, c) ==> TransitiveDemand(s, t, c)
  {
    assert Chain(s, [t]);
    assert WaitsFor(s, t, t) by {
      assert [t][0] == t && [t][|[t]| - 1] == t;
    }
    assert Demand(s, t, s.tcb[t].nominal);
    var p := LeastBelow(s, t, s.tcb[t].nominal);
  }

  // What w waits for inherits every demand behind w.
  lemma PassedOn(s: Net, w: nat, t: nat, c: nat)
    requires Donates(s, w, t) && t < |s.tcb| && TransitiveDemand(s, w, c)
    ensures TransitiveDemand(s, t, c)
  {
    var x: nat :| WaitsFor(s, x, w) && Demand(s, x, c);
    var p: seq<nat> :| Chain(s, p) && p[0] == x && p[|p| - 1] == w;
    var r := p + [t];
    assert Chain(s, r) && r[0] == x && r[|r| - 1] == t;
    assert WaitsFor(s, x, t);
  }

  // A demand on t is its own or comes through one of its donors.
  lemma Through(s: Net, t: nat, c: nat)
    requires TransitiveDemand(s, t, c)
    ensures Demand(s, t, c) || exists w: nat :: Donates(s, w, t) && w < |s.tcb| && TransitiveDemand(s, w, c)
  {
    var x: nat :| WaitsFor(s, x, t) && Demand(s, x, c);
    var p: seq<nat> :| Chain(s, p) && p[0] == x && p[|p| - 1] == t;
    if |p| > 1 {
      var r := p[..|p| - 1];
      assert Chain(s, r) && r[0] == x;
      assert WaitsFor(s, x, r[|r| - 1]);
      assert Donates(s, p[|p| - 2], p[|p| - 1]);
    }
  }

  // ---- cycles ----------------------------------------------------------------------------------

  ghost predicate Loop(s: Net, c: seq<nat>, t: nat) {
    Chain(s, c) && |c| > 1 && c[0] == t && c[|c| - 1] == t
  }

  // A task waits for one other at most, so whoever has a cycle behind it lies on the cycle.
  lemma {:induction false} SameSuccessors(s: Net, p: seq<nat>, i: nat, j: nat, n: nat)
    requires Chain(s, p) && i < j && j + n < |p| && p[i] == p[j]
    ensures p[i + n] == p[j + n]
  {
    if n > 0 {
      SameSuccessors(s, p, i, j, n - 1);
      assert Donates(s, p[i + n - 1], p[i + n - 1 + 1]) && Donates(s, p[j + n - 1], p[j + n - 1 + 1]);
    }
  }

  lemma OnItsCycle(s: Net, t: nat) returns (c: seq<nat>)
    requires !NoCycleBehind(s, t)
    ensures Loop(s, c, t)
  {
    var p: seq<nat> :| Chain(s, p) && p[|p| - 1] == t && !NoDup(p);
    var i: nat, j: nat :| i < j < |p| && p[i] == p[j];
    var n := |p| - 1 - j;
    SameSuccessors(s, p, i, j, n);
    SubChain(s, p, i + n, |p|);
    c := p[i + n..];
  }

  // Whatever t waits for lies on the cycle of t.
  lemma {:induction false} StaysOnCycle(s: Net, c: seq<nat>, t: nat, r: seq<nat>) returns (k: nat)
    requires Loop(s, c, t) && Chain(s, r) && r[0] == t
    ensures 1 <= k < |c| && c[k] == r[|r| - 1]
    decreases |r|
  {
    k := |c| - 1;
    if |r| > 1 {
      var j := StaysOnCycle(s, c, t, r[..|r| - 1]);
      k := if j == |c| - 1 then 1 else j + 1;
      assert Donates(s, r[|r| - 2], r[|r| - 2 + 1]) && Donates(s, c[k - 1], c[k - 1 + 1]);
    }
  }

  // A task on the cycle waits for t, and its predecessor there donates to it.
  lemma AroundCycle(s: Net, c: seq<nat>, t: nat, x: nat) returns (w: nat)
    requires Loop(s, c, t) && WaitsFor(s, t, x)
    ensures w < |s.tcb| && Donates(s, w, x) && WaitsFor(s, t, w) && WaitsFor(s, x, t)
  {
    var r: seq<nat> :| Chain(s, r) && r[0] == t && r[|r| - 1] == x;
    var k := StaysOnCycle(s, c, t, r);
    SubChain(s, c, k, |c|);
    SubChain(s, c, 0, k);
    w := c[k - 1];
    assert Donates(s, c[k - 1], c[k - 1 + 1]);
    var back, there := c[k..], c[0..k];
    assert Chain(s, back) && back[0] == x && back[|back| - 1] == t;
    assert Chain(s, there) && there[0] == t && there[|there| - 1] == w;
  }

  // ---- the assignments -------------------------------------------------------------------------

  // The least demand everywhere, but v for everything t waits for when t lies on a cycle.
  ghost function Price(s: Net, t: nat, v: nat, x: nat): nat
    requires x < |s.tcb|
  {
    if !NoCycleBehind(s, t) && WaitsFor(s, t, x) then v else Least(s, x)
  }

  ghost function Priced(s: Net, t: nat, v: nat): Net {
    s.(tcb := seq(|s.tcb|, x requires 0 <= x < |s.tcb| => s.tcb[x].(prio := Price(s, t, v, x))))
  }

  lemma LeastSame(s: Net, x: nat, t: nat)
    requires x < |s.tcb| && t < |s.tcb| && WaitsFor(s, x, t)
    ensures Least(s, t) <= Least(s, x)
  {
    var p: seq<nat> :| Chain(s, p) && p[0] == x && p[|p| - 1] == t;
    LeastAlong(s, p);
  }

  lemma {:induction false} LeastAlong(s: Net, p: seq<nat>)
    requires Chain(s, p)
    ensures Least(s, p[|p| - 1]) <= Least(s, p[0])
    decreases |p|
  {
    if |p| > 1 {
      assert Donates(s, p[0], p[1]);
      PassedOn(s, p[0], p[1], Least(s, p[0]));
      SubChain(s, p, 1, |p|);
      LeastAlong(s, p[1..|p|]);
    }
  }

  // A donor is worth no less than what it donates to.
  lemma DonorPrice(s: Net, t: nat, v: nat, w: nat, x: nat)
    requires t < |s.tcb| && v <= Least(s, t) && Donates(s, w, x) && x < |s.tcb|
    ensures w < |s.tcb| && Price(s, t, v, x) <= Price(s, t, v, w)
  {
    PassedOn(s, w, x, Least(s, w));
    if !NoCycleBehind(s, t) && WaitsFor(s, t, w) {
      var r: seq<nat> :| Chain(s, r) && r[0] == t && r[|r| - 1] == w;
      assert Chain(s, r + [x]) && (r + [x])[0] == t && (r + [x])[|r + [x]| - 1] == x;
      assert WaitsFor(s, t, x);
    } else if !NoCycleBehind(s, t) && WaitsFor(s, t, x) {
      var c := OnItsCycle(s, t);
      var y := AroundCycle(s, c, t, x);
      LeastSame(s, x, t);
    }
  }

  lemma PriceAttained(s: Net, t: nat, v: nat, x: nat)
    requires t < |s.tcb| && v <= Least(s, t) && x < |s.tcb|
    ensures forall c: nat :: Demand(s, x, c) ==> Price(s, t, v, x) <= c
    ensures Demand(s, x, Price(s, t, v, x))
            || exists w: nat :: w < |s.tcb| && Donates(s, w, x) && Price(s, t, v, w) == Price(s, t, v, x)
  {
    OwnDemand(s, x);
    if !NoCycleBehind(s, t) && WaitsFor(s, t, x) {
      var c := OnItsCycle(s, t);
      var w := AroundCycle(s, c, t, x);
      LeastSame(s, x, t);
      assert Donates(s, w, x) && Price(s, t, v, w) == Price(s, t, v, x);
    } else if !Demand(s, x, Least(s, x)) {
      Through(s, x, Least(s, x));
      var w: nat :| Donates(s, w, x) && w < |s.tcb| && TransitiveDemand(s, w, Least(s, x));
      DonorPrice(s, t, v, w, x);
      assert Price(s, t, v, w) <= Least(s, w) by {
        if !NoCycleBehind(s, t) && WaitsFor(s, t, w) {
          var c := OnItsCycle(s, t);
          var y := AroundCycle(s, c, t, w);
          LeastSame(s, w, t);
        }
      }
    }
  }

  lemma PricedShape(s: Net, t: nat, v: nat)
    ensures SameShape(s, Priced(s, t, v))
  {
    assert SameMembers(s.q, Priced(s, t, v).q);
  }

  lemma PricedAt(s: Net, t: nat, v: nat, x: nat)
    requires t < |s.tcb| && v <= Least(s, t) && x < |s.tcb|
    ensures Settled(Priced(s, t, v), x)
  {
    var s2 := Priced(s, t, v);
    PricedShape(s, t, v);
    SameEdges(s, s2);
    PriceAttained(s, t, v, x);
    hide Donates, Demand, Price, SameShape;
    forall w: nat | Donates(s2, w, x) ensures w < |s.tcb| && s2.tcb[x].prio <= s2.tcb[w].prio {
      DonorPrice(s, t, v, w, x);
    }
    if !Demand(s2, x, s2.tcb[x].prio) {
      var w: nat :| w < |s.tcb| && Donates(s, w, x) && Price(s, t, v, w) == Price(s, t, v, x);
      assert Donates(s2, w, x) && s2.tcb[w].prio == s2.tcb[x].prio;
    }
  }

  lemma PricedSettles(s: Net, t: nat, v: nat)
    requires t < |s.tcb| && v <= Least(s, t)
    ensures SettledExcept(Priced(s, t, v), {})
  {
    forall x: nat | x < |s.tcb| ensures Settled(Priced(s, t, v), x) {
      PricedAt(s, t, v, x);
    }
  }

  // ---- the settled values ----------------------------------------------------------------------

  lemma SettledAt(s: Net, t: nat, v: nat)
    requires t < |s.tcb|
    ensures CanSettle(s, t, v) <==>
              if NoCycleBehind(s, t) then IsLeastDemand(s, t, v)
              else exists c: nat :: IsLeastDemand(s, t, c) && v <= c
  {
    if s2: Net :| SameShape(s, s2) && SettledExcept(s2, {}) && t < |s2.tcb| && s2.tcb[t].prio == v {
      SameChains(s, s2, t);
      if NoCycleBehind(s, t) {
        LeastDemand(s2, t);
      } else {
        NeverWorse(s2, t, Least(s, t));
      }
    }
    if v <= Least(s, t) && (NoCycleBehind(s, t) ==> v == Least(s, t)) {
      PricedSettles(s, t, v);
      PricedShape(s, t, v);
      var s2 := Priced(s, t, v);
      if !NoCycleBehind(s, t) {
        assert WaitsFor(s, t, t) by {
          assert Chain(s, [t]) && [t][0] == t;
        }
      }
      assert SameShape(s, s2) && s2.tcb[t].prio == v;
    }
  }

  // The local rule determines the priority of t exactly when no cycle lies behind t, or somebody
  // behind it already demands the best priority there is.
  lemma Determined(s: Net, t: nat)
    requires t < |s.tcb|
    ensures (forall v: nat, w: nat :: CanSettle(s, t, v) && CanSettle(s, t, w) ==> v == w)
            <==> NoCycleBehind(s, t) || TransitiveDemand(s, t, 0)
  {
    hide CanSettle, NoCycleBehind, TransitiveDemand;
    var c := Least(s, t);
    forall v: nat ensures CanSettle(s, t, v) <==> v == c || (!NoCycleBehind(s, t) && v <= c) {
      SettledAt(s, t, v);
    }
    assert TransitiveDemand(s, t, 0) <==> c == 0;
    assert CanSettle(s, t, c);
    assert CanSettle(s, t, 0) <==> c == 0 || !NoCycleBehind(s, t);
  }
}
