// Taking a task out of a queue and putting it back by priority, on the sequences that stand for
// the kernel's linked lists.
module Queues {
  import opened Prelude
  import opened KernelState

  function IndexOf<T(==)>(s: seq<T>, t: T): (n: nat)
    requires t in s
    ensures n < |s| && s[n] == t
  {
    if s[0] == t then 0 else 1 + IndexOf(s[1..], t)
  }

  function Without<T(==)>(s: seq<T>, t: T): seq<T>
    requires t in s
  {
    var n := IndexOf(s, t);
    s[..n] + s[n + 1..]
  }

  function InsertAt<T>(s: seq<T>, i: nat, t: T): seq<T>
    requires i <= |s|
  {
    s[..i] + [t] + s[i..]
  }

  // Slot i lies behind every task of priority p or better and in front of all the others.
  ghost predicate IsPrioSlot(tcb: seq<Tcb>, s: seq<nat>, p: nat, i: nat) {
    && i <= |s|
    && (forall j: nat :: j < |s| ==> s[j] < |tcb|)
    && (forall j: nat :: j < i ==> tcb[s[j]].prio <= p)
    && (forall j: nat :: i <= j < |s| ==> tcb[s[j]].prio > p)
  }

  lemma WithoutFacts<T>(s: seq<T>, t: T)
    requires NoDup(s) && t in s
    ensures NoDup(Without(s, t)) && |Without(s, t)| == |s| - 1
    ensures forall x :: x in Without(s, t) <==> x in s && x != t
  {
    var n := IndexOf(s, t);
    var r := Without(s, t);
    forall x | x in s && x != t ensures x in r {
      var k :| 0 <= k < |s| && s[k] == x;
      assert k < n ==> r[k] == x;
      assert k > n ==> r[k - 1] == x;
    }
  }

  lemma InsertFacts<T>(s: seq<T>, i: nat, t: T)
    requires NoDup(s) && t !in s && i <= |s|
    ensures NoDup(InsertAt(s, i, t)) && |InsertAt(s, i, t)| == |s| + 1
    ensures forall x :: x in InsertAt(s, i, t) <==> x in s || x == t
  {
    assert s == s[..i] + s[i..];
  }

  // What is left stays sorted even after the removed task has changed its priority.
  lemma SortedWithout(tcb: seq<Tcb>, tcb': seq<Tcb>, s: seq<nat>, t: nat)
    requires SortedQueue(tcb, s) && NoDup(s) && t in s
    requires |tcb| == |tcb'| && forall x: nat :: x < |tcb| && x != t ==> tcb[x].prio == tcb'[x].prio
    ensures SortedQueue(tcb', Without(s, t))
  {
    var n := IndexOf(s, t);
    var r := Without(s, t);
    forall i: nat | i < |r| ensures r[i] == s[if i < n then i else i + 1] && r[i] != t {
    }
  }

  // A queue without the task that changed its priority, or with nobody else in it.
  lemma SortedApart(tcb: seq<Tcb>, tcb': seq<Tcb>, s: seq<nat>, t: nat)
    requires SortedQueue(tcb, s) && (t !in s || |s| <= 1)
    requires |tcb| == |tcb'| && forall x: nat :: x < |tcb| && x != t ==> tcb[x].prio == tcb'[x].prio
    ensures SortedQueue(tcb', s)
  {
    assert forall i: nat :: i < |s| ==> s[i] in s;
  }

  lemma SortedInsert(tcb: seq<Tcb>, s: seq<nat>, i: nat, t: nat)
    requires SortedQueue(tcb, s) && t < |tcb| && IsPrioSlot(tcb, s, tcb[t].prio, i)
    ensures SortedQueue(tcb, InsertAt(s, i, t))
  {
  }

  // ---- order -------------------------------------------------------------------------------------

  ghost predicate Ahead<T>(s: seq<T>, a: T, b: T) {
    exists i: nat, j: nat :: i < j < |s| && s[i] == a && s[j] == b
  }

  // Of two that stay, the one that was ahead is still ahead.
  ghost predicate OrderKept<T(!new)>(s: seq<T>, s2: seq<T>) {
    forall a, b :: a in s2 && b in s2 && Ahead(s, a, b) ==> Ahead(s2, a, b)
  }

  lemma WithoutOrder<T(!new)>(s: seq<T>, t: T)
    requires NoDup(s) && t in s
    ensures OrderKept(s, Without(s, t))
  {
    var n, r := IndexOf(s, t), Without(s, t);
    forall a, b | a in r && b in r && Ahead(s, a, b) ensures Ahead(r, a, b) {
      var i: nat, j: nat :| i < j < |s| && s[i] == a && s[j] == b;
      WithoutFacts(s, t);
      assert i != n && j != n;
      assert r[if i < n then i else i - 1] == a && r[if j < n then j else j - 1] == b;
    }
  }

  lemma InsertOrder<T(!new)>(s: seq<T>, i: nat, t: T)
    requires i <= |s|
    ensures OrderKept(s, InsertAt(s, i, t))
  {
    var r := InsertAt(s, i, t);
    forall a, b | Ahead(s, a, b) ensures Ahead(r, a, b) {
      var j: nat, k: nat :| j < k < |s| && s[j] == a && s[k] == b;
      assert r[if j < i then j else j + 1] == a && r[if k < i then k else k + 1] == b;
    }
  }

  lemma TailOrder<T(!new)>(s: seq<T>)
    requires s != [] && NoDup(s)
    ensures OrderKept(s, s[1..])
  {
    forall a, b | a in s[1..] && b in s[1..] && Ahead(s, a, b) ensures Ahead(s[1..], a, b) {
      var j: nat, k: nat :| j < k < |s| && s[j] == a && s[k] == b;
      assert j > 0;
      assert s[1..][j - 1] == a && s[1..][k - 1] == b;
    }
  }

  // One more has left.
  lemma OrderWithout<T(!new)>(s: seq<T>, s2: seq<T>, t: T)
    requires OrderKept(s, s2) && NoDup(s2) && t in s2
    ensures OrderKept(s, Without(s2, t)) && forall x :: x in Without(s2, t) <==> x in s2 && x != t
  {
    WithoutOrder(s2, t);
    WithoutFacts(s2, t);
  }

  lemma SameOrder<T(!new)>(s: seq<T>)
    ensures OrderKept(s, s)
  {
  }

  // ---- the same by position ------------------------------------------------------------------

  lemma Spliced<K>(s: seq<K>, p: nat, k: K)
    requires NoDup(s) && p <= |s| && k !in s
    ensures var r := InsertAt(s, p, k);
            && NoDup(r) && |r| == |s| + 1
            && (forall i: nat {:trigger r[i]} :: i < |r| ==>
                  r[i] == if i < p then s[i] else if i == p then k else s[i - 1])
            && (forall x :: x in r <==> x in s || x == k)
  {
    InsertFacts(s, p, k);
  }

  lemma OnlyAt<K>(s: seq<K>, p: int)
    requires NoDup(s)
    ensures 0 <= p < |s| ==> forall i: nat :: i < |s| && i != p ==> s[i] != s[p]
  {
  }

  function RemoveAt<T>(s: seq<T>, p: nat): seq<T>
    requires p < |s|
  {
    s[..p] + s[p + 1..]
  }

  lemma Cut<K>(s: seq<K>, p: nat)
    requires NoDup(s) && p < |s|
    ensures var r := RemoveAt(s, p);
            && NoDup(r) && |r| == |s| - 1
            && (forall i: nat {:trigger r[i]} :: i < |r| ==> r[i] == if i < p then s[i] else s[i + 1])
            && (forall x :: x in r <==> x in s && x != s[p])
  {
    var r := RemoveAt(s, p);
    forall x | x in s && x != s[p] ensures x in r {
      var i: nat :| i < |s| && s[i] == x;
      assert r[if i < p then i else i - 1] == x;
    }
  }
}
