// Shared by every module: optional pointers, timeout limits, and facts about sequences and sets of
// indices.
module Prelude {
  // A pointer that may be null, with indices into a table in place of addresses.
  datatype Option<+T> = None | Some(value: T)

  const NO_WAIT: nat := 0
  const WAIT_FOREVER: nat := 0xFFFF_FFFF
  const MAX_PERIOD: nat := 0x7FFF_FFFF      // the longest timeout or period, in ticks

  predicate TimeoutValid(timeout: nat) {
    timeout == WAIT_FOREVER || timeout <= MAX_PERIOD
  }

  ghost predicate NoDup<T>(s: seq<T>) {
    forall i, j :: 0 <= i < j < |s| ==> s[i] != s[j]
  }

  // The elements of a duplicate-free sequence form a set of the same size.
  lemma {:induction false} NoDupSize<T>(s: seq<T>, elems: set<T>)
    requires NoDup(s)
    requires forall x :: x in elems <==> x in s
    ensures |elems| == |s|
  {
    if s == [] {
      assert elems == {};
    } else {
      assert s[0] in elems;
      forall x ensures x in elems - {s[0]} <==> x in s[1..] {
        if x in elems - {s[0]} {
          var i :| 0 <= i < |s| && s[i] == x;
          assert s[1..][i - 1] == x;
        }
      }
      NoDupSize(s[1..], elems - {s[0]});
    }
  }

  lemma TailFacts(s: seq<nat>)
    requires NoDup(s) && s != []
    ensures NoDup(s[1..]) && s[0] in s && forall z: nat :: z in s[1..] <==> z in s && z != s[0]
  {
    assert s == [s[0]] + s[1..];
  }

  // A set of indices below n has at most n members.
  lemma {:induction false} BoundedSetSize(s: set<nat>, n: nat)
    requires forall x :: x in s ==> x < n
    ensures |s| <= n
  {
    if n == 0 {
      assert s == {};
    } else {
      BoundedSetSize(s - {n - 1}, n - 1);
      assert |s| <= |s - {n - 1}| + 1;
    }
  }

  // The set of indices below n.
  ghost function Below(n: nat): (s: set<nat>)
    ensures |s| == n && forall x: nat :: x in s <==> x < n
  {
    if n == 0 then {} else Below(n - 1) + {n - 1}
  }
}
