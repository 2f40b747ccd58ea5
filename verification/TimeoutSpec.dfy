// Timeouts as a table of remaining ticks, the meaning of the delta list, and what runs of it do.
module TimeoutSpec {
  import opened Prelude
  import opened Queues

  // RK_TICK is an unsigned 32-bit word; assignments must stay inside without wrapping.
  type Tick = x: int | 0 <= x <= 0xFFFF_FFFF

  function Before(left: seq<nat>, i: int): nat
    requires i <= |left|
  {
    if i <= 0 then 0 else left[i - 1]
  }

  ghost predicate Ordered(left: seq<nat>) {
    && (forall i, j :: 0 <= i < j < |left| ==> left[i] <= left[j])
    && (forall i :: 0 <= i < |left| ==> left[i] <= MAX_PERIOD)
  }

  ghost predicate Positive(left: seq<nat>) {
    forall i: nat :: i < |left| ==> left[i] >= 1
  }

  ghost function Remaining<K>(nodes: seq<K>, left: seq<nat>): (m: map<K, nat>)
    requires NoDup(nodes) && |left| == |nodes|
    ensures m.Keys == (set k | k in nodes)
    ensures forall i :: 0 <= i < |nodes| ==> nodes[i] in m && m[nodes[i]] == left[i]
  {
    var m := map k | k in nodes :: left[Index(nodes, k)];
    assert forall i :: 0 <= i < |nodes| ==> Index(nodes, nodes[i]) == i;
    m
  }

  ghost function Index<K>(nodes: seq<K>, k: K): (i: nat)
    requires k in nodes
    ensures i < |nodes| && nodes[i] == k
  {
    var i: nat :| i < |nodes| && nodes[i] == k;
    i
  }

  lemma OrderedInsert(left: seq<nat>, p: nat, t: nat)
    requires Ordered(left) && p <= |left| && t <= MAX_PERIOD
    requires forall i: nat :: i < p ==> left[i] <= t
    requires forall i: nat :: p <= i < |left| ==> t <= left[i]
    ensures var r := InsertAt(left, p, t);
            && Ordered(r) && |r| == |left| + 1 && (Positive(left) && t >= 1 ==> Positive(r))
            && forall i: nat {:trigger r[i]} :: i < |r| ==>
                 r[i] == if i < p then left[i] else if i == p then t else left[i - 1]
  {
  }

  lemma RemainingInsert<K>(nodes: seq<K>, left: seq<nat>, p: nat, k: K, t: nat)
    requires NoDup(nodes) && |left| == |nodes| && p <= |nodes| && k !in nodes
    ensures NoDup(InsertAt(nodes, p, k)) && |InsertAt(left, p, t)| == |InsertAt(nodes, p, k)|
    ensures Remaining(InsertAt(nodes, p, k), InsertAt(left, p, t)) == Remaining(nodes, left)[k := t]
  {
    Spliced(nodes, p, k);
    hide NoDup;
    var ns, ls := InsertAt(nodes, p, k), InsertAt(left, p, t);
    var a, b := Remaining(ns, ls), Remaining(nodes, left)[k := t];
    assert a.Keys == b.Keys;
    forall x | x in a ensures a[x] == b[x] {
      var i := Index(ns, x);
      var o := if i < p then i else i - 1;
      assert i != p ==> nodes[o] == x && ls[i] == left[o];
    }
  }

  lemma OrderedRemove(left: seq<nat>, p: nat)
    requires Ordered(left) && p < |left|
    ensures var r := RemoveAt(left, p);
            && Ordered(r) && |r| == |left| - 1 && (Positive(left) ==> Positive(r))
            && forall i: nat {:trigger r[i]} :: i < |r| ==> r[i] == if i < p then left[i] else left[i + 1]
  {
  }

  lemma RemainingRemove<K>(nodes: seq<K>, left: seq<nat>, p: nat)
    requires NoDup(nodes) && |left| == |nodes| && p < |nodes|
    ensures NoDup(RemoveAt(nodes, p)) && |RemoveAt(left, p)| == |RemoveAt(nodes, p)|
    ensures Remaining(RemoveAt(nodes, p), RemoveAt(left, p)) == Remaining(nodes, left) - {nodes[p]}
  {
    Cut(nodes, p);
    hide NoDup;
    var ns, ls := RemoveAt(nodes, p), RemoveAt(left, p);
    var a, b := Remaining(ns, ls), Remaining(nodes, left) - {nodes[p]};
    assert a.Keys == b.Keys;
    forall x | x in a ensures a[x] == b[x] {
      var i := Index(ns, x);
      var o := if i < p then i else i + 1;
      assert nodes[o] == x && ls[i] == left[o];
    }
  }

  lemma OrderedAt(left: seq<nat>, i: nat)
    requires Ordered(left) && i < |left|
    ensures Before(left, i) <= left[i] <= MAX_PERIOD
  {
  }

  function Lowered(left: seq<nat>): seq<nat>
    requires Positive(left)
  {
    seq(|left|, i requires 0 <= i < |left| => left[i] - 1)
  }

  lemma LoweredFacts(left: seq<nat>)
    requires Ordered(left) && Positive(left)
    ensures var r := Lowered(left);
            && Ordered(r) && |r| == |left|
            && forall i: nat {:trigger r[i]} :: i < |r| ==> r[i] == left[i] - 1
  {
  }

  // The effect of a tick: everything has one tick less, and what had one left is gone.
  ghost function Ticked<K>(m: map<K, nat>): map<K, nat> {
    map k | k in m && m[k] > 1 :: m[k] - 1
  }

  lemma MoveOver<T>(a: seq<T>, b: seq<T>)
    requires b != []
    ensures (a + [b[0]]) + RemoveAt(b, 0) == a + b
  {
  }

  // The entries that are due after a tick are those with one tick left, and they come first.
  lemma DueFirst(left: seq<nat>, dead: seq<nat>, kept: seq<nat>)
    requires Ordered(left) && Positive(left) && Lowered(left) == dead + kept
    requires forall i: nat :: i < |dead| ==> dead[i] == 0
    requires kept != [] ==> kept[0] >= 1
    ensures |left| == |dead| + |kept| && Positive(kept)
    ensures forall i: nat :: i < |dead| ==> left[i] == 1
    ensures forall i: nat :: i < |kept| ==> left[|dead| + i] > 1 && kept[i] == left[|dead| + i] - 1
  {
    forall i: nat | i < |dead| ensures left[i] == 1 {
      assert Lowered(left)[i] == dead[i];
    }
    forall i: nat | i < |kept| ensures left[|dead| + i] > 1 && kept[i] == left[|dead| + i] - 1 {
      assert Lowered(left)[|dead| + i] == kept[i];
      assert Lowered(left)[|dead|] == kept[0];
      assert left[|dead| + i] >= left[|dead|];
    }
  }

  // The table of a list that is one list after another.
  lemma RemainingParts<K>(a: seq<K>, b: seq<K>, left: seq<nat>)
    requires NoDup(a + b) && |left| == |a| + |b|
    ensures var m := Remaining(a + b, left);
            && m.Keys == (set k | k in a) + (set k | k in b)
            && (forall i: nat :: i < |a| ==> a[i] in m && m[a[i]] == left[i])
            && (forall i: nat :: i < |b| ==> b[i] in m && m[b[i]] == left[|a| + i])
  {
    var m := Remaining(a + b, left);
    forall i: nat | i < |a| ensures a[i] in m && m[a[i]] == left[i] {
      assert (a + b)[i] == a[i];
    }
    forall i: nat | i < |b| ensures b[i] in m && m[b[i]] == left[|a| + i] {
      assert (a + b)[|a| + i] == b[i];
    }
  }

  // A tick on the list is a tick on the table.
  lemma RemainingTick<K>(gone: seq<K>, rest: seq<K>, left: seq<nat>, dead: seq<nat>, kept: seq<nat>)
    requires NoDup(gone + rest) && |dead| == |gone| && |kept| == |rest|
    requires NoDup(rest) && |left| == |gone + rest|
    requires Ordered(left) && Positive(left) && Lowered(left) == dead + kept
    requires forall i: nat :: i < |dead| ==> dead[i] == 0
    requires kept != [] ==> kept[0] >= 1
    ensures Remaining(rest, kept) == Ticked(Remaining(gone + rest, left))
  {
    hide Ordered, Positive, Lowered, NoDup, Ticked, Index;
    DueFirst(left, dead, kept);
    RemainingParts(gone, rest, left);
    var m, a := Remaining(gone + rest, left), Remaining(rest, kept);
    TickedTable(gone, rest, left, m, a);
  }

  // What leaves is what had one tick left.
  lemma RemainingDue<K>(gone: seq<K>, rest: seq<K>, left: seq<nat>, dead: seq<nat>, kept: seq<nat>)
    requires NoDup(gone + rest) && |dead| == |gone| && |kept| == |rest|
    requires Ordered(left) && Positive(left) && Lowered(left) == dead + kept
    requires forall i: nat :: i < |dead| ==> dead[i] == 0
    requires kept != [] ==> kept[0] >= 1
    ensures |left| == |gone + rest|
    ensures forall k :: k in gone <==> k in Remaining(gone + rest, left) && Remaining(gone + rest, left)[k] == 1
  {
    hide Ordered, Positive, Lowered, NoDup, Ticked;
    DueFirst(left, dead, kept);
    RemainingParts(gone, rest, left);
    var m := Remaining(gone + rest, left);
    forall k | k in m ensures k in gone <==> m[k] == 1 {
      if k in gone {
        assert gone[Index(gone, k)] == k;
      } else {
        var i := Index(rest, k);
        var c := kept[i];
        assert left[|gone| + i] > 1;
      }
    }
  }

  lemma TickedTable<K>(gone: seq<K>, rest: seq<K>, left: seq<nat>, m: map<K, nat>, a: map<K, nat>)
    requires m.Keys == (set k | k in gone) + (set k | k in rest) && a.Keys == (set k | k in rest)
    requires |left| == |gone| + |rest|
    requires forall i: nat :: i < |gone| ==> m[gone[i]] == 1
    requires forall i: nat :: i < |rest| ==> m[rest[i]] > 1 && a[rest[i]] == m[rest[i]] - 1
    ensures a == Ticked(m)
    ensures forall k :: k in gone <==> k in m && m[k] == 1
  {
    forall k | k in gone ensures m[k] == 1 {
      assert gone[Index(gone, k)] == k;
    }
    forall k | k in rest ensures m[k] > 1 && a[k] == m[k] - 1 {
      assert rest[Index(rest, k)] == k;
    }
  }

  lemma DistinctParts<K>(a: seq<K>, b: seq<K>)
    requires NoDup(a + b)
    ensures NoDup(a) && NoDup(b)
  {
    forall i, j | 0 <= i < j < |a| ensures a[i] != a[j] {
      assert (a + b)[i] != (a + b)[j];
    }
    forall i, j | 0 <= i < j < |b| ensures b[i] != b[j] {
      assert (a + b)[|a| + i] != (a + b)[|a| + j];
    }
  }

  lemma EmptyTicks<K>(nodes: seq<K>, left: seq<nat>)
    requires nodes == [] && left == []
    ensures NoDup(nodes) && Remaining(nodes, left) == map[] && Ticked(Remaining(nodes, left)) == map[]
  {
  }

  // ---- runs --------------------------------------------------------------------------------

  datatype TimeoutOp<K> = Arm(node: K, timeout: Tick) | Cancel(node: K) | TickOp

  // Arming an armed node is excluded by the kernel; a timeout of 0 or beyond the limit is refused.
  ghost function Apply<K>(m: map<K, nat>, op: TimeoutOp<K>): map<K, nat> {
    match op
    case Arm(n, t) => if n !in m && 1 <= t <= MAX_PERIOD then m[n := t] else m
    case Cancel(n) => m - {n}
    case TickOp => Ticked(m)
  }

  ghost function Run<K>(m: map<K, nat>, ops: seq<TimeoutOp<K>>): map<K, nat>
    decreases |ops|
  {
    if ops == [] then m else Run(Apply(m, ops[0]), ops[1..])
  }

  function Ticks<K>(ops: seq<TimeoutOp<K>>): nat {
    if ops == [] then 0 else (if ops[0].TickOp? then 1 else 0) + Ticks(ops[1..])
  }

  ghost predicate LeavesAlone<K>(ops: seq<TimeoutOp<K>>, k: K) {
    forall op :: op in ops ==> (op.Arm? ==> op.node != k) && (op.Cancel? ==> op.node != k)
  }

  // A node armed with t, and neither cancelled nor armed again, is pending until the t-th tick,
  // with as many ticks left as have not passed, whatever happens to the other nodes.
  lemma {:induction false} ExactExpiry<K>(m: map<K, nat>, ops: seq<TimeoutOp<K>>, k: K)
    requires k in m && m[k] >= 1 && LeavesAlone(ops, k)
    ensures Ticks(ops) < m[k] ==> k in Run(m, ops) && Run(m, ops)[k] == m[k] - Ticks(ops)
    ensures Ticks(ops) >= m[k] ==> k !in Run(m, ops)
    decreases |ops|
  {
    if ops != [] {
      assert ops[0] in ops;
      var m2 := Apply(m, ops[0]);
      assert LeavesAlone(ops[1..], k) by {
        assert forall op :: op in ops[1..] ==> op in ops;
      }
      if k in m2 {
        ExactExpiry(m2, ops[1..], k);
      } else {
        StaysOut(m2, ops[1..], k);
      }
    }
  }

  lemma {:induction false} StaysOut<K>(m: map<K, nat>, ops: seq<TimeoutOp<K>>, k: K)
    requires k !in m && LeavesAlone(ops, k)
    ensures k !in Run(m, ops)
    decreases |ops|
  {
    if ops != [] {
      assert ops[0] in ops;
      assert LeavesAlone(ops[1..], k) by {
        assert forall op :: op in ops[1..] ==> op in ops;
      }
      StaysOut(Apply(m, ops[0]), ops[1..], k);
    }
  }

  lemma EmptyRun<K>(m: map<K, nat>)
    ensures Run(m, []) == m
  {
  }

  lemma {:induction false} RunAppend<K>(m: map<K, nat>, ops: seq<TimeoutOp<K>>, op: TimeoutOp<K>)
    ensures Run(m, ops + [op]) == Apply(Run(m, ops), op)
    decreases |ops|
  {
    if ops == [] {
      assert Run(m, [op]) == Run(Apply(m, op), []);
    } else {
      assert (ops + [op])[1..] == ops[1..] + [op];
      RunAppend(Apply(m, ops[0]), ops[1..], op);
    }
  }

  lemma NoTicks<K>()
    ensures Ticks<K>([]) == 0
  {
  }

  lemma {:induction false} TicksAppend<K>(ops: seq<TimeoutOp<K>>, op: TimeoutOp<K>)
    ensures Ticks(ops + [op]) == Ticks(ops) + if op.TickOp? then 1 else 0
    decreases |ops|
  {
    if ops == [] {
      assert Ticks([op]) == (if op.TickOp? then 1 else 0) + Ticks<K>([]);
    } else {
      assert (ops + [op])[1..] == ops[1..] + [op];
      TicksAppend(ops[1..], op);
    }
  }

  // After i operations, the next tick is the last of a node left alone exactly when it is its m[k]-th.
  lemma LastTick<K>(m: map<K, nat>, ops: seq<TimeoutOp<K>>, i: nat, k: K)
    requires i <= |ops| && k in m && m[k] >= 1 && LeavesAlone(ops, k)
    ensures var r := Run(m, ops[..i]); k in r && r[k] == 1 <==> Ticks(ops[..i]) + 1 == m[k]
  {
    assert forall op :: op in ops[..i] ==> op in ops;
    ExactExpiry(m, ops[..i], k);
  }

  // What a node has left is the sum of the differences up to it.
  function Sum(d: seq<nat>): nat {
    if d == [] then 0 else Sum(d[..|d| - 1]) + d[|d| - 1]
  }

  lemma {:induction false} PrefixSums(d: seq<nat>, left: seq<nat>, i: nat)
    requires |d| == |left| && i < |d|
    requires forall j: nat :: j < |d| ==> left[j] >= Before(left, j) && d[j] == left[j] - Before(left, j)
    ensures Sum(d[..i + 1]) == left[i]
  {
    assert d[..i + 1][..i] == d[..i];
    if i > 0 {
      PrefixSums(d, left, i - 1);
    }
  }
}
