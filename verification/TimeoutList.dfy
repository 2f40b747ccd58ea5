// The timeout list: a doubly linked list in which every node stores only the ticks that pass after
// its predecessor has expired.
module TimeoutList {
  import opened Prelude
  import opened Queues
  import opened TimeoutSpec

  class Node {
    var next: Node?
    var prev: Node?
    var dtick: Tick
    var armed: bool
  }

  ghost function At(nodes: seq<Node>, i: int): Node? {
    if 0 <= i < |nodes| then nodes[i] else null
  }

  // Node n enters at place p, behind what expires earlier and ahead of the rest.
  ghost predicate PlacedAt(nodes: seq<Node>, left: seq<nat>, n: Node, timeout: nat, p: nat,
                           nodes2: seq<Node>, left2: seq<nat>)
  {
    && p <= |nodes| == |left| && nodes2 == InsertAt(nodes, p, n) && left2 == InsertAt<nat>(left, p, timeout)
    && (forall i: nat :: i < p ==> left[i] < timeout)
    && (forall i: nat :: p <= i < |left| ==> timeout <= left[i])
  }

  // The list without node n, if it was there.
  ghost function Unlisted(nodes: seq<Node>, n: Node): seq<Node> {
    if n in nodes then RemoveAt(nodes, Index(nodes, n)) else nodes
  }

  class TimeoutList {
    var head: Node?
    ghost var nodes: seq<Node>      // in list order
    ghost var left: seq<nat>        // ticks each node has left
    ghost const pool: set<Node>     // every node of the system

    // The links are those of a doubly linked list of the nodes, in order.
    ghost predicate Forward()
      reads this`nodes, this`head, pool`next
    {
      && head == At(nodes, 0) && (forall n :: n in nodes ==> n in pool)
      && (forall i: nat {:trigger nodes[i].next} :: i < |nodes| ==> nodes[i].next == At(nodes, i + 1))
    }

    ghost predicate Backward(ns: seq<Node>)
      reads pool`prev
    {
      && (forall n :: n in ns ==> n in pool)
      && (forall i: nat {:trigger ns[i].prev} :: i < |ns| ==> ns[i].prev == At(ns, i - 1))
    }

    // The differences add up to the ticks left.
    ghost predicate Deltas(ns: seq<Node>, ls: seq<nat>)
      reads pool`dtick
    {
      && |ls| == |ns| && Ordered(ls) && (forall n :: n in ns ==> n in pool)
      && (forall i: nat {:trigger ns[i].dtick} :: i < |ns| ==> ns[i].dtick == ls[i] - Before(ls, i))
    }

    ghost predicate Armed()
      reads this`nodes, pool`armed
    {
      forall n :: n in pool ==> (n.armed <==> n in nodes)
    }

    ghost predicate Linked()
      reads this, pool
    {
      Forward() && Backward(nodes) && NoDup(nodes) && Deltas(nodes, left) && Armed()
    }

    // Between ticks nothing is due.
    ghost predicate Valid()
      reads this, pool
    {
      Linked() && Positive(left)
    }

    ghost function Pending(): map<Node, nat>
      reads this, pool
      requires Linked()
    {
      Remaining(nodes, left)
    }

    // The next tick expires node n.
    ghost predicate IsDue(n: Node)
      reads this, pool
      requires Linked()
    {
      n in Pending() && Pending()[n] == 1
    }

    constructor (all: set<Node>)
      requires forall n :: n in all ==> !n.armed
      ensures Valid() && pool == all && Pending() == map[]
    {
      head := null;
      nodes, left, pool := [], [], all;
    }

    // Walk past the nodes that expire earlier, taking their differences off; equals stay behind.
    method FindPlace(node: Node, timeout: Tick) returns (prev: Node?, curr: Node?, ghost p: nat)
      requires Forward() && Deltas(nodes, left) && node in pool && node !in nodes
      modifies node`dtick
      ensures p <= |nodes| && curr == At(nodes, p) && prev == At(nodes, p - 1)
      ensures forall i: nat :: i < p ==> left[i] < timeout
      ensures forall i: nat :: p <= i < |left| ==> left[i] >= timeout
      ensures Deltas(nodes, left) && node.dtick == timeout - Before(left, p)
    {
      node.dtick := timeout;
      curr, prev, p := head, null, 0;
      while curr != null && curr.dtick < node.dtick
        invariant p <= |nodes| && curr == At(nodes, p) && prev == At(nodes, p - 1)
        invariant forall i: nat :: i < p ==> left[i] < timeout
        invariant Deltas(nodes, left) && node.dtick == timeout - Before(left, p)
        decreases |nodes| - p
      {
        node.dtick := node.dtick - curr.dtick;
        prev := curr;
        curr := curr.next;
        p := p + 1;
      }
      if p < |nodes| {
        assert nodes[p].dtick == left[p] - Before(left, p);
      }
    }

    method LinkBack(node: Node, prev: Node?, curr: Node?, ghost p: nat)
      requires Backward(nodes) && NoDup(nodes) && node in pool && node !in nodes
      requires p <= |nodes| && curr == At(nodes, p) && prev == At(nodes, p - 1)
      modifies pool`prev
      ensures Backward(InsertAt(nodes, p, node))
    {
      hide NoDup, InsertAt;
      node.prev := prev;
      if curr != null {
        curr.prev := node;
      }
      ghost var ns := InsertAt(nodes, p, node);
      Spliced(nodes, p, node);
      OnlyAt(nodes, p);
      forall i: nat | i < |ns| ensures ns[i].prev == At(ns, i - 1) {
        if i != p {
          var o: nat := if i < p then i else i - 1;
          assert ns[i] == nodes[o] && nodes[o] in nodes;
          assert old(nodes[o].prev) == At(nodes, o - 1);
        }
      }
    }

    method LinkForward(node: Node, prev: Node?, curr: Node?, ghost p: nat)
      requires Forward() && NoDup(nodes) && node in pool && node !in nodes
      requires p <= |nodes| && curr == At(nodes, p) && prev == At(nodes, p - 1)
      modifies this`head, this`nodes, pool`next
      ensures Forward() && NoDup(nodes) && nodes == InsertAt(old(nodes), p, node)
    {
      hide NoDup, InsertAt;
      ghost var was := nodes;
      node.next := curr;
      if prev != null {
        prev.next := node;
      } else {
        head := node;
      }
      nodes := InsertAt(nodes, p, node);
      Spliced(was, p, node);
      OnlyAt(was, p - 1);
      forall i: nat | i < |nodes| ensures nodes[i].next == At(nodes, i + 1) {
        if i != p {
          var o: nat := if i < p then i else i - 1;
          assert nodes[i] == was[o] && was[o] in was;
          assert old(was[o].next) == At(was, o + 1);
        }
      }
    }

    // Link node between prev and curr.
    method Link(node: Node, prev: Node?, curr: Node?, ghost p: nat)
      requires Forward() && Backward(nodes) && NoDup(nodes) && node in pool && node !in nodes
      requires p <= |nodes| && curr == At(nodes, p) && prev == At(nodes, p - 1)
      modifies this`head, this`nodes, pool`next, pool`prev
      ensures Forward() && Backward(nodes) && NoDup(nodes)
      ensures nodes == InsertAt(old(nodes), p, node)
    {
      hide NoDup, InsertAt, Backward, Forward;
      LinkBack(node, prev, curr, p);
      LinkForward(node, prev, curr, p);
    }

    // The node behind the new one counts from there.
    method SplitDelta(node: Node, curr: Node?, timeout: Tick, ghost p: nat, ghost was: seq<Node>)
      requires node in pool && node !in was && p <= |was| == |left| && curr == At(was, p) && NoDup(was)
      requires Deltas(was, left)
      requires node.dtick == timeout - Before(left, p) && timeout <= MAX_PERIOD
      requires forall i: nat :: i < p ==> left[i] <= timeout
      requires forall i: nat :: p <= i < |left| ==> timeout <= left[i]
      requires nodes == InsertAt(was, p, node)
      modifies this`left, pool`dtick
      ensures Deltas(nodes, left) && left == InsertAt<nat>(old(left), p, timeout)
    {
      hide NoDup, InsertAt, Ordered;
      ghost var before := left;
      if curr != null {
        assert curr.dtick == left[p] - Before(left, p);
        curr.dtick := curr.dtick - node.dtick;
      }
      left := InsertAt<nat>(left, p, timeout);
      OrderedInsert(before, p, timeout);
      Spliced(was, p, node);
      OnlyAt(was, p);
      forall i: nat | i < |nodes| ensures nodes[i].dtick == left[i] - Before(left, i) {
        if i != p {
          var o: nat := if i < p then i else i - 1;
          assert nodes[i] == was[o] && was[o] in was;
          assert old(was[o].dtick) == before[o] - Before(before, o);
        }
      }
    }

    // Link the armed node into its place and settle the differences around it.
    method Enter(node: Node, prev: Node?, curr: Node?, timeout: Tick, ghost p: nat)
      requires Forward() && Backward(nodes) && NoDup(nodes) && Deltas(nodes, left)
      requires node in pool && node !in nodes && timeout <= MAX_PERIOD && |left| == |nodes|
      requires forall n :: n in pool ==> (n.armed <==> n in nodes || n == node)
      requires p <= |nodes| && curr == At(nodes, p) && prev == At(nodes, p - 1)
      requires node.dtick == timeout - Before(left, p)
      requires forall i: nat :: i < p ==> left[i] <= timeout
      requires forall i: nat :: p <= i < |left| ==> timeout <= left[i]
      modifies this`head, this`nodes, this`left, pool`next, pool`prev, pool`dtick
      ensures Linked() && nodes == InsertAt(old(nodes), p, node) && left == InsertAt<nat>(old(left), p, timeout)
    {
      hide NoDup, InsertAt, Ordered, Forward, Backward, Deltas;
      ghost var was := nodes;
      Spliced(was, p, node);
      Link(node, prev, curr, p);
      SplitDelta(node, curr, timeout, p, was);
    }

    method Insert(node: Node, timeout: Tick)
      requires Valid() && node in pool && node !in nodes && 1 <= timeout <= MAX_PERIOD
      modifies this`head, this`nodes, this`left, pool
      ensures Valid()
      ensures Pending() == old(Pending())[node := timeout]
      // behind those that expire earlier, ahead of those that expire with it or later
      ensures exists p: nat :: PlacedAt(old(nodes), old(left), node, timeout, p, nodes, left)
    {
      hide NoDup, InsertAt, Ordered, Positive, Forward, Backward, Deltas;
      node.armed := true;
      var prev, curr, p := FindPlace(node, timeout);
      RemainingInsert(nodes, left, p, node, timeout);
      OrderedInsert(left, p, timeout);
      assert PlacedAt(nodes, left, node, timeout, p, InsertAt(nodes, p, node), InsertAt<nat>(left, p, timeout));
      Enter(node, prev, curr, timeout, p);
    }

    method UnlinkBack(node: Node, ghost p: nat)
      requires Forward() && Backward(nodes) && NoDup(nodes) && p < |nodes| && nodes[p] == node
      modifies pool`prev
      ensures Backward(RemoveAt(nodes, p)) && node.prev == At(nodes, p - 1)
    {
      hide NoDup, RemoveAt;
      assert node.prev == At(nodes, p - 1);
      if node.next != null {
        node.next.prev := node.prev;
      }
      ghost var ns := RemoveAt(nodes, p);
      Cut(nodes, p);
      OnlyAt(nodes, p + 1);
      forall i: nat | i < |ns| ensures ns[i].prev == At(ns, i - 1) {
        var o: nat := if i < p then i else i + 1;
        assert ns[i] == nodes[o] && nodes[o] in nodes;
        assert old(nodes[o].prev) == At(nodes, o - 1);
      }
    }

    // What the leaving node counted is added to its follower.
    method MergeDelta(node: Node, ghost p: nat)
      requires Forward() && Deltas(nodes, left) && NoDup(nodes) && p < |nodes| && nodes[p] == node
      modifies pool`dtick
      ensures Deltas(RemoveAt(nodes, p), RemoveAt(left, p))
    {
      hide NoDup, RemoveAt, Ordered;
      assert node.dtick == left[p] - Before(left, p);
      if node.next != null {
        assert node.next == nodes[p + 1] && nodes[p + 1].dtick == left[p + 1] - Before(left, p + 1);
        OrderedAt(left, p + 1);
        node.next.dtick := node.next.dtick + node.dtick;
      }
      ghost var ns, ls := RemoveAt(nodes, p), RemoveAt(left, p);
      Cut(nodes, p);
      OrderedRemove(left, p);
      OnlyAt(nodes, p);
      OnlyAt(nodes, p + 1);
      forall i: nat | i < |ns| ensures ns[i].dtick == ls[i] - Before(ls, i) {
        var o: nat := if i < p then i else i + 1;
        assert ns[i] == nodes[o] && nodes[o] in nodes;
        assert old(nodes[o].dtick) == left[o] - Before(left, o);
      }
    }

    method Unlink(node: Node, ghost p: nat)
      requires Forward() && Backward(nodes) && NoDup(nodes) && p < |nodes| && nodes[p] == node
      modifies this`head, this`nodes, pool`next, pool`prev
      ensures Forward() && Backward(nodes) && NoDup(nodes)
      ensures nodes == RemoveAt(old(nodes), p)
    {
      hide NoDup, RemoveAt, Backward;
      ghost var was := nodes;
      assert node.next == At(nodes, p + 1);
      UnlinkBack(node, p);
      if node.prev != null {
        node.prev.next := node.next;
      } else {
        head := node.next;
      }
      nodes := RemoveAt(nodes, p);
      Cut(was, p);
      OnlyAt(was, p - 1);
      forall i: nat | i < |nodes| ensures nodes[i].next == At(nodes, i + 1) {
        var o: nat := if i < p then i else i + 1;
        assert nodes[i] == was[o] && was[o] in was;
        assert old(was[o].next) == At(was, o + 1);
      }
    }

    method Remove(node: Node, ghost p: nat)
      requires Linked() && p < |nodes| && nodes[p] == node
      modifies this`head, this`nodes, this`left, pool
      ensures Linked() && (old(Positive(left)) ==> Positive(left))
      ensures nodes == RemoveAt(old(nodes), p) && left == RemoveAt(old(left), p)
      ensures Pending() == old(Pending()) - {node}
    {
      hide NoDup, RemoveAt, Ordered, Positive, Backward;
      Cut(nodes, p);
      OrderedRemove(left, p);
      RemainingRemove(nodes, left, p);
      MergeDelta(node, p);
      Unlink(node, p);
      left := RemoveAt(left, p);
      Clear(node);
    }

    method Clear(node: Node)
      requires Forward() && Backward(nodes) && NoDup(nodes) && Deltas(nodes, left)
      requires node in pool && node !in nodes
      requires forall n :: n in pool ==> (n.armed <==> n in nodes || n == node)
      modifies node
      ensures Linked()
    {
      hide NoDup, Ordered;
      node.next := null;
      node.prev := null;
      node.armed := false;
      node.dtick := 0;
    }

    // Arm a node of the system that is not armed yet.
    method Add(node: Node, timeout: Tick) returns (ok: bool)
      requires Valid() && node in pool && !node.armed
      modifies this`head, this`nodes, this`left, pool
      ensures Valid()
      ensures ok <==> 1 <= timeout <= MAX_PERIOD
      ensures Pending() == if ok then old(Pending())[node := timeout] else old(Pending())
      ensures if ok then exists p: nat :: PlacedAt(old(nodes), old(left), node, timeout, p, nodes, left)
              else nodes == old(nodes) && left == old(left)
    {
      if timeout == 0 || timeout > MAX_PERIOD {
        return false;
      }
      Insert(node, timeout);
      return true;
    }

    method Disarm(node: Node) returns (ok: bool)
      requires Valid() && node in pool
      modifies this`head, this`nodes, this`left, pool
      ensures Valid()
      ensures ok <==> node in old(Pending())
      ensures Pending() == old(Pending()) - {node}
      ensures nodes == Unlisted(old(nodes), node)
    {
      if !node.armed {
        assert node !in Pending().Keys;
        return false;
      }
      Remove(node, Index(nodes, node));
      return true;
    }

    method CountDown()
      requires Valid() && head != null
      modifies this`left, pool`dtick
      ensures Linked() && head.dtick == old(head.dtick) - 1
      ensures left == Lowered(old(left))
    {
      hide NoDup, Ordered, Lowered;
      ghost var before := left;
      LoweredFacts(left);
      assert head == nodes[0] && nodes[0].dtick == left[0] - Before(left, 0);
      head.dtick := head.dtick - 1;
      left := Lowered(left);
      OnlyAt(nodes, 0);
      forall i: nat | i < |nodes| ensures nodes[i].dtick == left[i] - Before(left, i) {
        assert old(nodes[i].dtick) == before[i] - Before(before, i);
      }
    }

    lemma HeadFacts()
      requires Linked()
      ensures |left| == |nodes| && (head == null <==> nodes == [])
      ensures nodes != [] ==> head == nodes[0] && head in pool && head.dtick == left[0]
    {
      assert nodes != [] ==> nodes[0].dtick == left[0] - Before(left, 0);
    }

    // Every node without difference leaves in turn.
    method ExpireDue() returns (expired: seq<Node>, ghost dead: seq<nat>)
      requires Linked()
      modifies this`head, this`nodes, this`left, pool
      ensures Linked() && |left| == |nodes| && |dead| == |expired|
      ensures old(nodes) == expired + nodes && old(left) == dead + left
      ensures forall i: nat :: i < |dead| ==> dead[i] == 0
      ensures left != [] ==> left[0] >= 1
    {
      hide Linked, RemoveAt;
      expired, dead := [], [];
      HeadFacts();
      while head != null && head.dtick == 0
        invariant Linked() && |left| == |nodes| && |dead| == |expired|
        invariant old(nodes) == expired + nodes && old(left) == dead + left
        invariant forall i: nat :: i < |dead| ==> dead[i] == 0
        decreases |old(nodes)| - |expired|
      {
        HeadFacts();
        MoveOver(expired, nodes);
        MoveOver(dead, left);
        expired, dead := expired + [head], dead + [0];
        Remove(head, 0);
      }
      HeadFacts();
    }

    // One tick: only the head is decremented; then what is due expires.
    method HandleTick() returns (expired: seq<Node>)
      requires Valid()
      modifies this`head, this`nodes, this`left, pool
      ensures Valid() && Pending() == Ticked(old(Pending()))
      ensures NoDup(expired) && old(nodes) == expired + nodes
      ensures forall n :: n in expired <==> n in old(Pending()) && old(Pending())[n] == 1
    {
      hide NoDup, Ordered, Lowered, Backward;
      expired := [];
      if head == null {
        EmptyTicks(nodes, left);
        return;
      }
      ghost var before, dead := left, [];
      CountDown();
      expired, dead := ExpireDue();
      DueFirst(before, dead, left);
      DistinctParts(expired, nodes);
      RemainingTick(expired, nodes, before, dead, left);
      RemainingDue(expired, nodes, before, dead, left);
    }

    // Between ticks the head still counts, so the next tick never finds a node overdue.
    lemma HeadCounts()
      requires Valid()
      ensures head != null ==> head in pool && head.dtick >= 1
    {
      HeadFacts();
    }
  }

  // What an operation does to the order of the list.
  ghost predicate Relisted(op: TimeoutOp<Node>, nodes: seq<Node>, left: seq<nat>,
                           nodes2: seq<Node>, left2: seq<nat>, expired: seq<Node>)
  {
    match op
    case Arm(n, timeout) =>
      expired == [] && if n !in nodes && 1 <= timeout <= MAX_PERIOD
                       then exists p: nat :: PlacedAt(nodes, left, n, timeout, p, nodes2, left2)
                       else nodes2 == nodes
    case Cancel(n) => expired == [] && nodes2 == Unlisted(nodes, n)
    case TickOp => nodes == expired + nodes2
  }

  method Do(list: TimeoutList, op: TimeoutOp<Node>) returns (expired: seq<Node>)
    requires list.Valid() && (!op.TickOp? ==> op.node in list.pool)
    modifies list`head, list`nodes, list`left, list.pool
    ensures list.Valid() && list.Pending() == Apply(old(list.Pending()), op)
    ensures op.TickOp? ==> forall n :: n in expired <==> n in old(list.Pending()) && old(list.Pending())[n] == 1
    ensures Relisted(op, old(list.nodes), old(list.left), list.nodes, list.left, expired)
  {
    hide NoDup, Positive, Ticked, Remaining, PlacedAt, Unlisted;
    expired := [];
    match op
    case Arm(node, timeout) =>
      if !node.armed {
        assert node !in list.Pending().Keys;
        var _ := list.Add(node, timeout);
      } else {
        assert node in list.Pending().Keys;
      }
    case Cancel(node) =>
      var _ := list.Disarm(node);
    case TickOp =>
      expired := list.HandleTick();
  }

  // The j-th list of expired nodes holds n exactly when j ticks are what n had left.
  ghost predicate OnTime(expired: seq<seq<Node>>, n: Node, timeout: nat) {
    forall j: nat :: j < |expired| ==> (n in expired[j] <==> j + 1 == timeout)
  }

  // A run on the linked list does what the same run does on the table of remaining ticks. A node
  // pending with t ticks left, and left alone, is among those the t-th tick expires and no others.
  method Execute(list: TimeoutList, ops: seq<TimeoutOp<Node>>) returns (expired: seq<seq<Node>>)
    requires list.Valid()
    requires forall i: nat :: i < |ops| ==> (!ops[i].TickOp? ==> ops[i].node in list.pool)
    modifies list`head, list`nodes, list`left, list.pool
    ensures list.Valid()
    ensures list.Pending() == Run(old(list.Pending()), ops)
    ensures |expired| == Ticks(ops)
    ensures forall n :: n in old(list.Pending()) && LeavesAlone(ops, n) ==> OnTime(expired, n, old(list.Pending())[n])
  {
    hide Run, Apply, Remaining, Ticks, LeavesAlone, Relisted;
    expired := [];
    ghost var start := list.Pending();
    EmptyRun(start);
    SomeLeft(list.nodes, list.left);
    assert Ticks(ops[..0]) == 0 by {
      NoTicks<Node>();
    }
    for i := 0 to |ops|
      invariant list.Valid()
      invariant list.Pending() == Run(start, ops[..i])
      invariant |expired| == Ticks(ops[..i])
      invariant forall n :: n in start && LeavesAlone(ops, n) ==> OnTime(expired, n, start[n])
    {
      RunAppend(start, ops[..i], ops[i]);
      TicksAppend(ops[..i], ops[i]);
      assert ops[..i + 1] == ops[..i] + [ops[i]];
      var gone := Do(list, ops[i]);
      if ops[i].TickOp? {
        forall n | n in start && LeavesAlone(ops, n) ensures OnTime(expired + [gone], n, start[n]) {
          LastTick(start, ops, i, n);
          assert OnTime(expired, n, start[n]);
        }
        expired := expired + [gone];
      }
    }
    assert ops[..|ops|] == ops;
  }

  lemma SomeLeft(nodes: seq<Node>, left: seq<nat>)
    requires NoDup(nodes) && |left| == |nodes| && Positive(left)
    ensures forall n :: n in Remaining(nodes, left) ==> Remaining(nodes, left)[n] >= 1
  {
  }

  // Arm a node and leave it alone: the timeout-th tick from here expires it.
  method ArmAndRun(list: TimeoutList, node: Node, timeout: Tick, ops: seq<TimeoutOp<Node>>)
    returns (expired: seq<seq<Node>>)
    requires list.Valid() && node in list.pool && !node.armed && 1 <= timeout <= MAX_PERIOD
    requires LeavesAlone(ops, node)
    requires forall i: nat :: i < |ops| ==> (!ops[i].TickOp? ==> ops[i].node in list.pool)
    modifies list`head, list`nodes, list`left, list.pool
    ensures list.Valid() && |expired| == Ticks(ops) && OnTime(expired, node, timeout)
  {
    hide Run, LeavesAlone, OnTime, Ticks;
    var _ := list.Add(node, timeout);
    assert node in list.Pending().Keys;
    expired := Execute(list, ops);
  }
}
