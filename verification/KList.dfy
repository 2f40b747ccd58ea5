// The intrusive circular list with a dummy node on which every kernel queue rests, and the sequence
// it stands for.
module KList {
  import opened Prelude
  import opened Queues

  class Node {
    var next: Node?
    var prev: Node?
  }

  // Neighbours on a circle of n nodes.
  function Succ(i: nat, n: nat): nat {
    if i + 1 < n then i + 1 else 0
  }

  function Pred(i: nat, n: nat): nat
    requires i < n
  {
    if i > 0 then i - 1 else n - 1
  }

  class List {
    const dummy: Node
    var size: nat
    ghost var circle: seq<Node>    // the dummy and, behind it, the linked nodes

    ghost predicate Forward(c: seq<Node>)
      reads c`next
    {
      forall i: nat {:trigger c[i].next} :: i < |c| ==> c[i].next == c[Succ(i, |c|)]
    }

    ghost predicate Backward(c: seq<Node>)
      reads c`prev
    {
      forall i: nat {:trigger c[i].prev} :: i < |c| ==> c[i].prev == c[Pred(i, |c|)]
    }

    ghost predicate Valid()
      reads this, circle
    {
      && circle != [] && circle[0] == dummy && NoDup(circle) && size == |circle| - 1
      && Forward(circle) && Backward(circle)
    }

    // The queue the list stands for.
    ghost function Contents(): seq<Node>
      reads this
    {
      if circle == [] then [] else circle[1..]
    }

    constructor ()
      ensures Valid() && fresh(dummy) && Contents() == []
    {
      dummy := new Node;
      size := 0;
      new;
      circle := [dummy];
      dummy.next := dummy;
      dummy.prev := dummy;
    }

    method LinkPrev(ref: Node, node: Node, ghost p: nat)
      requires NoDup(circle) && Backward(circle) && p < |circle| && circle[p] == ref && node !in circle
      requires ref.next == circle[Succ(p, |circle|)]
      modifies circle`prev, node`prev
      ensures Backward(InsertAt(circle, p + 1, node))
    {
      hide NoDup, InsertAt;
      ghost var c, n := circle, Succ(p, |circle|);
      ref.next.prev := node;
      node.prev := ref;
      ghost var d := InsertAt(c, p + 1, node);
      Spliced(c, p + 1, node);
      OnlyAt(c, n);
      forall i: nat | i < |d| ensures d[i].prev == d[Pred(i, |d|)] {
        if i != p + 1 {
          var o: nat := if i <= p then i else i - 1;
          assert d[i] == c[o] && c[o] in c;
          assert old(c[o].prev) == c[Pred(o, |c|)];
        }
      }
    }

    method InsertAfter(ref: Node, node: Node, ghost p: nat)
      requires Valid() && p < |circle| && circle[p] == ref && node !in circle
      modifies this`size, this`circle, circle, node
      ensures Valid() && circle == InsertAt(old(circle), p + 1, node)
      ensures Contents() == InsertAt(old(Contents()), p, node)
    {
      hide NoDup, InsertAt, Backward;
      ghost var c := circle;
      assert ref.next == c[Succ(p, |c|)];
      node.next := ref.next;
      LinkPrev(ref, node, p);
      ref.next := node;
      size := size + 1;
      circle := InsertAt(c, p + 1, node);
      Spliced(c, p + 1, node);
      OnlyAt(c, p);
      BehindDummy(c, p, node);
      forall i: nat | i < |circle| ensures circle[i].next == circle[Succ(i, |circle|)] {
        if i != p + 1 {
          var o: nat := if i <= p then i else i - 1;
          assert circle[i] == c[o] && c[o] in c;
          assert old(c[o].next) == c[Succ(o, |c|)];
        }
      }
    }

    method AddTail(node: Node)
      requires Valid() && node !in circle
      modifies this`size, this`circle, circle, node
      ensures Valid() && Contents() == old(Contents()) + [node]
    {
      assert dummy.prev == circle[Pred(0, |circle|)];
      InsertAfter(dummy.prev, node, |circle| - 1);
    }

    method AddHead(node: Node)
      requires Valid() && node !in circle
      modifies this`size, this`circle, circle, node
      ensures Valid() && Contents() == [node] + old(Contents())
    {
      InsertAfter(dummy, node, 0);
    }

    method UnlinkPrev(node: Node, ghost p: nat)
      requires NoDup(circle) && Backward(circle) && 1 <= p < |circle| && circle[p] == node
      requires node.next == circle[Succ(p, |circle|)]
      modifies circle`prev
      ensures Backward(RemoveAt(circle, p)) && node.prev == circle[p - 1]
    {
      hide NoDup, RemoveAt;
      ghost var c, n := circle, Succ(p, |circle|);
      assert node.prev == c[p - 1];
      OnlyAt(c, n);
      node.next.prev := node.prev;
      ghost var d := RemoveAt(c, p);
      Cut(c, p);
      forall i: nat | i < |d| ensures d[i].prev == d[Pred(i, |d|)] {
        var o: nat := if i < p then i else i + 1;
        assert d[i] == c[o] && c[o] in c;
        assert old(c[o].prev) == c[Pred(o, |c|)];
      }
    }

    method UnlinkNext(node: Node, ghost p: nat)
      requires NoDup(circle) && Forward(circle) && 1 <= p < |circle| && circle[p] == node
      requires node.prev == circle[p - 1]
      modifies circle`next
      ensures Forward(RemoveAt(circle, p))
    {
      hide NoDup, RemoveAt;
      ghost var c := circle;
      assert node.next == c[Succ(p, |c|)];
      OnlyAt(c, p - 1);
      node.prev.next := node.next;
      ghost var d := RemoveAt(c, p);
      Cut(c, p);
      forall i: nat | i < |d| ensures d[i].next == d[Succ(i, |d|)] {
        var o: nat := if i < p then i else i + 1;
        assert d[i] == c[o] && c[o] in c;
        assert old(c[o].next) == c[Succ(o, |c|)];
      }
    }

    // Take a linked node out.
    method Unlink(node: Node, ghost p: nat)
      requires Valid() && 1 <= p < |circle| && circle[p] == node
      modifies this`size, this`circle, circle
      ensures Valid() && circle == RemoveAt(old(circle), p)
      ensures Contents() == RemoveAt(old(Contents()), p - 1)
      ensures node.next == null && node.prev == null
    {
      hide NoDup, RemoveAt, Backward;
      assert node.next == circle[Succ(p, |circle|)];
      Cut(circle, p);
      WithoutDummy(circle, p);
      UnlinkPrev(node, p);
      UnlinkNext(node, p);
      size := size - 1;
      circle := RemoveAt(circle, p);
      Detach(node);
    }

    method Detach(node: Node)
      requires Valid() && node !in circle
      modifies node
      ensures Valid() && node.next == null && node.prev == null
    {
      hide NoDup;
      node.prev := null;
      node.next := null;
    }

    method Remove(node: Node) returns (ok: bool)
      requires Valid() && (node in Contents() || Contents() == [])
      modifies this`size, this`circle, circle
      ensures Valid() && (ok <==> old(Contents()) != [])
      ensures ok ==> node.next == null && node.prev == null
      ensures ok ==> exists p: nat :: p < |old(Contents())| && old(Contents())[p] == node
                       && Contents() == RemoveAt(old(Contents()), p)
      ensures !ok ==> Contents() == []
    {
      if size == 0 {
        return false;
      }
      ghost var p: nat :| p < |Contents()| && Contents()[p] == node;
      Unlink(node, p + 1);
      return true;
    }

    method RemoveHead() returns (node: Node?)
      requires Valid()
      modifies this`size, this`circle, circle
      ensures Valid() && (node == null <==> old(Contents()) == [])
      ensures node == null ==> Contents() == []
      ensures node != null ==> old(Contents()) == [node] + Contents() && node.next == null && node.prev == null
    {
      if size == 0 {
        return null;
      }
      assert dummy.next == circle[Succ(0, |circle|)];
      node := dummy.next;
      Unlink(node, 1);
    }

    method RemoveTail() returns (node: Node?)
      requires Valid()
      modifies this`size, this`circle, circle
      ensures Valid() && (node == null <==> old(Contents()) == [])
      ensures node == null ==> Contents() == []
      ensures node != null ==> old(Contents()) == Contents() + [node] && node.next == null && node.prev == null
    {
      if size == 0 {
        return null;
      }
      assert dummy.prev == circle[Pred(0, |circle|)];
      node := dummy.prev;
      Unlink(node, |circle| - 1);
    }
  }

  lemma BehindDummy(c: seq<Node>, p: nat, node: Node)
    requires p < |c|
    ensures InsertAt(c, p + 1, node) != [] && InsertAt(c, p + 1, node)[0] == c[0]
    ensures InsertAt(c, p + 1, node)[1..] == InsertAt(c[1..], p, node)
  {
  }

  lemma WithoutDummy(c: seq<Node>, p: nat)
    requires 1 <= p < |c|
    ensures RemoveAt(c, p) != [] && RemoveAt(c, p)[0] == c[0] && RemoveAt(c, p)[1..] == RemoveAt(c[1..], p - 1)
  {
  }
}
