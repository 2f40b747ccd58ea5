// Asynchronous direct messages: allocation and free with hand-off to waiting allocators, send with
// direct delivery, and filtered receive. A blocking call is two steps.
module AsynchMesg {
  import opened Prelude
  import opened Queues
  import opened AsynchState
  import opened AsynchSteps

  datatype AllocResult = NoEndpoint | BadTimeout | Got(mesg: nat) | Empty | Blocks

  datatype FreeResult = NotOwned | HandedOn(task: nat) | Returned

  datatype SendResult = NotInit | NotMine | Delivered | Enqueued

  predicate InHand(s: State) {
    s == Allocated || s == Received
  }

  class Messages {
    var mesg: seq<Mesg>
    var free: seq<seq<nat>>        // free list of each pool
    var waiters: seq<seq<nat>>     // tasks waiting for a block of each pool
    var owned: seq<seq<nat>>       // messages owned by each task
    var queue: seq<seq<nat>>       // endpoint queue of each task
    var init: seq<bool>            // which tasks have an endpoint
    var cl: seq<Client>
    var sent: seq<seq<Letter>>     // letters sent to each task, in order; only specifications look at it
    var got: seq<seq<Letter>>      // letters each task took, in order
    var next: nat

    ghost predicate Inv()
      reads this
    {
      && FreeOk(mesg, free) && OwnedOk(mesg, owned) && QueuedOk(mesg, queue)
      && AllocatorsOk(free, waiters, cl) && ReceiversOk(mesg, queue, cl) && ClientsOk(cl)
      && FifoOk(mesg, queue, sent, got) && Numbered(sent, next)
      && |owned| == |queue| == |cl| == |init|
    }

    // A system whose blocks all lie in the free list of their pool.
    constructor (blocks: seq<Mesg>, lists: seq<seq<nat>>, endpoints: seq<bool>)
      requires FreeOk(blocks, lists)
      requires forall x: nat :: x < |blocks| ==> blocks[x].state == Free && blocks[x].owner == None
      ensures Inv() && mesg == blocks && free == lists && init == endpoints
      ensures waiters == seq(|lists|, _ => []) && cl == seq(|endpoints|, _ => Client(Idle, false, false, None))
      ensures owned == queue == seq(|endpoints|, _ => [])
      ensures |sent| == |got| == |endpoints| && forall r: nat :: r < |sent| ==> sent[r] == got[r] == []
    {
      mesg, free, init := blocks, lists, endpoints;
      waiters := seq(|lists|, _ => []);
      owned, queue := seq(|endpoints|, _ => []), seq(|endpoints|, _ => []);
      cl := seq(|endpoints|, _ => Client(Idle, false, false, None));
      sent, got := seq(|endpoints|, _ => []), seq(|endpoints|, _ => []);
      next := 0;
    }

    // The one place where a message changes hands.
    method SetOwner(x: nat, o: Option<nat>)
      requires x < |mesg| && (o.Some? ==> o.value < |owned|)
      requires ListedOnce(owned, mesg[x].owner, x)
      modifies this`mesg, this`owned
      ensures mesg == old(mesg)[x := old(mesg)[x].(owner := o)]
      // the new owner lists the message, once, and nobody else does; other messages stay where they are
      ensures ListedOnce(owned, o, x) && |owned| == |old(owned)|
      ensures forall t: nat, z: nat {:trigger z in owned[t]} ::
                t < |owned| && z != x ==> (z in owned[t] <==> z in old(owned)[t])
      ensures owned == Moved(old(owned), old(mesg)[x].owner, o, x)
    {
      var a := mesg[x].owner;
      if a.Some? {
        WithoutFacts(owned[a.value], x);
      }
      if a == o {
        return;
      }
      if a.Some? {
        owned := owned[a.value := Without(owned[a.value], x)];
      }
      mesg := mesg[x := mesg[x].(owner := o)];
      if o.Some? {
        owned := owned[o.value := owned[o.value] + [x]];
      }
    }

    // The head of a non-empty free list goes to task t.
    method TakeBlock(t: nat, p: nat) returns (x: nat)
      requires Inv() && t < |cl| && p < |free| && free[p] != []
      modifies this`mesg, this`free, this`owned
      ensures Inv() && x == old(free)[p][0] && free == old(free)[p := old(free)[p][1..]]
      ensures x < |mesg| == |old(mesg)| && old(mesg)[x].state == Free && old(mesg)[x].pool == p
      ensures mesg == old(mesg)[x := old(mesg)[x].(state := Allocated, owner := Some(t))]
      ensures owned == Moved(old(owned), None, Some(t), x)
    {
      hide NoDup, Without, IndexOf, ListedOnce, FifoOk, ReceiversOk, ClientsOk, Numbered;
      PoolOf(mesg, free, p);
      x := free[p][0];
      ghost var y := mesg[x].(state := Allocated, owner := Some(t));
      BlockTaken(mesg, free, p, y);
      NotQueued(mesg, queue, x);
      OwnerLists(mesg, owned, x);
      OwnerMoved(mesg, owned, x, y);
      QueueAside(mesg, queue, x, y);
      ReceiversAside(mesg, queue, cl, x, y);
      FifoAside(mesg, queue, sent, got, x, y);
      free := free[p := free[p][1..]];
      SetOwner(x, Some(t));
      mesg := mesg[x := mesg[x].(state := Allocated)];
      assert mesg == old(mesg)[x := y];
    }

    method Alloc(t: nat, p: nat, timeout: nat, slot: nat) returns (res: AllocResult)
      requires Inv() && t < |cl| && p < |free| && cl[t].pc == Idle && p < |waiters| && slot <= |waiters[p]|
      modifies this
      ensures Inv()
      ensures !res.NoEndpoint?
      ensures res.Got? <==> TimeoutValid(timeout) && old(free)[p] != []
      ensures res.Empty? <==> TimeoutValid(timeout) && old(free)[p] == [] && timeout == NO_WAIT
      ensures res.Blocks? <==> TimeoutValid(timeout) && old(free)[p] == [] && timeout != NO_WAIT
      ensures res.Got? ==>
                && res.mesg == old(free)[p][0] < |old(mesg)|
                && old(mesg)[res.mesg].state == Free && old(mesg)[res.mesg].pool == p
                && mesg == old(mesg)[res.mesg := old(mesg)[res.mesg].(state := Allocated, owner := Some(t))]
                && free == old(free)[p := old(free)[p][1..]] && owned == Moved(old(owned), None, Some(t), res.mesg)
      ensures res.Blocks? ==>
                && cl == old(cl)[t := Client(Allocating(p), true, false, None)]
                && waiters == old(waiters)[p := InsertAt(old(waiters)[p], slot, t)]
      ensures !res.Blocks? ==> cl == old(cl) && waiters == old(waiters)
      ensures !res.Got? ==> mesg == old(mesg) && free == old(free) && owned == old(owned)
      ensures queue == old(queue) && sent == old(sent) && got == old(got) && init == old(init) && next == old(next)
    {
      hide NoDup, Without, IndexOf, QueuedOk, OwnedOk, FifoOk, Numbered;
      if !TimeoutValid(timeout) {
        return BadTimeout;
      }
      if free[p] != [] {
        var x := TakeBlock(t, p);
        return Got(x);
      }
      if timeout == NO_WAIT {
        return Empty;
      }
      assert ClientOk(cl[t]);
      AllocatorBlocked(free, waiters, cl, p, t, slot);
      ReceiversClient(mesg, queue, cl, t, Client(Allocating(p), true, false, None));
      waiters := waiters[p := InsertAt(waiters[p], slot, t)];
      cl := cl[t := Client(Allocating(p), true, false, None)];
      return Blocks;
    }

    // Give a message that was put back to the first waiting allocator instead of the free list.
    method HandOn(x: nat) returns (w: nat)
      requires Inv() && x < |mesg| && InHand(mesg[x].state) && mesg[x].pool < |waiters| && waiters[mesg[x].pool] != []
      modifies this`mesg, this`owned, this`waiters, this`cl
      ensures Inv() && w == old(waiters)[old(mesg)[x].pool][0] && w < |cl|
      ensures mesg == old(mesg)[x := old(mesg)[x].(state := Allocated, owner := Some(w))]
      ensures cl == old(cl)[w := old(cl)[w].(blocked := false, slot := Some(x))]
      ensures waiters == old(waiters)[old(mesg)[x].pool := old(waiters)[old(mesg)[x].pool][1..]]
      ensures owned == Moved(old(owned), old(mesg)[x].owner, Some(w), x)
    {
      hide NoDup, Without, IndexOf, ListedOnce, FifoOk, Numbered, QueuedOk, OwnedOk, FreeOk, AllocatorsOk;
      var p := mesg[x].pool;
      w := waiters[p][0];
      HeadWaits(free, waiters, cl, p);
      assert ClientOk(cl[w]);
      ghost var y, c := mesg[x].(state := Allocated, owner := Some(w)), cl[w].(blocked := false, slot := Some(x));
      AllocatorLeft(free, waiters, cl, p, w, c);
      ReceiversClient(mesg, queue, cl, w, c);
      HandedOn(x, y, cl[w := c]);
      waiters := waiters[p := waiters[p][1..]];
      SetOwner(x, Some(w));
      mesg := mesg[x := mesg[x].(state := Allocated)];
      assert mesg == old(mesg)[x := y];
      cl := cl[w := cl[w].(blocked := false, slot := Some(x))];
    }

    // A message in hand changes owner or state but is not queued.
    lemma HandedOn(x: nat, y: Mesg, cl2: seq<Client>)
      requires Inv() && x < |mesg| && InHand(mesg[x].state) && y.pool == mesg[x].pool && InHand(y.state)
      requires y.owner.Some? && y.owner.value < |owned| && ReceiversOk(mesg, queue, cl2)
      ensures ListedOnce(owned, mesg[x].owner, x)
      ensures var mesg2 := mesg[x := y];
              && FreeOk(mesg2, free) && OwnedOk(mesg2, Moved(owned, mesg[x].owner, y.owner, x))
              && QueuedOk(mesg2, queue) && ReceiversOk(mesg2, queue, cl2) && FifoOk(mesg2, queue, sent, got)
    {
      hide NoDup, Without, IndexOf, ListedOnce, FifoOk, ReceiversOk, FreeOk, OwnedOk;
      BlockAside(mesg, free, x, y);
      NotQueued(mesg, queue, x);
      OwnerLists(mesg, owned, x);
      OwnerMoved(mesg, owned, x, y);
      QueueAside(mesg, queue, x, y);
      ReceiversAside(mesg, queue, cl2, x, y);
      FifoAside(mesg, queue, sent, got, x, y);
    }

    // Put the message back into the free list of its pool.
    method PutBack(x: nat)
      requires Inv() && x < |mesg| && InHand(mesg[x].state)
      requires mesg[x].pool < |waiters| && mesg[x].pool < |free| && waiters[mesg[x].pool] == []
      modifies this`mesg, this`owned, this`free
      ensures Inv()
      ensures mesg == old(mesg)[x := old(mesg)[x].(state := Free, owner := None)]
      ensures var p := old(mesg)[x].pool; free == old(free)[p := [x] + old(free)[p]]
      ensures owned == Moved(old(owned), old(mesg)[x].owner, None, x)
    {
      hide NoDup, Without, IndexOf, ListedOnce, FifoOk, ReceiversOk, ClientsOk, Numbered;
      var p := mesg[x].pool;
      ghost var y := mesg[x].(state := Free, owner := None);
      BlockReturned(mesg, free, x, y);
      NotQueued(mesg, queue, x);
      OwnerLists(mesg, owned, x);
      OwnerMoved(mesg, owned, x, y);
      QueueAside(mesg, queue, x, y);
      ReceiversAside(mesg, queue, cl, x, y);
      FifoAside(mesg, queue, sent, got, x, y);
      SetOwner(x, None);
      mesg := mesg[x := mesg[x].(state := Free)];
      assert mesg == old(mesg)[x := y];
      free := free[p := [x] + free[p]];
    }

    method FreeMesg(x: nat) returns (res: FreeResult)
      requires Inv() && x < |mesg|
      modifies this`mesg, this`owned, this`waiters, this`cl, this`free
      ensures Inv() && x < |mesg| && mesg[x].pool < |old(waiters)|
      ensures res.NotOwned? <==> !InHand(old(mesg)[x].state)
      ensures res.NotOwned? ==>
                && mesg == old(mesg) && free == old(free) && waiters == old(waiters)
                && cl == old(cl) && owned == old(owned)
      ensures res.HandedOn? <==> InHand(old(mesg)[x].state) && old(waiters)[mesg[x].pool] != []
      ensures res.HandedOn? ==>
                && res.task == old(waiters)[mesg[x].pool][0] && res.task < |cl| && free == old(free)
                && mesg == old(mesg)[x := old(mesg)[x].(state := Allocated, owner := Some(res.task))]
                && cl == old(cl)[res.task := old(cl)[res.task].(blocked := false, slot := Some(x))]
                // the other allocators keep their order
                && waiters == old(waiters)[mesg[x].pool := old(waiters)[mesg[x].pool][1..]]
                && owned == Moved(old(owned), old(mesg)[x].owner, Some(res.task), x)
      ensures res.Returned? ==>
                && mesg[x].pool < |old(free)| && cl == old(cl) && waiters == old(waiters)
                && owned == Moved(old(owned), old(mesg)[x].owner, None, x)
                && mesg == old(mesg)[x := old(mesg)[x].(state := Free, owner := None)]
                && free == old(free)[mesg[x].pool := [x] + old(free)[mesg[x].pool]]
    {
      hide OwnedOk, QueuedOk, FifoOk, ReceiversOk, ClientsOk, Numbered, NoDup;
      PoolBound(mesg, free, waiters, cl, x);
      if !InHand(mesg[x].state) {
        return NotOwned;
      }
      if |waiters[mesg[x].pool]| > 0 {
        var w := HandOn(x);
        return FreeResult.HandedOn(w);
      }
      PutBack(x);
      return Returned;
    }

    // Complete the wait of a receiver that waits for a letter of this sender.
    method Deliver(x: nat, t: nat, r: nat)
      requires Inv() && x < |mesg| && InHand(mesg[x].state) && r < |cl|
      requires cl[r].blocked && cl[r].pc.Receiving? && Matches(cl[r].pc.filter, t)
      modifies this`mesg, this`owned, this`cl, this`sent, this`got, this`next
      ensures Inv() && next == old(next) + 1
      ensures mesg == old(mesg)[x := Mesg(old(mesg)[x].pool, Received, Some(r), Letter(t, old(next)))]
      ensures cl == old(cl)[r := old(cl)[r].(blocked := false, slot := Some(x))]
      ensures r < |sent| == |old(sent)| && sent == old(sent)[r := old(sent)[r] + [Letter(t, old(next))]]
      ensures r < |got| == |old(got)| && got == old(got)[r := old(got)[r] + [Letter(t, old(next))]]
      ensures owned == Moved(old(owned), old(mesg)[x].owner, Some(r), x)
    {
      hide NoDup, Without, IndexOf, ListedOnce, FifoOk, FreeOk, OwnedOk, QueuedOk, Numbered;
      NumberedAppend(sent, r, t, next);
      assert ClientOk(cl[r]) && NothingFor(mesg, queue[r], cl[r].pc.filter);
      var l := Letter(t, next);
      ghost var y, c := Mesg(mesg[x].pool, Received, Some(r), l), cl[r].(blocked := false, slot := Some(x));
      NotQueued(mesg, queue, x);
      FifoSizes(mesg, queue, sent, got);
      AllocatorsAside(free, waiters, cl, r, c);
      ReceiversClient(mesg, queue, cl, r, c);
      FifoDirect(mesg, queue, sent, got, x, y, r, cl[r].pc.filter);
      HandedOn(x, y, cl[r := c]);
      mesg := mesg[x := mesg[x].(letter := l)];
      SetOwner(x, Some(r));
      mesg := mesg[x := mesg[x].(state := Received)];
      assert mesg == old(mesg)[x := y];
      cl := cl[r := cl[r].(blocked := false, slot := Some(x))];
      got := got[r := got[r] + [l]];
      sent := sent[r := sent[r] + [l]];
      next := next + 1;
    }

    // Queue the message behind the others of its receiver.
    method Post(x: nat, t: nat, r: nat)
      requires Inv() && x < |mesg| && InHand(mesg[x].state) && r < |cl|
      requires !(cl[r].blocked && cl[r].pc.Receiving? && Matches(cl[r].pc.filter, t))
      modifies this`mesg, this`owned, this`queue, this`sent, this`next
      ensures Inv() && next == old(next) + 1
      ensures mesg == old(mesg)[x := Mesg(old(mesg)[x].pool, Queued, Some(r), Letter(t, old(next)))]
      ensures r < |old(queue)| && queue == old(queue)[r := old(queue)[r] + [x]]
      ensures r < |old(sent)| && sent == old(sent)[r := old(sent)[r] + [Letter(t, old(next))]]
      ensures owned == Moved(old(owned), old(mesg)[x].owner, Some(r), x)
    {
      hide NoDup, Without, IndexOf, ListedOnce, FifoOk, FreeOk, OwnedOk, QueuedOk, Numbered;
      NumberedAppend(sent, r, t, next);
      var l := Letter(t, next);
      ghost var y := Mesg(mesg[x].pool, Queued, Some(r), l);
      FifoSizes(mesg, queue, sent, got);
      NotQueued(mesg, queue, x);
      BlockAside(mesg, free, x, y);
      OwnerLists(mesg, owned, x);
      OwnerMoved(mesg, owned, x, y);
      QueueAppended(mesg, queue, x, y, r);
      ReceiversQueued(mesg, queue, cl, x, y, r);
      FifoQueued(mesg, queue, sent, got, x, y, r);
      mesg := mesg[x := mesg[x].(letter := l)];
      SetOwner(x, Some(r));
      mesg := mesg[x := mesg[x].(state := Queued)];
      assert mesg == old(mesg)[x := y];
      queue := queue[r := queue[r] + [x]];
      sent := sent[r := sent[r] + [l]];
      next := next + 1;
    }

    method Send(t: nat, r: nat, x: nat) returns (res: SendResult)
      requires Inv() && t < |cl| && r < |cl| && x < |mesg| && r < |init|
      modifies this
      ensures Inv() && |sent| == |old(sent)| && r < |sent|
      ensures res.NotInit? <==> !old(init)[r]
      ensures res.NotMine? <==> old(init)[r] && !InHand(old(mesg)[x].state)
      ensures res.Delivered? <==>
                && old(init)[r] && InHand(old(mesg)[x].state)
                && old(cl)[r].blocked && old(cl)[r].pc.Receiving? && Matches(old(cl)[r].pc.filter, t)
      ensures res.Delivered? ==>
                && cl == old(cl)[r := old(cl)[r].(blocked := false, slot := Some(x))] && queue == old(queue)
                && mesg == old(mesg)[x := Mesg(old(mesg)[x].pool, Received, Some(r), Letter(t, old(next)))]
                && r < |old(got)| && got == old(got)[r := old(got)[r] + [Letter(t, old(next))]]
      ensures res.Enqueued? ==>
                && r < |old(queue)| && queue == old(queue)[r := old(queue)[r] + [x]] && cl == old(cl)
                && mesg == old(mesg)[x := Mesg(old(mesg)[x].pool, Queued, Some(r), Letter(t, old(next)))]
                && got == old(got)
      ensures res.Delivered? || res.Enqueued? ==>
                && r < |old(sent)| && sent == old(sent)[r := old(sent)[r] + [Letter(t, old(next))]]
                && owned == Moved(old(owned), old(mesg)[x].owner, Some(r), x) && next == old(next) + 1
      ensures res.NotInit? || res.NotMine? ==>
                && mesg == old(mesg) && cl == old(cl) && sent == old(sent) && queue == old(queue) && owned == old(owned)
                && got == old(got) && next == old(next)
      ensures free == old(free) && waiters == old(waiters) && init == old(init)
    {
      hide NoDup, FifoOk, FreeOk, OwnedOk, QueuedOk, AllocatorsOk, ReceiversOk, ClientsOk, Numbered;
      FifoSizes(mesg, queue, sent, got);
      if !init[r] {
        return NotInit;
      }
      if !InHand(mesg[x].state) {
        return NotMine;
      }
      if cl[r].blocked && cl[r].pc.Receiving? && Matches(cl[r].pc.filter, t) {
        Deliver(x, t, r);
        return Delivered;
      }
      Post(x, t, r);
      return Enqueued;
    }

    // The oldest message in the queue of t that matches the filter.
    method Search(t: nat, f: Filter) returns (i: nat)
      requires Inv() && t < |queue|
      ensures i <= |queue[t]| && forall j: nat :: j < |queue[t]| ==> queue[t][j] < |mesg|
      ensures NothingFor(mesg, queue[t][..i], f)
      ensures i < |queue[t]| ==> Matches(f, mesg[queue[t][i]].letter.sender)
    {
      hide NoDup, FreeOk, OwnedOk, AllocatorsOk, Numbered;
      assert forall j: nat :: j < |queue[t]| ==> queue[t][j] in queue[t];
      i := 0;
      while i < |queue[t]| && !Matches(f, mesg[queue[t][i]].letter.sender)
        invariant i <= |queue[t]|
        invariant NothingFor(mesg, queue[t][..i], f)
      {
        i := i + 1;
      }
    }

    // Take the i-th message of the own queue; those around it keep their order.
    method Take(t: nat, i: nat, f: Filter) returns (x: nat)
      requires Inv() && t < |cl| && t < |queue| && i < |queue[t]| && !cl[t].blocked
      requires queue[t][i] < |mesg| && Matches(f, mesg[queue[t][i]].letter.sender)
      requires NothingFor(mesg, queue[t][..i], f)
      modifies this`mesg, this`queue, this`got
      ensures Inv() && x == old(queue)[t][i]
      ensures queue == old(queue)[t := old(queue)[t][..i] + old(queue)[t][i + 1..]]
      ensures mesg == old(mesg)[x := old(mesg)[x].(state := Received)]
      ensures t < |got| == |old(got)| && got == old(got)[t := old(got)[t] + [mesg[x].letter]]
    {
      hide NoDup, Without, IndexOf, ListedOnce, FifoOk, FreeOk, OwnedOk, QueuedOk, Numbered, NothingFor;
      x := queue[t][i];
      assert queue[t] == (queue[t][..i] + [x]) + queue[t][i + 1..];
      ghost var y := mesg[x].(state := Received);
      FifoSizes(mesg, queue, sent, got);
      QueuedAt(mesg, queue, t, i);
      QueueRemoved(mesg, queue, x, y, t);
      BlockAside(mesg, free, x, y);
      OwnerKept(mesg, owned, x, y);
      ReceiversTaken(mesg, queue, cl, t, queue[t][..i] + queue[t][i + 1..], x, y);
      FifoTaken(mesg, queue, sent, got, queue[t][..i], x, queue[t][i + 1..], y, t, f);
      mesg := mesg[x := mesg[x].(state := Received)];
      got := got[t := got[t] + [mesg[x].letter]];
      queue := queue[t := queue[t][..i] + queue[t][i + 1..]];
    }

    method Wait(t: nat, f: Filter, timeout: nat) returns (res: AllocResult)
      requires Inv() && t < |cl| && t < |queue| && t < |init| && cl[t].pc == Idle
      modifies this
      ensures Inv() && free == old(free) && owned == old(owned) && waiters == old(waiters)
      ensures init == old(init) && sent == old(sent) && next == old(next)
      ensures var none := NothingFor(old(mesg), old(queue)[t], f);
              && (res.NoEndpoint? <==> !old(init)[t])
              && (res.BadTimeout? <==> old(init)[t] && !TimeoutValid(timeout))
              && (res.Got? <==> old(init)[t] && TimeoutValid(timeout) && !none)
              && (res.Empty? <==> old(init)[t] && TimeoutValid(timeout) && none && timeout == NO_WAIT)
              && (res.Blocks? <==> old(init)[t] && TimeoutValid(timeout) && none && timeout != NO_WAIT)
      ensures res.Got? ==>
                exists i: nat :: i < |old(queue)[t]| && res.mesg == old(queue)[t][i] < |old(mesg)|
                  && Matches(f, old(mesg)[res.mesg].letter.sender)
                  && NothingFor(old(mesg), old(queue)[t][..i], f)
                  && queue == old(queue)[t := old(queue)[t][..i] + old(queue)[t][i + 1..]]
      ensures res.Got? ==>
                && res.mesg < |old(mesg)| && mesg == old(mesg)[res.mesg := old(mesg)[res.mesg].(state := Received)]
                && t < |old(got)| && got == old(got)[t := old(got)[t] + [mesg[res.mesg].letter]] && cl == old(cl)
      ensures !res.Got? ==> mesg == old(mesg) && queue == old(queue) && got == old(got)
      ensures res.Blocks? ==> cl == old(cl)[t := Client(Receiving(f), true, false, None)]
      ensures !res.Blocks? ==> cl == old(cl)
    {
      hide NoDup, FifoOk, FreeOk, OwnedOk, QueuedOk, AllocatorsOk, Numbered;
      if !init[t] {
        return NoEndpoint;
      }
      if !TimeoutValid(timeout) {
        return BadTimeout;
      }
      assert ClientOk(cl[t]);
      var i := Search(t, f);
      if i < |queue[t]| {
        var x := Take(t, i, f);
        return Got(x);
      }
      assert queue[t][..i] == queue[t];
      if timeout == NO_WAIT {
        return Empty;
      }
      ghost var c := Client(Receiving(f), true, false, None);
      AllocatorsAside(free, waiters, cl, t, c);
      ReceiversClient(mesg, queue, cl, t, c);
      cl := cl[t := Client(Receiving(f), true, false, None)];
      return Blocks;
    }

    // The caller of a blocking call runs again: with a message, or after its timeout. The wake-up
    // always left one of the two, so there is no third way round the loop.
    method Resume(t: nat) returns (res: Option<nat>)
      requires Inv() && t < |cl| && cl[t].pc != Idle && !cl[t].blocked
      modifies this`cl
      ensures Inv() && cl == old(cl)[t := Client(Idle, false, false, None)]
      ensures res == old(cl)[t].slot && (res == None <==> old(cl)[t].timeOut)
    {
      hide NoDup, FreeOk, OwnedOk, QueuedOk, FifoOk, Numbered;
      assert ClientOk(cl[t]);
      res := if cl[t].timeOut then None else cl[t].slot;
      AllocatorsAside(free, waiters, cl, t, Client(Idle, false, false, None));
      ReceiversClient(mesg, queue, cl, t, Client(Idle, false, false, None));
      cl := cl[t := Client(Idle, false, false, None)];
    }

    // A timeout: the task leaves the list it waits in, and no message is lost.
    method Expire(t: nat)
      requires Inv() && t < |cl| && cl[t].blocked
      modifies this`cl, this`waiters
      ensures Inv() && cl == old(cl)[t := old(cl)[t].(blocked := false, timeOut := true)]
      ensures old(cl)[t].pc.Allocating? ==>
                var p := old(cl)[t].pc.pool;
                && p < |old(waiters)| && t in old(waiters)[p]
                && waiters == old(waiters)[p := Without(old(waiters)[p], t)]
      ensures !old(cl)[t].pc.Allocating? ==> waiters == old(waiters)
    {
      hide FreeOk, OwnedOk, QueuedOk, FifoOk, Numbered, Without, IndexOf;
      assert ClientOk(cl[t]);
      ghost var x := cl[t].(blocked := false, timeOut := true);
      ReceiversClient(mesg, queue, cl, t, x);
      if cl[t].pc.Allocating? {
        var p := cl[t].pc.pool;
        AllocatorLeft(free, waiters, cl, p, t, x);
        waiters := waiters[p := Without(waiters[p], t)];
      } else {
        AllocatorsAside(free, waiters, cl, t, x);
      }
      cl := cl[t := cl[t].(blocked := false, timeOut := true)];
    }
  }

  lemma NotQueued(mesg: seq<Mesg>, queue: seq<seq<nat>>, x: nat)
    requires QueuedOk(mesg, queue) && x < |mesg| && mesg[x].state != Queued
    ensures forall r: nat :: r < |queue| ==> x !in queue[r]
  {
  }

  lemma PoolOf(mesg: seq<Mesg>, free: seq<seq<nat>>, p: nat)
    requires FreeOk(mesg, free) && p < |free| && free[p] != []
    ensures free[p][0] < |mesg| && mesg[free[p][0]].pool == p
  {
    assert free[p][0] in free[p];
  }

  lemma PoolBound(mesg: seq<Mesg>, free: seq<seq<nat>>, waiters: seq<seq<nat>>, cl: seq<Client>, x: nat)
    requires FreeOk(mesg, free) && AllocatorsOk(free, waiters, cl) && x < |mesg|
    ensures mesg[x].pool < |free| == |waiters|
  {
  }

  lemma HeadWaits(free: seq<seq<nat>>, waiters: seq<seq<nat>>, cl: seq<Client>, p: nat)
    requires AllocatorsOk(free, waiters, cl) && p < |waiters| && waiters[p] != []
    ensures var w := waiters[p][0];
            && w in waiters[p] && w < |cl| && cl[w].blocked && cl[w].pc == Allocating(p)
            && Without<nat>(waiters[p], w) == waiters[p][1..]
  {
    assert waiters[p][0] in waiters[p];
  }

  lemma FifoSizes(mesg: seq<Mesg>, queue: seq<seq<nat>>, sent: seq<seq<Letter>>, got: seq<seq<Letter>>)
    requires FifoOk(mesg, queue, sent, got)
    ensures |sent| == |got| == |queue|
  {
  }

  lemma NumberedAppend(sent: seq<seq<Letter>>, r: nat, t: nat, next: nat)
    requires Numbered(sent, next)
    ensures r < |sent| ==> Numbered(sent[r := sent[r] + [Letter(t, next)]], next + 1)
  {
  }

  lemma QueuedAt(mesg: seq<Mesg>, queue: seq<seq<nat>>, t: nat, i: nat)
    requires QueuedOk(mesg, queue) && t < |queue| && i < |queue[t]|
    ensures var x := queue[t][i];
            && x in queue[t] && x < |mesg| && mesg[x].state == Queued && mesg[x].owner == Some(t)
            && Without<nat>(queue[t], x) == queue[t][..i] + queue[t][i + 1..]
  {
    var x := queue[t][i];
    assert x in queue[t];
    IndexUnique(queue[t], x, i);
  }

  lemma IndexUnique(s: seq<nat>, x: nat, i: nat)
    requires NoDup(s) && x in s && i < |s| && s[i] == x
    ensures IndexOf<nat>(s, x) == i
  {
  }

  // ---- what the promises amount to ---------------------------------------------------------------

  // No block of a pool is lost or doubled: the free list and the owned blocks make up the pool.
  lemma Conserved(mesg: seq<Mesg>, free: seq<seq<nat>>, owned: seq<seq<nat>>, p: nat)
    requires FreeOk(mesg, free) && OwnedOk(mesg, owned) && p < |free|
    ensures |free[p]| + |set x: nat | x < |mesg| && mesg[x].pool == p && mesg[x].owner.Some?|
              == |set x: nat | x < |mesg| && mesg[x].pool == p|
  {
    var all := set x: nat | x < |mesg| && mesg[x].pool == p;
    var mine := set x: nat | x < |mesg| && mesg[x].pool == p && mesg[x].owner.Some?;
    var idle := set x: nat | x < |mesg| && mesg[x].pool == p && mesg[x].state == Free;
    assert all == mine + idle && mine !! idle;
    forall x: nat ensures x in idle <==> x in free[p] {
    }
    NoDupSize(free[p], idle);
  }

  // The letters r took from s are the first ones s sent to r.
  lemma TakenInOrder(mesg: seq<Mesg>, queue: seq<seq<nat>>, sent: seq<seq<Letter>>, got: seq<seq<Letter>>,
                     r: nat, s: nat)
    requires FifoOk(mesg, queue, sent, got) && r < |queue|
    ensures By(got[r], s) <= By(sent[r], s)
  {
    assert By(sent[r], s) == By(got[r], s) + By(LettersOf(mesg, queue[r]), s);
  }

  // ---- runs ------------------------------------------------------------------------------------------

  datatype Step =
    | AllocStep(task: nat, pool: nat, timeout: nat, slot: nat)
    | FreeStep(mesg: nat)
    | SendStep(task: nat, to: nat, mesg: nat)
    | WaitStep(task: nat, filter: Filter, timeout: nat)
    | ResumeStep(task: nat)
    | ExpireStep(task: nat)

  // Steps whose precondition does not hold in the present state are skipped.
  method Do(k: Messages, step: Step)
    requires k.Inv()
    modifies k
    ensures k.Inv()
  {
    hide FifoOk, FreeOk, OwnedOk, QueuedOk, ReceiversOk, ClientsOk, Numbered, NoDup;
    match step
    case AllocStep(t, p, timeout, slot) =>
      if t < |k.cl| && p < |k.free| && k.cl[t].pc == Idle && slot <= |k.waiters[p]| {
        var _ := k.Alloc(t, p, timeout, slot);
      }
    case FreeStep(x) =>
      if x < |k.mesg| {
        var _ := k.FreeMesg(x);
      }
    case SendStep(t, to, x) =>
      if t < |k.cl| && to < |k.cl| && x < |k.mesg| {
        var _ := k.Send(t, to, x);
      }
    case WaitStep(t, f, timeout) =>
      if t < |k.cl| && k.cl[t].pc == Idle {
        var _ := k.Wait(t, f, timeout);
      }
    case ResumeStep(t) =>
      if t < |k.cl| && k.cl[t].pc != Idle && !k.cl[t].blocked {
        var _ := k.Resume(t);
      }
    case ExpireStep(t) =>
      if t < |k.cl| && k.cl[t].blocked {
        k.Expire(t);
      }
  }

  // In every reachable state blocks are conserved and letters were taken in order.
  method Execute(k: Messages, steps: seq<Step>)
    requires k.Inv()
    modifies k
    ensures k.Inv() && |k.sent| == |k.got| == |k.queue|
    ensures forall r: nat, s: nat :: r < |k.queue| ==> By(k.got[r], s) <= By(k.sent[r], s)
    ensures forall p: nat :: p < |k.free| ==>
              |k.free[p]| + |set x: nat | x < |k.mesg| && k.mesg[x].pool == p && k.mesg[x].owner.Some?|
                == |set x: nat | x < |k.mesg| && k.mesg[x].pool == p|
  {
    hide FifoOk, FreeOk, OwnedOk, QueuedOk, ReceiversOk, AllocatorsOk, ClientsOk, Numbered, NoDup;
    for i := 0 to |steps|
      invariant k.Inv()
    {
      Do(k, steps[i]);
    }
    FifoSizes(k.mesg, k.queue, k.sent, k.got);
    forall r: nat, s: nat | r < |k.queue| ensures By(k.got[r], s) <= By(k.sent[r], s) {
      TakenInOrder(k.mesg, k.queue, k.sent, k.got, r, s);
    }
    forall p: nat | p < |k.free|
      ensures |k.free[p]| + |set x: nat | x < |k.mesg| && k.mesg[x].pool == p && k.mesg[x].owner.Some?|
                == |set x: nat | x < |k.mesg| && k.mesg[x].pool == p|
    {
      Conserved(k.mesg, k.free, k.owned, p);
    }
  }
}
