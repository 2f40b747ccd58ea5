// Asynchronous direct messages: pool blocks, their owners, the endpoint queues, the tasks that wait
// for a block or a message, and the order in which letters were sent and taken.
module AsynchState {
  import opened Prelude

  datatype State = Free | Allocated | Queued | Received

  // A letter is one send: who sent it, and its number among all sends.
  datatype Letter = Letter(sender: nat, no: nat)

  datatype Mesg = Mesg(pool: nat, state: State, owner: Option<nat>, letter: Letter)

  datatype Filter = Anyone | From(sender: nat)

  datatype Pc = Idle | Allocating(pool: nat) | Receiving(filter: Filter)

  // slot is the pointer variable the task passed to the call it is in.
  datatype Client = Client(pc: Pc, blocked: bool, timeOut: bool, slot: Option<nat>)

  predicate Matches(f: Filter, sender: nat) {
    f == Anyone || f == From(sender)
  }

  // ---- conservation --------------------------------------------------------------------------

  // A block is free exactly while it is in the free list of its pool, once.
  ghost predicate FreeOk(mesg: seq<Mesg>, free: seq<seq<nat>>) {
    && (forall p: nat :: p < |free| ==> NoDup(free[p]))
    && (forall p: nat, x: nat {:trigger x in free[p]} :: p < |free| && x in free[p] ==>
          x < |mesg| && mesg[x].pool == p && mesg[x].state == Free)
    && (forall x: nat :: x < |mesg| ==> mesg[x].pool < |free|)
    && (forall x: nat :: x < |mesg| && mesg[x].state == Free ==> mesg[x].pool < |free| && x in free[mesg[x].pool])
  }

  // A block that is not free is owned by one task and once in the list of that task.
  ghost predicate OwnedOk(mesg: seq<Mesg>, owned: seq<seq<nat>>) {
    && (forall t: nat :: t < |owned| ==> NoDup(owned[t]))
    && (forall t: nat, x: nat {:trigger x in owned[t]} :: t < |owned| && x in owned[t] ==>
          x < |mesg| && mesg[x].owner == Some(t))
    && (forall x: nat :: x < |mesg| && mesg[x].owner.Some? ==>
          mesg[x].owner.value < |owned| && x in owned[mesg[x].owner.value])
    && (forall x: nat :: x < |mesg| ==> (mesg[x].owner.None? <==> mesg[x].state == Free))
  }

  // A message is queued exactly while it is linked in an endpoint queue, the one of its owner.
  ghost predicate QueuedOk(mesg: seq<Mesg>, queue: seq<seq<nat>>) {
    && (forall r: nat :: r < |queue| ==> NoDup(queue[r]))
    && (forall r: nat, x: nat {:trigger x in queue[r]} :: r < |queue| && x in queue[r] ==>
          x < |mesg| && mesg[x].state == Queued && mesg[x].owner == Some(r))
    && (forall x: nat :: x < |mesg| && mesg[x].state == Queued ==>
          mesg[x].owner.Some? && mesg[x].owner.value < |queue| && x in queue[mesg[x].owner.value])
  }

  // ---- waiting tasks ---------------------------------------------------------------------------

  // Allocators wait only for pools that are empty.
  ghost predicate AllocatorsOk(free: seq<seq<nat>>, waiters: seq<seq<nat>>, cl: seq<Client>) {
    && |waiters| == |free|
    && (forall p: nat :: p < |waiters| ==> NoDup(waiters[p]))
    && (forall p: nat, w: nat {:trigger w in waiters[p]} :: p < |waiters| && w in waiters[p] ==>
          w < |cl| && cl[w].blocked && cl[w].pc == Allocating(p))
    && (forall w: nat :: w < |cl| && cl[w].blocked && cl[w].pc.Allocating? ==>
          cl[w].pc.pool < |waiters| && w in waiters[cl[w].pc.pool])
    && (forall p: nat :: p < |waiters| && waiters[p] != [] ==> free[p] == [])
  }

  // No message in the queue of a blocked receiver matches what it waits for.
  ghost predicate NothingFor(mesg: seq<Mesg>, queue: seq<nat>, f: Filter) {
    forall i: nat :: i < |queue| ==> queue[i] < |mesg| && !Matches(f, mesg[queue[i]].letter.sender)
  }

  ghost predicate ReceiversOk(mesg: seq<Mesg>, queue: seq<seq<nat>>, cl: seq<Client>) {
    && |queue| == |cl|
    && forall r: nat :: r < |cl| && cl[r].blocked && cl[r].pc.Receiving? ==>
         NothingFor(mesg, queue[r], cl[r].pc.filter)
  }

  ghost predicate ClientOk(x: Client) {
    && (x.blocked ==> !x.timeOut && x.pc != Idle && x.slot == None)
    && (x.pc == Idle ==> !x.timeOut)
    && (x.pc != Idle && !x.blocked ==> (x.timeOut <==> x.slot == None))
  }

  ghost predicate ClientsOk(cl: seq<Client>) {
    forall c: nat :: c < |cl| ==> ClientOk(cl[c])
  }

  // ---- order -----------------------------------------------------------------------------------

  function LettersOf(mesg: seq<Mesg>, queue: seq<nat>): seq<Letter>
    requires forall i: nat :: i < |queue| ==> queue[i] < |mesg|
  {
    if queue == [] then [] else LettersOf(mesg, queue[..|queue| - 1]) + [mesg[queue[|queue| - 1]].letter]
  }

  // The letters of one sender, in order.
  function By(letters: seq<Letter>, sender: nat): seq<Letter> {
    if letters == [] then []
    else
      var l := letters[|letters| - 1];
      By(letters[..|letters| - 1], sender) + (if l.sender == sender then [l] else [])
  }

  ghost predicate InRange(mesg: seq<Mesg>, queue: seq<seq<nat>>) {
    forall r: nat, i: nat :: r < |queue| && i < |queue[r]| ==> queue[r][i] < |mesg|
  }

  // What r took from s, followed by what still lies in its queue from s, is what s sent to r, in the
  // order of sending.
  ghost predicate FifoOk(mesg: seq<Mesg>, queue: seq<seq<nat>>, sent: seq<seq<Letter>>, got: seq<seq<Letter>>) {
    && |sent| == |got| == |queue| && InRange(mesg, queue)
    && forall r: nat, s: nat {:trigger By(sent[r], s)} :: r < |queue| ==>
         By(sent[r], s) == By(got[r], s) + By(LettersOf(mesg, queue[r]), s)
  }

  // Sends are numbered in order.
  ghost predicate Numbered(sent: seq<seq<Letter>>, next: nat) {
    && (forall r: nat, i: nat :: r < |sent| && i < |sent[r]| ==> sent[r][i].no < next)
    && (forall r: nat, i: nat, j: nat :: r < |sent| && i < j < |sent[r]| ==> sent[r][i].no < sent[r][j].no)
  }
}
