// Synchronous direct messages: the one-way rendezvous and the call, accept, reply protocol. A
// blocking call is two steps, with any steps of other tasks and timeouts in between.
module SynchMesg {
  import opened Prelude
  import opened Queues
  import opened SynchState
  import opened SynchHistory
  import opened SynchSend
  import opened SynchCall

  datatype SendResult = InvalidParam | NotInit | InvalidSize | InvalidTimeout | InvalidState | Sent | NoWait | Waits

  datatype RecvResult = Uninit | BadTimeout | BadState | Got(bytes: seq<Byte>) | Empty | Blocks | Busy

  datatype ReplyResult = NotActive | WrongState | TooLong | Answered | Discarded

  predicate SizeValid(n: nat, max: nat) {
    n != 0 && n % WORD_SIZE == 0 && n <= max
  }

  // The sender in the pending slot works on ticket t.
  ghost predicate NamesPending(e: Endpoint, cl: seq<Client>, t: nat) {
    && e.pendingSender.Some? && e.pendingSender.value < |cl|
    && cl[e.pendingSender.value].pc == Sending(t)
  }

  // The pending sender of r has left and runs again; the others keep their order, and the first of them
  // fills the slot. Nobody else has changed.
  ghost predicate Consumed(ep: seq<Endpoint>, cl: seq<Client>, r: nat, bytes: seq<Byte>,
                           ep2: seq<Endpoint>, cl2: seq<Client>)
  {
    && r < |ep| == |ep2| && r < |cl| && ep[r].pendingSender.Some?
    && var s := ep[r].pendingSender.value;
    && s < |cl| && s != r && s in ep[r].senders
    && cl2 == cl[r := cl[r].(data := bytes)][s := cl[s].(mesg := None, receiver := None, blocked := false)]
    && ep2 == ep[r := ep2[r]] && ep2[r].max == ep[r].max && ep2[r].buf == ep[r].buf
    && ep2[r].senders == Without<nat>(ep[r].senders, s)
    && (if ep2[r].senders == [] then ep2[r].pending == None && ep2[r].pendingSender == None
        else ep2[r].pendingSender == Some(ep2[r].senders[0]) && ep2[r].senders[0] < |cl|
             && ep2[r].pending == cl[ep2[r].senders[0]].mesg)
  }

  // The request of the first caller of r has been copied; its call is the active one, and accepted once.
  ghost predicate TakenBy(srv: seq<Server>, cl: seq<Client>, log: Log, r: nat, bytes: seq<Byte>,
                          srv2: seq<Server>, cl2: seq<Client>, log2: Log)
  {
    && r < |srv| && r < |cl| && srv[r].callers != [] && srv2 == srv[r := Taken(srv[r])]
    && var c := srv[r].callers[0];
    && c < |cl| && c != r && cl[c].pc.Calling? && cl[c].blocked && cl[c].state == Queued && cl[c].mesg == Some(bytes)
    && cl2 == cl[r := cl[r].(data := bytes)][c := cl[c].(mesg := None, state := Active)]
    && log2 == Accepted(log, cl[c].pc.ticket) && cl[c].pc.ticket !in log.accepted
  }

  // Server r waits for a caller.
  ghost predicate AcceptorBlocked(srv: seq<Server>, cl: seq<Client>, r: nat, srv2: seq<Server>, cl2: seq<Client>) {
    && r < |srv| && r < |cl| && srv2 == srv[r := srv[r].(acceptor := true)]
    && cl2 == cl[r := cl[r].(pc := Accepting, blocked := true)]
  }

  // An abandoned caller stays locked to its server.
  ghost predicate LockedOut(cl: seq<Client>, cl2: seq<Client>, but: Option<nat>) {
    && |cl2| == |cl|
    && forall c: nat :: c < |cl| && Some(c) != but && cl[c].state == Abandoned ==>
         cl2[c].state == Abandoned && cl2[c].receiver == cl[c].receiver
  }

  // Senders and callers that stay queued keep their order. The slot keeps its sender while that one is
  // queued; after that it has the first of the queue.
  ghost predicate Orderly(ep: seq<Endpoint>, srv: seq<Server>, ep2: seq<Endpoint>, srv2: seq<Server>) {
    && |ep2| == |ep| && |srv2| == |srv|
    && (forall r: nat :: r < |ep| ==> OrderKept(ep[r].senders, ep2[r].senders) && SlotKept(ep[r], ep2[r]))
    && (forall r: nat :: r < |srv| ==> OrderKept(srv[r].callers, srv2[r].callers))
  }

  ghost predicate SlotKept(e: Endpoint, e2: Endpoint) {
    if e.pendingSender.Some? && e.pendingSender.value in e2.senders then e2.pendingSender == e.pendingSender
    else e2.pendingSender == if e2.senders == [] then None else Some(e2.senders[0])
  }

  lemma OrderlySame(ep: seq<Endpoint>, srv: seq<Server>, cl: seq<Client>)
    requires OneWayOk(ep, cl)
    ensures Orderly(ep, srv, ep, srv)
  {
    forall r: nat | r < |ep| ensures SlotKept(ep[r], ep[r]) {
      assert PendingAt(ep, cl, r);
    }
  }

  lemma OrderlyEndpoint(ep: seq<Endpoint>, srv: seq<Server>, cl: seq<Client>, r: nat, e: Endpoint)
    requires OneWayOk(ep, cl) && r < |ep| && OrderKept(ep[r].senders, e.senders) && SlotKept(ep[r], e)
    ensures Orderly(ep, srv, ep[r := e], srv)
  {
    OrderlySame(ep, srv, cl);
  }

  lemma OrderlyServer(ep: seq<Endpoint>, srv: seq<Server>, cl: seq<Client>, r: nat, e: Server)
    requires OneWayOk(ep, cl) && r < |srv| && OrderKept(srv[r].callers, e.callers)
    ensures Orderly(ep, srv, ep, srv[r := e])
  {
    OrderlySame(ep, srv, cl);
  }

  lemma OrderlyBuffer(ep: seq<Endpoint>, srv: seq<Server>, cl: seq<Client>, r: nat, buf: bool)
    requires OneWayOk(ep, cl) && r < |ep|
    ensures Orderly(ep, srv, ep[r := ep[r].(buf := buf)], srv)
  {
    assert PendingAt(ep, cl, r);
    OrderlyEndpoint(ep, srv, cl, r, ep[r].(buf := buf));
  }

  lemma OrderlyPosted(ep: seq<Endpoint>, srv: seq<Server>, cl: seq<Client>, cl2: seq<Client>, r: nat, s: nat, slot: nat)
    requires OneWayOk(ep, cl) && r < |ep| && slot <= |ep[r].senders| && |cl2| == |cl| && s < |cl|
    ensures Orderly(ep, srv, ep[r := Promoted(ep[r].(senders := InsertAt(ep[r].senders, slot, s)), cl2)], srv)
  {
    assert PendingAt(ep, cl, r);
    var e := Promoted(ep[r].(senders := InsertAt(ep[r].senders, slot, s)), cl2);
    InsertOrder(ep[r].senders, slot, s);
    if ep[r].senders != [] {
      var p := ep[r].pendingSender.value;
      var j: nat :| j < |ep[r].senders| && ep[r].senders[j] == p;
      assert e.senders[if j < slot then j else j + 1] == p;
    }
    OrderlyEndpoint(ep, srv, cl, r, e);
  }

  lemma OrderlyGone(ep: seq<Endpoint>, srv: seq<Server>, cl: seq<Client>, cl2: seq<Client>, r: nat, s: nat)
    requires OneWayOk(ep, cl) && r < |ep| && s in ep[r].senders && |cl2| == |cl|
    ensures Orderly(ep, srv, ep[r := SenderGone(ep[r], s, cl2)], srv)
  {
    assert PendingAt(ep, cl, r);
    SlotAfter(ep, cl, cl2, r, s);
    WithoutFacts(ep[r].senders, s);
    WithoutOrder(ep[r].senders, s);
    hide Without, IndexOf;
    OrderlyEndpoint(ep, srv, cl, r, SenderGone(ep[r], s, cl2));
  }

  // Receiver r takes the payload of its pending sender s.
  lemma ConsumedKeeps(ep: seq<Endpoint>, srv: seq<Server>, cl: seq<Client>, log: Log, r: nat, s: nat)
    requires OneWayOk(ep, cl) && InvocationOk(srv, cl) && ClientsOk(cl) && HistoryOk(log) && TicketsOk(cl, log)
    requires r < |ep| == |cl| && s < |cl| && s != r && s in ep[r].senders && ep[r].pendingSender == Some(s)
    requires cl[r].pc == Free && cl[s].blocked && cl[s].pc.Sending? && ep[r].pending.Some?
    requires ep[r].pending == cl[s].mesg
    ensures var t, bytes := cl[s].pc.ticket, ep[r].pending.value;
            && t in log.sent && t !in log.matched && bytes == log.sent[t]
            && var log2 := Matched(RecvOpened(log), t, log.next);
            && var cl1 := cl[r := cl[r].(data := bytes)];
            && var cl2 := cl1[s := cl1[s].(mesg := None, receiver := None, blocked := false)];
            && var e := ep[r].(pending := None, pendingSender := None, senders := Without(ep[r].senders, s));
            && OneWayOk(ep[r := Promoted(e, cl2)], cl2) && InvocationOk(srv, cl2) && ClientsOk(cl2)
            && HistoryOk(log2) && TicketsOk(cl2, log2) && LockedOut(cl, cl2, None)
  {
    hide Orderly, OneWayOk, InvocationOk, SendHistoryOk, CallHistoryOk, Without, IndexOf;
    assert ClientOk(cl[r]) && ClientOk(cl[s]) && TicketOk(cl[s], log);
    var t, bytes := cl[s].pc.ticket, ep[r].pending.value;
    var x, y := Unposted(cl[s], false), cl[r].(data := bytes);
    var cl2 := cl[s := x][r := y];
    assert cl2 == cl[r := y][s := x];
    SenderGoneOneWay(ep, cl, r, s, false);
    var e := ep[r].(pending := None, pendingSender := None, senders := Without(ep[r].senders, s));
    PromotedSame(e, cl[s := x], r, y);
    OneWayAside(ep[r := SenderGone(ep[r], s, cl[s := x])], cl[s := x], r, y);
    InvocationAside(srv, cl, s, x);
    InvocationAside(srv, cl[s := x], r, y);
    RecvOpenedHistory(log);
    FreshTicket(log);
    MatchedHistory(RecvOpened(log), t, log.next);
    TicketsKept(cl, cl2, log, Matched(RecvOpened(log), t, log.next), s, r);
  }

  // Caller c joins the queue of server r, whose acceptor wakes up if it waits.
  lemma EnqueuedKeeps(ep: seq<Endpoint>, srv: seq<Server>, cl: seq<Client>, log: Log, c: nat, r: nat,
                      req: seq<Byte>, replyMax: nat, slot: nat)
    requires OneWayOk(ep, cl) && InvocationOk(srv, cl) && ClientsOk(cl) && HistoryOk(log) && TicketsOk(cl, log)
    requires c < |cl| && r < |srv| && c != r && slot <= |srv[r].callers|
    requires cl[c].pc == Free && cl[c].state == NoCall
    ensures r < |cl|
    ensures var x, y := Requested(cl[c], r, req, replyMax, log.next), Woken(cl[r], srv[r].acceptor);
            var cl2 := cl[c := x][r := y];
            && OneWayOk(ep, cl2) && InvocationOk(srv[r := Called(srv[r], slot, c)], cl2) && ClientsOk(cl2)
            && HistoryOk(CallOpened(log, replyMax)) && TicketsOk(cl2, CallOpened(log, replyMax))
            && LockedOut(cl, cl2, None)
  {
    hide Orderly, SendersOk, CallersOk, ActiveOk, SendHistoryOk, CallHistoryOk;
    assert ClientOk(cl[c]) && ClientOk(cl[r]) && AcceptorOk(srv, cl, r) && TicketOk(cl[r], log);
    var x, y := Requested(cl[c], r, req, replyMax, log.next), Woken(cl[r], srv[r].acceptor);
    CalledOk(srv, cl, c, r, x, slot);
    OneWayAside(ep, cl, c, x);
    if srv[r].acceptor {
      OneWayAside(ep, cl[c := x], r, y);
    } else {
      assert cl[c := x][r := y] == cl[c := x];
    }
    CallOpenedHistory(log, replyMax);
    FreshTicket(log);
    TicketsKept(cl, cl[c := x][r := y], log, CallOpened(log, replyMax), c, r);
  }

  class Synch {
    var ep: seq<Endpoint>
    var srv: seq<Server>
    var cl: seq<Client>
    var log: Log                 // what happened so far; only specifications look at it

    ghost predicate Inv()
      reads this
    {
      OneWayOk(ep, cl) && InvocationOk(srv, cl) && ClientsOk(cl) && HistoryOk(log) && TicketsOk(cl, log)
    }

    constructor (sizes: seq<nat>)
      ensures Inv() && |cl| == |sizes| && log == Log(0, map[], map[], map[], {}, map[], {}, map[], {})
      ensures |ep| == |srv| == |cl|
      ensures forall i: nat :: i < |cl| ==>
                && ep[i] == Endpoint(sizes[i], None, None, [], false) && srv[i] == Server([], None, false)
                && cl[i] == Client(None, None, NoCall, 0, [], [], Free, false, false)
    {
      ep := seq(|sizes|, i requires 0 <= i < |sizes| => Endpoint(sizes[i], None, None, [], false));
      srv := seq(|sizes|, i => Server([], None, false));
      cl := seq(|sizes|, i => Client(None, None, NoCall, 0, [], [], Free, false, false));
      log := Log(0, map[], map[], map[], {}, map[], {}, map[], {});
    }

    // ---- one-way messages ----------------------------------------------------------------------

    // Copy into the buffer of the waiting receiver and wake it.
    method DirectRecv(r: nat, bytes: seq<Byte>)
      requires Inv() && r < |cl| && r < |ep| && ep[r].buf
      modifies this
      ensures Inv() && LockedOut(old(cl), cl, None) && srv == old(srv)
      ensures old(cl)[r].pc.Receiving? && cl == old(cl)[r := Served(old(cl)[r], bytes)]
      ensures log == Matched(SendOpened(old(log), bytes), old(log).next, cl[r].pc.ticket)
      ensures ep == old(ep)[r := old(ep)[r].(buf := false)]
      ensures Orderly(old(ep), old(srv), ep, srv)
    {
      hide Orderly, SendersOk, CallersOk, ActiveOk, SendHistoryOk, CallHistoryOk;
      OrderlyBuffer(ep, srv, cl, r, false);
      assert PendingAt(ep, cl, r) && ClientOk(cl[r]);
      var t, u := log.next, cl[r].pc.ticket;
      assert TicketOk(cl[r], log);
      ServedOneWay(ep, cl, r, bytes);
      InvocationAside(srv, cl, r, Served(cl[r], bytes));
      SendOpenedHistory(log, bytes);
      var begun := SendOpened(log, bytes);
      FreshTicket(log);
      MatchedHistory(begun, t, u);
      TicketsKept(cl, cl[r := Served(cl[r], bytes)], log, Matched(begun, t, u), r, r);
      cl := cl[r := Served(cl[r], bytes)];
      ep := ep[r := ep[r].(buf := false)];
      log := Matched(begun, t, u);
    }

    // Queue behind the receiver; slot is where the search by priority ends.
    method Post(s: nat, r: nat, bytes: seq<Byte>, slot: nat)
      requires Inv() && s < |cl| && r < |ep| && s != r && slot <= |ep[r].senders|
      requires cl[s].pc == Free && cl[s].state == NoCall && !ep[r].buf
      modifies this
      ensures Inv() && LockedOut(old(cl), cl, None) && srv == old(srv)
      ensures cl == old(cl)[s := Poster(old(cl)[s], r, bytes, old(log).next)]
      ensures log == SendOpened(old(log), bytes)
      // the slot, once filled, keeps its sender
      ensures |ep| == |old(ep)| && ep[r].senders == InsertAt(old(ep)[r].senders, slot, s)
      ensures ep[r].pendingSender == if old(ep)[r].senders == [] then Some(s) else old(ep)[r].pendingSender
      ensures ep == old(ep)[r := Promoted(old(ep)[r].(senders := InsertAt(old(ep)[r].senders, slot, s)), cl)]
      ensures Orderly(old(ep), old(srv), ep, srv)
    {
      hide Orderly, SendersOk, CallersOk, ActiveOk, SendHistoryOk, CallHistoryOk;
      OrderlyPosted(ep, srv, cl, cl[s := Poster(cl[s], r, bytes, log.next)], r, s, slot);
      assert ClientOk(cl[s]) && PendingAt(ep, cl, r);
      var t := log.next;
      ghost var x := Poster(cl[s], r, bytes, t);
      PostedOneWay(ep, cl, s, r, bytes, t, slot);
      InvocationAside(srv, cl, s, x);
      SendOpenedHistory(log, bytes);
      FreshTicket(log);
      TicketsKept(cl, cl[s := x], log, SendOpened(log, bytes), s, s);
      cl := cl[s := cl[s].(mesg := Some(bytes), receiver := Some(r), pc := Sending(t), blocked := true)];
      ep := ep[r := Promoted(ep[r].(senders := InsertAt(ep[r].senders, slot, s)), cl)];
      log := SendOpened(log, bytes);
    }

    // The call up to the point where the sender may be switched out.
    method Send(s: nat, r: nat, bytes: seq<Byte>, ownsMutex: bool, timeout: nat, slot: nat) returns (res: SendResult)
      requires Inv() && s < |cl| && r < |ep| && cl[s].pc == Free && slot <= |ep[r].senders|
      modifies this
      ensures Inv() && LockedOut(old(cl), cl, None)
      ensures var ok := s != r && SizeValid(|bytes|, old(ep)[r].max) && TimeoutValid(timeout)
                        && !ownsMutex && old(cl)[s].state == NoCall;
              && (res.Sent? <==> ok && old(ep)[r].buf)
              && (res.NoWait? <==> ok && !old(ep)[r].buf && timeout == NO_WAIT)
              && (res.Waits? <==> ok && !old(ep)[r].buf && timeout != NO_WAIT)
      ensures res.InvalidParam? <==> s == r
      ensures res.NotInit? <==> s != r && old(ep)[r].max == 0
      ensures var fits := SizeValid(|bytes|, old(ep)[r].max);
              && (res.InvalidSize? <==> s != r && old(ep)[r].max != 0 && !fits)
              && (res.InvalidTimeout? <==> s != r && fits && !TimeoutValid(timeout))
              && (res.InvalidState? <==>
                    s != r && fits && TimeoutValid(timeout) && (ownsMutex || old(cl)[s].state != NoCall))
      ensures old(cl)[s].state == Abandoned ==> !res.Sent? && !res.Waits?
      ensures res.Sent? ==>
                && r < |old(cl)| && old(cl)[r].pc.Receiving? && old(cl)[r].blocked
                && cl == old(cl)[r := Served(old(cl)[r], bytes)]
                && ep == old(ep)[r := old(ep)[r].(buf := false)] && srv == old(srv)
                && log == Matched(SendOpened(old(log), bytes), old(log).next, cl[r].pc.ticket)
      ensures res.Waits? ==>
                && log == SendOpened(old(log), bytes) && srv == old(srv)
                && cl == old(cl)[s := Poster(old(cl)[s], r, bytes, old(log).next)]
                && ep == old(ep)[r := Promoted(old(ep)[r].(senders := InsertAt(old(ep)[r].senders, slot, s)), cl)]
      ensures !res.Sent? && !res.Waits? ==> ep == old(ep) && srv == old(srv) && cl == old(cl) && log == old(log)
      ensures Orderly(old(ep), old(srv), ep, srv)
    {
      hide Orderly, SendersOk, InvocationOk, HistoryOk, TicketsOk;
      OrderlySame(ep, srv, cl);
      assert ClientOk(cl[s]) && PendingAt(ep, cl, r);
      if s == r {
        return InvalidParam;
      }
      if ep[r].max == 0 {
        return NotInit;
      }
      if !SizeValid(|bytes|, ep[r].max) {
        return InvalidSize;
      }
      if !TimeoutValid(timeout) {
        return SendResult.InvalidTimeout;
      }
      if ownsMutex || cl[s].receiver.Some? || cl[s].state != NoCall {
        return InvalidState;
      }
      if ep[r].buf && ep[r].pending == None {
        DirectRecv(r, bytes);
        return Sent;
      }
      if timeout == NO_WAIT {
        return NoWait;
      }
      Post(s, r, bytes, slot);
      return Waits;
    }

    // The sender runs again.
    method SendResume(s: nat) returns (timedOut: bool)
      requires Inv() && s < |cl| && cl[s].pc.Sending? && !cl[s].blocked
      modifies this
      ensures Inv() && LockedOut(old(cl), cl, None) && log == old(log)
      ensures timedOut <==> old(cl)[s].pc.ticket in log.lapsed
      ensures !timedOut <==> old(cl)[s].pc.ticket in log.matched
      ensures cl == old(cl)[s := old(cl)[s].(pc := Free, timeOut := false)] && ep == old(ep) && srv == old(srv)
    {
      assert TicketOk(cl[s], log) && ClientOk(cl[s]);
      timedOut := cl[s].timeOut;
      Return(s);
    }

    // Back to the task's own code.
    method Return(c: nat)
      requires Inv() && c < |cl| && !cl[c].blocked
      modifies this`cl
      ensures Inv() && LockedOut(old(cl), cl, None)
      ensures cl == old(cl)[c := old(cl)[c].(pc := Free, timeOut := false)]
    {
      hide Orderly, SendersOk, CallersOk, ActiveOk, SendHistoryOk, CallHistoryOk;
      assert ClientOk(cl[c]);
      ghost var x := cl[c].(pc := Free, timeOut := false);
      OneWayAside(ep, cl, c, x);
      InvocationAside(srv, cl, c, x);
      TicketsKept(cl, cl[c := x], log, log, c, c);
      cl := cl[c := cl[c].(pc := Free, timeOut := false)];
    }

    // Take the payload of the pending sender, who runs again.
    method Consume(r: nat) returns (bytes: seq<Byte>, t: nat)
      requires Inv() && r < |ep| && cl[r].pc == Free && ep[r].pending.Some?
      modifies this
      ensures Inv() && LockedOut(old(cl), cl, None) && srv == old(srv)
      ensures t in old(log).sent && t !in old(log).matched && bytes == old(log).sent[t]
      ensures log == Matched(RecvOpened(old(log)), t, old(log).next)
      ensures NamesPending(old(ep)[r], old(cl), t)
      ensures Consumed(old(ep), old(cl), r, bytes, ep, cl)
      ensures Orderly(old(ep), old(srv), ep, srv)
    {
      hide Orderly, OneWayOk, InvocationOk, ClientsOk, HistoryOk, TicketsOk, Without, IndexOf;
      var s := PendingOf(r);
      ConsumedKeeps(ep, srv, cl, log, r, s);
      t := cl[s].pc.ticket;
      bytes := ep[r].pending.value;
      log := Matched(RecvOpened(log), t, log.next);
      cl := cl[r := cl[r].(data := bytes)];
      cl := cl[s := cl[s].(mesg := None, receiver := None, blocked := false)];
      ep := ep[r := ep[r].(pending := None, pendingSender := None, senders := Without(ep[r].senders, s))];
      ep := ep[r := Promoted(ep[r], cl)];
      OrderlyGone(old(ep), srv, old(cl), cl, r, s);
      SlotAfter(old(ep), old(cl), cl, r, s);
      assert ep == old(ep)[r := SenderGone(old(ep)[r], s, cl)];
    }

    method PendingOf(r: nat) returns (s: nat)
      requires Inv() && r < |ep| && cl[r].pc == Free && ep[r].pending.Some?
      ensures s < |cl| && |cl| == |ep| && s != r && s in ep[r].senders && ep[r].pendingSender == Some(s)
      ensures cl[s].blocked && cl[s].pc.Sending? && ep[r].pending == cl[s].mesg
      ensures var q := Without<nat>(ep[r].senders, s);
              && |q| == |ep[r].senders| - 1
              && (q != [] ==> q[0] < |cl|)
    {
      assert PendingAt(ep, cl, r) && ClientOk(cl[r]);
      s := ep[r].pendingSender.value;
      assert Sender(cl, r, s);
      WithoutFacts<nat>(ep[r].senders, s);
      ghost var q := Without<nat>(ep[r].senders, s);
      assert q != [] ==> q[0] in q && Sender(cl, r, q[0]);
    }

    // Wait with the buffer on offer.
    method Offer(r: nat)
      requires Inv() && r < |ep| && cl[r].pc == Free && ep[r].pending == None
      modifies this
      ensures Inv() && LockedOut(old(cl), cl, None) && srv == old(srv)
      ensures cl == old(cl)[r := old(cl)[r].(pc := Receiving(old(log).next), blocked := true)]
      ensures log == RecvOpened(old(log))
      ensures ep == old(ep)[r := old(ep)[r].(buf := true)]
      ensures Orderly(old(ep), old(srv), ep, srv)
    {
      hide Orderly, SendersOk, CallersOk, ActiveOk, SendHistoryOk, CallHistoryOk;
      OrderlyBuffer(ep, srv, cl, r, true);
      assert ClientOk(cl[r]);
      var x := cl[r].(pc := Receiving(log.next), blocked := true);
      ReceivingOneWay(ep, cl, r, log.next);
      InvocationAside(srv, cl, r, x);
      RecvOpenedHistory(log);
      FreshTicket(log);
      TicketsKept(cl, cl[r := x], log, RecvOpened(log), r, r);
      cl := cl[r := x];
      ep := ep[r := ep[r].(buf := true)];
      log := RecvOpened(log);
    }

    method Recv(r: nat, ownsMutex: bool, timeout: nat) returns (res: RecvResult)
      requires Inv() && r < |ep| && cl[r].pc == Free
      modifies this
      ensures Inv() && LockedOut(old(cl), cl, None)
      ensures var ok := old(ep)[r].max != 0 && TimeoutValid(timeout) && !ownsMutex;
              && (res.Got? <==> ok && old(ep)[r].senders != [])
              && (res.Empty? <==> ok && old(ep)[r].senders == [] && timeout == NO_WAIT)
              && (res.Blocks? <==> ok && old(ep)[r].senders == [] && timeout != NO_WAIT)
      ensures res.Got? ==>
                exists t: nat :: NamesPending(old(ep)[r], old(cl), t)
                                 && t in old(log).sent && t !in old(log).matched && res.bytes == old(log).sent[t]
                                 && log == Matched(RecvOpened(old(log)), t, old(log).next)
      ensures res.Got? ==> srv == old(srv) && Consumed(old(ep), old(cl), r, res.bytes, ep, cl)
      ensures res.Blocks? ==>
                && log == RecvOpened(old(log)) && srv == old(srv)
                && cl == old(cl)[r := old(cl)[r].(pc := Receiving(old(log).next), blocked := true)]
                && ep == old(ep)[r := old(ep)[r].(buf := true)]
      ensures res.Uninit? <==> old(ep)[r].max == 0
      ensures res.BadTimeout? <==> old(ep)[r].max != 0 && !TimeoutValid(timeout)
      ensures res.BadState? <==> old(ep)[r].max != 0 && TimeoutValid(timeout) && ownsMutex
      ensures !res.Got? && !res.Blocks? ==> ep == old(ep) && srv == old(srv) && cl == old(cl) && log == old(log)
      ensures Orderly(old(ep), old(srv), ep, srv)
    {
      hide Orderly, SendersOk, InvocationOk, HistoryOk, TicketsOk;
      OrderlySame(ep, srv, cl);
      assert PendingAt(ep, cl, r);
      if ep[r].max == 0 {
        return Uninit;
      }
      if !TimeoutValid(timeout) {
        return BadTimeout;
      }
      if ownsMutex {
        return BadState;
      }
      if ep[r].pending.Some? {
        var bytes, t := Consume(r);
        return Got(bytes);
      }
      if timeout == NO_WAIT {
        return Empty;
      }
      Offer(r);
      return Blocks;
    }

    // The receiver runs again: with bytes that were sent, or after its timeout.
    method RecvResume(r: nat) returns (timedOut: bool, bytes: seq<Byte>)
      requires Inv() && r < |cl| && cl[r].pc.Receiving? && !cl[r].blocked
      modifies this
      ensures Inv() && LockedOut(old(cl), cl, None) && log == old(log)
      ensures var u := old(cl)[r].pc.ticket;
              && (timedOut <==> u !in log.received)
              && (!timedOut ==> bytes == log.received[u])
      ensures cl == old(cl)[r := old(cl)[r].(pc := Free, timeOut := false)] && ep == old(ep) && srv == old(srv)
    {
      assert TicketOk(cl[r], log) && ClientOk(cl[r]);
      timedOut, bytes := cl[r].timeOut, cl[r].data;
      Return(r);
    }

    method ExpireSend(s: nat)
      requires Inv() && s < |cl| && cl[s].blocked && cl[s].pc.Sending?
      modifies this
      ensures Inv() && LockedOut(old(cl), cl, None) && srv == old(srv)
      ensures log == Lapsed(old(log), old(cl)[s].pc.ticket)
      ensures old(cl)[s].receiver.Some? && cl == old(cl)[s := Unposted(old(cl)[s], true)]
      // the other senders keep their order; the slot keeps its sender, or the first of the rest fills it
      ensures var r := old(cl)[s].receiver.value;
              && r < |old(ep)| && s in old(ep)[r].senders && ep == old(ep)[r := SenderGone(old(ep)[r], s, cl)]
              && ep[r].senders == Without<nat>(old(ep)[r].senders, s)
              && ep[r].pendingSender ==
                 if old(ep)[r].pendingSender != Some(s) then old(ep)[r].pendingSender
                 else if ep[r].senders == [] then None else Some(ep[r].senders[0])
      ensures Orderly(old(ep), old(srv), ep, srv)
    {
      hide Orderly, SendersOk, CallersOk, ActiveOk, SendHistoryOk, CallHistoryOk, Without, IndexOf, Promoted;
      assert ClientOk(cl[s]) && TicketOk(cl[s], log);
      SenderLinked(ep, cl, s);
      var r := cl[s].receiver.value;
      SenderGoneOneWay(ep, cl, r, s, true);
      ghost var x := Unposted(cl[s], true);
      OrderlyGone(ep, srv, cl, cl[s := x], r, s);
      SlotAfter(ep, cl, cl[s := x], r, s);
      InvocationAside(srv, cl, s, x);
      LapsedHistory(log, cl[s].pc.ticket);
      TicketsKept(cl, cl[s := x], log, Lapsed(log, cl[s].pc.ticket), s, s);
      ghost var was := ep[r];
      log := Lapsed(log, cl[s].pc.ticket);
      if ep[r].pendingSender == Some(s) {
        ep := ep[r := ep[r].(pending := None, pendingSender := None)];
      }
      ep := ep[r := ep[r].(senders := Without(ep[r].senders, s))];
      cl := cl[s := cl[s].(mesg := None, receiver := None, blocked := false, timeOut := true)];
      ep := ep[r := Promoted(ep[r], cl)];
      assert ep == old(ep)[r := SenderGone(was, s, cl)];
    }

    method ExpireRecv(r: nat)
      requires Inv() && r < |cl| && cl[r].blocked && cl[r].pc.Receiving?
      modifies this
      ensures Inv() && LockedOut(old(cl), cl, None) && srv == old(srv) && log == old(log)
      ensures cl == old(cl)[r := old(cl)[r].(blocked := false, timeOut := true)]
      ensures ep == old(ep)[r := old(ep)[r].(buf := false)]
      ensures Orderly(old(ep), old(srv), ep, srv)
    {
      hide Orderly, SendersOk, CallersOk, ActiveOk, SendHistoryOk, CallHistoryOk;
      OrderlyBuffer(ep, srv, cl, r, false);
      assert ClientOk(cl[r]) && PendingAt(ep, cl, r) && TicketOk(cl[r], log);
      ghost var x := cl[r].(blocked := false, timeOut := true);
      StoppedReceiving(ep, cl, r, x);
      InvocationAside(srv, cl, r, x);
      TicketsKept(cl, cl[r := x], log, log, r, r);
      ep := ep[r := ep[r].(buf := false)];
      cl := cl[r := cl[r].(blocked := false, timeOut := true)];
    }

    // ---- invocations ---------------------------------------------------------------------------

    method Enqueue(c: nat, r: nat, req: seq<Byte>, replyMax: nat, slot: nat)
      requires Inv() && c < |cl| && r < |srv| && c != r && slot <= |srv[r].callers|
      requires cl[c].pc == Free && cl[c].state == NoCall
      modifies this
      ensures Inv() && LockedOut(old(cl), cl, None) && ep == old(ep)
      ensures log == CallOpened(old(log), replyMax) && r < |old(cl)|
      ensures cl == old(cl)[c := Requested(old(cl)[c], r, req, replyMax, old(log).next)]
                           [r := Woken(old(cl)[r], old(srv)[r].acceptor)]
      ensures srv == old(srv)[r := Called(old(srv)[r], slot, c)]
      ensures Orderly(old(ep), old(srv), ep, srv)
    {
      hide Orderly, OneWayOk, InvocationOk, ClientsOk, HistoryOk, TicketsOk;
      InsertOrder(srv[r].callers, slot, c);
      OrderlyServer(ep, srv, cl, r, Called(srv[r], slot, c));
      EnqueuedKeeps(ep, srv, cl, log, c, r, req, replyMax, slot);
      var x := Requested(cl[c], r, req, replyMax, log.next);
      cl := cl[c := x];
      srv := srv[r := srv[r].(callers := InsertAt(srv[r].callers, slot, c))];
      if srv[r].acceptor {
        srv := srv[r := srv[r].(acceptor := false)];
        cl := cl[r := cl[r].(blocked := false)];
      }
      assert srv == old(srv)[r := Called(old(srv)[r], slot, c)];
      assert cl == old(cl)[c := x][r := Woken(old(cl)[r], old(srv)[r].acceptor)];
      log := CallOpened(log, replyMax);
    }

    method Call(c: nat, r: nat, req: seq<Byte>, replyMax: nat, ownsMutex: bool, timeout: nat, slot: nat)
      returns (res: SendResult)
      requires Inv() && c < |cl| && r < |srv| && r < |ep| && cl[c].pc == Free && slot <= |srv[r].callers|
      modifies this
      ensures Inv() && LockedOut(old(cl), cl, None)
      ensures res.Waits? <==>
                && c != r && SizeValid(|req|, old(ep)[r].max) && SizeValid(replyMax, replyMax)
                && timeout != NO_WAIT && TimeoutValid(timeout) && !ownsMutex && old(cl)[c].state == NoCall
      ensures old(cl)[c].state == Abandoned ==> !res.Waits?
      ensures res.Waits? ==>
                && log == CallOpened(old(log), replyMax) && r < |old(cl)| && ep == old(ep)
                && cl == old(cl)[c := Requested(old(cl)[c], r, req, replyMax, old(log).next)]
                                [r := Woken(old(cl)[r], old(srv)[r].acceptor)]
                && srv == old(srv)[r := Called(old(srv)[r], slot, c)]
      ensures res.InvalidParam? <==> c == r
      ensures res.NotInit? <==> c != r && old(ep)[r].max == 0
      ensures var fits := SizeValid(|req|, old(ep)[r].max) && SizeValid(replyMax, replyMax);
              var timed := timeout != NO_WAIT && TimeoutValid(timeout);
              && (res.InvalidSize? <==> c != r && old(ep)[r].max != 0 && !fits)
              && (res.InvalidTimeout? <==> c != r && old(ep)[r].max != 0 && fits && !timed)
              && (res.InvalidState? <==>
                    c != r && old(ep)[r].max != 0 && fits && timed && (ownsMutex || old(cl)[c].state != NoCall))
      ensures !res.Waits? ==> ep == old(ep) && srv == old(srv) && cl == old(cl) && log == old(log)
      ensures Orderly(old(ep), old(srv), ep, srv)
    {
      hide Orderly, OneWayOk, InvocationOk, HistoryOk, TicketsOk;
      OrderlySame(ep, srv, cl);
      assert ClientOk(cl[c]);
      if c == r {
        return InvalidParam;
      }
      if ep[r].max == 0 {
        return NotInit;
      }
      if !SizeValid(|req|, ep[r].max) || !SizeValid(replyMax, replyMax) {
        return InvalidSize;
      }
      if timeout == NO_WAIT || !TimeoutValid(timeout) {
        return SendResult.InvalidTimeout;
      }
      if ownsMutex || cl[c].receiver.Some? || cl[c].state != NoCall {
        return InvalidState;
      }
      Enqueue(c, r, req, replyMax, slot);
      return Waits;
    }

    // The caller runs again: answered, or after its timeout.
    method CallResume(c: nat) returns (timedOut: bool, reply: seq<Byte>)
      requires Inv() && c < |cl| && cl[c].pc.Calling? && !cl[c].blocked
      modifies this
      ensures Inv() && LockedOut(old(cl), cl, None) && log == old(log)
      ensures var t := old(cl)[c].pc.ticket;
              && (timedOut <==> t in log.dropped)
              && (timedOut <==> t !in log.replied)
              && (!timedOut ==> reply == log.replied[t] && t in log.calls && |reply| <= log.calls[t])
      ensures cl == old(cl)[c := old(cl)[c].(pc := Free, timeOut := false)] && ep == old(ep) && srv == old(srv)
    {
      assert TicketOk(cl[c], log) && ClientOk(cl[c]);
      timedOut, reply := cl[c].timeOut, cl[c].reply;
      Return(c);
    }

    // Link as waiting acceptor.
    method AcceptBlock(r: nat)
      requires Inv() && r < |srv| && cl[r].pc == Free && srv[r].callers == [] && srv[r].active == None
      modifies this
      ensures Inv() && LockedOut(old(cl), cl, None) && ep == old(ep) && log == old(log)
      ensures srv == old(srv)[r := old(srv)[r].(acceptor := true)]
      ensures cl == old(cl)[r := old(cl)[r].(pc := Accepting, blocked := true)]
      ensures Orderly(old(ep), old(srv), ep, srv)
    {
      hide Orderly, SendersOk, CallersOk, ActiveOk, HistoryOk;
      OrderlyServer(ep, srv, cl, r, srv[r].(acceptor := true));
      assert ClientOk(cl[r]) && AcceptorOk(srv, cl, r);
      ghost var x := cl[r].(pc := Accepting, blocked := true);
      AcceptBlocksOk(srv, cl, r);
      OneWayAside(ep, cl, r, x);
      TicketsKept(cl, cl[r := x], log, log, r, r);
      cl := cl[r := cl[r].(pc := Accepting, blocked := true)];
      srv := srv[r := srv[r].(acceptor := true)];
    }

    // The request of the first caller is copied and its call becomes the active one.
    method Take(r: nat) returns (bytes: seq<Byte>)
      requires Inv() && r < |srv| && cl[r].pc == Free && srv[r].callers != [] && srv[r].active == None
      modifies this
      ensures Inv() && LockedOut(old(cl), cl, None) && ep == old(ep)
      ensures TakenBy(old(srv), old(cl), old(log), r, bytes, srv, cl, log)
      ensures Orderly(old(ep), old(srv), ep, srv)
    {
      hide OneWayOk, CallersOk, ActiveOk, HistoryOk;
      CallersDistinct(srv, cl, r);
      TailOrder(srv[r].callers);
      OrderlyServer(ep, srv, cl, r, Taken(srv[r]));
      assert ClientOk(cl[r]) && AcceptorOk(srv, cl, r);
      var c := HeadOf(r);
      bytes := cl[c].mesg.value;
      ghost var t := cl[c].pc.ticket;
      ghost var x, y := cl[c].(mesg := None, state := Active), cl[r].(data := bytes);
      assert TicketOk(cl[c], log);
      AcceptTakesOk(srv, cl, r, y);
      OneWayAside(ep, cl, c, x);
      OneWayAside(ep, cl[c := x], r, y);
      AcceptedHistory(log, t);
      TicketsKept(cl, cl[c := x][r := y], log, Accepted(log, t), c, r);
      log := Accepted(log, cl[c].pc.ticket);
      cl := cl[r := cl[r].(data := bytes)];
      cl := cl[c := cl[c].(mesg := None, state := Active)];
      assert cl == old(cl)[c := x][r := y];
      srv := srv[r := srv[r].(callers := srv[r].callers[1..], active := Some(c))];
    }

    method HeadOf(r: nat) returns (c: nat)
      requires Inv() && r < |srv| && srv[r].callers != []
      ensures c == srv[r].callers[0] && c < |cl| && c in srv[r].callers
      ensures cl[c].blocked && cl[c].pc.Calling? && cl[c].state == Queued && cl[c].mesg.Some?
    {
      c := srv[r].callers[0];
      assert c in srv[r].callers && Caller(cl, r, c);
      assert ClientOk(cl[c]);
    }

    method TryAccept(r: nat, timeout: nat) returns (res: RecvResult)
      requires Inv() && r < |srv| && cl[r].pc == Free && srv[r].active == None
      modifies this
      ensures Inv() && LockedOut(old(cl), cl, None) && ep == old(ep)
      ensures res.Got? <==> old(srv)[r].callers != []
      ensures res.Blocks? <==> old(srv)[r].callers == [] && timeout != NO_WAIT
      ensures res.Empty? <==> old(srv)[r].callers == [] && timeout == NO_WAIT
      ensures res.Got? ==> TakenBy(old(srv), old(cl), old(log), r, res.bytes, srv, cl, log)
      ensures res.Blocks? ==> AcceptorBlocked(old(srv), old(cl), r, srv, cl)
      ensures !res.Got? ==> log == old(log)
      ensures res.Empty? ==> srv == old(srv) && cl == old(cl)
      ensures Orderly(old(ep), old(srv), ep, srv)
    {
      hide Orderly, OneWayOk, InvocationOk, HistoryOk, TicketsOk;
      OrderlySame(ep, srv, cl);
      SameSizes(ep, srv, cl);
      if srv[r].callers == [] {
        if timeout == NO_WAIT {
          return Empty;
        }
        AcceptBlock(r);
        return Blocks;
      }
      var bytes := Take(r);
      return Got(bytes);
    }

    method Accept(r: nat, ownsMutex: bool, timeout: nat) returns (res: RecvResult)
      requires Inv() && r < |srv| && r < |ep| && cl[r].pc == Free
      modifies this
      ensures Inv() && LockedOut(old(cl), cl, None)
      ensures res.Uninit? <==> old(ep)[r].max == 0
      ensures res.BadTimeout? <==> old(ep)[r].max != 0 && !TimeoutValid(timeout)
      ensures res.BadState? <==> old(ep)[r].max != 0 && TimeoutValid(timeout) && ownsMutex
      ensures var may := old(ep)[r].max != 0 && TimeoutValid(timeout) && !ownsMutex;
              var free, waiting := old(srv)[r].active == None, old(srv)[r].callers != [];
              && (res.Busy? <==> may && !free)
              && (res.Got? <==> may && free && waiting)
              && (res.Empty? <==> may && free && !waiting && timeout == NO_WAIT)
              && (res.Blocks? <==> may && free && !waiting && timeout != NO_WAIT)
      ensures res.Got? ==> ep == old(ep) && TakenBy(old(srv), old(cl), old(log), r, res.bytes, srv, cl, log)
      ensures res.Blocks? ==> ep == old(ep) && AcceptorBlocked(old(srv), old(cl), r, srv, cl)
      ensures !res.Got? ==> log == old(log)
      ensures !res.Got? && !res.Blocks? ==> srv == old(srv) && cl == old(cl) && ep == old(ep)
      ensures Orderly(old(ep), old(srv), ep, srv)
    {
      hide Orderly, OneWayOk, InvocationOk, HistoryOk, TicketsOk;
      OrderlySame(ep, srv, cl);
      if ep[r].max == 0 {
        return Uninit;
      }
      if !TimeoutValid(timeout) {
        return BadTimeout;
      }
      if ownsMutex {
        return BadState;
      }
      if srv[r].active.Some? {
        return Busy;
      }
      res := TryAccept(r, timeout);
    }

    // The acceptor runs again: after its timeout, or to look at its queue once more.
    method AcceptResume(r: nat, timeout: nat) returns (timedOut: bool, res: RecvResult)
      requires Inv() && r < |srv| && cl[r].pc == Accepting && !cl[r].blocked && timeout != NO_WAIT
      modifies this
      ensures Inv() && LockedOut(old(cl), cl, None)
      ensures timedOut <==> old(cl)[r].timeOut
      ensures !timedOut ==>
                && (res.Got? <==> old(srv)[r].callers != [])
                && (res.Blocks? <==> old(srv)[r].callers == [])
      ensures var back := old(cl)[r := old(cl)[r].(pc := Free, timeOut := false)];
              && ep == old(ep)
              && (timedOut ==> cl == back)
              && (!timedOut && res.Got? ==> TakenBy(old(srv), back, old(log), r, res.bytes, srv, cl, log))
              && (!timedOut && res.Blocks? ==> AcceptorBlocked(old(srv), back, r, srv, cl))
      ensures timedOut || !res.Got? ==> log == old(log)
      ensures timedOut ==> srv == old(srv)
      ensures Orderly(old(ep), old(srv), ep, srv)
    {
      hide OneWayOk, CallersOk, ActiveOk, HistoryOk, TicketsOk;
      OrderlySame(ep, srv, cl);
      assert AcceptorOk(srv, cl, r);
      timedOut, res := cl[r].timeOut, Empty;
      Return(r);
      if timedOut {
        return;
      }
      res := TryAccept(r, timeout);
    }

    method ExpireAccept(r: nat)
      requires Inv() && r < |cl| && r < |srv| && cl[r].blocked && cl[r].pc == Accepting
      modifies this
      ensures Inv() && LockedOut(old(cl), cl, None) && ep == old(ep) && log == old(log)
      ensures cl == old(cl)[r := old(cl)[r].(blocked := false, timeOut := true)]
      ensures srv == old(srv)[r := old(srv)[r].(acceptor := false)]
      ensures Orderly(old(ep), old(srv), ep, srv)
    {
      hide Orderly, SendersOk, CallersOk, ActiveOk, HistoryOk;
      OrderlyServer(ep, srv, cl, r, srv[r].(acceptor := false));
      assert ClientOk(cl[r]) && AcceptorOk(srv, cl, r);
      ghost var x := cl[r].(blocked := false, timeOut := true);
      AcceptorLeavesOk(srv, cl, r, x);
      OneWayAside(ep, cl, r, x);
      TicketsKept(cl, cl[r := x], log, log, r, r);
      srv := srv[r := srv[r].(acceptor := false)];
      cl := cl[r := cl[r].(blocked := false, timeOut := true)];
    }

    // Before acceptance the caller is taken off the queue; after it the call is abandoned, and the
    // server keeps the caller until it replies.
    method ExpireCall(c: nat)
      requires Inv() && c < |cl| && cl[c].blocked && cl[c].pc.Calling?
      modifies this
      ensures Inv() && LockedOut(old(cl), cl, None) && ep == old(ep)
      ensures log == Dropped(old(log), old(cl)[c].pc.ticket)
      ensures old(cl)[c].state in {Queued, Active} && old(cl)[c].receiver.Some?
      // the other callers keep their order; the server keeps a caller it has accepted
      ensures old(cl)[c].state == Queued ==>
                var r := old(cl)[c].receiver.value;
                && r < |old(srv)| && c in old(srv)[r].callers
                && srv == old(srv)[r := old(srv)[r].(callers := Without(old(srv)[r].callers, c))]
                && cl == old(cl)[c := old(cl)[c].(mesg := None, receiver := None, replyMax := 0, state := NoCall,
                                                  blocked := false, timeOut := true)]
      ensures old(cl)[c].state == Active ==>
                && srv == old(srv)
                && cl == old(cl)[c := old(cl)[c].(mesg := None, replyMax := 0, state := Abandoned,
                                                  blocked := false, timeOut := true)]
      ensures Orderly(old(ep), old(srv), ep, srv)
    {
      hide Orderly, SendersOk, CallersOk, ActiveOk, SendHistoryOk, CallHistoryOk, Without, IndexOf;
      assert ClientOk(cl[c]) && TicketOk(cl[c], log);
      ghost var t := cl[c].pc.ticket;
      DroppedHistory(log, t);
      if cl[c].state == Queued {
        ReceiverOf(srv, cl, c);
        var r := cl[c].receiver.value;
        CallersDistinct(srv, cl, r);
        QueuedCaller(srv, cl, c);
        WithoutOrder(srv[r].callers, c);
        OrderlyServer(ep, srv, cl, r, srv[r].(callers := Without(srv[r].callers, c)));
        var x := cl[c].(mesg := None, receiver := None, replyMax := 0, state := NoCall,
                        blocked := false, timeOut := true);
        QueuedLeavesOk(srv, cl, r, c, x);
        OneWayAside(ep, cl, c, x);
        TicketsKept(cl, cl[c := x], log, Dropped(log, t), c, c);
        log := Dropped(log, cl[c].pc.ticket);
        srv := srv[r := srv[r].(callers := Without(srv[r].callers, c))];
        cl := cl[c := x];
      } else {
        OrderlySame(ep, srv, cl);
        var x := cl[c].(mesg := None, replyMax := 0, state := Abandoned, blocked := false, timeOut := true);
        AbandonedOk(srv, cl, c, x);
        OneWayAside(ep, cl, c, x);
        TicketsKept(cl, cl[c := x], log, Dropped(log, t), c, c);
        log := Dropped(log, cl[c].pc.ticket);
        cl := cl[c := x];
      }
    }

    // Answer the active call: one copy into the caller's buffer, unless the caller has given up.
    method Reply(r: nat, c: nat, bytes: seq<Byte>, ownsMutex: bool) returns (res: ReplyResult)
      requires Inv() && r < |srv| && r < |cl| && c < |cl| && cl[r].pc == Free
      modifies this
      ensures Inv() && LockedOut(old(cl), cl, Some(c))
      ensures res.NotActive? <==> old(srv)[r].active != Some(c)
      ensures res.WrongState? <==> old(srv)[r].active == Some(c) && ownsMutex
      ensures res.Discarded? <==> old(srv)[r].active == Some(c) && !ownsMutex && old(cl)[c].state == Abandoned
      ensures var active := old(srv)[r].active == Some(c) && !ownsMutex && old(cl)[c].state == Active;
              var fits := |bytes| <= old(cl)[c].replyMax && |bytes| % WORD_SIZE == 0;
              (res.Answered? <==> active && fits) && (res.TooLong? <==> active && !fits)
      ensures res.Answered? ==>
                && old(cl)[c].pc.Calling? && old(cl)[c].blocked
                && var t := old(cl)[c].pc.ticket;
                && t in old(log).accepted && t !in old(log).replied && t !in old(log).dropped
                && t in old(log).calls && |bytes| <= old(log).calls[t]
                && log == Replied(old(log), t, bytes)
                && cl == old(cl)[c := old(cl)[c].(mesg := None, receiver := None, replyMax := 0, state := NoCall,
                                                  reply := bytes, blocked := false)]
      ensures res.Discarded? ==>
                cl == old(cl)[c := old(cl)[c].(mesg := None, receiver := None, replyMax := 0, state := NoCall)]
      ensures res.Discarded? || res.Answered? ==> srv == old(srv)[r := old(srv)[r].(active := None)]
      ensures ep == old(ep) && (!res.Answered? ==> log == old(log))
      ensures res in {NotActive, WrongState, TooLong} ==> srv == old(srv) && cl == old(cl)
      ensures Orderly(old(ep), old(srv), ep, srv)
    {
      hide Orderly, SendersOk, CallersOk, SendHistoryOk, CallHistoryOk;
      OrderlySame(ep, srv, cl);
      if srv[r].active != Some(c) || cl[c].receiver != Some(r) || cl[c].state !in {Active, Abandoned} {
        return NotActive;
      }
      if ownsMutex {
        return WrongState;
      }
      if cl[c].state == Abandoned {
        LetGo(r, c);
        return Discarded;
      }
      if |bytes| > cl[c].replyMax || |bytes| % WORD_SIZE != 0 {
        return TooLong;
      }
      Answer(r, c, bytes);
      return Answered;
    }

    method LetGo(r: nat, c: nat)
      requires Inv() && r < |srv| && c < |cl| && srv[r].active == Some(c) && cl[c].state == Abandoned
      modifies this
      ensures Inv() && LockedOut(old(cl), cl, Some(c)) && log == old(log) && ep == old(ep)
      ensures srv == old(srv)[r := old(srv)[r].(active := None)]
      ensures cl == old(cl)[c := old(cl)[c].(mesg := None, receiver := None, replyMax := 0, state := NoCall)]
      ensures Orderly(old(ep), old(srv), ep, srv)
    {
      hide Orderly, SendersOk, CallersOk, ActiveOk, SendHistoryOk, CallHistoryOk;
      OrderlyServer(ep, srv, cl, r, srv[r].(active := None));
      assert ClientOk(cl[c]) && TicketOk(cl[c], log);
      var x := cl[c].(mesg := None, receiver := None, replyMax := 0, state := NoCall);
      ReleasedOk(srv, cl, r, c, x);
      OneWayAside(ep, cl, c, x);
      TicketsKept(cl, cl[c := x], log, log, c, c);
      srv := srv[r := srv[r].(active := None)];
      cl := cl[c := x];
    }

    method Answer(r: nat, c: nat, bytes: seq<Byte>)
      requires Inv() && r < |srv| && c < |cl| && srv[r].active == Some(c) && cl[c].state == Active
      requires |bytes| <= cl[c].replyMax
      modifies this
      ensures Inv() && LockedOut(old(cl), cl, Some(c)) && ep == old(ep)
      ensures srv == old(srv)[r := old(srv)[r].(active := None)]
      ensures old(cl)[c].pc.Calling? && old(cl)[c].blocked
      ensures var t := old(cl)[c].pc.ticket;
              && t in old(log).accepted && t !in old(log).replied && t !in old(log).dropped
              && t in old(log).calls && |bytes| <= old(log).calls[t]
              && log == Replied(old(log), t, bytes)
      ensures cl == old(cl)[c := old(cl)[c].(mesg := None, receiver := None, replyMax := 0, state := NoCall,
                                             reply := bytes, blocked := false)]
      ensures Orderly(old(ep), old(srv), ep, srv)
    {
      hide Orderly, SendersOk, CallersOk, ActiveOk, SendHistoryOk, CallHistoryOk;
      OrderlyServer(ep, srv, cl, r, srv[r].(active := None));
      assert ClientOk(cl[c]) && TicketOk(cl[c], log);
      ghost var t := cl[c].pc.ticket;
      var x := cl[c].(mesg := None, receiver := None, replyMax := 0, state := NoCall, reply := bytes, blocked := false);
      ReleasedOk(srv, cl, r, c, x);
      OneWayAside(ep, cl, c, x);
      RepliedHistory(log, t, bytes);
      TicketsKept(cl, cl[c := x], log, Replied(log, t, bytes), c, c);
      log := Replied(log, cl[c].pc.ticket, bytes);
      srv := srv[r := srv[r].(active := None)];
      cl := cl[c := x];
    }
  }

  lemma CallersDistinct(srv: seq<Server>, cl: seq<Client>, r: nat)
    requires InvocationOk(srv, cl) && r < |srv|
    ensures NoDup(srv[r].callers)
  {
  }

  lemma QueuedCaller(srv: seq<Server>, cl: seq<Client>, c: nat)
    requires InvocationOk(srv, cl) && c < |cl| && cl[c].state == Queued
    ensures cl[c].receiver.Some? && cl[c].receiver.value < |srv| && c in srv[cl[c].receiver.value].callers
  {
  }

  lemma ReceiverOf(srv: seq<Server>, cl: seq<Client>, c: nat)
    requires InvocationOk(srv, cl) && c < |cl| && cl[c].state == Queued
    ensures cl[c].receiver.Some? && cl[c].receiver.value < |srv|
  {
  }

  // ---- runs ------------------------------------------------------------------------------------

  datatype Step =
    | SendStep(task: nat, to: nat, bytes: seq<Byte>, ownsMutex: bool, timeout: nat, slot: nat)
    | RecvStep(task: nat, ownsMutex: bool, timeout: nat)
    | CallStep(task: nat, to: nat, bytes: seq<Byte>, replyMax: nat, ownsMutex: bool, timeout: nat, slot: nat)
    | AcceptStep(task: nat, ownsMutex: bool, timeout: nat)
    | ReplyStep(task: nat, to: nat, bytes: seq<Byte>, ownsMutex: bool)
    | ResumeStep(task: nat, timeout: nat)
    | ExpireStep(task: nat)

  // The call of task c is still abandoned unless its server has replied.
  ghost predicate Resolved(step: Step, c: nat, cl: seq<Client>)
    requires c < |cl|
  {
    step.ReplyStep? && step.to == c && cl[c].receiver == Some(step.task)
  }

  // Steps whose precondition does not hold in the present state are skipped.
  method Do(k: Synch, step: Step)
    requires k.Inv()
    modifies k
    ensures k.Inv() && |k.cl| == |old(k.cl)|
    ensures forall c: nat :: c < |k.cl| && old(k.cl)[c].state == Abandoned && !Resolved(step, c, old(k.cl)) ==>
              k.cl[c].state == Abandoned && k.cl[c].receiver == old(k.cl)[c].receiver
    ensures Orderly(old(k.ep), old(k.srv), k.ep, k.srv)
  {
    hide Orderly, OneWayOk, InvocationOk, ClientsOk, HistoryOk, TicketsOk;
    OrderlySame(k.ep, k.srv, k.cl);
    SameSizes(k.ep, k.srv, k.cl);
    if step.task >= |k.cl| {
      return;
    }
    var t, x := step.task, k.cl[step.task];
    match step
    case SendStep(_, to, bytes, ownsMutex, timeout, slot) =>
      if x.pc == Free && to < |k.ep| && slot <= |k.ep[to].senders| {
        var _ := k.Send(t, to, bytes, ownsMutex, timeout, slot);
      }
    case RecvStep(_, ownsMutex, timeout) =>
      if x.pc == Free {
        var _ := k.Recv(t, ownsMutex, timeout);
      }
    case CallStep(_, to, bytes, replyMax, ownsMutex, timeout, slot) =>
      if x.pc == Free && to < |k.srv| && slot <= |k.srv[to].callers| {
        var _ := k.Call(t, to, bytes, replyMax, ownsMutex, timeout, slot);
      }
    case AcceptStep(_, ownsMutex, timeout) =>
      if x.pc == Free {
        var _ := k.Accept(t, ownsMutex, timeout);
      }
    case ReplyStep(_, to, bytes, ownsMutex) =>
      if x.pc == Free && to < |k.cl| {
        ActiveReceiver(k.srv, k.cl, t);
        var _ := k.Reply(t, to, bytes, ownsMutex);
      }
    case ResumeStep(_, timeout) =>
      if !x.blocked {
        match x.pc {
          case Free =>
          case Sending(_) => var _ := k.SendResume(t);
          case Receiving(_) => var _, _ := k.RecvResume(t);
          case Calling(_) => var _, _ := k.CallResume(t);
          case Accepting =>
            if timeout != NO_WAIT {
              var _, _ := k.AcceptResume(t, timeout);
            }
        }
      }
    case ExpireStep(_) =>
      if x.blocked {
        match x.pc {
          case Free =>
          case Sending(_) => k.ExpireSend(t);
          case Receiving(_) => k.ExpireRecv(t);
          case Calling(_) => k.ExpireCall(t);
          case Accepting => k.ExpireAccept(t);
        }
      }
  }

  lemma SameSizes(ep: seq<Endpoint>, srv: seq<Server>, cl: seq<Client>)
    requires OneWayOk(ep, cl) && InvocationOk(srv, cl)
    ensures |ep| == |srv| == |cl|
  {
  }

  lemma ActiveReceiver(srv: seq<Server>, cl: seq<Client>, r: nat)
    requires InvocationOk(srv, cl) && r < |srv|
    ensures srv[r].active.Some? ==> srv[r].active.value < |cl| && cl[srv[r].active.value].receiver == Some(r)
  {
  }

  // Every reachable state keeps every promise.
  method Execute(k: Synch, steps: seq<Step>)
    requires k.Inv()
    modifies k
    ensures k.Inv()
    // successful sends and successful receives correspond one to one, with equal bytes
    ensures forall t: nat :: t in k.log.matched ==>
              t in k.log.sent && k.log.matched[t] in k.log.received && k.log.received[k.log.matched[t]] == k.log.sent[t]
    ensures forall t: nat, u: nat ::
              t in k.log.matched && u in k.log.matched && k.log.matched[t] == k.log.matched[u] ==> t == u
    ensures forall u: nat :: u in k.log.received ==> exists t: nat :: t in k.log.matched && k.log.matched[t] == u
    ensures forall t: nat :: t in k.log.lapsed ==> t !in k.log.matched
    ensures forall t: nat :: t in k.log.replied ==> t in k.log.accepted && t !in k.log.dropped
  {
    hide Orderly, OneWayOk, InvocationOk, ClientsOk, TicketsOk;
    for i := 0 to |steps|
      invariant k.Inv()
    {
      Do(k, steps[i]);
    }
  }
}
