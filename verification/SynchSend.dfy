// The one-way half: posting, direct delivery, promotion, consumption and timeout of a send.
module SynchSend {
  import opened Prelude
  import opened Queues
  import opened SynchState

  // Fill an empty pending slot from the head of the sender queue.
  function Promoted(e: Endpoint, cl: seq<Client>): Endpoint {
    if e.pending.Some? || e.senders == [] || e.senders[0] >= |cl| then e
    else e.(pending := cl[e.senders[0]].mesg, pendingSender := Some(e.senders[0]))
  }

  // ---- a send is posted --------------------------------------------------------------------

  function Poster(x: Client, r: nat, bytes: seq<Byte>, t: nat): Client {
    x.(mesg := Some(bytes), receiver := Some(r), pc := Sending(t), blocked := true)
  }

  lemma PostedOneWay(ep: seq<Endpoint>, cl: seq<Client>, s: nat, r: nat, bytes: seq<Byte>, t: nat, i: nat)
    requires OneWayOk(ep, cl) && s < |cl| && r < |ep| && s != r && i <= |ep[r].senders|
    requires cl[s].pc == Free && !cl[s].blocked && !ep[r].buf
    ensures var cl2 := cl[s := Poster(cl[s], r, bytes, t)];
            var e := Promoted(ep[r].(senders := InsertAt(ep[r].senders, i, s)), cl2);
            OneWayOk(ep[r := e], cl2)
  {
    var q, q2 := ep[r].senders, InsertAt(ep[r].senders, i, s);
    assert s !in q by {
      assert s in q ==> Sender(cl, r, s);
    }
    InsertFacts(q, i, s);
    hide InsertAt, NoDup;
    assert q2[0] in q2;
    var cl2 := cl[s := Poster(cl[s], r, bytes, t)];
    var ep2 := ep[r := Promoted(ep[r].(senders := q2), cl2)];
    forall u: nat, v: nat | u < |ep2| && v in ep2[u].senders ensures Sender(cl2, u, v) {
      assert (u == r && v == s) || (v in ep[u].senders && Sender(cl, u, v));
    }
    forall u: nat | u < |ep2| ensures PendingAt(ep2, cl2, u) {
      assert PendingAt(ep, cl, u);
      assert ep[u].pendingSender.Some? ==> Sender(cl, u, ep[u].pendingSender.value);
    }
  }

  // ---- direct delivery and blocking receive --------------------------------------------------

  // The waiting receiver gets bytes in its buffer and runs again.
  function Served(x: Client, bytes: seq<Byte>): Client {
    x.(data := bytes, blocked := false)
  }

  lemma ServedOneWay(ep: seq<Endpoint>, cl: seq<Client>, r: nat, bytes: seq<Byte>)
    requires OneWayOk(ep, cl) && r < |ep| && ep[r].buf
    ensures OneWayOk(ep[r := ep[r].(buf := false)], cl[r := Served(cl[r], bytes)])
  {
    StoppedReceiving(ep, cl, r, Served(cl[r], bytes));
  }

  // A receiver stops waiting with its buffer, for whatever reason.
  lemma StoppedReceiving(ep: seq<Endpoint>, cl: seq<Client>, r: nat, x: Client)
    requires OneWayOk(ep, cl) && r < |ep| && ep[r].buf && !x.blocked
    ensures OneWayOk(ep[r := ep[r].(buf := false)], cl[r := x])
  {
    var ep2, cl2 := ep[r := ep[r].(buf := false)], cl[r := x];
    assert PendingAt(ep, cl, r);
    forall u: nat, v: nat | u < |ep2| && v in ep2[u].senders ensures Sender(cl2, u, v) {
      assert v in ep[u].senders && Sender(cl, u, v);
    }
    forall u: nat | u < |ep2| ensures PendingAt(ep2, cl2, u) {
      assert PendingAt(ep, cl, u);
      assert ep[u].pendingSender.Some? ==> Sender(cl, u, ep[u].pendingSender.value);
    }
  }

  lemma ReceivingOneWay(ep: seq<Endpoint>, cl: seq<Client>, r: nat, t: nat)
    requires OneWayOk(ep, cl) && r < |ep| && cl[r].pc == Free && !cl[r].blocked && ep[r].pending == None
    ensures OneWayOk(ep[r := ep[r].(buf := true)], cl[r := cl[r].(pc := Receiving(t), blocked := true)])
  {
    var ep2, cl2 := ep[r := ep[r].(buf := true)], cl[r := cl[r].(pc := Receiving(t), blocked := true)];
    assert PendingAt(ep, cl, r);
    forall u: nat, v: nat | u < |ep2| && v in ep2[u].senders ensures Sender(cl2, u, v) {
      assert v in ep[u].senders && Sender(cl, u, v);
    }
    forall u: nat | u < |ep2| ensures PendingAt(ep2, cl2, u) {
      assert PendingAt(ep, cl, u);
      assert ep[u].pendingSender.Some? ==> Sender(cl, u, ep[u].pendingSender.value);
    }
  }

  // ---- a queued sender leaves ---------------------------------------------------------------

  // Consumed or timed out, the sender is unlinked and forgotten.
  function Unposted(x: Client, timeOut: bool): Client {
    x.(mesg := None, receiver := None, blocked := false, timeOut := timeOut)
  }

  // The endpoint after sender s has left: its slot is cleared if it was s that filled it.
  function SenderGone(e: Endpoint, s: nat, cl: seq<Client>): Endpoint
    requires s in e.senders
  {
    var cleared := if e.pendingSender == Some(s) then e.(pending := None, pendingSender := None) else e;
    Promoted(cleared.(senders := Without(e.senders, s)), cl)
  }

  lemma SenderGoneOneWay(ep: seq<Endpoint>, cl: seq<Client>, r: nat, s: nat, timeOut: bool)
    requires OneWayOk(ep, cl) && r < |ep| && s in ep[r].senders
    ensures s < |cl| && cl[s].blocked && cl[s].pc.Sending? && cl[s].mesg.Some?
    ensures var cl2 := cl[s := Unposted(cl[s], timeOut)]; OneWayOk(ep[r := SenderGone(ep[r], s, cl2)], cl2)
  {
    assert Sender(cl, r, s);
    assert PendingAt(ep, cl, r);
    var q := Without(ep[r].senders, s);
    WithoutFacts(ep[r].senders, s);
    hide Without, IndexOf, NoDup;
    var cl2 := cl[s := Unposted(cl[s], timeOut)];
    var ep2 := ep[r := SenderGone(ep[r], s, cl2)];
    assert q != [] ==> q[0] in q && Sender(cl, r, q[0]);
    forall u: nat, v: nat | u < |ep2| && v in ep2[u].senders ensures Sender(cl2, u, v) {
      assert v in ep[u].senders && Sender(cl, u, v);
    }
    forall u: nat | u < |ep2| ensures PendingAt(ep2, cl2, u) {
      assert PendingAt(ep, cl, u);
      assert ep[u].pendingSender.Some? ==> Sender(cl, u, ep[u].pendingSender.value);
    }
  }

  lemma SenderLinked(ep: seq<Endpoint>, cl: seq<Client>, s: nat)
    requires OneWayOk(ep, cl) && s < |cl| && cl[s].blocked && cl[s].pc.Sending?
    ensures cl[s].receiver.Some? && cl[s].receiver.value < |ep| && s in ep[cl[s].receiver.value].senders
  {
  }

  // The slot after sender s has left: its old sender still, or the first of the rest.
  lemma SlotAfter(ep: seq<Endpoint>, cl: seq<Client>, cl2: seq<Client>, r: nat, s: nat)
    requires OneWayOk(ep, cl) && r < |ep| && s in ep[r].senders && |cl2| == |cl|
    ensures var e, e2 := ep[r], SenderGone(ep[r], s, cl2);
            && e2.senders == Without(e.senders, s) && e2.max == e.max && e2.buf == e.buf
            && (if e.pendingSender != Some(s) then e2.pendingSender == e.pendingSender && e2.pending == e.pending
                else if e2.senders == [] then e2.pendingSender == None && e2.pending == None
                else e2.pendingSender == Some(e2.senders[0]) && e2.senders[0] < |cl| && e2.senders[0] != s
                     && e2.pending == cl2[e2.senders[0]].mesg)
  {
    assert PendingAt(ep, cl, r);
    WithoutFacts(ep[r].senders, s);
    var q := Without(ep[r].senders, s);
    hide Without, IndexOf, NoDup;
    assert q != [] ==> q[0] in q && Sender(cl, r, q[0]);
  }

  lemma PromotedSame(e: Endpoint, cl: seq<Client>, c: nat, x: Client)
    requires c < |cl| && x.mesg == cl[c].mesg
    ensures Promoted(e, cl[c := x]) == Promoted(e, cl)
  {
  }

  // ---- steps of the other half -----------------------------------------------------------------

  // A task that is not waiting in a one-way call before or after the step.
  ghost predicate Aside(x: Client) {
    x.blocked ==> !x.pc.Sending? && !x.pc.Receiving?
  }

  lemma OneWayAside(ep: seq<Endpoint>, cl: seq<Client>, c: nat, x: Client)
    requires OneWayOk(ep, cl) && c < |cl|
    requires (Aside(cl[c]) && Aside(x))
             || (x.blocked == cl[c].blocked && x.pc == cl[c].pc && !(x.blocked && x.pc.Sending?))
    ensures OneWayOk(ep, cl[c := x])
  {
    var cl2 := cl[c := x];
    forall u: nat, v: nat | u < |ep| && v in ep[u].senders ensures Sender(cl2, u, v) {
      assert Sender(cl, u, v);
    }
    forall u: nat | u < |ep| ensures PendingAt(ep, cl2, u) {
      assert PendingAt(ep, cl, u);
      assert ep[u].pendingSender.Some? ==> Sender(cl, u, ep[u].pendingSender.value);
    }
  }
}
