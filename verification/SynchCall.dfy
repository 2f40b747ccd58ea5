// The invocation half: a caller queues, is accepted, answered, or times out on either side of the
// acceptance.
module SynchCall {
  import opened Prelude
  import opened Queues
  import opened SynchState

  // ---- a call is queued ----------------------------------------------------------------------

  function Requested(x: Client, r: nat, req: seq<Byte>, replyMax: nat, t: nat): Client {
    x.(mesg := Some(req), receiver := Some(r), replyMax := replyMax, state := Queued, pc := Calling(t),
       blocked := true)
  }

  // A waiting acceptor is taken off its list and runs again.
  function Called(e: Server, i: nat, c: nat): Server
    requires i <= |e.callers|
  {
    e.(callers := InsertAt(e.callers, i, c), acceptor := false)
  }

  function Woken(x: Client, wake: bool): Client {
    if wake then x.(blocked := false) else x
  }

  lemma CalledOk(srv: seq<Server>, cl: seq<Client>, c: nat, r: nat, x: Client, i: nat)
    requires InvocationOk(srv, cl) && c < |cl| && r < |srv| && c != r && i <= |srv[r].callers|
    requires cl[c].pc == Free && !cl[c].blocked && cl[c].state == NoCall
    requires x.receiver == Some(r) && x.state == Queued && x.pc.Calling?
    ensures InvocationOk(srv[r := Called(srv[r], i, c)], cl[c := x][r := Woken(cl[r], srv[r].acceptor)])
  {
    hide CallersOk, ActiveOk;
    var y := Woken(cl[r], srv[r].acceptor);
    var srv1 := srv[r := srv[r].(acceptor := false)];
    if srv[r].acceptor {
      AcceptorLeavesOk(srv, cl, r, y);
    } else {
      assert srv1 == srv && cl[r := y] == cl;
    }
    AwakeCalledOk(srv1, cl[r := y], c, r, x, i);
    assert cl[r := y][c := x] == cl[c := x][r := y];
    assert srv1[r := Called(srv1[r], i, c)] == srv[r := Called(srv[r], i, c)];
  }

  lemma AwakeCalledOk(srv: seq<Server>, cl: seq<Client>, c: nat, r: nat, x: Client, i: nat)
    requires InvocationOk(srv, cl) && c < |cl| && r < |srv| && c != r && i <= |srv[r].callers|
    requires cl[c].pc == Free && !cl[c].blocked && cl[c].state == NoCall && !srv[r].acceptor
    requires x.receiver == Some(r) && x.state == Queued && x.pc.Calling?
    ensures InvocationOk(srv[r := Called(srv[r], i, c)], cl[c := x])
  {
    var q, q2 := srv[r].callers, InsertAt(srv[r].callers, i, c);
    assert c !in q by {
      assert c in q ==> Caller(cl, r, c);
    }
    InsertFacts(q, i, c);
    hide InsertAt, NoDup;
    var srv2, cl2 := srv[r := Called(srv[r], i, c)], cl[c := x];
    forall u: nat, v: nat | u < |srv2| && v in srv2[u].callers ensures Caller(cl2, u, v) {
      assert (u == r && v == c) || (v in srv[u].callers && Caller(cl, u, v));
    }
    forall u: nat | u < |srv2| ensures AcceptorOk(srv2, cl2, u) {
      assert AcceptorOk(srv, cl, u);
    }
  }

  // ---- acceptance ----------------------------------------------------------------------------

  lemma AcceptBlocksOk(srv: seq<Server>, cl: seq<Client>, r: nat)
    requires InvocationOk(srv, cl) && r < |srv| && !cl[r].blocked
    requires srv[r].callers == [] && srv[r].active == None
    ensures InvocationOk(srv[r := srv[r].(acceptor := true)], cl[r := cl[r].(pc := Accepting, blocked := true)])
  {
    var srv2, cl2 := srv[r := srv[r].(acceptor := true)], cl[r := cl[r].(pc := Accepting, blocked := true)];
    CallersSame(srv, cl, srv2, cl2);
    forall u: nat | u < |srv2| ensures AcceptorOk(srv2, cl2, u) {
      assert AcceptorOk(srv, cl, u);
    }
  }

  // Queues, links and call states are the same.
  lemma CallersSame(srv: seq<Server>, cl: seq<Client>, srv2: seq<Server>, cl2: seq<Client>)
    requires CallersOk(srv, cl) && ActiveOk(srv, cl) && |srv| == |srv2| == |cl| == |cl2|
    requires forall u: nat :: u < |srv| ==> srv2[u].callers == srv[u].callers && srv2[u].active == srv[u].active
    requires forall u: nat :: u < |cl| ==> cl2[u].state == cl[u].state
    requires forall u: nat :: u < |cl| && cl[u].state != NoCall ==> cl2[u].receiver == cl[u].receiver
    ensures CallersOk(srv2, cl2) && ActiveOk(srv2, cl2)
  {
    hide NoDup;
    forall u: nat, v: nat | u < |srv2| && v in srv2[u].callers ensures Caller(cl2, u, v) {
      assert v in srv[u].callers && Caller(cl, u, v);
    }
  }

  // The acceptor stops waiting, woken or timed out.
  lemma AcceptorLeavesOk(srv: seq<Server>, cl: seq<Client>, r: nat, x: Client)
    requires InvocationOk(srv, cl) && r < |srv| && srv[r].acceptor
    requires x.state == cl[r].state && x.receiver == cl[r].receiver && !x.blocked && x.pc == cl[r].pc
    ensures InvocationOk(srv[r := srv[r].(acceptor := false)], cl[r := x])
  {
    var srv2, cl2 := srv[r := srv[r].(acceptor := false)], cl[r := x];
    CallersSame(srv, cl, srv2, cl2);
    forall u: nat | u < |srv2| ensures AcceptorOk(srv2, cl2, u) {
      assert AcceptorOk(srv, cl, u);
    }
  }

  function Taken(e: Server): Server
    requires e.callers != []
  {
    e.(callers := e.callers[1..], active := Some(e.callers[0]))
  }

  // The head of the queue becomes the active caller of r.
  lemma AcceptTakesOk(srv: seq<Server>, cl: seq<Client>, r: nat, y: Client)
    requires InvocationOk(srv, cl) && r < |srv| && srv[r].callers != [] && srv[r].active == None
    requires !cl[r].blocked && !y.blocked && y.pc != Accepting && y.state == cl[r].state && y.receiver == cl[r].receiver
    requires cl[r].state !in {Queued, Active}
    ensures var c := srv[r].callers[0];
            && c < |cl| && c != r && cl[c].state == Queued && cl[c].receiver == Some(r)
            && InvocationOk(srv[r := Taken(srv[r])], cl[c := cl[c].(mesg := None, state := Active)][r := y])
  {
    var q := srv[r].callers;
    var c := q[0];
    assert c in q && Caller(cl, r, c);
    assert q == [c] + q[1..];
    var srv2, cl2 := srv[r := Taken(srv[r])], cl[c := cl[c].(mesg := None, state := Active)][r := y];
    forall u: nat, v: nat | u < |srv2| && v in srv2[u].callers ensures Caller(cl2, u, v) {
      assert v in srv[u].callers && Caller(cl, u, v);
    }
    forall u: nat | u < |srv2| ensures AcceptorOk(srv2, cl2, u) {
      assert AcceptorOk(srv, cl, u);
    }
  }

  // ---- the end of a call -----------------------------------------------------------------------

  // A queued caller leaves the queue of its server.
  lemma QueuedLeavesOk(srv: seq<Server>, cl: seq<Client>, r: nat, c: nat, x: Client)
    requires InvocationOk(srv, cl) && c < |cl| && cl[c].state == Queued && cl[c].receiver == Some(r)
    requires x.state == NoCall && !x.blocked && x.pc == cl[c].pc && cl[c].pc != Accepting
    ensures r < |srv| && c in srv[r].callers
    ensures InvocationOk(srv[r := srv[r].(callers := Without(srv[r].callers, c))], cl[c := x])
  {
    WithoutFacts(srv[r].callers, c);
    hide Without, IndexOf, NoDup;
    var srv2, cl2 := srv[r := srv[r].(callers := Without(srv[r].callers, c))], cl[c := x];
    forall u: nat, v: nat | u < |srv2| && v in srv2[u].callers ensures Caller(cl2, u, v) {
      assert v in srv[u].callers && Caller(cl, u, v);
    }
    forall u: nat | u < |srv2| ensures AcceptorOk(srv2, cl2, u) {
      assert AcceptorOk(srv, cl, u);
    }
  }

  // An active caller gives up waiting; the server still has it as its active caller.
  lemma AbandonedOk(srv: seq<Server>, cl: seq<Client>, c: nat, x: Client)
    requires InvocationOk(srv, cl) && c < |cl| && cl[c].state == Active
    requires x.state == Abandoned && x.receiver == cl[c].receiver && !x.blocked && x.pc == cl[c].pc
    requires cl[c].pc != Accepting
    ensures InvocationOk(srv, cl[c := x])
  {
    var cl2 := cl[c := x];
    forall u: nat, v: nat | u < |srv| && v in srv[u].callers ensures Caller(cl2, u, v) {
      assert Caller(cl, u, v);
    }
    forall u: nat | u < |srv| ensures AcceptorOk(srv, cl2, u) {
      assert AcceptorOk(srv, cl, u);
    }
  }

  // The server lets go of its active caller.
  lemma ReleasedOk(srv: seq<Server>, cl: seq<Client>, r: nat, c: nat, x: Client)
    requires InvocationOk(srv, cl) && r < |srv| && srv[r].active == Some(c) && c < |cl|
    requires x.state == NoCall && x.pc == cl[c].pc && (x.blocked == cl[c].blocked || cl[c].pc != Accepting)
    ensures InvocationOk(srv[r := srv[r].(active := None)], cl[c := x])
  {
    var srv2, cl2 := srv[r := srv[r].(active := None)], cl[c := x];
    forall u: nat, v: nat | u < |srv2| && v in srv2[u].callers ensures Caller(cl2, u, v) {
      assert v in srv[u].callers && Caller(cl, u, v);
    }
    forall u: nat | u < |srv2| ensures AcceptorOk(srv2, cl2, u) {
      assert AcceptorOk(srv, cl, u);
    }
  }

  // A step of the other half, or a return from a call, does not concern servers.
  lemma InvocationAside(srv: seq<Server>, cl: seq<Client>, c: nat, x: Client)
    requires InvocationOk(srv, cl) && c < |cl| && x.state == cl[c].state
    requires cl[c].state != NoCall ==> x.receiver == cl[c].receiver
    requires !(cl[c].blocked && cl[c].pc == Accepting) && x.pc != Accepting
    ensures InvocationOk(srv, cl[c := x])
  {
    var cl2 := cl[c := x];
    CallersSame(srv, cl, srv, cl2);
    forall u: nat | u < |srv| ensures AcceptorOk(srv, cl2, u) {
      assert AcceptorOk(srv, cl, u);
    }
  }
}
