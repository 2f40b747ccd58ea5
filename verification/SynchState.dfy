// Tasks as synchronous message endpoints and clients, the promises kept between kernel calls, and
// the history that says which send was received by whom and which call was answered.
module SynchState {
  import opened Prelude

  const WORD_SIZE: nat := 4

  type Byte = x: int | 0 <= x < 256

  datatype CallState = NoCall | Queued | Active | Abandoned

  // Where a task stands: running its own code, or inside a call of the kernel. Every send, receive
  // and call carries a ticket of its own.
  datatype Pc = Free | Sending(ticket: nat) | Receiving(ticket: nat) | Calling(ticket: nat) | Accepting

  // The fields of a task control block, by role.
  datatype Endpoint = Endpoint(
    max: nat,                        // largest message; 0: no endpoint
    pending: Option<seq<Byte>>,      // payload on offer
    pendingSender: Option<nat>,
    senders: seq<nat>,
    buf: bool                        // a receive buffer is on offer
  )

  datatype Server = Server(
    callers: seq<nat>,
    active: Option<nat>,
    acceptor: bool                   // linked as its own waiting acceptor
  )

  datatype Client = Client(
    mesg: Option<seq<Byte>>,         // payload or request
    receiver: Option<nat>,
    state: CallState,
    replyMax: nat,
    reply: seq<Byte>,                // reply buffer
    data: seq<Byte>,                 // receive buffer
    pc: Pc,
    blocked: bool,
    timeOut: bool
  )

  // What happened so far, by ticket.
  datatype Log = Log(
    next: nat,
    sent: map<nat, seq<Byte>>,       // payloads of the sends that were not refused
    matched: map<nat, nat>,          // successful send to the receive that took it
    received: map<nat, seq<Byte>>,   // bytes of the successful receives
    lapsed: set<nat>,                // sends that timed out
    calls: map<nat, nat>,            // calls that were not refused, with their reply capacity
    accepted: set<nat>,
    replied: map<nat, seq<Byte>>,
    dropped: set<nat>                // calls that timed out
  )

  // ---- one-way messages --------------------------------------------------------------------

  ghost predicate Sender(cl: seq<Client>, r: nat, s: nat) {
    s < |cl| && cl[s].blocked && cl[s].pc.Sending? && cl[s].receiver == Some(r) && cl[s].mesg.Some?
  }

  ghost predicate SendersOk(ep: seq<Endpoint>, cl: seq<Client>) {
    && (forall r: nat :: r < |ep| ==> NoDup(ep[r].senders))
    && (forall r: nat, s: nat {:trigger s in ep[r].senders} :: r < |ep| && s in ep[r].senders ==> Sender(cl, r, s))
    && (forall s: nat :: s < |cl| && cl[s].blocked && cl[s].pc.Sending? ==>
          cl[s].receiver.Some? && cl[s].receiver.value < |ep| && s in ep[cl[s].receiver.value].senders)
  }

  // The pending slot is filled exactly while senders are queued, and names one of them with its own
  // payload; a receiver blocked with a buffer has no queued sender.
  ghost predicate PendingAt(ep: seq<Endpoint>, cl: seq<Client>, r: nat)
    requires r < |ep| && r < |cl|
  {
    && (ep[r].pending.Some? <==> ep[r].senders != [])
    && (ep[r].pendingSender.Some? <==> ep[r].senders != [])
    && (ep[r].pendingSender.Some? ==>
          ep[r].pendingSender.value in ep[r].senders
          && ep[r].pendingSender.value < |cl| && ep[r].pending == cl[ep[r].pendingSender.value].mesg)
    && (ep[r].buf <==> cl[r].blocked && cl[r].pc.Receiving?)
    && (ep[r].buf ==> ep[r].senders == [])
  }

  ghost predicate OneWayOk(ep: seq<Endpoint>, cl: seq<Client>) {
    && |ep| == |cl| && SendersOk(ep, cl)
    && (forall r: nat :: r < |ep| ==> PendingAt(ep, cl, r))
  }

  // ---- invocations -------------------------------------------------------------------------

  ghost predicate Caller(cl: seq<Client>, r: nat, c: nat) {
    c < |cl| && cl[c].receiver == Some(r) && cl[c].state == Queued
  }

  // A caller is queued exactly while it is in its server's queue; an acceptor blocks only while
  // nobody calls.
  ghost predicate CallersOk(srv: seq<Server>, cl: seq<Client>) {
    && (forall r: nat :: r < |srv| ==> NoDup(srv[r].callers))
    && (forall r: nat, c: nat {:trigger c in srv[r].callers} :: r < |srv| && c in srv[r].callers ==> Caller(cl, r, c))
    && (forall c: nat :: c < |cl| && cl[c].state == Queued ==>
          cl[c].receiver.Some? && cl[c].receiver.value < |srv| && c in srv[cl[c].receiver.value].callers)
  }

  ghost predicate AcceptorOk(srv: seq<Server>, cl: seq<Client>, r: nat)
    requires r < |srv| && r < |cl|
  {
    && (srv[r].acceptor <==> cl[r].blocked && cl[r].pc == Accepting)
    && (srv[r].acceptor ==> srv[r].callers == [])
    && (cl[r].pc == Accepting ==> srv[r].active == None)
  }

  // A server and its active caller point at each other.
  ghost predicate ActiveOk(srv: seq<Server>, cl: seq<Client>) {
    && (forall r: nat :: r < |srv| && srv[r].active.Some? ==>
          var c := srv[r].active.value;
          c < |cl| && cl[c].receiver == Some(r) && cl[c].state in {Active, Abandoned})
    && (forall c: nat :: c < |cl| && cl[c].state in {Active, Abandoned} ==>
          cl[c].receiver.Some? && cl[c].receiver.value < |srv| && srv[cl[c].receiver.value].active == Some(c))
  }

  ghost predicate InvocationOk(srv: seq<Server>, cl: seq<Client>) {
    && |srv| == |cl| && CallersOk(srv, cl) && ActiveOk(srv, cl)
    && (forall r: nat :: r < |srv| ==> AcceptorOk(srv, cl, r))
  }

  ghost predicate ClientOk(x: Client) {
    && (x.blocked && x.pc.Calling? <==> x.state in {Queued, Active})
    && (x.state == Queued ==> x.mesg.Some?)
    && (x.receiver.Some? <==> x.state != NoCall || (x.blocked && x.pc.Sending?))
    && (x.blocked && x.pc.Sending? ==> x.state == NoCall)
    && (x.pc == Free ==> !x.blocked && !x.timeOut)
    && (x.blocked ==> !x.timeOut)
  }

  ghost predicate ClientsOk(cl: seq<Client>) {
    forall c: nat :: c < |cl| ==> ClientOk(cl[c])
  }

  // ---- history -----------------------------------------------------------------------------

  // Successful sends and successful receives match one to one with equal bytes, and no timed-out
  // payload was received.
  ghost predicate SendHistoryOk(log: Log) {
    && (forall t: nat :: t in log.sent ==> t < log.next)
    && (forall t: nat :: t in log.received ==> t < log.next)
    && (forall t: nat :: t in log.matched ==>
          t in log.sent && log.matched[t] in log.received && log.received[log.matched[t]] == log.sent[t])
    && (forall t: nat, u: nat :: t in log.matched && u in log.matched && log.matched[t] == log.matched[u] ==> t == u)
    && (forall u: nat :: u in log.received ==> exists t: nat :: t in log.matched && log.matched[t] == u)
    && (forall t: nat :: t in log.lapsed ==> t in log.sent && t !in log.matched)
  }

  // Only accepted calls were answered, none that timed out, none beyond its capacity.
  ghost predicate CallHistoryOk(log: Log) {
    && (forall t: nat :: t in log.calls ==> t < log.next)
    && (forall t: nat :: t in log.accepted ==> t in log.calls)
    && (forall t: nat :: t in log.dropped ==> t in log.calls)
    && (forall t: nat :: t in log.replied ==>
          t in log.calls && t in log.accepted && t !in log.dropped && |log.replied[t]| <= log.calls[t])
  }

  ghost predicate HistoryOk(log: Log) {
    SendHistoryOk(log) && CallHistoryOk(log)
  }

  // What the ticket a task is working on says about the task.
  ghost predicate TicketOk(x: Client, log: Log) {
    match x.pc
    case Free => true
    case Accepting => true
    case Sending(t) =>
      && t in log.sent
      && (if x.blocked then x.mesg == Some(log.sent[t]) && t !in log.matched && t !in log.lapsed
          else if x.timeOut then t in log.lapsed else t in log.matched)
    case Receiving(t) =>
      && t < log.next && t !in log.sent && t !in log.calls
      && (if x.blocked || x.timeOut then t !in log.received
          else t in log.received && x.data == log.received[t])
    case Calling(t) =>
      && t in log.calls && log.calls[t] == (if x.state in {Queued, Active} then x.replyMax else log.calls[t])
      && (if x.blocked then t !in log.replied && t !in log.dropped && (x.state == Active <==> t in log.accepted)
          else if x.timeOut then t in log.dropped
          else t in log.replied && x.reply == log.replied[t])
  }

  function TicketOf(pc: Pc): Option<nat> {
    match pc
    case Free => None
    case Accepting => None
    case Sending(t) => Some(t)
    case Receiving(t) => Some(t)
    case Calling(t) => Some(t)
  }

  ghost predicate TicketsOk(cl: seq<Client>, log: Log) {
    && (forall i: nat :: i < |cl| ==> TicketOk(cl[i], log))
    && (forall i: nat :: i < |cl| && TicketOf(cl[i].pc).Some? ==> TicketOf(cl[i].pc).value < log.next)
    && (forall i: nat, j: nat :: i < j < |cl| && TicketOf(cl[i].pc).Some? ==>
          TicketOf(cl[i].pc) != TicketOf(cl[j].pc))
  }
}
