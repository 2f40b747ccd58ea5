// How the history grows, and that a step which touches two tasks keeps every ticket in order.
module SynchHistory {
  import opened Prelude
  import opened SynchState

  // A send that is not refused opens ticket log.next; so do a receive and a call.
  function SendOpened(log: Log, bytes: seq<Byte>): Log {
    log.(next := log.next + 1, sent := log.sent[log.next := bytes])
  }

  function RecvOpened(log: Log): Log {
    log.(next := log.next + 1)
  }

  function CallOpened(log: Log, replyMax: nat): Log {
    log.(next := log.next + 1, calls := log.calls[log.next := replyMax])
  }

  // Receive u takes the payload of send t.
  function Matched(log: Log, t: nat, u: nat): Log
    requires t in log.sent
  {
    log.(matched := log.matched[t := u], received := log.received[u := log.sent[t]])
  }

  function Lapsed(log: Log, t: nat): Log {
    log.(lapsed := log.lapsed + {t})
  }

  function Accepted(log: Log, t: nat): Log {
    log.(accepted := log.accepted + {t})
  }

  function Replied(log: Log, t: nat, bytes: seq<Byte>): Log {
    log.(replied := log.replied[t := bytes])
  }

  function Dropped(log: Log, t: nat): Log {
    log.(dropped := log.dropped + {t})
  }

  lemma SendOpenedHistory(log: Log, bytes: seq<Byte>)
    requires HistoryOk(log)
    ensures HistoryOk(SendOpened(log, bytes))
  {
  }

  lemma RecvOpenedHistory(log: Log)
    requires HistoryOk(log)
    ensures HistoryOk(RecvOpened(log))
  {
  }

  lemma CallOpenedHistory(log: Log, replyMax: nat)
    requires HistoryOk(log)
    ensures HistoryOk(CallOpened(log, replyMax))
  {
  }

  lemma MatchedHistory(log: Log, t: nat, u: nat)
    requires HistoryOk(log) && t in log.sent && t !in log.matched && t !in log.lapsed
    requires u < log.next && u !in log.received
    ensures HistoryOk(Matched(log, t, u))
  {
    var l := Matched(log, t, u);
    forall v: nat | v in l.received ensures exists x: nat :: x in l.matched && l.matched[x] == v {
      if v == u {
        assert l.matched[t] == v;
      } else {
        var x: nat :| x in log.matched && log.matched[x] == v;
        assert l.matched[x] == v;
      }
    }
  }

  lemma LapsedHistory(log: Log, t: nat)
    requires HistoryOk(log) && t in log.sent && t !in log.matched
    ensures HistoryOk(Lapsed(log, t))
  {
  }

  lemma AcceptedHistory(log: Log, t: nat)
    requires HistoryOk(log) && t in log.calls
    ensures HistoryOk(Accepted(log, t))
  {
  }

  lemma DroppedHistory(log: Log, t: nat)
    requires HistoryOk(log) && t in log.calls && t !in log.replied
    ensures HistoryOk(Dropped(log, t))
  {
  }

  lemma RepliedHistory(log: Log, t: nat, bytes: seq<Byte>)
    requires HistoryOk(log) && t in log.accepted && t !in log.dropped && t in log.calls && |bytes| <= log.calls[t]
    ensures HistoryOk(Replied(log, t, bytes))
  {
  }

  // Nothing the history says about ticket t has changed.
  ghost predicate SameAbout(log: Log, log2: Log, t: nat) {
    && (t in log.sent <==> t in log2.sent) && (t in log.sent && t in log2.sent ==> log.sent[t] == log2.sent[t])
    && (t in log.matched <==> t in log2.matched)
    && (t in log.received <==> t in log2.received)
    && (t in log.received && t in log2.received ==> log.received[t] == log2.received[t])
    && (t in log.lapsed <==> t in log2.lapsed)
    && (t in log.calls <==> t in log2.calls) && (t in log.calls && t in log2.calls ==> log.calls[t] == log2.calls[t])
    && (t in log.accepted <==> t in log2.accepted)
    && (t in log.replied <==> t in log2.replied)
    && (t in log.replied && t in log2.replied ==> log.replied[t] == log2.replied[t])
    && (t in log.dropped <==> t in log2.dropped)
  }

  lemma TicketKept(x: Client, log: Log, log2: Log)
    requires TicketOk(x, log) && log.next <= log2.next
    requires TicketOf(x.pc).Some? ==> SameAbout(log, log2, TicketOf(x.pc).value)
    ensures TicketOk(x, log2)
  {
  }

  // Tasks a and b change; the other tickets are not concerned.
  lemma TicketsKept(cl: seq<Client>, cl2: seq<Client>, log: Log, log2: Log, a: nat, b: nat)
    requires TicketsOk(cl, log) && a < |cl| && b < |cl| && |cl2| == |cl| && log.next <= log2.next
    requires forall i: nat :: i < |cl| && i != a && i != b ==> cl2[i] == cl[i]
    requires TicketOk(cl2[a], log2) && TicketOk(cl2[b], log2)
    requires TicketOf(cl2[a].pc) in {None, TicketOf(cl[a].pc), Some(log.next)}
    requires a != b ==> TicketOf(cl2[b].pc) in {None, TicketOf(cl[b].pc)}
    requires TicketOf(cl2[a].pc) == Some(log.next) ==> log.next < log2.next
    requires forall t: nat :: t < log.next && Some(t) != TicketOf(cl[a].pc) && Some(t) != TicketOf(cl[b].pc) ==>
               SameAbout(log, log2, t)
    ensures TicketsOk(cl2, log2)
  {
    hide TicketOk, SameAbout;
    forall i: nat | i < |cl2| ensures TicketOk(cl2[i], log2) {
      if i != a && i != b {
        assert TicketOf(cl[i].pc) == None || TicketOf(cl[i].pc).value < log.next;
        TicketKept(cl[i], log, log2);
      }
    }
    forall i: nat, j: nat | i < j < |cl2| && TicketOf(cl2[i].pc).Some?
      ensures TicketOf(cl2[i].pc) != TicketOf(cl2[j].pc)
    {
    }
  }

  lemma FreshTicket(log: Log)
    requires HistoryOk(log)
    ensures log.next !in log.sent && log.next !in log.matched && log.next !in log.received && log.next !in log.lapsed
    ensures log.next !in log.calls && log.next !in log.accepted && log.next !in log.replied && log.next !in log.dropped
  {
  }
}
