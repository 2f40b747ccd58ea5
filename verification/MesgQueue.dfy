// Message queues over a ring buffer: send, jam, receive, overwrite with direct hand-off to a waiting
// receiver, and the mailbox broadcast. A blocking call is two steps.
module MesgQueue {
  import opened Prelude
  import opened Queues
  import opened MesgQueueState
  import opened QueueHistory
  import RingBuf

  datatype SendResult = Direct(to: nat) | Stored | Full | InvalidTimeout | Blocks | TimedOut | NotAMailbox

  datatype RecvResult = Got(mesg: Message) | Empty | BadTimeout | Waits | Late | NoMailbox

  datatype BroadcastResult = NotMailbox | NoReceivers | MailboxFull | NoJob | SentTo(n: nat)

  predicate Bounded(timeout: nat) {
    timeout != WAIT_FOREVER
  }

  // Task r is the first in the list that does not wait for a broadcast.
  ghost predicate FirstPlain(task: seq<Task>, receivers: seq<nat>, r: nat) {
    && r in receivers && r < |task|
    && exists i: nat :: i < |receivers| && receivers[i] == r && task[r].info != ForBroadcast
         && forall j: nat :: j < i ==> receivers[j] < |task| && task[receivers[j]].info == ForBroadcast
  }

  // A message was handed to the first plain receiver of an empty queue.
  ghost predicate GaveTo(task: seq<Task>, receivers: seq<nat>, contents: seq<Message>, m: Message, to: nat,
                         task2: seq<Task>, receivers2: seq<nat>, contents2: seq<Message>)
  {
    && contents == contents2 == [] && FirstPlain(task, receivers, to)
    && task[to].blocked && task[to].pc == Receiving
    && task2 == task[to := Delivered(task[to], m)] && receivers2 == Without(receivers, to)
  }

  // Every task that waited for a broadcast is a target without a timeout; a single one runs at once, and
  // several stay linked until the deferred wake-up. Nobody else has changed.
  ghost predicate Started(task: seq<Task>, receivers: seq<nat>, n: nat, task2: seq<Task>, receivers2: seq<nat>) {
    && |task2| == |task|
    && (forall t: nat :: t < |task| ==>
          task2[t] == if t in Waiters(task) then task[t].(info := BroadcastDeliver, armed := false, blocked := n > 1)
                      else task[t])
    && (n > 1 ==> receivers2 == receivers)
    && OrderKept(receivers, receivers2)
    && (n == 1 ==> forall t: nat :: t in receivers2 <==> t in receivers && t !in Waiters(task))
  }

  // Task t is blocked with its message at its place in the list of senders.
  function Sender(x: Task, m: Message, jam: bool, timeout: nat): Task {
    x.(pc := Sending(m, jam), blocked := true, armed := Bounded(timeout))
  }

  function Receiver(x: Task, pc: Pc, info: Info, timeout: nat): Task {
    x.(pc := pc, blocked := true, info := info, armed := Bounded(timeout))
  }

  class Queue {
    const ring: RingBuf.Ring
    var receivers: seq<nat>        // waiting lists, by priority
    var senders: seq<nat>
    var count: nat                 // receivers that still have to take the broadcast
    var jobs: seq<nat>             // deferred wake-ups of this queue, oldest first
    var task: seq<Task>
    ghost var mesg: Message        // the message of the last broadcast

    ghost predicate Inv()
      reads this, ring, ring.buf
    {
      && ring.Valid()
      && TasksOk(task) && ReceiversOk(task, receivers) && SendersOk(task, senders)
      && BroadcastOk(task, count, ring.Contents(), mesg, ring.maxBuf, jobs)
      && NobodyWaits(task, count, ring.Contents())
      && (forall t: nat :: t < |task| && task[t].pc.Sending? ==> |task[t].pc.mesg| == ring.dataSize)
    }

    ghost function Contents(): seq<Message>
      reads this, ring, ring.buf
      requires ring.Valid()
    {
      ring.Contents()
    }

    // A broadcast under way: who still has to take it, how many, what lies in the mailbox.
    ghost function InFlight(): (set<nat>, nat, seq<Message>, Message)
      reads this, ring, ring.buf
      requires ring.Valid()
    {
      (Targets(task), count, ring.Contents(), mesg)
    }

    constructor (words: nat, depth: nat, tasks: nat)
      requires words >= 1 && depth >= 1
      ensures Inv() && fresh(ring) && fresh(ring.buf) && Contents() == [] && count == 0
      ensures ring.dataSize == words && ring.maxBuf == depth && receivers == senders == jobs == []
      ensures task == seq(tasks, _ => Task(Idle, false, false, Normal, [], false))
    {
      ring := new RingBuf.Ring(words, depth);
      receivers, senders, count, jobs, mesg := [], [], 0, [], [];
      task := seq(tasks, _ => Task(Idle, false, false, Normal, [], false));
      new;
      assert Targets(task) == {};
    }

    // The first waiting receiver that does not wait for a broadcast.
    method FirstNormal() returns (i: nat)
      requires ReceiversOk(task, receivers)
      ensures i <= |receivers|
      ensures forall j: nat :: j < i ==> receivers[j] < |task| && task[receivers[j]].info == ForBroadcast
      ensures i < |receivers| ==> receivers[i] < |task| && task[receivers[i]].info != ForBroadcast
    {
      assert forall j: nat :: j < |receivers| ==> receivers[j] in receivers;
      i := 0;
      while i < |receivers| && task[receivers[i]].info == ForBroadcast
        invariant i <= |receivers|
        invariant forall j: nat :: j < i ==> receivers[j] < |task| && task[receivers[j]].info == ForBroadcast
      {
        i := i + 1;
      }
    }

    // Hand the message straight to a waiting receiver when nothing is queued.
    method DirectSendIfAny(m: Message) returns (to: Option<nat>)
      requires Inv()
      modifies this
      ensures Inv() && |task| == |old(task)|
      ensures to.Some? ==>
                && to.value < |task| && Contents() == [] && old(task)[to.value].blocked
                && old(task)[to.value].pc == Receiving && count == 0 && old(count) == 0
                && task == old(task)[to.value := Delivered(old(task)[to.value], m)]
                && to.value in old(receivers) && receivers == Without(old(receivers), to.value)
                && senders == old(senders) && jobs == old(jobs) && mesg == old(mesg)
      ensures to.Some? ==>
                exists i: nat :: i < |old(receivers)| && to.value == old(receivers)[i]
                  && forall j: nat :: j < i ==>
                       old(receivers)[j] < |old(task)| && old(task)[old(receivers)[j]].info == ForBroadcast
      ensures to.None? ==>
                && task == old(task) && receivers == old(receivers) && senders == old(senders)
                && count == old(count) && jobs == old(jobs) && mesg == old(mesg)
      ensures to.None? && count == 0 ==> forall t: nat :: t < |task| && task[t].pc == Receiving ==> !task[t].blocked
      ensures to.Some? ==> to.value !in old(Carried(task)) && Carried(task) == old(Carried(task))[to.value := m]
    {
      if ring.nFull != 0 || count > 0 {
        return None;
      }
      var i := FirstNormal();
      if i == |receivers| {
        NoneWaiting(task, receivers);
        return None;
      }
      var r := receivers[i];
      assert r in receivers;
      assert r !in Targets(task);
      assert TaskOk(task[r]);
      ghost var x := task[r].(buf := m, info := DirectDeliver, blocked := false, armed := false);
      CarriedIn(task, r, x);
      ReceiverLeaves(task, receivers, r, x);
      SendersAside(task, senders, r, x);
      BroadcastAside(task, count, ring.Contents(), ring.Contents(), mesg, ring.maxBuf, jobs, r, x);
      receivers := Without(receivers, r);
      task := task[r := task[r].(buf := m, info := DirectDeliver, blocked := false, armed := false)];
      return Some(r);
    }

    // Store a message behind or, jammed, in front of the others, unless a receiver takes it at once.
    method Put(m: Message, jam: bool) returns (res: SendResult)
      requires Inv() && |m| == ring.dataSize && ring.nFull < ring.maxBuf
      modifies this, ring, ring.buf
      ensures Inv() && |task| == |old(task)| && count == 0 && old(count) == 0
      ensures res.Direct? || res.Stored?
      ensures res.Direct? ==>
                && res.to < |task| && old(Contents()) == Contents() == []
                && old(task)[res.to].blocked && old(task)[res.to].pc == Receiving
                && task == old(task)[res.to := Delivered(old(task)[res.to], m)]
                && FirstPlain(old(task), old(receivers), res.to) && receivers == Without(old(receivers), res.to)
      ensures res.Stored? ==>
                && Contents() == (if jam then [m] + old(Contents()) else old(Contents()) + [m])
                && task == old(task) && receivers == old(receivers)
      ensures res.Direct? ==> res.to !in old(Carried(task))
      ensures Carried(task) == if res.Direct? then old(Carried(task))[res.to := m] else old(Carried(task))
      ensures senders == old(senders) && jobs == old(jobs) && mesg == old(mesg)
    {
      var to := DirectSendIfAny(m);
      if to.Some? {
        return Direct(to.value);
      }
      if jam {
        ring.Jam(m);
      } else {
        ring.Write(m);
      }
      var i := FirstNormal();
      NobodyNormal(task, receivers, i);
      return Stored;
    }

    // Send and jam, up to the point where the caller may be switched out.
    method Send(t: nat, m: Message, jam: bool, timeout: nat, slot: nat) returns (res: SendResult)
      requires Inv() && t < |task| && task[t].pc == Idle && |m| == ring.dataSize && slot <= |senders|
      modifies this, ring, ring.buf
      ensures Inv()
      ensures var full := |old(Contents())| == ring.maxBuf;
              && (res.Full? <==> full && timeout == NO_WAIT)
              && (res.InvalidTimeout? <==> full && timeout != NO_WAIT && !TimeoutValid(timeout))
              && (res.Blocks? <==> full && timeout != NO_WAIT && TimeoutValid(timeout))
              && (res.Direct? || res.Stored? <==> !full)
      ensures old(count) > 0 ==> InFlight() == old(InFlight())
      ensures res.Direct? ==> GaveTo(old(task), old(receivers), old(Contents()), m, res.to, task, receivers, Contents())
      ensures res.Stored? ==>
                && Contents() == (if jam then [m] + old(Contents()) else old(Contents()) + [m])
                && task == old(task) && receivers == old(receivers)
      ensures res.Blocks? ==>
                && task == old(task)[t := Sender(old(task)[t], m, jam, timeout)]
                && senders == InsertAt(old(senders), slot, t)
      ensures !res.Blocks? ==> senders == old(senders)
      ensures res.Full? || res.InvalidTimeout? ==> task == old(task)
      ensures res.Full? || res.InvalidTimeout? || res.Blocks? ==>
                Contents() == old(Contents()) && receivers == old(receivers)
      ensures count == old(count) && jobs == old(jobs) && mesg == old(mesg)
      ensures res.Direct? ==> res.to !in old(Carried(task))
      ensures Carried(task) == if res.Direct? then old(Carried(task))[res.to := m] else old(Carried(task))
    {
      if ring.nFull >= ring.maxBuf {
        if timeout == NO_WAIT {
          return Full;
        }
        if !TimeoutValid(timeout) {
          return InvalidTimeout;
        }
        BlockSender(t, m, jam, timeout, slot);
        return Blocks;
      }
      res := Put(m, jam);
    }

    method BlockSender(t: nat, m: Message, jam: bool, timeout: nat, slot: nat)
      requires Inv() && t < |task| && !task[t].blocked && !task[t].timeOut && task[t].info == Normal
      requires slot <= |senders| && |m| == ring.dataSize
      modifies this
      ensures Inv() && InFlight() == old(InFlight()) && receivers == old(receivers) && jobs == old(jobs)
      ensures task == old(task)[t := Sender(old(task)[t], m, jam, timeout)]
      ensures senders == InsertAt(old(senders), slot, t)
      ensures Carried(task) == old(Carried(task))
    {
      ghost var x := task[t].(pc := Sending(m, jam), blocked := true, armed := Bounded(timeout));
      CarriedAside(task, t, x);
      SenderJoins(task, senders, t, x, slot);
      ReceiversAside(task, receivers, t, x);
      BroadcastAside(task, count, ring.Contents(), ring.Contents(), mesg, ring.maxBuf, jobs, t, x);
      senders := InsertAt(senders, slot, t);
      task := task[t := task[t].(pc := Sending(m, jam), blocked := true, armed := Bounded(timeout))];
    }

    // The sender runs again: late, or to look at the queue once more.
    method SendResume(t: nat, timeout: nat, slot: nat) returns (res: SendResult)
      requires Inv() && t < |task| && task[t].pc.Sending? && !task[t].blocked && slot <= |senders|
      modifies this, ring, ring.buf
      ensures Inv()
      ensures old(count) > 0 ==> InFlight() == old(InFlight())
      ensures var late, full := old(task)[t].timeOut, |old(Contents())| == ring.maxBuf;
              && (res.TimedOut? <==> late)
              && (res.Blocks? <==> !late && full)
              && (res.Direct? || res.Stored? <==> !late && !full)
      ensures count == old(count) && jobs == old(jobs) && mesg == old(mesg)
      ensures var m, jam, back := old(task)[t].pc.mesg, old(task)[t].pc.jam, old(task)[t := Freed(old(task)[t])];
              && (res.Direct? ==>
                    && GaveTo(back, old(receivers), old(Contents()), m, res.to, task, receivers, Contents())
                    && res.to != t)
              && (res.Stored? ==>
                    && Contents() == (if jam then [m] + old(Contents()) else old(Contents()) + [m])
                    && task == back && receivers == old(receivers))
              && (res.Blocks? ==>
                    && task == back[t := Sender(back[t], m, jam, timeout)]
                    && senders == InsertAt(old(senders), slot, t))
              && (res.TimedOut? ==> task == back)
              && (!res.Blocks? ==> senders == old(senders))
              && (res.TimedOut? || res.Blocks? ==> Contents() == old(Contents()) && receivers == old(receivers))
      ensures res.Direct? ==> res.to !in old(Carried(task))
      ensures Carried(task) ==
                if res.Direct? then old(Carried(task))[res.to := old(task)[t].pc.mesg] else old(Carried(task))
    {
      hide Carried;
      var m, jam, late := task[t].pc.mesg, task[t].pc.jam, task[t].timeOut;
      assert TaskOk(task[t]);
      Free(t);
      if late {
        return TimedOut;
      }
      if ring.nFull >= ring.maxBuf {
        BlockSender(t, m, jam, timeout, slot);
        return Blocks;
      }
      res := Put(m, jam);
    }

    // Back to the task's own code, from an operation that leaves no mark.
    method Free(t: nat)
      requires Inv() && t < |task| && !task[t].blocked && task[t].info != BroadcastDeliver
      modifies this`task
      ensures Inv() && task == old(task)[t := Freed(old(task)[t])]
      ensures InFlight() == old(InFlight())
      ensures Carried(task) == old(Carried(task)) - {t}
      ensures t in old(Carried(task)) <==> old(task)[t].info == DirectDeliver
    {
      hide Carried;
      ghost var x := task[t].(pc := Idle, timeOut := false, info := Normal);
      CarriedOut(task, t, x);
      ReceiversAside(task, receivers, t, x);
      SendersAside(task, senders, t, x);
      BroadcastAside(task, count, ring.Contents(), ring.Contents(), mesg, ring.maxBuf, jobs, t, x);
      task := task[t := task[t].(pc := Idle, timeOut := false, info := Normal)];
    }

    // Make room: the first waiting sender runs again.
    method WakeSenderIfAny()
      requires Inv()
      modifies this`task, this`senders
      ensures Inv() && |task| == |old(task)|
      ensures SenderWoken(old(task), old(senders), task, senders)
      ensures Carried(task) == old(Carried(task))
    {
      if |senders| == 0 {
        return;
      }
      var s := senders[0];
      HeadWithout(senders);
      assert TaskOk(task[s]);
      ghost var x := task[s].(blocked := false, armed := false);
      CarriedAside(task, s, x);
      SenderLeaves(task, senders, s, x);
      ReceiversAside(task, receivers, s, x);
      BroadcastAside(task, count, ring.Contents(), ring.Contents(), mesg, ring.maxBuf, jobs, s, x);
      senders := senders[1..];
      task := task[s := task[s].(blocked := false, armed := false)];
    }

    method Recv(t: nat, timeout: nat, slot: nat) returns (res: RecvResult)
      requires Inv() && t < |task| && task[t].pc == Idle && slot <= |receivers|
      modifies this, ring, ring.buf
      ensures Inv()
      ensures old(count) > 0 ==> InFlight() == old(InFlight())
      ensures var none := old(Contents()) == [] || old(count) > 0;
              && (res.Got? <==> !none)
              && (res.Empty? <==> none && timeout == NO_WAIT)
              && (res.BadTimeout? <==> none && timeout != NO_WAIT && !TimeoutValid(timeout))
              && (res.Waits? <==> none && timeout != NO_WAIT && TimeoutValid(timeout))
      // each message taken makes room for the sender that has waited first
      ensures res.Got? ==>
                && old(Contents()) == [res.mesg] + Contents() && SenderWoken(old(task), old(senders), task, senders)
                && receivers == old(receivers)
      ensures res.Waits? ==>
                && task == old(task)[t := Receiver(old(task)[t], Receiving, Normal, timeout)]
                && receivers == InsertAt(old(receivers), slot, t)
      ensures !res.Waits? && !res.Got? ==> task == old(task) && receivers == old(receivers)
      ensures !res.Got? ==> Contents() == old(Contents()) && senders == old(senders)
      ensures count == old(count) && jobs == old(jobs) && mesg == old(mesg)
      ensures Carried(task) == old(Carried(task))
    {
      if ring.nFull == 0 || count > 0 {
        if timeout == NO_WAIT {
          return Empty;
        }
        if !TimeoutValid(timeout) {
          return BadTimeout;
        }
        BlockReceiver(t, Receiving, Normal, timeout, slot);
        return Waits;
      }
      var m := ring.Read();
      WakeSenderIfAny();
      return Got(m);
    }

    method BlockReceiver(t: nat, pc: Pc, info: Info, timeout: nat, slot: nat)
      requires Inv() && t < |task| && task[t].pc == Idle && slot <= |receivers|
      requires (pc == Receiving && info == Normal && (ring.nFull == 0 || count > 0))
               || (pc == BroadcastReceiving && info == ForBroadcast)
      modifies this
      ensures Inv() && InFlight() == old(InFlight()) && senders == old(senders) && jobs == old(jobs)
      ensures task == old(task)[t := Receiver(old(task)[t], pc, info, timeout)]
      ensures receivers == InsertAt(old(receivers), slot, t)
      ensures Carried(task) == old(Carried(task))
    {
      assert TaskOk(task[t]);
      ghost var x := task[t].(pc := pc, blocked := true, info := info, armed := Bounded(timeout));
      CarriedAside(task, t, x);
      ReceiverJoins(task, receivers, t, x, slot);
      SendersAside(task, senders, t, x);
      BroadcastAside(task, count, ring.Contents(), ring.Contents(), mesg, ring.maxBuf, jobs, t, x);
      receivers := InsertAt(receivers, slot, t);
      task := task[t := task[t].(pc := pc, blocked := true, info := info, armed := Bounded(timeout))];
    }

    // The receiver runs again: late, or with the message handed to it.
    method RecvResume(t: nat) returns (res: RecvResult)
      requires Inv() && t < |task| && task[t].pc == Receiving && !task[t].blocked
      modifies this`task
      ensures Inv() && task == old(task)[t := Freed(old(task)[t])]
      ensures InFlight() == old(InFlight())
      ensures res == if old(task)[t].timeOut then Late else Got(old(task)[t].buf)
      ensures !old(task)[t].timeOut ==> old(task)[t].info == DirectDeliver
      ensures Carried(task) == old(Carried(task)) - {t}
      ensures if res.Got? then t in old(Carried(task)) && old(Carried(task))[t] == res.mesg
              else t !in old(Carried(task))
    {
      assert TaskOk(task[t]);
      res := if task[t].timeOut then Late else Got(task[t].buf);
      Free(t);
    }

    method Peek() returns (res: RecvResult)
      requires Inv()
      ensures if Contents() == [] || count > 0 then res == Empty else res == Got(Contents()[0])
    {
      if ring.nFull == 0 || count > 0 {
        return Empty;
      }
      var m := ring.Peek();
      return Got(m);
    }

    // Mailbox only: replace the message.
    method PostOverwrite(m: Message) returns (res: SendResult)
      requires Inv() && |m| == ring.dataSize
      modifies this, ring, ring.buf
      ensures Inv()
      ensures old(count) > 0 ==> InFlight() == old(InFlight())
      ensures res.NotAMailbox? <==> ring.maxBuf > 1
      ensures res.Full? <==> ring.maxBuf == 1 && old(count) > 0
      ensures res.Direct? || res.Stored? <==> ring.maxBuf == 1 && old(count) == 0
      ensures res.Direct? ==> GaveTo(old(task), old(receivers), old(Contents()), m, res.to, task, receivers, Contents())
      ensures res.Stored? ==> Contents() == [m]
      ensures res.Full? || res.NotAMailbox? ==> Contents() == old(Contents())
      ensures !res.Direct? ==> task == old(task) && receivers == old(receivers)
      ensures senders == old(senders) && count == old(count) && jobs == old(jobs) && mesg == old(mesg)
      ensures res.Direct? ==> res.to !in old(Carried(task))
      ensures Carried(task) == if res.Direct? then old(Carried(task))[res.to := m] else old(Carried(task))
    {
      if ring.maxBuf > 1 {
        return NotAMailbox;
      }
      if count > 0 {
        return Full;
      }
      var to := DirectSendIfAny(m);
      if to.Some? {
        return Direct(to.value);
      }
      var wasEmpty := ring.nFull == 0;
      ring.Overwrite(m);
      if wasEmpty {
        var i := FirstNormal();
        NobodyNormal(task, receivers, i);
      }
      return Stored;
    }

    // ---- broadcast -----------------------------------------------------------------------------

    // How many waiting receivers wait for a broadcast.
    method CountWaiters() returns (n: nat)
      requires Inv()
      ensures n == |Waiters(task)|
    {
      n := 0;
      ghost var seen: set<nat> := {};
      var i := 0;
      while i < |receivers|
        invariant i <= |receivers| && n == |seen|
        invariant forall t: nat :: t in seen <==> t in Waiters(task) && t in receivers[..i]
      {
        assert receivers[i] in receivers && receivers[..i + 1] == receivers[..i] + [receivers[i]];
        assert receivers[i] !in receivers[..i];
        if task[receivers[i]].info == ForBroadcast {
          n := n + 1;
          seen := seen + {receivers[i]};
        }
        i := i + 1;
      }
      WaitersLinked(task, receivers);
      assert receivers[..i] == receivers;
      assert seen == Waiters(task);
    }

    // Make a waiter a target and take away its timeout.
    method Mark(r: nat)
      requires TasksOk(task) && ReceiversOk(task, receivers) && SendersOk(task, senders)
      requires r < |task| && task[r].info == ForBroadcast && task[r].blocked
      modifies this`task
      ensures TasksOk(task) && ReceiversOk(task, receivers) && SendersOk(task, senders)
      ensures task == old(task)[r := old(task)[r].(info := BroadcastDeliver, armed := false)]
      ensures Carried(task) == old(Carried(task))
    {
      assert TaskOk(task[r]);
      ghost var x := task[r].(armed := false, info := BroadcastDeliver);
      CarriedAside(task, r, x);
      ReceiversAside(task, receivers, r, x);
      SendersAside(task, senders, r, x);
      task := task[r := task[r].(armed := false, info := BroadcastDeliver)];
    }

    // Mark the waiters as targets, up to n of them.
    method PrepareReceivers(n: nat) returns (marked: nat)
      requires TasksOk(task) && ReceiversOk(task, receivers) && SendersOk(task, senders)
      requires n == |Waiters(task)|
      modifies this`task
      ensures marked == n && MarkedIn(old(task), task, Waiters(old(task)))
      ensures TasksOk(task) && ReceiversOk(task, receivers) && SendersOk(task, senders)
      ensures Carried(task) == old(Carried(task))
    {
      hide TasksOk, SendersOk, MarkedIn, Among, Waiters, Carried;
      ghost var was, all := task, Waiters(task);
      marked := 0;
      var i := 0;
      NothingMarked(was, all, receivers);
      while marked < n && i < |receivers|
        invariant i <= |receivers| && |task| == |was|
        invariant marked == |Among(all, receivers[..i])| && MarkedIn(was, task, Among(all, receivers[..i]))
        invariant Carried(task) == Carried(was)
        invariant TasksOk(task) && ReceiversOk(task, receivers) && SendersOk(task, senders)
      {
        var r := receivers[i];
        AmongStep(all, receivers, i);
        StillWaiting(was, task, Among(all, receivers[..i]), r, receivers);
        if task[r].info == ForBroadcast {
          MarkedMore(was, task, Among(all, receivers[..i]), r);
          Mark(r);
          marked := marked + 1;
        }
        i := i + 1;
      }
      WaitersLinked(was, receivers);
      AmongAll(all, receivers, i);
    }

    // Unlink the targets, up to n of them, and make them ready.
    method BroadcastWake(n: nat)
      requires TasksOk(task) && ReceiversOk(task, receivers) && SendersOk(task, senders)
      requires n == |Targets(task)| && forall t: nat :: t in Targets(task) ==> task[t].blocked
      modifies this`task, this`receivers
      ensures TasksOk(task) && ReceiversOk(task, receivers) && SendersOk(task, senders)
      ensures WokenIn(old(task), task, Targets(old(task)))
      ensures Carried(task) == old(Carried(task))
      ensures OrderKept(old(receivers), receivers)
      ensures forall t: nat :: t in receivers <==> t in old(receivers) && t !in Targets(old(task))
    {
      hide TasksOk, SendersOk, WokenIn, Targets, Carried, OrderKept, Without;
      ghost var was, all, done: set<nat> := task, Targets(task), {};
      var woken, i := 0, 0;
      NobodyWoken(was);
      SameOrder(receivers);
      while woken < n && i < |receivers|
        invariant i <= |receivers| && |task| == |was| && woken == |done| && done <= all
        invariant WokenIn(was, task, done)
        invariant Carried(task) == Carried(was)
        invariant TasksOk(task) && ReceiversOk(task, receivers) && SendersOk(task, senders)
        invariant forall j: nat :: j < i ==> receivers[j] !in all
        invariant OrderKept(old(receivers), receivers) && NoDup(receivers)
        invariant forall t: nat :: t in receivers <==> t in old(receivers) && t !in done
        decreases |receivers| - i
      {
        var r := receivers[i];
        Linked(was, task, done, receivers, i);
        if task[r].info == BroadcastDeliver {
          WokenMore(was, task, done, r);
          OrderWithout(old(receivers), receivers, r);
          done := done + {r};
          Unlink(r, i);
          woken := woken + 1;
        } else {
          i := i + 1;
        }
      }
      AllWoken(was, task, done, receivers, i);
    }

    method Unlink(r: nat, i: nat)
      requires TasksOk(task) && ReceiversOk(task, receivers) && SendersOk(task, senders)
      requires i < |receivers| && receivers[i] == r && r < |task| && task[r].info == BroadcastDeliver
      modifies this`task, this`receivers
      ensures TasksOk(task) && ReceiversOk(task, receivers) && SendersOk(task, senders)
      ensures task == old(task)[r := old(task)[r].(blocked := false)]
      ensures |receivers| == |old(receivers)| - 1 && receivers[..i] == old(receivers)[..i]
      ensures Carried(task) == old(Carried(task))
      ensures receivers == Without(old(receivers), r)
    {
      assert r in receivers;
      assert TaskOk(task[r]);
      ghost var x := task[r].(blocked := false);
      CarriedAside(task, r, x);
      ReceiverLeaves(task, receivers, r, x);
      SendersAside(task, senders, r, x);
      PrefixKept(receivers, r, i);
      receivers := Without(receivers, r);
      task := task[r := task[r].(blocked := false)];
    }

    // Mailbox only: one message for every task that waits for a broadcast. With more than one the
    // wake-up is left to the post-processing task, which may have no room for the job.
    method Broadcast(m: Message, jobRoom: bool) returns (res: BroadcastResult)
      requires Inv() && |m| == ring.dataSize
      modifies this, ring, ring.buf
      ensures Inv()
      ensures old(count) > 0 ==> InFlight() == old(InFlight())
      ensures res.NotMailbox? <==> ring.maxBuf > 1
      ensures res.NoReceivers? <==> ring.maxBuf == 1 && Waiters(old(task)) == {}
      ensures res.MailboxFull? <==> ring.maxBuf == 1 && Waiters(old(task)) != {} && old(Contents()) != []
      ensures res.NoJob? <==>
                ring.maxBuf == 1 && |Waiters(old(task))| > 1 && old(Contents()) == [] && !jobRoom
      ensures res.SentTo? ==>
                && old(count) == 0 && res.n == |Waiters(old(task))| == count > 0
                && Targets(task) == Waiters(old(task)) && Contents() == [m] == [mesg] && old(Contents()) == []
                && (jobs == if res.n == 1 then [] else [res.n])
                && Started(old(task), old(receivers), res.n, task, receivers)
      ensures !res.SentTo? ==>
                InFlight() == old(InFlight()) && task == old(task) && receivers == old(receivers) && jobs == old(jobs)
      ensures senders == old(senders)
      ensures Carried(task) == old(Carried(task))
    {
      if ring.maxBuf > 1 {
        return NotMailbox;
      }
      var toWake := CountWaiters();
      if toWake == 0 {
        return NoReceivers;
      }
      if ring.nFull >= ring.maxBuf {
        return MailboxFull;
      }
      if toWake > 1 && !jobRoom {
        return NoJob;
      }
      Start(m, toWake);
      return SentTo(toWake);
    }

    method Start(m: Message, toWake: nat)
      requires Inv() && |m| == ring.dataSize && ring.maxBuf == 1 && ring.nFull == 0
      requires toWake == |Waiters(task)| && toWake > 0
      modifies this, ring, ring.buf
      ensures Inv() && count == toWake && Targets(task) == Waiters(old(task)) && Contents() == [m] == [mesg]
      ensures jobs == [] <==> toWake == 1
      ensures Carried(task) == old(Carried(task))
      ensures senders == old(senders)
      ensures Started(old(task), old(receivers), toWake, task, receivers)
      ensures jobs == (if toWake > 1 then old(jobs) + [toWake] else old(jobs))
    {
      if toWake > 1 {
        jobs := jobs + [toWake];
      }
      count := toWake;
      ring.Write(m);
      mesg := m;
      ghost var was := task;
      var prepared := PrepareReceivers(toWake);
      MarkedTargets(was, task);
      count := prepared;
      ghost var marked := task;
      if toWake == 1 {
        BroadcastWake(prepared);
        WokenTargets(marked, task);
      }
    }

    // The post-processing task gets to the deferred wake-up.
    method RunJob()
      requires Inv() && jobs != []
      modifies this`task, this`receivers, this`jobs
      ensures Inv() && jobs == [] && InFlight() == old(InFlight())
      ensures Carried(task) == old(Carried(task))
      ensures WokenIn(old(task), task, Targets(old(task))) && OrderKept(old(receivers), receivers)
      ensures forall t: nat :: t in receivers <==> t in old(receivers) && t !in Targets(old(task))
    {
      var n := jobs[0];
      jobs := jobs[1..];
      BroadcastWake(n);
      WokenTargets(old(task), task);
    }

    method BroadcastRecv(t: nat, timeout: nat, slot: nat) returns (res: RecvResult)
      requires Inv() && t < |task| && task[t].pc == Idle && slot <= |receivers|
      modifies this
      ensures Inv() && InFlight() == old(InFlight())
      ensures res.NoMailbox? <==> ring.maxBuf > 1
      ensures res.Empty? <==> ring.maxBuf == 1 && timeout == NO_WAIT
      ensures res.BadTimeout? <==> ring.maxBuf == 1 && timeout != NO_WAIT && !TimeoutValid(timeout)
      ensures res.Waits? ==>
                && task == old(task)[t := Receiver(old(task)[t], BroadcastReceiving, ForBroadcast, timeout)]
                && receivers == InsertAt(old(receivers), slot, t)
      ensures !res.Waits? ==> task == old(task) && receivers == old(receivers)
      ensures senders == old(senders) && jobs == old(jobs)
      ensures res.Waits? <==> ring.maxBuf == 1 && timeout != NO_WAIT && TimeoutValid(timeout)
      ensures Carried(task) == old(Carried(task))
    {
      if ring.maxBuf > 1 {
        return NoMailbox;
      }
      if timeout == NO_WAIT {
        return Empty;
      }
      if !TimeoutValid(timeout) {
        return BadTimeout;
      }
      BlockReceiver(t, BroadcastReceiving, ForBroadcast, timeout, slot);
      return Waits;
    }

    // The receiver runs again: late, or as a target, and then the message is there. The last target
    // empties the mailbox.
    method BroadcastResume(t: nat) returns (res: RecvResult)
      requires Inv() && t < |task| && task[t].pc == BroadcastReceiving && !task[t].blocked
      modifies this, ring, ring.buf
      ensures Inv() && |task| == |old(task)|
      ensures res == if old(task)[t].timeOut then Late else Got(old(mesg))
      ensures old(task)[t].timeOut ==> t !in old(Targets(task)) && InFlight() == old(InFlight())
      ensures !old(task)[t].timeOut ==>
                && t in old(Targets(task)) && old(Contents()) == [old(mesg)]
                && Targets(task) == old(Targets(task)) - {t} && count == old(count) - 1 && mesg == old(mesg)
                && Contents() == (if count == 0 then [] else [mesg])
                // the last target makes room for the sender that has waited first
                && var served := old(task)[t := old(task)[t].(pc := Idle, info := Normal)];
                if count == 0 then SenderWoken(served, old(senders), task, senders)
                else task == served && senders == old(senders)
      ensures old(task)[t].timeOut ==> task == old(task)[t := Freed(old(task)[t])] && senders == old(senders)
      ensures receivers == old(receivers) && jobs == old(jobs)
      ensures Carried(task) == old(Carried(task))
    {
      hide Carried, ReceiversOk, SendersOk;
      assert TaskOk(task[t]);
      if task[t].timeOut {
        Free(t);
        return Late;
      }
      ghost var x := task[t].(pc := Idle, info := Normal);
      assert t in Targets(task);
      CarriedAside(task, t, x);
      TargetServed(task, count, ring.Contents(), mesg, ring.maxBuf, t, x);
      ReceiversAside(task, receivers, t, x);
      SendersAside(task, senders, t, x);
      task := task[t := task[t].(pc := Idle, info := Normal)];
      var m := TakeBroadcast();
      return Got(m);
    }

    // One target less: the last one empties the mailbox and makes room for a sender.
    method TakeBroadcast() returns (m: Message)
      requires ring.Valid() && TasksOk(task) && ReceiversOk(task, receivers) && SendersOk(task, senders)
      requires count > 0 && count - 1 == |Targets(task)| && ring.Contents() == [mesg] && ring.maxBuf == 1 && jobs == []
      requires forall t: nat :: t in Targets(task) ==> !task[t].blocked
      requires count == 1 || NobodyWaits(task, count - 1, ring.Contents())
      requires forall t: nat :: t < |task| && task[t].pc.Sending? ==> |task[t].pc.mesg| == ring.dataSize
      modifies this`task, this`senders, this`count, ring, ring.buf
      ensures Inv() && |task| == |old(task)| && m == mesg && count == old(count) - 1
      ensures Targets(task) == old(Targets(task)) && Carried(task) == old(Carried(task))
      ensures Contents() == if count == 0 then [] else [mesg]
      ensures if count == 0 then SenderWoken(old(task), old(senders), task, senders)
              else task == old(task) && senders == old(senders)
    {
      hide TasksOk, ReceiversOk, SendersOk, Targets, Carried;
      ghost var was := ring.Contents();
      if count == 1 {
        m := ring.Read();
        assert was[0] == m;
        count := 0;
        ghost var before := task;
        WakeSenderIfAny();
        SameTargets(before, task);
      } else {
        m := ring.Peek();
        count := count - 1;
      }
    }

    // The timeout of a blocked task; a target has none.
    method Expire(t: nat)
      requires Inv() && t < |task| && task[t].blocked && task[t].armed
      modifies this`task, this`receivers, this`senders
      ensures Inv() && InFlight() == old(InFlight())
      ensures task == old(task)[t := old(task)[t].(blocked := false, timeOut := true, armed := false)]
      ensures Carried(task) == old(Carried(task))
      ensures if old(task)[t].pc.Sending?
              then t in old(senders) && senders == Without(old(senders), t) && receivers == old(receivers)
              else t in old(receivers) && receivers == Without(old(receivers), t) && senders == old(senders)
    {
      hide Carried;
      assert TaskOk(task[t]);
      ghost var x := task[t].(blocked := false, timeOut := true, armed := false);
      CarriedAside(task, t, x);
      BroadcastAside(task, count, ring.Contents(), ring.Contents(), mesg, ring.maxBuf, jobs, t, x);
      if task[t].pc.Sending? {
        SenderLeaves(task, senders, t, x);
        ReceiversAside(task, receivers, t, x);
        senders := Without(senders, t);
      } else {
        ReceiverLeaves(task, receivers, t, x);
        SendersAside(task, senders, t, x);
        receivers := Without(receivers, t);
      }
      task := task[t := task[t].(blocked := false, timeOut := true, armed := false)];
    }
  }

  lemma NoneWaiting(task: seq<Task>, receivers: seq<nat>)
    requires ReceiversOk(task, receivers) && TasksOk(task)
    requires forall j: nat :: j < |receivers| ==> receivers[j] < |task| && task[receivers[j]].info == ForBroadcast
    ensures forall t: nat :: t < |task| && task[t].pc == Receiving ==> !task[t].blocked
  {
    forall t: nat | t < |task| && task[t].pc == Receiving ensures !task[t].blocked {
      assert TaskOk(task[t]);
      assert task[t].blocked ==> t in receivers;
    }
  }

  // When no plain receiver is blocked and no target linked, the search finds nobody to wake.
  lemma NobodyNormal(task: seq<Task>, receivers: seq<nat>, i: nat)
    requires ReceiversOk(task, receivers) && TasksOk(task) && i <= |receivers|
    requires forall t: nat :: t < |task| && task[t].pc == Receiving ==> !task[t].blocked
    requires Targets(task) == {}
    requires i < |receivers| ==> receivers[i] < |task| && task[receivers[i]].info != ForBroadcast
    ensures i == |receivers|
  {
    forall r: nat | r in receivers ensures r < |task| && task[r].info == ForBroadcast {
      assert r !in Targets(task);
      assert TaskOk(task[r]);
    }
    assert forall j: nat :: j < |receivers| ==> receivers[j] in receivers;
  }

  ghost function Waiters(task: seq<Task>): set<nat> {
    set t: nat | t < |task| && task[t].info == ForBroadcast && task[t].blocked
  }

  lemma WaitersLinked(task: seq<Task>, receivers: seq<nat>)
    requires TasksOk(task) && ReceiversOk(task, receivers)
    ensures forall t: nat :: t in Waiters(task) ==> t in receivers
  {
    forall t: nat | t in Waiters(task) ensures t in receivers {
      assert TaskOk(task[t]);
    }
  }

  ghost function Among(all: set<nat>, s: seq<nat>): set<nat> {
    set t: nat | t in all && t in s
  }

  lemma AmongStep(all: set<nat>, receivers: seq<nat>, i: nat)
    requires NoDup(receivers) && i < |receivers|
    ensures var r, done := receivers[i], Among(all, receivers[..i]);
            && r in receivers && r !in done
            && Among(all, receivers[..i + 1]) == (if r in all then done + {r} else done)
  {
    assert receivers[..i + 1] == receivers[..i] + [receivers[i]];
  }

  lemma AmongAll(all: set<nat>, receivers: seq<nat>, i: nat)
    requires i <= |receivers| && forall t: nat :: t in all ==> t in receivers
    requires |Among(all, receivers[..i])| >= |all| || i == |receivers|
    ensures Among(all, receivers[..i]) == all
  {
    if i == |receivers| {
      assert receivers[..i] == receivers;
    } else {
      SubsetSize(Among(all, receivers[..i]), all);
    }
  }

  lemma SubsetSize(a: set<nat>, b: set<nat>)
    requires a <= b && |a| >= |b|
    ensures a == b
  {
    assert |b| == |a| + |b - a| by {
      assert b == a + (b - a);
    }
  }

  // The given tasks were marked as targets; nothing else changed.
  ghost predicate MarkedIn(task: seq<Task>, task2: seq<Task>, done: set<nat>) {
    && |task2| == |task|
    && forall t: nat :: t < |task| ==>
         task2[t] == if t in done then task[t].(info := BroadcastDeliver, armed := false) else task[t]
  }

  lemma NothingMarked(task: seq<Task>, all: set<nat>, receivers: seq<nat>)
    ensures receivers[..0] == [] && Among(all, []) == {} && MarkedIn(task, task, {})
  {
  }

  lemma MarkedMore(task: seq<Task>, task2: seq<Task>, done: set<nat>, r: nat)
    requires MarkedIn(task, task2, done) && r < |task| && r !in done
    ensures MarkedIn(task, task2[r := task2[r].(info := BroadcastDeliver, armed := false)], done + {r})
  {
  }

  // A linked task that was not marked yet waits for a broadcast if and only if it did before.
  lemma StillWaiting(task: seq<Task>, task2: seq<Task>, done: set<nat>, r: nat, receivers: seq<nat>)
    requires MarkedIn(task, task2, done) && ReceiversOk(task2, receivers) && r in receivers && r !in done
    ensures r < |task2| && task2[r].blocked && (task2[r].info == ForBroadcast <==> r in Waiters(task))
  {
  }

  // The given tasks were made ready; nothing else changed.
  ghost predicate WokenIn(task: seq<Task>, task2: seq<Task>, done: set<nat>) {
    && |task2| == |task|
    && forall t: nat :: t < |task| ==> task2[t] == if t in done then task[t].(blocked := false) else task[t]
  }

  lemma NobodyWoken(task: seq<Task>)
    ensures WokenIn(task, task, {})
  {
  }

  lemma WokenMore(task: seq<Task>, task2: seq<Task>, done: set<nat>, r: nat)
    requires WokenIn(task, task2, done) && r < |task|
    ensures WokenIn(task, task2[r := task2[r].(blocked := false)], done + {r})
  {
  }

  lemma Linked(task: seq<Task>, task2: seq<Task>, done: set<nat>, receivers: seq<nat>, i: nat)
    requires WokenIn(task, task2, done) && ReceiversOk(task2, receivers) && i < |receivers|
    ensures var r := receivers[i];
            && r < |task2| && r in receivers && r !in done
            && (task2[r].info == BroadcastDeliver <==> r in Targets(task))
  {
    assert receivers[i] in receivers;
  }

  lemma PrefixKept(receivers: seq<nat>, r: nat, i: nat)
    requires NoDup(receivers) && i < |receivers| && receivers[i] == r && r in receivers
    ensures |Without<nat>(receivers, r)| == |receivers| - 1 && Without<nat>(receivers, r)[..i] == receivers[..i]
  {
  }

  lemma AllWoken(task: seq<Task>, task2: seq<Task>, done: set<nat>, receivers: seq<nat>, i: nat)
    requires WokenIn(task, task2, done) && ReceiversOk(task2, receivers) && TasksOk(task2) && i <= |receivers|
    requires done <= Targets(task) && forall t: nat :: t in Targets(task) ==> task[t].blocked
    requires forall j: nat :: j < i ==> receivers[j] !in Targets(task)
    requires |done| >= |Targets(task)| || i == |receivers|
    ensures done == Targets(task)
  {
    if i < |receivers| {
      SubsetSize(done, Targets(task));
    } else {
      forall t: nat | t in Targets(task) ensures t in done {
        assert t !in receivers;
        assert TaskOk(task2[t]);
      }
    }
  }

  lemma MarkedTargets(task: seq<Task>, task2: seq<Task>)
    requires MarkedIn(task, task2, Waiters(task)) && Targets(task) == {}
    ensures Targets(task2) == Waiters(task) && forall t: nat :: t in Targets(task2) ==> task2[t].blocked
  {
    forall t: nat ensures t in Targets(task2) <==> t in Waiters(task) {
      assert t !in Targets(task);
    }
  }

  lemma WokenTargets(task: seq<Task>, task2: seq<Task>)
    requires WokenIn(task, task2, Targets(task))
    ensures Targets(task2) == Targets(task) && forall t: nat :: t in Targets(task2) ==> !task2[t].blocked
  {
  }

  lemma SameTargets(task: seq<Task>, task2: seq<Task>)
    requires |task2| == |task|
    requires forall t: nat :: t < |task| ==> task2[t].info == task[t].info
    ensures Targets(task2) == Targets(task)
  {
  }

  // ---- runs ------------------------------------------------------------------------------------

  datatype Step =
    | SendStep(task: nat, mesg: Message, jam: bool, timeout: nat, slot: nat)
    | RecvStep(task: nat, timeout: nat, slot: nat)
    | OverwriteStep(mesg: Message)
    | BroadcastStep(mesg: Message, jobRoom: bool)
    | BroadcastRecvStep(task: nat, timeout: nat, slot: nat)
    | ResumeStep(task: nat, timeout: nat, slot: nat)
    | ExpireStep(task: nat)
    | JobStep

  // The call a step makes, with its result.
  datatype Outcome =
    | NoCall
    | Sent(mesg: Message, jam: bool, res: SendResult)
    | Overwritten(mesg: Message, res: SendResult)
    | Received(result: RecvResult)
    | HandedOver(task: nat, result: RecvResult) // of a receiver that runs again; counted at the hand-off
    | Broadcasted(mesg: Message, answer: BroadcastResult)
    | BroadcastTaken(result: RecvResult, last: bool)

  // What the result of a call says about the contents. A direct hand-off is a message put and taken.
  function Events(out: Outcome): seq<Event> {
    match out
    case Sent(m, jam, Stored) => if jam then [Jammed(m)] else [Appended(m)]
    case Sent(m, _, Direct(_)) => [Appended(m), Taken(m)]
    case Overwritten(m, Stored) => [Replaced(m)]
    case Overwritten(m, Direct(_)) => [Replaced(m), Taken(m)]
    case Received(Got(m)) => [Taken(m)]
    case Broadcasted(m, SentTo(_)) => [Appended(m)]
    case BroadcastTaken(Got(m), last) => if last then [Taken(m)] else []
    case _ => []
  }

  function AllEvents(outs: seq<Outcome>): seq<Event> {
    if outs == [] then [] else AllEvents(outs[..|outs| - 1]) + Events(outs[|outs| - 1])
  }

  // A hand-off: the receiver and its message.
  function HandOff(out: Outcome): Option<(nat, Message)> {
    match out
    case Sent(m, _, Direct(to)) => Some((to, m))
    case Overwritten(m, Direct(to)) => Some((to, m))
    case _ => None
  }

  // What receivers carry after the call, and which results are possible with what they carried before.
  function Carrying(c: map<nat, Message>, out: Outcome): map<nat, Message> {
    if HandOff(out).Some? then c[HandOff(out).value.0 := HandOff(out).value.1]
    else if out.HandedOver? then c - {out.task}
    else c
  }

  ghost predicate Honest(c: map<nat, Message>, out: Outcome) {
    && (HandOff(out).Some? ==> HandOff(out).value.0 !in c)
    && (out.HandedOver? ==>
          if out.result.Got? then out.task in c && c[out.task] == out.result.mesg else out.task !in c)
  }

  function CarryingAll(c: map<nat, Message>, outs: seq<Outcome>): map<nat, Message> {
    if outs == [] then c else Carrying(CarryingAll(c, outs[..|outs| - 1]), outs[|outs| - 1])
  }

  ghost predicate AllHonest(c: map<nat, Message>, outs: seq<Outcome>) {
    forall i: nat :: i < |outs| ==> Honest(CarryingAll(c, outs[..i]), outs[i])
  }

  lemma NoneYet(c: map<nat, Message>)
    ensures AllHonest(c, []) && CarryingAll(c, []) == c
  {
  }

  lemma MoreHonest(c: map<nat, Message>, outs: seq<Outcome>, out: Outcome)
    requires AllHonest(c, outs) && Honest(CarryingAll(c, outs), out)
    ensures AllHonest(c, outs + [out]) && CarryingAll(c, outs + [out]) == Carrying(CarryingAll(c, outs), out)
  {
    var all := outs + [out];
    assert all[..|outs|] == outs;
    forall i: nat | i < |all| ensures Honest(CarryingAll(c, all[..i]), all[i]) {
      if i < |outs| {
        assert all[..i] == outs[..i];
      }
    }
  }

  // Outcome j hands m to task t, which does not run again before outcome i.
  ghost predicate HandedAt(outs: seq<Outcome>, j: nat, i: nat, t: nat, m: Message) {
    && j < i <= |outs| && HandOff(outs[j]) == Some((t, m))
    && forall k: nat :: j < k < i ==> !(outs[k].HandedOver? && outs[k].task == t)
  }

  // What a task carries was handed to it, and it has not run since.
  lemma {:induction false} HandedBefore(c: map<nat, Message>, outs: seq<Outcome>, t: nat)
    requires t in CarryingAll(c, outs) && t !in c
    ensures exists j: nat :: HandedAt(outs, j, |outs|, t, CarryingAll(c, outs)[t])
    decreases |outs|
  {
    var n := |outs| - 1;
    var init, m := outs[..n], CarryingAll(c, outs)[t];
    if HandOff(outs[n]).Some? && HandOff(outs[n]).value.0 == t {
      assert HandedAt(outs, n, |outs|, t, m);
    } else {
      HandedBefore(c, init, t);
      var j: nat :| HandedAt(init, j, n, t, CarryingAll(c, init)[t]);
      assert HandedAt(outs, j, |outs|, t, m);
    }
  }

  // A receiver woken by a hand-off returns the message of that hand-off, and of each only once.
  lemma OwnHandOff(c: map<nat, Message>, outs: seq<Outcome>, i: nat)
    requires AllHonest(c, outs) && i < |outs| && outs[i].HandedOver? && outs[i].result.Got? && outs[i].task !in c
    ensures exists j: nat :: HandedAt(outs, j, i, outs[i].task, outs[i].result.mesg)
  {
    var t, m, before := outs[i].task, outs[i].result.mesg, outs[..i];
    assert Honest(CarryingAll(c, before), outs[i]);
    HandedBefore(c, before, t);
    hide HandOff, CarryingAll;
    var j: nat :| HandedAt(before, j, i, t, m);
    assert HandedAt(outs, j, i, t, m);
  }

  // A task that was switched out in a call runs again.
  method Resume(k: Queue, t: nat, timeout: nat, slot: nat) returns (out: Outcome)
    requires k.Inv() && t < |k.task| && !k.task[t].blocked
    modifies k, k.ring, k.ring.buf
    ensures k.Inv() && Explains(old(k.Contents()), Events(out), k.Contents())
    ensures Honest(old(Carried(k.task)), out) && Carried(k.task) == Carrying(old(Carried(k.task)), out)
    ensures old(k.count) > 0 ==>
              || k.InFlight() == old(k.InFlight())
              || (t in old(Targets(k.task)) && Targets(k.task) == old(Targets(k.task)) - {t} && k.mesg == old(k.mesg))
  {
    hide Carried, TasksOk, ReceiversOk, SendersOk, BroadcastOk, NobodyWaits, Explains;
    out := NoCall;
    ghost var was := k.Contents();
    NoEvent(was);
    match k.task[t].pc
    case Idle =>
    case Sending(_, _) =>
      if slot <= |k.senders| {
        var m, jam := k.task[t].pc.mesg, k.task[t].pc.jam;
        var res := k.SendResume(t, timeout, slot);
        out := Sent(m, jam, res);
        OneEvent(was, m);
        Handed(m);
      }
    case Receiving =>
      var res := k.RecvResume(t);
      out := HandedOver(t, res);
    case BroadcastReceiving =>
      var res := k.BroadcastResume(t);
      out := BroadcastTaken(res, k.count == 0);
      Handed(k.mesg);
  }

  // Steps whose precondition does not hold in the present state are skipped. While a broadcast is
  // under way only a target changes it, by taking the message, once.
  method Do(k: Queue, step: Step) returns (out: Outcome)
    requires k.Inv()
    modifies k, k.ring, k.ring.buf
    ensures k.Inv() && Explains(old(k.Contents()), Events(out), k.Contents())
    ensures Honest(old(Carried(k.task)), out) && Carried(k.task) == Carrying(old(Carried(k.task)), out)
    ensures old(k.count) > 0 ==>
              || k.InFlight() == old(k.InFlight())
              || (step.ResumeStep? && step.task in old(Targets(k.task))
                  && Targets(k.task) == old(Targets(k.task)) - {step.task} && k.mesg == old(k.mesg))
  {
    hide Carried;
    hide TasksOk, ReceiversOk, SendersOk, BroadcastOk, NobodyWaits;
    out := NoCall;
    hide Explains;
    ghost var was := k.Contents();
    NoEvent(was);
    match step
    case SendStep(t, m, jam, timeout, slot) =>
      if t < |k.task| && k.task[t].pc == Idle && |m| == k.ring.dataSize && slot <= |k.senders| {
        var res := k.Send(t, m, jam, timeout, slot);
        out := Sent(m, jam, res);
        OneEvent(was, m);
        Handed(m);
      }
    case RecvStep(t, timeout, slot) =>
      if t < |k.task| && k.task[t].pc == Idle && slot <= |k.receivers| {
        var res := k.Recv(t, timeout, slot);
        out := Received(res);
        if res.Got? {
          OneEvent(k.Contents(), res.mesg);
        }
      }
    case OverwriteStep(m) =>
      if |m| == k.ring.dataSize {
        var res := k.PostOverwrite(m);
        out := Overwritten(m, res);
        OneEvent(was, m);
        Handed(m);
      }
    case BroadcastStep(m, jobRoom) =>
      if |m| == k.ring.dataSize {
        var res := k.Broadcast(m, jobRoom);
        out := Broadcasted(m, res);
        Handed(m);
      }
    case BroadcastRecvStep(t, timeout, slot) =>
      if t < |k.task| && k.task[t].pc == Idle && slot <= |k.receivers| {
        var _ := k.BroadcastRecv(t, timeout, slot);
      }
    case ResumeStep(t, timeout, slot) =>
      if t < |k.task| && !k.task[t].blocked {
        out := Resume(k, t, timeout, slot);
      }
    case ExpireStep(t) =>
      if t < |k.task| && k.task[t].blocked && k.task[t].armed {
        k.Expire(t);
      }
    case JobStep =>
      if k.jobs != [] {
        k.RunJob();
      }
  }

  // Over any run the results of the calls explain the contents as those of one deque.
  method Execute(k: Queue, steps: seq<Step>) returns (outs: seq<Outcome>)
    requires k.Inv()
    modifies k, k.ring, k.ring.buf
    ensures k.Inv() && |outs| == |steps|
    ensures Explains(old(k.Contents()), AllEvents(outs), k.Contents())
    ensures AllHonest(old(Carried(k.task)), outs) && Carried(k.task) == CarryingAll(old(Carried(k.task)), outs)
    ensures k.count == |Targets(k.task)| && (k.count > 0 ==> k.Contents() == [k.mesg])
  {
    hide Carried, AllHonest, CarryingAll, Carrying, Honest;
    NoneYet(Carried(k.task));
    hide TasksOk, ReceiversOk, SendersOk, NobodyWaits;
    outs := [];
    for i := 0 to |steps|
      invariant k.Inv() && |outs| == i
      invariant Explains(old(k.Contents()), AllEvents(outs), k.Contents())
      invariant AllHonest(old(Carried(k.task)), outs) && Carried(k.task) == CarryingAll(old(Carried(k.task)), outs)
    {
      ghost var was, before := outs, k.Contents();
      var out := Do(k, steps[i]);
      outs := outs + [out];
      assert outs[..|outs| - 1] == was;
      MoreHonest(old(Carried(k.task)), was, out);
      ExplainsAppend(old(k.Contents()), AllEvents(was), before, Events(out), k.Contents());
    }
  }
}
