// Tasks around a message queue: waiting senders and receivers, and the mailbox broadcast.
module MesgQueueState {
  import opened Prelude
  import opened Queues

  type Message = seq<int>

  // What the wait record of a task says about its receive.
  datatype Info = Normal | ForBroadcast | BroadcastDeliver | DirectDeliver

  datatype Pc = Idle | Sending(mesg: Message, jam: bool) | Receiving | BroadcastReceiving

  datatype Task = Task(pc: Pc, blocked: bool, timeOut: bool, info: Info, buf: Message, armed: bool)

  // The targets of the broadcast that have not taken it yet.
  ghost function Targets(task: seq<Task>): set<nat> {
    set t: nat | t < |task| && task[t].info == BroadcastDeliver
  }

  // The messages handed to receivers that have not run again yet.
  ghost function Carried(task: seq<Task>): map<nat, Message> {
    map t: nat | t < |task| && task[t].info == DirectDeliver :: task[t].buf
  }

  // Handed a message, a receiver runs again with it.
  function Delivered(x: Task, m: Message): Task {
    x.(buf := m, info := DirectDeliver, blocked := false, armed := false)
  }

  // Back in its own code.
  function Freed(x: Task): Task {
    x.(pc := Idle, timeOut := false, info := Normal)
  }

  // The sender that has waited first, if any, has left the list and runs again, not timed out; nobody
  // else has changed.
  ghost predicate SenderWoken(task: seq<Task>, senders: seq<nat>, task2: seq<Task>, senders2: seq<nat>) {
    if senders == [] then task2 == task && senders2 == []
    else
      && senders[0] < |task| && senders2 == senders[1..]
      && task2 == task[senders[0] := task[senders[0]].(blocked := false, armed := false)]
      && !task[senders[0]].timeOut
  }

  ghost predicate TaskOk(x: Task) {
    && (x.pc == Idle ==> !x.blocked && !x.timeOut && x.info == Normal)
    && (x.pc.Sending? ==> x.info == Normal)
    && (x.pc == Receiving ==>
          if x.blocked || x.timeOut then x.info == Normal else x.info == DirectDeliver)
    && (x.pc == BroadcastReceiving ==>
          if x.blocked then x.info in {ForBroadcast, BroadcastDeliver}
          else x.info == (if x.timeOut then ForBroadcast else BroadcastDeliver))
    && (x.blocked ==> !x.timeOut)
    && (x.info == BroadcastDeliver ==> !x.armed)
  }

  ghost predicate TasksOk(task: seq<Task>) {
    forall t: nat :: t < |task| ==> TaskOk(task[t])
  }

  // A waiting list holds, once each, exactly the tasks blocked in its operation.
  ghost predicate ReceiversOk(task: seq<Task>, receivers: seq<nat>) {
    && NoDup(receivers)
    && forall t: nat :: t in receivers <==>
         t < |task| && task[t].blocked && task[t].pc in {Receiving, BroadcastReceiving}
  }

  ghost predicate SendersOk(task: seq<Task>, senders: seq<nat>) {
    && NoDup(senders)
    && forall t: nat :: t in senders <==> t < |task| && task[t].blocked && task[t].pc.Sending?
  }

  // The count of a broadcast equals its targets; while it is positive the mailbox holds exactly the
  // broadcast message. A deferred wake-up is pending exactly while the targets are still linked.
  ghost predicate BroadcastOk(task: seq<Task>, count: nat, contents: seq<Message>, mesg: Message,
                              depth: nat, jobs: seq<nat>)
  {
    && count == |Targets(task)|
    && (count > 0 ==> depth == 1 && contents == [mesg])
    && (if jobs == [] then forall t: nat :: t in Targets(task) ==> !task[t].blocked
        else jobs == [count] && count > 0 && forall t: nat :: t in Targets(task) ==> task[t].blocked)
  }

  // Without a broadcast under way, a receiver waits only for an empty queue.
  ghost predicate NobodyWaits(task: seq<Task>, count: nat, contents: seq<Message>) {
    count == 0 && contents != [] ==> forall t: nat :: t < |task| && task[t].pc == Receiving ==> !task[t].blocked
  }

  // ---- one task changes ------------------------------------------------------------------------

  lemma ReceiversAside(task: seq<Task>, receivers: seq<nat>, t: nat, x: Task)
    requires ReceiversOk(task, receivers) && t < |task|
    requires (task[t].blocked && task[t].pc in {Receiving, BroadcastReceiving})
             <==> (x.blocked && x.pc in {Receiving, BroadcastReceiving})
    ensures ReceiversOk(task[t := x], receivers)
  {
  }

  lemma SendersAside(task: seq<Task>, senders: seq<nat>, t: nat, x: Task)
    requires SendersOk(task, senders) && t < |task|
    requires (task[t].blocked && task[t].pc.Sending?) <==> (x.blocked && x.pc.Sending?)
    ensures SendersOk(task[t := x], senders)
  {
  }

  lemma ReceiverJoins(task: seq<Task>, receivers: seq<nat>, t: nat, x: Task, i: nat)
    requires ReceiversOk(task, receivers) && t < |task| && !task[t].blocked && i <= |receivers|
    requires x.blocked && x.pc in {Receiving, BroadcastReceiving}
    ensures ReceiversOk(task[t := x], InsertAt(receivers, i, t))
  {
    InsertFacts(receivers, i, t);
    hide InsertAt, NoDup;
  }

  lemma ReceiverLeaves(task: seq<Task>, receivers: seq<nat>, t: nat, x: Task)
    requires ReceiversOk(task, receivers) && t in receivers && !x.blocked
    ensures t < |task| && ReceiversOk(task[t := x], Without<nat>(receivers, t))
  {
    WithoutFacts<nat>(receivers, t);
    hide Without, IndexOf, NoDup;
  }

  lemma SenderJoins(task: seq<Task>, senders: seq<nat>, t: nat, x: Task, i: nat)
    requires SendersOk(task, senders) && t < |task| && !task[t].blocked && i <= |senders|
    requires x.blocked && x.pc.Sending?
    ensures SendersOk(task[t := x], InsertAt(senders, i, t))
  {
    InsertFacts(senders, i, t);
    hide InsertAt, NoDup;
  }

  lemma SenderLeaves(task: seq<Task>, senders: seq<nat>, t: nat, x: Task)
    requires SendersOk(task, senders) && t in senders && !x.blocked
    ensures t < |task| && SendersOk(task[t := x], Without<nat>(senders, t))
  {
    WithoutFacts<nat>(senders, t);
    hide Without, IndexOf, NoDup;
  }

  lemma HeadWithout(s: seq<nat>)
    requires s != []
    ensures s[0] in s && Without<nat>(s, s[0]) == s[1..]
  {
  }

  // A change that marks or unmarks nobody leaves the broadcast alone.
  lemma BroadcastAside(task: seq<Task>, count: nat, contents: seq<Message>, contents2: seq<Message>, mesg: Message,
                       depth: nat, jobs: seq<nat>, t: nat, x: Task)
    requires BroadcastOk(task, count, contents, mesg, depth, jobs) && t < |task|
    requires task[t].info != BroadcastDeliver && x.info != BroadcastDeliver
    requires count > 0 ==> contents2 == contents
    ensures BroadcastOk(task[t := x], count, contents2, mesg, depth, jobs) && Targets(task[t := x]) == Targets(task)
  {
    assert Targets(task[t := x]) == Targets(task);
  }

  // A target takes the message.
  lemma TargetServed(task: seq<Task>, count: nat, contents: seq<Message>, mesg: Message, depth: nat, t: nat, x: Task)
    requires BroadcastOk(task, count, contents, mesg, depth, []) && t < |task|
    requires task[t].info == BroadcastDeliver && x.info != BroadcastDeliver
    ensures count > 0 && contents == [mesg] && depth == 1 && Targets(task[t := x]) == Targets(task) - {t}
    ensures BroadcastOk(task[t := x], count - 1, if count == 1 then [] else contents, mesg, depth, [])
  {
    assert t in Targets(task);
    assert Targets(task[t := x]) == Targets(task) - {t};
  }

  // ---- hand-offs -------------------------------------------------------------------------------

  lemma CarriedAside(task: seq<Task>, t: nat, x: Task)
    requires t < |task| && task[t].info != DirectDeliver && x.info != DirectDeliver
    ensures Carried(task[t := x]) == Carried(task)
  {
  }

  lemma CarriedIn(task: seq<Task>, t: nat, x: Task)
    requires t < |task| && task[t].info != DirectDeliver && x.info == DirectDeliver
    ensures t !in Carried(task) && Carried(task[t := x]) == Carried(task)[t := x.buf]
  {
  }

  lemma CarriedOut(task: seq<Task>, t: nat, x: Task)
    requires t < |task| && x.info != DirectDeliver
    ensures Carried(task[t := x]) == Carried(task) - {t}
    ensures t in Carried(task) <==> task[t].info == DirectDeliver
    ensures t in Carried(task) ==> Carried(task)[t] == task[t].buf
  {
  }
}
