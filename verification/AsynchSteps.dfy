// What each move of a block, a message or a waiting task does to the promises of the message system.
module AsynchSteps {
  import opened Prelude
  import opened Queues
  import opened AsynchState

  // ---- the free lists --------------------------------------------------------------------------

  lemma BlockTaken(mesg: seq<Mesg>, free: seq<seq<nat>>, p: nat, y: Mesg)
    requires FreeOk(mesg, free) && p < |free| && free[p] != [] && y.pool == p && y.state != Free
    ensures var x := free[p][0];
            x < |mesg| && mesg[x].state == Free && mesg[x].pool == p
            && FreeOk(mesg[x := y], free[p := free[p][1..]])
  {
    var x := free[p][0];
    TailFacts(free[p]);
    var mesg2, free2 := mesg[x := y], free[p := free[p][1..]];
    forall q: nat, z: nat | q < |free2| && z in free2[q]
      ensures z < |mesg2| && mesg2[z].pool == q && mesg2[z].state == Free
    {
      assert z in free[q];
    }
  }

  lemma BlockReturned(mesg: seq<Mesg>, free: seq<seq<nat>>, x: nat, y: Mesg)
    requires FreeOk(mesg, free) && x < |mesg| && mesg[x].state != Free && y.pool == mesg[x].pool && y.state == Free
    ensures FreeOk(mesg[x := y], free[y.pool := [x] + free[y.pool]])
  {
    var p := y.pool;
    assert x !in free[p];
    var mesg2, free2 := mesg[x := y], free[p := [x] + free[p]];
    forall q: nat, z: nat | q < |free2| && z in free2[q]
      ensures z < |mesg2| && mesg2[z].pool == q && mesg2[z].state == Free
    {
      assert (q == p && z == x) || z in free[q];
    }
  }

  lemma BlockAside(mesg: seq<Mesg>, free: seq<seq<nat>>, x: nat, y: Mesg)
    requires FreeOk(mesg, free) && x < |mesg| && mesg[x].state != Free && y.pool == mesg[x].pool && y.state != Free
    ensures FreeOk(mesg[x := y], free)
  {
    var mesg2 := mesg[x := y];
    forall q: nat, z: nat | q < |free| && z in free[q]
      ensures z < |mesg2| && mesg2[z].pool == q && mesg2[z].state == Free
    {
    }
  }

  // ---- ownership -------------------------------------------------------------------------------

  function Disown(owned: seq<seq<nat>>, o: Option<nat>, x: nat): seq<seq<nat>> {
    if o.Some? && o.value < |owned| && x in owned[o.value] then owned[o.value := Without(owned[o.value], x)] else owned
  }

  function Endow(owned: seq<seq<nat>>, o: Option<nat>, x: nat): seq<seq<nat>> {
    if o.Some? && o.value < |owned| then owned[o.value := owned[o.value] + [x]] else owned
  }

  // The owned lists after x has gone from one owner to another.
  function Moved(owned: seq<seq<nat>>, a: Option<nat>, b: Option<nat>, x: nat): seq<seq<nat>> {
    if a == b then owned else Endow(Disown(owned, a, x), b, x)
  }

  // Message x is in the list of its owner a, once, and in no other.
  ghost predicate ListedOnce(owned: seq<seq<nat>>, a: Option<nat>, x: nat) {
    && (a.Some? ==> a.value < |owned|)
    && (forall t: nat :: t < |owned| ==> NoDup(owned[t]))
    && (forall t: nat :: t < |owned| ==> (x in owned[t] <==> a == Some(t)))
  }

  lemma OwnerLists(mesg: seq<Mesg>, owned: seq<seq<nat>>, x: nat)
    requires OwnedOk(mesg, owned) && x < |mesg|
    ensures ListedOnce(owned, mesg[x].owner, x)
  {
  }

  lemma OwnerMoved(mesg: seq<Mesg>, owned: seq<seq<nat>>, x: nat, y: Mesg)
    requires OwnedOk(mesg, owned) && x < |mesg| && (y.owner.Some? ==> y.owner.value < |owned|)
    requires y.owner.None? <==> y.state == Free
    ensures OwnedOk(mesg[x := y], Moved(owned, mesg[x].owner, y.owner, x))
  {
    if mesg[x].owner != y.owner {
      DisownOk(mesg, owned, x);
      EndowOk(mesg, Disown(owned, mesg[x].owner, x), x, y);
    } else {
      OwnerKept(mesg, owned, x, y);
    }
  }

  lemma OwnerKept(mesg: seq<Mesg>, owned: seq<seq<nat>>, x: nat, y: Mesg)
    requires OwnedOk(mesg, owned) && x < |mesg| && y.owner == mesg[x].owner
    requires y.owner.None? <==> y.state == Free
    ensures OwnedOk(mesg[x := y], owned)
  {
    var mesg2 := mesg[x := y];
    forall t: nat, z: nat | t < |owned| && z in owned[t] ensures z < |mesg2| && mesg2[z].owner == Some(t) {
    }
  }

  // The lists hold exactly the owned blocks but x, which is in none.
  ghost predicate OwnedBut(mesg: seq<Mesg>, owned: seq<seq<nat>>, x: nat) {
    && (forall t: nat :: t < |owned| ==> NoDup(owned[t]))
    && (forall t: nat, z: nat {:trigger z in owned[t]} :: t < |owned| && z in owned[t] ==>
          z != x && z < |mesg| && mesg[z].owner == Some(t))
    && (forall z: nat :: z < |mesg| && z != x && mesg[z].owner.Some? ==>
          mesg[z].owner.value < |owned| && z in owned[mesg[z].owner.value])
    && (forall z: nat :: z < |mesg| && z != x ==> (mesg[z].owner.None? <==> mesg[z].state == Free))
  }

  lemma DisownOk(mesg: seq<Mesg>, owned: seq<seq<nat>>, x: nat)
    requires OwnedOk(mesg, owned) && x < |mesg|
    ensures OwnedBut(mesg, Disown(owned, mesg[x].owner, x), x) && |Disown(owned, mesg[x].owner, x)| == |owned|
  {
    var owned2 := Disown(owned, mesg[x].owner, x);
    if mesg[x].owner.Some? {
      WithoutFacts(owned[mesg[x].owner.value], x);
    }
    hide NoDup, Without, IndexOf;
    forall t: nat, z: nat | t < |owned2| && z in owned2[t] ensures z != x && z < |mesg| && mesg[z].owner == Some(t) {
      assert z in owned[t];
    }
  }

  lemma EndowOk(mesg: seq<Mesg>, owned: seq<seq<nat>>, x: nat, y: Mesg)
    requires OwnedBut(mesg, owned, x) && x < |mesg| && (y.owner.Some? ==> y.owner.value < |owned|)
    requires y.owner.None? <==> y.state == Free
    ensures OwnedOk(mesg[x := y], Endow(owned, y.owner, x))
  {
    var mesg2, owned2 := mesg[x := y], Endow(owned, y.owner, x);
    assert y.owner.Some? ==> x !in owned[y.owner.value];
    forall t: nat, z: nat | t < |owned2| && z in owned2[t] ensures z < |mesg2| && mesg2[z].owner == Some(t) {
      assert z in owned[t] || (y.owner == Some(t) && z == x);
    }
    forall z: nat | z < |mesg2| && mesg2[z].owner.Some?
      ensures mesg2[z].owner.value < |owned2| && z in owned2[mesg2[z].owner.value]
    {
      if z == x {
        assert x in owned[y.owner.value] + [x];
      } else {
        assert z in owned[mesg[z].owner.value];
      }
    }
  }

  // ---- endpoint queues ---------------------------------------------------------------------------

  lemma QueueAppended(mesg: seq<Mesg>, queue: seq<seq<nat>>, x: nat, y: Mesg, r: nat)
    requires QueuedOk(mesg, queue) && x < |mesg| && mesg[x].state != Queued && r < |queue|
    requires y.state == Queued && y.owner == Some(r)
    ensures QueuedOk(mesg[x := y], queue[r := queue[r] + [x]])
  {
    assert x !in queue[r];
    var mesg2, queue2 := mesg[x := y], queue[r := queue[r] + [x]];
    forall t: nat, z: nat | t < |queue2| && z in queue2[t]
      ensures z < |mesg2| && mesg2[z].state == Queued && mesg2[z].owner == Some(t)
    {
      assert z in queue[t] || (t == r && z == x);
    }
  }

  lemma QueueRemoved(mesg: seq<Mesg>, queue: seq<seq<nat>>, x: nat, y: Mesg, r: nat)
    requires QueuedOk(mesg, queue) && r < |queue| && x in queue[r] && y.state != Queued
    ensures x < |mesg| && mesg[x].state == Queued && mesg[x].owner == Some(r)
    ensures QueuedOk(mesg[x := y], queue[r := Without(queue[r], x)])
  {
    WithoutFacts(queue[r], x);
    hide Without, IndexOf, NoDup;
    var mesg2, queue2 := mesg[x := y], queue[r := Without(queue[r], x)];
    forall t: nat, z: nat | t < |queue2| && z in queue2[t]
      ensures z < |mesg2| && mesg2[z].state == Queued && mesg2[z].owner == Some(t)
    {
      assert z in queue[t];
      assert x in queue[t] ==> mesg[x].owner == Some(t);
    }
  }

  lemma QueueAside(mesg: seq<Mesg>, queue: seq<seq<nat>>, x: nat, y: Mesg)
    requires QueuedOk(mesg, queue) && x < |mesg| && mesg[x].state != Queued && y.state != Queued
    ensures QueuedOk(mesg[x := y], queue)
  {
    var mesg2 := mesg[x := y];
    forall t: nat, z: nat | t < |queue| && z in queue[t]
      ensures z < |mesg2| && mesg2[z].state == Queued && mesg2[z].owner == Some(t)
    {
    }
  }

  // ---- waiting allocators ------------------------------------------------------------------------

  lemma AllocatorBlocked(free: seq<seq<nat>>, waiters: seq<seq<nat>>, cl: seq<Client>, p: nat, w: nat, i: nat)
    requires AllocatorsOk(free, waiters, cl) && p < |waiters| && free[p] == [] && w < |cl| && !cl[w].blocked
    requires i <= |waiters[p]|
    ensures AllocatorsOk(free, waiters[p := InsertAt(waiters[p], i, w)],
                         cl[w := Client(Allocating(p), true, false, None)])
  {
    assert w !in waiters[p];
    InsertFacts(waiters[p], i, w);
    hide InsertAt, NoDup;
    var waiters2, cl2 := waiters[p := InsertAt(waiters[p], i, w)], cl[w := Client(Allocating(p), true, false, None)];
    forall q: nat, v: nat | q < |waiters2| && v in waiters2[q]
      ensures v < |cl2| && cl2[v].blocked && cl2[v].pc == Allocating(q)
    {
      assert v in waiters[q] || (q == p && v == w);
    }
  }

  lemma AllocatorLeft(free: seq<seq<nat>>, waiters: seq<seq<nat>>, cl: seq<Client>, p: nat, w: nat, x: Client)
    requires AllocatorsOk(free, waiters, cl) && p < |waiters| && w in waiters[p] && !x.blocked
    ensures w < |cl| && cl[w].blocked && cl[w].pc == Allocating(p)
    ensures AllocatorsOk(free, waiters[p := Without(waiters[p], w)], cl[w := x])
  {
    WithoutFacts(waiters[p], w);
    hide Without, IndexOf, NoDup;
    var waiters2, cl2 := waiters[p := Without(waiters[p], w)], cl[w := x];
    forall q: nat, v: nat | q < |waiters2| && v in waiters2[q]
      ensures v < |cl2| && cl2[v].blocked && cl2[v].pc == Allocating(q)
    {
      assert v in waiters[q];
      assert w in waiters[q] ==> cl[w].pc == Allocating(q);
    }
  }

  lemma AllocatorsAside(free: seq<seq<nat>>, waiters: seq<seq<nat>>, cl: seq<Client>, c: nat, x: Client)
    requires AllocatorsOk(free, waiters, cl) && c < |cl|
    requires !(cl[c].blocked && cl[c].pc.Allocating?) && !(x.blocked && x.pc.Allocating?)
    ensures AllocatorsOk(free, waiters, cl[c := x])
  {
    hide NoDup;
    var cl2 := cl[c := x];
    forall q: nat, v: nat | q < |waiters| && v in waiters[q]
      ensures v < |cl2| && cl2[v].blocked && cl2[v].pc == Allocating(q)
    {
    }
  }

  // ---- order ---------------------------------------------------------------------------------------

  lemma ByAppend(a: seq<Letter>, l: Letter, s: nat)
    ensures By(a + [l], s) == By(a, s) + (if l.sender == s then [l] else [])
  {
    assert (a + [l])[..|a|] == a;
  }

  lemma {:induction false} ByConcat(a: seq<Letter>, b: seq<Letter>, s: nat)
    ensures By(a + b, s) == By(a, s) + By(b, s)
  {
    if b == [] {
      assert a + b == a;
    } else {
      var c := b[..|b| - 1];
      assert a + b == (a + c) + [b[|b| - 1]];
      assert b == c + [b[|b| - 1]];
      ByConcat(a, c, s);
      ByAppend(a + c, b[|b| - 1], s);
      ByAppend(c, b[|b| - 1], s);
    }
  }

  ghost predicate Within(mesg: seq<Mesg>, queue: seq<nat>) {
    forall i: nat :: i < |queue| ==> queue[i] < |mesg|
  }

  lemma LettersAppend(mesg: seq<Mesg>, queue: seq<nat>, x: nat)
    requires Within(mesg, queue) && x < |mesg|
    ensures Within(mesg, queue + [x]) && LettersOf(mesg, queue + [x]) == LettersOf(mesg, queue) + [mesg[x].letter]
  {
    assert (queue + [x])[..|queue|] == queue;
  }

  lemma {:induction false} LettersConcat(mesg: seq<Mesg>, a: seq<nat>, b: seq<nat>)
    requires Within(mesg, a) && Within(mesg, b)
    ensures Within(mesg, a + b) && LettersOf(mesg, a + b) == LettersOf(mesg, a) + LettersOf(mesg, b)
  {
    if b == [] {
      assert a + b == a;
    } else {
      var c := b[..|b| - 1];
      assert a + b == (a + c) + [b[|b| - 1]];
      assert b == c + [b[|b| - 1]];
      LettersConcat(mesg, a, c);
      LettersAppend(mesg, a + c, b[|b| - 1]);
      LettersAppend(mesg, c, b[|b| - 1]);
    }
  }

  lemma {:induction false} LettersSame(mesg: seq<Mesg>, mesg2: seq<Mesg>, queue: seq<nat>)
    requires Within(mesg, queue) && |mesg2| == |mesg|
    requires forall i: nat :: i < |queue| ==> mesg2[queue[i]].letter == mesg[queue[i]].letter
    ensures LettersOf(mesg2, queue) == LettersOf(mesg, queue)
  {
    if queue != [] {
      LettersSame(mesg, mesg2, queue[..|queue| - 1]);
    }
  }

  lemma {:induction false} NoneBy(mesg: seq<Mesg>, queue: seq<nat>, s: nat)
    requires Within(mesg, queue)
    requires forall i: nat :: i < |queue| ==> mesg[queue[i]].letter.sender != s
    ensures By(LettersOf(mesg, queue), s) == []
  {
    if queue != [] {
      var init := queue[..|queue| - 1];
      NoneBy(mesg, init, s);
      ByAppend(LettersOf(mesg, init), mesg[queue[|queue| - 1]].letter, s);
    }
  }

  lemma BySplit(a: seq<Letter>, l: Letter, b: seq<Letter>, s: nat)
    ensures By((a + [l]) + b, s) == (By(a, s) + (if l.sender == s then [l] else [])) + By(b, s)
    ensures By(a + b, s) == By(a, s) + By(b, s)
  {
    ByConcat(a + [l], b, s);
    ByAppend(a, l, s);
    ByConcat(a, b, s);
  }

  lemma LettersSplit(mesg: seq<Mesg>, a: seq<nat>, x: nat, b: seq<nat>)
    requires Within(mesg, a) && Within(mesg, b) && x < |mesg|
    ensures Within(mesg, (a + [x]) + b) && Within(mesg, a + b)
    ensures LettersOf(mesg, (a + [x]) + b) == (LettersOf(mesg, a) + [mesg[x].letter]) + LettersOf(mesg, b)
    ensures LettersOf(mesg, a + b) == LettersOf(mesg, a) + LettersOf(mesg, b)
  {
    LettersAppend(mesg, a, x);
    LettersConcat(mesg, a + [x], b);
    LettersConcat(mesg, a, b);
  }

  // The oldest match is, for its sender, the first letter in the queue.
  lemma OldestFirst(mesg: seq<Mesg>, a: seq<nat>, x: nat, b: seq<nat>, f: Filter, s: nat)
    requires Within(mesg, a) && Within(mesg, b) && x < |mesg| && Matches(f, mesg[x].letter.sender)
    requires NothingFor(mesg, a, f)
    ensures Within(mesg, (a + [x]) + b) && Within(mesg, a + b)
    ensures var l := mesg[x].letter;
            By(LettersOf(mesg, (a + [x]) + b), s)
              == (if l.sender == s then [l] else []) + By(LettersOf(mesg, a + b), s)
  {
    hide By, LettersOf;
    var l := mesg[x].letter;
    LettersSplit(mesg, a, x, b);
    var pa, pb := By(LettersOf(mesg, a), s), By(LettersOf(mesg, b), s);
    BySplit(LettersOf(mesg, a), l, LettersOf(mesg, b), s);
    if l.sender == s {
      NoneBy(mesg, a, s);
      assert ([] + [l]) + pb == [l] + ([] + pb);
    } else {
      assert (pa + []) + pb == [] + (pa + pb);
    }
  }

  // A message that lies in no queue changes, or one changes without getting another letter.
  lemma FifoAside(mesg: seq<Mesg>, queue: seq<seq<nat>>, sent: seq<seq<Letter>>, got: seq<seq<Letter>>,
                  x: nat, y: Mesg)
    requires FifoOk(mesg, queue, sent, got) && x < |mesg|
    requires y.letter == mesg[x].letter || forall r: nat :: r < |queue| ==> x !in queue[r]
    ensures FifoOk(mesg[x := y], queue, sent, got)
    ensures forall r: nat :: r < |queue| ==> LettersOf(mesg[x := y], queue[r]) == LettersOf(mesg, queue[r])
  {
    hide By, LettersOf;
    forall r: nat | r < |queue| ensures LettersOf(mesg[x := y], queue[r]) == LettersOf(mesg, queue[r]) {
      assert forall i: nat :: i < |queue[r]| ==> queue[r][i] in queue[r];
      LettersSame(mesg, mesg[x := y], queue[r]);
    }
  }

  // A letter is sent and queued.
  lemma FifoQueued(mesg: seq<Mesg>, queue: seq<seq<nat>>, sent: seq<seq<Letter>>, got: seq<seq<Letter>>,
                   x: nat, y: Mesg, r: nat)
    requires FifoOk(mesg, queue, sent, got) && x < |mesg| && r < |queue|
    requires forall q: nat :: q < |queue| ==> x !in queue[q]
    ensures FifoOk(mesg[x := y], queue[r := queue[r] + [x]], sent[r := sent[r] + [y.letter]], got)
  {
    var mesg2, queue2, sent2 := mesg[x := y], queue[r := queue[r] + [x]], sent[r := sent[r] + [y.letter]];
    FifoAside(mesg, queue, sent, got, x, y);
    LettersAppend(mesg2, queue[r], x);
    hide By, LettersOf;
    forall q: nat, s: nat | q < |queue2|
      ensures By(sent2[q], s) == By(got[q], s) + By(LettersOf(mesg2, queue2[q]), s)
    {
      if q == r {
        ByAppend(sent[r], y.letter, s);
        ByAppend(LettersOf(mesg2, queue[r]), y.letter, s);
        var g, b := By(got[r], s), By(LettersOf(mesg, queue[r]), s);
        assert By(sent[r], s) == g + b;
        var l := if y.letter.sender == s then [y.letter] else [];
        assert (g + b) + l == g + (b + l);
      }
    }
  }

  // A letter is sent and taken at once by a receiver that waits for it.
  lemma FifoDirect(mesg: seq<Mesg>, queue: seq<seq<nat>>, sent: seq<seq<Letter>>, got: seq<seq<Letter>>,
                   x: nat, y: Mesg, r: nat, f: Filter)
    requires FifoOk(mesg, queue, sent, got) && x < |mesg| && r < |queue|
    requires forall q: nat :: q < |queue| ==> x !in queue[q]
    requires NothingFor(mesg, queue[r], f) && Matches(f, y.letter.sender)
    ensures FifoOk(mesg[x := y], queue, sent[r := sent[r] + [y.letter]], got[r := got[r] + [y.letter]])
  {
    var l := y.letter;
    var mesg2, sent2, got2 := mesg[x := y], sent[r := sent[r] + [l]], got[r := got[r] + [l]];
    FifoAside(mesg, queue, sent, got, x, y);
    hide By, LettersOf;
    forall q: nat, s: nat | q < |queue|
      ensures By(sent2[q], s) == By(got2[q], s) + By(LettersOf(mesg2, queue[q]), s)
    {
      if q == r {
        ByAppend(sent[r], l, s);
        ByAppend(got[r], l, s);
        assert By(sent[r], s) == By(got[r], s) + By(LettersOf(mesg, queue[r]), s);
        if l.sender == s {
          NoneBy(mesg, queue[r], s);
        }
      }
    }
  }

  // The oldest match is taken out of the queue.
  lemma FifoTaken(mesg: seq<Mesg>, queue: seq<seq<nat>>, sent: seq<seq<Letter>>, got: seq<seq<Letter>>,
                  a: seq<nat>, x: nat, b: seq<nat>, y: Mesg, r: nat, f: Filter)
    requires FifoOk(mesg, queue, sent, got) && r < |queue| && queue[r] == (a + [x]) + b
    requires x < |mesg| && y.letter == mesg[x].letter && Matches(f, y.letter.sender) && NothingFor(mesg, a, f)
    ensures FifoOk(mesg[x := y], queue[r := a + b], sent, got[r := got[r] + [y.letter]])
  {
    var l := y.letter;
    var mesg2, queue2, got2 := mesg[x := y], queue[r := a + b], got[r := got[r] + [l]];
    FifoAside(mesg, queue, sent, got, x, y);
    InParts(mesg, a, x, b);
    LettersSame(mesg, mesg2, a + b);
    hide By, LettersOf;
    forall q: nat, s: nat | q < |queue2|
      ensures By(sent[q], s) == By(got2[q], s) + By(LettersOf(mesg2, queue2[q]), s)
    {
      if q == r {
        ByAppend(got[r], l, s);
        OldestFirst(mesg, a, x, b, f, s);
        assert By(sent[r], s) == By(got[r], s) + By(LettersOf(mesg, queue[r]), s);
      }
    }
  }

  lemma InParts(mesg: seq<Mesg>, a: seq<nat>, x: nat, b: seq<nat>)
    requires Within(mesg, (a + [x]) + b)
    ensures Within(mesg, a) && Within(mesg, b) && Within(mesg, a + b)
  {
    forall i: nat | i < |a| ensures a[i] < |mesg| {
      assert ((a + [x]) + b)[i] == a[i];
    }
    forall i: nat | i < |b| ensures b[i] < |mesg| {
      assert ((a + [x]) + b)[|a| + 1 + i] == b[i];
    }
  }

  // ---- waiting receivers -----------------------------------------------------------------------------

  lemma ReceiversAside(mesg: seq<Mesg>, queue: seq<seq<nat>>, cl: seq<Client>, x: nat, y: Mesg)
    requires ReceiversOk(mesg, queue, cl) && x < |mesg|
    requires y.letter == mesg[x].letter || forall r: nat :: r < |queue| ==> x !in queue[r]
    ensures ReceiversOk(mesg[x := y], queue, cl)
  {
    forall r: nat | r < |cl| && cl[r].blocked && cl[r].pc.Receiving?
      ensures NothingFor(mesg[x := y], queue[r], cl[r].pc.filter)
    {
      assert forall i: nat :: i < |queue[r]| ==> queue[r][i] in queue[r];
    }
  }

  // A message arrives that the receiver, if it waits, does not wait for.
  lemma ReceiversQueued(mesg: seq<Mesg>, queue: seq<seq<nat>>, cl: seq<Client>, x: nat, y: Mesg, r: nat)
    requires ReceiversOk(mesg, queue, cl) && x < |mesg| && r < |queue|
    requires forall q: nat :: q < |queue| ==> x !in queue[q]
    requires cl[r].blocked && cl[r].pc.Receiving? ==> !Matches(cl[r].pc.filter, y.letter.sender)
    ensures ReceiversOk(mesg[x := y], queue[r := queue[r] + [x]], cl)
  {
    ReceiversAside(mesg, queue, cl, x, y);
  }

  lemma ReceiversClient(mesg: seq<Mesg>, queue: seq<seq<nat>>, cl: seq<Client>, c: nat, x: Client)
    requires ReceiversOk(mesg, queue, cl) && c < |cl|
    requires x.blocked && x.pc.Receiving? ==> NothingFor(mesg, queue[c], x.pc.filter)
    ensures ReceiversOk(mesg, queue, cl[c := x])
  {
  }

  lemma ReceiversTaken(mesg: seq<Mesg>, queue: seq<seq<nat>>, cl: seq<Client>, r: nat, q: seq<nat>, x: nat, y: Mesg)
    requires ReceiversOk(mesg, queue, cl) && r < |cl| && !cl[r].blocked && x < |mesg| && y.letter == mesg[x].letter
    ensures ReceiversOk(mesg[x := y], queue[r := q], cl)
  {
    ReceiversAside(mesg, queue, cl, x, y);
  }
}
