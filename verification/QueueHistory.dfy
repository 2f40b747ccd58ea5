// What the results of queue calls mean together: events on a deque.
module QueueHistory {
  import opened MesgQueueState

  datatype Event = Appended(mesg: Message) | Jammed(mesg: Message) | Replaced(mesg: Message) | Taken(mesg: Message)

  // The events lead from contents s to contents s2; what is taken is the first message.
  ghost predicate Explains(s: seq<Message>, h: seq<Event>, s2: seq<Message>)
    decreases |h|
  {
    if h == [] then s2 == s
    else
      var e, rest := h[0], h[1..];
      match e
      case Appended(m) => Explains(s + [m], rest, s2)
      case Jammed(m) => Explains([m] + s, rest, s2)
      case Replaced(m) => Explains([m], rest, s2)
      case Taken(m) => s != [] && s[0] == m && Explains(s[1..], rest, s2)
  }

  lemma {:induction false} ExplainsAppend(s: seq<Message>, h: seq<Event>, s2: seq<Message>,
                                          h2: seq<Event>, s3: seq<Message>)
    requires Explains(s, h, s2) && Explains(s2, h2, s3)
    ensures Explains(s, h + h2, s3)
    decreases |h|
  {
    if h == [] {
      assert h + h2 == h2;
    } else {
      assert (h + h2)[0] == h[0] && (h + h2)[1..] == h[1..] + h2;
      match h[0]
      case Appended(m) => ExplainsAppend(s + [m], h[1..], s2, h2, s3);
      case Jammed(m) => ExplainsAppend([m] + s, h[1..], s2, h2, s3);
      case Replaced(m) => ExplainsAppend([m], h[1..], s2, h2, s3);
      case Taken(m) => ExplainsAppend(s[1..], h[1..], s2, h2, s3);
    }
  }

  // What went in, and what came out, in order.
  function Puts(h: seq<Event>): seq<Message> {
    if h == [] then [] else (if h[0].Taken? then [] else [h[0].mesg]) + Puts(h[1..])
  }

  function Takes(h: seq<Event>): seq<Message> {
    if h == [] then [] else (if h[0].Taken? then [h[0].mesg] else []) + Takes(h[1..])
  }

  // Without jams and overwrites messages come out in the order they went in, and none is lost.
  lemma {:induction false} FirstInFirstOut(s: seq<Message>, h: seq<Event>, s2: seq<Message>)
    requires Explains(s, h, s2) && forall e :: e in h ==> e.Appended? || e.Taken?
    ensures s + Puts(h) == Takes(h) + s2
    decreases |h|
  {
    if h != [] {
      var e, rest := h[0], h[1..];
      assert h == [e] + rest;
      assert e in h;
      if e.Appended? {
        FirstInFirstOut(s + [e.mesg], rest, s2);
        assert s + Puts(h) == (s + [e.mesg]) + Puts(rest);
      } else {
        FirstInFirstOut(s[1..], rest, s2);
        assert s == [e.mesg] + s[1..];
        assert Takes(h) + s2 == [e.mesg] + (Takes(rest) + s2);
        assert s + Puts(h) == [e.mesg] + (s[1..] + Puts(rest));
      }
    }
  }

  // With jams the order may change, but still nothing is lost and nothing comes from nowhere.
  lemma {:induction false} NothingLost(s: seq<Message>, h: seq<Event>, s2: seq<Message>)
    requires Explains(s, h, s2) && forall e :: e in h ==> !e.Replaced?
    ensures multiset(s) + multiset(Puts(h)) == multiset(Takes(h)) + multiset(s2)
    decreases |h|
  {
    if h != [] {
      var e, rest := h[0], h[1..];
      assert h == [e] + rest;
      assert e in h;
      if e.Taken? {
        Front(e.mesg, s[1..]);
        Front(e.mesg, Takes(rest));
        assert s == [e.mesg] + s[1..] && Puts(h) == Puts(rest);
        NothingLost(s[1..], rest, s2);
        Shift(e.mesg, multiset(s[1..]), multiset(Puts(rest)));
        Shift(e.mesg, multiset(Takes(rest)), multiset(s2));
      } else {
        var r := if e.Jammed? then [e.mesg] + s else s + [e.mesg];
        Front(e.mesg, s);
        Front(e.mesg, Puts(rest));
        assert Takes(h) == Takes(rest);
        NothingLost(r, rest, s2);
        Shift(e.mesg, multiset(s), multiset(Puts(rest)));
      }
    }
  }

  lemma Front(m: Message, s: seq<Message>)
    ensures multiset([m] + s) == multiset{m} + multiset(s) == multiset(s + [m])
  {
  }

  lemma Shift(m: Message, a: multiset<Message>, b: multiset<Message>)
    ensures (multiset{m} + a) + b == multiset{m} + (a + b) == a + (multiset{m} + b)
  {
  }

  lemma NoEvent(s: seq<Message>)
    ensures Explains(s, [], s)
  {
  }

  lemma OneEvent(s: seq<Message>, m: Message)
    ensures Explains(s, [Appended(m)], s + [m]) && Explains(s, [Jammed(m)], [m] + s) && Explains(s, [Replaced(m)], [m])
    ensures Explains([m] + s, [Taken(m)], s)
  {
    assert [Taken(m)][1..] == [] && ([m] + s)[1..] == s;
  }

  // A message put into or taken from a queue that is otherwise empty, or handed over at once.
  lemma Handed(m: Message)
    ensures Explains([], [Appended(m)], [m]) && Explains([m], [Taken(m)], [])
    ensures Explains([], [Appended(m), Taken(m)], []) && Explains([], [Replaced(m), Taken(m)], [])
  {
    OneEvent([], m);
    assert [Appended(m), Taken(m)][1..] == [Taken(m)] && [Replaced(m), Taken(m)][1..] == [Taken(m)];
    assert [] + [m] == [m] + [] == [m];
  }
}
