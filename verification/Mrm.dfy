// Most-recent-message buffers: one writer publishes, readers borrow the current buffer and give it
// back. Control blocks and data blocks come from two pools used in step.
module Mrm {
  import opened Prelude

  type Message = seq<int>

  function Sum(users: seq<nat>): nat {
    if users == [] then 0 else users[|users| - 1] + Sum(users[..|users| - 1])
  }

  lemma {:induction false} SumUpdate(users: seq<nat>, b: nat, v: nat)
    requires b < |users|
    ensures Sum(users[b := v]) == Sum(users) - users[b] + v
  {
    var n := |users| - 1;
    if b == n {
      assert users[b := v][..n] == users[..n];
    } else {
      assert users[b := v][..n] == users[..n][b := v];
      SumUpdate(users[..n], b, v);
    }
  }

  lemma {:induction false} SumAtLeast(users: seq<nat>)
    requires forall b: nat :: b < |users| ==> users[b] >= 1
    ensures Sum(users) >= |users|
  {
    if users != [] {
      SumAtLeast(users[..|users| - 1]);
    }
  }

  function Zeros(n: nat): Message {
    seq(n, _ => 0)
  }

  class Buffers {
    const size: nat                // words of a message
    var users: seq<nat>            // borrow count of each buffer
    var data: seq<nat>             // its data block
    var bufFree: seq<nat>          // free lists of the two pools
    var dataFree: seq<nat>
    var words: seq<Message>        // contents of the data blocks
    var curr: Option<nat>
    ghost var published: Message   // the last published message
    ghost var reused: bool         // the current buffer has been reserved again since

    ghost predicate PoolsOk()
      reads `users, `data, `words, `bufFree, `dataFree
    {
      && |users| == |data| == |words| && |bufFree| == |dataFree|
      && NoDup(bufFree) && NoDup(dataFree)
      && (forall b: nat :: b in bufFree ==> b < |users| && users[b] == 0)
      && (forall d: nat :: d in dataFree ==> d < |words|)
    }

    // Every buffer in use has a data block of its own.
    ghost predicate PairsOk()
      reads `data, `words, `bufFree, `dataFree
    {
      && |data| == |words|
      && (forall b: nat :: b < |data| && b !in bufFree ==> data[b] < |words| && data[b] !in dataFree)
      && (forall b: nat, c: nat :: b < c < |data| && b !in bufFree && c !in bufFree ==> data[b] != data[c])
      && (forall d: nat :: d < |words| ==> |words[d]| == size)
    }

    ghost predicate Valid()
      reads this
    {
      && PoolsOk() && PairsOk()
      && (curr.Some? ==>
            curr.value < |users| && curr.value !in bufFree
            && ContentsOf(curr.value) == if reused then Zeros(size) else published)
    }

    ghost function ContentsOf(b: nat): Message
      reads `data, `words
    {
      if b < |data| && data[b] < |words| then words[data[b]] else []
    }

    // A buffer in use that is neither current nor borrowed: only the writer that reserved it knows it.
    ghost function Stranded(): set<nat>
      reads this
    {
      set b: nat | b < |users| && b !in bufFree && users[b] == 0 && curr != Some(b)
    }

    constructor (nBufs: nat, words_: nat)
      ensures Valid() && |users| == nBufs && size == words_ && curr == None && Stranded() == {} && Sum(users) == 0
    {
      size := words_;
      users, data := seq(nBufs, _ => 0), seq(nBufs, _ => 0);
      bufFree := seq(nBufs, i requires 0 <= i < nBufs => i);
      dataFree := seq(nBufs, i requires 0 <= i < nBufs => i);
      words := seq(nBufs, _ => Zeros(words_));
      curr, published, reused := None, [], false;
      new;
      forall b: nat | b < nBufs ensures b in bufFree {
        assert bufFree[b] == b;
      }
      ZeroSum(nBufs);
    }

    // A control block and its data block.
    method AllocPair() returns (p: Option<nat>)
      requires Valid()
      modifies this`users, this`data, this`bufFree, this`dataFree
      ensures Valid() && (p == None <==> old(bufFree) == [])
      ensures p == None ==>
                users == old(users) && data == old(data) && bufFree == old(bufFree) && dataFree == old(dataFree)
      ensures p.Some? ==>
                && p.value == old(bufFree)[0] && p.value !in bufFree && p.value < |users|
                && users == old(users) && bufFree == old(bufFree)[1..] && curr != p
                && Stranded() == old(Stranded()) + {p.value}
                && p.value in old(bufFree) && p.value < |old(data)| && |old(dataFree)| > 0
                && data == old(data)[p.value := old(dataFree)[0]] && dataFree == old(dataFree)[1..]
    {
      if |bufFree| == 0 {
        return None;
      }
      var b := bufFree[0];
      TailFacts(bufFree);
      TailFacts(dataFree);
      bufFree := bufFree[1..];
      assert users[b] == 0;
      users := users[b := 0];
      // the pools are used in step, so the data pool has a block as well
      var d := dataFree[0];
      dataFree := dataFree[1..];
      data := data[b := d];
      return Some(b);
    }

    method Release(b: nat)
      requires PoolsOk() && PairsOk() && b < |users| && b !in bufFree && users[b] == 0 && curr != Some(b)
      modifies this`bufFree, this`dataFree
      ensures PoolsOk() && PairsOk() && bufFree == [b] + old(bufFree) && Stranded() == old(Stranded()) - {b}
      ensures dataFree == [data[b]] + old(dataFree)
    {
      dataFree := [data[b]] + dataFree;
      bufFree := [b] + bufFree;
    }

    // Overwrite the data block of a buffer in use; no other buffer shares it.
    method WriteData(b: nat, m: Message)
      requires PoolsOk() && PairsOk() && b < |users| && b !in bufFree && |m| == size
      modifies this`words
      ensures PoolsOk() && PairsOk() && ContentsOf(b) == m && data[b] < |words|
      ensures forall c: nat :: c < |users| && c !in bufFree && c != b ==> ContentsOf(c) == old(ContentsOf(c))
    {
      forall c: nat | c < |users| && c !in bufFree && c != b ensures data[b] != data[c] {
        assert b < c || c < b;
      }
      words := words[data[b] := m];
    }

    // A buffer to write the next message into.
    method Reserve() returns (p: Option<nat>)
      requires Valid()
      modifies this
      ensures Valid() && users == old(users) && curr == old(curr) && published == old(published)
      ensures p.Some? ==> p.value < |users| && p.value !in bufFree && users[p.value] == 0
      ensures p.Some? ==> Stranded() <= old(Stranded()) + {p.value}
      ensures p == None ==> Stranded() == old(Stranded())
      // with no stranded buffer and a buffer more than there are borrowers, there always is one
      ensures old(Stranded()) == {} && Sum(users) < |users| ==> p.Some?
      // borrowed buffers keep their contents
      ensures forall b: nat :: b < |users| && b !in old(bufFree) && old(users)[b] > 0 ==>
                b !in bufFree && ContentsOf(b) == old(ContentsOf(b))
      // a current buffer that nobody borrows is the one reserved, and its message is wiped
      ensures old(curr).Some? && users[old(curr).value] == 0 ==>
                && reused && p == curr && ContentsOf(p.value) == Zeros(size)
                && bufFree == old(bufFree) && dataFree == old(dataFree) && data == old(data)
      ensures !(old(curr).Some? && users[old(curr).value] == 0) ==>
                && reused == old(reused) && words == old(words)
                && p == (if old(bufFree) == [] then None else Some(old(bufFree)[0]))
                && bufFree == (if old(bufFree) == [] then [] else old(bufFree)[1..])
                && (old(bufFree) == [] ==> data == old(data) && dataFree == old(dataFree))
                && (old(bufFree) != [] ==>
                      old(dataFree) != [] && p.value < |old(data)|
                      && data == old(data)[p.value := old(dataFree)[0]] && dataFree == old(dataFree)[1..])
    {
      hide PoolsOk, PairsOk;
      if curr.Some? && users[curr.value] == 0 {
        var c := curr.value;
        WriteData(c, Zeros(size));
        reused := true;
        return Some(c);
      }
      p := AllocPair();
      if p == None {
        NoneLeft();
      }
    }

    // The current buffer goes back to the pools.
    method DropCurrent()
      requires Valid() && curr.Some? && users[curr.value] == 0
      modifies this`curr, this`bufFree, this`dataFree
      ensures Valid() && curr == None && bufFree == [old(curr).value] + old(bufFree)
      ensures Stranded() == old(Stranded())
      ensures old(curr).value < |data| && dataFree == [data[old(curr).value]] + old(dataFree)
    {
      hide PoolsOk, PairsOk;
      var c := curr.value;
      curr := None;
      Release(c);
    }

    // Publish the message in a buffer nobody borrows; the buffer it replaces goes back when nobody
    // borrows that one either.
    method Publish(b: nat, m: Message) returns (ok: bool)
      requires Valid() && |m| == size
      modifies this
      ensures Valid() && users == old(users)
      ensures ok <==> b < |users| && b !in old(bufFree) && users[b] == 0
      ensures ok ==> curr == Some(b) && published == m && !reused && Stranded() == old(Stranded()) - {b}
      ensures !ok ==>
                curr == old(curr) && published == old(published) && reused == old(reused) && bufFree == old(bufFree)
                && words == old(words) && Stranded() == old(Stranded())
      ensures forall c: nat :: c < |users| && c !in old(bufFree) && users[c] > 0 ==>
                c !in bufFree && ContentsOf(c) == old(ContentsOf(c))
      ensures data == old(data)
      ensures var c, drop := old(curr), ok && old(curr).Some? && old(curr) != Some(b) && users[old(curr).value] == 0;
              && bufFree == (if drop then [c.value] + old(bufFree) else old(bufFree))
              && (drop ==> c.value < |data|)
              && dataFree == (if drop then [data[c.value]] + old(dataFree) else old(dataFree))
    {
      hide PoolsOk, PairsOk, ContentsOf, Stranded;
      if b >= |users| || b in bufFree || users[b] != 0 {
        return false;
      }
      if curr.Some? && curr != Some(b) && users[curr.value] == 0 {
        DropCurrent();
      }
      MakeCurrent(b, m);
      return true;
    }

    method MakeCurrent(b: nat, m: Message)
      requires Valid() && |m| == size && b < |users| && b !in bufFree && users[b] == 0
      requires curr.None? || curr == Some(b) || users[curr.value] > 0
      modifies this`words, this`curr, this`published, this`reused
      ensures Valid() && curr == Some(b) && published == m && !reused && Stranded() == old(Stranded()) - {b}
      ensures forall c: nat :: c < |users| && c !in bufFree && users[c] > 0 ==> ContentsOf(c) == old(ContentsOf(c))
    {
      hide PoolsOk, PairsOk, ContentsOf;
      WriteData(b, m);
      curr := Some(b);
      published, reused := m, false;
    }

    method SetUsers(b: nat, v: nat)
      requires PoolsOk() && b < |users| && b !in bufFree
      modifies this`users
      ensures PoolsOk() && users == old(users)[b := v] && Sum(users) == old(Sum(users)) - old(users)[b] + v
    {
      SumUpdate(users, b, v);
      users := users[b := v];
    }

    // Borrow the current buffer and copy its message.
    method Get() returns (p: Option<nat>, m: Message)
      requires Valid()
      modifies this`users
      ensures Valid() && p == curr && Stranded() == old(Stranded()) && |users| == |old(users)|
      ensures p.Some? ==>
                && p.value < |users| && users == old(users)[p.value := old(users)[p.value] + 1]
                && Sum(users) == old(Sum(users)) + 1
                && m == if reused then Zeros(size) else published
      ensures p == None ==> users == old(users)
    {
      if curr == None {
        return None, [];
      }
      var c := curr.value;
      SetUsers(c, users[c] + 1);
      return Some(c), words[data[c]];
    }

    // Give a borrowed buffer back; the last borrower of one that is not current frees it.
    method Unget(b: nat) returns (ok: bool)
      requires Valid()
      modifies this`users, this`bufFree, this`dataFree
      ensures Valid() && |users| == |old(users)| && Stranded() == old(Stranded())
      ensures ok <==> b < |users| && b !in old(bufFree) && old(users)[b] > 0
      ensures ok ==> users == old(users)[b := old(users)[b] - 1] && Sum(users) == old(Sum(users)) - 1
      ensures ok ==> bufFree == if users[b] == 0 && curr != Some(b) then [b] + old(bufFree) else old(bufFree)
      ensures !ok ==> users == old(users) && bufFree == old(bufFree) && dataFree == old(dataFree)
      ensures ok ==>
                dataFree == if users[b] == 0 && curr != Some(b) then [old(data)[b]] + old(dataFree) else old(dataFree)
    {
      hide PairsOk, ContentsOf, Sum;
      if b >= |users| || b in bufFree || users[b] == 0 {
        return false;
      }
      SetUsers(b, users[b] - 1);
      if users[b] == 0 && curr != Some(b) {
        Release(b);
      }
      return true;
    }

    lemma NoneLeft()
      requires Valid() && bufFree == [] && (curr.Some? ==> users[curr.value] > 0)
      ensures Stranded() == {} ==> Sum(users) >= |users|
    {
      if Stranded() == {} {
        forall b: nat | b < |users| ensures users[b] >= 1 {
          assert b !in Stranded();
        }
        SumAtLeast(users);
      }
    }
  }

  // ---- reading back ----------------------------------------------------------------------------

  datatype ReaderStep = Borrow | GiveBack(buffer: nat)

  // Whatever readers do, the last published message stays the last and is not reused.
  method Readers(k: Buffers, steps: seq<ReaderStep>)
    requires k.Valid()
    modifies k`users, k`bufFree, k`dataFree
    ensures k.Valid() && |k.users| == |old(k.users)| && (steps == [] ==> k.users == old(k.users))
  {
    hide Buffers.PoolsOk, Buffers.PairsOk, Buffers.Stranded, Sum;
    for i := 0 to |steps|
      invariant k.Valid() && |k.users| == |old(k.users)| && (i == 0 ==> k.users == old(k.users))
    {
      match steps[i]
      case Borrow => var _, _ := k.Get();
      case GiveBack(b) => var _ := k.Unget(b);
    }
  }

  // Reserve, and read back, with any readers before the reader that looks. When no reservation has
  // wiped the last published message before, it is read exactly when its buffer was borrowed at this
  // one, or it is all zeros to begin with.
  method ReserveThenGet(k: Buffers, after: seq<ReaderStep>) returns (latest: Message)
    requires k.Valid() && k.curr.Some? && k.curr.value < |k.users|
    modifies k
    ensures k.Valid() && k.curr == old(k.curr) && k.published == old(k.published)
    ensures !old(k.reused) ==>
              (latest == old(k.published) <==>
                 old(k.users)[old(k.curr).value] > 0 || old(k.published) == Zeros(k.size))
    ensures old(k.reused) || old(k.users)[old(k.curr).value] == 0 ==> latest == Zeros(k.size)
  {
    hide Buffers.PoolsOk, Buffers.PairsOk, Buffers.Stranded, Sum;
    var _ := k.Reserve();
    Readers(k, after);
    var p;
    p, latest := k.Get();
  }

  // The writer publishes 7 and reserves again; a reader gets 0.
  method ReservedTooEarly(k: Buffers, b: nat) returns (latest: Message)
    requires k.Valid() && k.size == 1 && b < |k.users| && b !in k.bufFree && k.users[b] == 0
    modifies k
    ensures k.Valid() && k.curr == Some(b) && k.published == [7] && latest == [0]
  {
    hide Buffers.PoolsOk, Buffers.PairsOk, Buffers.Stranded, Sum;
    var _ := k.Publish(b, [7]);
    assert Zeros(1) == [0];
    latest := ReserveThenGet(k, []);
  }

  // ---- runs ------------------------------------------------------------------------------------

  datatype Step = Reserving | Publishing(mesg: Message) | Getting | Ungetting(buffer: nat)

  // The writer has reserved a buffer that it has not published yet.
  predicate Writing(steps: seq<Step>) {
    steps != [] && var last := steps[|steps| - 1];
    last.Reserving? || (!last.Publishing? && Writing(steps[..|steps| - 1]))
  }

  // No reader borrows while the writer has a buffer reserved.
  ghost predicate Undisturbed(steps: seq<Step>) {
    forall i: nat :: i < |steps| && steps[i].Getting? ==> !Writing(steps[..i])
  }

  // One writer that publishes each buffer it reserved, and readers that hold at most r buffers: with
  // r + 1 buffers no reservation fails. A reader that borrows the current buffer after it was reserved
  // again makes the publication a fault; without such a reader there is none.
  method Execute(k: Buffers, r: nat, steps: seq<Step>) returns (refused: bool, faults: nat)
    requires k.Valid() && k.Stranded() == {} && Sum(k.users) <= r && r + 1 <= |k.users|
    requires forall i: nat :: i < |steps| && steps[i].Publishing? ==> |steps[i].mesg| == k.size
    modifies k
    ensures k.Valid() && !refused
    ensures Undisturbed(steps) ==> faults == 0
  {
    hide Buffers.PoolsOk, Buffers.PairsOk, Sum;
    var held: Option<nat> := None;
    refused, faults := false, 0;
    ghost var n := |k.users|;
    var budget := Borrowed(k);
    for i := 0 to |steps|
      invariant k.Valid() && !refused && |k.users| == n && budget == Sum(k.users) <= r
      invariant k.Stranded() <= if held.Some? then {held.value} else {}
      invariant held.Some? ==> held.value < n && held.value !in k.bufFree && Writing(steps[..i])
      invariant held.Some? && k.users[held.value] > 0 ==> k.curr == held
      invariant Undisturbed(steps) ==> faults == 0 && (held.Some? ==> k.users[held.value] == 0)
    {
      assert steps[..i + 1][..i] == steps[..i];
      match steps[i]
      case Reserving =>
        if held == None {
          held := k.Reserve();
          refused := held == None;
        }
      case Publishing(m) =>
        if held.Some? {
          var ok := k.Publish(held.value, m);
          if !ok {
            faults := faults + 1;
          }
          held := None;
        }
      case Getting =>
        if budget < r {
          var p, _ := k.Get();
          if p.Some? {
            budget := budget + 1;
          }
        }
      case Ungetting(b) =>
        var ok := k.Unget(b);
        if ok {
          budget := budget - 1;
        }
    }
  }

  method Borrowed(k: Buffers) returns (n: nat)
    ensures n == Sum(k.users)
  {
    n := 0;
    var i := 0;
    while i < |k.users|
      invariant i <= |k.users| && n == Sum(k.users[..i])
    {
      assert k.users[..i + 1][..i] == k.users[..i];
      n := n + k.users[i];
      i := i + 1;
    }
    assert k.users[..i] == k.users;
  }

  lemma {:induction false} ZeroSum(n: nat)
    ensures Sum(seq(n, _ => 0)) == 0
  {
    if n > 0 {
      assert seq(n, _ => 0)[..n - 1] == seq(n - 1, _ => 0);
      ZeroSum(n - 1);
    }
  }
}