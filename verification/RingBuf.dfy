// The ring buffer under message queues: slots of several words in one word array, with a read and a
// write position that wrap. It refines a bounded deque.
module RingBuf {
  import opened Strides

  // Slot number i places behind slot r in a ring of n slots.
  function Behind(r: nat, i: nat, n: nat): nat
    requires r < n && i <= n
  {
    if r + i < n then r + i else r + i - n
  }

  lemma SmallMod(a: nat, n: nat)
    requires a < n
    ensures a % n == a && (n + a) % n == a
  {
  }

  // The ring as a sequence: n cells from the first on.
  function Deque(cells: seq<seq<int>>, first: nat, n: nat): (s: seq<seq<int>>)
    requires first < |cells| && n <= |cells|
    ensures |s| == n
  {
    seq(n, i requires 0 <= i < n => cells[Behind(first, i, |cells|)])
  }

  lemma DequeAppend(cells: seq<seq<int>>, first: nat, n: nat, m: seq<int>)
    requires first < |cells| && n < |cells|
    ensures Deque(cells[Behind(first, n, |cells|) := m], first, n + 1) == Deque(cells, first, n) + [m]
  {
  }

  lemma DequeDrop(cells: seq<seq<int>>, first: nat, n: nat)
    requires first < |cells| && 1 <= n <= |cells|
    ensures Deque(cells, Behind(first, 1, |cells|), n - 1) == Deque(cells, first, n)[1..]
  {
  }

  function Ahead(first: nat, n: nat): nat
    requires first < n
  {
    if first == 0 then n - 1 else first - 1
  }

  lemma DequePush(cells: seq<seq<int>>, first: nat, n: nat, m: seq<int>)
    requires first < |cells| && n < |cells|
    ensures var f := Ahead(first, |cells|);
            Deque(cells[f := m], f, n + 1) == [m] + Deque(cells, first, n)
  {
    var f := Ahead(first, |cells|);
    var a, b := Deque(cells[f := m], f, n + 1), [m] + Deque(cells, first, n);
    forall i: nat | i < |a| ensures a[i] == b[i] {
      if i > 0 {
        assert Behind(f, i, |cells|) == Behind(first, i - 1, |cells|);
      }
    }
  }

  class Ring {
    const buf: array<int>
    const dataSize: nat
    const maxBuf: nat
    var readPtr: nat
    var writePtr: nat
    var nFull: nat
    ghost var first: nat            // slot the read position stands on
    ghost var cells: seq<seq<int>>  // what each slot holds

    // The word array holds the cells, one behind the other.
    ghost predicate Stored()
      reads this`cells, buf
    {
      && dataSize >= 1 && maxBuf >= 1 && buf.Length == maxBuf * dataSize && |cells| == maxBuf
      && forall k: nat :: k < maxBuf ==> CellAt(k)
    }

    ghost predicate CellAt(k: nat)
      reads this`cells, buf
      requires k < |cells|
    {
      && k * dataSize + dataSize <= buf.Length
      && |cells[k]| == dataSize
      && cells[k] == buf[k * dataSize..k * dataSize + dataSize]
    }

    // write = read + nFull slots, modulo the capacity.
    ghost predicate Valid()
      reads this, buf
    {
      && Stored() && nFull <= maxBuf && first < maxBuf
      && readPtr == first * dataSize && writePtr == Behind(first, nFull, maxBuf) * dataSize
    }

    // The messages in the buffer, oldest first.
    ghost function Contents(): (s: seq<seq<int>>)
      reads this, buf
      requires Valid()
      ensures |s| == nFull
    {
      Deque(cells, first, nFull)
    }

    // The positions in words.
    lemma WritePosition()
      requires Valid()
      ensures buf.Length > 0 && writePtr == (readPtr + nFull * dataSize) % buf.Length
    {
      var k := Behind(first, nFull, maxBuf);
      SlotsApart(k, maxBuf, dataSize);
      Distribute(first, nFull, dataSize);
      if first + nFull >= maxBuf {
        Distribute(k, maxBuf, dataSize);
      }
      SmallMod(k * dataSize, buf.Length);
    }

    constructor (words: nat, depth: nat)
      requires words >= 1 && depth >= 1
      ensures Valid() && fresh(buf) && Contents() == [] && dataSize == words && maxBuf == depth
    {
      dataSize, maxBuf := words, depth;
      NonNegative(depth, words);
      buf := new int[depth * words];
      readPtr, writePtr, nFull, first, cells := 0, 0, 0, 0, [];
      new;
      StoreCells();
    }

    // Whatever the array holds is what the cells hold.
    ghost method StoreCells()
      requires dataSize >= 1 && maxBuf >= 1 && buf.Length == maxBuf * dataSize
      modifies this`cells
      ensures Stored()
    {
      forall k: nat | k < maxBuf ensures k * dataSize + dataSize <= buf.Length {
        SlotsApart(k, maxBuf, dataSize);
      }
      cells := seq(maxBuf, k requires 0 <= k < maxBuf && k * dataSize + dataSize <= buf.Length reads this, buf =>
                     buf[k * dataSize..k * dataSize + dataSize]);
    }

    // The position one slot further, back at the start past the end.
    method Advance(ptr: nat, ghost k: nat) returns (p: nat)
      requires Stored() && k < maxBuf && ptr == k * dataSize
      ensures p == Behind(k, 1, maxBuf) * dataSize
    {
      p := ptr + dataSize;
      NextSlot(k, dataSize);
      if k + 1 < maxBuf {
        SlotsApart(k + 1, maxBuf, dataSize);
      }
      if p == buf.Length {
        p := 0;
      }
    }

    method Retreat(ptr: nat, ghost k: nat) returns (p: nat)
      requires Stored() && k < maxBuf && ptr == k * dataSize
      ensures p == Ahead(k, maxBuf) * dataSize
    {
      p := ptr;
      if k > 0 {
        NextSlot(k - 1, dataSize);
      } else {
        NextSlot(maxBuf - 1, dataSize);
      }
      if p == 0 {
        p := buf.Length;
      }
      p := p - dataSize;
    }

    // Copy a message into slot k, word by word.
    method CopyIn(ptr: nat, src: seq<int>, ghost k: nat)
      requires Stored() && k < maxBuf && ptr == k * dataSize && |src| == dataSize
      modifies buf, this`cells
      ensures Stored() && cells == old(cells)[k := src]
    {
      assert CellAt(k);
      var words := dataSize;
      var i := 0;
      while i < words
        invariant i <= words && cells == old(cells)
        invariant buf[ptr..ptr + i] == src[..i]
        invariant forall a: nat :: a < buf.Length && !(ptr <= a < ptr + i) ==> buf[a] == old(buf[a])
      {
        buf[ptr + i] := src[i];
        i := i + 1;
      }
      cells := cells[k := src];
      forall j: nat | j < maxBuf ensures CellAt(j) {
        assert old(CellAt(j));
        if j < k {
          SlotsApart(j, k, dataSize);
        } else if k < j {
          SlotsApart(k, j, dataSize);
        }
      }
    }

    // Copy the message in slot k out.
    method CopyOut(ptr: nat, ghost k: nat) returns (dst: seq<int>)
      requires Stored() && k < maxBuf && ptr == k * dataSize
      ensures dst == cells[k]
    {
      assert CellAt(k);
      var words := dataSize;
      dst := [];
      while |dst| < words
        invariant |dst| <= words && dst == buf[ptr..ptr + |dst|]
      {
        dst := dst + [buf[ptr + |dst|]];
      }
    }

    method Reset()
      requires Valid()
      modifies this`readPtr, this`writePtr, this`nFull, this`first
      ensures Valid() && Contents() == []
    {
      NonNegative(0, dataSize);
      nFull, writePtr, readPtr, first := 0, 0, 0, 0;
    }

    method Write(src: seq<int>)
      requires Valid() && |src| == dataSize && nFull < maxBuf
      modifies this`writePtr, this`nFull, this`cells, buf
      ensures Valid() && Contents() == old(Contents()) + [src]
    {
      ghost var w := Behind(first, nFull, maxBuf);
      DequeAppend(cells, first, nFull, src);
      CopyIn(writePtr, src, w);
      writePtr := Advance(writePtr, w);
      nFull := nFull + 1;
    }

    method Read() returns (dst: seq<int>)
      requires Valid() && nFull > 0
      modifies this`readPtr, this`nFull, this`first
      ensures Valid() && old(Contents()) == [dst] + Contents()
    {
      DequeDrop(cells, first, nFull);
      dst := CopyOut(readPtr, first);
      readPtr := Advance(readPtr, first);
      first, nFull := Behind(first, 1, maxBuf), nFull - 1;
    }

    method Peek() returns (dst: seq<int>)
      requires Valid() && nFull > 0
      ensures dst == Contents()[0]
    {
      dst := CopyOut(readPtr, first);
    }

    method Jam(src: seq<int>)
      requires Valid() && |src| == dataSize && nFull < maxBuf
      modifies this`readPtr, this`nFull, this`first, this`cells, buf
      ensures Valid() && Contents() == [src] + old(Contents())
    {
      DequePush(cells, first, nFull, src);
      readPtr := Retreat(readPtr, first);
      ghost var f := Ahead(first, maxBuf);
      CopyIn(readPtr, src, f);
      first, nFull := f, nFull + 1;
    }

    // A ring of one slot takes the message in place of what it holds.
    method Overwrite(src: seq<int>)
      requires Valid() && |src| == dataSize && maxBuf == 1
      modifies this, buf
      ensures Valid() && Contents() == [src]
    {
      NonNegative(0, dataSize);
      CopyIn(writePtr, src, 0);
      writePtr, readPtr, first, nFull := 0, 0, 0, 1;
    }
  }
}
