// The partition allocator: equal blocks in a word memory, with the free list threaded through the
// first word of every free block.
module MemPartition {
  import opened Prelude
  import opened Strides

  const WORD_SIZE: nat := 4
  const NULL: int := 0

  class Partition {
    const mem: array<int>          // the pool, by words
    const pool: int                // its byte address
    const blkSize: nat             // block size in bytes, whole words
    const nMaxBlocks: nat
    var nFreeBlocks: nat
    var freeListPtr: int
    ghost var free: seq<nat>       // numbers of the free blocks, in list order

    ghost predicate Shaped()
      reads {}
    {
      && pool > 0 && blkSize >= WORD_SIZE && blkSize % WORD_SIZE == 0
      && mem.Length == nMaxBlocks * (blkSize / WORD_SIZE)
    }

    // Byte address and first word of block b.
    function Addr(b: nat): int {
      pool + b * blkSize
    }

    function Word(b: nat): int {
      b * (blkSize / WORD_SIZE)
    }

    // What the list holds from its i-th node on starts here.
    ghost function Link(fs: seq<nat>, i: nat): int {
      if i < |fs| then Addr(fs[i]) else NULL
    }

    // The list in memory runs through exactly the given blocks and ends.
    ghost predicate Threaded(fs: seq<nat>)
      reads mem
    {
      && (forall i: nat :: i < |fs| ==> fs[i] < nMaxBlocks && 0 <= Word(fs[i]) < mem.Length)
      && (forall i: nat {:trigger fs[i]} :: i < |fs| ==> mem[Word(fs[i])] == Link(fs, i + 1))
    }

    ghost predicate Valid()
      reads this, mem
    {
      && Shaped() && NoDup(free) && Threaded(free)
      && nFreeBlocks == |free| && freeListPtr == Link(free, 0)
    }

    // A block given out and not taken back.
    ghost predicate Live(b: nat)
      reads this`free
    {
      b < nMaxBlocks && b !in free
    }

    // Free and live blocks make up the pool.
    lemma Accounted()
      requires Valid()
      ensures |free| == nFreeBlocks && nFreeBlocks + |set b: nat | b < nMaxBlocks && Live(b)| == nMaxBlocks
    {
      var idle, busy := set b: nat | b < nMaxBlocks && b in free, set b: nat | b < nMaxBlocks && Live(b);
      assert Below(nMaxBlocks) == idle + busy && idle !! busy;
      forall b ensures b in idle <==> b in free {
      }
      NoDupSize(free, idle);
    }

    lemma WordInside(b: nat)
      requires Shaped() && b < nMaxBlocks
      ensures 0 <= Word(b) && Word(b) + blkSize / WORD_SIZE <= mem.Length && blkSize / WORD_SIZE >= 1
    {
      NonNegative(b, blkSize / WORD_SIZE);
      SlotsApart(b, nMaxBlocks, blkSize / WORD_SIZE);
    }

    lemma WordsApart(b: nat, c: nat)
      requires Shaped() && b != c
      ensures Word(b) != Word(c) && Addr(b) != Addr(c)
    {
      if Word(b) == Word(c) {
        SameSlot(b, c, blkSize / WORD_SIZE);
      }
      if Addr(b) == Addr(c) {
        SameSlot(b, c, blkSize);
      }
    }

    lemma AddrNotNull(b: nat)
      requires Shaped()
      ensures Addr(b) != NULL
    {
      NonNegative(b, blkSize);
    }

    // The word a pointer points at.
    function Index(p: int): int {
      (p - pool) / WORD_SIZE
    }

    lemma IndexOfAddr(b: nat)
      requires Shaped()
      ensures Index(Addr(b)) == Word(b)
    {
      var w := blkSize / WORD_SIZE;
      assert blkSize == w * WORD_SIZE;
      Regroup(b, w);
    }

    // ---- initialisation ------------------------------------------------------------------------

    // Rounds the block size up to whole words and threads all blocks in address order.
    constructor (memory: array<int>, address: int, size: nat, num: nat)
      requires address > 0 && address % WORD_SIZE == 0 && size >= 1 && num >= 1
      requires memory.Length == num * ((size + WORD_SIZE - 1) / WORD_SIZE)
      modifies memory
      ensures Valid() && mem == memory && pool == address && nMaxBlocks == num
      ensures blkSize >= size && blkSize < size + WORD_SIZE && blkSize % WORD_SIZE == 0
      ensures free == seq(num, i requires 0 <= i < num => i) && nFreeBlocks == num
    {
      mem, pool, nMaxBlocks := memory, address, num;
      blkSize := ((size + WORD_SIZE - 1) / WORD_SIZE) * WORD_SIZE;
      nFreeBlocks, freeListPtr := num, address;
      free := seq(num, i requires 0 <= i < num => i);
      new;
      assert free[0] == 0 && Addr(0) == pool;
      ThreadAll();
    }

    method ThreadAll()
      requires Shaped() && nMaxBlocks >= 1 && nFreeBlocks == nMaxBlocks
      requires free == seq(nMaxBlocks, i requires 0 <= i < nMaxBlocks => i) && freeListPtr == Link(free, 0)
      modifies mem
      ensures Valid()
    {
      var w := blkSize / WORD_SIZE;
      var block, at := 0, 0;
      forall b: nat | b < nMaxBlocks ensures 0 <= Word(b) < mem.Length {
        WordInside(b);
      }
      var i := 0;
      while i < nMaxBlocks - 1
        invariant i <= nMaxBlocks - 1 && block == at == Word(i)
        invariant forall b: nat :: b < i ==> mem[Word(b)] == Addr(b + 1)
      {
        NextSlot(i, w);
        forall b: nat | b <= i ensures b < i ==> Word(b) != Word(i) {
          if b < i {
            WordsApart(b, i);
          }
        }
        block := block + w;
        IndexOfAddr(i + 1);
        mem[at] := pool + block * WORD_SIZE;
        Regroup(i + 1, w);
        at := block;
        i := i + 1;
      }
      forall b: nat | b < nMaxBlocks - 1 ensures Word(b) != Word(nMaxBlocks - 1) {
        WordsApart(b, nMaxBlocks - 1);
      }
      mem[at] := NULL;
    }

    // ---- allocation ----------------------------------------------------------------------------

    // A block that was free; NULL when there is none.
    method Alloc() returns (p: int)
      requires Valid()
      modifies this
      ensures Valid() && (p == NULL <==> old(free) == [])
      ensures p == NULL ==> free == old(free)
      ensures p != NULL ==>
                && p == Addr(old(free)[0]) && free == old(free)[1..]
                && Live(old(free)[0]) && !old(Live(free[0]))
    {
      if nFreeBlocks == 0 {
        return NULL;
      }
      p := freeListPtr;
      AddrNotNull(free[0]);
      IndexOfAddr(free[0]);
      assert mem[Word(free[0])] == Link(free, 1);
      nFreeBlocks := nFreeBlocks - 1;
      freeListPtr := mem[Index(p)];
      TailThreaded(free);
      free := free[1..];
    }

    lemma TailThreaded(fs: seq<nat>)
      requires NoDup(fs) && Threaded(fs) && fs != []
      ensures NoDup(fs[1..]) && Threaded(fs[1..]) && fs[0] !in fs[1..] && Link(fs[1..], 0) == Link(fs, 1)
    {
      forall i: nat | i < |fs[1..]| ensures mem[Word(fs[1..][i])] == Link(fs[1..], i + 1) {
        assert fs[1..][i] == fs[i + 1];
      }
    }

    // A client may write its own block without disturbing the list.
    method ClientWrite(b: nat, k: nat, v: int)
      requires Valid() && Live(b) && k < blkSize / WORD_SIZE
      modifies mem
      ensures Valid() && 0 <= Word(b) + k < mem.Length
      ensures forall i: nat :: i < mem.Length ==> mem[i] == if i == Word(b) + k then v else old(mem[i])
    {
      WordInside(b);
      ElsewhereThan(b, k);
      mem[Word(b) + k] := v;
    }

    // No free block starts inside a live one.
    lemma ElsewhereThan(b: nat, k: nat)
      requires Valid() && b < nMaxBlocks && b !in free && k < blkSize / WORD_SIZE
      ensures forall i: nat :: i < |free| ==> Word(free[i]) != Word(b) + k
    {
      forall i: nat | i < |free| ensures Word(free[i]) != Word(b) + k {
        if free[i] < b {
          SlotsApart(free[i], b, blkSize / WORD_SIZE);
        } else {
          assert free[i] in free;
          SlotsApart(b, free[i], blkSize / WORD_SIZE);
        }
      }
    }

    // ---- release -------------------------------------------------------------------------------

    // In range and on a block boundary.
    method BlockValid(p: int) returns (ok: bool)
      requires Shaped()
      ensures ok <==> exists b: nat :: b < nMaxBlocks && p == Addr(b)
    {
      var end := pool + blkSize * nMaxBlocks;
      if p < pool || p >= end {
        forall b: nat | b < nMaxBlocks ensures p != Addr(b) {
          NonNegative(b, blkSize);
          SlotsApart(b, nMaxBlocks, blkSize);
        }
        return false;
      }
      var diff := p - pool;
      ok := diff % blkSize == 0;
      if ok {
        SlotOf(diff, blkSize, nMaxBlocks);
        assert p == Addr(diff / blkSize);
      } else {
        forall b: nat | b < nMaxBlocks ensures p != Addr(b) {
          MultipleMod(b, blkSize);
        }
      }
    }

    method ListContains(p: int) returns (found: bool)
      requires Valid()
      ensures found <==> exists b: nat :: b in free && p == Addr(b)
    {
      var at := freeListPtr;
      var i := 0;
      while i < nFreeBlocks && at != NULL
        invariant i <= nFreeBlocks && at == Link(free, i)
        invariant forall j: nat :: j < i ==> Addr(free[j]) != p
      {
        if at == p {
          assert free[i] in free;
          return true;
        }
        IndexOfAddr(free[i]);
        assert mem[Word(free[i])] == Link(free, i + 1);
        at := mem[Index(at)];
        i := i + 1;
      }
      if i < |free| {
        AddrNotNull(free[i]);
      }
      return false;
    }

    // Takes back exactly the live blocks; anything else is refused and changes nothing.
    method Free(p: int) returns (ok: bool)
      requires Valid()
      modifies this, mem
      ensures Valid()
      ensures ok <==> exists b: nat :: old(Live(b)) && p == Addr(b)
      ensures ok ==> exists b: nat :: old(Live(b)) && p == Addr(b) && free == [b] + old(free)
      ensures forall i: nat :: i < mem.Length && !(ok && i == Index(p)) ==> mem[i] == old(mem[i])
      ensures !ok ==> free == old(free)
    {
      var valid := BlockValid(p);
      var allFree := nFreeBlocks == nMaxBlocks;
      var twice := ListContains(p);
      NotTwice(p);
      if !valid || allFree || twice {
        if allFree {
          AllListed(free, nMaxBlocks);
        }
        return false;
      }
      ghost var b: nat :| b < nMaxBlocks && p == Addr(b);
      assert b !in free;
      PushBlock(p, b);
      return true;
    }

    // A block in the list has an address no live block has.
    lemma NotTwice(p: int)
      requires Valid()
      ensures (exists b: nat :: b in free && p == Addr(b)) ==> forall b: nat :: Live(b) ==> p != Addr(b)
    {
      if c: nat :| c in free && p == Addr(c) {
        forall b: nat | Live(b) ensures p != Addr(b) {
          WordsApart(b, c);
        }
      }
    }

    method PushBlock(p: int, ghost b: nat)
      requires Valid() && Live(b) && p == Addr(b)
      modifies this, mem
      ensures Valid() && free == [b] + old(free)
      ensures forall i: nat :: i < mem.Length && i != Index(p) ==> mem[i] == old(mem[i])
    {
      IndexOfAddr(b);
      WordInside(b);
      ElsewhereThan(b, 0);
      mem[Index(p)] := freeListPtr;
      freeListPtr := p;
      nFreeBlocks := nFreeBlocks + 1;
      ghost var was := free;
      free := [b] + free;
      forall i: nat | i < |free| ensures mem[Word(free[i])] == Link(free, i + 1) {
        if i > 0 {
          assert free[i] == was[i - 1];
        }
      }
    }
  }

  lemma Regroup(b: nat, w: nat)
    ensures b * (w * WORD_SIZE) == (b * w) * WORD_SIZE
  {
  }

  // As many distinct blocks as there are are all of them.
  lemma AllListed(free: seq<nat>, n: nat)
    requires NoDup(free) && |free| == n && forall i: nat :: i < |free| ==> free[i] < n
    ensures forall b: nat :: b < n ==> b in free
  {
    var s := set b: nat | b in free;
    NoDupSize(free, s);
    forall b: nat | b < n ensures b in free {
      BoundedSetSize(s + {b}, n);
      assert b !in s ==> |s + {b}| == n + 1;
    }
  }
}
