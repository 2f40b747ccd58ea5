// Offsets of equal blocks laid out one behind the other.
module Strides {
  lemma SlotsApart(j: nat, k: nat, d: nat)
    requires j < k
    ensures j * d + d <= k * d
  {
    assert k == j + 1 + (k - j - 1);
    assert k * d == j * d + d + (k - j - 1) * d;
    NonNegative(k - j - 1, d);
  }

  lemma Distribute(a: nat, b: nat, d: nat)
    ensures (a + b) * d == a * d + b * d
  {
  }

  lemma NonNegative(a: nat, b: nat)
    ensures a * b >= 0
  {
  }

  lemma NextSlot(k: nat, d: nat)
    ensures (k + 1) * d == k * d + d
  {
  }

  // A block is known by its offset.
  lemma SameSlot(j: nat, k: nat, d: nat)
    requires d >= 1 && j * d == k * d
    ensures j == k
  {
    if j < k {
      SlotsApart(j, k, d);
    } else if k < j {
      SlotsApart(k, j, d);
    }
  }

  // An offset within n blocks that d divides is the offset of one of them.
  lemma SlotOf(o: nat, d: nat, n: nat)
    requires d >= 1 && o % d == 0 && o < n * d
    ensures o / d < n && o == (o / d) * d
  {
    assert o == (o / d) * d + o % d;
    if o / d >= n {
      AtLeast(o / d, n, d);
    }
  }

  lemma AtLeast(a: nat, b: nat, d: nat)
    requires a >= b
    ensures a * d >= b * d
  {
    Distribute(a - b, b, d);
    NonNegative(a - b, d);
  }

  lemma MultipleMod(k: int, d: int)
    requires 1 <= d
    ensures (k * d) % d == 0
  {
    var q, r := (k * d) / d, (k * d) % d;
    assert k * d == q * d + r;
    assert (k - q) * d == r;
    assert k - q >= 1 ==> (k - q) * d >= d;
    assert k - q <= -1 ==> (k - q) * d <= -d;
  }
}
