/**
  The zero-padded Merkle tree the on-chain verifier knows: an index-addressed
  definition, and the bit arithmetic that relates its levels.
 */
module MerkleTree {
  import opened Hashing

  /** n shifted right by h bits. */
  function Shr(n: nat, h: nat): (r: nat) {
    if h == 0 then n else Shr(n, h - 1) / 2
  }

  /** Bit h of n. */
  predicate Bit(n: nat, h: nat) {
    Shr(n, h) % 2 == 1
  }

  /** The default node of level h: the root of an all-zero subtree. */
  function Zero(h: nat): (r: Hash) {
    if h == 0 then zeroHash else hashPair(Zero(h - 1), Zero(h - 1))
  }

  function LeafAt(leaves: seq<Hash>, i: nat): (r: Hash) {
    if i < |leaves| then leaves[i] else zeroHash
  }

  /** The i-th node of level h of the infinite zero-padded tree over the leaves. */
  function Node(leaves: seq<Hash>, h: nat, i: nat): (r: Hash)
    decreases h
  {
    if h == 0 then LeafAt(leaves, i)
    else hashPair(Node(leaves, h - 1, 2 * i), Node(leaves, h - 1, 2 * i + 1))
  }

  /** The position paired with i on its level: i with the lowest bit flipped. */
  function Sibling(i: nat): (r: nat) {
    if i % 2 == 0 then i + 1 else i - 1
  }

  // --------------------------------------------------------------------- shifts

  lemma {:induction false} ShrMonotone(x: nat, y: nat, h: nat)
    requires x <= y
    ensures Shr(x, h) <= Shr(y, h)
  {
    if h > 0 { ShrMonotone(x, y, h - 1); }
  }

  /** Below h set bits, adding one adds one on every level. */
  lemma {:induction false} ShrCarry(n: nat, h: nat)
    requires forall x :: 0 <= x < h ==> Bit(n, x)
    ensures Shr(n + 1, h) == Shr(n, h) + 1
  {
    if h > 0 {
      ShrCarry(n, h - 1);
      assert Bit(n, h - 1);
    }
  }

  /** Above the first clear bit, adding one changes nothing. */
  lemma {:induction false} ShrAbove(n: nat, h: nat, x: nat)
    requires forall y :: 0 <= y < h ==> Bit(n, y)
    requires !Bit(n, h) && h < x
    ensures Shr(n + 1, x) == Shr(n, x)
  {
    if x == h + 1 { ShrCarry(n, h); } else { ShrAbove(n, h, x - 1); }
  }

  function Pow2(h: nat): (r: nat)
    ensures r > 0
  {
    if h == 0 then 1 else 2 * Pow2(h - 1)
  }

  lemma {:induction false} ShrSmall(n: nat, h: nat)
    ensures Shr(n, h) == 0 <==> n < Pow2(h)
  {
    ShrIsDiv(n, h);
    if Shr(n, h) > 0 { AtLeastOnce(Shr(n, h), Pow2(h)); }
  }

  lemma {:induction false} AtLeastOnce(q: nat, p: nat)
    requires q > 0
    ensures q * p >= p
  {
    assert q * p == p + (q - 1) * p;
  }

  lemma {:induction false} ShrIsDiv(n: nat, h: nat)
    ensures Shr(n, h) * Pow2(h) <= n < (Shr(n, h) + 1) * Pow2(h)
  {
    if h > 0 {
      ShrIsDiv(n, h - 1);
      var q, p := Shr(n, h - 1), Pow2(h - 1);
      Halve(q, p, n);
    }
  }

  lemma {:induction false} Halve(q: nat, p: nat, n: nat)
    requires q * p <= n < (q + 1) * p
    ensures (q / 2) * (2 * p) <= n < (q / 2 + 1) * (2 * p)
  {
    var k := q / 2;
    assert q == 2 * k || q == 2 * k + 1;
    assert k * (2 * p) == (2 * k) * p;
    assert (k + 1) * (2 * p) == (2 * k + 2) * p;
  }

  /** A number below 2^h whose h low bits are all set is 2^h - 1. */
  lemma {:induction false} AllOnes(n: nat, h: nat)
    requires forall x :: 0 <= x < h ==> Bit(n, x)
    requires n < Pow2(h)
    ensures n + 1 == Pow2(h)
  {
    ShrCarry(n, h);
    ShrSmall(n, h);
    ShrIsDiv(n + 1, h);
  }

  // ---------------------------------------------------------------------- nodes

  /** A node is determined by the leaves below it. */
  lemma {:induction false} NodeAgree(a: seq<Hash>, b: seq<Hash>, h: nat, i: nat)
    requires forall x: nat :: Shr(x, h) == i ==> LeafAt(a, x) == LeafAt(b, x)
    ensures Node(a, h, i) == Node(b, h, i)
    decreases h
  {
    if h == 0 {
      assert Shr(i, 0) == i;
    } else {
      forall x: nat | Shr(x, h - 1) == 2 * i ensures LeafAt(a, x) == LeafAt(b, x) {
        assert Shr(x, h) == i;
      }
      forall x: nat | Shr(x, h - 1) == 2 * i + 1 ensures LeafAt(a, x) == LeafAt(b, x) {
        assert Shr(x, h) == i;
      }
      NodeAgree(a, b, h - 1, 2 * i);
      NodeAgree(a, b, h - 1, 2 * i + 1);
    }
  }

  /** A node whose leaves are all present does not change when leaves are appended. */
  lemma {:induction false} CompleteIsStable(a: seq<Hash>, more: seq<Hash>, h: nat, i: nat)
    requires i < Shr(|a|, h)
    ensures Node(a + more, h, i) == Node(a, h, i)
  {
    forall x: nat | Shr(x, h) == i ensures LeafAt(a + more, x) == LeafAt(a, x) {
      if x >= |a| { ShrMonotone(|a|, x, h); assert false; }
    }
    NodeAgree(a + more, a, h, i);
  }

  lemma {:induction false} ZeroNode(h: nat, i: nat)
    ensures Node([], h, i) == Zero(h)
    decreases h
  {
    if h > 0 {
      ZeroNode(h - 1, 2 * i);
      ZeroNode(h - 1, 2 * i + 1);
    }
  }

  /** Beyond the last leaf every node is the default of its level. */
  lemma {:induction false} BeyondIsZero(a: seq<Hash>, h: nat, i: nat)
    requires Shr(|a|, h) < i || (|a| > 0 && Shr(|a| - 1, h) < i)
    ensures Node(a, h, i) == Zero(h)
  {
    forall x: nat | Shr(x, h) == i ensures LeafAt(a, x) == LeafAt([], x) {
      if x < |a| {
        ShrMonotone(x, |a|, h);
        ShrMonotone(x, |a| - 1, h);
        assert false;
      }
    }
    NodeAgree(a, [], h, i);
    ZeroNode(h, i);
  }
}
