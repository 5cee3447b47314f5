/**
  The durable canonical mapping.  It is rewritten in one batch that reads the mapping
  as it was, and like the one in memory it stops at the first height that agrees.
 */
module ChainStore {
  import opened Hashing
  import opened Ancestry
  import opened Canonical

  ghost predicate StoredAt(t: BlockTree, canon: map<nat, Hash>, tip: Hash, n: nat)
    requires Linked(t) && tip in t.nodes
  {
    && (n in canon <==> n <= t.Number(tip))
    && (n in canon ==> canon[n] != zeroHash)
    && (t.Number(t.root) <= n <= t.Number(tip) ==> canon[n] == AncestorAt(t, tip, n))
  }

  /**
    The stored mapping is gapless from height zero to a tip, and from the root in
    memory upwards it is that tip's path.  Heights below the root are history only
    the store still holds.
   */
  ghost predicate Stored(t: BlockTree, canon: map<nat, Hash>, tip: Hash)
    requires Linked(t) && tip in t.nodes
  {
    forall n: nat {:trigger StoredAt(t, canon, tip, n)} :: StoredAt(t, canon, tip, n)
  }

  lemma {:induction false} StoredSurvives(t: BlockTree, u: BlockTree, canon: map<nat, Hash>, tip: Hash)
    requires Linked(t) && Linked(u) && Grows(t, u) && tip in t.nodes && Stored(t, canon, tip)
    ensures Stored(u, canon, tip)
  {
    forall n: nat ensures StoredAt(u, canon, tip, n) {
      assert StoredAt(t, canon, tip, n);
      if t.Number(t.root) <= n <= t.Number(tip) { AncestorsSurvive(t, u, tip, n); }
    }
  }

  /** The mapping after a batch. */
  function Batched(canon: map<nat, Hash>, lost: set<nat>, written: map<nat, Hash>): (r: map<nat, Hash>) {
    (canon - lost) + written
  }

  /** What a walk from the head down to height m has to write. */
  ghost predicate Walked(t: BlockTree, head: Hash, m: nat, written: map<nat, Hash>)
    requires Linked(t) && head in t.nodes && t.Number(t.root) <= m <= t.Number(head)
  {
    && (forall n: nat :: n in written <==> m < n <= t.Number(head))
    && (forall n: nat :: n in written ==> written[n] == AncestorAt(t, head, n))
  }

  /** The batch of a walk that stopped at height m completes the mapping to head, and leaves history alone. */
  lemma {:induction false} BatchCompletes(t: BlockTree, canon: map<nat, Hash>, tip: Hash, head: Hash, m: nat,
                                          lost: set<nat>, written: map<nat, Hash>)
    requires Linked(t) && zeroHash !in t.nodes && tip in t.nodes && head in t.nodes && Stored(t, canon, tip)
    requires t.Number(t.root) <= m <= t.Number(head) && m in canon && canon[m] == AncestorAt(t, head, m)
    requires forall n: nat :: n in lost <==> t.Number(head) < n <= t.Number(tip)
    requires Walked(t, head, m, written)
    ensures Stored(t, Batched(canon, lost, written), head)
    ensures forall n: nat :: n < t.Number(t.root) ==> At(Batched(canon, lost, written), n) == At(canon, n)
  {
    var after := Batched(canon, lost, written);
    assert StoredAt(t, canon, tip, m);
    forall n: nat ensures StoredAt(t, after, head, n) {
      assert StoredAt(t, canon, tip, n);
      if t.Number(t.root) <= n <= m {
        AncestorOfAncestor(t, head, m, n);
        AncestorOfAncestor(t, tip, m, n);
      }
    }
  }

  class Store {
    var canonical: map<nat, Hash>
    /** The height of every block written. */
    var heights: map<Hash, nat>
    var head: Hash
    var safe: Hash
    var finalized: Hash

    constructor (canon: map<nat, Hash>, blocks: map<Hash, nat>, top: Hash)
      ensures canonical == canon && heights == blocks && head == top
    {
      canonical, head, heights := canon, top, blocks;
      safe, finalized := zeroHash, zeroHash;
    }

    method PutBlock(h: Hash, number: nat)
      modifies this`heights
      ensures heights == old(heights)[h := number]
    {
      heights := heights[h := number];
    }

    /** Heights past the new head belong to a chain that lost. */
    method LostHeights(top: nat, ghost t: BlockTree, ghost tip: Hash) returns (lost: set<nat>)
      requires Linked(t) && tip in t.nodes && Stored(t, canonical, tip)
      ensures forall n: nat :: n in lost <==> top < n <= t.Number(tip)
    {
      lost := {};
      var n := top + 1;
      assert StoredAt(t, canonical, tip, n);
      while At(canonical, n) != zeroHash
        invariant n > top && StoredAt(t, canonical, tip, n) && (n > top + 1 ==> n <= t.Number(tip) + 1)
        invariant forall x: nat :: x in lost <==> top < x < n
        decreases t.Number(tip) + 1 - n
      {
        lost := lost + {n};
        n := n + 1;
        assert StoredAt(t, canonical, tip, n);
      }
    }

    /** Walks down from the head, collecting what to write, until a height that agrees. */
    method WalkDown(h: Hash, t: BlockTree, ghost tip: Hash) returns (written: map<nat, Hash>, ghost m: nat)
      requires Linked(t) && zeroHash !in t.nodes && tip in t.nodes && h in t.nodes && Stored(t, canonical, tip)
      ensures t.Number(t.root) <= m <= t.Number(h) && m in canonical && canonical[m] == AncestorAt(t, h, m)
      ensures Walked(t, h, m, written)
    {
      RootIsAncestor(t, tip);
      RootIsAncestor(t, h);
      written := map[];
      var cur := h;
      m := t.Number(h);
      while At(canonical, t.Number(cur)) != cur
        invariant cur in t.nodes && t.Number(t.root) <= t.Number(cur) == m <= t.Number(h) && cur == AncestorAt(t, h, m)
        invariant Walked(t, h, m, written)
        decreases m
      {
        assert StoredAt(t, canonical, tip, m);
        written := written[t.Number(cur) := cur];
        AncestorStep(t, h, m);
        cur := t.Parent(cur);
        m := m - 1;
      }
    }

    method SetCanonical(h: Hash, t: BlockTree, ghost tip: Hash)
      requires Linked(t) && zeroHash !in t.nodes && tip in t.nodes && h in t.nodes && Stored(t, canonical, tip)
      modifies this`canonical, this`head
      ensures Stored(t, canonical, h) && head == h
      ensures forall n: nat :: n < t.Number(t.root) ==> At(canonical, n) == At(old(canonical), n)
    {
      var top := t.Number(h);
      var lost := LostHeights(top, t, tip);
      ghost var m;
      var written;
      written, m := WalkDown(h, t, tip);
      BatchCompletes(t, canonical, tip, h, m, lost, written);
      canonical := Batched(canonical, lost, written);
      head := h;
    }

    method SetHeads(h: Hash, s: Hash, f: Hash)
      modifies this`head, this`safe, this`finalized
      ensures head == h
      ensures safe == (if s != zeroHash then s else old(safe))
      ensures finalized == (if f != zeroHash then f else old(finalized))
    {
      head := h;
      if s != zeroHash { safe := s; }
      if f != zeroHash { finalized := f; }
    }
  }
}
