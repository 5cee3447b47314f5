/**
  The chain-wide outputs accumulator: a frontier of pending left-hand nodes that
  must always agree with the fixed-height zero-padded tree over every leaf
  appended so far.
 */
module OutputTree {
  import opened Options
  import opened Hashing
  import opened MerkleTree

  /** The height of the outputs tree.  Pinned by its type, so that proofs do not unfold 63 levels. */
  type TreeHeight = h: nat | 62 < h < 64 witness 63
  const HEIGHT: TreeHeight

  /** The accumulator as a value.  branch[h] matters exactly when bit h of count is set. */
  datatype Frontier = Frontier(count: nat, branch: seq<Hash>)

  const EMPTY := Frontier(0, [])

  /** The frontier can be read at every level whose bit is set. */
  predicate Sized(f: Frontier) {
    forall h :: 0 <= h < HEIGHT && Bit(f.count, h) ==> h < |f.branch|
  }

  /** The frontier stands for these leaves. */
  ghost predicate Represents(f: Frontier, leaves: seq<Hash>) {
    && f.count == |leaves|
    && f.count < Pow2(HEIGHT)
    && Sized(f)
    && forall h :: 0 <= h < HEIGHT && Bit(f.count, h) ==>
         f.branch[h] == Node(leaves, h, Shr(f.count, h) - 1)
  }

  /** Writes level h of the frontier, growing it with zero hashes as needed. */
  function Park(branch: seq<Hash>, h: nat, node: Hash): (r: seq<Hash>)
    ensures |r| == if h < |branch| then |branch| else h + 1
    ensures forall x :: 0 <= x < |r| ==>
      r[x] == if x == h then node else if x < |branch| then branch[x] else zeroHash
  {
    if h < |branch| then branch[h := node]
    else branch + seq(h - |branch|, _ => zeroHash) + [node]
  }

  /** The pending node of a level.  On a sized frontier it is read only where it exists. */
  function Pending(f: Frontier, h: nat): (r: Hash) {
    if h < |f.branch| then f.branch[h] else zeroHash
  }

  /** Carries a node up from level h; None when every level is already full. */
  function Carry(f: Frontier, node: Hash, h: nat): (r: Option<Frontier>)
    requires h <= HEIGHT
    decreases HEIGHT - h
  {
    if h == HEIGHT then None
    else if !Bit(f.count, h) then Some(Frontier(f.count + 1, Park(f.branch, h, node)))
    else Carry(f, hashPair(Pending(f, h), node), h + 1)
  }

  function Append(f: Frontier, leaves: seq<Hash>): (r: Option<Frontier>)
    decreases |leaves|
  {
    if leaves == [] then Some(f)
    else
      var next := Carry(f, leaves[0], 0);
      if next.None? then None else Append(next.value, leaves[1..])
  }

  /** The node above the frontier at level h, padding the right with default nodes. */
  function RootFrom(f: Frontier, node: Hash, h: nat): (r: Hash)
    requires h <= HEIGHT
    decreases HEIGHT - h
  {
    if h == HEIGHT then node
    else if Bit(f.count, h) then RootFrom(f, hashPair(Pending(f, h), node), h + 1)
    else RootFrom(f, hashPair(node, Zero(h)), h + 1)
  }

  function Root(f: Frontier): (r: Hash) {
    RootFrom(f, zeroHash, 0)
  }

  // ------------------------------------------------------------------ insertion

  lemma {:induction false} CarrySized(f: Frontier, node: Hash, h: nat)
    requires Sized(f) && h <= HEIGHT
    requires forall x :: 0 <= x < h ==> Bit(f.count, x)
    ensures Carry(f, node, h).Some? ==> Sized(Carry(f, node, h).value)
    decreases HEIGHT - h
  {
    if h < HEIGHT {
      if Bit(f.count, h) {
        CarrySized(f, hashPair(Pending(f, h), node), h + 1);
      } else {
        var m := f.count + 1;
        BitsAfterCarry(f.count, m, h);
        forall x | 0 <= x < HEIGHT && Bit(m, x) ensures x < |Park(f.branch, h, node)| {
          assert x > h ==> Bit(f.count, x);
        }
      }
    }
  }

  /** After adding one: bit h is the lowest set bit, and the levels above are as before. */
  lemma {:induction false} BitsAfterCarry(n: nat, m: nat, h: nat)
    requires m == n + 1
    requires forall x :: 0 <= x < h ==> Bit(n, x)
    requires !Bit(n, h)
    ensures Shr(m, h) == Shr(n, h) + 1
    ensures forall x :: 0 <= x < h ==> !Bit(m, x)
    ensures forall x :: h < x ==> Shr(m, x) == Shr(n, x)
  {
    ShrCarry(n, h);
    forall x | 0 <= x < h ensures !Bit(m, x) {
      assert Bit(n, x);
      ShrCarry(n, x);
    }
    forall x | h < x ensures Shr(m, x) == Shr(n, x) { ShrAbove(n, h, x); }
  }

  lemma {:induction false} ParkRepresents(f: Frontier, leaves: seq<Hash>, leaf: Hash, node: Hash, h: nat)
    requires Represents(f, leaves) && h < HEIGHT
    requires forall x :: 0 <= x < h ==> Bit(f.count, x)
    requires !Bit(f.count, h)
    requires node == Node(leaves + [leaf], h, Shr(f.count, h))
    requires f.count + 1 < Pow2(HEIGHT)
    ensures Represents(Frontier(f.count + 1, Park(f.branch, h, node)), leaves + [leaf])
  {
    var n, m, g := f.count, f.count + 1, Frontier(f.count + 1, Park(f.branch, h, node));
    BitsAfterCarry(n, m, h);
    forall x | 0 <= x < HEIGHT && Bit(m, x)
      ensures x < |g.branch| && g.branch[x] == Node(leaves + [leaf], x, Shr(m, x) - 1)
    {
      assert x >= h;
      if x > h {
        assert Bit(n, x);
        CompleteIsStable(leaves, [leaf], x, Shr(n, x) - 1);
      }
    }
  }

  /** A carry succeeds exactly while the tree has room, and then stands for one more leaf. */
  lemma {:induction false} CarryRepresents(f: Frontier, leaves: seq<Hash>, leaf: Hash, node: Hash, h: nat)
    requires Represents(f, leaves) && h <= HEIGHT
    requires forall x :: 0 <= x < h ==> Bit(f.count, x)
    requires node == Node(leaves + [leaf], h, Shr(f.count, h))
    ensures Carry(f, node, h).Some? <==> f.count + 1 < Pow2(HEIGHT)
    ensures Carry(f, node, h).Some? ==> Represents(Carry(f, node, h).value, leaves + [leaf])
    decreases HEIGHT - h
  {
    var n := f.count;
    if h == HEIGHT {
      AllOnes(n, HEIGHT);
    } else if !Bit(n, h) {
      RoomAbove(n, h);
      ParkRepresents(f, leaves, leaf, node, h);
    } else {
      CompleteIsStable(leaves, [leaf], h, Shr(n, h) - 1);
      var k := Shr(n, h + 1);
      assert Shr(n, h) == 2 * k + 1;
      CarryRepresents(f, leaves, leaf, hashPair(f.branch[h], node), h + 1);
    }
  }

  /** A clear bit below the height leaves room for one more. */
  lemma {:induction false} RoomAbove(n: nat, h: nat)
    requires h < HEIGHT && n < Pow2(HEIGHT)
    requires forall x :: 0 <= x < h ==> Bit(n, x)
    requires !Bit(n, h)
    ensures n + 1 < Pow2(HEIGHT)
  {
    BitsAfterCarry(n, n + 1, h);
    ShrSmall(n, HEIGHT);
    ShrSmall(n + 1, HEIGHT);
  }

  lemma {:induction false} InsertRepresents(f: Frontier, leaves: seq<Hash>, leaf: Hash)
    requires Represents(f, leaves)
    ensures Carry(f, leaf, 0).Some? <==> |leaves| + 1 < Pow2(HEIGHT)
    ensures Carry(f, leaf, 0).Some? ==> Represents(Carry(f, leaf, 0).value, leaves + [leaf])
  {
    assert LeafAt(leaves + [leaf], |leaves|) == leaf;
    CarryRepresents(f, leaves, leaf, leaf, 0);
  }

  lemma {:induction false} AppendRepresents(f: Frontier, leaves: seq<Hash>, more: seq<Hash>)
    requires Represents(f, leaves)
    ensures Append(f, more).Some? <==> |leaves + more| < Pow2(HEIGHT)
    ensures Append(f, more).Some? ==> Represents(Append(f, more).value, leaves + more)
    decreases |more|
  {
    if more == [] {
      assert leaves + more == leaves;
    } else {
      InsertRepresents(f, leaves, more[0]);
      assert leaves + [more[0]] + more[1..] == leaves + more;
      var next := Carry(f, more[0], 0);
      if next.Some? {
        AppendRepresents(next.value, leaves + [more[0]], more[1..]);
        assert Append(f, more) == Append(next.value, more[1..]);
      }
    }
  }

  // ----------------------------------------------------------------------- root

  lemma {:induction false} RootFromIsNode(f: Frontier, leaves: seq<Hash>, node: Hash, h: nat)
    requires Represents(f, leaves) && h <= HEIGHT
    requires node == Node(leaves, h, Shr(f.count, h))
    ensures RootFrom(f, node, h) == Node(leaves, HEIGHT, 0)
    decreases HEIGHT - h
  {
    var n := f.count;
    if h == HEIGHT {
      ShrSmall(n, HEIGHT);
    } else {
      var k := Shr(n, h + 1);
      if Bit(n, h) {
        assert Shr(n, h) == 2 * k + 1;
        RootFromIsNode(f, leaves, hashPair(f.branch[h], node), h + 1);
      } else {
        assert Shr(n, h) == 2 * k;
        BeyondIsZero(leaves, h, 2 * k + 1);
        RootFromIsNode(f, leaves, hashPair(node, Zero(h)), h + 1);
      }
    }
  }

  lemma {:induction false} RootIsPadded(f: Frontier, leaves: seq<Hash>)
    requires Represents(f, leaves)
    ensures Root(f) == Node(leaves, HEIGHT, 0)
  {
    RootFromIsNode(f, leaves, zeroHash, 0);
  }

  // -------------------------------------------------------------------- batches

  function Flatten(batches: seq<seq<Hash>>): (r: seq<Hash>) {
    if batches == [] then [] else Flatten(batches[..|batches| - 1]) + batches[|batches| - 1]
  }

  function AppendAll(batches: seq<seq<Hash>>): (r: Option<Frontier>)
    decreases |batches|
  {
    if batches == [] then Some(EMPTY)
    else
      var before := AppendAll(batches[..|batches| - 1]);
      if before.None? then None else Append(before.value, batches[|batches| - 1])
  }

  lemma {:induction false} EmptyRepresents()
    ensures Represents(EMPTY, [])
  {
    forall h: nat ensures Shr(0, h) == 0 { ShrZero(h); }
  }

  lemma {:induction false} ShrZero(h: nat)
    ensures Shr(0, h) == 0
  {
    if h > 0 { ShrZero(h - 1); }
  }

  /**
    However a list of leaves is split into appends, the frontier's root is the root
    of the height-63 zero-padded tree over the whole list, and the appends go
    through exactly when the list is shorter than 2^63.
   */
  lemma {:induction false} BatchesAgree(batches: seq<seq<Hash>>)
    ensures AppendAll(batches).Some? <==> |Flatten(batches)| < Pow2(HEIGHT)
    ensures AppendAll(batches).Some? ==>
      && Represents(AppendAll(batches).value, Flatten(batches))
      && Root(AppendAll(batches).value) == Node(Flatten(batches), HEIGHT, 0)
    decreases |batches|
  {
    if batches == [] {
      EmptyRepresents();
    } else {
      var init := batches[..|batches| - 1];
      BatchesAgree(init);
      if AppendAll(init).Some? {
        AppendRepresents(AppendAll(init).value, Flatten(init), batches[|batches| - 1]);
      }
    }
    if AppendAll(batches).Some? {
      RootIsPadded(AppendAll(batches).value, Flatten(batches));
    }
  }
}
