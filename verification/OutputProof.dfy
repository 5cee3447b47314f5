/**
  Output validity proofs: the builder walks the levels of the real leaves, the
  verifier climbs from a leaf.  They meet at the accumulator's root, and a proof
  that reaches the root can only be the one the builder makes.
 */
module OutputProof {
  import opened Options
  import opened Hashing
  import opened MerkleTree
  import opened OutputTree
  import opened Accumulator

  datatype Proof = Proof(outputIndex: nat, siblings: seq<Hash>)

  function NodeAt(nodes: seq<Hash>, i: nat, default: Hash): (r: Hash) {
    if i < |nodes| then nodes[i] else default
  }

  /** The co-path of leaf i in the zero-padded tree, lowest level first. */
  ghost function CoPath(leaves: seq<Hash>, i: nat, h: nat): (r: seq<Hash>)
    ensures |r| == h
    ensures forall x :: 0 <= x < h ==> r[x] == Node(leaves, x, Sibling(Shr(i, x)))
  {
    if h == 0 then [] else CoPath(leaves, i, h - 1) + [Node(leaves, h - 1, Sibling(Shr(i, h - 1)))]
  }

  /** The node reached from a leaf at position i after h siblings. */
  function Climb(siblings: seq<Hash>, i: nat, leaf: Hash, h: nat): (r: Hash)
    requires h <= |siblings|
  {
    if h == 0 then leaf
    else
      var below := Climb(siblings, i, leaf, h - 1);
      if Bit(i, h - 1) then hashPair(siblings[h - 1], below) else hashPair(below, siblings[h - 1])
  }

  // ----------------------------------------------------------------- the builder

  /** One level holds every node that is not the default of that level. */
  ghost predicate IsLevel(nodes: seq<Hash>, leaves: seq<Hash>, h: nat) {
    && (forall i :: 0 <= i < |nodes| ==> nodes[i] == Node(leaves, h, i))
    && (forall i: nat :: i >= |nodes| ==> Node(leaves, h, i) == Zero(h))
  }

  lemma {:induction false} LevelAbove(nodes: seq<Hash>, up: seq<Hash>, leaves: seq<Hash>, h: nat)
    requires IsLevel(nodes, leaves, h)
    requires |up| == (|nodes| + 1) / 2
    requires forall i :: 0 <= i < |up| ==> up[i] == hashPair(nodes[2 * i], NodeAt(nodes, 2 * i + 1, Zero(h)))
    ensures IsLevel(up, leaves, h + 1)
  {
    var g := h + 1;
    forall i | 0 <= i < |up| ensures up[i] == Node(leaves, g, i) {
      assert Node(leaves, g, i) == hashPair(Node(leaves, h, 2 * i), Node(leaves, h, 2 * i + 1));
    }
    forall i: nat | i >= |up| ensures Node(leaves, g, i) == Zero(g) {
      assert Node(leaves, g, i) == hashPair(Node(leaves, h, 2 * i), Node(leaves, h, 2 * i + 1));
    }
  }

  method ParentLevel(nodes: seq<Hash>, default: Hash) returns (level: array<Hash>)
    ensures level.Length == (|nodes| + 1) / 2
    ensures forall i :: 0 <= i < level.Length ==>
      level[i] == hashPair(nodes[2 * i], NodeAt(nodes, 2 * i + 1, default))
  {
    var n := (|nodes| + 1) / 2;
    level := new Hash[n](_ => zeroHash);
    var i := 0;
    while i < n
      invariant 0 <= i <= n
      invariant forall x :: 0 <= x < i ==> level[x] == hashPair(nodes[2 * x], NodeAt(nodes, 2 * x + 1, default))
    {
      level[i] := hashPair(nodes[2 * i], NodeAt(nodes, 2 * i + 1, default));
      i := i + 1;
    }
  }

  method ProveOutput(leaves: seq<Hash>, index: nat) returns (r: Option<Proof>)
    ensures r.Some? <==> index < |leaves|
    ensures r.Some? ==> r.value == Proof(index, CoPath(leaves, index, HEIGHT))
  {
    if index >= |leaves| {
      return None;
    }
    var zeros := ZeroHashes();
    var siblings, level, cursor := [], leaves, index;
    var h := 0;
    while h < HEIGHT
      invariant 0 <= h <= HEIGHT
      invariant forall x :: 0 <= x <= HEIGHT ==> zeros[x] == Zero(x)
      invariant IsLevel(level, leaves, h)
      invariant cursor == Shr(index, h)
      invariant siblings == CoPath(leaves, index, h)
    {
      siblings := siblings + [NodeAt(level, Sibling(cursor), zeros[h])];
      var up := ParentLevel(level, zeros[h]);
      LevelAbove(level, up[..], leaves, h);
      level, cursor := up[..], cursor / 2;
      h := h + 1;
    }
    return Some(Proof(index, siblings));
  }

  // ---------------------------------------------------------------- the verifier

  method RootAfterReplacement(siblings: seq<Hash>, index: nat, leaf: Hash) returns (root: Hash)
    ensures root == Climb(siblings, index, leaf, |siblings|)
  {
    root := leaf;
    var i := index;
    for h := 0 to |siblings|
      invariant i == Shr(index, h)
      invariant root == Climb(siblings, index, leaf, h)
    {
      if i % 2 == 0 {
        root := hashPair(root, siblings[h]);
      } else {
        root := hashPair(siblings[h], root);
      }
      i := i / 2;
    }
  }

  // -------------------------------------------------- completeness and binding

  lemma {:induction false} ClimbIsNode(leaves: seq<Hash>, i: nat, h: nat, top: nat)
    requires h <= top
    ensures Climb(CoPath(leaves, i, top), i, LeafAt(leaves, i), h) == Node(leaves, h, Shr(i, h))
    decreases h
  {
    if h > 0 {
      ClimbIsNode(leaves, i, h - 1, top);
      var k := Shr(i, h);
      assert Shr(i, h - 1) == if Bit(i, h - 1) then 2 * k + 1 else 2 * k;
    }
  }

  /** The proof of any output reproduces the accumulator's root, so the serving check never fires. */
  lemma {:induction false} ProofsComplete(f: Frontier, leaves: seq<Hash>, i: nat)
    requires Represents(f, leaves) && i < |leaves|
    ensures Climb(CoPath(leaves, i, HEIGHT), i, leaves[i], HEIGHT) == Root(f)
  {
    ClimbIsNode(leaves, i, HEIGHT, HEIGHT);
    ShrSmall(i, HEIGHT);
    RootIsPadded(f, leaves);
  }

  /** The pair a climb hashes at a level, and the pair the tree has there. */
  function ClimbPair(siblings: seq<Hash>, i: nat, leaf: Hash, h: nat): (p: (Hash, Hash))
    requires h < |siblings|
  {
    var below := Climb(siblings, i, leaf, h);
    if Bit(i, h) then (siblings[h], below) else (below, siblings[h])
  }

  function TreePair(leaves: seq<Hash>, i: nat, h: nat): (p: (Hash, Hash)) {
    var k := Shr(i, h + 1);
    (Node(leaves, h, 2 * k), Node(leaves, h, 2 * k + 1))
  }

  /** At this level the climb and the tree show two different pairs under one hash. */
  predicate CollidesAt(leaves: seq<Hash>, i: nat, siblings: seq<Hash>, leaf: Hash, h: nat)
    requires h < |siblings|
  {
    var a, b := ClimbPair(siblings, i, leaf, h), TreePair(leaves, i, h);
    a != b && hashPair(a.0, a.1) == hashPair(b.0, b.1)
  }

  lemma {:induction false} ClimbOpens(leaves: seq<Hash>, i: nat, siblings: seq<Hash>, leaf: Hash, h: nat)
    requires h <= |siblings|
    requires Climb(siblings, i, leaf, h) == Node(leaves, h, Shr(i, h))
    ensures (leaf == LeafAt(leaves, i) && siblings[..h] == CoPath(leaves, i, h)) ||
      exists x :: 0 <= x < h && CollidesAt(leaves, i, siblings, leaf, x)
    decreases h
  {
    if h > 0 {
      var k, low := Shr(i, h), Shr(i, h - 1);
      assert low == if Bit(i, h - 1) then 2 * k + 1 else 2 * k;
      if ClimbPair(siblings, i, leaf, h - 1) == TreePair(leaves, i, h - 1) {
        ClimbOpens(leaves, i, siblings, leaf, h - 1);
        assert siblings[..h] == siblings[..h - 1] + [siblings[h - 1]];
      } else {
        assert CollidesAt(leaves, i, siblings, leaf, h - 1);
      }
    }
  }

  /**
    A proof of full height at an index below 2^63 that reproduces the root opens to
    the leaf of the padded tree at that index, through the very siblings the builder
    computes, unless the climb itself exhibits two different pairs with one hash.
   */
  lemma {:induction false} ProofsBind(f: Frontier, leaves: seq<Hash>, i: nat, siblings: seq<Hash>, leaf: Hash)
    requires Represents(f, leaves) && i < Pow2(HEIGHT)
    requires |siblings| == HEIGHT
    requires Climb(siblings, i, leaf, HEIGHT) == Root(f)
    ensures (leaf == LeafAt(leaves, i) && siblings == CoPath(leaves, i, HEIGHT)) ||
      exists x :: 0 <= x < HEIGHT && CollidesAt(leaves, i, siblings, leaf, x)
  {
    RootIsPadded(f, leaves);
    ShrSmall(i, HEIGHT);
    ClimbOpens(leaves, i, siblings, leaf, HEIGHT);
    assert siblings[..HEIGHT] == siblings;
  }

  /** The builder, the verifier and the accumulator meet: the check before serving a proof always passes. */
  method OutputProofAt(tree: Tree, leaves: seq<Hash>, index: nat) returns (r: Option<Proof>)
    requires Represents(tree.View(), leaves)
    ensures r.Some? <==> index < |leaves|
    ensures r.Some? ==>
      && r.value == Proof(index, CoPath(leaves, index, HEIGHT))
      && Climb(r.value.siblings, index, leaves[index], HEIGHT) == Root(tree.View())
  {
    if index >= |leaves| {
      return None;
    }
    r := ProveOutput(leaves, index);
    if r.None? {
      return;
    }
    var got := RootAfterReplacement(r.value.siblings, index, leaves[index]);
    var committed := tree.Root();
    ProofsComplete(tree.View(), leaves, index);
    if got != committed {
      assert false;
      return None;
    }
  }
}
