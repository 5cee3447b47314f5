/**
  The block tree in memory: every block hangs from one root, which is genesis or the
  checkpoint the node restarted from, and carries records accumulated along its own
  ancestry.  Forks share ancestors and nothing else.
 */
module Ancestry {
  import opened Options
  import opened Hashing
  import opened MachineWords
  import opened Execution
  import opened OutputTree
  import opened Blocks

  /** A block and what executing it left behind: its outputs, and records cumulative over its ancestry. */
  datatype Node = Node(block: Block, outputs: seq<TxOutputs>, tree: Frontier, passer: Passer, inputs: nat)

  datatype BlockTree = BlockTree(root: Hash, nodes: map<Hash, Node>) {
    function Number(h: Hash): (n: nat)
      requires h in nodes
    {
      nodes[h].block.header.number
    }

    function Parent(h: Hash): (p: Hash)
      requires h in nodes
    {
      nodes[h].block.header.parentHash
    }

    function Time(h: Hash): (n: nat)
      requires h in nodes
    {
      nodes[h].block.header.time
    }
  }

  /** What everything before and including the root contributed. */
  datatype Base = Base(inputs: nat, outputs: seq<Bytes>)

  /** A block is filed under its hash and, unless it is the root, one above its parent and later. */
  ghost predicate LinkedAt(t: BlockTree, h: Hash)
    requires h in t.nodes
  {
    && headerHash(t.nodes[h].block.header) == h
    && (h != t.root ==>
          t.Parent(h) in t.nodes && t.Number(h) == t.Number(t.Parent(h)) + 1 && t.Time(h) > t.Time(t.Parent(h)))
  }

  ghost predicate Linked(t: BlockTree) {
    && t.root in t.nodes
    && forall h {:trigger LinkedAt(t, h)} :: h in t.nodes ==> LinkedAt(t, h)
  }

  /** The records of one block extend those of its parent by what the block itself did. */
  ghost predicate Extends(t: BlockTree, h: Hash)
    requires h in t.nodes && t.Parent(h) in t.nodes
  {
    var p := t.Parent(h);
    && t.nodes[h].inputs == Add64(t.nodes[p].inputs, |t.nodes[h].block.txs|)
    && Append(t.nodes[p].tree, Leaves(AllOutputs(t.nodes[h].outputs))) == Some(t.nodes[h].tree)
    && t.nodes[h].passer == ExtendPasser(t.nodes[p].passer, t.nodes[h].outputs, Root(t.nodes[h].tree))
  }

  /** The commitment over a list of outputs: their withdrawals, and the outputs root in its slot. */
  function Committed(outs: seq<Bytes>, root: Hash): (p: Passer) {
    InsertAll(map[], Withdrawals(outs))[outputsRootSlot := OutputsRoot(root)]
  }

  predicate EndsWith(all: seq<Bytes>, tail: seq<Bytes>) {
    |tail| <= |all| && forall i :: 0 <= i < |tail| ==> all[|all| - |tail| + i] == tail[i]
  }

  ghost predicate Rooted(t: BlockTree, base: Base)
    requires t.root in t.nodes
  {
    && t.nodes[t.root].inputs == base.inputs < TWO_64
    && Represents(t.nodes[t.root].tree, Leaves(base.outputs))
    && t.nodes[t.root].passer == Committed(base.outputs, Root(t.nodes[t.root].tree))
    && EndsWith(base.outputs, AllOutputs(t.nodes[t.root].outputs))
  }

  ghost predicate Sound(t: BlockTree, base: Base) {
    && Linked(t)
    && Rooted(t, base)
    && forall h {:trigger Extends(t, h)} :: h in t.nodes && h != t.root && LinkedAt(t, h) ==> Extends(t, h)
  }

  lemma {:induction false} NotBelowRoot(t: BlockTree, h: Hash)
    requires Linked(t) && h in t.nodes
    ensures t.Number(h) >= t.Number(t.root)
    ensures h != t.root ==> t.Number(h) > t.Number(t.root)
    decreases t.Number(h)
  {
    assert LinkedAt(t, h);
    if h != t.root { NotBelowRoot(t, t.Parent(h)); }
  }

  ghost predicate IsAncestor(t: BlockTree, a: Hash, h: Hash)
    requires Linked(t) && a in t.nodes && h in t.nodes
    decreases t.Number(h)
  {
    assert LinkedAt(t, h);
    a == h || (h != t.root && IsAncestor(t, a, t.Parent(h)))
  }

  // ---------------------------------------------------------- cumulative records

  ghost function TxCount(t: BlockTree, h: Hash): (n: nat)
    requires Linked(t) && h in t.nodes
    decreases t.Number(h)
  {
    assert LinkedAt(t, h);
    if h == t.root then 0 else TxCount(t, t.Parent(h)) + |t.nodes[h].block.txs|
  }

  /** Every provable output from the beginning of the chain through a block, in index order. */
  ghost function OutputsThrough(t: BlockTree, base: Base, h: Hash): (r: seq<Bytes>)
    requires Linked(t) && h in t.nodes
    decreases t.Number(h)
  {
    assert LinkedAt(t, h);
    if h == t.root then base.outputs
    else OutputsThrough(t, base, t.Parent(h)) + AllOutputs(t.nodes[h].outputs)
  }

  /** Cutting the tree above its root, with what came before as the base, leaves the outputs through every block. */
  lemma {:induction false} OutputsWithin(t: BlockTree, u: BlockTree, base: Base, above: Base, h: Hash)
    requires Linked(t) && Linked(u) && h in u.nodes
    requires forall x :: x in u.nodes ==> x in t.nodes && t.nodes[x] == u.nodes[x]
    requires above.outputs == OutputsThrough(t, base, u.root)
    ensures OutputsThrough(u, above, h) == OutputsThrough(t, base, h)
    decreases u.Number(h)
  {
    assert LinkedAt(t, h) && LinkedAt(u, h);
    if h != u.root {
      NotBelowRoot(t, u.root);
      NotBelowRoot(u, h);
      OutputsWithin(t, u, base, above, u.Parent(h));
    }
  }

  lemma {:induction false} InsertAllConcat(p: Passer, a: seq<Hash>, b: seq<Hash>)
    ensures InsertAll(InsertAll(p, a), b) == InsertAll(p, a + b)
    decreases |b|
  {
    if b == [] {
      assert a + b == a;
    } else {
      assert (a + b)[..|a + b| - 1] == a + b[..|b| - 1];
      InsertAllConcat(p, a, b[..|b| - 1]);
    }
  }

  lemma {:induction false} WithdrawalsConcat(a: seq<Bytes>, b: seq<Bytes>)
    ensures Withdrawals(a + b) == Withdrawals(a) + Withdrawals(b)
    decreases |b|
  {
    if b == [] {
      assert a + b == a;
    } else {
      assert (a + b)[..|a + b| - 1] == a + b[..|b| - 1];
      WithdrawalsConcat(a, b[..|b| - 1]);
    }
  }

  /** Whatever the outputs root slot held before, moving it last makes it irrelevant. */
  lemma {:induction false} SlotIsOverwritten(p: Passer, x: SlotValue, ws: seq<Hash>, y: SlotValue)
    ensures InsertAll(p[outputsRootSlot := x], ws)[outputsRootSlot := y] == InsertAll(p, ws)[outputsRootSlot := y]
    decreases |ws|
  {
    if ws != [] {
      SlotIsOverwritten(p, x, ws[..|ws| - 1], y);
      var a := InsertAll(p[outputsRootSlot := x], ws[..|ws| - 1]);
      var b := InsertAll(p, ws[..|ws| - 1]);
      var s := withdrawalSlot(ws[|ws| - 1]);
      assert a[outputsRootSlot := y][s := Sent][outputsRootSlot := y] == a[s := Sent][outputsRootSlot := y];
      assert b[outputsRootSlot := y][s := Sent][outputsRootSlot := y] == b[s := Sent][outputsRootSlot := y];
    }
  }

  /** Extending a commitment block by block is committing to the concatenation. */
  lemma {:induction false} ExtendIsCommitted(outs: seq<Bytes>, old_root: Hash, more: seq<TxOutputs>, root: Hash)
    ensures ExtendPasser(Committed(outs, old_root), more, root) == Committed(outs + AllOutputs(more), root)
  {
    var a, b := Withdrawals(outs), Withdrawals(AllOutputs(more));
    SlotIsOverwritten(InsertAll(map[], a), OutputsRoot(old_root), b, OutputsRoot(root));
    InsertAllConcat(map[], a, b);
    WithdrawalsConcat(outs, AllOutputs(more));
  }

  lemma {:induction false} LeavesConcat(a: seq<Bytes>, b: seq<Bytes>)
    ensures Leaves(a + b) == Leaves(a) + Leaves(b)
  {
  }

  ghost predicate CountsAt(t: BlockTree, h: Hash)
    requires h in t.nodes && t.Parent(h) in t.nodes
  {
    t.nodes[h].inputs == Add64(t.nodes[t.Parent(h)].inputs, |t.nodes[h].block.txs|)
  }

  lemma {:induction false} CountsAddUp(t: BlockTree, first: nat, h: Hash)
    requires Linked(t) && h in t.nodes
    requires t.nodes[t.root].inputs == first < TWO_64
    requires forall x {:trigger CountsAt(t, x)} :: x in t.nodes && x != t.root && t.Parent(x) in t.nodes ==> CountsAt(t, x)
    ensures t.nodes[h].inputs == Low64(first + TxCount(t, h))
    decreases t.Number(h)
  {
    assert LinkedAt(t, h);
    if h == t.root {
      assert TxCount(t, h) == 0;
    } else {
      var p, n := t.Parent(h), |t.nodes[h].block.txs|;
      CountsAddUp(t, first, p);
      assert CountsAt(t, h);
      AddLow(first + TxCount(t, p), n);
      assert TxCount(t, h) == TxCount(t, p) + n;
    }
  }

  lemma {:induction false} InputsAreCumulative(t: BlockTree, base: Base, h: Hash)
    requires Sound(t, base) && h in t.nodes
    ensures t.nodes[h].inputs == Low64(base.inputs + TxCount(t, h))
  {
    forall x | x in t.nodes && x != t.root && t.Parent(x) in t.nodes ensures CountsAt(t, x) {
      assert LinkedAt(t, x) && Extends(t, x);
    }
    CountsAddUp(t, base.inputs, h);
  }

  lemma {:induction false} TreeIsCumulative(t: BlockTree, base: Base, h: Hash)
    requires Sound(t, base) && h in t.nodes
    ensures Represents(t.nodes[h].tree, Leaves(OutputsThrough(t, base, h)))
    decreases t.Number(h)
  {
    assert LinkedAt(t, h);
    if h != t.root {
      var p := t.Parent(h);
      TreeIsCumulative(t, base, p);
      assert Extends(t, h);
      var before, own := OutputsThrough(t, base, p), AllOutputs(t.nodes[h].outputs);
      AppendRepresents(t.nodes[p].tree, Leaves(before), Leaves(own));
      LeavesConcat(before, own);
    }
  }

  lemma {:induction false} PasserIsCumulative(t: BlockTree, base: Base, h: Hash)
    requires Sound(t, base) && h in t.nodes
    ensures t.nodes[h].passer == Committed(OutputsThrough(t, base, h), Root(t.nodes[h].tree))
    decreases t.Number(h)
  {
    assert LinkedAt(t, h);
    if h != t.root {
      var p := t.Parent(h);
      PasserIsCumulative(t, base, p);
      assert Extends(t, h);
      ExtendIsCommitted(OutputsThrough(t, base, p), Root(t.nodes[p].tree), t.nodes[h].outputs, Root(t.nodes[h].tree));
    }
  }

  // --------------------------------------------------------- stable numbering

  /** Outputs through a block are a prefix of the outputs through any descendant. */
  lemma {:induction false} NumberingIsStable(t: BlockTree, base: Base, a: Hash, h: Hash)
    requires Linked(t) && a in t.nodes && h in t.nodes && IsAncestor(t, a, h)
    ensures OutputsThrough(t, base, a) <= OutputsThrough(t, base, h)
    decreases t.Number(h)
  {
    assert LinkedAt(t, h);
    if a != h { NumberingIsStable(t, base, a, t.Parent(h)); }
  }

  function CountOutputs(txs: seq<TxOutputs>): (n: nat)
    ensures n == |AllOutputs(txs)|
  {
    if txs == [] then 0 else CountOutputs(txs[..|txs| - 1]) + |txs[|txs| - 1].outputs|
  }

  /** The outputs of transaction i stand where the outputs before it end. */
  lemma {:induction false} OutputsAt(txs: seq<TxOutputs>, i: nat, k: nat)
    requires i < |txs| && k < |txs[i].outputs|
    ensures CountOutputs(txs[..i]) + k < CountOutputs(txs)
    ensures AllOutputs(txs)[CountOutputs(txs[..i]) + k] == txs[i].outputs[k]
    decreases |txs|
  {
    var init := txs[..|txs| - 1];
    if i < |txs| - 1 {
      assert init[..i] == txs[..i];
      OutputsAt(init, i, k);
    }
  }

  /** Where the k-th output of the i-th recorded transaction of a block is numbered. */
  function IndexOf(count: nat, txs: seq<TxOutputs>, i: nat, k: nat): (n: int)
    requires i <= |txs|
  {
    count - CountOutputs(txs) + CountOutputs(txs[..i]) + k
  }

  lemma {:induction false} IndexInBlock(all: seq<Bytes>, txs: seq<TxOutputs>, i: nat, k: nat)
    requires EndsWith(all, AllOutputs(txs))
    requires i < |txs| && k < |txs[i].outputs|
    ensures var n := IndexOf(|all|, txs, i, k);
      0 <= n < |all| && all[n] == txs[i].outputs[k]
  {
    OutputsAt(txs, i, k);
  }

  lemma {:induction false} BlockEnds(t: BlockTree, base: Base, h: Hash)
    requires Sound(t, base) && h in t.nodes
    ensures EndsWith(OutputsThrough(t, base, h), AllOutputs(t.nodes[h].outputs))
  {
    assert LinkedAt(t, h);
  }

  lemma {:induction false} CountIsLength(t: BlockTree, base: Base, h: Hash)
    requires Sound(t, base) && h in t.nodes
    ensures t.nodes[h].tree.count == |OutputsThrough(t, base, h)|
  {
    TreeIsCumulative(t, base, h);
  }

  /**
    The chain-wide index of the k-th output of the i-th recorded transaction of a
    block is the tree's count less the block's own outputs plus the outputs before
    it: the subtraction never goes below zero, and the index is that output's leaf
    position in the tree of this block and of every descendant.
   */
  lemma {:induction false} OutputIndexIsLeaf(t: BlockTree, base: Base, h: Hash, d: Hash, i: nat, k: nat)
    requires Sound(t, base) && h in t.nodes
    requires d in t.nodes && IsAncestor(t, h, d)
    requires i < |t.nodes[h].outputs| && k < |t.nodes[h].outputs[i].outputs|
    ensures t.nodes[h].tree.count >= CountOutputs(t.nodes[h].outputs)
    ensures var n := IndexOf(t.nodes[h].tree.count, t.nodes[h].outputs, i, k);
      && 0 <= n < t.nodes[h].tree.count <= t.nodes[d].tree.count
      && n < |OutputsThrough(t, base, d)| && OutputsThrough(t, base, d)[n] == t.nodes[h].outputs[i].outputs[k]
  {
    CountIsLength(t, base, h);
    CountIsLength(t, base, d);
    BlockEnds(t, base, h);
    IndexInBlock(OutputsThrough(t, base, h), t.nodes[h].outputs, i, k);
    NumberingIsStable(t, base, h, d);
  }
}
