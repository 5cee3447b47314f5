/**
  What the withdrawal commitment of a block holds, slot by slot: one slot for every
  withdrawal emitted on its ancestry, the outputs root in its own slot, and nothing else.
 */
module CommitmentSlots {
  import opened Options
  import opened Hashing
  import opened Filtering
  import opened Execution
  import opened OutputTree
  import opened Blocks
  import opened Ancestry

  /** An output that is the withdrawal of a slot. */
  ghost predicate Fills(output: Bytes, s: Hash) {
    withdrawalIn(output).Some? && IsSlotOf(withdrawalIn(output).value, s)
  }

  ghost predicate IsSlotOf(hash: Hash, s: Hash) {
    withdrawalSlot(hash) == s
  }

  ghost predicate AnySlotOf(hashes: seq<Hash>, s: Hash) {
    exists k :: 0 <= k < |hashes| && IsSlotOf(hashes[k], s)
  }

  ghost predicate AnyFills(outs: seq<Bytes>, s: Hash) {
    exists k :: 0 <= k < |outs| && Fills(outs[k], s)
  }

  /** Some output of some transaction of the block is the withdrawal of the slot. */
  ghost predicate BlockFills(txs: seq<TxOutputs>, s: Hash) {
    exists i, j :: 0 <= i < |txs| && 0 <= j < |txs[i].outputs| && Fills(txs[i].outputs[j], s)
  }

  /** What the outputs carry, one by one. */
  function Carried(outs: seq<Bytes>): (r: seq<Option<Hash>>)
    ensures |r| == |outs| && forall k :: 0 <= k < |outs| ==> r[k] == withdrawalIn(outs[k])
  {
    seq(|outs|, k requires 0 <= k < |outs| => withdrawalIn(outs[k]))
  }

  /** The withdrawal hashes of a list of outputs are what the outputs carry, in emission order. */
  lemma {:induction false} WithdrawalsInOrder(outs: seq<Bytes>)
    ensures Gathers(Carried(outs), Withdrawals(outs))
    decreases |outs|
  {
    if outs != [] {
      var init := outs[..|outs| - 1];
      WithdrawalsInOrder(init);
      GathersNext(Carried(init), Withdrawals(init), Carried(outs), Withdrawals(outs));
    }
  }

  /** The outputs of a block are those of its transactions, each in its place. */
  lemma {:induction false} FoundInBlock(txs: seq<TxOutputs>, k: nat) returns (i: nat, j: nat)
    requires k < |AllOutputs(txs)|
    ensures i < |txs| && j < |txs[i].outputs| && AllOutputs(txs)[k] == txs[i].outputs[j]
    decreases |txs|
  {
    var init := txs[..|txs| - 1];
    if k < |AllOutputs(init)| {
      i, j := FoundInBlock(init, k);
    } else {
      i, j := |txs| - 1, k - |AllOutputs(init)|;
    }
  }

  lemma {:induction false} FillsAlike(txs: seq<TxOutputs>, s: Hash)
    ensures AnyFills(AllOutputs(txs), s) <==> BlockFills(txs, s)
  {
    var outs := AllOutputs(txs);
    if AnyFills(outs, s) {
      var k :| 0 <= k < |outs| && Fills(outs[k], s);
      var i, j := FoundInBlock(txs, k);
      assert Fills(txs[i].outputs[j], s);
    }
    if BlockFills(txs, s) {
      var i, j :| 0 <= i < |txs| && 0 <= j < |txs[i].outputs| && Fills(txs[i].outputs[j], s);
      OutputsAt(txs, i, j);
      assert Fills(outs[CountOutputs(txs[..i]) + j], s);
    }
  }

  lemma {:induction false} InsertedSlots(p: Passer, hashes: seq<Hash>, s: Hash)
    ensures var r := InsertAll(p, hashes);
      if AnySlotOf(hashes, s) then s in r && r[s] == Sent
      else (s in r <==> s in p) && (s in p ==> r[s] == p[s])
    decreases |hashes|
  {
    if hashes != [] {
      var n := |hashes| - 1;
      InsertedSlots(p, hashes[..n], s);
      if AnySlotOf(hashes[..n], s) {
        var k :| 0 <= k < n && IsSlotOf(hashes[..n][k], s);
        assert IsSlotOf(hashes[k], s);
      }
      if AnySlotOf(hashes, s) {
        var k :| 0 <= k < |hashes| && IsSlotOf(hashes[k], s);
        if k < n { assert IsSlotOf(hashes[..n][k], s); }
      }
      assert IsSlotOf(hashes[n], s) ==> AnySlotOf(hashes, s);
    }
  }

  lemma {:induction false} FilledBy(outs: seq<Bytes>, s: Hash)
    ensures AnySlotOf(Withdrawals(outs), s) <==> AnyFills(outs, s)
  {
    var ws, offers := Withdrawals(outs), Carried(outs);
    WithdrawalsInOrder(outs);
    if AnySlotOf(ws, s) {
      var k :| 0 <= k < |ws| && IsSlotOf(ws[k], s);
      InGathered(offers, ws, ws[k]);
      var i :| 0 <= i < |offers| && offers[i] == Some(ws[k]);
      assert Fills(outs[i], s);
    }
    if AnyFills(outs, s) {
      var i :| 0 <= i < |outs| && Fills(outs[i], s);
      assert offers[i] == Some(withdrawalIn(outs[i]).value);
      InGathered(offers, ws, withdrawalIn(outs[i]).value);
      var k :| 0 <= k < |ws| && ws[k] == withdrawalIn(outs[i]).value;
      assert IsSlotOf(ws[k], s);
    }
  }

  /** One slot of a commitment, from what was there and whether a withdrawal filled it. */
  ghost predicate SlotIs(p: Passer, s: Hash, root: Hash, filled: bool, base: Passer) {
    if s == outputsRootSlot then s in p && p[s] == OutputsRoot(root)
    else if filled then s in p && p[s] == Sent
    else (s in p <==> s in base) && (s in p ==> p[s] == base[s])
  }

  /**
    Extending a commitment by a block: a slot is filled exactly by a withdrawal among the
    outputs of the block's transactions, the outputs root moves, and every other slot is
    as it was.
   */
  lemma {:induction false} ExtendedSlots(base: Passer, outputs: seq<TxOutputs>, root: Hash, s: Hash)
    ensures SlotIs(ExtendPasser(base, outputs, root), s, root, BlockFills(outputs, s), base)
  {
    InsertedSlots(base, Withdrawals(AllOutputs(outputs)), s);
    FilledBy(AllOutputs(outputs), s);
    FillsAlike(outputs, s);
  }

  lemma {:induction false} CommittedSlots(outs: seq<Bytes>, root: Hash, s: Hash)
    ensures SlotIs(Committed(outs, root), s, root, AnyFills(outs, s), map[])
  {
    InsertedSlots(map[], Withdrawals(outs), s);
    FilledBy(outs, s);
  }

  // ---------------------------------------------------------------- over a whole chain

  /** A withdrawal of the slot was emitted before the root, or by a block above it on the way to this one. */
  ghost predicate Withdrawn(t: BlockTree, base: Base, h: Hash, s: Hash)
    requires Linked(t) && h in t.nodes
  {
    AnyFills(base.outputs, s) ||
    exists a :: a in t.nodes && a != t.root && IsAncestor(t, a, h) && BlockFills(t.nodes[a].outputs, s)
  }

  lemma {:induction false} FillsEither(a: seq<Bytes>, b: seq<Bytes>, s: Hash)
    ensures AnyFills(a + b, s) <==> AnyFills(a, s) || AnyFills(b, s)
  {
    if AnyFills(a, s) {
      var k :| 0 <= k < |a| && Fills(a[k], s);
      assert (a + b)[k] == a[k];
    }
    if AnyFills(b, s) {
      var k :| 0 <= k < |b| && Fills(b[k], s);
      assert (a + b)[|a| + k] == b[k];
    }
    if AnyFills(a + b, s) {
      var k :| 0 <= k < |a + b| && Fills((a + b)[k], s);
      if k < |a| { assert a[k] == (a + b)[k]; } else { assert b[k - |a|] == (a + b)[k]; }
    }
  }

  lemma {:induction false} WithdrawnStep(t: BlockTree, base: Base, h: Hash, s: Hash)
    requires Linked(t) && h in t.nodes && h != t.root && t.Parent(h) in t.nodes
    ensures Withdrawn(t, base, h, s) <==> Withdrawn(t, base, t.Parent(h), s) || BlockFills(t.nodes[h].outputs, s)
  {
    var p := t.Parent(h);
    assert LinkedAt(t, h);
    assert IsAncestor(t, h, h);
    assert forall a :: a in t.nodes ==> (IsAncestor(t, a, h) <==> a == h || IsAncestor(t, a, p));
  }

  lemma {:induction false} WithdrawnThrough(t: BlockTree, base: Base, h: Hash, s: Hash)
    requires Linked(t) && h in t.nodes
    ensures AnyFills(OutputsThrough(t, base, h), s) <==> Withdrawn(t, base, h, s)
    decreases t.Number(h)
  {
    assert LinkedAt(t, h);
    if h == t.root {
      assert forall a :: a in t.nodes && IsAncestor(t, a, h) ==> a == t.root;
    } else {
      var p := t.Parent(h);
      WithdrawnThrough(t, base, p, s);
      WithdrawnStep(t, base, h, s);
      FillsEither(OutputsThrough(t, base, p), AllOutputs(t.nodes[h].outputs), s);
      FillsAlike(t.nodes[h].outputs, s);
    }
  }

  /**
    The commitment of any block of any fork: a slot is taken exactly if a withdrawal of it
    was emitted on that block's ancestry, and the reserved slot holds the root of the
    outputs through the block.
   */
  lemma {:induction false} EveryWithdrawalIsCommitted(t: BlockTree, base: Base, h: Hash, s: Hash)
    requires Sound(t, base) && h in t.nodes
    ensures SlotIs(t.nodes[h].passer, s, Root(t.nodes[h].tree), Withdrawn(t, base, h, s), map[])
  {
    PasserIsCumulative(t, base, h);
    CommittedSlots(OutputsThrough(t, base, h), Root(t.nodes[h].tree), s);
    WithdrawnThrough(t, base, h, s);
  }
}
