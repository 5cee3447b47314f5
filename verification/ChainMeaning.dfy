/**
  What the blocks of a chain mean, told from the machine: every block's state, records and
  gas are what its transactions, entered in order under chain-wide numbers, make of its
  parent's state.
 */
module ChainMeaning {
  import opened Hashing
  import opened MachineWords
  import opened Execution
  import opened ExecutionTrace
  import opened Blocks
  import opened Ancestry
  import opened ChainInvariant

  /** The context a block's transactions are entered under; inputs are numbered on from all those before. */
  ghost function ContextAt(cfg: Config, t: BlockTree, base: Base, h: Hash): (ic: InputContext)
    requires Linked(t) && h in t.nodes && t.Parent(h) in t.nodes
  {
    InputContext(cfg.chainId, cfg.appContract, Low64(t.Number(h)), t.Time(h), t.nodes[h].block.header.mixDigest,
                 Low64(base.inputs + TxCount(t, t.Parent(h))))
  }

  /** The header's gas is the trace's, as far as the block's limit. */
  predicate GasClaimed(h: Header, gas: nat) {
    h.gasUsed == if gas <= h.gasLimit then gas else h.gasLimit
  }

  /**
    Every block of every fork is what the machine makes of it: from the parent's state its
    transactions lead to the block's own, each recorded as the machine answered it, and the
    header names the state and the gas.
   */
  lemma {:induction false} BlockIsTrace(cfg: Config, t: BlockTree, base: Base, states: map<Hash, Machine>, h: Hash)
    returns (tr: Trace)
    requires Sound(t, base) && states.Keys == t.nodes.Keys && Honest(cfg, t, states) && h in t.nodes && h != t.root
    ensures t.Parent(h) in t.nodes
    ensures var n, ic := t.nodes[h], ContextAt(cfg, t, base, h);
      && Traces(tr, states[t.Parent(h)], ic, cfg.maxCycles, n.block.txs)
      && states[h] == tr.machines[|n.block.txs|] && n.block.header.root == rootHash(states[h])
      && ExecutionTrace.AllRecorded(tr.steps, n.block.txs, n.outputs)
      && GasClaimed(n.block.header, Low64(GasOf(tr.steps, |n.block.txs|)))
  {
    assert LinkedAt(t, h) && HonestAt(cfg, t, states, h);
    var p, b := t.Parent(h), t.nodes[h].block;
    InputsAreCumulative(t, base, p);
    assert ContextOf(cfg, b.header, t.nodes[p].inputs) == ContextAt(cfg, t, base, h);
    tr := ReplayTraces(states[p], ContextAt(cfg, t, base, h), cfg.maxCycles, b.txs);
  }

  /** The i-th transaction of a block enters as the input after all inputs of its ancestry and those before it. */
  lemma {:induction false} InputsAreNumbered(cfg: Config, t: BlockTree, base: Base, h: Hash, i: nat)
    requires Linked(t) && h in t.nodes && t.Parent(h) in t.nodes && i < |t.nodes[h].block.txs|
    ensures InputAt(ContextAt(cfg, t, base, h), i, t.nodes[h].block.txs[i]).index ==
      Low64(base.inputs + TxCount(t, t.Parent(h)) + i)
  {
    AddLow(base.inputs + TxCount(t, t.Parent(h)), i);
  }
}
