/**
  Reading emissions back: which canonical block holds a transaction, the chain-wide
  numbers of its outputs, the synthesized receipts of a block, and the leaves an
  output proof is built from.  All of it must number outputs the way the tree does.
 */
module Emissions {
  import opened Options
  import opened Hashing
  import opened MachineWords
  import opened Execution
  import opened OutputTree
  import opened OutputProof
  import opened Blocks
  import opened Ancestry
  import opened Canonical
  import opened TxIndex

  // ----------------------------------------------------- from transaction to block

  ghost predicate OnPath(t: BlockTree, canon: map<nat, Hash>, h: Hash) {
    h in t.nodes && At(canon, t.Number(h)) == h
  }

  /** Resolves canonicality when asked, among every block a transaction ever appeared in. */
  method CanonicalBlockOf(t: BlockTree, canon: map<nat, Hash>, index: map<Hash, seq<Hash>>, x: Hash) returns (r: Option<Hash>)
    requires Indexed(t, index)
    ensures r.Some? ==> OnPath(t, canon, r.value) && RecordsTx(t.nodes[r.value], x)
    ensures r.None? ==> forall h :: OnPath(t, canon, h) ==> !RecordsTx(t.nodes[h], x)
  {
    var blocks := if x in index then index[x] else [];
    for i := 0 to |blocks|
      invariant forall j :: 0 <= j < i ==> !OnPath(t, canon, blocks[j])
    {
      assert Listed(index, x, blocks[i]);
      if At(canon, t.Number(blocks[i])) == blocks[i] {
        return Some(blocks[i]);
      }
    }
    forall h | OnPath(t, canon, h) ensures !RecordsTx(t.nodes[h], x) {
      assert Listed(index, x, h) <==> RecordsTx(t.nodes[h], x);
    }
    return None;
  }

  lemma {:induction false} AncestorAtIsAncestor(t: BlockTree, h: Hash, n: nat)
    requires Linked(t) && h in t.nodes && t.Number(t.root) <= n <= t.Number(h)
    ensures IsAncestor(t, AncestorAt(t, h, n), h)
    decreases t.Number(h)
  {
    assert LinkedAt(t, h);
    if n < t.Number(h) {
      NotBelowRoot(t, t.Parent(h));
      AncestorAtIsAncestor(t, t.Parent(h), n);
    }
  }

  lemma {:induction false} OnPathIsAncestor(t: BlockTree, canon: map<nat, Hash>, tip: Hash, h: Hash)
    requires Linked(t) && zeroHash !in t.nodes && tip in t.nodes && IsPath(t, canon, tip) && OnPath(t, canon, h)
    ensures IsAncestor(t, h, tip)
  {
    assert PathAt(t, canon, tip, t.Number(h));
    AncestorAtIsAncestor(t, tip, t.Number(h));
  }

  // ------------------------------------------------------------- numbered emissions

  datatype Located = Located(block: Hash, number: nat, firstIndex: nat, outputs: TxOutputs)

  /** A transaction's emissions are numbered where the tree of the tip has their leaves. */
  ghost predicate Numbered(t: BlockTree, base: Base, tip: Hash, e: Located)
    requires Linked(t) && tip in t.nodes
  {
    SitsAt(OutputsThrough(t, base, tip), e.firstIndex, e.outputs.outputs)
  }

  ghost predicate SitsAt(whole: seq<Bytes>, n: int, part: seq<Bytes>) {
    0 <= n && n + |part| <= |whole| && forall k :: 0 <= k < |part| ==> whole[n + k] == part[k]
  }

  lemma {:induction false} IndexFromIsNumbered(t: BlockTree, base: Base, h: Hash, tip: Hash, i: nat)
    requires Sound(t, base) && h in t.nodes && tip in t.nodes && IsAncestor(t, h, tip)
    requires i < |t.nodes[h].outputs|
    ensures IndexOf(t.nodes[h].tree.count, t.nodes[h].outputs, i, 0) >= 0
    ensures Numbered(t, base, tip, Located(h, t.Number(h),
      IndexOf(t.nodes[h].tree.count, t.nodes[h].outputs, i, 0), t.nodes[h].outputs[i]))
  {
    LiesWithin(t, base, h, tip);
    NumbersInBlock(OutputsThrough(t, base, h), OutputsThrough(t, base, tip), t.nodes[h].outputs, i);
  }

  /** A block's outputs close the list through it, and every later list begins with that one. */
  lemma {:induction false} LiesWithin(t: BlockTree, base: Base, h: Hash, tip: Hash)
    requires Sound(t, base) && h in t.nodes && tip in t.nodes && IsAncestor(t, h, tip)
    ensures t.nodes[h].tree.count == |OutputsThrough(t, base, h)|
    ensures EndsWith(OutputsThrough(t, base, h), AllOutputs(t.nodes[h].outputs))
    ensures OutputsThrough(t, base, h) <= OutputsThrough(t, base, tip)
  {
    CountIsLength(t, base, h);
    BlockEnds(t, base, h);
    NumberingIsStable(t, base, h, tip);
  }

  /** In a list that begins with the outputs through a block, the block's transactions are found where it counts them. */
  lemma {:induction false} NumbersInBlock(all: seq<Bytes>, whole: seq<Bytes>, outs: seq<TxOutputs>, i: nat)
    requires EndsWith(all, AllOutputs(outs)) && all <= whole && i < |outs|
    ensures SitsAt(whole, IndexOf(|all|, outs, i, 0), outs[i].outputs)
  {
    CountOfPrefix(outs, i);
    var n := IndexOf(|all|, outs, i, 0);
    forall k | 0 <= k < |outs[i].outputs| ensures whole[n + k] == outs[i].outputs[k] {
      IndexInBlock(all, outs, i, k);
    }
  }

  lemma {:induction false} CountOfPrefix(txs: seq<TxOutputs>, i: nat)
    requires i < |txs|
    ensures CountOutputs(txs[..i]) + |txs[i].outputs| <= CountOutputs(txs)
    decreases |txs|
  {
    var init := txs[..|txs| - 1];
    if i < |init| {
      assert init[..i] == txs[..i];
      CountOfPrefix(init, i);
    }
  }

  /** The emissions of a transaction in the canonical chain, numbered chain-wide. */
  method TxEmissions(t: BlockTree, canon: map<nat, Hash>, index: map<Hash, seq<Hash>>, x: Hash, ghost base: Base, ghost tip: Hash)
    returns (r: Option<Located>)
    requires Sound(t, base) && zeroHash !in t.nodes && Indexed(t, index)
    requires tip in t.nodes && IsPath(t, canon, tip)
    ensures r.None? <==> forall h :: OnPath(t, canon, h) ==> !RecordsTx(t.nodes[h], x)
    ensures r.Some? ==>
      && OnPath(t, canon, r.value.block) && r.value.number == t.Number(r.value.block)
      && r.value.outputs in t.nodes[r.value.block].outputs && r.value.outputs.txHash == Some(x)
      && Numbered(t, base, tip, r.value)
  {
    var found := CanonicalBlockOf(t, canon, index, x);
    if found.None? {
      return None;
    }
    var h := found.value;
    OnPathIsAncestor(t, canon, tip, h);
    LiesWithin(t, base, h, tip);
    var n := t.nodes[h];
    var i, at := FindTx(n.outputs, n.tree.count, x);
    IndexFromIsNumbered(t, base, h, tip, i);
    return Some(Located(h, t.Number(h), at, n.outputs[i]));
  }

  /** Where a block that ends at a count puts the first transaction of a hash it records. */
  method FindTx(all: seq<TxOutputs>, count: nat, x: Hash) returns (i: nat, at: nat)
    requires CountOutputs(all) <= count && exists j :: 0 <= j < |all| && all[j].txHash == Some(x)
    ensures i < |all| && all[i].txHash == Some(x) && at == IndexOf(count, all, i, 0)
    ensures forall j :: 0 <= j < i ==> all[j].txHash != Some(x)
  {
    i, at := 0, count - CountOutputs(all);
    while all[i].txHash != Some(x)
      invariant i < |all| && at == IndexOf(count, all, i, 0)
      invariant forall j :: 0 <= j < i ==> all[j].txHash != Some(x)
      decreases |all| - i
    {
      assert all[..i + 1][..i] == all[..i];
      at := at + |all[i].outputs|;
      i := i + 1;
    }
  }

  // ----------------------------------------------------------------------- receipts

  type GuestLog(==, 0, !new)
  /** The guest event an output decodes to, if it is one. */
  const guestLogIn: Bytes -> Option<GuestLog>

  datatype Log = RawOutput(outputIndex: nat, data: Bytes, logIndex: nat) | GuestEvent(log: GuestLog, logIndex: nat)
  datatype Receipt = Receipt(
    txHash: Option<Hash>, txIndex: nat, succeeded: bool, gasUsed: nat, cumulativeGas: nat, logs: seq<Log>)

  /** The gas of the first i transactions, in machine words. */
  function GasThrough(txs: seq<TxOutputs>): (g: nat) {
    if txs == [] then 0 else Add64(GasThrough(txs[..|txs| - 1]), txs[|txs| - 1].cycles / CYCLES_PER_GAS)
  }

  /** The log of an output: its event, or its bytes under their chain-wide number. */
  function LogOf(output: Bytes, outputIndex: nat, logIndex: nat): (l: Log) {
    var event := guestLogIn(output);
    if event.Some? then GuestEvent(event.value, logIndex) else RawOutput(outputIndex, output, logIndex)
  }

  /** What the receipt of the i-th recorded transaction says, given the block's first output number. */
  ghost predicate ReceiptAt(r: Receipt, txs: seq<TxOutputs>, first: nat, i: nat)
    requires i < |txs|
  {
    var before := CountOutputs(txs[..i]);
    && r.txHash == txs[i].txHash && r.txIndex == txs[i].txIndex && r.succeeded == txs[i].accepted
    && r.gasUsed == txs[i].cycles / CYCLES_PER_GAS && r.cumulativeGas == GasThrough(txs[..i + 1])
    && LogsOf(r.logs, txs[i].outputs, first + before, before)
  }

  /** One log an output, numbered on from the given output and log numbers. */
  ghost predicate LogsOf(logs: seq<Log>, outputs: seq<Bytes>, outputIndex: nat, logIndex: nat) {
    |logs| == |outputs| &&
    forall k :: 0 <= k < |logs| ==> logs[k] == LogOf(outputs[k], outputIndex + k, logIndex + k)
  }

  method BuildLogs(outputs: seq<Bytes>, outputIndex: nat, logIndex: nat) returns (logs: seq<Log>)
    ensures LogsOf(logs, outputs, outputIndex, logIndex)
  {
    logs := [];
    for k := 0 to |outputs|
      invariant LogsOf(logs, outputs[..k], outputIndex, logIndex)
    {
      var event := guestLogIn(outputs[k]);
      if event.Some? {
        logs := logs + [GuestEvent(event.value, logIndex + k)];
      } else {
        logs := logs + [RawOutput(outputIndex + k, outputs[k], logIndex + k)];
      }
    }
  }

  lemma {:induction false} ThroughNext(txs: seq<TxOutputs>, i: nat)
    requires i < |txs|
    ensures GasThrough(txs[..i + 1]) == Add64(GasThrough(txs[..i]), txs[i].cycles / CYCLES_PER_GAS)
    ensures CountOutputs(txs[..i + 1]) == CountOutputs(txs[..i]) + |txs[i].outputs|
  {
    assert txs[..i + 1][..i] == txs[..i];
  }

  method BuildReceipts(txs: seq<TxOutputs>, first: nat) returns (receipts: seq<Receipt>)
    ensures |receipts| == |txs|
    ensures forall i :: 0 <= i < |txs| ==> ReceiptAt(receipts[i], txs, first, i)
  {
    receipts := [];
    var gas, logIndex, outputIndex := 0, 0, first;
    for i := 0 to |txs|
      invariant |receipts| == i
      invariant forall j {:trigger receipts[j]} :: 0 <= j < i ==> ReceiptAt(receipts[j], txs, first, j)
      invariant gas == GasThrough(txs[..i])
      invariant logIndex == CountOutputs(txs[..i]) && outputIndex == first + logIndex
    {
      var txo := txs[i];
      ThroughNext(txs, i);
      gas := Add64(gas, txo.cycles / CYCLES_PER_GAS);
      var logs := BuildLogs(txo.outputs, outputIndex, logIndex);
      outputIndex, logIndex := outputIndex + |logs|, logIndex + |logs|;
      receipts := receipts + [Receipt(txo.txHash, txo.txIndex, txo.accepted, txo.cycles / CYCLES_PER_GAS, gas, logs)];
    }
  }

  /** Each receipt's cumulative gas is the one before it and its own. */
  lemma {:induction false} GasAddsUp(receipts: seq<Receipt>, txs: seq<TxOutputs>, first: nat, i: nat)
    requires i < |receipts| == |txs| && ReceiptAt(receipts[i], txs, first, i)
    requires i > 0 ==> ReceiptAt(receipts[i - 1], txs, first, i - 1)
    ensures receipts[i].cumulativeGas == Add64(if i == 0 then 0 else receipts[i - 1].cumulativeGas, receipts[i].gasUsed)
  {
    ThroughNext(txs, i);
  }

  /** A log is an event exactly when its output decodes to one, and logs are counted through the block. */
  lemma {:induction false} LogsTell(r: Receipt, txs: seq<TxOutputs>, first: nat, i: nat, k: nat)
    requires i < |txs| && ReceiptAt(r, txs, first, i) && k < |r.logs|
    ensures k < |txs[i].outputs|
    ensures match guestLogIn(txs[i].outputs[k])
      case Some(g) => r.logs[k] == GuestEvent(g, CountOutputs(txs[..i]) + k)
      case None => r.logs[k] == RawOutput(first + CountOutputs(txs[..i]) + k, txs[i].outputs[k], CountOutputs(txs[..i]) + k)
  {
  }

  /** A raw output stands in the numbered list under the number its log shows. */
  ghost predicate ShownAt(l: Log, all: seq<Bytes>) {
    l.RawOutput? ==> l.outputIndex < |all| && all[l.outputIndex] == l.data
  }

  ghost predicate ShowsLeaves(r: Receipt, all: seq<Bytes>) {
    forall k :: 0 <= k < |r.logs| ==> ShownAt(r.logs[k], all)
  }

  lemma {:induction false} LogShowsLeaf(all: seq<Bytes>, txs: seq<TxOutputs>, r: Receipt, i: nat, k: nat)
    requires EndsWith(all, AllOutputs(txs)) && i < |txs| && k < |r.logs|
    requires ReceiptAt(r, txs, |all| - CountOutputs(txs), i)
    ensures ShownAt(r.logs[k], all)
  {
    IndexInBlock(all, txs, i, k);
  }

  lemma {:induction false} ReceiptShowsLeaves(all: seq<Bytes>, txs: seq<TxOutputs>, r: Receipt, i: nat)
    requires EndsWith(all, AllOutputs(txs)) && i < |txs|
    requires ReceiptAt(r, txs, |all| - CountOutputs(txs), i)
    ensures ShowsLeaves(r, all)
  {
    forall k | 0 <= k < |r.logs| ensures ShownAt(r.logs[k], all) {
      LogShowsLeaf(all, txs, r, i, k);
    }
  }

  /** The receipts of a block put every output under its leaf number. */
  method ReceiptsIn(t: BlockTree, h: Hash, ghost base: Base) returns (receipts: seq<Receipt>)
    requires Sound(t, base) && h in t.nodes
    ensures |receipts| == |t.nodes[h].outputs|
    ensures forall i :: 0 <= i < |receipts| ==> ShowsLeaves(receipts[i], OutputsThrough(t, base, h))
  {
    var n := t.nodes[h];
    ghost var all := OutputsThrough(t, base, h);
    assert n.tree.count == |all| by { CountIsLength(t, base, h); }
    assert EndsWith(all, AllOutputs(n.outputs)) by { BlockEnds(t, base, h); }
    receipts := BuildReceipts(n.outputs, n.tree.count - CountOutputs(n.outputs));
    forall i | 0 <= i < |receipts| ensures ShowsLeaves(receipts[i], all) {
      ReceiptShowsLeaves(all, n.outputs, receipts[i], i);
    }
  }

  // ------------------------------------------------------------------ output proofs

  /** A block and all its ancestors are at hand. */
  ghost predicate AtHand(t: BlockTree, have: set<Hash>, h: Hash)
    requires Linked(t) && h in t.nodes
    decreases t.Number(h)
  {
    assert LinkedAt(t, h);
    h in have && (h != t.root ==> AtHand(t, have, t.Parent(h)))
  }

  /** What memory and the store hold are parts of one chain of blocks from genesis. */
  ghost predicate PartsOf(whole: BlockTree, memory: map<Hash, Ancestry.Node>, stored: map<Hash, Ancestry.Node>) {
    && Linked(whole) && whole.Number(whole.root) == 0 && AllOutputs(whole.nodes[whole.root].outputs) == []
    && (forall h :: h in memory ==> h in whole.nodes && memory[h] == whole.nodes[h])
    && (forall h :: h in stored ==> h in whole.nodes && stored[h] == whole.nodes[h])
  }

  /** The blocks from a block back to genesis, read from memory and then from the store; None where one is in neither. */
  method Lineage(memory: map<Hash, Ancestry.Node>, stored: map<Hash, Ancestry.Node>, h: Hash, ghost whole: BlockTree)
    returns (chain: Option<seq<Ancestry.Node>>, ghost path: seq<Hash>)
    requires PartsOf(whole, memory, stored) && h in memory
    ensures chain.Some? <==> AtHand(whole, memory.Keys + stored.Keys, h)
    ensures chain.Some? ==> Descends(whole, h, path) && Nodes(whole, path, chain.value)
  {
    var b, done := memory[h], [memory[h]];
    path := [h];
    while b.block.header.number != 0
      invariant Downward(whole, h, path) && Nodes(whole, path, done)
      invariant b == whole.nodes[path[|path| - 1]] && path[|path| - 1] in memory.Keys + stored.Keys
      invariant AtHand(whole, memory.Keys + stored.Keys, h) <==>
        AtHand(whole, memory.Keys + stored.Keys, path[|path| - 1])
      decreases b.block.header.number
    {
      ghost var last := path[|path| - 1];
      NotBelowRoot(whole, last);
      assert LinkedAt(whole, last);
      var p := b.block.header.parentHash;
      if p !in memory && p !in stored {
        return None, path;
      }
      b := if p in memory then memory[p] else stored[p];
      done, path := done + [b], path + [p];
    }
    NotBelowRoot(whole, path[|path| - 1]);
    return Some(done), path;
  }

  /** A path from a block downwards, each next one the parent. */
  ghost predicate Downward(t: BlockTree, h: Hash, path: seq<Hash>)
    requires Linked(t)
  {
    && |path| > 0 && path[0] == h
    && (forall i :: 0 <= i < |path| ==> path[i] in t.nodes)
    && (forall i :: 0 <= i < |path| - 1 ==> path[i] != t.root && path[i + 1] == t.Parent(path[i]))
  }

  ghost predicate Descends(t: BlockTree, h: Hash, path: seq<Hash>)
    requires Linked(t)
  {
    Downward(t, h, path) && path[|path| - 1] == t.root
  }

  ghost predicate Nodes(t: BlockTree, path: seq<Hash>, chain: seq<Ancestry.Node>) {
    |chain| == |path| && forall i :: 0 <= i < |path| ==> path[i] in t.nodes && chain[i] == t.nodes[path[i]]
  }

  /**
    Every output leaf from genesis through a block, in index order, wherever its
    ancestors are held; None exactly where one of them is in neither memory nor store.
   */
  method LeavesThrough(memory: map<Hash, Ancestry.Node>, stored: map<Hash, Ancestry.Node>, h: Hash, ghost whole: BlockTree)
    returns (r: Option<seq<Hash>>)
    requires PartsOf(whole, memory, stored) && h in memory
    ensures r.Some? <==> AtHand(whole, memory.Keys + stored.Keys, h)
    ensures r.Some? ==> r.value == Leaves(OutputsThrough(whole, Base(0, []), h))
  {
    ghost var base, path := Base(0, []), [];
    var found;
    found, path := Lineage(memory, stored, h, whole);
    if found.None? {
      return None;
    }
    var chain := found.value;
    var leaves := [];
    var i := |chain| - 1;
    while i >= 0
      invariant -1 <= i < |chain|
      invariant i < |chain| - 1 ==> leaves == Leaves(OutputsThrough(whole, base, path[i + 1]))
      invariant i == |chain| - 1 ==> leaves == []
    {
      var own := OutputLeaves(chain[i].outputs);
      if i < |chain| - 1 {
        LeavesConcat(OutputsThrough(whole, base, path[i + 1]), AllOutputs(chain[i].outputs));
      }
      leaves := leaves + own;
      i := i - 1;
    }
    return Some(leaves);
  }

  lemma {:induction false} OutputsRootIsCommitted(t: BlockTree, base: Base, h: Hash)
    requires Sound(t, base) && h in t.nodes
    ensures (outputsRootSlot, OutputsRoot(Root(t.nodes[h].tree))) in t.nodes[h].passer.Items
  {
    PasserIsCumulative(t, base, h);
  }

  /** For any output of the chain, the proof served against any later block reproduces that block's tree root. */
  lemma {:induction false} ServedProofsHold(t: BlockTree, base: Base, h: Hash, index: nat)
    requires Sound(t, base) && h in t.nodes && index < |OutputsThrough(t, base, h)|
    ensures var leaves := Leaves(OutputsThrough(t, base, h));
      Climb(CoPath(leaves, index, HEIGHT), index, leaves[index], HEIGHT) == Root(t.nodes[h].tree)
  {
    assert Represents(t.nodes[h].tree, Leaves(OutputsThrough(t, base, h))) by { TreeIsCumulative(t, base, h); }
    ProofsComplete(t.nodes[h].tree, Leaves(OutputsThrough(t, base, h)), index);
  }
}
