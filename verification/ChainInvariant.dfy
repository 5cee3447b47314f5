/**
  What the chain keeps between calls, over values: a block tree with honest records,
  the live machine snapshots, and the payloads built but not yet imported.
 */
module ChainInvariant {
  import opened Options
  import opened Hashing
  import opened MachineWords
  import opened Execution
  import opened OutputTree
  import opened Blocks
  import opened Ancestry
  import opened Canonical

  function RecordsOf(n: Node, machine: Machine): (r: Records) {
    Records(machine, n.inputs, n.tree, n.passer)
  }

  /** A block says of itself exactly what replaying it on its parent finds. */
  ghost predicate HonestOn(cfg: Config, parent: Node, before: Machine, n: Node, after: Machine) {
    var b := n.block;
    var exec := Replay(before, ContextOf(cfg, b.header, parent.inputs), cfg.maxCycles, b.txs);
    && after == exec.machine && n.outputs == exec.outputs
    && b.header.root == rootHash(exec.machine)
    && b.header.gasUsed == Min(exec.gas, b.header.gasLimit)
    && b.header.txHash == txsRoot(b.txs)
    && b.header.withdrawalsHash == passerRoot(n.passer)
  }

  ghost predicate HonestAt(cfg: Config, t: BlockTree, states: map<Hash, Machine>, h: Hash)
    requires states.Keys == t.nodes.Keys && h in t.nodes && t.Parent(h) in t.nodes
  {
    HonestOn(cfg, t.nodes[t.Parent(h)], states[t.Parent(h)], t.nodes[h], states[h])
  }

  ghost predicate Honest(cfg: Config, t: BlockTree, states: map<Hash, Machine>)
    requires states.Keys == t.nodes.Keys
  {
    forall h {:trigger HonestAt(cfg, t, states, h)} ::
      h in t.nodes && h != t.root && t.Parent(h) in t.nodes ==> HonestAt(cfg, t, states, h)
  }

  /** Snapshots are the true states of their blocks. */
  ghost predicate Snapshots(t: BlockTree, states: map<Hash, Machine>, machines: map<Hash, Machine>) {
    && states.Keys == t.nodes.Keys
    && forall h :: h in machines ==> h in states && machines[h] == states[h]
  }

  /** A payload built here is one any verifier with the same records would accept, with the same results. */
  ghost predicate PendingAt(cfg: Config, t: BlockTree, states: map<Hash, Machine>, p: Built)
    requires states.Keys == t.nodes.Keys
  {
    var parent := p.header.parentHash;
    && p.data == ExecutableData(p.header, p.data.transactions)
    && p.header.txHash == txsRoot(p.data.transactions)
    && p.beaconRoot == p.header.parentBeaconRoot
    && parent in t.nodes
    && p.firstInput == t.nodes[parent].inputs
    && Judge(cfg, t.nodes[parent].block.header, RecordsOf(t.nodes[parent], states[parent]), p.data, Some(p.beaconRoot)) ==
         Valid(Block(p.header, p.data.transactions), p.exec, p.tree, p.passer)
  }

  // -------------------------------------------------------------------- committing

  function Committing(t: BlockTree, b: Block, exec: Exec, tree: Frontier, passer: Passer): (n: Node)
    requires b.header.parentHash in t.nodes
  {
    Node(b, exec.outputs, tree, passer, Add64(t.nodes[b.header.parentHash].inputs, |b.txs|))
  }

  function WithNode(t: BlockTree, h: Hash, n: Node): (u: BlockTree) {
    t.(nodes := t.nodes[h := n])
  }

  /** What a verdict of valid establishes about a block, ready to commit. */
  ghost predicate Acceptable(cfg: Config, t: BlockTree, states: map<Hash, Machine>, h: Hash, b: Block, exec: Exec,
                             tree: Frontier, passer: Passer)
    requires states.Keys == t.nodes.Keys
  {
    var p := b.header.parentHash;
    && headerHash(b.header) == h && h !in t.nodes
    && p in t.nodes && b.header.number == t.Number(p) + 1 && b.header.time > t.Time(p)
    && exec == Replay(states[p], ContextOf(cfg, b.header, t.nodes[p].inputs), cfg.maxCycles, b.txs)
    && b.header.root == rootHash(exec.machine) && b.header.gasUsed == Min(exec.gas, b.header.gasLimit)
    && b.header.txHash == txsRoot(b.txs) && b.header.withdrawalsHash == passerRoot(passer)
    && Append(t.nodes[p].tree, Leaves(AllOutputs(exec.outputs))) == Some(tree)
    && passer == ExtendPasser(t.nodes[p].passer, exec.outputs, Root(tree))
  }

  lemma {:induction false} CommitLinks(t: BlockTree, h: Hash, n: Node)
    requires Linked(t) && h !in t.nodes && headerHash(n.block.header) == h
    requires var p := n.block.header.parentHash;
      p in t.nodes && n.block.header.number == t.Number(p) + 1 && n.block.header.time > t.Time(p)
    ensures Linked(WithNode(t, h, n)) && Grows(t, WithNode(t, h, n))
  {
    var u := WithNode(t, h, n);
    forall x | x in u.nodes ensures LinkedAt(u, x) {
      if x != h { assert LinkedAt(t, x); }
    }
  }

  lemma {:induction false} CommitSound(t: BlockTree, base: Base, h: Hash, n: Node)
    requires Sound(t, base) && h !in t.nodes && headerHash(n.block.header) == h
    requires var p := n.block.header.parentHash;
      && p in t.nodes && n.block.header.number == t.Number(p) + 1 && n.block.header.time > t.Time(p)
      && n.inputs == Add64(t.nodes[p].inputs, |n.block.txs|)
      && Append(t.nodes[p].tree, Leaves(AllOutputs(n.outputs))) == Some(n.tree)
      && n.passer == ExtendPasser(t.nodes[p].passer, n.outputs, Root(n.tree))
    ensures Sound(WithNode(t, h, n), base)
  {
    var u := WithNode(t, h, n);
    CommitLinks(t, h, n);
    forall x | x in u.nodes && x != u.root && LinkedAt(u, x) ensures Extends(u, x) {
      if x != h { assert LinkedAt(t, x) && Extends(t, x); }
    }
  }

  lemma {:induction false} CommitHonest(cfg: Config, t: BlockTree, states: map<Hash, Machine>, h: Hash, n: Node, after: Machine)
    requires Linked(t) && states.Keys == t.nodes.Keys && Honest(cfg, t, states)
    requires h !in t.nodes
    requires var p := n.block.header.parentHash; p in t.nodes && HonestOn(cfg, t.nodes[p], states[p], n, after)
    ensures Honest(cfg, WithNode(t, h, n), states[h := after])
  {
    var u, states' := WithNode(t, h, n), states[h := after];
    forall x | x in u.nodes && x != u.root && u.Parent(x) in u.nodes ensures HonestAt(cfg, u, states', x) {
      if x != h { assert LinkedAt(t, x) && HonestAt(cfg, t, states, x); }
    }
  }

  /** A pending payload speaks of its parent only, so it outlives the arrival of other blocks. */
  lemma {:induction false} PendingSurvives(cfg: Config, t: BlockTree, states: map<Hash, Machine>, h: Hash, n: Node,
                                           after: Machine, p: Built)
    requires states.Keys == t.nodes.Keys && PendingAt(cfg, t, states, p) && h !in t.nodes
    ensures PendingAt(cfg, WithNode(t, h, n), states[h := after], p)
  {
  }

  /** A verdict of valid carries everything a commit needs. */
  lemma {:induction false} ValidMeans(cfg: Config, parent: Header, rec: Records, data: Payload, beaconRoot: Option<Hash>)
    requires parent.number + 1 < TWO_64
    requires Judge(cfg, parent, rec, data, beaconRoot).Valid?
    ensures var v := Judge(cfg, parent, rec, data, beaconRoot);
      var hd := v.block.header;
      && HeaderFromPayload(data, beaconRoot) == Some(hd) && v.block.txs == data.transactions
      && headerHash(hd) == data.blockHash
      && hd.parentHash == data.parentHash && hd.number == parent.number + 1 && hd.time > parent.time
      && v.exec == Replay(rec.machine, ContextOf(cfg, hd, rec.inputs), cfg.maxCycles, data.transactions)
      && hd.root == rootHash(v.exec.machine) && hd.gasUsed == Min(v.exec.gas, hd.gasLimit)
      && hd.txHash == txsRoot(data.transactions) && hd.withdrawalsHash == passerRoot(v.passer)
      && Append(rec.tree, Leaves(AllOutputs(v.exec.outputs))) == Some(v.tree)
      && v.passer == ExtendPasser(rec.passer, v.exec.outputs, Root(v.tree))
  {
    NextNumber(parent.number);
  }

  lemma {:induction false} ValidIsAcceptable(cfg: Config, t: BlockTree, states: map<Hash, Machine>, data: Payload,
                                             beaconRoot: Option<Hash>, v: Verdict)
    requires states.Keys == t.nodes.Keys
    requires data.parentHash in t.nodes && data.blockHash !in t.nodes && t.Number(data.parentHash) + 1 < TWO_64
    requires v.Valid?
    requires var p := data.parentHash;
      v == Judge(cfg, t.nodes[p].block.header, RecordsOf(t.nodes[p], states[p]), data, beaconRoot)
    ensures Acceptable(cfg, t, states, data.blockHash, v.block, v.exec, v.tree, v.passer)
  {
    var p := data.parentHash;
    ValidMeans(cfg, t.nodes[p].block.header, RecordsOf(t.nodes[p], states[p]), data, beaconRoot);
  }

  /** Committing a block judged valid on its parent keeps the records of every fork sound and honest. */
  lemma {:induction false} CommitKeeps(cfg: Config, base: Base, t: BlockTree, states: map<Hash, Machine>, h: Hash,
                                       b: Block, exec: Exec,
                    tree: Frontier, passer: Passer)
    requires Sound(t, base) && states.Keys == t.nodes.Keys && Honest(cfg, t, states)
    requires Acceptable(cfg, t, states, h, b, exec, tree, passer)
    ensures var u := WithNode(t, h, Committing(t, b, exec, tree, passer));
      Sound(u, base) && Grows(t, u) && Honest(cfg, u, states[h := exec.machine])
  {
    var n := Committing(t, b, exec, tree, passer);
    CommitSound(t, base, h, n);
    CommitHonest(cfg, t, states, h, n, exec.machine);
  }

  /** A verdict depends on the payload only through its header and transactions. */
  lemma {:induction false} SameHeaderSameVerdict(cfg: Config, parent: Header, rec: Records, data: Payload, b: Option<Hash>,
                                                 data': Payload, b': Option<Hash>)
    requires HeaderFromPayload(data, b).Some? && HeaderFromPayload(data, b) == HeaderFromPayload(data', b')
    requires data.transactions == data'.transactions && data.blockHash == data'.blockHash
    ensures Judge(cfg, parent, rec, data, b) == Judge(cfg, parent, rec, data', b')
  {
    assert data.stateRoot == data'.stateRoot && data.withdrawalsRoot == data'.withdrawalsRoot;
    assert JudgeHeader(parent, data, b) == JudgeHeader(parent, data', b');
  }

  /** Neither hash of a payload stands for something else in a payload built here. */
  ghost predicate NoCollision(p: Built, hd: Header, txs: seq<RawTx>) {
    && (headerHash(hd) == headerHash(p.header) ==> hd == p.header)
    && (txsRoot(txs) == txsRoot(p.data.transactions) ==> txs == p.data.transactions)
  }

  /** The payload that reaches us under the hash of one we built is the one we built. */
  lemma {:induction false} AdoptedIsBuilt(cfg: Config, t: BlockTree, states: map<Hash, Machine>, p: Built, data: Payload,
                                          beaconRoot: Option<Hash>)
    requires states.Keys == t.nodes.Keys && PendingAt(cfg, t, states, p)
    requires HeaderFromPayload(data, beaconRoot).Some?
    requires NoCollision(p, HeaderFromPayload(data, beaconRoot).value, data.transactions)
    requires headerHash(HeaderFromPayload(data, beaconRoot).value) == data.blockHash == p.data.blockHash
    ensures HeaderFromPayload(data, beaconRoot) == Some(p.header) && data.transactions == p.data.transactions
    ensures data.parentHash == p.header.parentHash && data.parentHash in t.nodes
    ensures p.firstInput == t.nodes[data.parentHash].inputs
    ensures Judge(cfg, t.nodes[data.parentHash].block.header, RecordsOf(t.nodes[data.parentHash], states[data.parentHash]),
                  data, beaconRoot) ==
      Valid(Block(p.header, data.transactions), p.exec, p.tree, p.passer)
  {
    var hd := HeaderFromPayload(data, beaconRoot).value;
    assert hd == p.header;
    var n := t.nodes[p.header.parentHash];
    var rec := RecordsOf(n, states[p.header.parentHash]);
    var v := Judge(cfg, n.block.header, rec, p.data, Some(p.beaconRoot));
    assert v.Valid? && v.block.header == hd;
    assert HeaderFromPayload(p.data, Some(p.beaconRoot)) == Some(hd);
    SameHeaderSameVerdict(cfg, n.block.header, rec, data, beaconRoot, p.data, Some(p.beaconRoot));
  }
}
