/**
  Restarting from the store: the withdrawal commitment is rebuilt from recorded
  outputs, and the blocks after the checkpoint are re-executed.  Both must give back
  what the node had before it stopped.
 */
module Restart {
  import opened Options
  import opened Hashing
  import opened MachineWords
  import opened Execution
  import opened OutputTree
  import opened Blocks
  import opened Ancestry
  import opened Canonical
  import opened ChainInvariant
  import opened ChainStore
  import opened TxIndex
  import opened ChainState

  /** The stored chain begins at genesis. */
  ghost predicate FromGenesis(t: BlockTree) {
    && Sound(t, Base(0, [])) && t.Number(t.root) == 0
    && t.nodes[t.root].block.header.withdrawalsHash == passerRoot(t.nodes[t.root].passer)
  }

  /** The root of a machine is the root of no other machine that could have been saved in its place. */
  ghost predicate OneMachine(m: Machine, n: Machine) {
    rootHash(m) == rootHash(n) ==> m == n
  }

  /** Replays every block's recorded outputs into a fresh trie, oldest first. */
  method RebuildPasser(t: BlockTree, h: Hash) returns (r: Option<Passer>)
    requires FromGenesis(t) && h in t.nodes
    requires t.nodes[h].block.header.withdrawalsHash == passerRoot(t.nodes[h].passer)
    ensures r == Some(t.nodes[h].passer)
  {
    var lineage: seq<Hash> := [];
    var b := h;
    while t.Number(b) > 0
      invariant b in t.nodes
      invariant forall i :: 0 <= i < |lineage| ==> lineage[i] in t.nodes && lineage[i] != t.root
      invariant forall i :: 0 <= i < |lineage| - 1 ==> t.Parent(lineage[i]) == lineage[i + 1]
      invariant lineage == [] ==> b == h
      invariant lineage != [] ==> lineage[0] == h && t.Parent(lineage[|lineage| - 1]) == b
      decreases t.Number(b)
    {
      NotBelowRoot(t, b);
      assert LinkedAt(t, b);
      lineage := lineage + [b];
      b := t.Parent(b);
    }
    NotBelowRoot(t, b);
    var passer: Passer := map[];
    var i := |lineage| - 1;
    ghost var done := t.root;
    while i >= 0
      invariant -1 <= i < |lineage|
      invariant done == if i + 1 < |lineage| then lineage[i + 1] else t.root
      invariant passer == InsertAll(map[], Withdrawals(OutputsThrough(t, Base(0, []), done)))
    {
      var hashes := WithdrawalHashes(t.nodes[lineage[i]].outputs);
      ghost var start := passer;
      for j := 0 to |hashes|
        invariant passer == InsertAll(start, hashes[..j])
      {
        assert hashes[..j + 1][..j] == hashes[..j];
        passer := passer[withdrawalSlot(hashes[j]) := Sent];
      }
      assert hashes[..|hashes|] == hashes;
      InsertOneMore(t, done, lineage[i]);
      done := lineage[i];
      i := i - 1;
    }
    assert done == h;
    passer := passer[outputsRootSlot := OutputsRoot(Root(t.nodes[h].tree))];
    PasserIsCumulative(t, Base(0, []), h);
    if passerRoot(passer) != t.nodes[h].block.header.withdrawalsHash {
      assert false;
      return None;
    }
    return Some(passer);
  }

  lemma {:induction false} InsertOneMore(t: BlockTree, p: Hash, h: Hash)
    requires Linked(t) && p in t.nodes && h in t.nodes && h != t.root && t.Parent(h) == p
    ensures
      InsertAll(InsertAll(map[], Withdrawals(OutputsThrough(t, Base(0, []), p))),
                Withdrawals(AllOutputs(t.nodes[h].outputs))) ==
      InsertAll(map[], Withdrawals(OutputsThrough(t, Base(0, []), h)))
  {
    var before, own := OutputsThrough(t, Base(0, []), p), AllOutputs(t.nodes[h].outputs);
    assert LinkedAt(t, h);
    InsertAllConcat(map[], Withdrawals(before), Withdrawals(own));
    WithdrawalsConcat(before, own);
  }

  // ------------------------------------------------------------------ the replay

  /** What re-executing a stored block on its parent's records gives: None where it disagrees with what was stored. */
  function Replayed(cfg: Config, parent: Ancestry.Node, before: Machine, b: Block): (r: Option<(Ancestry.Node, Machine)>) {
    var exec := Replay(before, ContextOf(cfg, b.header, parent.inputs), cfg.maxCycles, b.txs);
    Checked(parent, b, exec, Append(parent.tree, Leaves(AllOutputs(exec.outputs))))
  }

  /** A re-executed block against its header. */
  function Checked(parent: Ancestry.Node, b: Block, exec: Exec, tree: Option<Frontier>): (r: Option<(Ancestry.Node, Machine)>) {
    if rootHash(exec.machine) != b.header.root || tree.None? then None
    else
      var passer := ExtendPasser(parent.passer, exec.outputs, Root(tree.value));
      if passerRoot(passer) != b.header.withdrawalsHash then None
      else Some((Ancestry.Node(b, exec.outputs, tree.value, passer, Add64(parent.inputs, |b.txs|)), exec.machine))
  }

  /**
    A restart takes a stored block back exactly when re-executing it ends in the state root
    and the withdrawals root its header names and the outputs tree has room; what it takes
    back is the block with what executing it left.
   */
  lemma {:induction false} TakenBackExactly(parent: Ancestry.Node, b: Block, exec: Exec, tree: Option<Frontier>)
    ensures Checked(parent, b, exec, tree).Some? <==>
      && b.header.root == rootHash(exec.machine) && tree.Some?
      && b.header.withdrawalsHash == passerRoot(ExtendPasser(parent.passer, exec.outputs, Root(tree.value)))
    ensures var r := Checked(parent, b, exec, tree);
      r.Some? ==>
        && r.value.0.block == b && r.value.0.outputs == exec.outputs && Some(r.value.0.tree) == tree
        && passerRoot(r.value.0.passer) == b.header.withdrawalsHash && rootHash(r.value.1) == b.header.root
        && r.value.0.inputs == Low64(parent.inputs + |b.txs|)
  {
  }

  method ReplayStored(cfg: Config, parent: Ancestry.Node, before: Machine, b: Block)
    returns (r: Option<(Ancestry.Node, Machine)>)
    ensures r == Replayed(cfg, parent, before, b)
  {
    var exec := ReplayImport(before, ContextOf(cfg, b.header, parent.inputs), cfg.maxCycles, b.txs);
    if rootHash(exec.machine) != b.header.root {
      return None;
    }
    var leaves := OutputLeaves(exec.outputs);
    var tree := Append(parent.tree, leaves);
    if tree.None? {
      return None;
    }
    var passer := PasserAfter(parent.passer, exec.outputs, Root(tree.value));
    if passerRoot(passer) != b.header.withdrawalsHash {
      return None;
    }
    return Some((Ancestry.Node(b, exec.outputs, tree.value, passer, Add64(parent.inputs, |b.txs|)), exec.machine));
  }

  /** Re-executing a block the node once committed gives back its records and its state. */
  lemma {:induction false} ReplayReproduces(cfg: Config, t: BlockTree, base: Base, states: map<Hash, Machine>, h: Hash)
    requires Sound(t, base) && states.Keys == t.nodes.Keys && Honest(cfg, t, states)
    requires h in t.nodes && h != t.root
    ensures t.Parent(h) in t.nodes
    ensures Replayed(cfg, t.nodes[t.Parent(h)], states[t.Parent(h)], t.nodes[h].block) == Some((t.nodes[h], states[h]))
  {
    assert LinkedAt(t, h) && Extends(t, h) && HonestAt(cfg, t, states, h);
  }

  method ReplayArchived(cfg: Config, t: BlockTree, parent: Ancestry.Node, before: Machine, h: Hash,
                        ghost base: Base, ghost states: map<Hash, Machine>)
    returns (r: Option<(Ancestry.Node, Machine)>)
    requires Sound(t, base) && states.Keys == t.nodes.Keys && Honest(cfg, t, states)
    requires h in t.nodes && h != t.root && t.Parent(h) in t.nodes
    requires parent == t.nodes[t.Parent(h)] && before == states[t.Parent(h)]
    ensures r == Some((t.nodes[h], states[h]))
  {
    ReplayReproduces(cfg, t, base, states, h);
    r := ReplayStored(cfg, parent, before, t.nodes[h].block);
  }

  /** A path of stored hashes, each block on the one before. */
  ghost predicate OnPrevious(t: BlockTree, from: Hash, path: seq<Hash>, i: nat)
    requires i < |path|
  {
    path[i] in t.nodes && path[i] != t.root && t.Parent(path[i]) == if i == 0 then from else path[i - 1]
  }

  ghost predicate Chained(t: BlockTree, from: Hash, path: seq<Hash>) {
    forall i {:trigger OnPrevious(t, from, path, i)} :: 0 <= i < |path| ==> OnPrevious(t, from, path, i)
  }

  /** The restored maps hold the archived records and states of exactly these blocks. */
  ghost predicate Restored(t: BlockTree, states: map<Hash, Machine>, from: Hash, path: seq<Hash>,
                           nodes: map<Hash, Ancestry.Node>, machines: map<Hash, Machine>)
    requires states.Keys == t.nodes.Keys
  {
    && nodes.Keys == machines.Keys
    && (forall h :: h in nodes <==> h == from || h in path)
    && forall h :: h in nodes ==> h in t.nodes && nodes[h] == t.nodes[h] && machines[h] == states[h]
  }

  lemma {:induction false} RestoredGrows(t: BlockTree, states: map<Hash, Machine>, from: Hash, path: seq<Hash>,
                                         nodes: map<Hash, Ancestry.Node>, machines: map<Hash, Machine>, h: Hash)
    requires states.Keys == t.nodes.Keys && Restored(t, states, from, path, nodes, machines) && h in t.nodes
    ensures Restored(t, states, from, path + [h], nodes[h := t.nodes[h]], machines[h := states[h]])
  {
  }

  /** Nothing restored stands above the last block replayed, which is restored itself. */
  ghost predicate Topped(t: BlockTree, nodes: map<Hash, Ancestry.Node>, last: Hash) {
    last in nodes && last in t.nodes && forall x :: x in nodes ==> x in t.nodes && t.Number(x) <= t.Number(last)
  }

  /** Replays one stored block on the last and files it. */
  method RestoreNext(cfg: Config, t: BlockTree, from: Hash, last: Hash, h: Hash, nodes: map<Hash, Ancestry.Node>,
                     machines: map<Hash, Machine>, index: map<Hash, seq<Hash>>,
                     ghost base: Base, ghost states: map<Hash, Machine>, ghost done: seq<Hash>)
    returns (ok: bool, nodes': map<Hash, Ancestry.Node>, machines': map<Hash, Machine>, index': map<Hash, seq<Hash>>)
    requires Sound(t, base) && states.Keys == t.nodes.Keys && Honest(cfg, t, states)
    requires Restored(t, states, from, done, nodes, machines) && Topped(t, nodes, last)
    requires Indexed(BlockTree(from, nodes), index)
    requires h in t.nodes && h != t.root && t.Parent(h) == last
    ensures ok && Restored(t, states, from, done + [h], nodes', machines')
    ensures Topped(t, nodes', h) && Indexed(BlockTree(from, nodes'), index')
  {
    assert LinkedAt(t, h);
    var r := ReplayArchived(cfg, t, nodes[last], machines[last], h, base, states);
    if r.None? {
      assert false;
      return false, nodes, machines, index;
    }
    RestoredGrows(t, states, from, done, nodes, machines, h);
    ok, nodes', machines' := true, nodes[h := r.value.0], machines[h := r.value.1];
    index' := IndexBlock(index, r.value.0, h, BlockTree(from, nodes));
  }

  method IndexRoot(from: Hash, n: Ancestry.Node) returns (index: map<Hash, seq<Hash>>)
    ensures Indexed(BlockTree(from, map[from := n]), index)
  {
    index := IndexBlock(map[], n, from, BlockTree(from, map[]));
    assert BlockTree(from, map[]).(nodes := map[][from := n]) == BlockTree(from, map[from := n]);
  }

  /**
    Re-executing the canonical blocks after a checkpoint succeeds and gives back, for
    every one of them, the outputs, tree, commitment, input counter and machine state
    the node had, with its transactions indexed.
   */
  method Restore(cfg: Config, t: BlockTree, from: Hash, m: Machine, path: seq<Hash>,
                 ghost base: Base, ghost states: map<Hash, Machine>)
    returns (ok: bool, nodes: map<Hash, Ancestry.Node>, machines: map<Hash, Machine>, index: map<Hash, seq<Hash>>)
    requires Sound(t, base) && states.Keys == t.nodes.Keys && Honest(cfg, t, states)
    requires from in t.nodes && m == states[from] && Chained(t, from, path)
    ensures ok && Restored(t, states, from, path, nodes, machines) && Indexed(BlockTree(from, nodes), index)
  {
    ok, nodes, machines := true, map[from := t.nodes[from]], map[from := m];
    index := IndexRoot(from, t.nodes[from]);
    var last := from;
    for i := 0 to |path|
      invariant ok && last == if i == 0 then from else path[i - 1]
      invariant Restored(t, states, from, path[..i], nodes, machines) && Topped(t, nodes, last)
      invariant Indexed(BlockTree(from, nodes), index)
    {
      var h := path[i];
      assert OnPrevious(t, from, path, i);
      OneMore(path, i);
      ok, nodes, machines, index := RestoreNext(cfg, t, from, last, h, nodes, machines, index, base, states, path[..i]);
      last := h;
    }
    OneMore(path, |path|);
  }

  lemma {:induction false} OneMore(path: seq<Hash>, i: nat)
    requires i <= |path|
    ensures i < |path| ==> path[..i + 1] == path[..i] + [path[i]]
    ensures i == |path| ==> path[..i] == path
  {
  }

  /** Every restored block but the first stands on a restored block. */
  lemma {:induction false} ParentRestored(t: BlockTree, from: Hash, path: seq<Hash>, h: Hash)
    requires Chained(t, from, path) && h in path
    ensures h in t.nodes && h != t.root && (t.Parent(h) == from || t.Parent(h) in path)
  {
    var i :| 0 <= i < |path| && path[i] == h;
    assert OnPrevious(t, from, path, i);
  }

  lemma {:induction false} CheckpointRooted(t: BlockTree, base: Base, from: Hash, nodes: map<Hash, Ancestry.Node>)
    requires Sound(t, base) && from in t.nodes && from in nodes && nodes[from] == t.nodes[from]
    ensures Rooted(BlockTree(from, nodes), Base(t.nodes[from].inputs, OutputsThrough(t, base, from)))
  {
    InputsAreCumulative(t, base, from);
    TreeIsCumulative(t, base, from);
    PasserIsCumulative(t, base, from);
    BlockEnds(t, base, from);
  }

  /** One restored block: it links, extends its parent and is honest as it was in the archive. */
  lemma {:induction false} RestoredAt(cfg: Config, t: BlockTree, base: Base, states: map<Hash, Machine>, from: Hash,
                                      path: seq<Hash>, nodes: map<Hash, Ancestry.Node>, machines: map<Hash, Machine>, h: Hash)
    requires Sound(t, base) && states.Keys == t.nodes.Keys && Honest(cfg, t, states)
    requires from in t.nodes && Chained(t, from, path) && Restored(t, states, from, path, nodes, machines)
    requires h in nodes
    ensures var u := BlockTree(from, nodes);
      LinkedAt(u, h) && (h != from ==> Extends(u, h) && HonestAt(cfg, u, machines, h))
  {
    assert LinkedAt(t, h);
    if h != from {
      ParentRestored(t, from, path, h);
      assert Extends(t, h) && HonestAt(cfg, t, states, h);
    }
  }

  /**
    A restored chain keeps everything a chain that never stopped keeps: it is a sound
    tree with honest records, rooted at the checkpoint, whose base is what the archived
    chain had accumulated there.
   */
  lemma {:induction false} RestoredIsSound(cfg: Config, t: BlockTree, base: Base, states: map<Hash, Machine>, from: Hash,
                                           path: seq<Hash>, nodes: map<Hash, Ancestry.Node>, machines: map<Hash, Machine>)
    requires Sound(t, base) && states.Keys == t.nodes.Keys && Honest(cfg, t, states)
    requires from in t.nodes && Chained(t, from, path) && Restored(t, states, from, path, nodes, machines)
    ensures Sound(BlockTree(from, nodes), Base(t.nodes[from].inputs, OutputsThrough(t, base, from)))
    ensures Honest(cfg, BlockTree(from, nodes), machines)
  {
    var u := BlockTree(from, nodes);
    forall h | h in u.nodes ensures LinkedAt(u, h) && (h != from ==> Extends(u, h) && HonestAt(cfg, u, machines, h)) {
      RestoredAt(cfg, t, base, states, from, path, nodes, machines, h);
    }
    CheckpointRooted(t, base, from, nodes);
  }

  // ------------------------------------------------------------------ the restored chain

  /** The stored hashes after a checkpoint's height, and the mapping from that height on. */
  ghost predicate FollowsStore(t: BlockTree, tip: Hash, k: nat, path: seq<Hash>, canon: map<nat, Hash>)
    requires Linked(t) && tip in t.nodes && t.Number(t.root) <= k <= t.Number(tip)
  {
    && |path| == t.Number(tip) - k
    && (forall i :: 0 <= i < |path| ==> path[i] == AncestorAt(t, tip, k + 1 + i))
    && (forall n: nat :: n in canon <==> k <= n <= t.Number(tip))
    && (forall n: nat :: n in canon ==> canon[n] == AncestorAt(t, tip, n))
  }

  method StoredPath(store: Store, k: nat, top: nat, ghost t: BlockTree, ghost tip: Hash)
    returns (path: seq<Hash>, canon: map<nat, Hash>)
    requires Linked(t) && tip in t.nodes && t.Number(t.root) <= k <= top == t.Number(tip)
    requires Stored(t, store.canonical, tip)
    ensures FollowsStore(t, tip, k, path, canon)
  {
    assert StoredAt(t, store.canonical, tip, k);
    path, canon := [], map[k := store.canonical[k]];
    for n := k + 1 to top + 1
      invariant |path| == n - k - 1
      invariant forall i :: 0 <= i < |path| ==> path[i] == AncestorAt(t, tip, k + 1 + i)
      invariant forall x: nat :: x in canon <==> k <= x < n
      invariant forall x: nat :: x in canon ==> canon[x] == AncestorAt(t, tip, x)
    {
      assert StoredAt(t, store.canonical, tip, n);
      path, canon := path + [store.canonical[n]], canon[n := store.canonical[n]];
    }
  }

  lemma {:induction false} StoredPathChained(t: BlockTree, tip: Hash, k: nat, path: seq<Hash>, canon: map<nat, Hash>)
    requires Linked(t) && tip in t.nodes && t.Number(t.root) <= k <= t.Number(tip) && FollowsStore(t, tip, k, path, canon)
    ensures Chained(t, AncestorAt(t, tip, k), path)
    ensures tip == AncestorAt(t, tip, k) || tip in path
  {
    var from := AncestorAt(t, tip, k);
    forall i | 0 <= i < |path| ensures OnPrevious(t, from, path, i) {
      AncestorStep(t, tip, k + 1 + i);
    }
    if k < t.Number(tip) { assert path[|path| - 1] == tip; }
  }

  /** The restored tree is placed, and both mappings lead to the stored head in it. */
  lemma {:induction false} RestoredPath(t: BlockTree, tip: Hash, k: nat, path: seq<Hash>, canon: map<nat, Hash>,
                                        stored: map<nat, Hash>, u: BlockTree)
    requires Linked(t) && Placed(t) && tip in t.nodes && t.Number(t.root) <= k <= t.Number(tip)
    requires FollowsStore(t, tip, k, path, canon) && Stored(t, stored, tip)
    requires Linked(u) && u.root == AncestorAt(t, tip, k) && tip in u.nodes
    requires forall x :: x in u.nodes ==> x in t.nodes && t.nodes[x] == u.nodes[x]
    ensures Placed(u) && IsPath(u, canon, tip) && Stored(u, stored, tip)
  {
    assert LinkedAt(t, u.root);
    if u.Parent(u.root) in u.nodes { NotBelowRoot(u, u.Parent(u.root)); }
    forall n: nat ensures PathAt(u, canon, tip, n) && StoredAt(u, stored, tip, n) {
      assert StoredAt(t, stored, tip, n);
      if k <= n <= t.Number(tip) { AncestorsWithin(t, u, tip, n); }
    }
  }

  lemma {:induction false} StillWritten(t: BlockTree, u: BlockTree, heights: map<Hash, nat>)
    requires Written(t, heights) && forall x :: x in u.nodes ==> x in t.nodes && t.nodes[x] == u.nodes[x]
    ensures Written(u, heights)
  {
    forall h | h in u.nodes ensures HeightAt(u, heights, h) {
      assert HeightAt(t, heights, h);
    }
  }

  /** Everything a chain keeps, of the restored one. */
  lemma {:induction false} RestoredRecords(cfg: Config, t: BlockTree, base: Base, states: map<Hash, Machine>, tip: Hash, k: nat,
                                           path: seq<Hash>, canon: map<nat, Hash>, stored: map<nat, Hash>,
                                           nodes: map<Hash, Ancestry.Node>, machines: map<Hash, Machine>)
    requires Sound(t, base) && Placed(t) && states.Keys == t.nodes.Keys && Honest(cfg, t, states)
    requires tip in t.nodes && t.Number(t.root) <= k <= t.Number(tip)
    requires FollowsStore(t, tip, k, path, canon) && Stored(t, stored, tip)
    requires Restored(t, states, AncestorAt(t, tip, k), path, nodes, machines)
    ensures var from := AncestorAt(t, tip, k);
      var u := BlockTree(from, nodes);
      && AllRecorded(cfg, Base(t.nodes[from].inputs, OutputsThrough(t, base, from)), u, machines, machines, map[])
      && tip in u.nodes && IsPath(u, canon, tip) && Stored(u, stored, tip)
  {
    var from := AncestorAt(t, tip, k);
    var u := BlockTree(from, nodes);
    StoredPathChained(t, tip, k, path, canon);
    RestoredIsSound(cfg, t, base, states, from, path, nodes, machines);
    RestoredPath(t, tip, k, path, canon, stored, u);
  }

  /** What the store holds of a chain that stopped at a tip: its blocks with their records, and its canonical mapping. */
  ghost predicate Archived(cfg: Config, t: BlockTree, states: map<Hash, Machine>, store: Store, tip: Hash)
    reads store
  {
    && FromGenesis(t) && Placed(t) && states.Keys == t.nodes.Keys && Honest(cfg, t, states)
    && t.nodes[t.root].block.header.root == rootHash(states[t.root])
    && tip in t.nodes && Stored(t, store.canonical, tip) && Written(t, store.heights) && store.head == tip
  }

  /** The restored records, mapping and index, from the checkpoint block on. */
  method Rebuild(cfg: Config, t: BlockTree, store: Store, k: nat, m: Machine, ghost states: map<Hash, Machine>, ghost tip: Hash)
    returns (u: BlockTree, machines: map<Hash, Machine>, canon: map<nat, Hash>, index: map<Hash, seq<Hash>>)
    requires Archived(cfg, t, states, store, tip)
    requires k <= t.Number(tip) && m == states[AncestorAt(t, tip, k)]
    ensures u.root == AncestorAt(t, tip, k) && forall h :: h in u.nodes ==> h in t.nodes && u.nodes[h] == t.nodes[h]
    ensures AllRecorded(cfg, Base(t.nodes[u.root].inputs, OutputsThrough(t, Base(0, []), u.root)), u, machines, machines, map[])
    ensures tip in u.nodes && IsPath(u, canon, tip) && Stored(u, store.canonical, tip) && Indexed(u, index)
  {
    assert StoredAt(t, store.canonical, tip, k);
    var from := store.canonical[k];
    ghost var start := Base(0, []);
    if from != t.root { assert LinkedAt(t, from) && HonestAt(cfg, t, states, from); }
    var passer := RebuildPasser(t, from);
    assert passer == Some(t.nodes[from].passer);
    var path;
    path, canon := StoredPath(store, k, t.Number(store.head), t, tip);
    StoredPathChained(t, tip, k, path, canon);
    var ok, nodes;
    ok, nodes, machines, index := Restore(cfg, t, from, m, path, start, states);
    RestoredRecords(cfg, t, start, states, tip, k, path, canon, store.canonical, nodes, machines);
    u := BlockTree(from, nodes);
  }

  lemma {:induction false} RootsRecorded(cfg: Config, t: BlockTree, states: map<Hash, Machine>, h: Hash)
    requires Linked(t) && states.Keys == t.nodes.Keys && Honest(cfg, t, states) && h in t.nodes
    requires t.nodes[t.root].block.header.root == rootHash(states[t.root])
    ensures t.nodes[h].block.header.root == rootHash(states[h])
  {
    assert LinkedAt(t, h);
    if h != t.root { assert HonestAt(cfg, t, states, h); }
  }

  /**
    A node restarted from a checkpoint at a canonical height.  It refuses exactly a
    machine saved from another block than the one that kept the height; otherwise its
    head is the stored head, its records are the archived ones, its mapping is the stored
    one from the checkpoint on, and it keeps everything a chain that never stopped keeps.
   */
  method Reopen(cfg: Config, t: BlockTree, store: Store, k: nat, m: Machine, snapshots: nat,
                ghost states: map<Hash, Machine>, ghost tip: Hash)
    returns (c: Chain?)
    requires Archived(cfg, t, states, store, tip)
    requires k <= t.Number(tip) && OneMachine(m, states[AncestorAt(t, tip, k)])
    ensures c == null <==> m != states[AncestorAt(t, tip, k)]
    ensures c != null ==>
      && fresh(c) && c.Valid() && c.store == store && c.cfg == cfg
      && c.head == tip && c.tip == tip && c.tree.root == AncestorAt(t, tip, k)
      && c.safe == (if store.safe in c.tree.nodes then store.safe else c.tree.root)
      && c.finalized == (if store.finalized in c.tree.nodes then store.finalized else c.tree.root)
      && (forall h :: h in c.tree.nodes ==> h in t.nodes && c.tree.nodes[h] == t.nodes[h])
  {
    assert StoredAt(t, store.canonical, tip, k);
    RootsRecorded(cfg, t, states, store.canonical[k]);
    if rootHash(m) != t.nodes[store.canonical[k]].block.header.root {
      return null;
    }
    var u, machines, canon, index := Rebuild(cfg, t, store, k, m, states, tip);
    StillWritten(t, u, store.heights);
    var s := if store.safe in u.nodes then store.safe else u.root;
    var f := if store.finalized in u.nodes then store.finalized else u.root;
    ghost var base := Base(t.nodes[u.root].inputs, OutputsThrough(t, Base(0, []), u.root));
    var chain := new Chain.FromRecords(cfg, u, machines, canon, index, store.head, s, f, snapshots, store, base, machines);
    chain.Prune();
    return chain;
  }

  /** A restarted node numbers every output as the node it succeeds did, and serves the same leaves. */
  lemma {:induction false} RestartKeepsNumbers(t: BlockTree, u: BlockTree, h: Hash)
    requires FromGenesis(t) && Linked(u) && h in u.nodes
    requires forall x :: x in u.nodes ==> x in t.nodes && t.nodes[x] == u.nodes[x]
    ensures OutputsThrough(u, Base(t.nodes[u.root].inputs, OutputsThrough(t, Base(0, []), u.root)), h) ==
      OutputsThrough(t, Base(0, []), h)
  {
    OutputsWithin(t, u, Base(0, []), Base(t.nodes[u.root].inputs, OutputsThrough(t, Base(0, []), u.root)), h);
  }
}
