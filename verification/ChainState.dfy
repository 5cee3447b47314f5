/**
  The chain: building, importing and committing blocks over a tree of forks, and
  moving the canonical path between them.
 */
module ChainState {
  import opened Options
  import opened Hashing
  import opened MachineWords
  import opened Execution
  import opened OutputTree
  import opened Blocks
  import opened Ancestry
  import opened Canonical
  import opened ChainInvariant
  import opened ChainStore
  import opened ExtraData
  import opened TxIndex
  import opened Verdicts

  type PayloadId(==, 0, !new)
  const payloadId: (Hash, Attributes) -> PayloadId

  /** PANICKED stands for the outputs tree overflowing its 2^63 leaves. */
  datatype Status = VALID | SYNCING | INVALID | PANICKED

  datatype ForkchoiceAnswer =
    | Answered(status: Status, id: Option<PayloadId>)
    | InvalidForkchoiceState
    | InvalidAttributes
    | BuildFailed

  /** No block is filed under the zero hash, nor under the hash of the root's parent. */
  ghost predicate Placed(t: BlockTree)
    requires t.root in t.nodes
  {
    zeroHash !in t.nodes && (t.Number(t.root) > 0 ==> t.Parent(t.root) !in t.nodes)
  }

  /** A hash free for a new block; only a collision could make the hash of a block above the root another. */
  predicate Free(t: BlockTree, h: Hash)
    requires t.root in t.nodes
  {
    h != zeroHash && (t.Number(t.root) > 0 ==> h != t.Parent(t.root))
  }

  // ---------------------------------------------------------------- reorganisation

  /** Drops the heights above a new head. */
  method Truncate(canon: map<nat, Hash>, top: nat) returns (r: map<nat, Hash>)
    ensures forall n: nat :: n in r <==> n in canon && n <= top
    ensures forall n: nat :: n in r ==> r[n] == canon[n]
  {
    r := canon;
    var keys := canon.Keys;
    while keys != {}
      invariant keys <= canon.Keys
      invariant forall n: nat :: n in r <==> n in canon && (n <= top || n in keys)
      invariant forall n: nat :: n in r ==> r[n] == canon[n]
      decreases keys
    {
      var n :| n in keys;
      keys := keys - {n};
      if n > top { r := r - {n}; }
    }
  }

  /** Rewrites heights downwards from a new head until one already agrees. */
  method Rewrite(t: BlockTree, low: map<nat, Hash>, ghost tip: Hash, h: Hash) returns (r: map<nat, Hash>)
    requires Linked(t) && Placed(t) && tip in t.nodes && h in t.nodes
    requires Rewriting(t, low, tip, h, t.Number(h))
    ensures IsPath(t, r, h)
  {
    r := low;
    RootIsAncestor(t, h);
    var cur := h;
    while At(r, t.Number(cur)) != cur
      invariant cur in t.nodes && t.Number(t.root) <= t.Number(cur) <= t.Number(h) && cur == AncestorAt(t, h, t.Number(cur))
      invariant Rewriting(t, r, tip, h, t.Number(cur))
      decreases t.Number(cur)
    {
      var m := t.Number(cur);
      RewriteStep(t, r, tip, h, m);
      LinkOrRoot(t, cur);
      r := r[m := cur];
      if m == 0 || t.Parent(cur) !in t.nodes {
        RewriteEnds(t, r, tip, h);
        return;
      }
      AncestorStep(t, h, m);
      cur := t.Parent(cur);
    }
    AgreementIsEnough(t, r, tip, h, t.Number(cur));
  }

  /** The walk ends at the root and nowhere else. */
  lemma {:induction false} LinkOrRoot(t: BlockTree, h: Hash)
    requires Linked(t) && Placed(t) && h in t.nodes
    ensures (t.Number(h) == 0 || t.Parent(h) !in t.nodes) <==> h == t.root
    ensures h != t.root ==> t.Number(h) > t.Number(t.root)
  {
    NotBelowRoot(t, h);
    assert LinkedAt(t, h);
  }

  /** After a reorganisation, the mapping names exactly the ancestors of the new tip. */
  lemma {:induction false} PathNames(t: BlockTree, canon: map<nat, Hash>, tip: Hash, p: Hash)
    requires Linked(t) && zeroHash !in t.nodes && tip in t.nodes && IsPath(t, canon, tip) && p in t.nodes
    ensures At(canon, t.Number(p)) == p <==> t.Number(p) <= t.Number(tip) && Above(t, tip, p)
  {
    NotBelowRoot(t, p);
    assert PathAt(t, canon, tip, t.Number(p));
  }

  /** The block is the tip's ancestor at its own height. */
  ghost predicate Above(t: BlockTree, tip: Hash, p: Hash)
    requires Linked(t) && tip in t.nodes && p in t.nodes && t.Number(p) <= t.Number(tip)
  {
    NotBelowRoot(t, p);
    AncestorAt(t, tip, t.Number(p)) == p
  }

  // ------------------------------------------------------------------------ records

  ghost predicate AllPending(cfg: Config, t: BlockTree, states: map<Hash, Machine>, pending: map<PayloadId, Built>)
    requires states.Keys == t.nodes.Keys
  {
    forall id {:trigger PendingAt(cfg, t, states, pending[id])} :: id in pending ==> PendingAt(cfg, t, states, pending[id])
  }

  /** Sound, honest records on every fork, true snapshots, and pending payloads that will be accepted. */
  ghost predicate AllRecorded(cfg: Config, base: Base, t: BlockTree, states: map<Hash, Machine>,
                              machines: map<Hash, Machine>, pending: map<PayloadId, Built>)
  {
    && Sound(t, base) && Placed(t)
    && Snapshots(t, states, machines)
    && Honest(cfg, t, states)
    && AllPending(cfg, t, states, pending)
  }

  lemma {:induction false} CommitRecords(cfg: Config, base: Base, t: BlockTree, states: map<Hash, Machine>,
                                         machines: map<Hash, Machine>, pending: map<PayloadId, Built>,
                                         h: Hash, b: Block, exec: Exec, tree: Frontier, passer: Passer)
    requires AllRecorded(cfg, base, t, states, machines, pending)
    requires Acceptable(cfg, t, states, h, b, exec, tree, passer) && Free(t, h)
    ensures var u := WithNode(t, h, Committing(t, b, exec, tree, passer));
      Grows(t, u) && AllRecorded(cfg, base, u, states[h := exec.machine], machines[h := exec.machine], pending)
  {
    CommitKeeps(cfg, base, t, states, h, b, exec, tree, passer);
    var n := Committing(t, b, exec, tree, passer);
    forall id | id in pending ensures PendingAt(cfg, WithNode(t, h, n), states[h := exec.machine], pending[id]) {
      assert PendingAt(cfg, t, states, pending[id]);
      PendingSurvives(cfg, t, states, h, n, exec.machine, pending[id]);
    }
  }

  /** Fewer snapshots and fewer pending payloads are still true ones. */
  lemma {:induction false} FewerRecords(cfg: Config, base: Base, t: BlockTree, states: map<Hash, Machine>,
                                        machines: map<Hash, Machine>, pending: map<PayloadId, Built>,
                                        fewer: map<Hash, Machine>, left: map<PayloadId, Built>)
    requires AllRecorded(cfg, base, t, states, machines, pending)
    requires forall h :: h in fewer ==> h in machines && fewer[h] == machines[h]
    requires forall id :: id in left ==> id in pending && left[id] == pending[id]
    ensures AllRecorded(cfg, base, t, states, fewer, left)
  {
    forall id | id in left ensures PendingAt(cfg, t, states, left[id]) {
      assert PendingAt(cfg, t, states, pending[id]);
    }
  }

  /** The body of a build, from the parent's records to the payload. */
  method Prepare(cfg: Config, parent: Header, rec: Records, attrs: Attributes, pool: seq<RawTx>, da: nat -> DaLimits)
    returns (r: Option<Built>)
    ensures r == Assemble(cfg, parent, rec, attrs, pool, da)
  {
    var gasLimit := GasLimitOf(parent, attrs);
    var ic := ContextFor(cfg, parent, attrs.timestamp, attrs.random, rec.inputs);
    var b := ApplyBuild(rec.machine, ic, cfg.maxCycles, gasLimit, da, attrs.transactions, PoolOf(attrs, pool));
    if b.None? {
      return None;
    }
    var extra := ExtraFor(cfg.denominator, cfg.elasticity, attrs.eip1559);
    if extra.None? {
      return None;
    }
    var exec := b.value.exec;
    var leaves := OutputLeaves(exec.outputs);
    var tree := Append(rec.tree, leaves);
    if tree.None? {
      return None;
    }
    var passer := PasserAfter(rec.passer, exec.outputs, Root(tree.value));
    var header := BuildHeader(parent, attrs, rootHash(exec.machine), b.value.included, Min(exec.gas, gasLimit),
                              gasLimit, cfg.baseFee, extra.value, passerRoot(passer));
    return Some(Built(header, ExecutableData(header, b.value.included), header.parentBeaconRoot, exec, tree.value, passer,
                      rec.inputs));
  }

  /** The answer to a build request and the payloads then pending. */
  ghost function BuildOutcome(cfg: Config, t: BlockTree, machines: map<Hash, Machine>, pending: map<PayloadId, Built>,
                              h: Hash, attrs: Attributes, pool: seq<RawTx>, da: nat -> DaLimits)
    : (r: (Option<PayloadId>, map<PayloadId, Built>))
    requires h in t.nodes
  {
    var id := payloadId(h, attrs);
    if h !in machines then (None, pending)
    else if id in pending then (Some(id), pending)
    else
      var a := Assemble(cfg, t.nodes[h].block.header, RecordsOf(t.nodes[h], machines[h]), attrs, pool, da);
      if a.None? then (None, pending) else (Some(id), pending[id := a.value])
  }

  /** What a build leaves pending is what every verifier will accept. */
  lemma {:induction false} AssembledIsPending(cfg: Config, t: BlockTree, states: map<Hash, Machine>, h: Hash, attrs: Attributes,
                           pool: seq<RawTx>, da: nat -> DaLimits)
    requires states.Keys == t.nodes.Keys && h in t.nodes && headerHash(t.nodes[h].block.header) == h
    requires t.Number(h) + 1 < TWO_64 && attrs.timestamp > t.nodes[h].block.header.time
    requires Assemble(cfg, t.nodes[h].block.header, RecordsOf(t.nodes[h], states[h]), attrs, pool, da).Some?
    ensures PendingAt(cfg, t, states,
      Assemble(cfg, t.nodes[h].block.header, RecordsOf(t.nodes[h], states[h]), attrs, pool, da).value)
  {
    AssembledIsValid(cfg, t.nodes[h].block.header, RecordsOf(t.nodes[h], states[h]), attrs, pool, da);
  }

  lemma {:induction false} BuildRecords(cfg: Config, base: Base, t: BlockTree, states: map<Hash, Machine>,
                                        machines: map<Hash, Machine>, pending: map<PayloadId, Built>,
                                        h: Hash, attrs: Attributes, pool: seq<RawTx>, da: nat -> DaLimits)
    requires AllRecorded(cfg, base, t, states, machines, pending)
    requires h in t.nodes && t.Number(h) + 1 < TWO_64 && attrs.timestamp > t.nodes[h].block.header.time
    ensures AllRecorded(cfg, base, t, states, machines, BuildOutcome(cfg, t, machines, pending, h, attrs, pool, da).1)
  {
    assert LinkedAt(t, h);
    var after := BuildOutcome(cfg, t, machines, pending, h, attrs, pool, da).1;
    forall id | id in after ensures PendingAt(cfg, t, states, after[id]) {
      if id in pending && after[id] == pending[id] {
        assert PendingAt(cfg, t, states, pending[id]);
      } else {
        assert machines[h] == states[h];
        AssembledIsPending(cfg, t, states, h, attrs, pool, da);
      }
    }
  }

  /** Replays a payload on its parent's records and compares what it claims with what it did. */
  method Reexecute(cfg: Config, rec: Records, header: Header, data: Payload) returns (v: Verdict)
    ensures v == JudgeExec(rec, header, data,
      Replay(rec.machine, ContextOf(cfg, header, rec.inputs), cfg.maxCycles, data.transactions))
  {
    var exec := ReplayImport(rec.machine, ContextOf(cfg, header, rec.inputs), cfg.maxCycles, data.transactions);
    if rootHash(exec.machine) != data.stateRoot {
      return Invalid;
    }
    if Min(exec.gas, data.gasLimit) != data.gasUsed {
      return Invalid;
    }
    var leaves := OutputLeaves(exec.outputs);
    var tree := Append(rec.tree, leaves);
    if tree.None? {
      return Full;
    }
    var passer := PasserAfter(rec.passer, exec.outputs, Root(tree.value));
    if Some(passerRoot(passer)) != data.withdrawalsRoot {
      return Invalid;
    }
    return Valid(Block(header, data.transactions), exec, tree.value, passer);
  }

  /** The verdict on a payload, from the true state of its parent. */
  ghost function VerdictOn(cfg: Config, t: BlockTree, states: map<Hash, Machine>, data: Payload,
                           beaconRoot: Option<Hash>): (v: Verdict)
    requires data.parentHash in t.nodes && data.parentHash in states
  {
    var n := t.nodes[data.parentHash];
    Judge(cfg, n.block.header, RecordsOf(n, states[data.parentHash]), data, beaconRoot)
  }

  /** The status of an import, decided before anything is committed. */
  ghost function ImportStatus(cfg: Config, t: BlockTree, states: map<Hash, Machine>, machines: set<Hash>,
                              built: set<Hash>, data: Payload, beaconRoot: Option<Hash>): (s: Status)
    requires states.Keys == t.nodes.Keys
    ensures s == VALID && data.blockHash !in t.nodes ==> data.parentHash in t.nodes
  {
    var header := HeaderFromPayload(data, beaconRoot);
    if header.None? || headerHash(header.value) != data.blockHash then INVALID
    else if data.blockHash in t.nodes then VALID
    else if data.parentHash !in t.nodes then SYNCING
    else if JudgeHeader(t.nodes[data.parentHash].block.header, data, beaconRoot).None? then INVALID
    else if data.blockHash in built then VALID
    else if data.parentHash !in machines then SYNCING
    else
      match VerdictOn(cfg, t, states, data, beaconRoot)
      case Valid(_, _, _, _) => VALID
      case Invalid => INVALID
      case Full => PANICKED
  }

  /** The payload's own hash holds. */
  ghost predicate HashHolds(data: Payload, beaconRoot: Option<Hash>) {
    var hd := HeaderFromPayload(data, beaconRoot);
    hd.Some? && headerHash(hd.value) == data.blockHash
  }

  /**
    What an answer to a payload means.  A new block is called valid only if every
    condition on it stands; on a parent whose state is at hand it is called valid exactly
    then, and invalid exactly when one fails.
   */
  ghost predicate Answers(cfg: Config, t: BlockTree, states: map<Hash, Machine>, live: set<Hash>, data: Payload,
                          beaconRoot: Option<Hash>, s: Status)
    requires states.Keys == t.nodes.Keys
  {
    if !HashHolds(data, beaconRoot) then s == INVALID
    else if data.blockHash in t.nodes then s == VALID
    else if data.parentHash !in t.nodes then s == SYNCING
    else
      var parent, rec := t.nodes[data.parentHash].block.header, RecordsOf(t.nodes[data.parentHash], states[data.parentHash]);
      && (s == VALID ==> Stands(cfg, parent, rec, data, beaconRoot))
      && (!HeaderStands(parent, data, beaconRoot) ==> s == INVALID)
      && (data.parentHash in live ==>
            (s == VALID <==> Stands(cfg, parent, rec, data, beaconRoot)) &&
            (s == INVALID <==> Fails(cfg, parent, rec, data, beaconRoot)))
  }

  lemma {:induction false} StatusAnswers(cfg: Config, t: BlockTree, states: map<Hash, Machine>, live: set<Hash>,
                                         built: set<Hash>, data: Payload, beaconRoot: Option<Hash>, s: Status)
    requires states.Keys == t.nodes.Keys && s == ImportStatus(cfg, t, states, live, built, data, beaconRoot)
    requires HashHolds(data, beaconRoot) && data.parentHash in t.nodes ==> t.Number(data.parentHash) + 1 < TWO_64
    requires s == VALID && data.blockHash !in t.nodes ==> VerdictOn(cfg, t, states, data, beaconRoot).Valid?
    ensures Answers(cfg, t, states, live, data, beaconRoot, s)
  {
    if HashHolds(data, beaconRoot) && data.blockHash !in t.nodes && data.parentHash in t.nodes {
      var n := t.nodes[data.parentHash];
      HeaderJudged(n.block.header, data, beaconRoot);
      VerdictExactly(cfg, n.block.header, RecordsOf(n, states[data.parentHash]), data, beaconRoot);
    }
  }

  /** The pending payloads after an import: one built under the hash is used up by the block it became. */
  ghost predicate UsedUp(pending: map<PayloadId, Built>, left: map<PayloadId, Built>, hash: Hash, committed: bool) {
    if committed && exists id :: id in pending && pending[id].data.blockHash == hash then
      exists id :: id in pending && pending[id].data.blockHash == hash && left == pending - {id}
    else left == pending
  }

  /** A valid import of a new block commits what the verdict found; any other changes nothing. */
  ghost predicate Imported(cfg: Config, t: BlockTree, states: map<Hash, Machine>, machines: map<Hash, Machine>,
                           data: Payload, beaconRoot: Option<Hash>, s: Status, t': BlockTree, machines': map<Hash, Machine>)
    requires states.Keys == t.nodes.Keys
  {
    if s == VALID && data.blockHash !in t.nodes then
      && data.parentHash in t.nodes
      && var v := VerdictOn(cfg, t, states, data, beaconRoot);
         && v.Valid? && v.block.header.parentHash in t.nodes
         && t' == WithNode(t, data.blockHash, Committing(t, v.block, v.exec, v.tree, v.passer))
         && machines' == machines[data.blockHash := v.exec.machine]
    else t' == t && machines' == machines
  }

  const zeroAddress: Address

  /** Genesis has no parent, no transactions and a commitment holding only the empty tree's root. */
  function Genesis(cfg: Config, m: Machine, gasLimit: nat, time: nat): (h: Header) {
    Header(zeroHash, emptyUncleHash, zeroAddress, rootHash(m), txsRoot([]), emptyReceiptsHash, emptyBloom, 0, 0,
           gasLimit, 0, time, Encoded(cfg.denominator, cfg.elasticity), zeroHash, 0, cfg.baseFee,
           passerRoot(Committed([], Root(EMPTY))), Some(0), Some(0), zeroHash, emptyRequestsHash)
  }

  function GenesisTree(genesis: Header): (t: BlockTree) {
    var h := headerHash(genesis);
    BlockTree(h, map[h := Ancestry.Node(Block(genesis, []), [], EMPTY, Committed([], Root(EMPTY)), 0)])
  }

  lemma {:induction false} GenesisRecorded(cfg: Config, genesis: Header, m: Machine)
    requires genesis.number == 0 && headerHash(genesis) != zeroHash
    ensures var h := headerHash(genesis);
      AllRecorded(cfg, Base(0, []), GenesisTree(genesis), map[h := m], map[h := m], map[])
    ensures Indexed(GenesisTree(genesis), map[])
  {
    EmptyRepresents();
    assert Leaves([]) == [];
    assert LinkedAt(GenesisTree(genesis), headerHash(genesis));
  }

  lemma {:induction false} GenesisPath(genesis: Header)
    requires genesis.number == 0 && headerHash(genesis) != zeroHash && Linked(GenesisTree(genesis))
    ensures var h := headerHash(genesis);
      IsPath(GenesisTree(genesis), map[0 := h], h) && Stored(GenesisTree(genesis), map[0 := h], h)
  {
    var t, h := GenesisTree(genesis), headerHash(genesis);
    assert AncestorAt(t, h, 0) == h;
    forall n: nat ensures PathAt(t, map[0 := h], h, n) && StoredAt(t, map[0 := h], h, n) {
    }
  }

  // -------------------------------------------------------------------------- store

  ghost predicate HeightAt(t: BlockTree, heights: map<Hash, nat>, h: Hash)
    requires h in t.nodes
  {
    h in heights && heights[h] == t.Number(h)
  }

  /** Every block in memory was written to the store. */
  ghost predicate Written(t: BlockTree, heights: map<Hash, nat>) {
    forall h {:trigger HeightAt(t, heights, h)} :: h in t.nodes ==> HeightAt(t, heights, h)
  }

  lemma {:induction false} WrittenGrows(t: BlockTree, heights: map<Hash, nat>, h: Hash, n: Ancestry.Node)
    requires Written(t, heights) && h !in t.nodes
    ensures Written(WithNode(t, h, n), heights[h := n.block.header.number])
  {
    var u, more := WithNode(t, h, n), heights[h := n.block.header.number];
    forall x | x in u.nodes ensures HeightAt(u, more, x) {
      if x != h { assert HeightAt(t, heights, x); }
    }
  }

  /** The snapshots a prune keeps: those of protected blocks, and of blocks in the retention window. */
  function Retained(t: BlockTree, machines: map<Hash, Machine>, protected: set<Hash>, cutoff: nat): (r: map<Hash, Machine>)
    requires forall h :: h in machines ==> h in t.nodes
  {
    map h | h in machines && (h in protected || t.Number(h) >= cutoff) :: machines[h]
  }

  function Cutoff(top: nat, snapshots: nat): (c: nat) {
    if top > snapshots then top - snapshots else 0
  }

  class Chain {
    const cfg: Config
    const maxSnapshots: nat
    const store: Store?
    ghost const base: Base

    var tree: BlockTree
    var machines: map<Hash, Machine>
    var canonical: map<nat, Hash>
    var pending: map<PayloadId, Built>
    var index: map<Hash, seq<Hash>>
    var head: Hash
    var safe: Hash
    var finalized: Hash

    /** The true post-state of every block, and the block each canonical mapping leads to. */
    ghost var states: map<Hash, Machine>
    ghost var tip: Hash
    ghost var storedTip: Hash

    ghost predicate Recorded()
      reads this`tree, this`states, this`machines, this`pending, this`index
    {
      AllRecorded(cfg, base, tree, states, machines, pending) && Indexed(tree, index)
    }

    ghost predicate OnePath()
      requires Linked(tree)
      reads this`tree, this`canonical, this`tip, this`head
    {
      tip in tree.nodes && IsPath(tree, canonical, tip) && head in tree.nodes
    }

    ghost predicate StoreAgrees()
      requires Linked(tree)
      reads this`tree, this`storedTip, store
    {
      store != null ==>
        storedTip in tree.nodes && Stored(tree, store.canonical, storedTip) && Written(tree, store.heights)
    }

    ghost predicate Valid()
      reads this`tree, this`states, this`machines, this`pending, this`index, this`canonical, this`tip, this`head,
            this`storedTip, store
    {
      Recorded() && OnePath() && StoreAgrees()
    }

    /** A fresh chain over a machine parked at its first input; a store attached to it already holds genesis. */
    constructor (c: Config, m: Machine, gasLimit: nat, time: nat, snapshots: nat, s: Store?)
      requires headerHash(Genesis(c, m, gasLimit, time)) != zeroHash
      requires s != null ==>
        var h := headerHash(Genesis(c, m, gasLimit, time)); s.canonical == map[0 := h] && s.heights == map[h := 0]
      ensures Valid() && cfg == c && store == s
      ensures tree.root == head == headerHash(Genesis(c, m, gasLimit, time))
      ensures canonical == map[0 := head] && machines == map[head := m] && pending == map[]
    {
      var genesis := Genesis(c, m, gasLimit, time);
      var h := headerHash(genesis);
      cfg, maxSnapshots, store, base := c, snapshots, s, Base(0, []);
      tree, machines, states := GenesisTree(genesis), map[h := m], map[h := m];
      canonical, pending, index := map[0 := h], map[], map[];
      head, safe, finalized, tip, storedTip := h, h, h, h, h;
      GenesisRecorded(c, genesis, m);
      GenesisPath(genesis);
    }

    /** A chain over records already in order, such as those a restart rebuilt from a checkpoint on. */
    constructor FromRecords(c: Config, t: BlockTree, live: map<Hash, Machine>, canon: map<nat, Hash>,
                            txBlocks: map<Hash, seq<Hash>>, h: Hash, s: Hash, f: Hash, snapshots: nat, st: Store?,
                            ghost from: Base, ghost truth: map<Hash, Machine>)
      requires AllRecorded(c, from, t, truth, live, map[]) && Indexed(t, txBlocks)
      requires h in t.nodes && IsPath(t, canon, h)
      requires st != null ==> Stored(t, st.canonical, h) && Written(t, st.heights)
      ensures Valid() && cfg == c && store == st && tree == t && machines == live && canonical == canon
      ensures head == h && safe == s && finalized == f && tip == h && pending == map[] && states == truth && base == from
    {
      cfg, maxSnapshots, store, base := c, snapshots, st, from;
      tree, machines, states := t, live, truth;
      canonical, pending, index := canon, map[], txBlocks;
      head, safe, finalized, tip, storedTip := h, s, f, h, h;
    }

    /** Makes the chain ending at a block canonical. */
    method ReorgTo(h: Hash)
      requires Valid() && h in tree.nodes
      modifies this`canonical, this`tip
      ensures Valid() && tip == h
    {
      var low := Truncate(canonical, tree.Number(h));
      RewriteBegins(tree, canonical, tip, h, low);
      canonical := Rewrite(tree, low, tip, h);
      tip := h;
    }

    /** A block a pointer names, or not further below the head than snapshots are kept for. */
    ghost predicate Keeps(h: Hash)
      requires h in tree.nodes && head in tree.nodes
      reads this`tree, this`head, this`safe, this`finalized
    {
      h == head || h == safe || h == finalized || tree.Number(h) + maxSnapshots >= tree.Number(head)
    }

    /** Closes snapshots that fell out of the retention window and payloads that can no longer be next. */
    method Prune()
      requires Valid()
      modifies this`machines, this`pending
      ensures Valid()
      ensures forall h :: h in machines ==> h in tree.nodes && h in old(machines) && machines[h] == old(machines)[h]
      ensures forall h :: h in machines <==> h in old(machines) && h in tree.nodes && Keeps(h)
      ensures pending == map id | id in old(pending) && old(pending)[id].data.number > tree.Number(head) :: old(pending)[id]
    {
      var top := tree.Number(head);
      var fewer := Retained(tree, machines, {head, safe, finalized}, Cutoff(top, maxSnapshots));
      var left := map id | id in pending && pending[id].data.number > top :: pending[id];
      FewerRecords(cfg, base, tree, states, machines, pending, fewer, left);
      machines, pending := fewer, left;
    }

    /** Writes a block about to join the tree through to the store. */
    method WriteThrough(h: Hash, n: Ancestry.Node)
      requires Linked(tree) && h !in tree.nodes && Linked(WithNode(tree, h, n)) && StoreAgrees()
      modifies store
      ensures store != null ==>
        && storedTip in tree.nodes && Stored(WithNode(tree, h, n), store.canonical, storedTip)
        && Written(WithNode(tree, h, n), store.heights)
        && store.heights == old(store.heights)[h := n.block.header.number] && store.canonical == old(store.canonical)
    {
      if store != null {
        StoredSurvives(tree, WithNode(tree, h, n), store.canonical, storedTip);
        WrittenGrows(tree, store.heights, h, n);
        store.PutBlock(h, n.block.header.number);
      }
    }

    /** Stores a validated block with its records and post-state, files its transactions and writes it through. */
    method Commit(b: Block, exec: Exec, after: Frontier, passer: Passer, firstInput: nat)
      requires Valid()
      requires Acceptable(cfg, tree, states, headerHash(b.header), b, exec, after, passer) && Free(tree, headerHash(b.header))
      requires firstInput == tree.nodes[b.header.parentHash].inputs
      modifies this`tree, this`machines, this`states, this`index, store
      ensures Valid()
      ensures tree == WithNode(old(tree), headerHash(b.header), Committing(old(tree), b, exec, after, passer))
      ensures machines == old(machines)[headerHash(b.header) := exec.machine]
      ensures states == old(states)[headerHash(b.header) := exec.machine]
      ensures store != null ==>
        store.heights == old(store.heights)[headerHash(b.header) := b.header.number] && store.canonical == old(store.canonical)
    {
      var h := headerHash(b.header);
      var n := Ancestry.Node(b, exec.outputs, after, passer, Add64(firstInput, |b.txs|));
      var u, live := WithNode(tree, h, n), machines[h := exec.machine];
      ghost var truth := states[h := exec.machine];
      assert n == Committing(tree, b, exec, after, passer);
      CommitRecords(cfg, base, tree, states, machines, pending, h, b, exec, after, passer);
      PathSurvives(tree, u, canonical, tip);
      var filed := IndexBlock(index, n, h, tree);
      WriteThrough(h, n);
      Install(u, live, filed, truth);
    }

    /** Takes a tree grown by one block, with what goes with it. */
    method Install(u: BlockTree, live: map<Hash, Machine>, filed: map<Hash, seq<Hash>>, ghost truth: map<Hash, Machine>)
      requires AllRecorded(cfg, base, u, truth, live, pending) && Indexed(u, filed)
      requires tip in u.nodes && IsPath(u, canonical, tip) && head in u.nodes
      requires store != null ==>
        storedTip in u.nodes && Stored(u, store.canonical, storedTip) && Written(u, store.heights)
      modifies this`tree, this`machines, this`states, this`index
      ensures Valid() && tree == u && machines == live && states == truth && index == filed
    {
      tree, machines, states, index := u, live, truth, filed;
    }

    /** Executes deposits and pool transactions on a fork of the parent and keeps the payload for later. */
    method BuildPayload(h: Hash, attrs: Attributes, pool: seq<RawTx>, da: nat -> DaLimits) returns (r: Option<PayloadId>)
      requires Valid() && h in tree.nodes && tree.Number(h) + 1 < TWO_64
      requires attrs.timestamp > tree.nodes[h].block.header.time
      modifies this`pending
      ensures Valid()
      ensures (r, pending) == BuildOutcome(cfg, tree, machines, old(pending), h, attrs, pool, da)
    {
      BuildRecords(cfg, base, tree, states, machines, pending, h, attrs, pool, da);
      if h !in machines {
        return None;
      }
      var id := payloadId(h, attrs);
      if id in pending {
        return Some(id);
      }
      var built := Prepare(cfg, tree.nodes[h].block.header, RecordsOf(tree.nodes[h], machines[h]), attrs, pool, da);
      if built.None? {
        return None;
      }
      pending := pending[id := built.value];
      return Some(id);
    }

    /** The payload built here under a block hash, if one is pending. */
    method FindBuilt(hash: Hash) returns (r: Option<PayloadId>)
      ensures r.Some? ==> r.value in pending && pending[r.value].data.blockHash == hash
      ensures r.None? ==> hash !in set id | id in pending :: pending[id].data.blockHash
      ensures r.None? ==> forall id :: id in pending ==> pending[id].data.blockHash != hash
    {
      var ids := pending.Keys;
      while ids != {}
        invariant ids <= pending.Keys
        invariant forall id :: id in pending.Keys - ids ==> pending[id].data.blockHash != hash
        decreases ids
      {
        var id :| id in ids;
        if pending[id].data.blockHash == hash {
          return Some(id);
        }
        ids := ids - {id};
      }
      return None;
    }

    /**
      What an import takes for granted of the hashes of a payload on a known parent: it
      is free for a new block and collides with nothing built here.  The parent's height
      leaves room for a child.
     */
    ghost predicate Importable(data: Payload, beaconRoot: Option<Hash>)
      reads this`tree, this`pending
    {
      var hd := HeaderFromPayload(data, beaconRoot);
      hd.Some? && data.parentHash in tree.nodes && tree.root in tree.nodes ==>
        && tree.Number(data.parentHash) + 1 < TWO_64
        && Free(tree, headerHash(hd.value))
        && forall id :: id in pending ==> NoCollision(pending[id], hd.value, data.transactions)
    }

    /** Commits a block under a verdict the parent's true state yields. */
    method CommitVerdict(data: Payload, beaconRoot: Option<Hash>, v: Verdict)
      requires Valid() && data.parentHash in tree.nodes && data.blockHash !in tree.nodes
      requires tree.Number(data.parentHash) + 1 < TWO_64 && Free(tree, data.blockHash)
      requires v.Valid? && v == VerdictOn(cfg, tree, states, data, beaconRoot)
      modifies this`tree, this`machines, this`states, this`index, store
      ensures Valid()
      ensures Imported(cfg, old(tree), old(states), old(machines), data, beaconRoot, VALID, tree, machines)
    {
      ValidIsAcceptable(cfg, tree, states, data, beaconRoot, v);
      Commit(v.block, v.exec, v.tree, v.passer, tree.nodes[v.block.header.parentHash].inputs);
    }

    /** Commits the execution of a payload built here instead of repeating it. */
    method AdoptBuilt(id: PayloadId, header: Header, data: Payload, beaconRoot: Option<Hash>)
      requires Valid() && data.blockHash !in tree.nodes && data.parentHash in tree.nodes && Importable(data, beaconRoot)
      requires id in pending && pending[id].data.blockHash == data.blockHash
      requires HeaderFromPayload(data, beaconRoot) == Some(header) && headerHash(header) == data.blockHash
      modifies this`tree, this`machines, this`states, this`pending, this`index, store
      ensures Valid()
      ensures Imported(cfg, old(tree), old(states), old(machines), data, beaconRoot, VALID, tree, machines)
      ensures pending == old(pending) - {id}
    {
      var p := pending[id];
      assert PendingAt(cfg, tree, states, p);
      AdoptedIsBuilt(cfg, tree, states, p, data, beaconRoot);
      CommitVerdict(data, beaconRoot, Verdict.Valid(Block(header, data.transactions), p.exec, p.tree, p.passer));
      var left := pending - {id};
      FewerRecords(cfg, base, tree, states, machines, pending, machines, left);
      pending := left;
    }

    /**
      Validates a payload and commits it, adopting the execution of a payload built
      here instead of repeating it.  Either way what is committed is what the parent's
      true state yields, and neither the head nor the canonical path moves.
     */
    method ImportPayload(data: Payload, beaconRoot: Option<Hash>) returns (s: Status)
      requires Valid() && Importable(data, beaconRoot)
      modifies this`tree, this`machines, this`states, this`pending, this`index, store
      ensures Valid()
      ensures s == ImportStatus(cfg, old(tree), old(states), old(machines).Keys,
        set id | id in old(pending) :: old(pending)[id].data.blockHash, data, beaconRoot)
      ensures Imported(cfg, old(tree), old(states), old(machines), data, beaconRoot, s, tree, machines)
      ensures UsedUp(old(pending), pending, data.blockHash, s == VALID && data.blockHash !in old(tree).nodes)
      ensures Answers(cfg, old(tree), old(states), old(machines).Keys, data, beaconRoot, s)
    {
      s := JudgeAndCommit(data, beaconRoot);
      StatusAnswers(cfg, old(tree), old(states), old(machines).Keys,
                    set id | id in old(pending) :: old(pending)[id].data.blockHash, data, beaconRoot, s);
    }

    /** The steps of an import, in order; the first that fails decides the answer. */
    method JudgeAndCommit(data: Payload, beaconRoot: Option<Hash>) returns (s: Status)
      requires Valid() && Importable(data, beaconRoot)
      modifies this`tree, this`machines, this`states, this`pending, this`index, store
      ensures Valid()
      ensures s == ImportStatus(cfg, old(tree), old(states), old(machines).Keys,
        set id | id in old(pending) :: old(pending)[id].data.blockHash, data, beaconRoot)
      ensures Imported(cfg, old(tree), old(states), old(machines), data, beaconRoot, s, tree, machines)
      ensures UsedUp(old(pending), pending, data.blockHash, s == VALID && data.blockHash !in old(tree).nodes)
    {
      var header := HeaderFromPayload(data, beaconRoot);
      if header.None? || headerHash(header.value) != data.blockHash {
        return INVALID;
      }
      if data.blockHash in tree.nodes {
        return VALID;
      }
      if data.parentHash !in tree.nodes {
        return SYNCING;
      }
      var parent := tree.nodes[data.parentHash];
      if data.number != Add64(Low64(parent.block.header.number), 1) || data.timestamp <= parent.block.header.time {
        return INVALID;
      }
      var built := FindBuilt(data.blockHash);
      if built.Some? {
        AdoptBuilt(built.value, header.value, data, beaconRoot);
        return VALID;
      }
      if data.parentHash !in machines {
        return SYNCING;
      }
      var v := Reexecute(cfg, RecordsOf(parent, machines[data.parentHash]), header.value, data);
      match v
      case Invalid => return INVALID;
      case Full => return PANICKED;
      case Valid(_, _, _, _) =>
        CommitVerdict(data, beaconRoot, v);
        return VALID;
    }

    /** Whether a hash names a block on this chain, asking the store for what memory no longer holds. */
    ghost predicate IsCanonical(h: Hash)
      reads this`tree, this`canonical, store
    {
      if h in tree.nodes then At(canonical, tree.Number(h)) == h else InStore(h)
    }

    ghost predicate InStore(h: Hash)
      reads store
    {
      store != null && h in store.heights && At(store.canonical, store.heights[h]) == h
    }

    /** A pointer a forkchoice call may carry with a head: none, an ancestor of the head, or a block of the stored chain. */
    ghost predicate Points(h: Hash, p: Hash)
      requires Linked(tree) && h in tree.nodes
      reads this`tree, store
    {
      p == zeroHash ||
      if p in tree.nodes then tree.Number(p) <= tree.Number(h) && Above(tree, h, p) else InStore(p)
    }

    method CheckCanonical(h: Hash) returns (r: bool)
      ensures r == IsCanonical(h)
    {
      if h in tree.nodes {
        return At(canonical, tree.Number(h)) == h;
      }
      if store == null || h !in store.heights {
        return false;
      }
      return At(store.canonical, store.heights[h]) == h;
    }

    /** The store names the head, and the other two pointers as far as they are set. */
    ghost predicate HeadsStored()
      reads this`head, this`safe, this`finalized, store
    {
      store != null ==>
        && store.head == head && (safe != zeroHash ==> store.safe == safe)
        && (finalized != zeroHash ==> store.finalized == finalized)
    }

    /** Writes the canonical mapping and the three pointers through to the store. */
    method Persist()
      requires Valid()
      modifies store, this`storedTip
      ensures Valid() && (store != null ==> storedTip == head) && HeadsStored()
      ensures store != null ==>
        forall n: nat :: n < tree.Number(tree.root) ==> At(store.canonical, n) == At(old(store.canonical), n)
    {
      if store != null {
        store.SetCanonical(head, tree, storedTip);
        storedTip := head;
        store.SetHeads(head, safe, finalized);
      }
    }

    /** Records the safe and finalized pointers in turn; a pointer off the canonical chain is refused. */
    method PointTo(s: Hash, f: Hash) returns (ok: bool)
      modifies this`safe, this`finalized
      ensures ok <==> (s == zeroHash || IsCanonical(s)) && (f == zeroHash || IsCanonical(f))
      ensures safe == if s != zeroHash && IsCanonical(s) then s else old(safe)
      ensures finalized == if ok && f != zeroHash then f else old(finalized)
    {
      if s != zeroHash {
        ok := CheckCanonical(s);
        if !ok { return; }
        safe := s;
      }
      if f != zeroHash {
        ok := CheckCanonical(f);
        if !ok { return; }
        finalized := f;
      }
      return true;
    }

    /** Reorganises to a known head, then records the pointers; the reorganisation stands even if they are refused. */
    method Redirect(h: Hash, s: Hash, f: Hash) returns (ok: bool)
      requires Valid() && h in tree.nodes
      modifies this`canonical, this`tip, this`safe, this`finalized
      ensures Valid() && tip == h
      ensures ok <==> Points(h, s) && Points(h, f)
      ensures ok ==> safe == if s != zeroHash then s else old(safe)
      ensures ok ==> finalized == if f != zeroHash then f else old(finalized)
    {
      ReorgTo(h);
      if s in tree.nodes { PathNames(tree, canonical, h, s); }
      if f in tree.nodes { PathNames(tree, canonical, h, f); }
      ok := PointTo(s, f);
    }

    /** Moves the head to a canonical block and lets snapshots, pending payloads and the store follow. */
    method Settle(h: Hash)
      requires Valid() && h in tree.nodes
      modifies this`head, this`machines, this`pending, this`storedTip, store
      ensures Valid() && head == h && (store != null ==> storedTip == h) && HeadsStored()
      ensures h in machines <==> h in old(machines)
    {
      head := h;
      Prune();
      Persist();
    }

    /** Starts a build when attributes were sent and lie after the head. */
    method MaybeBuild(h: Hash, attrs: Option<Attributes>, pool: seq<RawTx>, da: nat -> DaLimits) returns (r: ForkchoiceAnswer)
      requires Valid() && h in tree.nodes && (attrs.Some? ==> tree.Number(h) + 1 < TWO_64)
      modifies this`pending
      ensures Valid()
      ensures attrs.None? ==> r == Answered(VALID, None) && pending == old(pending)
      ensures attrs.Some? && attrs.value.timestamp <= tree.nodes[h].block.header.time ==>
        r == InvalidAttributes && pending == old(pending)
      ensures attrs.Some? && attrs.value.timestamp > tree.nodes[h].block.header.time ==>
        var (id, after) := BuildOutcome(cfg, tree, machines, old(pending), h, attrs.value, pool, da);
        pending == after && r == if id.None? then BuildFailed else Answered(VALID, id)
    {
      if attrs.None? {
        return Answered(VALID, None);
      }
      if attrs.value.timestamp <= tree.nodes[h].block.header.time {
        return InvalidAttributes;
      }
      var id := BuildPayload(h, attrs.value, pool, da);
      return if id.None? then BuildFailed else Answered(VALID, id);
    }

    /** What a call with an accepted head answers, and what is then pending. */
    ghost predicate Followed(h: Hash, attrs: Option<Attributes>, pool: seq<RawTx>, da: nat -> DaLimits, kept: bool,
                             r: ForkchoiceAnswer)
      requires h in tree.nodes && h in states
      reads this`tree, this`states, this`pending
    {
      if attrs.None? then r == Answered(VALID, None)
      else if attrs.value.timestamp <= tree.nodes[h].block.header.time then r == InvalidAttributes
      else if r == BuildFailed then
        kept ==> Assemble(cfg, tree.nodes[h].block.header, RecordsOf(tree.nodes[h], states[h]), attrs.value, pool, da).None?
      else r == Answered(VALID, Some(payloadId(h, attrs.value))) && payloadId(h, attrs.value) in pending
    }

    method Follow(h: Hash, attrs: Option<Attributes>, pool: seq<RawTx>, da: nat -> DaLimits) returns (r: ForkchoiceAnswer)
      requires Valid() && h in tree.nodes && (attrs.Some? ==> tree.Number(h) + 1 < TWO_64)
      modifies this`head, this`machines, this`pending, this`storedTip, store
      ensures Valid() && head == h && (store != null ==> storedTip == h) && HeadsStored()
      ensures h in states && Followed(h, attrs, pool, da, h in old(machines), r)
    {
      Settle(h);
      r := MaybeBuild(h, attrs, pool, da);
    }

    /**
      Reorganises to a head, records the safe and finalized pointers and may start a
      build.  The canonical mapping leads to the given head whenever that block is
      known, even when the call then fails on its other arguments; it fails there
      exactly when a pointer is off the head's chain, and otherwise head and store
      follow.
     */
    method ForkchoiceUpdated(h: Hash, s: Hash, f: Hash, attrs: Option<Attributes>, pool: seq<RawTx>, da: nat -> DaLimits)
      returns (r: ForkchoiceAnswer)
      requires Valid()
      requires h in tree.nodes && attrs.Some? ==> tree.Number(h) + 1 < TWO_64
      modifies this`canonical, this`tip, this`head, this`safe, this`finalized, this`machines, this`pending, this`storedTip, store
      ensures Valid()
      ensures h !in tree.nodes ==> r == Answered(SYNCING, None) && canonical == old(canonical) && head == old(head)
      ensures h in tree.nodes ==> tip == h
      ensures h in tree.nodes ==> (r == InvalidForkchoiceState <==> !(old(Points(h, s)) && old(Points(h, f))))
      ensures r == InvalidForkchoiceState ==> head == old(head)
      ensures h in tree.nodes && r != InvalidForkchoiceState ==>
        && head == h && (s != zeroHash ==> safe == s) && (f != zeroHash ==> finalized == f)
        && (store != null ==> storedTip == h) && HeadsStored()
        && h in states && Followed(h, attrs, pool, da, h in old(machines), r)
    {
      if h !in tree.nodes {
        return Answered(SYNCING, None);
      }
      var ok := Redirect(h, s, f);
      if !ok {
        return InvalidForkchoiceState;
      }
      r := Follow(h, attrs, pool, da);
    }
  }
}
