/**
  Headers and payloads, the withdrawal commitment, and the two ways a block comes
  to be accepted: assembled locally from payload attributes, or judged by replaying
  a payload against the parent's records.
 */
module Blocks {
  import opened Options
  import opened Hashing
  import opened MachineWords
  import opened Execution
  import opened OutputTree
  import opened ExtraData
  import ByteCodec

  type Bloom(==, 0, !new)

  const emptyUncleHash: Hash
  const emptyReceiptsHash: Hash
  const emptyRequestsHash: Hash
  const emptyBloom: Bloom
  const txsRoot: seq<RawTx> -> Hash
  const headerHash: Header -> Hash

  type Extra = seq<ByteCodec.Byte>

  datatype Config = Config(
    chainId: nat, appContract: Address, baseFee: nat, maxCycles: nat, denominator: NonZero, elasticity: NonZero)

  datatype Header = Header(
    parentHash: Hash, uncleHash: Hash, coinbase: Address, root: Hash, txHash: Hash, receiptHash: Hash,
    bloom: Bloom, difficulty: nat, number: nat, gasLimit: nat, gasUsed: nat, time: nat, extra: Extra,
    mixDigest: Hash, nonce: nat, baseFee: nat, withdrawalsHash: Hash, blobGasUsed: Option<nat>,
    excessBlobGas: Option<nat>, parentBeaconRoot: Hash, requestsHash: Hash)

  datatype Attributes = Attributes(
    timestamp: nat, random: Hash, feeRecipient: Address, beaconRoot: Option<Hash>, transactions: seq<RawTx>,
    noTxPool: bool, gasLimit: Option<nat>, eip1559: Extra)

  /** An execution payload; an absent field, or a bloom of the wrong length, is None. */
  datatype Payload = Payload(
    parentHash: Hash, feeRecipient: Address, stateRoot: Hash, receiptsRoot: Hash, logsBloom: Option<Bloom>,
    random: Hash, number: nat, gasLimit: nat, gasUsed: nat, timestamp: nat, extraData: Extra,
    baseFee: Option<nat>, blockHash: Hash, transactions: seq<RawTx>, withdrawals: Option<nat>,
    blobGasUsed: Option<nat>, excessBlobGas: Option<nat>, withdrawalsRoot: Option<Hash>)

  datatype Block = Block(header: Header, txs: seq<RawTx>)

  // ------------------------------------------------------ headers and payloads

  function Or0(h: Option<Hash>): (r: Hash) {
    if h.Some? then h.value else zeroHash
  }

  function BuildHeader(parent: Header, attrs: Attributes, stateRoot: Hash, txs: seq<RawTx>, gasUsed: nat,
                       gasLimit: nat, baseFee: nat, extra: Extra, withdrawals: Hash): (h: Header)
  {
    Header(headerHash(parent), emptyUncleHash, attrs.feeRecipient, stateRoot, txsRoot(txs), emptyReceiptsHash,
           emptyBloom, 0, parent.number + 1, gasLimit, gasUsed, attrs.timestamp, extra, attrs.random, 0, baseFee,
           withdrawals, Some(0), Some(0), Or0(attrs.beaconRoot), emptyRequestsHash)
  }

  function ExecutableData(h: Header, txs: seq<RawTx>): (p: Payload) {
    Payload(h.parentHash, h.coinbase, h.root, h.receiptHash, Some(h.bloom), h.mixDigest, Low64(h.number),
            h.gasLimit, h.gasUsed, h.time, h.extra, Some(h.baseFee), headerHash(h), txs, Some(0),
            h.blobGasUsed, h.excessBlobGas, Some(h.withdrawalsHash))
  }

  function HeaderFromPayload(data: Payload, beaconRoot: Option<Hash>): (r: Option<Header>) {
    if data.logsBloom.None? || data.withdrawals != Some(0) || data.baseFee.None? then None
    else if !ValidExtra(data.extraData) || data.withdrawalsRoot.None? then None
    else Some(
      Header(data.parentHash, emptyUncleHash, data.feeRecipient, data.stateRoot, txsRoot(data.transactions),
             data.receiptsRoot, data.logsBloom.value, 0, data.number, data.gasLimit, data.gasUsed, data.timestamp,
             data.extraData, data.random, 0, data.baseFee.value, data.withdrawalsRoot.value, data.blobGasUsed,
             data.excessBlobGas, Or0(beaconRoot), emptyRequestsHash))
  }

  /** A built header survives the payload exactly when its number fits a word and its extra data validates. */
  lemma {:induction false} HeaderRoundTrip(parent: Header, attrs: Attributes, stateRoot: Hash, txs: seq<RawTx>, gasUsed: nat,
                        gasLimit: nat, baseFee: nat, extra: Extra, withdrawals: Hash)
    ensures var h := BuildHeader(parent, attrs, stateRoot, txs, gasUsed, gasLimit, baseFee, extra, withdrawals);
      HeaderFromPayload(ExecutableData(h, txs), Some(h.parentBeaconRoot)) == Some(h) <==>
        ValidExtra(h.extra) && h.number < TWO_64
  {
    var n := parent.number + 1;
    assert Low64(n) == n <==> n < TWO_64;
  }

  function ContextFor(cfg: Config, parent: Header, timestamp: nat, random: Hash, firstIndex: nat): (ic: InputContext) {
    InputContext(cfg.chainId, cfg.appContract, Add64(Low64(parent.number), 1), timestamp, random, firstIndex)
  }

  function ContextOf(cfg: Config, h: Header, firstIndex: nat): (ic: InputContext) {
    InputContext(cfg.chainId, cfg.appContract, Low64(h.number), h.time, h.mixDigest, firstIndex)
  }

  // ---------------------------------------------------- the withdrawal commitment

  /** The message passer's storage: sent messages, and the outputs root in its reserved slot. */
  datatype SlotValue = Sent | OutputsRoot(root: Hash)
  type Passer = map<Hash, SlotValue>

  const withdrawalSlot: Hash -> Hash
  const outputsRootSlot: Hash
  const passerRoot: Passer -> Hash

  /** The withdrawal hash an output carries, when it is a withdrawal message. */
  const withdrawalIn: Bytes -> Option<Hash>
  const leafOf: Bytes -> Hash

  function AllOutputs(txs: seq<TxOutputs>): (r: seq<Bytes>) {
    if txs == [] then [] else AllOutputs(txs[..|txs| - 1]) + txs[|txs| - 1].outputs
  }

  function Leaves(outs: seq<Bytes>): (r: seq<Hash>)
    ensures |r| == |outs|
  {
    seq(|outs|, i requires 0 <= i < |outs| => leafOf(outs[i]))
  }

  function Withdrawals(outs: seq<Bytes>): (r: seq<Hash>) {
    if outs == [] then []
    else
      var init, w := Withdrawals(outs[..|outs| - 1]), withdrawalIn(outs[|outs| - 1]);
      if w.Some? then init + [w.value] else init
  }

  function InsertAll(p: Passer, hashes: seq<Hash>): (r: Passer) {
    if hashes == [] then p
    else InsertAll(p, hashes[..|hashes| - 1])[withdrawalSlot(hashes[|hashes| - 1]) := Sent]
  }

  /** The parent's commitment with a block's withdrawals inserted and the outputs root moved. */
  function ExtendPasser(base: Passer, outputs: seq<TxOutputs>, root: Hash): (r: Passer) {
    InsertAll(base, Withdrawals(AllOutputs(outputs)))[outputsRootSlot := OutputsRoot(root)]
  }

  method OutputLeaves(txs: seq<TxOutputs>) returns (leaves: seq<Hash>)
    ensures leaves == Leaves(AllOutputs(txs))
  {
    leaves := [];
    for i := 0 to |txs|
      invariant leaves == Leaves(AllOutputs(txs[..i]))
    {
      assert txs[..i + 1][..i] == txs[..i];
      ghost var before := AllOutputs(txs[..i]);
      for j := 0 to |txs[i].outputs|
        invariant leaves == Leaves(before + txs[i].outputs[..j])
      {
        assert before + txs[i].outputs[..j + 1] == before + txs[i].outputs[..j] + [txs[i].outputs[j]];
        leaves := leaves + [leafOf(txs[i].outputs[j])];
      }
      assert txs[i].outputs[..|txs[i].outputs|] == txs[i].outputs;
    }
    assert txs[..|txs|] == txs;
  }

  /** The withdrawal hashes among a block's outputs, in emission order. */
  method WithdrawalHashes(txs: seq<TxOutputs>) returns (hashes: seq<Hash>)
    ensures hashes == Withdrawals(AllOutputs(txs))
  {
    hashes := [];
    for i := 0 to |txs|
      invariant hashes == Withdrawals(AllOutputs(txs[..i]))
    {
      assert txs[..i + 1][..i] == txs[..i];
      ghost var before := AllOutputs(txs[..i]);
      var own := txs[i].outputs;
      assert before + own[..0] == before;
      for j := 0 to |own|
        invariant hashes == Withdrawals(before + own[..j])
      {
        ghost var upTo := before + own[..j + 1];
        assert upTo[..|upTo| - 1] == before + own[..j];
        var w := withdrawalIn(own[j]);
        if w.Some? { hashes := hashes + [w.value]; }
      }
      assert own[..|own|] == own;
    }
    assert txs[..|txs|] == txs;
  }

  /** A copy of the parent's trie with the withdrawals inserted, the outputs root slot written last. */
  method PasserAfter(base: Passer, outputs: seq<TxOutputs>, root: Hash) returns (p: Passer)
    ensures p == ExtendPasser(base, outputs, root)
  {
    p := base;
    var hashes := WithdrawalHashes(outputs);
    for i := 0 to |hashes|
      invariant p == InsertAll(base, hashes[..i])
    {
      assert hashes[..i + 1][..i] == hashes[..i];
      p := p[withdrawalSlot(hashes[i]) := Sent];
    }
    assert hashes[..|hashes|] == hashes;
    p := p[outputsRootSlot := OutputsRoot(root)];
  }

  // ----------------------------------------------------------- assembling a block

  /** What the chain keeps per block beside the block itself. */
  datatype Records = Records(machine: Machine, inputs: nat, tree: Frontier, passer: Passer)

  datatype Built = Built(
    header: Header, data: Payload, beaconRoot: Hash, exec: Exec, tree: Frontier, passer: Passer, firstInput: nat)

  function Min(a: nat, b: nat): (r: nat) {
    if a < b then a else b
  }

  function GasLimitOf(parent: Header, attrs: Attributes): (r: nat) {
    if attrs.gasLimit.Some? then attrs.gasLimit.value else parent.gasLimit
  }

  /** The pool a build draws on: none when the attributes forbid it. */
  function PoolOf(attrs: Attributes, pool: seq<RawTx>): (r: seq<RawTx>) {
    if attrs.noTxPool then [] else pool
  }

  /** The payload for attributes on a parent, or None where the build is refused. */
  function Assemble(cfg: Config, parent: Header, rec: Records, attrs: Attributes, pool: seq<RawTx>, da: nat -> DaLimits)
    : (r: Option<Built>)
  {
    var gasLimit := GasLimitOf(parent, attrs);
    var ic := ContextFor(cfg, parent, attrs.timestamp, attrs.random, rec.inputs);
    var b := Build(rec.machine, ic, cfg.maxCycles, gasLimit, da, attrs.transactions, PoolOf(attrs, pool));
    var extra := ExtraFor(cfg.denominator, cfg.elasticity, attrs.eip1559);
    if b.None? || extra.None? then None
    else
      var exec := b.value.exec;
      var tree := Append(rec.tree, Leaves(AllOutputs(exec.outputs)));
      if tree.None? then None
      else
        var passer := ExtendPasser(rec.passer, exec.outputs, Root(tree.value));
        var h := BuildHeader(parent, attrs, rootHash(exec.machine), b.value.included, Min(exec.gas, gasLimit),
                             gasLimit, cfg.baseFee, extra.value, passerRoot(passer));
        Some(Built(h, ExecutableData(h, b.value.included), h.parentBeaconRoot, exec, tree.value, passer, rec.inputs))
  }

  // -------------------------------------------------------------- judging a block

  datatype Verdict = Invalid | Full | Valid(block: Block, exec: Exec, tree: Frontier, passer: Passer)

  /** The claims of a payload against what replaying it found. */
  function JudgeExec(rec: Records, header: Header, data: Payload, exec: Exec): (v: Verdict)
  {
    if rootHash(exec.machine) != data.stateRoot then Invalid
    else if Min(exec.gas, data.gasLimit) != data.gasUsed then Invalid
    else
      var tree := Append(rec.tree, Leaves(AllOutputs(exec.outputs)));
      if tree.None? then Full
      else
        var passer := ExtendPasser(rec.passer, exec.outputs, Root(tree.value));
        if Some(passerRoot(passer)) != data.withdrawalsRoot then Invalid
        else Valid(Block(header, data.transactions), exec, tree.value, passer)
  }

  /** The header a payload commits to, when its hash, number and time stand. */
  function JudgeHeader(parent: Header, data: Payload, beaconRoot: Option<Hash>): (r: Option<Header>) {
    var header := HeaderFromPayload(data, beaconRoot);
    if header.None? || headerHash(header.value) != data.blockHash then None
    else if data.number != Add64(Low64(parent.number), 1) || data.timestamp <= parent.time then None
    else header
  }

  /** The verifier's answer for a payload on a parent whose records it holds. */
  function Judge(cfg: Config, parent: Header, rec: Records, data: Payload, beaconRoot: Option<Hash>): (v: Verdict)
  {
    var header := JudgeHeader(parent, data, beaconRoot);
    if header.None? then Invalid
    else
      var ic := ContextOf(cfg, header.value, rec.inputs);
      JudgeExec(rec, header.value, data, Replay(rec.machine, ic, cfg.maxCycles, data.transactions))
  }

  lemma {:induction false} NextNumber(n: nat)
    requires n + 1 < TWO_64
    ensures Low64(n + 1) == n + 1 && Add64(Low64(n), 1) == n + 1
  {
  }

  lemma {:induction false} AcceptsHeader(parent: Header, h: Header, txs: seq<RawTx>)
    requires h.number == parent.number + 1 < TWO_64 && h.time > parent.time
    requires HeaderFromPayload(ExecutableData(h, txs), Some(h.parentBeaconRoot)) == Some(h)
    ensures JudgeHeader(parent, ExecutableData(h, txs), Some(h.parentBeaconRoot)) == Some(h)
  {
    NextNumber(parent.number);
  }

  lemma {:induction false} AcceptsExec(rec: Records, h: Header, txs: seq<RawTx>, exec: Exec, tree: Frontier, passer: Passer)
    requires rootHash(exec.machine) == h.root && Min(exec.gas, h.gasLimit) == h.gasUsed
    requires Append(rec.tree, Leaves(AllOutputs(exec.outputs))) == Some(tree)
    requires passer == ExtendPasser(rec.passer, exec.outputs, Root(tree))
    requires passerRoot(passer) == h.withdrawalsHash
    ensures JudgeExec(rec, h, ExecutableData(h, txs), exec) == Valid(Block(h, txs), exec, tree, passer)
  {
    var data := ExecutableData(h, txs);
    assert data.stateRoot == h.root && data.withdrawalsRoot == Some(h.withdrawalsHash);
  }

  lemma {:induction false} ContextsAgree(cfg: Config, parent: Header, h: Header, firstIndex: nat)
    requires h.number == parent.number + 1 < TWO_64
    ensures ContextFor(cfg, parent, h.time, h.mixDigest, firstIndex) == ContextOf(cfg, h, firstIndex)
  {
    NextNumber(parent.number);
  }

  /** The header of an assembled payload. */
  function AssembledHeader(cfg: Config, parent: Header, rec: Records, attrs: Attributes, b: Building, passer: Passer,
                           extra: Extra)
    : (h: Header)
  {
    BuildHeader(parent, attrs, rootHash(b.exec.machine), b.included, Min(b.exec.gas, GasLimitOf(parent, attrs)),
                GasLimitOf(parent, attrs), cfg.baseFee, extra, passerRoot(passer))
  }

  /**
    Any payload the sequencer assembles is judged valid by every node holding the
    same parent records, with the builder's header, execution, tree and commitment.
   */
  lemma {:induction false} AssembledIsValid(cfg: Config, parent: Header, rec: Records, attrs: Attributes,
                                            pool: seq<RawTx>, da: nat -> DaLimits)
    requires attrs.timestamp > parent.time && parent.number + 1 < TWO_64
    requires Assemble(cfg, parent, rec, attrs, pool, da).Some?
    ensures var b := Assemble(cfg, parent, rec, attrs, pool, da).value;
      && b.data == ExecutableData(b.header, b.data.transactions) && b.header.txHash == txsRoot(b.data.transactions)
      && Judge(cfg, parent, rec, b.data, Some(b.beaconRoot)) ==
           Valid(Block(b.header, b.data.transactions), b.exec, b.tree, b.passer)
  {
    var built := Assemble(cfg, parent, rec, attrs, pool, da).value;
    var ic := ContextFor(cfg, parent, attrs.timestamp, attrs.random, rec.inputs);
    var gasLimit := GasLimitOf(parent, attrs);
    var b := Build(rec.machine, ic, cfg.maxCycles, gasLimit, da, attrs.transactions, PoolOf(attrs, pool)).value;
    var extra := ExtraFor(cfg.denominator, cfg.elasticity, attrs.eip1559).value;
    var h := AssembledHeader(cfg, parent, rec, attrs, b, built.passer, extra);
    assert built.data == ExecutableData(h, b.included) && built.exec == b.exec;
    WrittenIsValid(cfg.denominator, cfg.elasticity, attrs.eip1559);
    BuilderAgreesWithVerifier(rec.machine, ic, cfg.maxCycles, gasLimit, da, attrs.transactions, PoolOf(attrs, pool));
    ContextsAgree(cfg, parent, h, rec.inputs);
    HeaderRoundTrip(parent, attrs, rootHash(b.exec.machine), b.included, h.gasUsed, h.gasLimit, cfg.baseFee,
                    h.extra, h.withdrawalsHash);
    AcceptsHeader(parent, h, b.included);
    AcceptsExec(rec, h, b.included, b.exec, built.tree, built.passer);
  }
}
