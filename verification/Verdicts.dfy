/**
  What makes a payload acceptable on a parent, condition by condition: its hash, number
  and time, and what it claims of state, gas and withdrawals against what the machine does.
 */
module Verdicts {
  import opened Options
  import opened Hashing
  import opened MachineWords
  import opened Execution
  import opened OutputTree
  import opened Blocks

  /** The payload hashes to what it says, is numbered next and is later than its parent. */
  ghost predicate HeaderStands(parent: Header, data: Payload, beaconRoot: Option<Hash>) {
    var hd := HeaderFromPayload(data, beaconRoot);
    hd.Some? && headerHash(hd.value) == data.blockHash && data.number == parent.number + 1 && data.timestamp > parent.time
  }

  /** What the machine makes of the payload's transactions, entered under the payload's own number, time and randomness. */
  function ExecOf(cfg: Config, rec: Records, data: Payload): (x: Exec) {
    Replay(rec.machine, InputContext(cfg.chainId, cfg.appContract, data.number, data.timestamp, data.random, rec.inputs),
           cfg.maxCycles, data.transactions)
  }

  /** The state it ends in and the gas it used, which no more than fills the block. */
  ghost predicate ExecStands(cfg: Config, rec: Records, data: Payload) {
    var x := ExecOf(cfg, rec, data);
    data.stateRoot == rootHash(x.machine) && data.gasUsed <= data.gasLimit &&
    if x.gas <= data.gasLimit then data.gasUsed == x.gas else data.gasUsed == data.gasLimit
  }

  /** The outputs tree after the payload; none where it would overflow. */
  function TreeAfter(cfg: Config, rec: Records, data: Payload): (t: Option<Frontier>) {
    Append(rec.tree, Leaves(AllOutputs(ExecOf(cfg, rec, data).outputs)))
  }

  ghost predicate WithdrawalsStand(cfg: Config, rec: Records, data: Payload) {
    var t := TreeAfter(cfg, rec, data);
    t.Some? &&
    data.withdrawalsRoot == Some(passerRoot(ExtendPasser(rec.passer, ExecOf(cfg, rec, data).outputs, Root(t.value))))
  }

  ghost predicate Stands(cfg: Config, parent: Header, rec: Records, data: Payload, beaconRoot: Option<Hash>) {
    HeaderStands(parent, data, beaconRoot) && ExecStands(cfg, rec, data) && WithdrawalsStand(cfg, rec, data)
  }

  /** Some condition fails; an overflowing outputs tree is found out before the withdrawals root is looked at. */
  ghost predicate Fails(cfg: Config, parent: Header, rec: Records, data: Payload, beaconRoot: Option<Hash>) {
    || !HeaderStands(parent, data, beaconRoot) || !ExecStands(cfg, rec, data)
    || (TreeAfter(cfg, rec, data).Some? && !WithdrawalsStand(cfg, rec, data))
  }

  lemma {:induction false} SameExec(cfg: Config, rec: Records, data: Payload, hd: Header)
    requires hd.number == data.number < TWO_64 && hd.time == data.timestamp && hd.mixDigest == data.random
    ensures Replay(rec.machine, ContextOf(cfg, hd, rec.inputs), cfg.maxCycles, data.transactions) == ExecOf(cfg, rec, data)
  {
  }

  lemma {:induction false} HeaderJudged(parent: Header, data: Payload, beaconRoot: Option<Hash>)
    requires parent.number + 1 < TWO_64
    ensures JudgeHeader(parent, data, beaconRoot) ==
      if HeaderStands(parent, data, beaconRoot) then HeaderFromPayload(data, beaconRoot) else None
  {
    NextNumber(parent.number);
  }

  /** The verdict is valid exactly when every condition stands, and invalid exactly when one fails. */
  lemma {:induction false} VerdictExactly(cfg: Config, parent: Header, rec: Records, data: Payload, beaconRoot: Option<Hash>)
    requires parent.number + 1 < TWO_64
    ensures var v := Judge(cfg, parent, rec, data, beaconRoot);
      && (v.Valid? <==> Stands(cfg, parent, rec, data, beaconRoot))
      && (v.Invalid? <==> Fails(cfg, parent, rec, data, beaconRoot))
      && (v.Valid? ==>
            && HeaderFromPayload(data, beaconRoot) == Some(v.block.header) && v.block.txs == data.transactions
            && v.exec == ExecOf(cfg, rec, data) && TreeAfter(cfg, rec, data) == Some(v.tree)
            && v.passer == ExtendPasser(rec.passer, v.exec.outputs, Root(v.tree)))
  {
    HeaderJudged(parent, data, beaconRoot);
    if HeaderStands(parent, data, beaconRoot) {
      SameExec(cfg, rec, data, HeaderFromPayload(data, beaconRoot).value);
      var x := ExecOf(cfg, rec, data);
      assert Min(x.gas, data.gasLimit) == data.gasUsed <==>
        data.gasUsed <= data.gasLimit && if x.gas <= data.gasLimit then data.gasUsed == x.gas else data.gasUsed == data.gasLimit;
    }
  }

  /** A payload's hash speaks for all of it: payloads with one header and one list of transactions are one payload. */
  lemma {:induction false} HeaderTellsAll(data: Payload, b: Option<Hash>, data': Payload, b': Option<Hash>)
    requires HeaderFromPayload(data, b).Some? && HeaderFromPayload(data, b) == HeaderFromPayload(data', b')
    requires data.transactions == data'.transactions && data.blockHash == data'.blockHash
    ensures data == data' && Or0(b) == Or0(b')
  {
    var h, h' := HeaderFromPayload(data, b).value, HeaderFromPayload(data', b').value;
    assert data.parentHash == h.parentHash == h'.parentHash && data.feeRecipient == h.coinbase && data.random == h.mixDigest;
    assert data.gasLimit == h.gasLimit && data.gasUsed == h.gasUsed && data.number == h.number && data.timestamp == h.time;
  }

  /**
    An assembled payload does as its attributes say: it stands on the parent, next in
    number, at the time, randomness, recipient and beacon root asked for, begins with the
    transactions given, and takes nothing from the pool where that is forbidden.
   */
  lemma {:induction false} AssembledFollows(cfg: Config, parent: Header, rec: Records, attrs: Attributes,
                                            pool: seq<RawTx>, da: nat -> DaLimits)
    requires Assemble(cfg, parent, rec, attrs, pool, da).Some? && parent.number + 1 < TWO_64
    ensures var b := Assemble(cfg, parent, rec, attrs, pool, da).value;
      && b.data.parentHash == headerHash(parent) && b.data.number == parent.number + 1
      && b.data.timestamp == attrs.timestamp && b.data.random == attrs.random && b.data.feeRecipient == attrs.feeRecipient
      && b.beaconRoot == (if attrs.beaconRoot.Some? then attrs.beaconRoot.value else zeroHash)
      && b.data.gasLimit == (if attrs.gasLimit.Some? then attrs.gasLimit.value else parent.gasLimit)
      && b.data.baseFee == Some(cfg.baseFee) && b.data.blockHash == headerHash(b.header)
      && attrs.transactions <= b.data.transactions
      && (attrs.noTxPool ==> b.data.transactions == attrs.transactions)
      && b.firstInput == rec.inputs && b.exec == ExecOf(cfg, rec, b.data)
  {
    var ic := ContextFor(cfg, parent, attrs.timestamp, attrs.random, rec.inputs);
    var b := Build(rec.machine, ic, cfg.maxCycles, GasLimitOf(parent, attrs), da, attrs.transactions, PoolOf(attrs, pool));
    var built := Assemble(cfg, parent, rec, attrs, pool, da).value;
    NextNumber(parent.number);
    BuildHolds(rec.machine, ic, cfg.maxCycles, GasLimitOf(parent, attrs), da, attrs.transactions, PoolOf(attrs, pool));
    assert built.data == ExecutableData(built.header, b.value.included) && built.exec == b.value.exec;
    SameContext(cfg, parent, attrs, rec, built.data);
  }

  /** The context a payload was built under is the one it names. */
  lemma {:induction false} SameContext(cfg: Config, parent: Header, attrs: Attributes, rec: Records, data: Payload)
    requires parent.number + 1 < TWO_64 && data.number == parent.number + 1
    requires data.timestamp == attrs.timestamp && data.random == attrs.random
    ensures Replay(rec.machine, ContextFor(cfg, parent, attrs.timestamp, attrs.random, rec.inputs), cfg.maxCycles,
                   data.transactions) == ExecOf(cfg, rec, data)
  {
    NextNumber(parent.number);
  }

  /** A build begins with the forced transactions, holds nothing else without a pool, and is the replay of what it holds. */
  lemma {:induction false} BuildHolds(work: Machine, ic: InputContext, budget: nat, gasLimit: nat, da: nat -> DaLimits,
                                      deposits: seq<RawTx>, pool: seq<RawTx>)
    requires Build(work, ic, budget, gasLimit, da, deposits, pool).Some?
    ensures var r := Build(work, ic, budget, gasLimit, da, deposits, pool).value;
      && deposits <= r.included && (pool == [] ==> r.included == deposits)
      && r.exec == Replay(work, ic, budget, r.included)
  {
    BuilderAgreesWithVerifier(work, ic, budget, gasLimit, da, deposits, pool);
    DepositsReplay(Building(Exec(work, 0, []), [], 0, []), work, ic, budget, deposits);
    assert [] + deposits == deposits;
  }
}
