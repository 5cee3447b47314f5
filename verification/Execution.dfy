/**
  Executing a block: the sequencer's loop, which chooses what goes in, and the
  verifier's loop, which replays what it is given.  They are different code and must
  agree on machine state, gas and outputs.
 */
module Execution {
  import opened Options
  import opened Hashing
  import opened MachineWords

  type Bytes(==, 0, !new)
  type RawTx(==, 0, !new)
  type Address(==, 0, !new)
  type Machine(==, 0, !new)

  const CYCLES_PER_GAS := 1000

  // ------------------------------------------------------------ the environment

  const txSize: RawTx -> nat
  /** The transaction's hash, when it decodes. */
  const txHash: RawTx -> Option<Hash>
  /** The sender recovered under a chain id, or the system sender. */
  const msgSender: (nat, RawTx) -> Address

  const REASON_OUTPUT: nat := 2
  const REASON_REPORT: nat := 4

  datatype Emission = Emission(reason: nat, data: Bytes)
  datatype AdvanceResult = AdvanceResult(accepted: bool, cycles: nat, emissions: seq<Emission>)

  /** An advance either fails hard (cycle limit, halt) or ends with a verdict and a new state. */
  datatype Advanced = HardFailure | Done(next: Machine, res: AdvanceResult)

  /** The deterministic machine: state, input and cycle budget decide everything. */
  const advance: (Machine, Envelope, nat) -> Advanced
  const rootHash: Machine -> Hash

  /** The input as the guest sees it; ABI packing is taken to lose nothing. */
  datatype Envelope = Envelope(
    chainId: nat, appContract: Address, sender: Address,
    blockNumber: nat, timestamp: nat, prevRandao: Hash, index: nat, payload: RawTx)

  datatype InputContext = InputContext(
    chainId: nat, appContract: Address, blockNumber: nat, timestamp: nat, prevRandao: Hash, firstIndex: nat)

  function EncodeInput(ic: InputContext, offset: nat, tx: RawTx): (e: Envelope) {
    Envelope(ic.chainId, ic.appContract, msgSender(ic.chainId, tx), ic.blockNumber, ic.timestamp,
             ic.prevRandao, Add64(ic.firstIndex, offset), tx)
  }

  // ------------------------------------------------------------ recorded outputs

  datatype TxOutputs = TxOutputs(
    txIndex: nat, txHash: Option<Hash>, accepted: bool, cycles: nat, outputs: seq<Bytes>, reports: seq<Bytes>)

  /** The data of the emissions of one kind, in order. */
  function OfReason(es: seq<Emission>, reason: nat): (r: seq<Bytes>) {
    if es == [] then []
    else
      var init := OfReason(es[..|es| - 1], reason);
      if es[|es| - 1].reason == reason then init + [es[|es| - 1].data] else init
  }

  /** Provable outputs survive only acceptance; reports always survive. */
  function Collected(index: nat, tx: RawTx, res: AdvanceResult): (r: TxOutputs) {
    TxOutputs(index, txHash(tx), res.accepted, res.cycles,
              if res.accepted then OfReason(res.emissions, REASON_OUTPUT) else [],
              OfReason(res.emissions, REASON_REPORT))
  }

  method CollectOutputs(index: nat, tx: RawTx, res: AdvanceResult) returns (out: TxOutputs)
    ensures out == Collected(index, tx, res)
  {
    var outputs, reports := [], [];
    for i := 0 to |res.emissions|
      invariant outputs == if res.accepted then OfReason(res.emissions[..i], REASON_OUTPUT) else []
      invariant reports == OfReason(res.emissions[..i], REASON_REPORT)
    {
      var e := res.emissions[i];
      assert res.emissions[..i + 1][..i] == res.emissions[..i];
      if e.reason == REASON_OUTPUT {
        if res.accepted { outputs := outputs + [e.data]; }
      } else if e.reason == REASON_REPORT {
        reports := reports + [e.data];
      }
    }
    assert res.emissions[..|res.emissions|] == res.emissions;
    out := TxOutputs(index, txHash(tx), res.accepted, res.cycles, outputs, reports);
  }

  // ------------------------------------------------------------------ the replay

  /** The outcome of running inputs through the machine. */
  datatype Exec = Exec(machine: Machine, gas: nat, outputs: seq<TxOutputs>)

  /** One input on a fork: it moves the state only when accepted, and on hard failure leaves nothing. */
  function Step(x: Exec, ic: InputContext, budget: nat, index: nat, tx: RawTx): (y: Exec) {
    match advance(x.machine, EncodeInput(ic, index, tx), budget)
    case HardFailure => x
    case Done(next, res) =>
      Exec(if res.accepted then next else x.machine,
           Add64(x.gas, res.cycles / CYCLES_PER_GAS),
           x.outputs + [Collected(index, tx, res)])
  }

  /** Every transaction in order, each at its own chain-wide index. */
  function Replay(work: Machine, ic: InputContext, budget: nat, txs: seq<RawTx>): (x: Exec) {
    if txs == [] then Exec(work, 0, [])
    else Step(Replay(work, ic, budget, txs[..|txs| - 1]), ic, budget, |txs| - 1, txs[|txs| - 1])
  }

  /** The verifier's loop. */
  method ReplayImport(work: Machine, ic: InputContext, budget: nat, txs: seq<RawTx>) returns (x: Exec)
    ensures x == Replay(work, ic, budget, txs)
  {
    var cur, gas, outputs := work, 0, [];
    for i := 0 to |txs|
      invariant Exec(cur, gas, outputs) == Replay(work, ic, budget, txs[..i])
    {
      var tx := txs[i];
      assert txs[..i + 1][..i] == txs[..i];
      match advance(cur, EncodeInput(ic, i, tx), budget)
      case HardFailure =>
      case Done(cand, res) =>
        var collected := CollectOutputs(i, tx, res);
        outputs := outputs + [collected];
        gas := Add64(gas, res.cycles / CYCLES_PER_GAS);
        if res.accepted { cur := cand; }
    }
    assert txs[..|txs|] == txs;
    return Exec(cur, gas, outputs);
  }

  // ------------------------------------------------------------------- the build

  /** The batcher's data-availability limits; zero means unlimited. */
  datatype DaLimits = DaLimits(maxTx: nat, maxBlock: nat)

  function Admits(da: DaLimits, used: nat, size: nat): (r: bool) {
    && (da.maxTx != 0 ==> size <= da.maxTx)
    && (da.maxBlock != 0 ==> Add64(used, size) <= da.maxBlock)
  }

  datatype Building = Building(exec: Exec, included: seq<RawTx>, daUsed: nat, dropped: seq<Hash>)

  /** A forced transaction is always recorded; only a hard failure aborts the build. */
  function Deposits(b: Building, ic: InputContext, budget: nat, txs: seq<RawTx>): (r: Option<Building>) {
    if txs == [] then Some(b)
    else
      var before := Deposits(b, ic, budget, txs[..|txs| - 1]);
      if before.None? then None
      else
        var b, tx := before.value, txs[|txs| - 1];
        if advance(b.exec.machine, EncodeInput(ic, |b.included|, tx), budget).HardFailure? then None
        else Some(b.(exec := Step(b.exec, ic, budget, |b.included|, tx), included := b.included + [tx],
                     daUsed := Add64(b.daUsed, txSize(tx))))
  }

  /**
    One pool transaction: skipped when the data budget refuses it, dropped when the
    machine does not accept it, otherwise executed and included.
   */
  function Offer(b: Building, ic: InputContext, budget: nat, da: DaLimits, tx: RawTx): (r: Building) {
    if !Admits(da, b.daUsed, txSize(tx)) then b
    else
      match advance(b.exec.machine, EncodeInput(ic, |b.included|, tx), budget)
      case Done(_, res) =>
        if res.accepted then
          b.(exec := Step(b.exec, ic, budget, |b.included|, tx), included := b.included + [tx],
             daUsed := Add64(b.daUsed, txSize(tx)))
        else Drop(b, tx)
      case HardFailure => Drop(b, tx)
  }

  function Drop(b: Building, tx: RawTx): (r: Building) {
    if txHash(tx).Some? then b.(dropped := b.dropped + [txHash(tx).value]) else b
  }

  /** The pool in order, until the gas limit is reached.  The limits may move under the builder's feet. */
  function Select(b: Building, ic: InputContext, budget: nat, gasLimit: nat, da: nat -> DaLimits, pool: seq<RawTx>)
    : (r: Building)
  {
    if pool == [] then b
    else
      var b := Select(b, ic, budget, gasLimit, da, pool[..|pool| - 1]);
      if b.exec.gas >= gasLimit then b
      else Offer(b, ic, budget, da(|pool| - 1), pool[|pool| - 1])
  }

  function Build(work: Machine, ic: InputContext, budget: nat, gasLimit: nat, da: nat -> DaLimits,
                 deposits: seq<RawTx>, pool: seq<RawTx>): (r: Option<Building>)
  {
    var forced := Deposits(Building(Exec(work, 0, []), [], 0, []), ic, budget, deposits);
    if forced.None? then None else Some(Select(forced.value, ic, budget, gasLimit, da, pool))
  }

  /** The total size of the included transactions, as the builder adds it up. */
  function SizeOf(txs: seq<RawTx>): (r: nat) {
    if txs == [] then 0 else Add64(SizeOf(txs[..|txs| - 1]), txSize(txs[|txs| - 1]))
  }

  /** The forced half of the sequencer's loop; None where a deposit's hard failure aborts the build. */
  method ApplyDeposits(work: Machine, ic: InputContext, budget: nat, deposits: seq<RawTx>)
    returns (ok: bool, exec: Exec, included: seq<RawTx>)
    ensures var r := Deposits(Building(Exec(work, 0, []), [], 0, []), ic, budget, deposits);
      if ok then r == Some(Building(exec, included, SizeOf(included), [])) else r.None?
  {
    var cur, outputs := work, [];
    var gas: nat := 0;
    included := [];
    ghost var start := Building(Exec(work, 0, []), [], 0, []);
    for i := 0 to |deposits|
      invariant Deposits(start, ic, budget, deposits[..i]) ==
        Some(Building(Exec(cur, gas, outputs), included, SizeOf(included), []))
    {
      var tx := deposits[i];
      assert deposits[..i + 1][..i] == deposits[..i];
      match advance(cur, EncodeInput(ic, |included|, tx), budget)
      case HardFailure =>
        DepositsFail(start, ic, budget, deposits, i + 1);
        return false, Exec(cur, gas, outputs), included;
      case Done(cand, res) =>
        var collected := CollectOutputs(|included|, tx, res);
        outputs := outputs + [collected];
        assert (included + [tx])[..|included|] == included;
        included := included + [tx];
        gas := Add64(gas, res.cycles / CYCLES_PER_GAS);
        if res.accepted { cur := cand; }
    }
    assert deposits[..|deposits|] == deposits;
    return true, Exec(cur, gas, outputs), included;
  }

  /** One pool transaction on a fork of the current state. */
  method OfferTx(b: Building, ic: InputContext, budget: nat, da: DaLimits, tx: RawTx) returns (r: Building)
    ensures r == Offer(b, ic, budget, da, tx)
  {
    r := b;
    if !Admits(da, b.daUsed, txSize(tx)) {
      return;
    }
    match advance(b.exec.machine, EncodeInput(ic, |b.included|, tx), budget)
    case HardFailure =>
      if txHash(tx).Some? { r := r.(dropped := b.dropped + [txHash(tx).value]); }
    case Done(cand, res) =>
      if !res.accepted {
        if txHash(tx).Some? { r := r.(dropped := b.dropped + [txHash(tx).value]); }
        return;
      }
      var collected := CollectOutputs(|b.included|, tx, res);
      var exec := Exec(cand, Add64(b.exec.gas, res.cycles / CYCLES_PER_GAS), b.exec.outputs + [collected]);
      r := Building(exec, b.included + [tx], Add64(b.daUsed, txSize(tx)), b.dropped);
  }

  /** The sequencer's loop. */
  method ApplyBuild(work: Machine, ic: InputContext, budget: nat, gasLimit: nat, da: nat -> DaLimits,
                    deposits: seq<RawTx>, pool: seq<RawTx>) returns (r: Option<Building>)
    ensures r == Build(work, ic, budget, gasLimit, da, deposits, pool)
  {
    var ok, exec, included := ApplyDeposits(work, ic, budget, deposits);
    if !ok {
      return None;
    }
    var daUsed := 0;
    for i := 0 to |included|
      invariant daUsed == SizeOf(included[..i])
    {
      assert included[..i + 1][..i] == included[..i];
      daUsed := Add64(daUsed, txSize(included[i]));
    }
    assert included[..|included|] == included;
    var b := Building(exec, included, daUsed, []);
    ghost var forced := b;
    for i := 0 to |pool|
      invariant Select(forced, ic, budget, gasLimit, da, pool[..i]) == b
    {
      assert pool[..i + 1][..i] == pool[..i];
      if b.exec.gas >= gasLimit {
        SelectStops(forced, ic, budget, gasLimit, da, pool, i);
        return Some(b);
      }
      b := OfferTx(b, ic, budget, da(i), pool[i]);
    }
    assert pool[..|pool|] == pool;
    return Some(b);
  }

  lemma {:induction false} DepositsFail(b: Building, ic: InputContext, budget: nat, txs: seq<RawTx>, i: nat)
    requires i <= |txs| && Deposits(b, ic, budget, txs[..i]).None?
    ensures Deposits(b, ic, budget, txs).None?
    decreases |txs| - i
  {
    if i == |txs| {
      assert txs[..i] == txs;
    } else {
      assert txs[..i + 1][..i] == txs[..i];
      DepositsFail(b, ic, budget, txs, i + 1);
    }
  }

  lemma {:induction false} SelectStops(b: Building, ic: InputContext, budget: nat, gasLimit: nat, da: nat -> DaLimits,
                                       pool: seq<RawTx>, i: nat)
    requires i <= |pool|
    requires Select(b, ic, budget, gasLimit, da, pool[..i]).exec.gas >= gasLimit
    ensures Select(b, ic, budget, gasLimit, da, pool) == Select(b, ic, budget, gasLimit, da, pool[..i])
    decreases |pool| - i
  {
    if i == |pool| {
      assert pool[..i] == pool;
    } else {
      assert pool[..i + 1][..i] == pool[..i];
      SelectStops(b, ic, budget, gasLimit, da, pool, i + 1);
    }
  }

  // --------------------------------------------------- builder and verifier agree

  /** What the builder has so far is what a verifier gets from the transactions it has included. */
  ghost predicate Replays(b: Building, work: Machine, ic: InputContext, budget: nat) {
    b.exec == Replay(work, ic, budget, b.included)
  }

  lemma {:induction false} IncludeReplays(b: Building, work: Machine, ic: InputContext, budget: nat, tx: RawTx)
    requires Replays(b, work, ic, budget)
    ensures Step(b.exec, ic, budget, |b.included|, tx) == Replay(work, ic, budget, b.included + [tx])
  {
    assert (b.included + [tx])[..|b.included|] == b.included;
  }

  lemma {:induction false} DepositsReplay(b: Building, work: Machine, ic: InputContext, budget: nat, txs: seq<RawTx>)
    requires Replays(b, work, ic, budget)
    ensures var r := Deposits(b, ic, budget, txs);
      r.Some? ==> Replays(r.value, work, ic, budget) && r.value.included == b.included + txs
    decreases |txs|
  {
    if txs == [] {
      assert b.included + txs == b.included;
    } else {
      var init := txs[..|txs| - 1];
      DepositsReplay(b, work, ic, budget, init);
      var before := Deposits(b, ic, budget, init);
      if before.Some? {
        IncludeReplays(before.value, work, ic, budget, txs[|txs| - 1]);
        assert b.included + init + [txs[|txs| - 1]] == b.included + txs;
      }
    }
  }

  lemma {:induction false} SelectReplays(b: Building, work: Machine, ic: InputContext, budget: nat, gasLimit: nat,
                                         da: nat -> DaLimits, pool: seq<RawTx>)
    requires Replays(b, work, ic, budget)
    ensures var r := Select(b, ic, budget, gasLimit, da, pool);
      Replays(r, work, ic, budget) && b.included <= r.included
    decreases |pool|
  {
    if pool != [] {
      SelectReplays(b, work, ic, budget, gasLimit, da, pool[..|pool| - 1]);
      var r := Select(b, ic, budget, gasLimit, da, pool[..|pool| - 1]);
      IncludeReplays(r, work, ic, budget, pool[|pool| - 1]);
    }
  }

  /**
    For any deposits, pool, gas limit and data limits: replaying what the sequencer
    included gives the verifier the same machine state, gas and outputs, and every
    deposit is in, first and in order.
   */
  lemma {:induction false} BuilderAgreesWithVerifier(work: Machine, ic: InputContext, budget: nat, gasLimit: nat,
                                                     da: nat -> DaLimits,
                                  deposits: seq<RawTx>, pool: seq<RawTx>)
    ensures var r := Build(work, ic, budget, gasLimit, da, deposits, pool);
      r.Some? ==>
        && r.value.exec == Replay(work, ic, budget, r.value.included)
        && deposits <= r.value.included
  {
    var start := Building(Exec(work, 0, []), [], 0, []);
    DepositsReplay(start, work, ic, budget, deposits);
    var forced := Deposits(start, ic, budget, deposits);
    if forced.Some? {
      SelectReplays(forced.value, work, ic, budget, gasLimit, da, pool);
      assert forced.value.included == deposits;
    }
  }
}
