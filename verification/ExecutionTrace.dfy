/**
  What executing a block means, told from the machine alone: the states it passes
  through, the results it gives, what is recorded of them, and which transactions of the
  pool the sequencer takes.
 */
module ExecutionTrace {
  import opened Options
  import opened Hashing
  import opened MachineWords
  import opened Filtering
  import opened Execution

  /** The states before, between and after the inputs, and what the machine answered to each. */
  datatype Trace = Trace(machines: seq<Machine>, steps: seq<Advanced>)

  /** The i-th input of a block, in full: it is numbered on from the block's first input. */
  function InputAt(ic: InputContext, i: nat, tx: RawTx): (e: Envelope) {
    Envelope(ic.chainId, ic.appContract, msgSender(ic.chainId, tx), ic.blockNumber, ic.timestamp, ic.prevRandao,
             Low64(ic.firstIndex + i), tx)
  }

  /** The machine was asked the i-th input, and moved on exactly where it accepted it. */
  ghost predicate MovesAt(tr: Trace, ic: InputContext, budget: nat, txs: seq<RawTx>, i: nat)
    requires i < |txs| == |tr.steps| && |tr.machines| == |txs| + 1
  {
    && tr.steps[i] == advance(tr.machines[i], InputAt(ic, i, txs[i]), budget)
    && tr.machines[i + 1] ==
         if tr.steps[i].Done? && tr.steps[i].res.accepted then tr.steps[i].next else tr.machines[i]
  }

  ghost predicate Traces(tr: Trace, work: Machine, ic: InputContext, budget: nat, txs: seq<RawTx>) {
    && |tr.steps| == |txs| && |tr.machines| == |txs| + 1 && tr.machines[0] == work
    && forall i: nat {:trigger MovesAt(tr, ic, budget, txs, i)} :: i < |txs| ==> MovesAt(tr, ic, budget, txs, i)
  }

  /** The data of the emissions of one kind. */
  function OfKind(es: seq<Emission>, reason: nat): (r: seq<Option<Bytes>>)
    ensures |r| == |es|
    ensures forall k :: 0 <= k < |es| ==> r[k] == if es[k].reason == reason then Some(es[k].data) else None
  {
    seq(|es|, k requires 0 <= k < |es| => if es[k].reason == reason then Some(es[k].data) else None)
  }

  /** What is kept of one result: its reports always, its outputs only where it was accepted. */
  ghost predicate RecordOf(r: TxOutputs, i: nat, tx: RawTx, res: AdvanceResult) {
    && r.txIndex == i && r.txHash == txHash(tx) && r.accepted == res.accepted && r.cycles == res.cycles
    && Gathers(OfKind(res.emissions, REASON_REPORT), r.reports)
    && (if res.accepted then Gathers(OfKind(res.emissions, REASON_OUTPUT), r.outputs) else r.outputs == [])
  }

  function Results(steps: seq<Advanced>): (r: seq<Option<AdvanceResult>>)
    ensures |r| == |steps|
    ensures forall k :: 0 <= k < |steps| ==> r[k] == if steps[k].Done? then Some(steps[k].res) else None
  {
    seq(|steps|, k requires 0 <= k < |steps| => if steps[k].Done? then Some(steps[k].res) else None)
  }

  ghost predicate RecordedAt(steps: seq<Advanced>, txs: seq<RawTx>, outputs: seq<TxOutputs>, i: nat)
    requires i < |txs| == |steps|
  {
    steps[i].Done? ==>
      Rank(Results(steps), i) < |outputs| && RecordOf(outputs[Rank(Results(steps), i)], i, txs[i], steps[i].res)
  }

  /** One record for every input that ended, in order, and none for a hard failure. */
  ghost predicate AllRecorded(steps: seq<Advanced>, txs: seq<RawTx>, outputs: seq<TxOutputs>)
    requires |txs| == |steps|
  {
    && |outputs| == Rank(Results(steps), |steps|)
    && forall i: nat {:trigger RecordedAt(steps, txs, outputs, i)} :: i < |txs| ==> RecordedAt(steps, txs, outputs, i)
  }

  /** The gas of the first i inputs, with no wrapping. */
  function GasOf(steps: seq<Advanced>, i: nat): (g: nat)
    requires i <= |steps|
  {
    if i == 0 then 0 else GasOf(steps, i - 1) + if steps[i - 1].Done? then steps[i - 1].res.cycles / CYCLES_PER_GAS else 0
  }

  /** An execution is what its trace ends in, costs and leaves on record. */
  ghost predicate Yields(tr: Trace, txs: seq<RawTx>, x: Exec)
    requires |tr.steps| == |txs| && |tr.machines| == |txs| + 1
  {
    && x.machine == tr.machines[|txs|]
    && x.gas == Low64(GasOf(tr.steps, |txs|))
    && AllRecorded(tr.steps, txs, x.outputs)
  }

  // ------------------------------------------------------------- what is collected

  lemma {:induction false} CollectsKind(es: seq<Emission>, reason: nat)
    ensures Gathers(OfKind(es, reason), OfReason(es, reason))
    decreases |es|
  {
    if es != [] {
      var init := es[..|es| - 1];
      CollectsKind(init, reason);
      GathersNext(OfKind(init, reason), OfReason(init, reason), OfKind(es, reason), OfReason(es, reason));
    }
  }

  lemma {:induction false} CollectedIsRecord(i: nat, tx: RawTx, res: AdvanceResult)
    ensures RecordOf(Collected(i, tx, res), i, tx, res)
  {
    CollectsKind(res.emissions, REASON_OUTPUT);
    CollectsKind(res.emissions, REASON_REPORT);
  }

  lemma {:induction false} OneRecord(a: TxOutputs, b: TxOutputs, i: nat, tx: RawTx, res: AdvanceResult)
    requires RecordOf(a, i, tx, res) && RecordOf(b, i, tx, res)
    ensures a == b
  {
    GathersOnce(OfKind(res.emissions, REASON_REPORT), a.reports, b.reports);
    if res.accepted { GathersOnce(OfKind(res.emissions, REASON_OUTPUT), a.outputs, b.outputs); }
  }

  // ------------------------------------------------------------------- the replay

  lemma {:induction false} GasOfSame(a: seq<Advanced>, b: seq<Advanced>, i: nat)
    requires i <= |a| && i <= |b| && forall k :: 0 <= k < i ==> a[k] == b[k]
    ensures GasOf(a, i) == GasOf(b, i)
  {
    if i > 0 { GasOfSame(a, b, i - 1); }
  }

  /** The trace of one more input. */
  function Longer(tr: Trace, ic: InputContext, budget: nat, tx: RawTx): (r: Trace)
    requires |tr.machines| == |tr.steps| + 1
  {
    var n := |tr.steps|;
    var a := advance(tr.machines[n], InputAt(ic, n, tx), budget);
    Trace(tr.machines + [if a.Done? && a.res.accepted then a.next else tr.machines[n]], tr.steps + [a])
  }

  lemma {:induction false} LongerTraces(tr: Trace, work: Machine, ic: InputContext, budget: nat, txs: seq<RawTx>, tx: RawTx)
    requires Traces(tr, work, ic, budget, txs)
    ensures Traces(Longer(tr, ic, budget, tx), work, ic, budget, txs + [tx])
  {
    var more, all := Longer(tr, ic, budget, tx), txs + [tx];
    forall i: nat | i < |all| ensures MovesAt(more, ic, budget, all, i) {
      if i < |txs| { assert MovesAt(tr, ic, budget, txs, i); }
    }
  }

  lemma {:induction false} LongerRecorded(steps: seq<Advanced>, txs: seq<RawTx>, outputs: seq<TxOutputs>, a: Advanced,
                                          tx: RawTx, more: seq<TxOutputs>)
    requires |steps| == |txs| && AllRecorded(steps, txs, outputs)
    requires more == if a.Done? then outputs + [Collected(|txs|, tx, a.res)] else outputs
    ensures AllRecorded(steps + [a], txs + [tx], more)
  {
    var all, n := steps + [a], |steps|;
    SameRank(Results(steps), Results(all), n);
    forall i: nat | i < n + 1 ensures RecordedAt(all, txs + [tx], more, i) {
      if i < n {
        assert RecordedAt(steps, txs, outputs, i);
        SameRank(Results(steps), Results(all), i);
      } else if a.Done? {
        CollectedIsRecord(n, tx, a.res);
      }
    }
  }

  lemma {:induction false} LongerYields(tr: Trace, ic: InputContext, budget: nat, txs: seq<RawTx>, x: Exec, tx: RawTx)
    requires |tr.steps| == |txs| && |tr.machines| == |txs| + 1 && Yields(tr, txs, x)
    ensures Yields(Longer(tr, ic, budget, tx), txs + [tx], Step(x, ic, budget, |txs|, tx))
  {
    var n := |txs|;
    var a := advance(tr.machines[n], InputAt(ic, n, tx), budget);
    var y := Step(x, ic, budget, n, tx);
    assert EncodeInput(ic, n, tx) == InputAt(ic, n, tx);
    GasOfSame(tr.steps, tr.steps + [a], n);
    if a.Done? { AddLow(GasOf(tr.steps, n), a.res.cycles / CYCLES_PER_GAS); }
    LongerRecorded(tr.steps, txs, x.outputs, a, tx, y.outputs);
  }

  /**
    Replaying transactions is passing the machine through them: it keeps a new state only
    where an input was accepted, gas is the sum over the inputs that ended, and each of
    those left one record, in order.
   */
  lemma {:induction false} ReplayTraces(work: Machine, ic: InputContext, budget: nat, txs: seq<RawTx>) returns (tr: Trace)
    ensures Traces(tr, work, ic, budget, txs) && Yields(tr, txs, Replay(work, ic, budget, txs))
    decreases |txs|
  {
    if txs == [] {
      tr := Trace([work], []);
    } else {
      var init, last := txs[..|txs| - 1], txs[|txs| - 1];
      assert init + [last] == txs;
      var before := ReplayTraces(work, ic, budget, init);
      LongerTraces(before, work, ic, budget, init, last);
      LongerYields(before, ic, budget, init, Replay(work, ic, budget, init), last);
      tr := Longer(before, ic, budget, last);
    }
  }

  lemma {:induction false} OneTraceTo(a: Trace, b: Trace, work: Machine, ic: InputContext, budget: nat, txs: seq<RawTx>, n: nat)
    requires Traces(a, work, ic, budget, txs) && Traces(b, work, ic, budget, txs) && n <= |txs|
    ensures a.machines[..n + 1] == b.machines[..n + 1] && a.steps[..n] == b.steps[..n]
  {
    if n > 0 {
      OneTraceTo(a, b, work, ic, budget, txs, n - 1);
      assert a.machines[n - 1] == a.machines[..n][n - 1] == b.machines[..n][n - 1] == b.machines[n - 1];
      assert MovesAt(a, ic, budget, txs, n - 1) && MovesAt(b, ic, budget, txs, n - 1);
      assert a.machines[..n + 1] == a.machines[..n] + [a.machines[n]] && b.machines[..n + 1] == b.machines[..n] + [b.machines[n]];
      assert a.steps[..n] == a.steps[..n - 1] + [a.steps[n - 1]] && b.steps[..n] == b.steps[..n - 1] + [b.steps[n - 1]];
    }
  }

  lemma {:induction false} OneTrace(a: Trace, b: Trace, work: Machine, ic: InputContext, budget: nat, txs: seq<RawTx>)
    requires Traces(a, work, ic, budget, txs) && Traces(b, work, ic, budget, txs)
    ensures a == b
  {
    OneTraceTo(a, b, work, ic, budget, txs, |txs|);
    assert a.machines[..|txs| + 1] == a.machines && b.machines[..|txs| + 1] == b.machines;
    assert a.steps[..|txs|] == a.steps && b.steps[..|txs|] == b.steps;
  }

  lemma {:induction false} OneList(steps: seq<Advanced>, txs: seq<RawTx>, a: seq<TxOutputs>, b: seq<TxOutputs>)
    requires |steps| == |txs| && AllRecorded(steps, txs, a) && AllRecorded(steps, txs, b)
    ensures a == b
  {
    forall j: nat | j < |a| ensures a[j] == b[j] {
      var i := GivenBy(Results(steps), j, |steps|);
      assert RecordedAt(steps, txs, a, i) && RecordedAt(steps, txs, b, i);
      OneRecord(a[j], b[j], i, txs[i], steps[i].res);
    }
  }

  /** Nothing else is an execution of the transactions: whatever a trace of them yields is the replay. */
  lemma {:induction false} TraceIsReplay(tr: Trace, work: Machine, ic: InputContext, budget: nat, txs: seq<RawTx>, x: Exec)
    requires Traces(tr, work, ic, budget, txs) && Yields(tr, txs, x)
    ensures x == Replay(work, ic, budget, txs)
  {
    var mine := ReplayTraces(work, ic, budget, txs);
    OneTrace(tr, mine, work, ic, budget, txs);
    OneList(tr.steps, txs, x.outputs, Replay(work, ic, budget, txs).outputs);
  }

  // -------------------------------------------------------------- what the sequencer takes

  /** The size of the first n transactions, with no wrapping. */
  function TotalSize(txs: seq<RawTx>, n: nat): (r: nat)
    requires n <= |txs|
  {
    if n == 0 then 0 else TotalSize(txs, n - 1) + txSize(txs[n - 1])
  }

  /** The data limits leave room for a transaction after those already in. */
  predicate Room(da: DaLimits, so: seq<RawTx>, tx: RawTx) {
    && (da.maxTx == 0 || txSize(tx) <= da.maxTx)
    && (da.maxBlock == 0 || Low64(TotalSize(so, |so|) + txSize(tx)) <= da.maxBlock)
  }

  /** What the machine answers to a transaction after those already in. */
  function AnswerAfter(work: Machine, ic: InputContext, budget: nat, so: seq<RawTx>, tx: RawTx): (a: Advanced) {
    advance(Replay(work, ic, budget, so).machine, InputAt(ic, |so|, tx), budget)
  }

  /** A pool transaction is tried while the block has gas left and room for it. */
  predicate Tried(work: Machine, ic: InputContext, budget: nat, gasLimit: nat, da: DaLimits, so: seq<RawTx>, tx: RawTx) {
    Replay(work, ic, budget, so).gas < gasLimit && Room(da, so, tx)
  }

  /** It goes in exactly when it was tried and accepted. */
  predicate Taken(work: Machine, ic: InputContext, budget: nat, gasLimit: nat, da: DaLimits, so: seq<RawTx>, tx: RawTx) {
    var a := AnswerAfter(work, ic, budget, so, tx);
    Tried(work, ic, budget, gasLimit, da, so, tx) && a.Done? && a.res.accepted
  }

  /** The hash reported for a transaction tried in vain, where it has one. */
  function Dropped(work: Machine, ic: InputContext, budget: nat, gasLimit: nat, da: DaLimits, so: seq<RawTx>, tx: RawTx)
    : (r: Option<Hash>)
  {
    if Tried(work, ic, budget, gasLimit, da, so, tx) && !Taken(work, ic, budget, gasLimit, da, so, tx) then txHash(tx) else None
  }

  /** A build in progress, after any part of the pool: what is in, and what was dropped. */
  datatype Choices = Choices(before: seq<seq<RawTx>>, drops: seq<Option<Hash>>)

  ghost predicate ChoosesAt(ch: Choices, work: Machine, ic: InputContext, budget: nat, gasLimit: nat, da: nat -> DaLimits,
                            pool: seq<RawTx>, i: nat)
    requires i < |pool| == |ch.drops| && |ch.before| == |pool| + 1
  {
    var so, tx := ch.before[i], pool[i];
    && ch.before[i + 1] == (if Taken(work, ic, budget, gasLimit, da(i), so, tx) then so + [tx] else so)
    && ch.drops[i] == Dropped(work, ic, budget, gasLimit, da(i), so, tx)
  }

  ghost predicate Chooses(ch: Choices, work: Machine, ic: InputContext, budget: nat, gasLimit: nat, da: nat -> DaLimits,
                          deposits: seq<RawTx>, pool: seq<RawTx>)
  {
    && |ch.drops| == |pool| && |ch.before| == |pool| + 1 && ch.before[0] == deposits
    && forall i: nat {:trigger ChoosesAt(ch, work, ic, budget, gasLimit, da, pool, i)} ::
         i < |pool| ==> ChoosesAt(ch, work, ic, budget, gasLimit, da, pool, i)
  }

  lemma {:induction false} TotalSizeSame(a: seq<RawTx>, b: seq<RawTx>, n: nat)
    requires n <= |a| && n <= |b| && forall k :: 0 <= k < n ==> a[k] == b[k]
    ensures TotalSize(a, n) == TotalSize(b, n)
  {
    if n > 0 { TotalSizeSame(a, b, n - 1); }
  }

  lemma {:induction false} SizeOneMore(so: seq<RawTx>, tx: RawTx)
    ensures Add64(Low64(TotalSize(so, |so|)), txSize(tx)) == Low64(TotalSize(so + [tx], |so| + 1))
  {
    TotalSizeSame(so, so + [tx], |so|);
    AddLow(TotalSize(so, |so|), txSize(tx));
  }

  /** A build keeps account of itself: its execution is that of what is in, and so is its size. */
  ghost predicate Accounts(b: Building, work: Machine, ic: InputContext, budget: nat) {
    Replays(b, work, ic, budget) && b.daUsed == Low64(TotalSize(b.included, |b.included|))
  }

  /** The build with one more transaction in. */
  function Including(b: Building, ic: InputContext, budget: nat, tx: RawTx): (r: Building) {
    b.(exec := Step(b.exec, ic, budget, |b.included|, tx), included := b.included + [tx],
       daUsed := Add64(b.daUsed, txSize(tx)))
  }

  lemma {:induction false} IncludingAccounts(b: Building, work: Machine, ic: InputContext, budget: nat, tx: RawTx)
    requires Accounts(b, work, ic, budget)
    ensures Accounts(Including(b, ic, budget, tx), work, ic, budget)
  {
    IncludeReplays(b, work, ic, budget, tx);
    SizeOneMore(b.included, tx);
  }

  lemma {:induction false} AnswerIs(b: Building, work: Machine, ic: InputContext, budget: nat, tx: RawTx)
    requires Accounts(b, work, ic, budget)
    ensures advance(b.exec.machine, EncodeInput(ic, |b.included|, tx), budget) == AnswerAfter(work, ic, budget, b.included, tx)
  {
    assert EncodeInput(ic, |b.included|, tx) == InputAt(ic, |b.included|, tx);
  }

  lemma {:induction false} RoomIs(b: Building, work: Machine, ic: InputContext, budget: nat, da: DaLimits, tx: RawTx)
    requires Accounts(b, work, ic, budget)
    ensures Admits(da, b.daUsed, txSize(tx)) <==> Room(da, b.included, tx)
  {
    AddLow(TotalSize(b.included, |b.included|), txSize(tx));
  }

  lemma {:induction false} OfferIs(b: Building, ic: InputContext, budget: nat, da: DaLimits, tx: RawTx)
    ensures var a := advance(b.exec.machine, EncodeInput(ic, |b.included|, tx), budget);
      Offer(b, ic, budget, da, tx) ==
        if !Admits(da, b.daUsed, txSize(tx)) then b
        else if a.Done? && a.res.accepted then Including(b, ic, budget, tx)
        else Drop(b, tx)
  {
  }

  /** One transaction offered: in, dropped or passed over, as the machine and the limits decide. */
  lemma {:induction false} OfferChooses(b: Building, work: Machine, ic: InputContext, budget: nat, gasLimit: nat,
                                        da: DaLimits, tx: RawTx)
    requires Accounts(b, work, ic, budget) && b.exec.gas < gasLimit
    ensures var r, so := Offer(b, ic, budget, da, tx), b.included;
      && Accounts(r, work, ic, budget)
      && r.included == (if Taken(work, ic, budget, gasLimit, da, so, tx) then so + [tx] else so)
      && var d := Dropped(work, ic, budget, gasLimit, da, so, tx);
         r.dropped == if d.Some? then b.dropped + [d.value] else b.dropped
  {
    OfferIs(b, ic, budget, da, tx);
    AnswerIs(b, work, ic, budget, tx);
    RoomIs(b, work, ic, budget, da, tx);
    IncludingAccounts(b, work, ic, budget, tx);
  }

  /** One transaction's turn, which a block without gas left does not give it. */
  lemma {:induction false} TurnChooses(b: Building, r: Building, work: Machine, ic: InputContext, budget: nat, gasLimit: nat,
                                       da: DaLimits, tx: RawTx)
    requires Accounts(b, work, ic, budget)
    requires r == if b.exec.gas >= gasLimit then b else Offer(b, ic, budget, da, tx)
    ensures Accounts(r, work, ic, budget)
    ensures r.included == if Taken(work, ic, budget, gasLimit, da, b.included, tx) then b.included + [tx] else b.included
    ensures var d := Dropped(work, ic, budget, gasLimit, da, b.included, tx);
      r.dropped == if d.Some? then b.dropped + [d.value] else b.dropped
  {
    if b.exec.gas < gasLimit { OfferChooses(b, work, ic, budget, gasLimit, da, tx); }
  }

  lemma {:induction false} SelectNext(b: Building, ic: InputContext, budget: nat, gasLimit: nat, da: nat -> DaLimits,
                                      init: seq<RawTx>, tx: RawTx)
    ensures var mid := Select(b, ic, budget, gasLimit, da, init);
      Select(b, ic, budget, gasLimit, da, init + [tx]) ==
        if mid.exec.gas >= gasLimit then mid else Offer(mid, ic, budget, da(|init|), tx)
  {
    assert (init + [tx])[..|init|] == init;
  }

  lemma {:induction false} ChoosesNext(ch: Choices, work: Machine, ic: InputContext, budget: nat, gasLimit: nat,
                                       da: nat -> DaLimits, deposits: seq<RawTx>, pool: seq<RawTx>, tx: RawTx,
                                       next: seq<RawTx>, d: Option<Hash>)
    requires Chooses(ch, work, ic, budget, gasLimit, da, deposits, pool)
    requires var so := ch.before[|pool|];
      && next == (if Taken(work, ic, budget, gasLimit, da(|pool|), so, tx) then so + [tx] else so)
      && d == Dropped(work, ic, budget, gasLimit, da(|pool|), so, tx)
    ensures Chooses(Choices(ch.before + [next], ch.drops + [d]), work, ic, budget, gasLimit, da, deposits, pool + [tx])
  {
    var more, all := Choices(ch.before + [next], ch.drops + [d]), pool + [tx];
    forall i: nat | i < |all| ensures ChoosesAt(more, work, ic, budget, gasLimit, da, all, i) {
      if i < |pool| { assert ChoosesAt(ch, work, ic, budget, gasLimit, da, pool, i); }
    }
  }

  lemma {:induction false} SelectChooses(b: Building, work: Machine, ic: InputContext, budget: nat, gasLimit: nat,
                                         da: nat -> DaLimits, pool: seq<RawTx>) returns (ch: Choices)
    requires Accounts(b, work, ic, budget) && b.dropped == []
    ensures var r := Select(b, ic, budget, gasLimit, da, pool);
      && Chooses(ch, work, ic, budget, gasLimit, da, b.included, pool) && Accounts(r, work, ic, budget)
      && ch.before[|pool|] == r.included && Gathers(ch.drops, r.dropped)
    decreases |pool|
  {
    if pool == [] {
      ch := Choices([b.included], []);
    } else {
      var n := |pool| - 1;
      var init, tx := pool[..n], pool[n];
      var before := SelectChooses(b, work, ic, budget, gasLimit, da, init);
      var mid, r := Select(b, ic, budget, gasLimit, da, init), Select(b, ic, budget, gasLimit, da, pool);
      assert init + [tx] == pool;
      SelectNext(b, ic, budget, gasLimit, da, init, tx);
      var d := Dropped(work, ic, budget, gasLimit, da(n), mid.included, tx);
      TurnChooses(mid, r, work, ic, budget, gasLimit, da(n), tx);
      ChoosesNext(before, work, ic, budget, gasLimit, da, b.included, init, tx, r.included, d);
      ch := Choices(before.before + [r.included], before.drops + [d]);
      GathersNext(before.drops, mid.dropped, ch.drops, r.dropped);
    }
  }

  lemma {:induction false} DepositNext(b: Building, ic: InputContext, budget: nat, init: seq<RawTx>, tx: RawTx)
    ensures var before := Deposits(b, ic, budget, init);
      Deposits(b, ic, budget, init + [tx]) ==
        if before.None? then None
        else if advance(before.value.exec.machine, EncodeInput(ic, |before.value.included|, tx), budget).HardFailure? then None
        else Some(Including(before.value, ic, budget, tx))
  {
    assert (init + [tx])[..|init|] == init;
  }

  /** Forced transactions either are all in and accounted for, or one stopped the machine. */
  ghost predicate Forced(r: Option<Building>, work: Machine, ic: InputContext, budget: nat, txs: seq<RawTx>) {
    r.Some? ==> Accounts(r.value, work, ic, budget) && r.value.included == txs && r.value.dropped == []
  }

  lemma {:induction false} ForcedNext(work: Machine, ic: InputContext, budget: nat, init: seq<RawTx>, tx: RawTx)
    requires Forced(Deposits(Building(Exec(work, 0, []), [], 0, []), ic, budget, init), work, ic, budget, init)
    ensures var start := Building(Exec(work, 0, []), [], 0, []);
      var before, r := Deposits(start, ic, budget, init), Deposits(start, ic, budget, init + [tx]);
      && Forced(r, work, ic, budget, init + [tx])
      && (r.None? <==> before.None? || AnswerAfter(work, ic, budget, init, tx).HardFailure?)
  {
    var start := Building(Exec(work, 0, []), [], 0, []);
    DepositNext(start, ic, budget, init, tx);
    var before := Deposits(start, ic, budget, init);
    if before.Some? {
      AnswerIs(before.value, work, ic, budget, tx);
      IncludingAccounts(before.value, work, ic, budget, tx);
    }
  }

  /** The forced transactions followed along their trace: a hard failure anywhere in it refuses the build. */
  lemma {:induction false} ForcedTraces(work: Machine, ic: InputContext, budget: nat, txs: seq<RawTx>) returns (tr: Trace)
    ensures Traces(tr, work, ic, budget, txs) && Yields(tr, txs, Replay(work, ic, budget, txs))
    ensures var r := Deposits(Building(Exec(work, 0, []), [], 0, []), ic, budget, txs);
      Forced(r, work, ic, budget, txs) && (r.None? <==> HardFailure in tr.steps)
    decreases |txs|
  {
    if txs == [] {
      tr := Trace([work], []);
    } else {
      var init, tx := txs[..|txs| - 1], txs[|txs| - 1];
      assert init + [tx] == txs;
      var before := ForcedTraces(work, ic, budget, init);
      ForcedNext(work, ic, budget, init, tx);
      LongerTraces(before, work, ic, budget, init, tx);
      LongerYields(before, ic, budget, init, Replay(work, ic, budget, init), tx);
      tr := Longer(before, ic, budget, tx);
      assert tr.steps == before.steps + [AnswerAfter(work, ic, budget, init, tx)];
    }
  }

  /**
    What a build holds: every deposit first and in order, then exactly the pool
    transactions the machine accepted in their turn while gas and data limits left room;
    those tried in vain are reported.  Its execution is the replay of what it holds.
   */
  lemma {:induction false} BuildChooses(work: Machine, ic: InputContext, budget: nat, gasLimit: nat, da: nat -> DaLimits,
                                        deposits: seq<RawTx>, pool: seq<RawTx>) returns (ch: Choices)
    requires Build(work, ic, budget, gasLimit, da, deposits, pool).Some?
    ensures var r := Build(work, ic, budget, gasLimit, da, deposits, pool).value;
      && Chooses(ch, work, ic, budget, gasLimit, da, deposits, pool)
      && ch.before[|pool|] == r.included && Gathers(ch.drops, r.dropped)
      && r.exec == Replay(work, ic, budget, r.included)
  {
    var tr := ForcedTraces(work, ic, budget, deposits);
    var forced := Deposits(Building(Exec(work, 0, []), [], 0, []), ic, budget, deposits).value;
    ch := SelectChooses(forced, work, ic, budget, gasLimit, da, pool);
  }

  /** A build is the trace of what it holds: the machine, gas and records of passing through exactly those transactions. */
  lemma {:induction false} BuildTraces(work: Machine, ic: InputContext, budget: nat, gasLimit: nat, da: nat -> DaLimits,
                                       deposits: seq<RawTx>, pool: seq<RawTx>) returns (tr: Trace)
    requires Build(work, ic, budget, gasLimit, da, deposits, pool).Some?
    ensures var r := Build(work, ic, budget, gasLimit, da, deposits, pool).value;
      Traces(tr, work, ic, budget, r.included) && Yields(tr, r.included, r.exec)
  {
    BuilderAgreesWithVerifier(work, ic, budget, gasLimit, da, deposits, pool);
    tr := ReplayTraces(work, ic, budget, Build(work, ic, budget, gasLimit, da, deposits, pool).value.included);
  }

  /** A build is refused exactly when some deposit stops the machine in its turn. */
  lemma {:induction false} BuildStops(tr: Trace, work: Machine, ic: InputContext, budget: nat, gasLimit: nat,
                                      da: nat -> DaLimits, deposits: seq<RawTx>, pool: seq<RawTx>)
    requires Traces(tr, work, ic, budget, deposits)
    ensures Build(work, ic, budget, gasLimit, da, deposits, pool).None? <==> HardFailure in tr.steps
  {
    var mine := ForcedTraces(work, ic, budget, deposits);
    OneTrace(tr, mine, work, ic, budget, deposits);
  }
}
