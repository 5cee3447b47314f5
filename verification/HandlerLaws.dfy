/**
  What every built-in handler keeps when it accepts: nonces, the sum of ether and
  emitted withdrawals, supply against holdings, the exclusiveness of the two token
  escrows, and every balance but the one it pays from.
 */
module HandlerLaws {
  import opened Options
  import opened ByteCodec
  import opened DriveSpec
  import opened UndoLog
  import opened LedgerSpec
  import opened LedgerLaws
  import opened Handlers

  /** The standard bridge and an ERC-20 portal are never registered together. */
  ghost predicate Exclusive(w: World) {
    w.pair.Some? ==> !HasErc20Portal(w)
  }

  /** The ether leaving through the withdrawals of an output. */
  function ValueOut(out: seq<Emission>): (n: nat) {
    ValueOfFirst(out, |out|)
  }

  function ValueOfFirst(out: seq<Emission>, k: nat): (n: nat)
    requires k <= |out|
  {
    if k == 0 then 0
    else ValueOfFirst(out, k - 1) + if out[k - 1].Withdrawn? then out[k - 1].withdrawal.value else 0
  }

  lemma {:induction false} ValueOfConcat(a: seq<Emission>, b: seq<Emission>)
    ensures ValueOut(a + b) == ValueOut(a) + ValueOut(b)
  {
    SameFirst(a, a + b, |a|);
    ValueAfter(a, b, |b|);
  }

  lemma {:induction false} SameFirst(a: seq<Emission>, b: seq<Emission>, k: nat)
    requires k <= |a| && k <= |b| && forall i :: 0 <= i < k ==> a[i] == b[i]
    ensures ValueOfFirst(a, k) == ValueOfFirst(b, k)
  {
    if k > 0 { SameFirst(a, b, k - 1); }
  }

  lemma {:induction false} ValueAfter(a: seq<Emission>, b: seq<Emission>, k: nat)
    requires k <= |b|
    ensures ValueOfFirst(a + b, |a| + k) == ValueOfFirst(a + b, |a|) + ValueOfFirst(b, k)
  {
    if k > 0 { ValueAfter(a, b, k - 1); }
  }

  /** One world fairly follows another: so much ether left, and no balance but the payer's fell. */
  ghost predicate Fair(w: World, x: World, left: nat, payer: Address) {
    && Sane(x) && (Supplied(w) ==> Supplied(x)) && (Exclusive(w) ==> Exclusive(x))
    && x.geo == w.geo && x.messages == w.messages
    && Ether(x) + left == Ether(w)
    && (forall a: Address :: AccountOf(x, a).nonce == AccountOf(w, a).nonce)
    && (forall a: Address :: a != payer ==> AccountOf(x, a).balance >= AccountOf(w, a).balance)
  }

  lemma {:induction false} FairNothing(w: World, payer: Address)
    requires Sane(w)
    ensures Fair(w, w, 0, payer)
  {
  }

  lemma {:induction false} FairTrans(w: World, x: World, y: World, a: nat, b: nat, payer: Address)
    requires Fair(w, x, a, payer) && Fair(x, y, b, payer)
    ensures Fair(w, y, a + b, payer)
  {
  }

  /** Accounts alone changed, so what hangs on the rest is as it was. */
  lemma {:induction false} AccountsAlone(w: World, x: World)
    requires OnlyAccounts(w, x)
    ensures (Supplied(w) ==> Supplied(x)) && (Exclusive(w) ==> Exclusive(x))
  {
    if Supplied(w) {
      forall id: nat ensures SupplyOf(x, id) == Held(x, id) { assert SupplyOf(w, id) == Held(w, id); }
    }
  }

  lemma {:induction false} DebitFair(w: World, a: Address, n: nat)
    requires Sane(w) && DebitEther(w, a, n).Did?
    ensures Fair(w, DebitEther(w, a, n).w, n, a)
    ensures AccountOf(DebitEther(w, a, n).w, a).balance == AccountOf(w, a).balance - n
  {
    StoredNonce(w, a);
    DebitMoves(w, a, n);
    DebitSane(w, a, n);
    AccountsAlone(w, DebitEther(w, a, n).w);
  }

  /** Ether moved from one account to another, and none made or lost. */
  lemma {:induction false} MoveFair(w: World, from: Address, to: Address, n: nat)
    requires Sane(w) && MoveEther(w, from, to, n).Did?
    ensures var x := MoveEther(w, from, to, n).w;
      && Fair(w, x, 0, from) && AccountOf(x, from).balance >= AccountOf(w, from).balance - n
      && (from != to ==> AccountOf(x, to).balance == AccountOf(w, to).balance + n)
      && OnlyAccounts(w, x)
  {
    var mid := DebitEther(w, from, n).w;
    DebitFair(w, from, n);
    StoredNonce(w, from);
    DebitMoves(w, from, n);
    StoredNonce(mid, to);
    CreditMoves(mid, to, n);
    CreditSane(mid, to, n);
    AccountsAlone(mid, CreditEther(mid, to, n).w);
  }

  lemma {:induction false} TokensFair(w: World, x: World, payer: Address)
    requires Sane(w) && Sane(x) && TokensOnly(w, x)
    ensures Fair(w, x, 0, payer)
  {
  }

  lemma {:induction false} DebitTokenFair(w: World, a: Address, id: nat, n: nat, payer: Address)
    requires Sane(w) && DebitToken(w, a, id, n).Did?
    ensures Fair(w, DebitToken(w, a, id, n).w, 0, payer)
  {
    DebitTokenOnly(w, a, id, n);
    DebitTokenSane(w, a, id, n);
    TokensFair(w, DebitToken(w, a, id, n).w, payer);
  }

  lemma {:induction false} CreditTokenFair(w: World, a: Address, id: nat, n: nat, payer: Address)
    requires Sane(w) && CreditToken(w, a, id, n).Did?
    ensures Fair(w, CreditToken(w, a, id, n).w, 0, payer)
  {
    CreditTokenOnly(w, a, id, n);
    CreditTokenSane(w, a, id, n);
    TokensFair(w, CreditToken(w, a, id, n).w, payer);
  }

  lemma {:induction false} MoveTokenFair(w: World, from: Address, to: Address, id: nat, n: nat, payer: Address)
    requires Sane(w) && MoveToken(w, from, to, id, n).Did?
    ensures Fair(w, MoveToken(w, from, to, id, n).w, 0, payer)
  {
    DebitTokenFair(w, from, id, n, payer);
    CreditTokenFair(DebitToken(w, from, id, n).w, to, id, n, payer);
    FairTrans(w, DebitToken(w, from, id, n).w, MoveToken(w, from, to, id, n).w, 0, 0, payer);
  }

  lemma {:induction false} RegisterFair(w: World, l1: Address, m: Option<Metadata>, payer: Address)
    requires Sane(w) && LedgerSpec.RegisterToken(w, l1, m).Did?
    ensures Fair(w, LedgerSpec.RegisterToken(w, l1, m).w, 0, payer)
  {
    RegisterOnly(w, l1, m);
    RegisterSane(w, l1, m);
    TokensFair(w, LedgerSpec.RegisterToken(w, l1, m).w, payer);
  }

  lemma {:induction false} MintOnly(w: World, l1: Address, to: Address, n: nat)
    requires Sane(w) && MintToken(w, l1, to, n).Did?
    ensures TokensOnly(w, MintToken(w, l1, to, n).w) && Sane(MintToken(w, l1, to, n).w)
  {
    var mid, id := Resolve(w, l1).w, TokenByL1(w, l1);
    var k := if id.Some? then id.value else |w.view.tokens|;
    if id.None? {
      RegisterOnly(w, l1, None);
      RegisterSane(w, l1, None);
    }
    CreditTokenOnly(mid, to, k, n);
    CreditTokenSane(mid, to, k, n);
    TokensOnlyTrans(w, mid, MintToken(w, l1, to, n).w);
  }

  lemma {:induction false} MintFair(w: World, l1: Address, to: Address, n: nat, payer: Address)
    requires Sane(w) && MintToken(w, l1, to, n).Did?
    ensures Fair(w, MintToken(w, l1, to, n).w, 0, payer)
    ensures AccountOf(MintToken(w, l1, to, n).w, payer) == AccountOf(w, payer)
  {
    MintOnly(w, l1, to, n);
    TokensFair(w, MintToken(w, l1, to, n).w, payer);
  }

  // ---------------------------------------------------------------- handler by handler

  /** An accepting run is fair, with as much ether leaving as its withdrawals carry. */
  ghost predicate FairRun(w: World, r: Ran, payer: Address) {
    && !r.end.Fails? && !r.end.Rejects? && Quiet(r.out)
    && (r.end.Accepts? ==> Fair(w, r.w, ValueOut(r.out), payer))
  }

  /** No word of a relayed message. */
  ghost predicate Quiet(out: seq<Emission>) {
    forall i :: 0 <= i < |out| && out[i].Logged? ==> !out[i].event.Relayed?
  }

  lemma {:induction false} OneWithdrawal(ctx: Ctx, sender: Address, target: Address, value: nat, gas: nat, data: Data)
    ensures ValueOut(Leaving(ctx, sender, target, value, gas, data)) == value
  {
    var m := Withdrawal(withdrawalNonce(ctx.inputIndex, 0), sender, target, value, gas, data);
    var out := Leaving(ctx, sender, target, value, gas, data);
    assert out == [Withdrawn(m), Logged(MESSAGE_PASSER, MessagePassed(m))];
    assert ValueOfFirst(out, 0) == 0 && ValueOfFirst(out, 1) == value;
  }

  lemma {:induction false} NoWithdrawals(out: seq<Emission>)
    requires forall i :: 0 <= i < |out| ==> !out[i].Withdrawn?
    ensures ValueOut(out) == 0
  {
    NothingLeaves(out);
  }

  lemma {:induction false} NothingLeaves(out: seq<Emission>)
    requires forall i :: 0 <= i < |out| && out[i].Withdrawn? ==> out[i].withdrawal.value == 0
    ensures ValueOut(out) == 0
  {
    NothingLeavesFirst(out, |out|);
  }

  lemma {:induction false} NothingLeavesFirst(out: seq<Emission>, k: nat)
    requires k <= |out| && forall i :: 0 <= i < |out| && out[i].Withdrawn? ==> out[i].withdrawal.value == 0
    ensures ValueOfFirst(out, k) == 0
  {
    if k > 0 { NothingLeavesFirst(out, k - 1); }
  }

  lemma {:induction false} EtherOutFair(w: World, ctx: Ctx, to: Address)
    requires Sane(w)
    ensures FairRun(w, BurnEther(w, ctx, to), ctx.to)
  {
    if BurnEther(w, ctx, to).end.Accepts? {
      DebitFair(w, ctx.to, ctx.value);
      OneWithdrawal(ctx, ctx.sender, to, ctx.value, DEFAULT_GAS, []);
    }
  }

  lemma {:induction false} TokensOutFair(w: World, ctx: Ctx, l2Token: Address, to: Address, amount: nat)
    requires Sane(w)
    ensures FairRun(w, BurnTokens(w, ctx, l2Token, to, amount), ctx.to)
  {
    var r := BurnTokens(w, ctx, l2Token, to, amount);
    if r.end.Accepts? {
      DebitTokenFair(w, ctx.sender, TokenByL2(w, l2Token).value, amount, ctx.to);
      NoWithdrawals(r.out);
    }
  }

  lemma {:induction false} BridgeFair(w: World, ctx: Ctx)
    requires Sane(w)
    ensures FairRun(w, BridgeAdvance(w, ctx), ctx.to)
  {
    match decodeBridge(ctx.data)
    case NoBridgeCall =>
    case WithdrawEther(to) => EtherOutFair(w, ctx, to);
    case WithdrawERC20(l2Token, to, amount) => TokensOutFair(w, ctx, l2Token, to, amount);
  }

  lemma {:induction false} PasserFair(w: World, ctx: Ctx)
    requires Sane(w)
    ensures FairRun(w, PasserAdvance(w, ctx), ctx.to)
  {
    var r, call := PasserAdvance(w, ctx), decodePasser(ctx.data);
    if r.end.Accepts? {
      DebitFair(w, ctx.to, ctx.value);
      if ctx.data == [] { OneWithdrawal(ctx, ctx.sender, ctx.sender, ctx.value, DEFAULT_GAS, []); }
      else { OneWithdrawal(ctx, ctx.sender, call.target, ctx.value, call.gasLimit, call.data); }
    }
  }

  lemma {:induction false} FacadeFair(w: World, ctx: Ctx)
    requires Sane(w)
    ensures FairRun(w, FacadeAdvance(w, ctx), ctx.to)
  {
    var r, call := FacadeAdvance(w, ctx), decodeFacade(ctx.data);
    if r.end.Accepts? {
      MoveTokenFair(w, ctx.sender, call.to, TokenByL2(w, ctx.to).value, call.value, ctx.to);
      NoWithdrawals(r.out);
    }
  }

  lemma {:induction false} EtherDepositFair(w: World, ctx: Ctx)
    requires Sane(w)
    ensures FairRun(w, DepositEther(w, ctx), ctx.to)
  {
    var r := DepositEther(w, ctx);
    if r.end.Accepts? {
      var to, n := ctx.data[..20], FromBE(ctx.data[20..52]);
      assert MoveEther(w, ctx.to, to, n) == Did(r.w) && r.out == [];
      MoveFair(w, ctx.to, to, n);
    }
  }

  lemma {:induction false} TokenDepositFair(w: World, ctx: Ctx)
    requires Sane(w)
    ensures FairRun(w, DepositTokens(w, ctx), ctx.to)
  {
    var r := DepositTokens(w, ctx);
    if r.end.Accepts? {
      var l1, to, n := ctx.data[..20], ctx.data[20..40], FromBE(ctx.data[40..72]);
      assert MintToken(w, l1, to, n) == Did(r.w);
      MintFair(w, l1, to, n, ctx.to);
      NoWithdrawals(r.out);
    }
  }

  lemma {:induction false} PortalFair(w: World, ctx: Ctx)
    requires Sane(w)
    ensures FairRun(w, PortalAdvance(w, ctx), ctx.to)
  {
    EtherDepositFair(w, ctx);
    TokenDepositFair(w, ctx);
  }

  /** A change of configuration alone is fair, if the escrows stay exclusive. */
  lemma {:induction false} SettingsFair(w: World, x: World, payer: Address)
    requires Sane(w) && x.geo == w.geo && x.view == w.view && x.supply == w.supply && x.messages == w.messages
    requires Exclusive(w) ==> Exclusive(x)
    ensures Fair(w, x, 0, payer)
  {
    if Supplied(w) {
      forall id: nat ensures SupplyOf(x, id) == Held(x, id) { assert SupplyOf(w, id) == Held(w, id); }
    }
  }

  /** An accepted configuration call registers one token or only changes settings. */
  lemma {:induction false} ConfigIs(w: World, ctx: Ctx)
    requires ConfigAdvance(w, ctx).end.Accepts?
    ensures var r, call := ConfigAdvance(w, ctx), decodeConfig(ctx.data);
      if call.RegisterTokenCall? then LedgerSpec.RegisterToken(w, call.l1Token, Some(call.metadata)) == Did(r.w)
      else r.w.geo == w.geo && r.w.view == w.view && r.w.supply == w.supply && r.w.messages == w.messages
  {
  }

  lemma {:induction false} ConfigPaysNobody(w: World, ctx: Ctx)
    ensures var r := ConfigAdvance(w, ctx); forall i :: 0 <= i < |r.out| ==> !r.out[i].Withdrawn?
  {
  }

  /** Each escrow is refused while the other stands. */
  lemma {:induction false} RegistrationExclusive(w: World, ctx: Ctx)
    requires Exclusive(w) && ConfigAdvance(w, ctx).end.Accepts? && !decodeConfig(ctx.data).RegisterTokenCall?
    ensures Exclusive(ConfigAdvance(w, ctx).w)
  {
  }

  lemma {:induction false} ConfigFair(w: World, ctx: Ctx)
    requires Sane(w)
    ensures FairRun(w, ConfigAdvance(w, ctx), ctx.to)
  {
    var r, call := ConfigAdvance(w, ctx), decodeConfig(ctx.data);
    if r.end.Accepts? {
      ConfigIs(w, ctx);
      ConfigPaysNobody(w, ctx);
      NoWithdrawals(r.out);
      if call.RegisterTokenCall? {
        RegisterFair(w, call.l1Token, Some(call.metadata), ctx.to);
      } else {
        if Exclusive(w) { RegistrationExclusive(w, ctx); }
        SettingsFair(w, r.w, ctx.to);
      }
    }
  }

  lemma {:induction false} SendFair(w: World, ctx: Ctx, out: seq<Emission>, cd: CrossDomain, target: Address,
                                    message: Data, minGas: nat, payer: Address)
    requires Sane(w) && ValueOut(out) == 0 && Quiet(out)
    ensures FairRun(w, SendMessage(w, ctx, out, cd, L2_BRIDGE, target, message, minGas, 0), payer)
  {
    var r := SendMessage(w, ctx, out, cd, L2_BRIDGE, target, message, minGas, 0);
    SettingsFair(w, r.w, payer);
    var tail := SentTail(w, ctx, out, cd, target, message, minGas);
    ValueOfConcat(out, tail);
  }

  /** What sending adds to the output: a withdrawal of nothing and its events. */
  lemma {:induction false} SentTail(w: World, ctx: Ctx, out: seq<Emission>, cd: CrossDomain, target: Address,
                                    message: Data, minGas: nat) returns (tail: seq<Emission>)
    ensures SendMessage(w, ctx, out, cd, L2_BRIDGE, target, message, minGas, 0).out == out + tail
    ensures ValueOut(tail) == 0 && Quiet(tail)
  {
    var nonce, gas := versionedNonce(w.msgNonce), baseGas(|message|, minGas);
    var relay := encodeRelay(CrossDomainMessage(nonce, L2_BRIDGE, target, 0, minGas, message));
    var m := Withdrawal(withdrawalNonce(ctx.inputIndex, Withdrawals(out)), MESSENGER, cd.l1Messenger, 0, gas, relay);
    tail := [Withdrawn(m), Logged(MESSAGE_PASSER, MessagePassed(m)),
             Logged(MESSENGER, Sent(target, L2_BRIDGE, message, nonce, gas)), Logged(MESSENGER, SentExtension(L2_BRIDGE, 0))];
    NothingLeaves(tail);
  }

  lemma {:induction false} InitiateFair(w: World, ctx: Ctx, cd: CrossDomain, local: Address, remote: Address, to: Address,
                                        amount: nat, minGas: nat, extra: Data)
    requires Sane(w)
    ensures FairRun(w, Initiate(w, ctx, cd, local, remote, to, amount, minGas, extra), ctx.to)
  {
    var r := Initiate(w, ctx, cd, local, remote, to, amount, minGas, extra);
    if r.end.Accepts? {
      var e := DebitToken(w, ctx.sender, TokenByL2(w, local).value, amount);
      DebitTokenFair(w, ctx.sender, TokenByL2(w, local).value, amount, ctx.to);
      var logs := [Logged(local, Transferred(ctx.sender, NOBODY, amount)),
                   Logged(L2_BRIDGE, Initiated(local, remote, ctx.sender, to, amount, extra))];
      NoWithdrawals(logs);
      SendFair(e.w, ctx, logs, cd, cd.l1Bridge, encodeFinalizeERC20(remote, local, ctx.sender, to, amount, extra), minGas,
               ctx.to);
      FairTrans(w, e.w, r.w, 0, ValueOut(r.out), ctx.to);
    }
  }

  lemma {:induction false} L2BridgeFair(w: World, ctx: Ctx)
    requires Sane(w)
    ensures FairRun(w, L2BridgeAdvance(w, ctx), ctx.to)
  {
    var call := decodeL2Bridge(ctx.data);
    if w.pair.Some? && (call.BridgeERC20? || call.BridgeERC20To?) {
      var to := if call.BridgeERC20To? then call.to else ctx.sender;
      InitiateFair(w, ctx, w.pair.value, call.local, call.remote, to, call.amount, call.minGas, call.extra);
    }
  }

  /** Who a relayed call pays out of the messenger's balance, if anyone. */
  function Payee(m: CrossDomainMessage): (a: Option<Address>) {
    var call := decodeL2Bridge(m.message);
    if m.target != L2_BRIDGE then Some(m.target)
    else if call.FinalizeETH? then Some(call.to)
    else None
  }

  /** A relayed call that goes through is one payment of the message's value, or one token deposit. */
  lemma {:induction false} DispatchIs(w: World, m: CrossDomainMessage, cd: CrossDomain)
    requires Dispatch(w, m, cd).end.Accepts?
    ensures var r, call := Dispatch(w, m, cd), decodeL2Bridge(m.message);
      && (forall i :: 0 <= i < |r.out| ==> !r.out[i].Withdrawn?)
      && (if Payee(m).Some? then MoveEther(w, MESSENGER, Payee(m).value, m.value) == Did(r.w)
          else call.FinalizeERC20? && MintToken(w, call.remote, call.to, call.amount) == Did(r.w))
  {
  }

  /** A relayed call that goes through spends no more of the messenger's ether than its message carries. */
  lemma {:induction false} DispatchFair(w: World, m: CrossDomainMessage, cd: CrossDomain)
    requires Sane(w) && Dispatch(w, m, cd).end.Accepts?
    ensures var r := Dispatch(w, m, cd);
      && Fair(w, r.w, 0, MESSENGER) && ValueOut(r.out) == 0
      && AccountOf(r.w, MESSENGER).balance >= AccountOf(w, MESSENGER).balance - m.value
  {
    var r, call := Dispatch(w, m, cd), decodeL2Bridge(m.message);
    DispatchIs(w, m, cd);
    NoWithdrawals(r.out);
    if Payee(m).Some? {
      MoveFair(w, MESSENGER, Payee(m).value, m.value);
    } else {
      MintFair(w, call.remote, call.to, call.amount, MESSENGER);
    }
  }

  /** A relayed call that fails leaves nothing in the output. */
  lemma {:induction false} FailedDispatchIsSilent(w: World, m: CrossDomainMessage, cd: CrossDomain)
    ensures var r := Dispatch(w, m, cd); r.end.Accepts? || (r.end.Throws? && r.out == [])
  {
  }
}
