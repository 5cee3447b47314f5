/**
  What a call to a built-in contract means when it is accepted, and when it is: who may
  make it, whose ether and tokens it moves, and exactly what it emits.
 */
module AcceptedCalls {
  import opened Options
  import opened ByteCodec
  import opened DriveSpec
  import opened UndoLog
  import opened LedgerSpec
  import opened LedgerLaws
  import opened Handlers
  import opened HandlerLaws
  import opened HoldingLaws

  /** The first withdrawal of an input, from its sender, and the event that announces it. */
  function FirstLeaving(ctx: Ctx, target: Address, value: nat, gas: nat, data: Data): (r: seq<Emission>) {
    var m := Withdrawal(withdrawalNonce(ctx.inputIndex, 0), ctx.sender, target, value, gas, data);
    [Withdrawn(m), Logged(MESSAGE_PASSER, MessagePassed(m))]
  }

  /** The registered token whose facade has the address, the latest if there are several. */
  ghost predicate TokenAt(w: World, id: nat, l2: Address) {
    && id < |w.view.tokens| && l2TokenAddress(w.view.tokens[id].address) == l2
    && forall k :: id < k < |w.view.tokens| ==> l2TokenAddress(w.view.tokens[k].address) != l2
  }

  lemma {:induction false} FoundToken(w: World, l2: Address)
    requires TokenByL2(w, l2).Some?
    ensures TokenAt(w, TokenByL2(w, l2).value, l2)
  {
    FacadesName(w.view.tokens, l2);
  }

  // ------------------------------------------------------------------- bridge, passer

  /** Ether leaves by the bridge exactly if value came with the call and the bridge has it: one withdrawal of that value. */
  lemma {:induction false} EtherLeaves(w: World, ctx: Ctx, to: Address)
    requires Sane(w) && decodeBridge(ctx.data) == WithdrawEther(to)
    ensures var r := BridgeAdvance(w, ctx);
      && (r.end.Accepts? <==> 0 < ctx.value <= AccountOf(w, ctx.to).balance)
      && (r.end.Accepts? ==>
            EtherTaken(w, r.w, ctx.to, ctx.value) && r.out == FirstLeaving(ctx, to, ctx.value, DEFAULT_GAS, []))
  {
    DebitExactly(w, ctx.to, ctx.value);
    if BridgeAdvance(w, ctx).end.Accepts? { DebitTakes(w, ctx.to, ctx.value); }
  }

  /** Tokens leave by the bridge exactly if no standard bridge holds them, the token is known and the sender has them. */
  lemma {:induction false} TokensLeave(w: World, ctx: Ctx, l2: Address, to: Address, n: nat)
    requires Sane(w) && decodeBridge(ctx.data) == WithdrawERC20(l2, to, n)
    ensures var r, id := BridgeAdvance(w, ctx), TokenByL2(w, l2);
      && (r.end.Accepts? <==> w.pair.None? && id.Some? && (n == 0 || HoldingOf(w.view, id.value, ctx.sender) >= n))
      && (r.end.Accepts? ==>
            && TokenAt(w, id.value, l2) && HoldingMoved(w, r.w, id.value, ctx.sender, 0 - n) && HoldingsOnly(w, r.w)
            && r.out == [Voucher(w.view.tokens[id.value].address, encodeTransfer(to, n)),
                         Logged(l2, Transferred(ctx.sender, NOBODY, n))])
  {
    var r, id := BridgeAdvance(w, ctx), TokenByL2(w, l2);
    if id.Some? {
      FoundToken(w, l2);
      DebitTokenExactly(w, ctx.sender, id.value, n);
      if r.end.Accepts? { DebitTokenMoves(w, ctx.sender, id.value, n); }
    }
  }

  /** The message passer burns what came with the call and emits one withdrawal of it, to the sender or as the call says. */
  lemma {:induction false} PasserLeaves(w: World, ctx: Ctx)
    requires Sane(w)
    ensures var r, call := PasserAdvance(w, ctx), decodePasser(ctx.data);
      && (r.end.Accepts? <==>
            (ctx.data == [] || call.InitiateWithdrawal?) && (ctx.value == 0 || AccountOf(w, ctx.to).balance >= ctx.value))
      && (r.end.Accepts? ==>
            && EtherTaken(w, r.w, ctx.to, ctx.value)
            && r.out == if ctx.data == [] then FirstLeaving(ctx, ctx.sender, ctx.value, DEFAULT_GAS, [])
                        else FirstLeaving(ctx, call.target, ctx.value, call.gasLimit, call.data))
  {
    var r, call := PasserAdvance(w, ctx), decodePasser(ctx.data);
    DebitExactly(w, ctx.to, ctx.value);
    if r.end.Accepts? {
      DebitTakes(w, ctx.to, ctx.value);
      }
  }

  // ------------------------------------------------------------------------- facades

  /**
    A transfer: what the sender held passes to the recipient and no other holding changes,
    the token being the one whose facade was called, and the one event says so.
   */
  lemma {:induction false} TransferPasses(w: World, ctx: Ctx)
    requires FacadeAdvance(w, ctx).end.Accepts?
    ensures var r, call, id := FacadeAdvance(w, ctx), decodeFacade(ctx.data), TokenByL2(w, ctx.to);
      && call.Transfer? && id.Some? && TokenAt(w, id.value, ctx.to)
      && HoldingOf(w.view, id.value, ctx.sender) >= call.value
      && TokensPassed(w, r.w, id.value, ctx.sender, call.to, call.value) && HoldingsOnly(w, r.w)
      && r.out == [Logged(ctx.to, Transferred(ctx.sender, call.to, call.value))]
  {
    var call, id := decodeFacade(ctx.data), TokenByL2(w, ctx.to).value;
    FoundToken(w, ctx.to);
    MovePassesTokens(w, ctx.sender, call.to, id, call.value);
  }

  /** A transfer is reverted where the sender does not have the tokens. */
  lemma {:induction false} UncoveredReverts(w: World, ctx: Ctx)
    requires Sane(w) && decodeFacade(ctx.data).Transfer? && TokenByL2(w, ctx.to).Some?
    requires HoldingOf(w.view, TokenByL2(w, ctx.to).value, ctx.sender) < decodeFacade(ctx.data).value
    ensures !FacadeAdvance(w, ctx).end.Accepts?
  {
    DebitTokenExactly(w, ctx.sender, TokenByL2(w, ctx.to).value, decodeFacade(ctx.data).value);
  }

  // ------------------------------------------------------------------ portal deposits

  /** A deposit of ether is accepted only from a registered portal, and passes on what its data says, to whom it says. */
  lemma {:induction false} EtherArrives(w: World, ctx: Ctx)
    requires Sane(w) && PortalAdvance(w, ctx).end.Accepts? && w.portals[ctx.sender] == PORTAL_ETHER
    ensures ctx.isDeposit && ctx.sender in w.portals && |ctx.data| >= 52
    ensures var r := PortalAdvance(w, ctx);
      EtherPassed(w, r.w, ctx.to, ctx.data[..20], FromBE(ctx.data[20..52])) && r.out == []
  {
    MovePasses(w, ctx.to, ctx.data[..20], FromBE(ctx.data[20..52]));
  }

  lemma {:induction false} TokenDepositIs(w: World, ctx: Ctx, l1: Address, to: Address, n: nat)
    requires |ctx.data| >= 72 && l1 == ctx.data[..20] && to == ctx.data[20..40] && n == FromBE(ctx.data[40..72])
    requires DepositTokens(w, ctx).end.Accepts?
    ensures var r := DepositTokens(w, ctx);
      MintToken(w, l1, to, n) == Did(r.w) && r.out == [Logged(l2TokenAddress(l1), Transferred(NOBODY, to, n))]
  {
  }

  lemma {:induction false} OnlyPortalsDeposit(w: World, ctx: Ctx)
    requires PortalAdvance(w, ctx).end.Accepts?
    ensures ctx.isDeposit && ctx.sender in w.portals
    ensures w.portals[ctx.sender] != PORTAL_ETHER ==>
      |ctx.data| >= 72 && PortalAdvance(w, ctx) == DepositTokens(w, ctx)
  {
  }

  /** A deposit of tokens is accepted only from a registered portal, and mints what its data says, to whom it says. */
  lemma {:induction false} TokensArrive(w: World, ctx: Ctx, l1: Address, to: Address, n: nat) returns (id: nat)
    requires PortalAdvance(w, ctx).end.Accepts? && w.portals[ctx.sender] != PORTAL_ETHER
    requires |ctx.data| >= 72 ==> l1 == ctx.data[..20] && to == ctx.data[20..40] && n == FromBE(ctx.data[40..72])
    ensures ctx.isDeposit && ctx.sender in w.portals && |ctx.data| >= 72
    ensures var r := PortalAdvance(w, ctx);
      && Known(w, r.w, l1, id) && HoldingMoved(w, r.w, id, to, n)
      && (forall a: Address :: AccountOf(r.w, a) == AccountOf(w, a)) && r.w == w.(view := r.w.view, supply := r.w.supply)
      && r.out == [Logged(l2TokenAddress(l1), Transferred(NOBODY, to, n))]
  {
    OnlyPortalsDeposit(w, ctx);
    TokenDepositIs(w, ctx, l1, to, n);
    id := MintMoves(w, l1, to, n);
  }

  /** The attributes of an L1 block are taken exactly when complete; they lie outside the ledger. */
  lemma {:induction false} AttributesTaken(w: World, ctx: Ctx)
    ensures L1BlockAdvance(w, ctx).end.Accepts? <==> decodeAttributes(ctx.data) == Some(true)
    ensures L1BlockAdvance(w, ctx).w == w && L1BlockAdvance(w, ctx).out == []
  {
  }

  // -------------------------------------------------------------------- configuration

  /** Only the owner configures, and each call changes what it names and says so. */
  lemma {:induction false} OwnerConfigures(w: World, ctx: Ctx)
    requires ConfigAdvance(w, ctx).end.Accepts?
    ensures ctx.sender == ctx.owner
    ensures var r := ConfigAdvance(w, ctx);
      match decodeConfig(ctx.data)
      case SetFee(fee) => r.w == w.(fee := fee) && r.out == [Logged(CONFIG, FeeSet(fee))]
      case RegisterPortal(kind, portal) =>
        && (kind == PORTAL_ETHER || (kind == PORTAL_ERC20 && w.pair.None?))
        && r.w == w.(portals := w.portals[l1ToL2Alias(portal) := kind])
        && r.out == [Logged(CONFIG, PortalRegistered(kind, portal, l1ToL2Alias(portal)))]
      case RegisterMessenger(l1Messenger, l1Bridge) =>
        && (forall a :: a in w.portals ==> w.portals[a] != PORTAL_ERC20)
        && r.w == w.(pair := Some(CrossDomain(l1Messenger, l1ToL2Alias(l1Messenger), l1Bridge)))
        && r.out == [Logged(CONFIG, MessengerRegistered(l1Messenger, l1Bridge))]
      case RegisterTokenCall(l1, m) =>
        && TokenByL1(w, l1).None? && r.w.view.tokens == w.view.tokens + [Token(l1, TOKEN_WIDTH)]
        && r.w == w.(view := w.view.(tokens := r.w.view.tokens), metadata := w.metadata[|w.view.tokens| := m])
        && r.out == [Logged(CONFIG, TokenRegistered(l1, l2TokenAddress(l1), |w.view.tokens|))]
      case SetTokenMetadata(l1, m) =>
        && TokenByL1(w, l1).Some? && r.w == w.(metadata := w.metadata[TokenByL1(w, l1).value := m]) && r.out == []
      case _ => false
  {
  }

  // ---------------------------------------------------------------- the standard bridge

  /** The message that releases tokens on L1. */
  function Releasing(nonce: nat, cd: CrossDomain, call: L2BridgeCall, from: Address, to: Address): (m: CrossDomainMessage)
    requires call.BridgeERC20? || call.BridgeERC20To?
  {
    CrossDomainMessage(nonce, L2_BRIDGE, cd.l1Bridge, 0, call.minGas,
                       encodeFinalizeERC20(call.remote, call.local, from, to, call.amount, call.extra))
  }

  /** What bridging emits: the burn, the bridge's event, the withdrawal carrying the message, the messenger's events. */
  function Bridged(nonce: nat, ctx: Ctx, cd: CrossDomain, call: L2BridgeCall, to: Address): (r: seq<Emission>)
    requires call.BridgeERC20? || call.BridgeERC20To?
  {
    var m := Releasing(nonce, cd, call, ctx.sender, to);
    var gas := baseGas(|m.message|, call.minGas);
    var wd := Withdrawal(withdrawalNonce(ctx.inputIndex, 0), MESSENGER, cd.l1Messenger, 0, gas, encodeRelay(m));
    [Logged(call.local, Transferred(ctx.sender, NOBODY, call.amount)),
     Logged(L2_BRIDGE, Initiated(call.local, call.remote, ctx.sender, to, call.amount, call.extra)),
     Withdrawn(wd), Logged(MESSAGE_PASSER, MessagePassed(wd)),
     Logged(MESSENGER, Sent(cd.l1Bridge, L2_BRIDGE, m.message, m.nonce, gas)),
     Logged(MESSENGER, SentExtension(L2_BRIDGE, 0))]
  }

  lemma {:induction false} SentIs(w: World, ctx: Ctx, cd: CrossDomain, call: L2BridgeCall, to: Address, logs: seq<Emission>)
    requires call.BridgeERC20? || call.BridgeERC20To?
    requires logs == [Logged(call.local, Transferred(ctx.sender, NOBODY, call.amount)),
                      Logged(L2_BRIDGE, Initiated(call.local, call.remote, ctx.sender, to, call.amount, call.extra))]
    ensures SendMessage(w, ctx, logs, cd, L2_BRIDGE, cd.l1Bridge,
                        encodeFinalizeERC20(call.remote, call.local, ctx.sender, to, call.amount, call.extra), call.minGas, 0) ==
      Ran(w.(msgNonce := w.msgNonce + 1), Bridged(versionedNonce(w.msgNonce), ctx, cd, call, to), Accepts)
  {
    assert Handlers.Withdrawals(logs[..1]) == 0 by { assert logs[..1][..0] == []; }
    assert Handlers.Withdrawals(logs) == 0;
  }

  /** The addresses are a registered pair, and the sender has what is to be burnt. */
  ghost predicate Bridgeable(w: World, call: L2BridgeCall, id: nat, who: Address)
    requires call.BridgeERC20? || call.BridgeERC20To?
  {
    && TokenAt(w, id, call.local) && w.view.tokens[id].address == call.remote
    && (call.amount == 0 || HoldingOf(w.view, id, who) >= call.amount)
  }

  /** What an accepted bridging does: burns the sender's tokens and sends one message under a fresh nonce. */
  ghost predicate Bridges(w: World, r: Ran, ctx: Ctx, cd: CrossDomain, call: L2BridgeCall, id: nat, to: Address)
    requires call.BridgeERC20? || call.BridgeERC20To?
  {
    && HoldingMoved(w, r.w, id, ctx.sender, 0 - call.amount)
    && HoldingsOnly(w, r.w.(msgNonce := w.msgNonce)) && r.w.msgNonce == w.msgNonce + 1
    && r.out == Bridged(versionedNonce(w.msgNonce), ctx, cd, call, to)
  }

  lemma {:induction false} InitiateExactly(w: World, ctx: Ctx, cd: CrossDomain, call: L2BridgeCall, to: Address)
    requires Sane(w) && (call.BridgeERC20? || call.BridgeERC20To?) && TokenByL2(w, call.local).Some?
    ensures var r := Initiate(w, ctx, cd, call.local, call.remote, to, call.amount, call.minGas, call.extra);
      var id := TokenByL2(w, call.local).value;
      (r.end.Accepts? <==> Bridgeable(w, call, id, ctx.sender)) && (r.end.Accepts? ==> Bridges(w, r, ctx, cd, call, id, to))
  {
    var id := TokenByL2(w, call.local).value;
    FoundToken(w, call.local);
    DebitTokenExactly(w, ctx.sender, id, call.amount);
    if Bridgeable(w, call, id, ctx.sender) {
      var x := DebitToken(w, ctx.sender, id, call.amount).w;
      DebitTokenMoves(w, ctx.sender, id, call.amount);
      var logs := [Logged(call.local, Transferred(ctx.sender, NOBODY, call.amount)),
                   Logged(L2_BRIDGE, Initiated(call.local, call.remote, ctx.sender, to, call.amount, call.extra))];
      SentIs(x, ctx, cd, call, to, logs);
    }
  }

  /**
    Bridging tokens out: exactly if a standard bridge is registered, the two addresses are
    a registered pair and the sender has the tokens.  They are burnt, and one message under
    a fresh nonce tells L1 to release them.
   */
  lemma {:induction false} TokensBridge(w: World, ctx: Ctx)
    requires Sane(w)
    ensures var r, call := L2BridgeAdvance(w, ctx), decodeL2Bridge(ctx.data);
      if r.end.Accepts? then
        && w.pair.Some? && (call.BridgeERC20? || call.BridgeERC20To?) && TokenByL2(w, call.local).Some?
        && var id := TokenByL2(w, call.local).value;
           && Bridgeable(w, call, id, ctx.sender)
           && Bridges(w, r, ctx, w.pair.value, call, id, if call.BridgeERC20To? then call.to else ctx.sender)
      else
        || w.pair.None? || !(call.BridgeERC20? || call.BridgeERC20To?) || TokenByL2(w, call.local).None?
        || !Bridgeable(w, call, TokenByL2(w, call.local).value, ctx.sender)
  {
    var call := decodeL2Bridge(ctx.data);
    if w.pair.Some? && (call.BridgeERC20? || call.BridgeERC20To?) && TokenByL2(w, call.local).Some? {
      InitiateExactly(w, ctx, w.pair.value, call, if call.BridgeERC20To? then call.to else ctx.sender);
    }
  }

  // --------------------------------------------------------------------- the messenger

  /** A message not seen before, brought by the L1 messenger's own deposit with the value it carries. */
  ghost predicate FirstDelivery(w: World, ctx: Ctx, m: CrossDomainMessage, cd: CrossDomain) {
    StatusOf(w, MessageHash(m)).None? && ctx.isDeposit && ctx.sender == cd.l1MessengerAliased && ctx.value == m.value
  }

  /** A message that failed before, tried again by anyone else, bringing nothing. */
  ghost predicate Retry(w: World, ctx: Ctx, m: CrossDomainMessage, cd: CrossDomain) {
    StatusOf(w, MessageHash(m)) == Some(Failed) && ctx.value == 0 && !(ctx.isDeposit && ctx.sender == cd.l1MessengerAliased)
  }

  /** A relay is taken up exactly as a first delivery or a retry of a version 1 message. */
  lemma {:induction false} RelayedExactly(w: World, ctx: Ctx)
    ensures MessengerAdvance(w, ctx).end.Accepts? <==>
      && w.pair.Some? && decodeRelay(ctx.data).Some?
      && var m := decodeRelay(ctx.data).value;
         nonceVersion(m.nonce) == 1 && (FirstDelivery(w, ctx, m, w.pair.value) || Retry(w, ctx, m, w.pair.value))
  {
    if w.pair.Some? && decodeRelay(ctx.data).Some? {
      var m, cd := decodeRelay(ctx.data).value, w.pair.value;
      var status := StatusOf(w, MessageHash(m));
      assert status.Some? ==> status.value.Successful? || status.value.Failed?;
      assert RelayRefusal(w, ctx, m, cd).None? <==>
        nonceVersion(m.nonce) == 1 && (FirstDelivery(w, ctx, m, cd) || Retry(w, ctx, m, cd));
    }
  }

  /** The relayed call is a payment of the message's value that the messenger can make. */
  ghost predicate Pays(w: World, m: CrossDomainMessage, to: Address) {
    MoveEther(w, MESSENGER, to, m.value).Did?
  }

  /** The relayed call goes through: a bare payment, or a deposit of ether or tokens from the L1 bridge. */
  ghost predicate GoesThrough(w: World, m: CrossDomainMessage, cd: CrossDomain) {
    var call := decodeL2Bridge(m.message);
    if m.target != L2_BRIDGE then m.message == [] && Pays(w, m, m.target)
    else
      && m.sender == cd.l1Bridge
      && if call.FinalizeETH? then call.amount == m.value && Pays(w, m, call.to)
         else
           && call.FinalizeERC20? && m.value == 0 && call.local == l2TokenAddress(call.remote)
           && MintToken(w, call.remote, call.to, call.amount).Did?
  }

  /** What the relayed call itself announces. */
  function Announced(m: CrossDomainMessage): (r: seq<Emission>) {
    var call := decodeL2Bridge(m.message);
    if m.target != L2_BRIDGE then []
    else if call.FinalizeETH? then [Logged(L2_BRIDGE, EthFinalized(call.from, call.to, call.amount, call.extra))]
    else if call.FinalizeERC20? then
      [Logged(call.local, Transferred(NOBODY, call.to, call.amount)),
       Logged(L2_BRIDGE, Finalized(call.local, call.remote, call.from, call.to, call.amount, call.extra))]
    else []
  }

  /** What a relayed call that goes through does to the ledger: the payment, or the mint. */
  ghost predicate Delivered(w: World, x: World, m: CrossDomainMessage) {
    var call := decodeL2Bridge(m.message);
    if m.target != L2_BRIDGE then EtherPassed(w, x, MESSENGER, m.target, m.value)
    else if call.FinalizeETH? then EtherPassed(w, x, MESSENGER, call.to, m.value)
    else
      && call.FinalizeERC20? && x == w.(view := x.view, supply := x.supply)
      && exists id: nat :: Known(w, x, call.remote, id) && HoldingMoved(w, x, id, call.to, call.amount)
  }

  lemma {:induction false} DispatchExactly(w: World, m: CrossDomainMessage, cd: CrossDomain)
    requires Sane(w)
    ensures var r := Dispatch(w, m, cd);
      && (r.end.Accepts? <==> GoesThrough(w, m, cd))
      && (r.end.Accepts? ==> Delivered(w, r.w, m) && r.out == Announced(m))
  {
    var r, call := Dispatch(w, m, cd), decodeL2Bridge(m.message);
    assert r.end.Accepts? <==> GoesThrough(w, m, cd);
    if r.end.Accepts? {
      DispatchIs(w, m, cd);
      if Payee(m).Some? {
        MovePasses(w, MESSENGER, Payee(m).value, m.value);
      } else {
        var id := MintMoves(w, call.remote, call.to, call.amount);
      }
    }
  }

  /**
    A relay that is taken up is marked successful exactly if its call goes through, and
    then the call has been made and announced; otherwise it is marked failed and nothing
    else has changed.
   */
  lemma {:induction false} RelayDelivers(w: World, ctx: Ctx)
    requires Sane(w) && MessengerAdvance(w, ctx).end.Accepts?
    ensures w.pair.Some? && decodeRelay(ctx.data).Some?
    ensures var r, m := MessengerAdvance(w, ctx), decodeRelay(ctx.data).value;
      var hash := MessageHash(m);
      if GoesThrough(w, m, w.pair.value) then
        && r.w.messages == w.messages[hash := Successful] && Delivered(w, r.w.(messages := w.messages), m)
        && r.out == Then(Announced(m), Logged(MESSENGER, Relayed(hash, false)))
      else
        && r.w == w.(messages := w.messages[hash := Failed])
        && r.out == [Logged(MESSENGER, Relayed(hash, true))]
  {
    var m := decodeRelay(ctx.data).value;
    var r, d, hash := MessengerAdvance(w, ctx), Dispatch(w, m, w.pair.value), MessageHash(m);
    DispatchExactly(w, m, w.pair.value);
    if d.end.Accepts? {
      DispatchFair(w, m, w.pair.value);
      assert r.w.(messages := w.messages) == d.w;
    }
  }
}
