/**
  What an input means for the ledger: where it is routed, when it is accepted, and what an
  accepted transfer or withdrawal has done to every account and every holding.
 */
module GuestOutcomes {
  import opened Options
  import opened ByteCodec
  import opened DriveSpec
  import opened LedgerSpec
  import opened LedgerLaws
  import opened Handlers
  import opened HandlerLaws
  import opened HoldingLaws
  import opened AcceptedCalls
  import opened GuestSpec
  import opened GuestLaws
  import opened Filtering

  // ------------------------------------------------------------------------ routing

  /** The addresses the runtime reserves. */
  predicate Reserved(a: Address) {
    a == REGISTRY || a == BRIDGE || a == CONFIG || a == L1_BLOCK || a == MESSENGER || a == L2_BRIDGE || a == MESSAGE_PASSER
  }

  lemma {:induction false} ReservedApart()
    ensures REGISTRY != BRIDGE && REGISTRY != CONFIG && BRIDGE != CONFIG
    ensures L1_BLOCK != MESSENGER && L1_BLOCK != L2_BRIDGE && L1_BLOCK != MESSAGE_PASSER
    ensures MESSENGER != L2_BRIDGE && MESSENGER != MESSAGE_PASSER && L2_BRIDGE != MESSAGE_PASSER
    ensures L1_BLOCK != REGISTRY && MESSENGER != REGISTRY && L2_BRIDGE != REGISTRY && MESSAGE_PASSER != REGISTRY
    ensures L1_BLOCK != BRIDGE && MESSENGER != BRIDGE && L2_BRIDGE != BRIDGE && MESSAGE_PASSER != BRIDGE
    ensures L1_BLOCK != CONFIG && MESSENGER != CONFIG && L2_BRIDGE != CONFIG && MESSAGE_PASSER != CONFIG
  {
    assert REGISTRY[19] == 0x00 && BRIDGE[19] == 0x01 && CONFIG[19] == 0x02;
    assert MESSENGER[19] == 0x07 && L2_BRIDGE[19] == 0x10 && L1_BLOCK[19] == 0x15 && MESSAGE_PASSER[19] == 0x16;
  }

  /** A deposit from a registered portal, or a call to the application's own address. */
  predicate ToReceiver(w: World, ctx: Ctx) {
    ctx.to == ctx.appContract || (ctx.isDeposit && ctx.sender in w.portals)
  }

  /** Each reserved address has its own contract; the rest is for applications, then deposits, then known tokens' facades. */
  lemma {:induction false} RoutedExactly(w: World, ctx: Ctx)
    ensures var h, free := Route(w, ctx), !Reserved(ctx.to);
      && (h == Some(RegistryAt) <==> ctx.to == REGISTRY) && (h == Some(BridgeAt) <==> ctx.to == BRIDGE)
      && (h == Some(ConfigAt) <==> ctx.to == CONFIG) && (h == Some(L1BlockAt) <==> ctx.to == L1_BLOCK)
      && (h == Some(MessengerAt) <==> ctx.to == MESSENGER) && (h == Some(L2BridgeAt) <==> ctx.to == L2_BRIDGE)
      && (h == Some(PasserAt) <==> ctx.to == MESSAGE_PASSER)
      && (h == Some(AppAt) <==> free && isApp(ctx.to))
      && (h == Some(PortalAt) <==> free && !isApp(ctx.to) && ToReceiver(w, ctx))
      && (h == Some(FacadeAt) <==> free && !isApp(ctx.to) && !ToReceiver(w, ctx) && TokenByL2(w, ctx.to).Some?)
      && (h.None? <==> free && !isApp(ctx.to) && !ToReceiver(w, ctx) && TokenByL2(w, ctx.to).None?)
  {
    ReservedApart();
  }

  // -------------------------------------------------------------------- one dispatch

  /** Ether is taken in only by bridge, messenger, passer, receiver, payable applications and plain accounts. */
  ghost predicate TakesValue(w: World, ctx: Ctx) {
    || ctx.to == BRIDGE || ctx.to == MESSENGER || ctx.to == MESSAGE_PASSER
    || (!Reserved(ctx.to) &&
        if isApp(ctx.to) then appPayable(ctx.to) else ToReceiver(w, ctx) || TokenByL2(w, ctx.to).None?)
  }

  lemma {:induction false} DispatchIs(w: World, ctx: Ctx)
    requires Dispatched(w, ctx).end.Accepts?
    ensures var e := MoveEther(w, ctx.sender, ctx.to, ctx.value);
      && e.Did?
      && var h := Route(e.w, ctx);
         if h.None? then Dispatched(w, ctx) == Ran(e.w, [], Accepts)
         else Dispatched(w, ctx) == Handle(h.value, e.w, ctx) && (ctx.value > 0 ==> Payable(h.value, ctx.to))
  {
  }

  lemma {:induction false} PayableExactly(w: World, ctx: Ctx)
    ensures Route(w, ctx).None? || Payable(Route(w, ctx).value, ctx.to) <==> TakesValue(w, ctx)
  {
    RoutedExactly(w, ctx);
    var h := Route(w, ctx);
    if h.Some? {
      match h.value
      case RegistryAt => ReservedApart();
      case ConfigAt => ReservedApart();
      case L1BlockAt => ReservedApart();
      case L2BridgeAt => ReservedApart();
      case _ =>
    }
  }

  lemma {:induction false} SameRoute(w: World, x: World, ctx: Ctx)
    requires OnlyAccounts(w, x)
    ensures Route(w, ctx) == Route(x, ctx) && (TakesValue(w, ctx) <==> TakesValue(x, ctx))
  {
    assert x.view.tokens == w.view.tokens && x.portals == w.portals;
  }

  /** A dispatch that is accepted moved the value from sender to recipient first, and then ran what stands there, if anything. */
  lemma {:induction false} DispatchMoves(w: World, ctx: Ctx) returns (x: World)
    requires Sane(w) && Dispatched(w, ctx).end.Accepts?
    ensures Sane(x) && EtherPassed(w, x, ctx.sender, ctx.to, ctx.value) && (ctx.value > 0 ==> TakesValue(w, ctx))
    ensures var h := Route(w, ctx);
      h == Route(x, ctx) && Dispatched(w, ctx) == if h.None? then Ran(x, [], Accepts) else Handle(h.value, x, ctx)
  {
    DispatchIs(w, ctx);
    x := MoveEther(w, ctx.sender, ctx.to, ctx.value).w;
    MoveFair(w, ctx.sender, ctx.to, ctx.value);
    MovePasses(w, ctx.sender, ctx.to, ctx.value);
    SameRoute(w, x, ctx);
    PayableExactly(x, ctx);
  }

  // ----------------------------------------------------------------------- one input

  /** What is asked of a signed transaction before anything moves. */
  ghost predicate Proper(s: Setup, w: World, i: Input)
    requires i.Signed?
  {
    && i.to.Some? && i.signer.Some? && !IsZero(i.signer.value)
    && (i.chainId == None || i.chainId == Some(s.chainId))
    && i.nonce == AccountOf(w, i.signer.value).nonce
    && w.fee + i.value <= AccountOf(w, i.signer.value).balance
  }

  lemma {:induction false} SignedIs(s: Setup, w: World, b: Block, i: Input)
    requires i.Signed?
    ensures Advance(s, w, b, i) ==
      if !Proper(s, w, i) then (w, REJECTED)
      else Finish(w, w, Dispatched(w, SignedCtx(s, b, i)), Some(GuestSpec.Charged.Charged(i.signer.value, w.fee)))
  {
    assert Proper(s, w, i) <==> Admitted(s, w, i);
  }

  lemma {:induction false} FinishExactly(w: World, r: Ran, c: GuestSpec.Charged)
    ensures Finish(w, w, r, Some(c)).1.accept <==> !r.end.Rejects? && Charge(if Kept(r) then r.w else w, c.who, c.fee).Did?
  {
  }

  /**
    A signed transaction is accepted exactly if it names this chain or none, verifies,
    carries its sender's next nonce and can pay fee and value, its handler does not reject
    it, and the charge can be written.
   */
  lemma {:induction false} AcceptedExactly(s: Setup, w: World, b: Block, i: Input)
    requires i.Signed?
    ensures Advance(s, w, b, i).1.accept <==>
      && Proper(s, w, i)
      && var r := Dispatched(w, SignedCtx(s, b, i));
         !r.end.Rejects? && Charge(if Kept(r) then r.w else w, i.signer.value, w.fee).Did?
  {
    SignedIs(s, w, b, i);
    if Proper(s, w, i) {
      FinishExactly(w, Dispatched(w, SignedCtx(s, b, i)), GuestSpec.Charged.Charged(i.signer.value, w.fee));
    }
  }

  lemma {:induction false} FinishSettles(w: World, r: Ran, c: GuestSpec.Charged)
    requires Finish(w, w, r, Some(c)).1.outcome.Accepted?
    ensures var (x, reply) := Finish(w, w, r, Some(c));
      r.end.Accepts? && Billed(r.w, x, c.who, c.fee) && reply.out == r.out && reply.accept
  {
    if r.end.Accepts? { ChargeBills(r.w, c.who, c.fee); }
  }

  /** An accepted outcome: the ledger the handler left, charged for, and exactly what the handler emitted. */
  lemma {:induction false} AcceptedSettles(s: Setup, w: World, b: Block, i: Input)
    requires i.Signed? && Advance(s, w, b, i).1.outcome.Accepted?
    ensures Proper(s, w, i)
    ensures var r, (x, reply) := Dispatched(w, SignedCtx(s, b, i)), Advance(s, w, b, i);
      r.end.Accepts? && Billed(r.w, x, i.signer.value, w.fee) && reply.out == r.out && reply.accept
  {
    SignedIs(s, w, b, i);
    FinishSettles(w, Dispatched(w, SignedCtx(s, b, i)), GuestSpec.Charged.Charged(i.signer.value, w.fee));
  }

  /** Value moved, holdings moved, and the charge: together. */
  lemma {:induction false} TransferAddsUp(w: World, mid: World, y: World, x: World, id: nat, me: Address, to: Address, n: nat,
                                          at: Address)
    requires EtherPassed(w, mid, me, at, 0) && TokensPassed(mid, y, id, me, to, n) && HoldingsOnly(mid, y)
    requires Billed(y, x, me, w.fee)
    ensures TokensPassed(w, x, id, me, to, n)
    ensures forall a: Address :: AccountOf(x, a).balance == AccountOf(w, a).balance - Part(a == me, w.fee)
    ensures AccountOf(x, me).nonce == Wrap(AccountOf(w, me).nonce + 1, Pow256(NonceBytes(w.geo)))
  {
    assert mid.view.holdings == w.view.holdings && x.view.holdings == y.view.holdings && y.geo == w.geo;
    forall i: nat, b: Address ensures HoldingOf(x.view, i, b) ==
      HoldingOf(w.view, i, b) - Part(i == id && b == me, n) + Part(i == id && b == to, n)
    {
      assert HoldingOf(x.view, i, b) == HoldingOf(y.view, i, b) && HoldingOf(mid.view, i, b) == HoldingOf(w.view, i, b);
    }
    forall a: Address ensures AccountOf(x, a).balance == AccountOf(w, a).balance - Part(a == me, w.fee) {
      assert AccountOf(y, a) == AccountOf(mid, a);
    }
  }

  /** Nothing sends ether along to a facade. */
  lemma {:induction false} FacadeTakesNone(w: World, ctx: Ctx)
    requires Route(w, ctx) == Some(FacadeAt)
    ensures TokenByL2(w, ctx.to).Some? && !TakesValue(w, ctx)
  {
    RoutedExactly(w, ctx);
  }

  /** A dispatch to a facade that is accepted is one transfer, and brings no ether. */
  lemma {:induction false} FacadeDispatch(w: World, ctx: Ctx) returns (mid: World)
    requires Sane(w) && Dispatched(w, ctx).end.Accepts? && Route(w, ctx) == Some(FacadeAt)
    ensures var r, id, call := Dispatched(w, ctx), TokenByL2(w, ctx.to), decodeFacade(ctx.data);
      && id.Some? && call.Transfer? && ctx.value == 0 && EtherPassed(w, mid, ctx.sender, ctx.to, 0)
      && TokensPassed(mid, r.w, id.value, ctx.sender, call.to, call.value) && HoldingsOnly(mid, r.w)
      && r.out == [Logged(ctx.to, Transferred(ctx.sender, call.to, call.value))]
  {
    mid := DispatchMoves(w, ctx);
    FacadeTakesNone(w, ctx);
    assert Dispatched(w, ctx) == FacadeAdvance(mid, ctx);
    TransferPasses(mid, ctx);
    assert mid.view.tokens == w.view.tokens;
  }

  /**
    A signed token transfer that is accepted: the holding passed from signer to recipient,
    the signer paid the fee and used one nonce, and no other holding or account changed.
   */
  lemma {:induction false} TransferSettles(s: Setup, w: World, b: Block, i: Input, to: Address, n: nat)
    requires Sane(w) && i.Signed? && Advance(s, w, b, i).1.outcome.Accepted?
    requires i.to.Some? && i.signer.Some? && Route(w, SignedCtx(s, b, i)) == Some(FacadeAt)
    requires decodeFacade(i.data) == Transfer(to, n)
    ensures var (x, reply), me := Advance(s, w, b, i), i.signer.value;
      && TokenByL2(w, i.to.value).Some? && TokensPassed(w, x, TokenByL2(w, i.to.value).value, me, to, n)
      && i.value == 0 && (forall a: Address :: AccountOf(x, a).balance == AccountOf(w, a).balance - Part(a == me, w.fee))
      && AccountOf(x, me).nonce == Wrap(i.nonce + 1, Pow256(NonceBytes(w.geo)))
      && reply.out == [Logged(i.to.value, Transferred(me, to, n))]
  {
    var ctx := SignedCtx(s, b, i);
    AcceptedSettles(s, w, b, i);
    var mid := FacadeDispatch(w, ctx);
    TransferAddsUp(w, mid, Dispatched(w, ctx).w, Advance(s, w, b, i).0, TokenByL2(w, i.to.value).value, i.signer.value,
                   to, n, i.to.value);
  }

  lemma {:induction false} WithdrawalAddsUp(w: World, mid: World, y: World, x: World, me: Address, at: Address, n: nat)
    requires EtherPassed(w, mid, me, at, n) && EtherTaken(mid, y, at, n) && Billed(y, x, me, w.fee)
    ensures forall a: Address :: AccountOf(x, a).balance == AccountOf(w, a).balance - Part(a == me, n + w.fee)
    ensures AccountOf(x, me).nonce == Wrap(AccountOf(w, me).nonce + 1, Pow256(NonceBytes(w.geo)))
  {
    forall a: Address ensures AccountOf(x, a).balance == AccountOf(w, a).balance - Part(a == me, n + w.fee) {
      assert AccountOf(y, a).balance == AccountOf(mid, a).balance - Part(a == at, n);
    }
  }

  /**
    A signed withdrawal of ether that is accepted: the signer is poorer by value and fee
    and used one nonce, no other account changed, and one withdrawal of that value to the
    address asked for was emitted.
   */
  lemma {:induction false} WithdrawalSettles(s: Setup, w: World, b: Block, i: Input, to: Address)
    requires Sane(w) && i.Signed? && Advance(s, w, b, i).1.outcome.Accepted?
    requires i.to == Some(BRIDGE) && i.signer.Some? && decodeBridge(i.data) == WithdrawEther(to)
    ensures var (x, reply), me := Advance(s, w, b, i), i.signer.value;
      && i.value > 0
      && (forall a: Address :: AccountOf(x, a).balance == AccountOf(w, a).balance - Part(a == me, i.value + w.fee))
      && AccountOf(x, me).nonce == Wrap(i.nonce + 1, Pow256(NonceBytes(w.geo)))
      && reply.out == FirstLeaving(SignedCtx(s, b, i), to, i.value, DEFAULT_GAS, [])
  {
    var ctx := SignedCtx(s, b, i);
    AcceptedSettles(s, w, b, i);
    var mid := DispatchMoves(w, ctx);
    RoutedExactly(w, ctx);
    EtherLeaves(mid, ctx, to);
    WithdrawalAddsUp(w, mid, Dispatched(w, ctx).w, Advance(s, w, b, i).0, i.signer.value, BRIDGE, i.value);
  }

  // ------------------------------------------------------------------ reverts and faults

  function ReportsOf(out: seq<Emission>): (r: seq<Option<Emission>>)
    ensures |r| == |out| && forall k :: 0 <= k < |out| ==> r[k] == if out[k].Report? then Some(out[k]) else None
  {
    seq(|out|, k requires 0 <= k < |out| => if out[k].Report? then Some(out[k]) else None)
  }

  /** What survives a revert is exactly the reports, in order. */
  lemma {:induction false} ReportsInOrder(out: seq<Emission>)
    ensures Gathers(ReportsOf(out), Reports(out))
    decreases |out|
  {
    if out != [] {
      var init := out[..|out| - 1];
      ReportsInOrder(init);
      GathersNext(ReportsOf(init), Reports(init), ReportsOf(out), Reports(out));
    }
  }

  /** Why a run was undone, where it was. */
  function Undone(end: Ending): (why: Option<string>) {
    if end.Reverts? || end.Throws? then Some(end.why) else None
  }

  /**
    A charged run that is undone leaves the mark's ledger with only the charge on it, and
    answers with the reports made and the reason; one that faults keeps its ledger and its
    output, and adds the reason.
   */
  lemma {:induction false} FinishUndoes(w: World, r: Ran, c: GuestSpec.Charged) returns (kept: seq<Emission>)
    requires Finish(w, w, r, Some(c)).1.accept && !r.end.Accepts?
    ensures Gathers(ReportsOf(r.out), kept)
    ensures var (x, reply) := Finish(w, w, r, Some(c));
      if r.end.Fails? then Billed(r.w, x, c.who, c.fee) && reply.out == r.out + [Report(FailTag, r.end.why)]
      else
        && Undone(r.end).Some? && Billed(w, x, c.who, c.fee)
        && reply.out == kept + [Report(RevertTag, Undone(r.end).value)]
  {
    kept := Reports(r.out);
    ReportsInOrder(r.out);
    if r.end.Fails? { ChargeBills(r.w, c.who, c.fee); } else { ChargeBills(w, c.who, c.fee); }
  }

  /** A signed transaction that is accepted but not carried out: its sender pays, and the reply says why. */
  lemma {:induction false} UndoneStillPays(s: Setup, w: World, b: Block, i: Input) returns (kept: seq<Emission>)
    requires i.Signed? && Advance(s, w, b, i).1.accept && !Advance(s, w, b, i).1.outcome.Accepted?
    ensures Proper(s, w, i)
    ensures var r, (x, reply) := Dispatched(w, SignedCtx(s, b, i)), Advance(s, w, b, i);
      && Gathers(ReportsOf(r.out), kept)
      && if r.end.Fails? then Billed(r.w, x, i.signer.value, w.fee) && reply.out == r.out + [Report(FailTag, r.end.why)]
         else
           && Undone(r.end).Some? && Billed(w, x, i.signer.value, w.fee)
           && reply.out == kept + [Report(RevertTag, Undone(r.end).value)]
  {
    SignedIs(s, w, b, i);
    kept := FinishUndoes(w, Dispatched(w, SignedCtx(s, b, i)), GuestSpec.Charged.Charged(i.signer.value, w.fee));
  }

  // ------------------------------------------------------------------------- deposits

  lemma {:induction false} FinishFree(w: World, mark: World, r: Ran)
    ensures Finish(w, mark, r, None).1.accept <==> !r.end.Rejects? && !r.end.Throws?
    ensures Finish(w, mark, r, None).1.accept ==> Finish(w, mark, r, None).0 == if Kept(r) then r.w else mark
  {
  }

  /**
    A deposit is accepted exactly if its mint can be written and its call, where it makes
    one, neither rejects nor throws.  A call that reverts leaves the mint and nothing else.
   */
  lemma {:induction false} DepositedExactly(s: Setup, w: World, b: Block, i: Input, e: Effect)
    requires i.Deposit? && e == CreditEther(w, i.from, i.mint)
    ensures Advance(s, w, b, i).1.accept <==>
      && e.Did?
      && (i.to.Some? ==>
            var end := Dispatched(e.w, DepositCtx(s, b, i)).end; !end.Rejects? && !end.Throws?)
    ensures Advance(s, w, b, i).1.accept ==>
      var called := i.to.Some? && Kept(Dispatched(e.w, DepositCtx(s, b, i)));
      Advance(s, w, b, i).0 == if called then Dispatched(e.w, DepositCtx(s, b, i)).w else e.w
  {
    if e.Did? && i.to.Some? { FinishFree(w, e.w, Dispatched(e.w, DepositCtx(s, b, i))); }
  }

  /** Nothing sent to the registry address is ever carried out. */
  lemma {:induction false} RegistryRefuses(w: World, ctx: Ctx)
    requires ctx.to == REGISTRY
    ensures !Dispatched(w, ctx).end.Accepts?
  {
    if Dispatched(w, ctx).end.Accepts? {
      DispatchIs(w, ctx);
      RoutedExactly(MoveEther(w, ctx.sender, ctx.to, ctx.value).w, ctx);
    }
  }
}
