/**
  The router as the guest runs it: it drives the journaled ledger, rolls back what an
  outcome drops, charges, and commits.  Every input ends in the world and with the reply
  the router over values gives, and with an empty journal.
 */
module GuestRouter {
  import opened Options
  import opened DriveSpec
  import opened UndoLog
  import opened LedgerSpec
  import opened Handlers
  import opened GuestSpec
  import opened GuestLedger
  import opened GuestHandlers

  // -------------------------------------------------------------- application handlers

  /** A ledger call that moves value. */
  predicate MovesValue(op: LedgerOp) {
    op.CreditEtherOp? || op.DebitEtherOp? || op.CreditTokenOp? || op.DebitTokenOp? || op.RegisterTokenOp?
  }

  method ApplyMove(ledger: Ledger, op: LedgerOp)
    requires MovesValue(op)
    requires ledger.Valid()
    modifies ledger, ledger.drive, ledger.drive.store.data, ledger.journal
    ensures ledger.Valid() && ledger.Seen() == Apply(old(ledger.Seen()), op)
    ensures Undoes(old(ledger.Now()), old(ledger.Log()), ledger.Now(), ledger.Log())
  {
    match op
    case CreditEtherOp(a, n) => var t := ledger.CreditEther(a, n);
    case DebitEtherOp(a, n) => var t := ledger.DebitEther(a, n);
    case CreditTokenOp(a, id, n) => var t := ledger.CreditToken(a, id, n);
    case DebitTokenOp(a, id, n) => var t := ledger.DebitToken(a, id, n);
    case RegisterTokenOp(l1, m) => var t, id := ledger.RegisterToken(l1, m);
  }

  method ApplySetting(ledger: Ledger, op: LedgerOp)
    requires !MovesValue(op)
    requires ledger.Valid()
    modifies ledger, ledger.drive, ledger.drive.store.data, ledger.journal
    ensures ledger.Valid() && ledger.Seen() == Apply(old(ledger.Seen()), op)
    ensures Undoes(old(ledger.Now()), old(ledger.Log()), ledger.Now(), ledger.Log())
  {
    match op
    case MetadataOp(id, m) => ledger.SetMetadata(id, m);
    case PortalOp(p, kind) => ledger.RegisterPortal(p, kind);
    case FeeOp(fee) => ledger.SetFee(fee);
    case PairOp(cd) => ledger.RegisterCrossDomain(cd);
    case NonceOp => var n := ledger.NextMessageNonce();
    case StatusOp(h, s) => ledger.SetMessageStatus(h, s);
  }

  /** One ledger call of an application handler; a throw is its own to catch. */
  method ApplyOp(ledger: Ledger, op: LedgerOp)
    requires ledger.Valid()
    modifies ledger, ledger.drive, ledger.drive.store.data, ledger.journal
    ensures ledger.Valid() && ledger.Seen() == Apply(old(ledger.Seen()), op)
    ensures Undoes(old(ledger.Now()), old(ledger.Log()), ledger.Now(), ledger.Log())
  {
    if MovesValue(op) {
      ApplyMove(ledger, op);
    } else {
      ApplySetting(ledger, op);
    }
  }

  method RunApp(ledger: Ledger, p: Program)
    requires ledger.Valid()
    modifies ledger, ledger.drive, ledger.drive.store.data, ledger.journal
    ensures ledger.Valid() && ledger.Seen() == ApplyAll(old(ledger.Seen()), p.ops)
    ensures Undoes(old(ledger.Now()), old(ledger.Log()), ledger.Now(), ledger.Log())
  {
    ghost var start, now, log := ledger.Seen(), ledger.Now(), ledger.Log();
    UndoesNothing(now, log);
    for i := 0 to |p.ops|
      invariant ledger.Valid() && ledger.Seen() == ApplyAll(start, p.ops[..i])
      invariant Undoes(now, log, ledger.Now(), ledger.Log())
    {
      ApplyNext(start, p.ops, i);
      ApplyOneMore(ledger, p.ops[i], now, log);
    }
    assert p.ops[..|p.ops|] == p.ops;
  }

  /** One more call of a program, undoable with those before it. */
  method ApplyOneMore(ledger: Ledger, op: LedgerOp, ghost now: State, ghost log: seq<Undo>)
    requires ledger.Valid() && Undoes(now, log, ledger.Now(), ledger.Log())
    modifies ledger, ledger.drive, ledger.drive.store.data, ledger.journal
    ensures ledger.Valid() && ledger.Seen() == Apply(old(ledger.Seen()), op)
    ensures Undoes(now, log, ledger.Now(), ledger.Log())
  {
    ghost var mid, entries := ledger.Now(), ledger.Log();
    ApplyOp(ledger, op);
    UndoesTrans(now, log, mid, entries, ledger.Now(), ledger.Log());
  }

  lemma {:induction false} ApplyNext(w: World, ops: seq<LedgerOp>, i: nat)
    requires i < |ops|
    ensures ApplyAll(w, ops[..i + 1]) == Apply(ApplyAll(w, ops[..i]), ops[i])
  {
    assert ops[..i + 1][..i] == ops[..i];
  }

  // ------------------------------------------------------------------------- routing

  method ResolveHandler(ledger: Ledger, ctx: Ctx) returns (h: Option<Handler>)
    requires ledger.Valid()
    ensures h == Route(ledger.Seen(), ctx)
  {
    if ctx.to == REGISTRY { return Some(RegistryAt); }
    if ctx.to == BRIDGE { return Some(BridgeAt); }
    if ctx.to == CONFIG { return Some(ConfigAt); }
    if ctx.to == L1_BLOCK { return Some(L1BlockAt); }
    if ctx.to == MESSENGER { return Some(MessengerAt); }
    if ctx.to == L2_BRIDGE { return Some(L2BridgeAt); }
    if ctx.to == MESSAGE_PASSER { return Some(PasserAt); }
    if isApp(ctx.to) { return Some(AppAt); }
    if ctx.to == ctx.appContract { return Some(PortalAt); }
    if ctx.isDeposit && ctx.sender in ledger.portals { return Some(PortalAt); }
    var token := ledger.TokenByL2Address(ctx.to);
    return if token.Some? then Some(FacadeAt) else None;
  }

  /** Runs a handler; what an application's own handler will do is given. */
  method CallHandler(ledger: Ledger, h: Handler, ctx: Ctx, app: Program) returns (out: seq<Emission>, end: Ending)
    requires ledger.Valid() && app == appRun(ledger.Seen(), ctx)
    modifies ledger, ledger.drive, ledger.drive.store.data, ledger.journal
    ensures ledger.Valid()
    ensures Ended(Handle(h, old(ledger.Seen()), ctx), ledger.Seen(), out, end)
    ensures Undoes(old(ledger.Now()), old(ledger.Log()), ledger.Now(), ledger.Log())
  {
    match h
    case RegistryAt =>
      UndoesNothing(ledger.Now(), ledger.Log());
      return [], Reverts("not a transaction target");
    case BridgeAt => out, end := Bridge(ledger, ctx);
    case ConfigAt => out, end := Configure(ledger, ctx);
    case L1BlockAt =>
      UndoesNothing(ledger.Now(), ledger.Log());
      match decodeAttributes(ctx.data) {
        case None => return [], Reverts("unknown function");
        case Some(complete) => return [], if complete then Accepts else Reverts("short attributes");
      }
    case MessengerAt => out, end := Relay(ledger, ctx);
    case L2BridgeAt => out, end := StandardBridge(ledger, ctx);
    case PasserAt => out, end := Passer(ledger, ctx);
    case PortalAt => out, end := PortalReceiver(ledger, ctx);
    case FacadeAt => out, end := TokenFacade(ledger, ctx);
    case AppAt =>
      RunApp(ledger, app);
      return app.out, app.end;
  }

  /** Moves the value and runs the handler at its destination. */
  method Dispatch(ledger: Ledger, ctx: Ctx, app: Program) returns (out: seq<Emission>, end: Ending)
    requires ledger.Valid() && Foreseen(app, ledger.Seen(), ctx)
    modifies ledger, ledger.drive, ledger.drive.store.data, ledger.journal
    ensures ledger.Valid()
    ensures Ended(Dispatched(old(ledger.Seen()), ctx), ledger.Seen(), out, end)
    ensures Undoes(old(ledger.Now()), old(ledger.Log()), ledger.Now(), ledger.Log())
  {
    var thrown := Move(ledger, ctx.sender, ctx.to, ctx.value);
    if thrown.Some? {
      return [], Throws(Describe(thrown.value));
    }
    var h := ResolveHandler(ledger, ctx);
    if h.None? {
      return [], Accepts;
    }
    if ctx.value > 0 && !Payable(h.value, ctx.to) {
      return [], Reverts("not payable");
    }
    ghost var mid, log := ledger.Now(), ledger.Log();
    out, end := CallHandler(ledger, h.value, ctx, app);
    UndoesTrans(old(ledger.Now()), old(ledger.Log()), mid, log, ledger.Now(), ledger.Log());
  }

  /** The given program is what the application's handler does once the value has moved. */
  ghost predicate Foreseen(app: Program, w: World, ctx: Ctx) {
    var e := MoveEther(w, ctx.sender, ctx.to, ctx.value);
    e.Did? ==> app == appRun(e.w, ctx)
  }

  // ------------------------------------------------------------------------ outcomes

  method ReportsOf(out: seq<Emission>) returns (r: seq<Emission>)
    ensures r == Reports(out)
  {
    r := [];
    for i := 0 to |out|
      invariant r == Reports(out[..i])
    {
      assert out[..i + 1][..i] == out[..i];
      if out[i].Report? {
        r := r + [out[i]];
      }
    }
    assert out[..|out|] == out;
  }

  /** Charges and commits, or restores the ledger to where the input found it. */
  method ChargeAndCommit(ledger: Ledger, charge: Option<Charged>, outcome: Outcome, out: seq<Emission>, ghost v: View,
                         ghost s: State)
    returns (reply: Reply)
    requires ledger.Valid() && ledger.Was(v, s, [])
    modifies ledger, ledger.drive, ledger.drive.store.data, ledger.journal
    ensures ledger.Valid() && ledger.Log() == []
    ensures (ledger.Seen(), reply) == Commit(WorldOf(ledger.drive.cfg, v, s.ram), old(ledger.Seen()), charge, outcome, out)
  {
    if charge.Some? {
      ghost var mid, log := ledger.Now(), ledger.Log();
      var thrown := ledger.BumpNonceAndCharge(charge.value.who, charge.value.fee);
      if thrown.Some? {
        UndoesTrans(s, [], mid, log, ledger.Now(), ledger.Log());
        ledger.RestoreTo(0, v, s, []);
        return REJECTED;
      }
    }
    ledger.journal.Commit();
    return Reply(true, outcome, out);
  }

  /**
    Value transfer, dispatch and outcome.  The ghost arguments are the ledger as the input
    found it, with an empty journal; the mark is where a revert returns to.
   */
  method Execute(ledger: Ledger, ctx: Ctx, charge: Option<Charged>, app: Program, ghost v: View, ghost s: State)
    returns (reply: Reply)
    requires ledger.Valid() && ledger.Was(v, s, []) && Foreseen(app, ledger.Seen(), ctx)
    modifies ledger, ledger.drive, ledger.drive.store.data, ledger.journal
    ensures ledger.Valid() && ledger.Log() == []
    ensures (ledger.Seen(), reply) ==
      Finish(WorldOf(ledger.drive.cfg, v, s.ram), old(ledger.Seen()), Dispatched(old(ledger.Seen()), ctx), charge)
  {
    ghost var atMark, state, log := ledger.drive.view, ledger.Now(), ledger.Log();
    var mark := |ledger.journal.entries|;
    var out, end := Dispatch(ledger, ctx, app);
    UndoesTrans(s, [], state, log, ledger.Now(), ledger.Log());
    if end.Accepts? {
      reply := ChargeAndCommit(ledger, charge, Accepted, out, v, s);
    } else if end.Fails? {
      reply := ChargeAndCommit(ledger, charge, Faulted, out + [Report(FailTag, end.why)], v, s);
    } else if end.Rejects? || (end.Throws? && charge.None?) {
      ledger.RestoreTo(0, v, s, []);
      reply := REJECTED;
    } else {
      ledger.RestoreTo(mark, atMark, state, log);
      SameTrans(ledger.Now(), state, state);
      UndoesSame(s, [], state, ledger.Now(), log);
      var kept := ReportsOf(out);
      reply := ChargeAndCommit(ledger, charge, Reverted, kept + [Report(RevertTag, end.why)], v, s);
    }
  }

  // -------------------------------------------------------------------------- inputs

  /** Credits a mint, or leaves the ledger as the input found it. */
  method Credit(ledger: Ledger, a: Address, mint: nat, ghost v: View, ghost s: State) returns (minted: bool)
    requires ledger.Valid() && ledger.Log() == [] && v == ledger.drive.view && s == ledger.Now()
    modifies ledger, ledger.drive, ledger.drive.store.data, ledger.journal
    ensures ledger.Valid() && minted == CreditEther(old(ledger.Seen()), a, mint).Did?
    ensures minted ==> ledger.Seen() == CreditEther(old(ledger.Seen()), a, mint).w && ledger.Was(v, s, [])
    ensures !minted ==> ledger.Seen() == old(ledger.Seen()) && ledger.Log() == []
  {
    UndoesNothing(s, []);
    var thrown := ledger.CreditEther(a, mint);
    minted := thrown.None?;
    if !minted {
      ledger.RestoreTo(0, v, s, []);
    }
  }

  /** Credits the mint, which survives a revert, and executes with nobody to charge. */
  lemma {:induction false} DepositIs(setup: Setup, w: World, b: Block, i: Input, e: Effect)
    requires i.Deposit? && e == CreditEther(w, i.from, i.mint)
    ensures GuestSpec.Advance(setup, w, b, i) ==
      if e.Thrown? then (w, REJECTED)
      else if i.to.None? then (e.w, Reply(true, Accepted, []))
      else Finish(w, e.w, Dispatched(e.w, DepositCtx(setup, b, i)), None)
  {
  }

  method AdvanceDeposit(ledger: Ledger, setup: Setup, b: Block, i: Input, app: Program) returns (reply: Reply)
    requires ledger.Valid() && ledger.Log() == [] && i.Deposit?
    requires var e := CreditEther(ledger.Seen(), i.from, i.mint);
      i.to.Some? && e.Did? ==> Foreseen(app, e.w, DepositCtx(setup, b, i))
    modifies ledger, ledger.drive, ledger.drive.store.data, ledger.journal
    ensures ledger.Valid() && ledger.Log() == []
    ensures (ledger.Seen(), reply) == GuestSpec.Advance(setup, old(ledger.Seen()), b, i)
  {
    ghost var v, s, w := ledger.drive.view, ledger.Now(), ledger.Seen();
    DepositIs(setup, w, b, i, CreditEther(w, i.from, i.mint));
    var minted := Credit(ledger, i.from, i.mint, v, s);
    if !minted {
      return REJECTED;
    }
    if i.to.None? {
      ledger.journal.Commit();
      return Reply(true, Accepted, []);
    }
    reply := Execute(ledger, DepositCtx(setup, b, i), None, app, v, s);
  }

  /** Enforces chain, signature, nonce and balance, and executes with the signer to charge at the fee before dispatch. */
  method AdvanceSigned(ledger: Ledger, setup: Setup, b: Block, i: Input, app: Program) returns (reply: Reply)
    requires ledger.Valid() && ledger.Log() == [] && i.Signed?
    requires i.to.Some? && i.signer.Some? ==> Foreseen(app, ledger.Seen(), SignedCtx(setup, b, i))
    modifies ledger, ledger.drive, ledger.drive.store.data, ledger.journal
    ensures ledger.Valid() && ledger.Log() == []
    ensures (ledger.Seen(), reply) == GuestSpec.Advance(setup, old(ledger.Seen()), b, i)
  {
    if i.to.None? || (i.chainId.Some? && i.chainId.value != setup.chainId) || i.signer.None? {
      return REJECTED;
    }
    var acc := ledger.AccountAt(i.signer.value);
    if acc.Refused? || i.nonce != acc.value.nonce || acc.value.balance < ledger.fee + i.value {
      return REJECTED;
    }
    ghost var v, s := ledger.drive.view, ledger.Now();
    UndoesNothing(s, []);
    reply := Execute(ledger, SignedCtx(setup, b, i), Some(Charged(i.signer.value, ledger.fee)), app, v, s);
  }

  /** The given program is what the application's handler does, should this input reach it. */
  ghost predicate Expected(setup: Setup, w: World, b: Block, i: Input, app: Program) {
    match i
    case Deposit(from, to, mint, _, _) =>
      var e := CreditEther(w, from, mint);
      to.Some? && e.Did? ==> Foreseen(app, e.w, DepositCtx(setup, b, i))
    case Signed(signer, _, _, to, _, _) => to.Some? && signer.Some? ==> Foreseen(app, w, SignedCtx(setup, b, i))
    case _ => true
  }

  /** One input, start to finish: the reply and the ledger after it are those of the model over values. */
  method Advance(ledger: Ledger, setup: Setup, b: Block, i: Input, app: Program) returns (reply: Reply)
    requires ledger.Valid() && ledger.Log() == [] && Expected(setup, ledger.Seen(), b, i, app)
    modifies ledger, ledger.drive, ledger.drive.store.data, ledger.journal
    ensures ledger.Valid() && ledger.Log() == []
    ensures (ledger.Seen(), reply) == GuestSpec.Advance(setup, old(ledger.Seen()), b, i)
  {
    match i
    case Opaque(text) => reply := Reply(true, Recorded, [Report(AppTag, text)]);
    case Refused(_) => reply := REJECTED;
    case Deposit(_, _, _, _, _) => reply := AdvanceDeposit(ledger, setup, b, i, app);
    case Signed(_, _, _, _, _, _) => reply := AdvanceSigned(ledger, setup, b, i, app);
  }

  /** The advance path without signature, nonce or fee, then rolled back: it answers and leaves no trace. */
  method Simulate(ledger: Ledger, ctx: Ctx, app: Program) returns (accept: bool, report: Emission)
    requires ledger.Valid() && Foreseen(app, ledger.Seen(), ctx)
    modifies ledger, ledger.drive, ledger.drive.store.data, ledger.journal
    ensures ledger.Valid() && ledger.Seen() == old(ledger.Seen())
    ensures ledger.drive.store.Bytes() == old(ledger.drive.store.Bytes()) && ledger.Log() == old(ledger.Log())
    ensures (accept, report) == Simulated(Dispatched(old(ledger.Seen()), ctx).end)
  {
    ghost var v, s, log := ledger.drive.view, ledger.Now(), ledger.Log();
    var mark := |ledger.journal.entries|;
    var out, end := Dispatch(ledger, ctx, app);
    ledger.RestoreTo(mark, v, s, log);
    accept, report := Simulated(end).0, Simulated(end).1;
  }
}
