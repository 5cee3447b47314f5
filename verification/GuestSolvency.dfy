/**
  The messenger over whole runs: it always holds at least what its failed messages
  carry, and each message's inner call takes effect at most once.
 */
module GuestSolvency {
  import opened Options
  import opened DriveSpec
  import opened DriveTable
  import opened UndoLog
  import opened LedgerSpec
  import opened LedgerLaws
  import opened Handlers
  import opened HandlerLaws
  import opened MessengerLaws
  import opened GuestSpec
  import opened GuestLaws
  import opened GuestValue

  // ------------------------------------------------------------------------ solvency

  /** A fair step by another payer keeps the messenger solvent. */
  lemma {:induction false} OthersPay(w: World, x: World, left: nat, payer: Address, slack: nat)
    requires Fair(w, x, left, payer) && payer != MESSENGER && Solvent(w, slack)
    ensures Solvent(x, slack)
  {
  }

  /** Value sent to the messenger is slack until a message claims it. */
  lemma {:induction false} ValueIsSlack(w: World, ctx: Ctx)
    requires Sane(w) && Solvent(w, 0) && ctx.sender != MESSENGER && MoveEther(w, ctx.sender, ctx.to, ctx.value).Did?
    ensures Solvent(MoveEther(w, ctx.sender, ctx.to, ctx.value).w, if ctx.to == MESSENGER then ctx.value else 0)
  {
    MoveFair(w, ctx.sender, ctx.to, ctx.value);
  }

  ghost predicate ClearCall(ctx: Ctx) {
    ctx.sender != MESSENGER && (decodeRelay(ctx.data).Some? ==> Unambiguous(decodeRelay(ctx.data).value))
  }

  lemma {:induction false} MessengerSolvent(w: World, ctx: Ctx)
    requires Sane(w) && Solvent(w, ctx.value) && ClearCall(ctx) && MessengerAdvance(w, ctx).end.Accepts?
    ensures Solvent(MessengerAdvance(w, ctx).w, 0)
  {
    AcceptedRelays(w, ctx);
    RelaySolvent(w, ctx, MessengerAdvance(w, ctx), decodeRelay(ctx.data).value, w.pair.value);
  }

  lemma {:induction false} HandleSolvent(h: Handler, w: World, ctx: Ctx)
    requires Sane(w) && Kept(Handle(h, w, ctx)) && !h.AppAt? && ClearCall(ctx) && (h.MessengerAt? <==> ctx.to == MESSENGER)
    requires Solvent(w, if ctx.to == MESSENGER then ctx.value else 0)
    ensures Solvent(Handle(h, w, ctx).w, 0)
  {
    if h.MessengerAt? {
      MessengerFair(w, ctx);
      MessengerSolvent(w, ctx);
    } else {
      BuiltInFair(h, w, ctx);
      OthersPay(w, Handle(h, w, ctx).w, ValueOut(Handle(h, w, ctx).out), ctx.to, 0);
    }
  }

  lemma {:induction false} DispatchedSolvent(w: World, ctx: Ctx)
    requires Sane(w) && BuiltInsOnly() && Kept(Dispatched(w, ctx)) && Solvent(w, 0) && ClearCall(ctx)
    ensures Solvent(Dispatched(w, ctx).w, 0)
  {
    var e := MoveEther(w, ctx.sender, ctx.to, ctx.value);
    ValueIsSlack(w, ctx);
    MoveFair(w, ctx.sender, ctx.to, ctx.value);
    RouteIsBuiltIn(e.w, ctx);
    var h := Route(e.w, ctx);
    if h.Some? { HandleSolvent(h.value, e.w, ctx); }
  }

  /** An input not sent by the messenger itself, whose message (if it relays one) its hash names. */
  ghost predicate Clear(i: Input) {
    match i
    case Deposit(from, _, _, _, data) => from != MESSENGER && (decodeRelay(data).Some? ==> Unambiguous(decodeRelay(data).value))
    case Signed(signer, _, _, _, _, data) =>
      signer != Some(MESSENGER) && (decodeRelay(data).Some? ==> Unambiguous(decodeRelay(data).value))
    case _ => true
  }

  lemma {:induction false} StepSolvent(s: Setup, w: World, b: Block, i: Input)
    requires Sane(w) && BuiltInsOnly() && Solvent(w, 0) && Clear(i)
    ensures Solvent(Advance(s, w, b, i).0, 0)
  {
    var (x, reply) := Advance(s, w, b, i);
    if i.Opaque? || i.Refused? || !reply.accept {
      SilentReply(s, w, b, i);
    } else if i.Signed? {
      SignedSolvent(s, w, b, i);
    } else {
      DepositSolvent(s, w, b, i);
    }
  }

  lemma {:induction false} SignedSolvent(s: Setup, w: World, b: Block, i: Input)
    requires Sane(w) && BuiltInsOnly() && Solvent(w, 0) && Clear(i) && i.Signed? && Advance(s, w, b, i).1.accept
    ensures Solvent(Advance(s, w, b, i).0, 0)
  {
    SignedEnds(s, w, b, i);
    var ctx := SignedCtx(s, b, i);
    var r := Dispatched(w, ctx);
    var from := if Kept(r) then r.w else w;
    if Kept(r) { DispatchedSolvent(w, ctx); }
    ChargeBills(from, i.signer.value, w.fee);
  }

  lemma {:induction false} DepositSolvent(s: Setup, w: World, b: Block, i: Input)
    requires Sane(w) && BuiltInsOnly() && Solvent(w, 0) && Clear(i) && i.Deposit? && Advance(s, w, b, i).1.accept
    ensures Solvent(Advance(s, w, b, i).0, 0)
  {
    var minted := CreditEther(w, i.from, i.mint).w;
    StoredNonce(w, i.from);
    CreditMoves(w, i.from, i.mint);
    CreditSane(w, i.from, i.mint);
    assert Solvent(minted, 0);
    if i.to.Some? && Kept(Dispatched(minted, DepositCtx(s, b, i))) {
      DispatchedSolvent(minted, DepositCtx(s, b, i));
    }
  }

  /** Over every run in which the messenger sends nothing itself, it holds at least what its failed messages carry. */
  lemma {:induction false} MessengerStaysSolvent(s: Setup, w: World, inputs: seq<Timed>)
    requires Sane(w) && BuiltInsOnly() && Solvent(w, 0)
    requires forall k :: 0 <= k < |inputs| ==> Clear(inputs[k].input)
    ensures Solvent(Run(s, w, inputs), 0)
    decreases |inputs|
  {
    if inputs != [] {
      var last := inputs[|inputs| - 1];
      MessengerStaysSolvent(s, w, Before(inputs));
      RunSane(s, w, Before(inputs));
      StepSolvent(s, Run(s, w, Before(inputs)), last.block, last.input);
    }
  }

  // ---------------------------------------------------------------------- deliveries

  /** The output says the message's inner call took effect. */
  ghost predicate Delivers(out: seq<Emission>, h: Digest) {
    Logged(MESSENGER, Relayed(h, false)) in out
  }

  ghost predicate IsDelivered(w: World, h: Digest) {
    StatusOf(w, h) == Some(Successful)
  }

  /** A delivery is announced exactly when it happens, and only to a message not delivered before. */
  ghost predicate Marks(w: World, x: World, out: seq<Emission>, h: Digest) {
    && (Delivers(out, h) ==> !IsDelivered(w, h))
    && (IsDelivered(x, h) <==> IsDelivered(w, h) || Delivers(out, h))
  }

  lemma {:induction false} QuietMarks(w: World, x: World, out: seq<Emission>, h: Digest)
    requires x.messages == w.messages && Quiet(out)
    ensures Marks(w, x, out, h)
  {
  }

  lemma {:induction false} HandleMarks(k: Handler, w: World, ctx: Ctx, h: Digest)
    requires Sane(w) && Kept(Handle(k, w, ctx)) && !k.AppAt?
    ensures Marks(w, Handle(k, w, ctx).w, Handle(k, w, ctx).out, h)
  {
    if k.MessengerAt? {
      MessengerFair(w, ctx);
      AcceptedRelays(w, ctx);
      RelayMarks(w, ctx, Handle(k, w, ctx), decodeRelay(ctx.data).value, w.pair.value, h);
    } else {
      BuiltInFair(k, w, ctx);
      QuietMarks(w, Handle(k, w, ctx).w, Handle(k, w, ctx).out, h);
    }
  }

  lemma {:induction false} DispatchedMarks(w: World, ctx: Ctx, h: Digest)
    requires Sane(w) && BuiltInsOnly() && Kept(Dispatched(w, ctx))
    ensures Marks(w, Dispatched(w, ctx).w, Dispatched(w, ctx).out, h)
  {
    var e := MoveEther(w, ctx.sender, ctx.to, ctx.value);
    MoveFair(w, ctx.sender, ctx.to, ctx.value);
    RouteIsBuiltIn(e.w, ctx);
    var k := Route(e.w, ctx);
    if k.Some? { HandleMarks(k.value, e.w, ctx, h); }
  }

  /** A reply carries the handler's output when it is kept, and only reports when it is not. */
  lemma {:induction false} ReplyQuiet(base: World, mark: World, r: Ran, charge: Option<Charged>)
    requires !r.end.Fails?
    ensures var reply := Finish(base, mark, r, charge).1;
      reply.accept ==> if r.end.Accepts? then reply.out == r.out else Quiet(reply.out)
  {
    ReportsCarryNothing(r.out);
  }

  lemma {:induction false} SignedMarks(s: Setup, w: World, b: Block, i: Input, h: Digest)
    requires Sane(w) && BuiltInsOnly() && i.Signed? && Advance(s, w, b, i).1.accept
    ensures Marks(w, Advance(s, w, b, i).0, Advance(s, w, b, i).1.out, h)
  {
    var ctx, c := SignedCtx(s, b, i), GuestSpec.Charged.Charged(i.signer.value, w.fee);
    NeverFails(w, ctx);
    if Kept(Dispatched(w, ctx)) { DispatchedMarks(w, ctx, h); }
    ChargedMarks(w, Dispatched(w, ctx), c, h);
  }

  /** The charge moves no message: what a run marked is marked after it, and a revert marks nothing. */
  lemma {:induction false} ChargedMarks(w: World, r: Ran, c: GuestSpec.Charged, h: Digest)
    requires !r.end.Fails? && (Kept(r) ==> Marks(w, r.w, r.out, h))
    requires Finish(w, w, r, Some(c)).1.accept
    ensures Marks(w, Finish(w, w, r, Some(c)).0, Finish(w, w, r, Some(c)).1.out, h)
  {
    ReplyQuiet(w, w, r, Some(c));
    ChargeBills(if Kept(r) then r.w else w, c.who, c.fee);
  }

  lemma {:induction false} DepositMarks(s: Setup, w: World, b: Block, i: Input, h: Digest)
    requires Sane(w) && BuiltInsOnly() && i.Deposit? && Advance(s, w, b, i).1.accept
    ensures Marks(w, Advance(s, w, b, i).0, Advance(s, w, b, i).1.out, h)
  {
    var minted := CreditEther(w, i.from, i.mint).w;
    StoredNonce(w, i.from);
    CreditMoves(w, i.from, i.mint);
    CreditSane(w, i.from, i.mint);
    if i.to.Some? {
      var ctx := DepositCtx(s, b, i);
      var r := Dispatched(minted, ctx);
      NeverFails(minted, ctx);
      ReplyQuiet(w, minted, r, None);
      if Kept(r) { DispatchedMarks(minted, ctx, h); }
    }
  }

  lemma {:induction false} StepMarks(s: Setup, w: World, b: Block, i: Input, h: Digest)
    requires Sane(w) && BuiltInsOnly()
    ensures Marks(w, Advance(s, w, b, i).0, Advance(s, w, b, i).1.out, h)
  {
    if i.Opaque? || i.Refused? || !Advance(s, w, b, i).1.accept {
      SilentReply(s, w, b, i);
    } else if i.Signed? {
      SignedMarks(s, w, b, i, h);
    } else {
      DepositMarks(s, w, b, i, h);
    }
  }

  /** How many inputs of a run delivered the message. */
  ghost function Deliveries(s: Setup, w: World, inputs: seq<Timed>, h: Digest): (n: nat) {
    if inputs == [] then 0
    else
      var last := inputs[|inputs| - 1];
      Deliveries(s, w, Before(inputs), h) +
      if Delivers(Advance(s, Run(s, w, Before(inputs)), last.block, last.input).1.out, h) then 1 else 0
  }

  /** Successful is final, and each message's inner call takes effect at most once. */
  lemma {:induction false} DeliveredAtMostOnce(s: Setup, w: World, inputs: seq<Timed>, h: Digest)
    requires Sane(w) && BuiltInsOnly()
    ensures Deliveries(s, w, inputs, h) + (if IsDelivered(w, h) then 1 else 0) ==
      if IsDelivered(Run(s, w, inputs), h) then 1 else 0
    decreases |inputs|
  {
    if inputs != [] {
      var last := inputs[|inputs| - 1];
      DeliveredAtMostOnce(s, w, Before(inputs), h);
      RunSane(s, w, Before(inputs));
      StepMarks(s, Run(s, w, Before(inputs)), last.block, last.input, h);
    }
  }
}
