/**
  Value over whole runs of the built-in handlers: ether is conserved, supply equals what
  is held, the two token escrows stay exclusive, the messenger can always pay the
  messages it recorded as failed, and no message is delivered twice.
 */
module GuestValue {
  import opened Options
  import opened DriveSpec
  import opened LedgerSpec
  import opened LedgerLaws
  import opened Handlers
  import opened HandlerLaws
  import opened MessengerLaws
  import opened GuestSpec
  import opened GuestLaws

  /** No application handler is registered. */
  ghost predicate BuiltInsOnly() {
    forall a :: !isApp(a)
  }

  // ------------------------------------------------------------------- one dispatch

  /** What a run of the value move and the handler keeps. */
  ghost predicate Conserves(w: World, x: World, left: nat) {
    && Sane(x) && x.geo == w.geo && (Supplied(w) ==> Supplied(x)) && (Exclusive(w) ==> Exclusive(x))
    && Ether(x) + left == Ether(w)
  }

  lemma {:induction false} FairConserves(w: World, x: World, left: nat, payer: Address)
    requires FairBut(w, x, left, payer)
    ensures Conserves(w, x, left)
  {
    var y := x.(messages := w.messages);
    if Supplied(y) {
      forall id: nat ensures SupplyOf(x, id) == Held(x, id) { assert SupplyOf(y, id) == Held(y, id); }
    }
  }

  lemma {:induction false} FairIsFairBut(w: World, x: World, left: nat, payer: Address)
    requires Fair(w, x, left, payer)
    ensures FairBut(w, x, left, payer)
  {
    assert x.(messages := w.messages) == x;
  }

  lemma {:induction false} ConservesTrans(w: World, x: World, y: World, a: nat, b: nat)
    requires Conserves(w, x, a) && Conserves(x, y, b)
    ensures Conserves(w, y, a + b)
  {
  }

  lemma {:induction false} HandleConserves(h: Handler, w: World, ctx: Ctx)
    requires Sane(w) && !h.AppAt? && Kept(Handle(h, w, ctx))
    ensures Conserves(w, Handle(h, w, ctx).w, ValueOut(Handle(h, w, ctx).out))
  {
    var r := Handle(h, w, ctx);
    if h.MessengerAt? {
      MessengerFair(w, ctx);
      FairConserves(w, r.w, ValueOut(r.out), MESSENGER);
    } else {
      BuiltInFair(h, w, ctx);
      FairIsFairBut(w, r.w, ValueOut(r.out), ctx.to);
      FairConserves(w, r.w, ValueOut(r.out), ctx.to);
    }
  }

  lemma {:induction false} RouteIsBuiltIn(w: World, ctx: Ctx)
    requires BuiltInsOnly()
    ensures Route(w, ctx) != Some(AppAt)
    ensures Route(w, ctx) == Some(MessengerAt) <==> ctx.to == MESSENGER
  {
    assert MESSENGER[19] == 0x07 && REGISTRY[19] == 0x00 && BRIDGE[19] == 0x01 && CONFIG[19] == 0x02 && L1_BLOCK[19] == 0x15;
  }

  lemma {:induction false} DispatchedConserves(w: World, ctx: Ctx)
    requires Sane(w) && BuiltInsOnly() && Kept(Dispatched(w, ctx))
    ensures Conserves(w, Dispatched(w, ctx).w, ValueOut(Dispatched(w, ctx).out))
  {
    var e, r := MoveEther(w, ctx.sender, ctx.to, ctx.value), Dispatched(w, ctx);
    MoveFair(w, ctx.sender, ctx.to, ctx.value);
    FairIsFairBut(w, e.w, 0, ctx.sender);
    FairConserves(w, e.w, 0, ctx.sender);
    RouteIsBuiltIn(e.w, ctx);
    var h := Route(e.w, ctx);
    if h.Some? {
      HandleConserves(h.value, e.w, ctx);
      ConservesTrans(w, e.w, r.w, 0, ValueOut(r.out));
    }
  }

  // -------------------------------------------------------------------- one input

  function Minted(i: Input, reply: Reply): (n: nat) {
    if i.Deposit? && reply.accept then i.mint else 0
  }

  function FeeTaken(w: World, i: Input, reply: Reply): (n: nat) {
    if i.Signed? && reply.accept then w.fee else 0
  }

  /** The books balance over one step. */
  ghost predicate BooksBalance(w: World, x: World, out: nat, fee: nat, mint: nat) {
    && Sane(x) && x.geo == w.geo && (Supplied(w) ==> Supplied(x)) && (Exclusive(w) ==> Exclusive(x))
    && Ether(x) + out + fee == Ether(w) + mint
  }

  lemma {:induction false} ReportsCarryNothing(out: seq<Emission>)
    ensures forall k :: 0 <= k < |Reports(out)| ==> Reports(out)[k].Report?
  {
    if out != [] { ReportsCarryNothing(out[..|out| - 1]); }
  }

  /** What a reply says leaves is what the handler's kept output says. */
  lemma {:induction false} ReplyValue(base: World, mark: World, r: Ran, charge: Option<Charged>)
    requires !r.end.Fails?
    ensures var reply := Finish(base, mark, r, charge).1;
      reply.accept ==> ValueOut(reply.out) == if r.end.Accepts? then ValueOut(r.out) else 0
  {
    ReportsCarryNothing(r.out);
    var reply := Finish(base, mark, r, charge).1;
    if reply.accept && !r.end.Accepts? { NoWithdrawals(reply.out); }
  }

  lemma {:induction false} CreditBalances(w: World, a: Address, n: nat)
    requires Sane(w) && CreditEther(w, a, n).Did?
    ensures BooksBalance(w, CreditEther(w, a, n).w, 0, 0, n)
  {
    StoredNonce(w, a);
    CreditMoves(w, a, n);
    CreditSane(w, a, n);
    AccountsAlone(w, CreditEther(w, a, n).w);
  }

  lemma {:induction false} ChargeBalances(w: World, a: Address, fee: nat)
    requires Sane(w) && Charge(w, a, fee).Did?
    ensures BooksBalance(w, Charge(w, a, fee).w, 0, fee, 0)
  {
    ChargeBills(w, a, fee);
    ChargeSane(w, a, fee);
    AccountsAlone(w, Charge(w, a, fee).w);
  }

  lemma {:induction false} NeverFails(w: World, ctx: Ctx)
    requires Sane(w) && BuiltInsOnly()
    ensures !Dispatched(w, ctx).end.Fails? && !Dispatched(w, ctx).end.Rejects?
  {
    var e := MoveEther(w, ctx.sender, ctx.to, ctx.value);
    if e.Did? {
      MoveFair(w, ctx.sender, ctx.to, ctx.value);
      RouteIsBuiltIn(e.w, ctx);
      var h := Route(e.w, ctx);
      if h.Some? {
        if h.value.MessengerAt? { MessengerFair(e.w, ctx); } else { BuiltInFair(h.value, e.w, ctx); }
      }
    }
  }

  lemma {:induction false} BooksTrans(w: World, x: World, y: World, a: nat, b: nat, c: nat, d: nat, e: nat, f: nat)
    requires BooksBalance(w, x, a, b, c) && BooksBalance(x, y, d, e, f)
    ensures BooksBalance(w, y, a + d, b + e, c + f)
  {
  }

  lemma {:induction false} NothingHappened(w: World)
    requires Sane(w)
    ensures BooksBalance(w, w, 0, 0, 0)
  {
  }

  lemma {:induction false} SignedBalances(s: Setup, w: World, b: Block, i: Input)
    requires Sane(w) && BuiltInsOnly() && i.Signed? && Advance(s, w, b, i).1.accept
    ensures var (x, reply) := Advance(s, w, b, i); BooksBalance(w, x, ValueOut(reply.out), w.fee, 0)
  {
    var (x, reply) := Advance(s, w, b, i);
    SignedEnds(s, w, b, i);
    var ctx := SignedCtx(s, b, i);
    var r := Dispatched(w, ctx);
    var from := if Kept(r) then r.w else w;
    NeverFails(w, ctx);
    ReplyValue(w, w, r, Some(Charged(i.signer.value, w.fee)));
    if Kept(r) { DispatchedConserves(w, ctx); } else { NothingHappened(w); }
    assert BooksBalance(w, from, ValueOut(reply.out), 0, 0);
    ChargeBalances(from, i.signer.value, w.fee);
    BooksTrans(w, from, x, ValueOut(reply.out), 0, 0, 0, w.fee, 0);
  }

  lemma {:induction false} DepositBalances(s: Setup, w: World, b: Block, i: Input)
    requires Sane(w) && BuiltInsOnly() && i.Deposit? && Advance(s, w, b, i).1.accept
    ensures var (x, reply) := Advance(s, w, b, i); BooksBalance(w, x, ValueOut(reply.out), 0, i.mint)
  {
    var (x, reply) := Advance(s, w, b, i);
    var minted := CreditEther(w, i.from, i.mint).w;
    CreditBalances(w, i.from, i.mint);
    if i.to.Some? {
      var ctx := DepositCtx(s, b, i);
      var r := Dispatched(minted, ctx);
      NeverFails(minted, ctx);
      if Kept(r) { DispatchedConserves(minted, ctx); }
      MintedBalances(w, minted, r, i.mint);
    }
  }

  /** After a mint, a run with nobody to charge moves what it withdraws and nothing else. */
  lemma {:induction false} MintedBalances(w: World, minted: World, r: Ran, mint: nat)
    requires BooksBalance(w, minted, 0, 0, mint) && !r.end.Fails?
    requires Kept(r) ==> Conserves(minted, r.w, ValueOut(r.out))
    requires Finish(w, minted, r, None).1.accept
    ensures BooksBalance(w, Finish(w, minted, r, None).0, ValueOut(Finish(w, minted, r, None).1.out), 0, mint)
  {
    var (x, reply) := Finish(w, minted, r, None);
    ReplyValue(w, minted, r, None);
    if !Kept(r) { NothingHappened(minted); }
    assert BooksBalance(minted, x, ValueOut(reply.out), 0, 0);
    BooksTrans(w, minted, x, 0, 0, mint, ValueOut(reply.out), 0, 0);
  }

  /** Ether before plus what was minted is ether after plus what left and what was charged. */
  lemma {:induction false} StepBalances(s: Setup, w: World, b: Block, i: Input)
    requires Sane(w) && BuiltInsOnly()
    ensures var (x, reply) := Advance(s, w, b, i);
      BooksBalance(w, x, ValueOut(reply.out), FeeTaken(w, i, reply), Minted(i, reply))
  {
    var (x, reply) := Advance(s, w, b, i);
    RejectKeepsAll(s, w, b, i);
    NothingHappened(w);
    if i.Opaque? || i.Refused? || !reply.accept {
      SilentReply(s, w, b, i);
    } else if i.Signed? {
      SignedBalances(s, w, b, i);
    } else {
      DepositBalances(s, w, b, i);
    }
  }

  /** An input that is only recorded, or rejected, emits no withdrawal and changes nothing. */
  lemma {:induction false} SilentReply(s: Setup, w: World, b: Block, i: Input)
    requires i.Opaque? || i.Refused? || !Advance(s, w, b, i).1.accept
    ensures Advance(s, w, b, i).0 == w && ValueOut(Advance(s, w, b, i).1.out) == 0
    ensures Quiet(Advance(s, w, b, i).1.out)
  {
    RejectKeepsAll(s, w, b, i);
    RejectSilent(s, w, b, i);
    NoWithdrawals(Advance(s, w, b, i).1.out);
  }

  lemma {:induction false} RejectSilent(s: Setup, w: World, b: Block, i: Input)
    ensures !Advance(s, w, b, i).1.accept ==> Advance(s, w, b, i).1.out == []
  {
    if i.Signed? && Admitted(s, w, i) {
      FinishSilent(w, w, Dispatched(w, SignedCtx(s, b, i)), Some(Charged(i.signer.value, w.fee)));
    } else if i.Deposit? && i.to.Some? {
      var e := CreditEther(w, i.from, i.mint);
      if e.Did? { FinishSilent(w, e.w, Dispatched(e.w, DepositCtx(s, b, i)), None); }
    }
  }

  lemma {:induction false} FinishSilent(base: World, mark: World, r: Ran, charge: Option<Charged>)
    ensures !Finish(base, mark, r, charge).1.accept ==> Finish(base, mark, r, charge).1.out == []
  {
  }

  // -------------------------------------------------------------------- whole runs

  /** What a run minted, charged and paid out, step by step. */
  datatype Flow = Flow(minted: nat, fees: nat, withdrawn: nat)

  ghost function FlowOf(s: Setup, w: World, inputs: seq<Timed>): (f: Flow) {
    if inputs == [] then Flow(0, 0, 0)
    else
      var f, mid, last := FlowOf(s, w, Before(inputs)), Run(s, w, Before(inputs)), inputs[|inputs| - 1];
      var reply := Advance(s, mid, last.block, last.input).1;
      Flow(f.minted + Minted(last.input, reply), f.fees + FeeTaken(mid, last.input, reply), f.withdrawn + ValueOut(reply.out))
  }

  lemma {:induction false} FlowStep(s: Setup, w: World, inputs: seq<Timed>)
    requires Sane(w) && BuiltInsOnly() && inputs != []
    ensures var f, g := FlowOf(s, w, Before(inputs)), FlowOf(s, w, inputs);
      && f.withdrawn <= g.withdrawn && f.fees <= g.fees && f.minted <= g.minted
      && BooksBalance(Run(s, w, Before(inputs)), Run(s, w, inputs),
                      g.withdrawn - f.withdrawn, g.fees - f.fees, g.minted - f.minted)
  {
    var last := inputs[|inputs| - 1];
    RunSane(s, w, Before(inputs));
    StepBalances(s, Run(s, w, Before(inputs)), last.block, last.input);
  }

  /**
    Value is conserved over every run of the built-in handlers: total ether and
    everything withdrawn and charged add up to what was there and what was minted; every
    token's supply is what its holders hold; the escrows stay exclusive.
   */
  lemma {:induction false} ValueIsConserved(s: Setup, w: World, inputs: seq<Timed>)
    requires Sane(w) && BuiltInsOnly()
    ensures var f := FlowOf(s, w, inputs); BooksBalance(w, Run(s, w, inputs), f.withdrawn, f.fees, f.minted)
    decreases |inputs|
  {
    if inputs == [] {
      NothingHappened(w);
    } else {
      var f, g := FlowOf(s, w, Before(inputs)), FlowOf(s, w, inputs);
      ValueIsConserved(s, w, Before(inputs));
      FlowStep(s, w, inputs);
      BooksTrans(w, Run(s, w, Before(inputs)), Run(s, w, inputs), f.withdrawn, f.fees, f.minted,
                 g.withdrawn - f.withdrawn, g.fees - f.fees, g.minted - f.minted);
    }
  }
}
