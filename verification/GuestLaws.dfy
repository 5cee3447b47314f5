/**
  What the router guarantees over whole runs: charging and replay protection, value
  conserved, and a messenger that can always pay what it owes.
 */
module GuestLaws {
  import opened Options
  import opened ByteCodec
  import opened DriveSpec
  import opened LedgerSpec
  import opened LedgerLaws
  import opened Handlers
  import opened HandlerLaws
  import opened MessengerLaws
  import opened GuestSpec

  // ------------------------------------------------------------------ nonces stand still

  /** Nothing here moved a nonce. */
  ghost predicate Steady(w: World, x: World) {
    Sane(x) && x.geo == w.geo && forall a: Address :: AccountOf(x, a).nonce == AccountOf(w, a).nonce
  }

  lemma {:induction false} SteadyTrans(w: World, x: World, y: World)
    requires Steady(w, x) && Steady(x, y)
    ensures Steady(w, y)
  {
  }

  lemma {:induction false} MovedSteady(w: World, x: World, a: Address, delta: int)
    requires Moved(w, x, a, delta) && Sane(x)
    ensures Steady(w, x)
  {
    forall b: Address ensures AccountOf(x, b).nonce == AccountOf(w, b).nonce {
      assert b != a ==> AccountOf(x, b) == AccountOf(w, b);
    }
  }

  lemma {:induction false} ApplySteady(w: World, op: LedgerOp)
    requires Sane(w)
    ensures Steady(w, Apply(w, op))
  {
    if Attempt(w, op).Did? {
      match op
      case CreditEtherOp(a, n) =>
        StoredNonce(w, a);
        CreditMoves(w, a, n);
        CreditSane(w, a, n);
        MovedSteady(w, Apply(w, op), a, n);
      case DebitEtherOp(a, n) =>
        StoredNonce(w, a);
        DebitMoves(w, a, n);
        DebitSane(w, a, n);
        MovedSteady(w, Apply(w, op), a, 0 - n);
      case CreditTokenOp(a, id, n) =>
        CreditTokenOnly(w, a, id, n);
        CreditTokenSane(w, a, id, n);
      case DebitTokenOp(a, id, n) =>
        DebitTokenOnly(w, a, id, n);
        DebitTokenSane(w, a, id, n);
      case RegisterTokenOp(l1, m) =>
        RegisterOnly(w, l1, m);
        RegisterSane(w, l1, m);
      case _ =>
    }
  }

  lemma {:induction false} ApplyAllSteady(w: World, ops: seq<LedgerOp>)
    requires Sane(w)
    ensures Steady(w, ApplyAll(w, ops))
  {
    if ops != [] {
      var mid := ApplyAll(w, ops[..|ops| - 1]);
      ApplyAllSteady(w, ops[..|ops| - 1]);
      ApplySteady(mid, ops[|ops| - 1]);
      SteadyTrans(w, mid, ApplyAll(w, ops));
    }
  }

  // ----------------------------------------------------------------------- handlers

  ghost predicate Kept(r: Ran) {
    r.end.Accepts? || r.end.Fails?
  }

  /** A built-in handler other than the messenger: fair, paying only from the called address. */
  lemma {:induction false} BuiltInFair(h: Handler, w: World, ctx: Ctx)
    requires Sane(w) && !h.AppAt? && !h.MessengerAt?
    ensures FairRun(w, Handle(h, w, ctx), ctx.to)
  {
    match h
    case BridgeAt => BridgeFair(w, ctx);
    case ConfigAt => ConfigFair(w, ctx);
    case L2BridgeAt => L2BridgeFair(w, ctx);
    case PasserAt => PasserFair(w, ctx);
    case PortalAt => PortalFair(w, ctx);
    case FacadeAt => FacadeFair(w, ctx);
    case L1BlockAt => FairNothing(w, ctx.to);
    case RegistryAt =>
  }

  lemma {:induction false} MessengerFair(w: World, ctx: Ctx)
    requires Sane(w)
    ensures var r := MessengerAdvance(w, ctx);
      && !r.end.Fails? && !r.end.Rejects? && (r.end.Accepts? ==> FairBut(w, r.w, ValueOut(r.out), MESSENGER))
  {
    AcceptedRelays(w, ctx);
    var r := MessengerAdvance(w, ctx);
    if r.end.Accepts? { RelayFair(w, r, decodeRelay(ctx.data).value, w.pair.value); }
  }

  lemma {:induction false} HandleSteady(h: Handler, w: World, ctx: Ctx)
    requires Sane(w) && Kept(Handle(h, w, ctx))
    ensures Steady(w, Handle(h, w, ctx).w)
  {
    if h.AppAt? {
      ApplyAllSteady(w, appRun(w, ctx).ops);
    } else if h.MessengerAt? {
      MessengerFair(w, ctx);
    } else {
      BuiltInFair(h, w, ctx);
    }
  }

  lemma {:induction false} DispatchedSteady(w: World, ctx: Ctx)
    requires Sane(w) && Kept(Dispatched(w, ctx))
    ensures Steady(w, Dispatched(w, ctx).w)
  {
    var e := MoveEther(w, ctx.sender, ctx.to, ctx.value);
    MoveFair(w, ctx.sender, ctx.to, ctx.value);
    var h := Route(e.w, ctx);
    if h.Some? {
      HandleSteady(h.value, e.w, ctx);
      SteadyTrans(w, e.w, Dispatched(w, ctx).w);
    }
  }

  // ---------------------------------------------------------- charging, one input at a time

  /** Who an input was charged to, if anyone: the signer of an accepted signed transaction. */
  ghost function ChargedTo(s: Setup, w: World, b: Block, i: Input): (a: Option<Address>) {
    if i.Signed? && Advance(s, w, b, i).1.accept then i.signer else None
  }

  /** Of a signed input, only admission followed by a charge that goes through is accepted. */
  lemma {:induction false} SignedEnds(s: Setup, w: World, b: Block, i: Input)
    requires Sane(w) && i.Signed?
    ensures var (x, reply) := Advance(s, w, b, i);
      if !reply.accept then x == w
      else
        && Admitted(s, w, i)
        && var r := Dispatched(w, SignedCtx(s, b, i));
           var from := if Kept(r) then r.w else w;
           Charge(from, i.signer.value, w.fee) == Did(x) && Steady(w, from) && (reply.outcome.Reverted? <==> !Kept(r))
  {
    if Admitted(s, w, i) {
      var r := Dispatched(w, SignedCtx(s, b, i));
      if Kept(r) { DispatchedSteady(w, SignedCtx(s, b, i)); }
    }
  }

  lemma {:induction false} FinishRejects(base: World, mark: World, r: Ran, charge: Option<Charged>)
    ensures !Finish(base, mark, r, charge).1.accept ==> Finish(base, mark, r, charge).0 == base
  {
  }

  /** A rejected input leaves the ledger as it was. */
  lemma {:induction false} RejectKeepsAll(s: Setup, w: World, b: Block, i: Input)
    ensures !Advance(s, w, b, i).1.accept ==> Advance(s, w, b, i).0 == w
  {
    if i.Signed? && Admitted(s, w, i) {
      FinishRejects(w, w, Dispatched(w, SignedCtx(s, b, i)), Some(Charged(i.signer.value, w.fee)));
    } else if i.Deposit? && i.to.Some? {
      var e := CreditEther(w, i.from, i.mint);
      if e.Did? { FinishRejects(w, e.w, Dispatched(e.w, DepositCtx(s, b, i)), None); }
    }
  }

  /** However a run ended, a reply that reports a revert comes with the mark's ledger, charged. */
  lemma {:induction false} RevertCharges(w: World, r: Ran, c: GuestSpec.Charged)
    requires Sane(w) && Finish(w, w, r, Some(c)).1.outcome.Reverted?
    ensures AccountOf(w, c.who).balance >= c.fee && Finish(w, w, r, Some(c)).0 == LedgerLaws.Charged(w, c.who, c.fee)
  {
    ChargeExact(w, c.who, c.fee);
  }

  /** A reverted transaction changes its sender's nonce and balance and nothing else; the fee is the one it entered under. */
  lemma {:induction false} RevertOnlyCharges(s: Setup, w: World, b: Block, i: Input)
    requires Sane(w) && i.Signed? && Advance(s, w, b, i).1.outcome.Reverted?
    ensures i.signer.Some? && AccountOf(w, i.signer.value).balance >= w.fee
    ensures Advance(s, w, b, i).0 == LedgerLaws.Charged(w, i.signer.value, w.fee)
  {
    assert Admitted(s, w, i);
    RevertCharges(w, Dispatched(w, SignedCtx(s, b, i)), GuestSpec.Charged.Charged(i.signer.value, w.fee));
  }

  lemma {:induction false} AdvanceSane(s: Setup, w: World, b: Block, i: Input)
    requires Sane(w)
    ensures Sane(Advance(s, w, b, i).0) && Advance(s, w, b, i).0.geo == w.geo
  {
    if i.Signed? {
      SignedEnds(s, w, b, i);
      var (x, reply) := Advance(s, w, b, i);
      if reply.accept {
        var r := Dispatched(w, SignedCtx(s, b, i));
        var from := if Kept(r) then r.w else w;
        ChargeSane(from, i.signer.value, w.fee);
        ChargeBills(from, i.signer.value, w.fee);
      }
    } else if i.Deposit? {
      DepositSteady(s, w, b, i);
    }
  }

  /** Deposits move no nonce. */
  lemma {:induction false} DepositSteady(s: Setup, w: World, b: Block, i: Input)
    requires Sane(w) && i.Deposit?
    ensures Steady(w, Advance(s, w, b, i).0)
  {
    var e := CreditEther(w, i.from, i.mint);
    if e.Did? {
      StoredNonce(w, i.from);
      CreditMoves(w, i.from, i.mint);
      CreditSane(w, i.from, i.mint);
      MovedSteady(w, e.w, i.from, i.mint);
      if i.to.Some? {
        var r := Dispatched(e.w, DepositCtx(s, b, i));
        if Kept(r) {
          DispatchedSteady(e.w, DepositCtx(s, b, i));
          SteadyTrans(w, e.w, r.w);
        }
      }
    }
  }

  /** Each charge moves its payer's nonce one on; nothing else moves any nonce. */
  lemma {:induction false} NonceSteps(s: Setup, w: World, b: Block, i: Input, a: Address)
    requires Sane(w)
    ensures var x := Advance(s, w, b, i).0;
      if ChargedTo(s, w, b, i) == Some(a)
      then i.nonce == AccountOf(w, a).nonce && AccountOf(x, a).nonce == Wrap(AccountOf(w, a).nonce + 1, Pow256(NonceBytes(w.geo)))
      else AccountOf(x, a).nonce == AccountOf(w, a).nonce
  {
    if i.Deposit? {
      DepositSteady(s, w, b, i);
    } else if i.Signed? {
      RejectKeepsAll(s, w, b, i);
      if Advance(s, w, b, i).1.accept {
        var r := Dispatched(w, SignedCtx(s, b, i));
        if Kept(r) { DispatchedSteady(w, SignedCtx(s, b, i)); }
        ChargedNonce(w, r, GuestSpec.Charged.Charged(i.signer.value, w.fee), a);
      }
    }
  }

  /** However a run ended, an accepted reply comes with one nonce moved: the payer's, by one. */
  lemma {:induction false} ChargedNonce(w: World, r: Ran, c: GuestSpec.Charged, a: Address)
    requires Kept(r) ==> Steady(w, r.w)
    requires Finish(w, w, r, Some(c)).1.accept
    ensures AccountOf(Finish(w, w, r, Some(c)).0, a).nonce ==
      if a == c.who then Wrap(AccountOf(w, a).nonce + 1, Pow256(NonceBytes(w.geo))) else AccountOf(w, a).nonce
  {
    var from := if Kept(r) then r.w else w;
    ChargeBills(from, c.who, c.fee);
    assert AccountOf(from, a).nonce == AccountOf(w, a).nonce;
  }

  // ------------------------------------------------------------------ charging, over runs

  ghost function Before(inputs: seq<Timed>): (p: seq<Timed>)
    requires inputs != []
  {
    inputs[..|inputs| - 1]
  }

  lemma {:induction false} RunSane(s: Setup, w: World, inputs: seq<Timed>)
    requires Sane(w)
    ensures Sane(Run(s, w, inputs)) && Run(s, w, inputs).geo == w.geo
    decreases |inputs|
  {
    if inputs != [] {
      RunSane(s, w, Before(inputs));
      var last := inputs[|inputs| - 1];
      AdvanceSane(s, Run(s, w, Before(inputs)), last.block, last.input);
    }
  }

  /** The nonces of the inputs charged to an account, in order. */
  ghost function ChargedNonces(s: Setup, w: World, inputs: seq<Timed>, a: Address): (n: seq<nat>) {
    if inputs == [] then []
    else
      var last := inputs[|inputs| - 1];
      ChargedNonces(s, w, Before(inputs), a) +
      if ChargedTo(s, Run(s, w, Before(inputs)), last.block, last.input) == Some(a) then [last.input.nonce] else []
  }

  lemma {:induction false} WrapAgain(n: nat, p: nat)
    requires p > 0
    ensures Wrap(Wrap(n, p) + 1, p) == Wrap(n + 1, p)
    decreases n
  {
    if n >= p {
      WrapAgain(n - p, p);
      assert n + 1 - p == n - p + 1;
    }
  }

  /** Consecutive from a first nonce, as far as the next one. */
  ghost predicate Consecutive(first: nat, n: seq<nat>, next: nat, p: nat)
    requires p > 0
  {
    next == Wrap(first + |n|, p) && forall k :: 0 <= k < |n| ==> n[k] == Wrap(first + k, p)
  }

  /** Either nothing was charged and the nonce stayed, or the nonce was charged and moved one on. */
  ghost predicate OneCharge(n: seq<nat>, more: seq<nat>, before: nat, now: nat, p: nat)
    requires p > 0
  {
    (more == n && now == before) || (more == n + [before] && now == Wrap(before + 1, p))
  }

  lemma {:induction false} ConsecutiveStep(first: nat, n: seq<nat>, more: seq<nat>, before: nat, now: nat, p: nat)
    requires p > 0 && Consecutive(first, n, before, p) && OneCharge(n, more, before, now, p)
    ensures Consecutive(first, more, now, p)
  {
    WrapAgain(first + |n|, p);
  }

  lemma {:induction false} ChargedStep(s: Setup, w: World, inputs: seq<Timed>, a: Address)
    requires Sane(w) && inputs != []
    ensures OneCharge(ChargedNonces(s, w, Before(inputs), a), ChargedNonces(s, w, inputs, a),
                      AccountOf(Run(s, w, Before(inputs)), a).nonce, AccountOf(Run(s, w, inputs), a).nonce,
                      Pow256(NonceBytes(w.geo)))
  {
    var last := inputs[|inputs| - 1];
    RunSane(s, w, Before(inputs));
    NonceSteps(s, Run(s, w, Before(inputs)), last.block, last.input, a);
  }

  /**
    Replay protection: the nonces charged to an account over any run are consecutive,
    each used once and in order, and the account's nonce is what comes next.
   */
  lemma {:induction false} NoncesAreConsecutive(s: Setup, w: World, inputs: seq<Timed>, a: Address)
    requires Sane(w)
    ensures Consecutive(AccountOf(w, a).nonce, ChargedNonces(s, w, inputs, a), AccountOf(Run(s, w, inputs), a).nonce,
                        Pow256(NonceBytes(w.geo)))
    decreases |inputs|
  {
    if inputs == [] {
      StoredNonce(w, a);
    } else {
      NoncesAreConsecutive(s, w, Before(inputs), a);
      ChargedStep(s, w, inputs, a);
      ConsecutiveStep(AccountOf(w, a).nonce, ChargedNonces(s, w, Before(inputs), a), ChargedNonces(s, w, inputs, a),
                      AccountOf(Run(s, w, Before(inputs)), a).nonce, AccountOf(Run(s, w, inputs), a).nonce,
                      Pow256(NonceBytes(w.geo)));
    }
  }
}
