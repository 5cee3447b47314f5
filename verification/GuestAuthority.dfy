/**
  Who may do what, over whole runs of the built-in handlers: only the L1 messenger brings
  a message in, only the owner changes a setting, and no outgoing message reuses a nonce.
 */
module GuestAuthority {
  import opened Options
  import opened ByteCodec
  import opened DriveSpec
  import opened DriveTable
  import opened UndoLog
  import opened LedgerSpec
  import opened LedgerLaws
  import opened Handlers
  import opened AcceptedCalls
  import opened GuestSpec
  import opened GuestLaws
  import opened GuestValue
  import opened GuestOutcomes

  // ---------------------------------------------------------------- the steps of a run

  /** Everything but accounts and holdings: what an input may do by authority only. */
  datatype Standing = Standing(
    fee: nat, portals: map<Address, nat>, pair: Option<CrossDomain>, metadata: map<nat, Metadata>, msgNonce: nat,
    messages: map<Digest, Status>)

  function StandingOf(w: World): (s: Standing) {
    Standing(w.fee, w.portals, w.pair, w.metadata, w.msgNonce, w.messages)
  }

  /** How an accepted call may change standing: the owner configures, the bridge sends, the messenger relays. */
  ghost predicate Authorised(h: Option<Handler>, w: World, x: World, ctx: Ctx, out: seq<Emission>) {
    var a, b := StandingOf(w), StandingOf(x);
    if h == Some(ConfigAt) then Configured(w, x, ctx, out)
    else if h == Some(L2BridgeAt) then b == a.(msgNonce := a.msgNonce + 1) && SendsOne(out, versionedNonce(a.msgNonce))
    else if h == Some(MessengerAt) then OnlyRelayed(w, x, ctx, out)
    else b == a && Silent(out)
  }

  ghost predicate Configured(w: World, x: World, ctx: Ctx, out: seq<Emission>) {
    ctx.sender == ctx.owner && x.msgNonce == w.msgNonce && x.messages == w.messages && Silent(out)
  }

  ghost predicate OnlyRelayed(w: World, x: World, ctx: Ctx, out: seq<Emission>) {
    && StandingOf(x) == StandingOf(w).(messages := x.messages) && Silent(out)
    && w.pair.Some? && decodeRelay(ctx.data).Some? && RelaysOne(w, x, ctx, decodeRelay(ctx.data).value)
  }

  /** One message's status is set; if it had none, its first delivery set it. */
  ghost predicate RelaysOne(w: World, x: World, ctx: Ctx, m: CrossDomainMessage)
    requires w.pair.Some?
  {
    && (forall h: Digest :: h != MessageHash(m) ==> StatusOf(x, h) == StatusOf(w, h))
    && StatusOf(x, MessageHash(m)).Some?
    && (StatusOf(w, MessageHash(m)).None? ==> FirstDelivery(w, ctx, m, w.pair.value))
  }

  /** The nonce of an outgoing message, where an emission announces one. */
  function SentAt(e: Emission): (n: Option<nat>) {
    if e.Logged? && e.emitter == MESSENGER && e.event.Sent? then Some(e.event.nonce) else None
  }

  ghost predicate Silent(out: seq<Emission>) {
    forall k :: 0 <= k < |out| ==> SentAt(out[k]).None?
  }

  ghost predicate SendsOne(out: seq<Emission>, nonce: nat) {
    exists j :: 0 <= j < |out| && SentAt(out[j]) == Some(nonce) && forall k :: 0 <= k < |out| && k != j ==> SentAt(out[k]).None?
  }

  lemma {:induction false} AccountsStand(w: World, x: World)
    requires OnlyAccounts(w, x)
    ensures StandingOf(x) == StandingOf(w)
  {
  }

  lemma {:induction false} TokensStand(w: World, x: World)
    requires x == w.(view := x.view, supply := x.supply)
    ensures StandingOf(x) == StandingOf(w)
  {
  }

  lemma {:induction false} BridgeStands(w: World, ctx: Ctx)
    requires Sane(w) && BridgeAdvance(w, ctx).end.Accepts?
    ensures StandingOf(BridgeAdvance(w, ctx).w) == StandingOf(w) && Silent(BridgeAdvance(w, ctx).out)
  {
    var r, call := BridgeAdvance(w, ctx), decodeBridge(ctx.data);
    if call.WithdrawEther? {
      EtherLeaves(w, ctx, call.to);
      AccountsStand(w, r.w);
    } else {
      TokensLeave(w, ctx, call.l2Token, call.to, call.amount);
    }
  }

  lemma {:induction false} TokenPortalStands(w: World, ctx: Ctx, l1: Address, to: Address, n: nat)
    requires PortalAdvance(w, ctx).end.Accepts? && w.portals[ctx.sender] != PORTAL_ETHER
    requires |ctx.data| >= 72 ==> l1 == ctx.data[..20] && to == ctx.data[20..40] && n == FromBE(ctx.data[40..72])
    ensures StandingOf(PortalAdvance(w, ctx).w) == StandingOf(w) && Silent(PortalAdvance(w, ctx).out)
  {
    var id := TokensArrive(w, ctx, l1, to, n);
    TokensStand(w, PortalAdvance(w, ctx).w);
  }

  lemma {:induction false} EtherPortalStands(w: World, ctx: Ctx)
    requires Sane(w) && PortalAdvance(w, ctx).end.Accepts? && w.portals[ctx.sender] == PORTAL_ETHER
    ensures StandingOf(PortalAdvance(w, ctx).w) == StandingOf(w) && Silent(PortalAdvance(w, ctx).out)
  {
    EtherArrives(w, ctx);
    AccountsStand(w, PortalAdvance(w, ctx).w);
  }

  lemma {:induction false} PortalStands(w: World, ctx: Ctx)
    requires Sane(w) && PortalAdvance(w, ctx).end.Accepts?
    ensures StandingOf(PortalAdvance(w, ctx).w) == StandingOf(w) && Silent(PortalAdvance(w, ctx).out)
  {
    OnlyPortalsDeposit(w, ctx);
    if w.portals[ctx.sender] == PORTAL_ETHER {
      EtherPortalStands(w, ctx);
    } else {
      TokenPortalStands(w, ctx, ctx.data[..20], ctx.data[20..40], FromBE(ctx.data[40..72]));
    }
  }

  lemma {:induction false} ConfigStands(w: World, ctx: Ctx)
    requires ConfigAdvance(w, ctx).end.Accepts?
    ensures Configured(w, ConfigAdvance(w, ctx).w, ctx, ConfigAdvance(w, ctx).out)
  {
    OwnerConfigures(w, ctx);
  }

  lemma {:induction false} BridgingSends(w: World, ctx: Ctx)
    requires Sane(w) && L2BridgeAdvance(w, ctx).end.Accepts?
    ensures var r := L2BridgeAdvance(w, ctx);
      StandingOf(r.w) == StandingOf(w).(msgNonce := w.msgNonce + 1) && SendsOne(r.out, versionedNonce(w.msgNonce))
  {
    var r := L2BridgeAdvance(w, ctx);
    TokensBridge(w, ctx);
    assert SentAt(r.out[4]) == Some(versionedNonce(w.msgNonce));
  }

  lemma {:induction false} DeliveredStands(w: World, x: World, m: CrossDomainMessage)
    requires Delivered(w, x, m)
    ensures StandingOf(x) == StandingOf(w)
  {
  }

  lemma {:induction false} StatusSet(w: World, x: World, ctx: Ctx, m: CrossDomainMessage, status: Status)
    requires w.pair.Some? && x.messages == w.messages[MessageHash(m) := status]
    requires FirstDelivery(w, ctx, m, w.pair.value) || Retry(w, ctx, m, w.pair.value)
    ensures RelaysOne(w, x, ctx, m)
  {
  }

  lemma {:induction false} AnnouncedSilent(m: CrossDomainMessage, e: Emission)
    requires SentAt(e).None?
    ensures Silent(Then(Announced(m), e)) && Silent([e])
  {
  }

  lemma {:induction false} MessengerStands(w: World, ctx: Ctx)
    requires Sane(w) && MessengerAdvance(w, ctx).end.Accepts?
    ensures OnlyRelayed(w, MessengerAdvance(w, ctx).w, ctx, MessengerAdvance(w, ctx).out)
  {
    RelayedExactly(w, ctx);
    RelayDelivers(w, ctx);
    var r, m := MessengerAdvance(w, ctx), decodeRelay(ctx.data).value;
    AnnouncedSilent(m, Logged(MESSENGER, Relayed(MessageHash(m), false)));
    if GoesThrough(w, m, w.pair.value) {
      DeliveredStands(w, r.w.(messages := w.messages), m);
      StatusSet(w, r.w, ctx, m, Successful);
    } else {
      StatusSet(w, r.w, ctx, m, Failed);
    }
  }

  lemma {:induction false} FacadeStands(w: World, ctx: Ctx)
    requires FacadeAdvance(w, ctx).end.Accepts?
    ensures StandingOf(FacadeAdvance(w, ctx).w) == StandingOf(w) && Silent(FacadeAdvance(w, ctx).out)
  {
    TransferPasses(w, ctx);
  }

  lemma {:induction false} PasserStands(w: World, ctx: Ctx)
    requires Sane(w) && PasserAdvance(w, ctx).end.Accepts?
    ensures StandingOf(PasserAdvance(w, ctx).w) == StandingOf(w) && Silent(PasserAdvance(w, ctx).out)
  {
    PasserLeaves(w, ctx);
    AccountsStand(w, PasserAdvance(w, ctx).w);
  }

  lemma {:induction false} HandleAuthorised(h: Handler, w: World, ctx: Ctx)
    requires Sane(w) && !h.AppAt? && Handle(h, w, ctx).end.Accepts?
    ensures Authorised(Some(h), w, Handle(h, w, ctx).w, ctx, Handle(h, w, ctx).out)
  {
    match h
    case BridgeAt => BridgeStands(w, ctx);
    case ConfigAt => ConfigStands(w, ctx);
    case L2BridgeAt => BridgingSends(w, ctx);
    case MessengerAt => MessengerStands(w, ctx);
    case PasserAt => PasserStands(w, ctx);
    case PortalAt => PortalStands(w, ctx);
    case FacadeAt => FacadeStands(w, ctx);
    case L1BlockAt =>
    case RegistryAt =>
  }

  // ----------------------------------------------------------------------- one input

  lemma {:induction false} AuthorisedSame(h: Option<Handler>, w: World, mid: World, x: World, ctx: Ctx, out: seq<Emission>)
    requires OnlyAccounts(w, mid) && Authorised(h, mid, x, ctx, out)
    ensures Authorised(h, w, x, ctx, out)
  {
    assert mid.messages == w.messages && mid.pair == w.pair;
    if h == Some(MessengerAt) {
      var m := decodeRelay(ctx.data).value;
      forall d: Digest ensures StatusOf(mid, d) == StatusOf(w, d) {}
      assert RelaysOne(mid, x, ctx, m);
    }
  }

  lemma {:induction false} DispatchAuthorised(w: World, ctx: Ctx)
    requires Sane(w) && BuiltInsOnly() && Dispatched(w, ctx).end.Accepts?
    ensures Authorised(Route(w, ctx), w, Dispatched(w, ctx).w, ctx, Dispatched(w, ctx).out)
  {
    var mid := DispatchMoves(w, ctx);
    var h, r := Route(w, ctx), Dispatched(w, ctx);
    RoutedExactly(w, ctx);
    if h.Some? {
      HandleAuthorised(h.value, mid, ctx);
      AuthorisedSame(h, w, mid, r.w, ctx, r.out);
    }
  }

  /** The call an input makes, where it makes one. */
  function CallOf(s: Setup, b: Block, i: Input): (c: Option<Ctx>) {
    if i.Deposit? && i.to.Some? then Some(DepositCtx(s, b, i))
    else if i.Signed? && i.to.Some? && i.signer.Some? then Some(SignedCtx(s, b, i))
    else None
  }

  /** Nothing by authority was done. */
  ghost predicate Unmoved(w: World, x: World, out: seq<Emission>) {
    StandingOf(x) == StandingOf(w) && Silent(out)
  }

  /** An input does nothing by authority, or what its call is authorised to do. */
  ghost predicate InputAuthorised(s: Setup, w: World, b: Block, i: Input, x: World, out: seq<Emission>) {
    || Unmoved(w, x, out)
    || var c := CallOf(s, b, i); c.Some? && Authorised(Route(w, c.value), w, x, c.value, out)
  }

  lemma {:induction false} ReportsSilent(out: seq<Emission>, why: Emission)
    requires why.Report?
    ensures Silent(Reports(out) + [why])
  {
    ReportsCarryNothing(out);
  }

  /** How a run ends, with whatever charge: its kept ledger and output, or nothing but reports. */
  lemma {:induction false} FinishStands(base: World, mark: World, r: Ran, charge: Option<GuestSpec.Charged>)
    requires !r.end.Fails? && Finish(base, mark, r, charge).1.accept
    ensures var (x, reply) := Finish(base, mark, r, charge);
      if r.end.Accepts? then StandingOf(x) == StandingOf(r.w) && reply.out == r.out
      else StandingOf(x) == StandingOf(mark) && Silent(reply.out)
  {
    var from := if r.end.Accepts? then r.w else mark;
    if charge.Some? { ChargeBills(from, charge.value.who, charge.value.fee); }
    match r.end
    case Accepts =>
    case Reverts(why) => ReportsSilent(r.out, Report(RevertTag, why));
    case Throws(why) => ReportsSilent(r.out, Report(RevertTag, why));
    case Rejects(_) =>
  }

  lemma {:induction false} AuthorisedAfter(h: Option<Handler>, w: World, y: World, x: World, ctx: Ctx, out: seq<Emission>)
    requires Authorised(h, w, y, ctx, out) && StandingOf(x) == StandingOf(y)
    ensures Authorised(h, w, x, ctx, out)
  {
    assert x.messages == y.messages && x.msgNonce == y.msgNonce;
    if h == Some(MessengerAt) {
      forall d: Digest ensures StatusOf(x, d) == StatusOf(y, d) {}
      assert RelaysOne(w, y, ctx, decodeRelay(ctx.data).value);
    }
  }

  lemma {:induction false} RunAuthorised(base: World, mark: World, ctx: Ctx, charge: Option<GuestSpec.Charged>)
    requires Sane(mark) && BuiltInsOnly() && OnlyAccounts(base, mark)
    requires Finish(base, mark, Dispatched(mark, ctx), charge).1.accept
    ensures var (x, reply) := Finish(base, mark, Dispatched(mark, ctx), charge);
      Unmoved(base, x, reply.out) || Authorised(Route(base, ctx), base, x, ctx, reply.out)
  {
    var r := Dispatched(mark, ctx);
    var x := Finish(base, mark, r, charge).0;
    NeverFails(mark, ctx);
    FinishStands(base, mark, r, charge);
    if r.end.Accepts? {
      DispatchAuthorised(mark, ctx);
      SameRoute(base, mark, ctx);
      AuthorisedSame(Route(base, ctx), base, mark, r.w, ctx, r.out);
      AuthorisedAfter(Route(base, ctx), base, r.w, x, ctx, r.out);
    }
  }

  lemma {:induction false} SilentStep(s: Setup, w: World, b: Block, i: Input)
    requires i.Opaque? || i.Refused? || !Advance(s, w, b, i).1.accept
    ensures Unmoved(w, Advance(s, w, b, i).0, Advance(s, w, b, i).1.out)
  {
    SilentReply(s, w, b, i);
    RejectSilent(s, w, b, i);
  }

  lemma {:induction false} StepAuthorised(s: Setup, w: World, b: Block, i: Input)
    requires Sane(w) && BuiltInsOnly()
    ensures InputAuthorised(s, w, b, i, Advance(s, w, b, i).0, Advance(s, w, b, i).1.out)
  {
    var reply := Advance(s, w, b, i).1;
    if i.Opaque? || i.Refused? || !reply.accept {
      SilentStep(s, w, b, i);
    } else if i.Signed? {
      SignedIs(s, w, b, i);
      RunAuthorised(w, w, SignedCtx(s, b, i), Some(GuestSpec.Charged.Charged(i.signer.value, w.fee)));
    } else {
      var minted := CreditEther(w, i.from, i.mint).w;
      StoredNonce(w, i.from);
      CreditMoves(w, i.from, i.mint);
      CreditSane(w, i.from, i.mint);
      if i.to.Some? { RunAuthorised(w, minted, DepositCtx(s, b, i), None); }
    }
  }

  // -------------------------------------------------------------------- whole runs

  lemma {:induction false} RunStep(s: Setup, w: World, inputs: seq<Timed>)
    requires Sane(w) && BuiltInsOnly() && inputs != []
    ensures var last, mid := inputs[|inputs| - 1], Run(s, w, Before(inputs));
      InputAuthorised(s, mid, last.block, last.input, Run(s, w, inputs), Advance(s, mid, last.block, last.input).1.out)
  {
    RunSane(s, w, Before(inputs));
    StepAuthorised(s, Run(s, w, Before(inputs)), inputs[|inputs| - 1].block, inputs[|inputs| - 1].input);
  }

  /** The input is the registered L1 messenger's own deposit of the message, with the value it carries. */
  ghost predicate BroughtBy(w: World, i: Input, h: Digest) {
    && i.Deposit? && i.to == Some(MESSENGER) && w.pair.Some? && i.from == w.pair.value.l1MessengerAliased
    && decodeRelay(i.data).Some? && MessageHash(decodeRelay(i.data).value) == h && i.value == decodeRelay(i.data).value.value
  }

  lemma {:induction false} FirstBrought(s: Setup, w: World, b: Block, i: Input, x: World, out: seq<Emission>, h: Digest)
    requires InputAuthorised(s, w, b, i, x, out) && StatusOf(w, h).None? && StatusOf(x, h).Some?
    ensures BroughtBy(w, i, h)
  {
    assert StandingOf(x).messages == x.messages && StandingOf(w).messages == w.messages;
    RoutedExactly(w, CallOf(s, b, i).value);
  }

  /**
    Every message the messenger knows of was brought by L1: the first time a run gives a
    message any status, the input is a deposit from the L1 messenger then registered.
   */
  lemma {:induction false} OnlyL1BringsMessages(s: Setup, w: World, inputs: seq<Timed>, h: Digest) returns (k: nat)
    requires Sane(w) && BuiltInsOnly() && StatusOf(w, h).None? && StatusOf(Run(s, w, inputs), h).Some?
    ensures k < |inputs| && StatusOf(Run(s, w, inputs[..k]), h).None? && BroughtBy(Run(s, w, inputs[..k]), inputs[k].input, h)
    decreases |inputs|
  {
    var mid := Run(s, w, Before(inputs));
    if StatusOf(mid, h).Some? {
      k := OnlyL1BringsMessages(s, w, Before(inputs), h);
      assert Before(inputs)[..k] == inputs[..k];
    } else {
      k := |inputs| - 1;
      var last := inputs[k];
      RunStep(s, w, inputs);
      FirstBrought(s, mid, last.block, last.input, Run(s, w, inputs), Advance(s, mid, last.block, last.input).1.out, h);
    }
  }

  /** What only the owner may set. */
  datatype Settings = Settings(fee: nat, portals: map<Address, nat>, pair: Option<CrossDomain>, metadata: map<nat, Metadata>)

  function SettingsOf(w: World): (r: Settings) {
    Settings(w.fee, w.portals, w.pair, w.metadata)
  }

  /** The input is the owner's call to the configuration contract. */
  ghost predicate ByOwner(s: Setup, i: Input) {
    || (i.Signed? && i.signer == Some(s.owner) && i.to == Some(CONFIG))
    || (i.Deposit? && i.from == s.owner && i.to == Some(CONFIG))
  }

  lemma {:induction false} OwnerMoved(s: Setup, w: World, b: Block, i: Input, x: World, out: seq<Emission>)
    requires InputAuthorised(s, w, b, i, x, out) && SettingsOf(x) != SettingsOf(w)
    ensures ByOwner(s, i)
  {
    assert SettingsOf(x) == Settings(StandingOf(x).fee, StandingOf(x).portals, StandingOf(x).pair, StandingOf(x).metadata);
    assert SettingsOf(w) == Settings(StandingOf(w).fee, StandingOf(w).portals, StandingOf(w).pair, StandingOf(w).metadata);
    RoutedExactly(w, CallOf(s, b, i).value);
  }

  /** Fee, portals, the messaging pair and token metadata change over a run only by an input of the owner. */
  lemma {:induction false} OnlyTheOwnerConfigures(s: Setup, w: World, inputs: seq<Timed>) returns (k: nat)
    requires Sane(w) && BuiltInsOnly() && SettingsOf(Run(s, w, inputs)) != SettingsOf(w)
    ensures k < |inputs| && ByOwner(s, inputs[k].input)
    decreases |inputs|
  {
    var mid := Run(s, w, Before(inputs));
    if SettingsOf(mid) != SettingsOf(w) {
      k := OnlyTheOwnerConfigures(s, w, Before(inputs));
    } else {
      k := |inputs| - 1;
      var last := inputs[k];
      RunStep(s, w, inputs);
      OwnerMoved(s, mid, last.block, last.input, Run(s, w, inputs), Advance(s, mid, last.block, last.input).1.out);
    }
  }

  /** The nonces of the messages announced by the first k emissions. */
  function SentIn(out: seq<Emission>, k: nat): (n: seq<nat>)
    requires k <= |out|
  {
    if k == 0 then [] else SentIn(out, k - 1) + if SentAt(out[k - 1]).Some? then [SentAt(out[k - 1]).value] else []
  }

  lemma {:induction false} NoneSent(out: seq<Emission>, k: nat)
    requires k <= |out| && forall i :: 0 <= i < k ==> SentAt(out[i]).None?
    ensures SentIn(out, k) == []
  {
    if k > 0 { NoneSent(out, k - 1); }
  }

  lemma {:induction false} OneSent(out: seq<Emission>, j: nat, nonce: nat, k: nat)
    requires j < k <= |out| && SentAt(out[j]) == Some(nonce) && forall i :: 0 <= i < k && i != j ==> SentAt(out[i]).None?
    ensures SentIn(out, k) == [nonce]
  {
    if k == j + 1 { NoneSent(out, j); } else { OneSent(out, j, nonce, k - 1); }
  }

  /** Either no message was sent, or one, under the counter's nonce, and the counter moved on. */
  ghost predicate SendsNext(before: nat, sent: seq<nat>, now: nat) {
    || (now == before && sent == [])
    || (now == before + 1 && sent == [versionedNonce(before)])
  }

  /** Nonces counted up from a first one, as far as the next. */
  ghost predicate CountedUp(first: nat, n: seq<nat>, next: nat) {
    next == first + |n| && forall k :: 0 <= k < |n| ==> n[k] == versionedNonce(first + k)
  }

  lemma {:induction false} CountedOn(first: nat, n: seq<nat>, before: nat, sent: seq<nat>, now: nat)
    requires CountedUp(first, n, before) && SendsNext(before, sent, now)
    ensures CountedUp(first, n + sent, now)
  {
  }

  lemma {:induction false} SentStep(s: Setup, w: World, b: Block, i: Input, x: World, out: seq<Emission>)
    requires InputAuthorised(s, w, b, i, x, out)
    ensures SendsNext(w.msgNonce, SentIn(out, |out|), x.msgNonce)
  {
    if Silent(out) {
      NoneSent(out, |out|);
      assert StandingOf(x).msgNonce == x.msgNonce && StandingOf(w).msgNonce == w.msgNonce;
    } else {
      var j :| 0 <= j < |out| && SentAt(out[j]) == Some(versionedNonce(w.msgNonce)) &&
        forall k :: 0 <= k < |out| && k != j ==> SentAt(out[k]).None?;
      OneSent(out, j, versionedNonce(w.msgNonce), |out|);
    }
  }

  /** The nonces of the messages sent over a run, in order. */
  ghost function NoncesSent(s: Setup, w: World, inputs: seq<Timed>): (n: seq<nat>) {
    if inputs == [] then []
    else
      var last := inputs[|inputs| - 1];
      var out := Advance(s, Run(s, w, Before(inputs)), last.block, last.input).1.out;
      NoncesSent(s, w, Before(inputs)) + SentIn(out, |out|)
  }

  /** Outgoing messages are numbered on from the counter, one after the other: no nonce is used twice and none is skipped. */
  lemma {:induction false} MessagesAreNumbered(s: Setup, w: World, inputs: seq<Timed>)
    requires Sane(w) && BuiltInsOnly()
    ensures CountedUp(w.msgNonce, NoncesSent(s, w, inputs), Run(s, w, inputs).msgNonce)
    decreases |inputs|
  {
    if inputs != [] {
      var last, mid := inputs[|inputs| - 1], Run(s, w, Before(inputs));
      MessagesAreNumbered(s, w, Before(inputs));
      var out := Advance(s, mid, last.block, last.input).1.out;
      RunStep(s, w, inputs);
      SentStep(s, mid, last.block, last.input, Run(s, w, inputs), out);
      CountedOn(w.msgNonce, NoncesSent(s, w, Before(inputs)), mid.msgNonce, SentIn(out, |out|), Run(s, w, inputs).msgNonce);
    }
  }
}
