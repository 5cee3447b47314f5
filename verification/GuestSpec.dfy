/**
  The router over values: parse, enforce, move value, dispatch, and commit one of the
  outcomes accept, revert, fail or reject.
 */
module GuestSpec {
  import opened Options
  import opened ByteCodec
  import opened DriveSpec
  import opened DriveTable
  import opened UndoLog
  import opened LedgerSpec
  import opened Handlers

  // -------------------------------------------------------------- application handlers

  /** The ledger calls open to an application's own handler; none of them moves a nonce. */
  datatype LedgerOp =
    | CreditEtherOp(a: Address, n: nat)
    | DebitEtherOp(a: Address, n: nat)
    | CreditTokenOp(a: Address, id: nat, n: nat)
    | DebitTokenOp(a: Address, id: nat, n: nat)
    | RegisterTokenOp(l1: Address, m: Option<Metadata>)
    | MetadataOp(id: nat, metadata: Metadata)
    | PortalOp(portal: Address, kind: nat)
    | FeeOp(fee: nat)
    | PairOp(pair: CrossDomain)
    | NonceOp
    | StatusOp(hash: Digest, status: Status)

  /** What an application handler does with a call: ledger calls in order, emissions, and an ending. */
  datatype Program = Program(ops: seq<LedgerOp>, out: seq<Emission>, end: Ending)

  const isApp: Address -> bool
  const appPayable: Address -> bool
  const appRun: (World, Ctx) -> Program

  function Attempt(w: World, op: LedgerOp): (e: Effect) {
    match op
    case CreditEtherOp(a, n) => CreditEther(w, a, n)
    case DebitEtherOp(a, n) => DebitEther(w, a, n)
    case CreditTokenOp(a, id, n) => CreditToken(w, a, id, n)
    case DebitTokenOp(a, id, n) => DebitToken(w, a, id, n)
    case RegisterTokenOp(l1, m) => LedgerSpec.RegisterToken(w, l1, m)
    case MetadataOp(id, m) => Did(w.(metadata := w.metadata[id := m]))
    case PortalOp(p, kind) => Did(w.(portals := w.portals[p := kind]))
    case FeeOp(fee) => Did(w.(fee := fee))
    case PairOp(cd) => Did(w.(pair := Some(cd)))
    case NonceOp => Did(w.(msgNonce := w.msgNonce + 1))
    case StatusOp(h, s) => Did(w.(messages := w.messages[h := s]))
  }

  /** A call that throws changes nothing. */
  function Apply(w: World, op: LedgerOp): (x: World) {
    var e := Attempt(w, op);
    if e.Did? then e.w else w
  }

  function ApplyAll(w: World, ops: seq<LedgerOp>): (x: World) {
    if ops == [] then w else Apply(ApplyAll(w, ops[..|ops| - 1]), ops[|ops| - 1])
  }

  // ------------------------------------------------------------------------- routing

  datatype Handler =
    RegistryAt | BridgeAt | ConfigAt | L1BlockAt | MessengerAt | L2BridgeAt | PasserAt | AppAt | PortalAt | FacadeAt

  /** The fixed manifest first, then the portal receiver, then the token facades. */
  function Route(w: World, ctx: Ctx): (h: Option<Handler>) {
    if ctx.to == REGISTRY then Some(RegistryAt)
    else if ctx.to == BRIDGE then Some(BridgeAt)
    else if ctx.to == CONFIG then Some(ConfigAt)
    else if ctx.to == L1_BLOCK then Some(L1BlockAt)
    else if ctx.to == MESSENGER then Some(MessengerAt)
    else if ctx.to == L2_BRIDGE then Some(L2BridgeAt)
    else if ctx.to == MESSAGE_PASSER then Some(PasserAt)
    else if isApp(ctx.to) then Some(AppAt)
    else if ctx.to == ctx.appContract then Some(PortalAt)
    else if ctx.isDeposit && ctx.sender in w.portals then Some(PortalAt)
    else if TokenByL2(w, ctx.to).Some? then Some(FacadeAt)
    else None
  }

  function Payable(h: Handler, to: Address): (p: bool) {
    match h
    case BridgeAt => true
    case MessengerAt => true
    case PasserAt => true
    case PortalAt => true
    case AppAt => appPayable(to)
    case _ => false
  }

  ghost function Handle(h: Handler, w: World, ctx: Ctx): (r: Ran) {
    match h
    case RegistryAt => Ran(w, [], Reverts("not a transaction target"))
    case BridgeAt => BridgeAdvance(w, ctx)
    case ConfigAt => ConfigAdvance(w, ctx)
    case L1BlockAt => L1BlockAdvance(w, ctx)
    case MessengerAt => MessengerAdvance(w, ctx)
    case L2BridgeAt => L2BridgeAdvance(w, ctx)
    case PasserAt => PasserAdvance(w, ctx)
    case PortalAt => PortalAdvance(w, ctx)
    case FacadeAt => FacadeAdvance(w, ctx)
    case AppAt => (var p := appRun(w, ctx); Ran(ApplyAll(w, p.ops), p.out, p.end))
  }

  /** Moving the value and running the handler. */
  ghost function Dispatched(w: World, ctx: Ctx): (r: Ran) {
    var e := MoveEther(w, ctx.sender, ctx.to, ctx.value);
    if e.Thrown? then Ran(w, [], Throws(Describe(e.fault)))
    else
      var h := Route(e.w, ctx);
      if h.None? then Ran(e.w, [], Accepts)
      else if ctx.value > 0 && !Payable(h.value, ctx.to) then Ran(e.w, [], Reverts("not payable"))
      else Handle(h.value, e.w, ctx)
  }

  // ------------------------------------------------------------------------ outcomes

  datatype Outcome = Accepted | Reverted | Faulted | Rejected | Recorded

  datatype Reply = Reply(accept: bool, outcome: Outcome, out: seq<Emission>)

  const REJECTED := Reply(false, Rejected, [])

  datatype Charged = Charged(who: Address, fee: nat)

  function ChargeIf(w: World, charge: Option<Charged>): (e: Effect) {
    if charge.None? then Did(w) else Charge(w, charge.value.who, charge.value.fee)
  }

  /** What survives a revert. */
  function Reports(out: seq<Emission>): (r: seq<Emission>) {
    if out == [] then []
    else Reports(out[..|out| - 1]) + if out[|out| - 1].Report? then [out[|out| - 1]] else []
  }

  /** The charge is the last thing to move, and its refusal rejects the input. */
  function Commit(base: World, w: World, charge: Option<Charged>, outcome: Outcome, out: seq<Emission>): (r: (World, Reply)) {
    var e := ChargeIf(w, charge);
    if e.Thrown? then (base, REJECTED) else (e.w, Reply(true, outcome, out))
  }

  /** Applies a handler's ending: base is the world before the input, mark the one a revert returns to. */
  function Finish(base: World, mark: World, r: Ran, charge: Option<Charged>): (x: (World, Reply)) {
    match r.end
    case Accepts => Commit(base, r.w, charge, Accepted, r.out)
    case Fails(why) => Commit(base, r.w, charge, Faulted, r.out + [Report(FailTag, why)])
    case Reverts(why) => Commit(base, mark, charge, Reverted, Reports(r.out) + [Report(RevertTag, why)])
    case Rejects(_) => (base, REJECTED)
    case Throws(why) =>
      if charge.None? then (base, REJECTED)
      else Commit(base, mark, charge, Reverted, Reports(r.out) + [Report(RevertTag, why)])
  }

  /**
    What a simulation answers: a fault says that running it for real would still change
    state.  Only reverts and faults are told apart, so a handler that rejects is answered
    as one that accepts.
   */
  function Simulated(end: Ending): (r: (bool, Emission)) {
    match end
    case Accepts => (true, Report(ReturnTag, ""))
    case Fails(why) => (false, Report(FailTag, why))
    case Reverts(why) => (false, Report(RevertTag, why))
    case Rejects(_) => (true, Report(ReturnTag, ""))
    case Throws(why) => (false, Report(RevertTag, why))
  }

  // -------------------------------------------------------------------------- inputs

  datatype Block = Block(appContract: Address, inputIndex: nat)
  datatype Setup = Setup(chainId: nat, owner: Address)

  /** A parsed input; a signed one comes with the signer its signature recovers to, if it verifies. */
  datatype Input =
    | Opaque(text: string)
    | Refused(reason: string)
    | Deposit(from: Address, to: Option<Address>, mint: nat, value: nat, data: Data)
    | Signed(signer: Option<Address>, chainId: Option<nat>, nonce: nat, to: Option<Address>, value: nat, data: Data)

  function DepositCtx(s: Setup, b: Block, i: Input): (ctx: Ctx)
    requires i.Deposit? && i.to.Some?
  {
    Ctx(i.from, i.to.value, i.value, i.data, true, b.appContract, b.inputIndex, s.owner)
  }

  function SignedCtx(s: Setup, b: Block, i: Input): (ctx: Ctx)
    requires i.Signed? && i.to.Some? && i.signer.Some?
  {
    Ctx(i.signer.value, i.to.value, i.value, i.data, false, b.appContract, b.inputIndex, s.owner)
  }

  /** A signed transaction passes enforcement: it names this chain, verifies, carries the next nonce and can pay. */
  predicate Admitted(s: Setup, w: World, i: Input)
    requires i.Signed?
  {
    && i.to.Some? && (i.chainId.Some? ==> i.chainId.value == s.chainId)
    && i.signer.Some? && !IsZero(i.signer.value)
    && i.nonce == AccountOf(w, i.signer.value).nonce
    && AccountOf(w, i.signer.value).balance >= w.fee + i.value
  }

  ghost function Advance(s: Setup, w: World, b: Block, i: Input): (r: (World, Reply)) {
    match i
    case Opaque(text) => (w, Reply(true, Recorded, [Report(AppTag, text)]))
    case Refused(_) => (w, REJECTED)
    case Deposit(from, to, mint, _, _) =>
      var e := CreditEther(w, from, mint);
      if e.Thrown? then (w, REJECTED)
      else if to.None? then (e.w, Reply(true, Accepted, []))
      else Finish(w, e.w, Dispatched(e.w, DepositCtx(s, b, i)), None)
    case Signed(signer, _, _, _, _, _) =>
      if !Admitted(s, w, i) then (w, REJECTED)
      else Finish(w, w, Dispatched(w, SignedCtx(s, b, i)), Some(Charged(signer.value, w.fee)))
  }

  datatype Timed = Timed(block: Block, input: Input)

  ghost function Run(s: Setup, w: World, inputs: seq<Timed>): (x: World) {
    if inputs == [] then w
    else
      var last := inputs[|inputs| - 1];
      Advance(s, Run(s, w, inputs[..|inputs| - 1]), last.block, last.input).0
  }
}
