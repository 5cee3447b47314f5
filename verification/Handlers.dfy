/**
  What the guest's built-in handlers do with a call, over values: the bridge, the
  message passer, the token facades, the portal receiver, the configuration contract,
  and the standard messenger and bridge pair.
 */
module Handlers {
  import opened Options
  import opened ByteCodec
  import opened DriveSpec
  import opened DriveTable
  import opened UndoLog
  import opened LedgerSpec

  type Data = seq<Byte>

  // ------------------------------------------------------------------- addresses

  /** Sixteen or more zero bytes between a two-byte prefix and a two-byte suffix. */
  function SystemAddress(first: Byte, second: Byte, last: Byte): (a: Address) {
    [first, second] + Zeros(17) + [last]
  }

  const MESSENGER := SystemAddress(0x42, 0x00, 0x07)
  const L2_BRIDGE := SystemAddress(0x42, 0x00, 0x10)
  const L1_BLOCK := SystemAddress(0x42, 0x00, 0x15)
  const MESSAGE_PASSER := SystemAddress(0x42, 0x00, 0x16)
  const REGISTRY := SystemAddress(0xc7, 0x51, 0x00)
  const BRIDGE := SystemAddress(0xc7, 0x51, 0x01)
  const CONFIG := SystemAddress(0xc7, 0x51, 0x02)
  const NOBODY: Address := Zeros(20)

  const PORTAL_ETHER := 0
  const PORTAL_ERC20 := 1
  const MESSAGE_VERSION := 1
  const DEFAULT_GAS := 100_000

  // --------------------------------------------------------------------- messages

  datatype CrossDomainMessage = CrossDomainMessage(
    nonce: nat, sender: Address, target: Address, value: nat, minGasLimit: nat, message: Data)

  const encodeRelay: CrossDomainMessage -> Data
  const nonceVersion: nat -> nat
  const versionedNonce: nat -> nat
  const withdrawalNonce: (nat, nat) -> nat
  const baseGas: (nat, nat) -> nat
  const l1ToL2Alias: Address -> Address

  function MessageHash(m: CrossDomainMessage): (h: Digest) {
    keccak256(encodeRelay(m))
  }

  // -------------------------------------------------------------- decoded calldata

  datatype BridgeCall = WithdrawEther(to: Address) | WithdrawERC20(l2Token: Address, to: Address, amount: nat) | NoBridgeCall
  datatype PasserCall = InitiateWithdrawal(target: Address, gasLimit: nat, data: Data) | NoPasserCall
  datatype FacadeCall = Transfer(to: Address, value: nat) | OtherFacadeCall | NoFacadeCall
  datatype L2BridgeCall =
    | BridgeERC20(local: Address, remote: Address, amount: nat, minGas: nat, extra: Data)
    | BridgeERC20To(local: Address, remote: Address, to: Address, amount: nat, minGas: nat, extra: Data)
    | FinalizeERC20(local: Address, remote: Address, from: Address, to: Address, amount: nat, extra: Data)
    | FinalizeETH(from: Address, to: Address, amount: nat, extra: Data)
    | OtherL2BridgeCall
    | NoL2BridgeCall
  datatype ConfigCall =
    | SetFee(fee: nat)
    | RegisterPortal(kind: nat, portal: Address)
    | RegisterMessenger(l1Messenger: Address, l1Bridge: Address)
    | RegisterTokenCall(l1Token: Address, metadata: Metadata)
    | SetTokenMetadata(l1Token: Address, metadata: Metadata)
    | OtherConfigCall
    | NoConfigCall

  const decodeBridge: Data -> BridgeCall
  const decodePasser: Data -> PasserCall
  const decodeFacade: Data -> FacadeCall
  const decodeL2Bridge: Data -> L2BridgeCall
  const decodeRelay: Data -> Option<CrossDomainMessage>
  const decodeConfig: Data -> ConfigCall
  /** Whether calldata is one of the two attribute setters, with all their fields. */
  const decodeAttributes: Data -> Option<bool>
  const encodeFinalizeERC20: (Address, Address, Address, Address, nat, Data) -> Data
  const encodeTransfer: (Address, nat) -> Data

  // --------------------------------------------------------------------- emissions

  datatype Withdrawal = Withdrawal(nonce: nat, sender: Address, target: Address, value: nat, gasLimit: nat, data: Data)

  datatype Event =
    | Transferred(from: Address, to: Address, amount: nat)
    | MessagePassed(withdrawal: Withdrawal)
    | Relayed(hash: Digest, failed: bool)
    | Sent(target: Address, sender: Address, message: Data, nonce: nat, gasLimit: nat)
    | SentExtension(sender: Address, value: nat)
    | Initiated(local: Address, remote: Address, from: Address, to: Address, amount: nat, extra: Data)
    | Finalized(local: Address, remote: Address, from: Address, to: Address, amount: nat, extra: Data)
    | EthFinalized(from: Address, to: Address, amount: nat, extra: Data)
    | FeeSet(fee: nat)
    | PortalRegistered(kind: nat, portal: Address, aliased: Address)
    | MessengerRegistered(l1Messenger: Address, l1Bridge: Address)
    | TokenRegistered(l1Token: Address, l2Token: Address, id: nat)

  datatype Tag = AppTag | ReturnTag | RevertTag | FailTag

  datatype Emission =
    | Withdrawn(withdrawal: Withdrawal)
    | Logged(emitter: Address, event: Event)
    | Voucher(destination: Address, payload: Data)
    | Report(tag: Tag, text: string)

  // -------------------------------------------------------------------- a handler run
  // The router hands every handler an empty sink, so a run's output is all its own.

  datatype Ctx = Ctx(
    sender: Address, to: Address, value: nat, data: Data, isDeposit: bool, appContract: Address, inputIndex: nat, owner: Address)

  /** How a handler ends: one of its outcomes, or a throw. */
  datatype Ending =
    Accepts | Reverts(why: string) | Fails(why: string) | Rejects(why: string) | Throws(why: string)

  datatype Ran = Ran(w: World, out: seq<Emission>, end: Ending)

  function Withdrawals(out: seq<Emission>): (n: nat) {
    if out == [] then 0
    else Withdrawals(out[..|out| - 1]) + if out[|out| - 1].Withdrawn? then 1 else 0
  }

  /** A withdrawal and the event that announces it. */
  function WithWithdrawal(ctx: Ctx, out: seq<Emission>, sender: Address, target: Address, value: nat, gas: nat,
                          data: Data): (r: seq<Emission>) {
    var m := Withdrawal(withdrawalNonce(ctx.inputIndex, Withdrawals(out)), sender, target, value, gas, data);
    out + [Withdrawn(m), Logged(MESSAGE_PASSER, MessagePassed(m))]
  }

  /** One more emission at the end. */
  function Then(out: seq<Emission>, e: Emission): (r: seq<Emission>) {
    if out == [] then [e] else out + [e]
  }

  /** The withdrawal of a call that has emitted none before. */
  function Leaving(ctx: Ctx, sender: Address, target: Address, value: nat, gas: nat, data: Data): (r: seq<Emission>) {
    var m := Withdrawal(withdrawalNonce(ctx.inputIndex, 0), sender, target, value, gas, data);
    [Withdrawn(m), Logged(MESSAGE_PASSER, MessagePassed(m))]
  }

  function Describe(f: Fault): (s: string) {
    match f
    case Insufficient(what) => "insufficient " + match what {
      case EtherBalance => "ether balance" case TokenBalance => "token balance" case FeeBalance => "fee"
    }
    case Unsupported(what) => what
    case Drive(why) => "drive: " + match why {
      case ZeroAddress => "zeroAddress" case Overflow => "overflow" case TableFull => "tableFull"
      case RegistryFull => "registryFull" case DuplicateToken => "duplicateToken" case BadWidth => "badWidth"
      case NoSuchProfile => "profile" case UnknownToken => "unknownToken" case NonceProtected => "nonceProtected"
    }
  }

  /** A call whose only failure is one throw, turned into an ending. */
  function Try(w: World, e: Effect, insufficient: Option<string>): (r: Ran) {
    match e
    case Did(x) => Ran(x, [], Accepts)
    case Thrown(f) =>
      if f.Insufficient? && insufficient.Some? then Ran(w, [], Reverts(insufficient.value))
      else Ran(w, [], Throws(Describe(f)))
  }

  // ------------------------------------------------------------------------- bridge

  /** The ether path: the bridge burns what the router credited it. */
  function BurnEther(w: World, ctx: Ctx, to: Address): (r: Ran) {
    if ctx.value == 0 then Ran(w, [], Reverts("withdrawEther: no value"))
    else
      var r := Try(w, DebitEther(w, ctx.to, ctx.value), None);
      if !r.end.Accepts? then r
      else r.(out := Leaving(ctx, ctx.sender, to, ctx.value, DEFAULT_GAS, []))
  }

  /** The token path: a voucher, refused where the standard bridge holds the escrow. */
  function BurnTokens(w: World, ctx: Ctx, l2Token: Address, to: Address, amount: nat): (r: Ran) {
    if w.pair.Some? then Ran(w, [], Reverts("ERC-20 leaves through the standard bridge"))
    else
      var token := TokenByL2(w, l2Token);
      if token.None? then Ran(w, [], Reverts("unknown token"))
      else
        FacadesName(w.view.tokens, l2Token);
        var r := Try(w, DebitToken(w, ctx.sender, token.value, amount), Some("withdrawERC20: amount exceeds balance"));
        if !r.end.Accepts? then r
        else r.(out := [Voucher(w.view.tokens[token.value].address, encodeTransfer(to, amount)),
                              Logged(l2Token, Transferred(ctx.sender, NOBODY, amount))])
  }

  function BridgeAdvance(w: World, ctx: Ctx): (r: Ran) {
    match decodeBridge(ctx.data)
    case NoBridgeCall => Ran(w, [], Reverts("unknown function"))
    case WithdrawEther(to) => BurnEther(w, ctx, to)
    case WithdrawERC20(l2Token, to, amount) => BurnTokens(w, ctx, l2Token, to, amount)
  }

  // ------------------------------------------------------------------ message passer

  function PasserAdvance(w: World, ctx: Ctx): (r: Ran) {
    var call := decodePasser(ctx.data);
    if ctx.data != [] && call.NoPasserCall? then Ran(w, [], Reverts("unknown function"))
    else
      var r := Try(w, DebitEther(w, ctx.to, ctx.value), None);
      if !r.end.Accepts? then r
      else if ctx.data == [] then r.(out := Leaving(ctx, ctx.sender, ctx.sender, ctx.value, DEFAULT_GAS, []))
      else r.(out := Leaving(ctx, ctx.sender, call.target, ctx.value, call.gasLimit, call.data))
  }

  // ------------------------------------------------------------------- token facades

  function MoveToken(w: World, from: Address, to: Address, id: nat, n: nat): (r: Effect) {
    var e := DebitToken(w, from, id, n);
    if e.Thrown? then e else CreditToken(e.w, to, id, n)
  }

  function FacadeAdvance(w: World, ctx: Ctx): (r: Ran) {
    var token := TokenByL2(w, ctx.to);
    if token.None? then Ran(w, [], Reverts("unknown token"))
    else match decodeFacade(ctx.data)
      case NoFacadeCall => Ran(w, [], Reverts("unknown function"))
      case OtherFacadeCall => Ran(w, [], Reverts("not a transaction"))
      case Transfer(to, value) =>
        var r := Try(w, MoveToken(w, ctx.sender, to, token.value, value), Some("ERC20: transfer amount exceeds balance"));
        if !r.end.Accepts? then r
        else r.(out := [Logged(ctx.to, Transferred(ctx.sender, to, value))])
  }

  // ----------------------------------------------------------------- portal receiver

  function MoveEther(w: World, from: Address, to: Address, n: nat): (r: Effect) {
    var e := DebitEther(w, from, n);
    if e.Thrown? then e else CreditEther(e.w, to, n)
  }

  /** The token of an L1 address, registering it on first sight. */
  function Resolve(w: World, l1: Address): (r: Effect) {
    if TokenByL1(w, l1).Some? then Did(w) else LedgerSpec.RegisterToken(w, l1, None)
  }

  /** A deposit of tokens: first-seen registration, then the credit. */
  function MintToken(w: World, l1: Address, to: Address, n: nat): (r: Effect) {
    var e := Resolve(w, l1);
    if e.Thrown? then e
    else
      var id := TokenByL1(w, l1);
      CreditToken(e.w, to, if id.Some? then id.value else |w.view.tokens|, n)
  }

  function DepositEther(w: World, ctx: Ctx): (r: Ran) {
    if |ctx.data| < 52 then Ran(w, [], Reverts("short ether deposit"))
    else Try(w, MoveEther(w, ctx.to, ctx.data[..20], FromBE(ctx.data[20..52])),
      Some("deposit value does not cover the credit"))
  }

  function DepositTokens(w: World, ctx: Ctx): (r: Ran) {
    if |ctx.data| < 72 then Ran(w, [], Reverts("short erc20 deposit"))
    else
      var l1, to, n := ctx.data[..20], ctx.data[20..40], FromBE(ctx.data[40..72]);
      var r := Try(w, MintToken(w, l1, to, n), None);
      if !r.end.Accepts? then r
      else r.(out := [Logged(l2TokenAddress(l1), Transferred(NOBODY, to, n))])
  }

  function PortalAdvance(w: World, ctx: Ctx): (r: Ran) {
    if !ctx.isDeposit then Ran(w, [], Reverts("not a portal deposit"))
    else if ctx.sender !in w.portals then Ran(w, [], Reverts("unregistered portal"))
    else if w.portals[ctx.sender] == PORTAL_ETHER then DepositEther(w, ctx)
    else DepositTokens(w, ctx)
  }

  // ------------------------------------------------------------------- configuration

  ghost predicate HasErc20Portal(w: World) {
    exists a :: a in w.portals && w.portals[a] == PORTAL_ERC20
  }

  function RegisterAsOwner(w: World, l1Token: Address, metadata: Metadata): (r: Ran) {
    var e := LedgerSpec.RegisterToken(w, l1Token, Some(metadata));
    if e.Did? then Ran(e.w, [Logged(CONFIG, TokenRegistered(l1Token, l2TokenAddress(l1Token), |w.view.tokens|))], Accepts)
    else if e.fault.Drive? && e.fault.why.DuplicateToken? then Ran(w, [], Reverts("token already registered"))
    else Ran(w, [], Throws(Describe(e.fault)))
  }

  function FeeAsOwner(w: World, fee: nat): (r: Ran) {
    Ran(w.(fee := fee), [Logged(CONFIG, FeeSet(fee))], Accepts)
  }

  function PortalAsOwner(w: World, kind: nat, portal: Address): (r: Ran) {
    if kind != PORTAL_ETHER && kind != PORTAL_ERC20 then Ran(w, [], Reverts("unknown portal kind"))
    else if kind == PORTAL_ERC20 && w.pair.Some?
      then Ran(w, [], Reverts("the standard bridge is registered; escrows are exclusive"))
    else Ran(w.(portals := w.portals[l1ToL2Alias(portal) := kind]),
             [Logged(CONFIG, PortalRegistered(kind, portal, l1ToL2Alias(portal)))], Accepts)
  }

  ghost function PairAsOwner(w: World, l1Messenger: Address, l1Bridge: Address): (r: Ran) {
    if HasErc20Portal(w) then Ran(w, [], Reverts("an ERC-20 portal is registered; escrows are exclusive"))
    else Ran(w.(pair := Some(CrossDomain(l1Messenger, l1ToL2Alias(l1Messenger), l1Bridge))),
             [Logged(CONFIG, MessengerRegistered(l1Messenger, l1Bridge))], Accepts)
  }

  function MetadataAsOwner(w: World, l1Token: Address, metadata: Metadata): (r: Ran) {
    var id := TokenByL1(w, l1Token);
    if id.None? then Ran(w, [], Reverts("unknown token"))
    else Ran(w.(metadata := w.metadata[id.value := metadata]), [], Accepts)
  }

  ghost function AsOwner(w: World, call: ConfigCall): (r: Ran) {
    match call
    case NoConfigCall => Ran(w, [], Reverts("unknown function"))
    case OtherConfigCall => Ran(w, [], Reverts("not a transaction"))
    case SetFee(fee) => FeeAsOwner(w, fee)
    case RegisterPortal(kind, portal) => PortalAsOwner(w, kind, portal)
    case RegisterMessenger(l1Messenger, l1Bridge) => PairAsOwner(w, l1Messenger, l1Bridge)
    case RegisterTokenCall(l1Token, metadata) => RegisterAsOwner(w, l1Token, metadata)
    case SetTokenMetadata(l1Token, metadata) => MetadataAsOwner(w, l1Token, metadata)
  }

  ghost function ConfigAdvance(w: World, ctx: Ctx): (r: Ran) {
    if ctx.sender != ctx.owner then Ran(w, [], Reverts("not the owner"))
    else AsOwner(w, decodeConfig(ctx.data))
  }

  // --------------------------------------------------------------- the standard bridge

  /** The outbound half of the messenger: a fresh nonce, the withdrawal that carries the message, its events. */
  function SendMessage(w: World, ctx: Ctx, out: seq<Emission>, cd: CrossDomain, sender: Address, target: Address, message: Data,
                       minGas: nat, value: nat): (r: Ran)
  {
    var nonce := versionedNonce(w.msgNonce);
    var relay := encodeRelay(CrossDomainMessage(nonce, sender, target, value, minGas, message));
    var gas := baseGas(|message|, minGas);
    var passed := WithWithdrawal(ctx, out, MESSENGER, cd.l1Messenger, value, gas, relay);
    Ran(w.(msgNonce := w.msgNonce + 1),
        passed + [Logged(MESSENGER, Sent(target, sender, message, nonce, gas)),
                  Logged(MESSENGER, SentExtension(sender, value))], Accepts)
  }

  function Initiate(w: World, ctx: Ctx, cd: CrossDomain, local: Address, remote: Address, to: Address,
                    amount: nat, minGas: nat, extra: Data): (r: Ran)
  {
    var token := TokenByL2(w, local);
    if token.None? then Ran(w, [], Reverts("wrong token pair"))
    else
      FacadesName(w.view.tokens, local);
      if w.view.tokens[token.value].address != remote then Ran(w, [], Reverts("wrong token pair"))
      else
        var r := Try(w, DebitToken(w, ctx.sender, token.value, amount), Some("amount exceeds balance"));
        if !r.end.Accepts? then r
        else
          var logs := [Logged(local, Transferred(ctx.sender, NOBODY, amount)),
                             Logged(L2_BRIDGE, Initiated(local, remote, ctx.sender, to, amount, extra))];
          SendMessage(r.w, ctx, logs, cd, L2_BRIDGE, cd.l1Bridge,
                      encodeFinalizeERC20(remote, local, ctx.sender, to, amount, extra), minGas, 0)
  }

  function L2BridgeAdvance(w: World, ctx: Ctx): (r: Ran) {
    var call := decodeL2Bridge(ctx.data);
    if w.pair.None? then Ran(w, [], Reverts("no standard bridge registered"))
    else if call.NoL2BridgeCall? then Ran(w, [], Reverts("unknown function"))
    else if call.BridgeERC20? || call.BridgeERC20To? then
      var to := if call.BridgeERC20To? then call.to else ctx.sender;
      Initiate(w, ctx, w.pair.value, call.local, call.remote, to, call.amount, call.minGas, call.extra)
    else Ran(w, [], Reverts("finalize is only callable by the messenger"))
  }

  // --------------------------------------------------------------------- the messenger

  /** Tokens arriving over the bridge: only the deterministic pair, carrying no ether. */
  function ReceiveTokens(w: World, m: CrossDomainMessage, call: L2BridgeCall): (r: Ran)
    requires call.FinalizeERC20?
  {
    if m.value != 0 then Ran(w, [], Throws("ERC-20 message carries value"))
    else if call.local != l2TokenAddress(call.remote) then Ran(w, [], Throws("wrong token pair"))
    else
      var r := Try(w, MintToken(w, call.remote, call.to, call.amount), None);
      if !r.end.Accepts? then r
      else r.(out := [Logged(call.local, Transferred(NOBODY, call.to, call.amount)),
                            Logged(L2_BRIDGE, Finalized(call.local, call.remote, call.from, call.to, call.amount, call.extra))])
  }

  /** Ether arriving over the bridge: the messenger passes on what the message carries. */
  function ReceiveEther(w: World, m: CrossDomainMessage, call: L2BridgeCall): (r: Ran)
    requires call.FinalizeETH?
  {
    if m.value != call.amount then Ran(w, [], Throws("value does not match amount"))
    else
      var r := Try(w, MoveEther(w, MESSENGER, call.to, call.amount), None);
      if !r.end.Accepts? then r
      else r.(out := [Logged(L2_BRIDGE, EthFinalized(call.from, call.to, call.amount, call.extra))])
  }

  /** The inbound half of the bridge: a throw, or the credit and its events. */
  function FinalizeFromMessenger(w: World, m: CrossDomainMessage, cd: CrossDomain): (r: Ran) {
    var call := decodeL2Bridge(m.message);
    if m.sender != cd.l1Bridge then Ran(w, [], Throws("xDomainMessageSender is not the L1 bridge"))
    else if call.NoL2BridgeCall? then Ran(w, [], Throws("not a bridge message"))
    else if call.FinalizeERC20? then ReceiveTokens(w, m, call)
    else if call.FinalizeETH? then ReceiveEther(w, m, call)
    else Ran(w, [], Throws("unsupported bridge message"))
  }

  /** The relayed call: it ends accepted, or in a throw with nothing emitted. */
  function Dispatch(w: World, m: CrossDomainMessage, cd: CrossDomain): (r: Ran) {
    if m.target == L2_BRIDGE then FinalizeFromMessenger(w, m, cd)
    else if |m.message| > 0 then Ran(w, [], Throws("unsupported relay target"))
    else Try(w, MoveEther(w, MESSENGER, m.target, m.value), None)
  }

  function StatusOf(w: World, h: Digest): (s: Option<Status>) {
    if h in w.messages then Some(w.messages[h]) else None
  }

  /** Why a relay is refused outright, if it is: a first delivery and a replay are checked differently. */
  function Refusing(status: Option<Status>, ctx: Ctx, m: CrossDomainMessage, cd: CrossDomain): (r: Option<string>) {
    if nonceVersion(m.nonce) != MESSAGE_VERSION then Some("only version 1 messages are supported")
    else if status == Some(Successful) then Some("message has already been relayed")
    else if ctx.isDeposit && ctx.sender == cd.l1MessengerAliased then
      if ctx.value != m.value then Some("value does not match the message")
      else if status == Some(Failed) then Some("message already received")
      else None
    else if ctx.value != 0 then Some("value must be zero on replay")
    else if status != Some(Failed) then Some("message cannot be replayed")
    else None
  }

  function RelayRefusal(w: World, ctx: Ctx, m: CrossDomainMessage, cd: CrossDomain): (r: Option<string>) {
    Refusing(StatusOf(w, MessageHash(m)), ctx, m, cd)
  }

  /** A failed inner call is rolled back and recorded, not propagated. */
  function MessengerAdvance(w: World, ctx: Ctx): (r: Ran) {
    if w.pair.None? then Ran(w, [], Reverts("no messenger registered"))
    else
      var m := decodeRelay(ctx.data);
      if m.None? then Ran(w, [], Reverts("unknown function"))
      else
        var refused := RelayRefusal(w, ctx, m.value, w.pair.value);
        var hash := MessageHash(m.value);
        if refused.Some? then Ran(w, [], Reverts(refused.value))
        else
          var r := Dispatch(w, m.value, w.pair.value);
          if r.end.Accepts? then
            Ran(r.w.(messages := r.w.messages[hash := Successful]), Then(r.out, Logged(MESSENGER, Relayed(hash, false))), Accepts)
          else Ran(w.(messages := w.messages[hash := Failed]), [Logged(MESSENGER, Relayed(hash, true))], Accepts)
  }

  function L1BlockAdvance(w: World, ctx: Ctx): (r: Ran) {
    match decodeAttributes(ctx.data)
    case None => Ran(w, [], Reverts("unknown function"))
    case Some(complete) => if complete then Ran(w, [], Accepts) else Ran(w, [], Reverts("short attributes"))
  }
}
