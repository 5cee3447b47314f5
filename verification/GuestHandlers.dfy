/**
  The built-in handlers as the guest runs them, driving the journaled ledger step by
  step.  Each ends as the handler over values does, and leaves a journal that undoes it.
 */
module GuestHandlers {
  import opened Options
  import opened ByteCodec
  import opened DriveSpec
  import opened DriveTable
  import opened UndoLog
  import opened LedgerSpec
  import opened Handlers
  import opened HandlerLaws
  import opened MessengerLaws
  import opened GuestLaws
  import opened GuestLedger

  /** A call ended as the effect says; what a throw leaves behind is for the router to undo. */
  ghost predicate Ends(e: Effect, thrown: Option<Fault>, after: World) {
    if thrown.None? then e == Did(after) else e == Thrown(thrown.value)
  }

  /** A handler ended as its run over values does, in the same world where the world is kept. */
  ghost predicate Ended(r: Ran, now: World, out: seq<Emission>, end: Ending) {
    r.out == out && r.end == end && (Kept(r) ==> r.w == now)
  }

  /** Moves ether between accounts; the debit stands if the credit throws. */
  method Move(ledger: Ledger, from: Address, to: Address, n: nat) returns (thrown: Option<Fault>)
    requires ledger.Valid()
    modifies ledger.drive`view, ledger.drive.store.data, ledger.journal
    ensures ledger.Valid()
    ensures Ends(MoveEther(old(ledger.Seen()), from, to, n), thrown, ledger.Seen())
    ensures Undoes(old(ledger.Now()), old(ledger.Log()), ledger.Now(), ledger.Log())
  {
    thrown := ledger.DebitEther(from, n);
    if thrown.None? {
      ghost var mid, log := ledger.Now(), ledger.Log();
      thrown := ledger.CreditEther(to, n);
      UndoesTrans(old(ledger.Now()), old(ledger.Log()), mid, log, ledger.Now(), ledger.Log());
    }
  }

  method MoveHolding(ledger: Ledger, from: Address, to: Address, id: nat, n: nat) returns (thrown: Option<Fault>)
    requires ledger.Valid()
    modifies ledger`totals, ledger.drive`view, ledger.drive.store.data, ledger.journal
    ensures ledger.Valid()
    ensures Ends(MoveToken(old(ledger.Seen()), from, to, id, n), thrown, ledger.Seen())
    ensures Undoes(old(ledger.Now()), old(ledger.Log()), ledger.Now(), ledger.Log())
  {
    thrown := ledger.DebitToken(from, id, n);
    if thrown.None? {
      ghost var mid, log := ledger.Now(), ledger.Log();
      thrown := ledger.CreditToken(to, id, n);
      UndoesTrans(old(ledger.Now()), old(ledger.Log()), mid, log, ledger.Now(), ledger.Log());
    }
  }

  /** The token of an L1 address, registering it on first sight. */
  method ResolveToken(ledger: Ledger, l1: Address) returns (thrown: Option<Fault>, id: nat)
    requires ledger.Valid()
    modifies ledger, ledger.drive, ledger.drive.store.data, ledger.journal
    ensures ledger.Valid()
    ensures Ends(Resolve(old(ledger.Seen()), l1), thrown, ledger.Seen())
    ensures var k := TokenByL1(old(ledger.Seen()), l1); id == if k.Some? then k.value else |old(ledger.Seen()).view.tokens|
    ensures Undoes(old(ledger.Now()), old(ledger.Log()), ledger.Now(), ledger.Log())
  {
    UndoesNothing(ledger.Now(), ledger.Log());
    var known := ledger.TokenByL1Address(l1);
    if known.Some? {
      return None, known.value;
    }
    thrown, id := ledger.RegisterToken(l1, None);
  }

  /** A deposit of tokens: first-seen registration, then the credit. */
  method Mint(ledger: Ledger, l1: Address, to: Address, n: nat) returns (thrown: Option<Fault>)
    requires ledger.Valid()
    modifies ledger, ledger.drive, ledger.drive.store.data, ledger.journal
    ensures ledger.Valid()
    ensures Ends(MintToken(old(ledger.Seen()), l1, to, n), thrown, ledger.Seen())
    ensures Undoes(old(ledger.Now()), old(ledger.Log()), ledger.Now(), ledger.Log())
  {
    ghost var w := ledger.Seen();
    var id;
    thrown, id := ResolveToken(ledger, l1);
    if thrown.None? {
      ghost var mid, log, between := ledger.Now(), ledger.Log(), ledger.Seen();
      thrown := ledger.CreditToken(to, id, n);
      MintEnds(w, l1, to, n, id, between, thrown, ledger.Seen());
      UndoesTrans(old(ledger.Now()), old(ledger.Log()), mid, log, ledger.Now(), ledger.Log());
    }
  }

  lemma {:induction false} MintEnds(w: World, l1: Address, to: Address, n: nat, id: nat, mid: World,
                                    thrown: Option<Fault>, after: World)
    requires Resolve(w, l1) == Did(mid) && Ends(CreditToken(mid, to, id, n), thrown, after)
    requires var k := TokenByL1(w, l1); id == if k.Some? then k.value else |w.view.tokens|
    ensures Ends(MintToken(w, l1, to, n), thrown, after)
  {
  }

  // ------------------------------------------------------------------------- bridge

  method EtherWithdrawal(ledger: Ledger, ctx: Ctx, to: Address) returns (out: seq<Emission>, end: Ending)
    requires ledger.Valid()
    modifies ledger, ledger.drive, ledger.drive.store.data, ledger.journal
    ensures ledger.Valid()
    ensures Ended(BurnEther(old(ledger.Seen()), ctx, to), ledger.Seen(), out, end)
    ensures Undoes(old(ledger.Now()), old(ledger.Log()), ledger.Now(), ledger.Log())
  {
    UndoesNothing(ledger.Now(), ledger.Log());
    if ctx.value == 0 {
      return [], Reverts("withdrawEther: no value");
    }
    var thrown := ledger.DebitEther(ctx.to, ctx.value);
    if thrown.Some? {
      return [], Throws(Describe(thrown.value));
    }
    return Leaving(ctx, ctx.sender, to, ctx.value, DEFAULT_GAS, []), Accepts;
  }

  method TokenWithdrawal(ledger: Ledger, ctx: Ctx, l2Token: Address, to: Address, amount: nat)
    returns (out: seq<Emission>, end: Ending)
    requires ledger.Valid()
    modifies ledger, ledger.drive, ledger.drive.store.data, ledger.journal
    ensures ledger.Valid()
    ensures Ended(BurnTokens(old(ledger.Seen()), ctx, l2Token, to, amount), ledger.Seen(), out, end)
    ensures Undoes(old(ledger.Now()), old(ledger.Log()), ledger.Now(), ledger.Log())
  {
    UndoesNothing(ledger.Now(), ledger.Log());
    if ledger.crossDomain.Some? {
      return [], Reverts("ERC-20 leaves through the standard bridge");
    }
    var token := ledger.TokenByL2Address(l2Token);
    if token.None? {
      return [], Reverts("unknown token");
    }
    var l1Token := ledger.drive.tokens[token.value].address;
    var thrown := ledger.DebitToken(ctx.sender, token.value, amount);
    if thrown.Some? {
      end := if thrown.value.Insufficient?
        then Reverts("withdrawERC20: amount exceeds balance") else Throws(Describe(thrown.value));
      return [], end;
    }
    return [Voucher(l1Token, encodeTransfer(to, amount)), Logged(l2Token, Transferred(ctx.sender, NOBODY, amount))], Accepts;
  }

  method Bridge(ledger: Ledger, ctx: Ctx) returns (out: seq<Emission>, end: Ending)
    requires ledger.Valid()
    modifies ledger, ledger.drive, ledger.drive.store.data, ledger.journal
    ensures ledger.Valid()
    ensures Ended(BridgeAdvance(old(ledger.Seen()), ctx), ledger.Seen(), out, end)
    ensures Undoes(old(ledger.Now()), old(ledger.Log()), ledger.Now(), ledger.Log())
  {
    match decodeBridge(ctx.data)
    case NoBridgeCall =>
      UndoesNothing(ledger.Now(), ledger.Log());
      return [], Reverts("unknown function");
    case WithdrawEther(to) =>
      out, end := EtherWithdrawal(ledger, ctx, to);
    case WithdrawERC20(l2Token, to, amount) =>
      out, end := TokenWithdrawal(ledger, ctx, l2Token, to, amount);
  }

  // ------------------------------------------------------------------ message passer

  method Passer(ledger: Ledger, ctx: Ctx) returns (out: seq<Emission>, end: Ending)
    requires ledger.Valid()
    modifies ledger, ledger.drive, ledger.drive.store.data, ledger.journal
    ensures ledger.Valid()
    ensures Ended(PasserAdvance(old(ledger.Seen()), ctx), ledger.Seen(), out, end)
    ensures Undoes(old(ledger.Now()), old(ledger.Log()), ledger.Now(), ledger.Log())
  {
    UndoesNothing(ledger.Now(), ledger.Log());
    if |ctx.data| == 0 {
      var thrown := ledger.DebitEther(ctx.to, ctx.value);
      if thrown.Some? {
        return [], Throws(Describe(thrown.value));
      }
      return Leaving(ctx, ctx.sender, ctx.sender, ctx.value, DEFAULT_GAS, []), Accepts;
    }
    var call := decodePasser(ctx.data);
    if call.NoPasserCall? {
      return [], Reverts("unknown function");
    }
    var thrown := ledger.DebitEther(ctx.to, ctx.value);
    if thrown.Some? {
      return [], Throws(Describe(thrown.value));
    }
    return Leaving(ctx, ctx.sender, call.target, ctx.value, call.gasLimit, call.data), Accepts;
  }

  // ------------------------------------------------------------------- token facades

  method TokenFacade(ledger: Ledger, ctx: Ctx) returns (out: seq<Emission>, end: Ending)
    requires ledger.Valid()
    modifies ledger, ledger.drive, ledger.drive.store.data, ledger.journal
    ensures ledger.Valid()
    ensures Ended(FacadeAdvance(old(ledger.Seen()), ctx), ledger.Seen(), out, end)
    ensures Undoes(old(ledger.Now()), old(ledger.Log()), ledger.Now(), ledger.Log())
  {
    UndoesNothing(ledger.Now(), ledger.Log());
    var token := ledger.TokenByL2Address(ctx.to);
    if token.None? {
      return [], Reverts("unknown token");
    }
    match decodeFacade(ctx.data)
    case NoFacadeCall => return [], Reverts("unknown function");
    case OtherFacadeCall => return [], Reverts("not a transaction");
    case Transfer(to, value) =>
      var thrown := MoveHolding(ledger, ctx.sender, to, token.value, value);
      if thrown.Some? {
        end := if thrown.value.Insufficient?
          then Reverts("ERC20: transfer amount exceeds balance") else Throws(Describe(thrown.value));
        return [], end;
      }
      return [Logged(ctx.to, Transferred(ctx.sender, to, value))], Accepts;
  }

  // ----------------------------------------------------------------- portal receiver

  method EtherDeposit(ledger: Ledger, ctx: Ctx) returns (out: seq<Emission>, end: Ending)
    requires ledger.Valid()
    modifies ledger, ledger.drive, ledger.drive.store.data, ledger.journal
    ensures ledger.Valid()
    ensures Ended(DepositEther(old(ledger.Seen()), ctx), ledger.Seen(), out, end)
    ensures Undoes(old(ledger.Now()), old(ledger.Log()), ledger.Now(), ledger.Log())
  {
    if |ctx.data| < 52 {
      UndoesNothing(ledger.Now(), ledger.Log());
      return [], Reverts("short ether deposit");
    }
    var n := ReadBE(ctx.data[20..52]);
    var thrown := Move(ledger, ctx.to, ctx.data[..20], n);
    if thrown.Some? {
      end := if thrown.value.Insufficient?
        then Reverts("deposit value does not cover the credit") else Throws(Describe(thrown.value));
      return [], end;
    }
    return [], Accepts;
  }

  method TokenDeposit(ledger: Ledger, ctx: Ctx) returns (out: seq<Emission>, end: Ending)
    requires ledger.Valid()
    modifies ledger, ledger.drive, ledger.drive.store.data, ledger.journal
    ensures ledger.Valid()
    ensures Ended(DepositTokens(old(ledger.Seen()), ctx), ledger.Seen(), out, end)
    ensures Undoes(old(ledger.Now()), old(ledger.Log()), ledger.Now(), ledger.Log())
  {
    if |ctx.data| < 72 {
      UndoesNothing(ledger.Now(), ledger.Log());
      return [], Reverts("short erc20 deposit");
    }
    var l1, to := ctx.data[..20], ctx.data[20..40];
    var n := ReadBE(ctx.data[40..72]);
    var thrown := Mint(ledger, l1, to, n);
    if thrown.Some? {
      return [], Throws(Describe(thrown.value));
    }
    return [Logged(l2TokenAddress(l1), Transferred(NOBODY, to, n))], Accepts;
  }

  method PortalReceiver(ledger: Ledger, ctx: Ctx) returns (out: seq<Emission>, end: Ending)
    requires ledger.Valid()
    modifies ledger, ledger.drive, ledger.drive.store.data, ledger.journal
    ensures ledger.Valid()
    ensures Ended(PortalAdvance(old(ledger.Seen()), ctx), ledger.Seen(), out, end)
    ensures Undoes(old(ledger.Now()), old(ledger.Log()), ledger.Now(), ledger.Log())
  {
    if !ctx.isDeposit || ctx.sender !in ledger.portals {
      UndoesNothing(ledger.Now(), ledger.Log());
      return [], if !ctx.isDeposit then Reverts("not a portal deposit") else Reverts("unregistered portal");
    }
    if ledger.portals[ctx.sender] == PORTAL_ETHER {
      out, end := EtherDeposit(ledger, ctx);
    } else {
      out, end := TokenDeposit(ledger, ctx);
    }
  }

  // ------------------------------------------------------------------- configuration

  method RegisterByOwner(ledger: Ledger, l1Token: Address, m: Metadata) returns (out: seq<Emission>, end: Ending)
    requires ledger.Valid()
    modifies ledger, ledger.drive, ledger.drive.store.data, ledger.journal
    ensures ledger.Valid()
    ensures Ended(RegisterAsOwner(old(ledger.Seen()), l1Token, m), ledger.Seen(), out, end)
    ensures Undoes(old(ledger.Now()), old(ledger.Log()), ledger.Now(), ledger.Log())
  {
    var thrown, id := ledger.RegisterToken(l1Token, Some(m));
    if thrown.None? {
      return [Logged(CONFIG, TokenRegistered(l1Token, l2TokenAddress(l1Token), id))], Accepts;
    }
    if thrown.value.Drive? && thrown.value.why.DuplicateToken? {
      return [], Reverts("token already registered");
    }
    return [], Throws(Describe(thrown.value));
  }

  method PortalByOwner(ledger: Ledger, kind: nat, portal: Address) returns (out: seq<Emission>, end: Ending)
    requires ledger.Valid()
    modifies ledger, ledger.drive, ledger.drive.store.data, ledger.journal
    ensures ledger.Valid()
    ensures Ended(PortalAsOwner(old(ledger.Seen()), kind, portal), ledger.Seen(), out, end)
    ensures Undoes(old(ledger.Now()), old(ledger.Log()), ledger.Now(), ledger.Log())
  {
    UndoesNothing(ledger.Now(), ledger.Log());
    if kind != PORTAL_ETHER && kind != PORTAL_ERC20 {
      return [], Reverts("unknown portal kind");
    }
    if kind == PORTAL_ERC20 && ledger.crossDomain.Some? {
      return [], Reverts("the standard bridge is registered; escrows are exclusive");
    }
    var aliased := l1ToL2Alias(portal);
    ledger.RegisterPortal(aliased, kind);
    return [Logged(CONFIG, PortalRegistered(kind, portal, aliased))], Accepts;
  }

  method PairByOwner(ledger: Ledger, l1Messenger: Address, l1Bridge: Address) returns (out: seq<Emission>, end: Ending)
    requires ledger.Valid()
    modifies ledger, ledger.drive, ledger.drive.store.data, ledger.journal
    ensures ledger.Valid()
    ensures Ended(PairAsOwner(old(ledger.Seen()), l1Messenger, l1Bridge), ledger.Seen(), out, end)
    ensures Undoes(old(ledger.Now()), old(ledger.Log()), ledger.Now(), ledger.Log())
  {
    UndoesNothing(ledger.Now(), ledger.Log());
    var escrowed := ledger.HasPortal(PORTAL_ERC20);
    if escrowed {
      return [], Reverts("an ERC-20 portal is registered; escrows are exclusive");
    }
    ledger.RegisterCrossDomain(CrossDomain(l1Messenger, l1ToL2Alias(l1Messenger), l1Bridge));
    return [Logged(CONFIG, MessengerRegistered(l1Messenger, l1Bridge))], Accepts;
  }

  method MetadataByOwner(ledger: Ledger, l1Token: Address, m: Metadata) returns (out: seq<Emission>, end: Ending)
    requires ledger.Valid()
    modifies ledger, ledger.drive, ledger.drive.store.data, ledger.journal
    ensures ledger.Valid()
    ensures Ended(MetadataAsOwner(old(ledger.Seen()), l1Token, m), ledger.Seen(), out, end)
    ensures Undoes(old(ledger.Now()), old(ledger.Log()), ledger.Now(), ledger.Log())
  {
    UndoesNothing(ledger.Now(), ledger.Log());
    var id := ledger.TokenByL1Address(l1Token);
    if id.None? {
      return [], Reverts("unknown token");
    }
    ledger.SetMetadata(id.value, m);
    return [], Accepts;
  }

  method FeeByOwner(ledger: Ledger, fee: nat) returns (out: seq<Emission>, end: Ending)
    requires ledger.Valid()
    modifies ledger, ledger.drive, ledger.drive.store.data, ledger.journal
    ensures ledger.Valid()
    ensures Ended(FeeAsOwner(old(ledger.Seen()), fee), ledger.Seen(), out, end)
    ensures Undoes(old(ledger.Now()), old(ledger.Log()), ledger.Now(), ledger.Log())
  {
    ledger.SetFee(fee);
    return [Logged(CONFIG, FeeSet(fee))], Accepts;
  }

  method OwnerCall(ledger: Ledger, call: ConfigCall) returns (out: seq<Emission>, end: Ending)
    requires ledger.Valid()
    modifies ledger, ledger.drive, ledger.drive.store.data, ledger.journal
    ensures ledger.Valid()
    ensures Ended(AsOwner(old(ledger.Seen()), call), ledger.Seen(), out, end)
    ensures Undoes(old(ledger.Now()), old(ledger.Log()), ledger.Now(), ledger.Log())
  {
    if call.SetFee? || call.RegisterPortal? || call.RegisterMessenger? {
      out, end := SettingCall(ledger, call);
    } else if call.RegisterTokenCall? {
      out, end := RegisterByOwner(ledger, call.l1Token, call.metadata);
    } else if call.SetTokenMetadata? {
      out, end := MetadataByOwner(ledger, call.l1Token, call.metadata);
    } else {
      UndoesNothing(ledger.Now(), ledger.Log());
      out, end := [], Reverts(if call.NoConfigCall? then "unknown function" else "not a transaction");
    }
  }

  method SettingCall(ledger: Ledger, call: ConfigCall) returns (out: seq<Emission>, end: Ending)
    requires ledger.Valid() && (call.SetFee? || call.RegisterPortal? || call.RegisterMessenger?)
    modifies ledger, ledger.drive, ledger.drive.store.data, ledger.journal
    ensures ledger.Valid()
    ensures Ended(AsOwner(old(ledger.Seen()), call), ledger.Seen(), out, end)
    ensures Undoes(old(ledger.Now()), old(ledger.Log()), ledger.Now(), ledger.Log())
  {
    if call.SetFee? {
      out, end := FeeByOwner(ledger, call.fee);
    } else if call.RegisterPortal? {
      out, end := PortalByOwner(ledger, call.kind, call.portal);
    } else {
      out, end := PairByOwner(ledger, call.l1Messenger, call.l1Bridge);
    }
  }

  method Configure(ledger: Ledger, ctx: Ctx) returns (out: seq<Emission>, end: Ending)
    requires ledger.Valid()
    modifies ledger, ledger.drive, ledger.drive.store.data, ledger.journal
    ensures ledger.Valid()
    ensures Ended(ConfigAdvance(old(ledger.Seen()), ctx), ledger.Seen(), out, end)
    ensures Undoes(old(ledger.Now()), old(ledger.Log()), ledger.Now(), ledger.Log())
  {
    if ctx.sender != ctx.owner {
      UndoesNothing(ledger.Now(), ledger.Log());
      return [], Reverts("not the owner");
    }
    out, end := OwnerCall(ledger, decodeConfig(ctx.data));
  }

  // --------------------------------------------------------------- the standard bridge

  /** The outbound half of the messenger: a fresh nonce, the withdrawal that carries the message, its events. */
  method Send(ledger: Ledger, ctx: Ctx, logs: seq<Emission>, cd: CrossDomain, sender: Address, target: Address, message: Data,
              minGas: nat, value: nat)
    returns (out: seq<Emission>)
    requires ledger.Valid()
    modifies ledger, ledger.journal
    ensures ledger.Valid()
    ensures SendMessage(old(ledger.Seen()), ctx, logs, cd, sender, target, message, minGas, value) ==
      Ran(ledger.Seen(), out, Accepts)
    ensures Undoes(old(ledger.Now()), old(ledger.Log()), ledger.Now(), ledger.Log())
  {
    var n := ledger.NextMessageNonce();
    var nonce := versionedNonce(n);
    var relay := encodeRelay(CrossDomainMessage(nonce, sender, target, value, minGas, message));
    var gas := baseGas(|message|, minGas);
    out := WithWithdrawal(ctx, logs, MESSENGER, cd.l1Messenger, value, gas, relay);
    out := out + [Logged(MESSENGER, Sent(target, sender, message, nonce, gas)), Logged(MESSENGER, SentExtension(sender, value))];
  }

  method StartBridging(ledger: Ledger, ctx: Ctx, cd: CrossDomain, local: Address, remote: Address, to: Address,
                       amount: nat, minGas: nat, extra: Data)
    returns (out: seq<Emission>, end: Ending)
    requires ledger.Valid()
    modifies ledger, ledger.drive, ledger.drive.store.data, ledger.journal
    ensures ledger.Valid()
    ensures Ended(Initiate(old(ledger.Seen()), ctx, cd, local, remote, to, amount, minGas, extra), ledger.Seen(), out, end)
    ensures Undoes(old(ledger.Now()), old(ledger.Log()), ledger.Now(), ledger.Log())
  {
    UndoesNothing(ledger.Now(), ledger.Log());
    var token := ledger.TokenByL2Address(local);
    if token.None? || ledger.drive.tokens[token.value].address != remote {
      return [], Reverts("wrong token pair");
    }
    var thrown := ledger.DebitToken(ctx.sender, token.value, amount);
    if thrown.Some? {
      end := if thrown.value.Insufficient? then Reverts("amount exceeds balance") else Throws(Describe(thrown.value));
      return [], end;
    }
    ghost var mid, log := ledger.Now(), ledger.Log();
    var logs := [Logged(local, Transferred(ctx.sender, NOBODY, amount)),
                 Logged(L2_BRIDGE, Initiated(local, remote, ctx.sender, to, amount, extra))];
    out := Send(ledger, ctx, logs, cd, L2_BRIDGE, cd.l1Bridge,
                encodeFinalizeERC20(remote, local, ctx.sender, to, amount, extra), minGas, 0);
    UndoesTrans(old(ledger.Now()), old(ledger.Log()), mid, log, ledger.Now(), ledger.Log());
    return out, Accepts;
  }

  method StandardBridge(ledger: Ledger, ctx: Ctx) returns (out: seq<Emission>, end: Ending)
    requires ledger.Valid()
    modifies ledger, ledger.drive, ledger.drive.store.data, ledger.journal
    ensures ledger.Valid()
    ensures Ended(L2BridgeAdvance(old(ledger.Seen()), ctx), ledger.Seen(), out, end)
    ensures Undoes(old(ledger.Now()), old(ledger.Log()), ledger.Now(), ledger.Log())
  {
    UndoesNothing(ledger.Now(), ledger.Log());
    if ledger.crossDomain.None? {
      return [], Reverts("no standard bridge registered");
    }
    var cd, call := ledger.crossDomain.value, decodeL2Bridge(ctx.data);
    if call.NoL2BridgeCall? {
      return [], Reverts("unknown function");
    }
    if !call.BridgeERC20? && !call.BridgeERC20To? {
      return [], Reverts("finalize is only callable by the messenger");
    }
    var to := if call.BridgeERC20To? then call.to else ctx.sender;
    out, end := StartBridging(ledger, ctx, cd, call.local, call.remote, to, call.amount, call.minGas, call.extra);
  }

  // --------------------------------------------------------------------- the messenger

  method TokensArrive(ledger: Ledger, m: CrossDomainMessage, call: L2BridgeCall) returns (out: seq<Emission>, end: Ending)
    requires call.FinalizeERC20?
    requires ledger.Valid()
    modifies ledger, ledger.drive, ledger.drive.store.data, ledger.journal
    ensures ledger.Valid()
    ensures Ended(ReceiveTokens(old(ledger.Seen()), m, call), ledger.Seen(), out, end)
    ensures Undoes(old(ledger.Now()), old(ledger.Log()), ledger.Now(), ledger.Log())
  {
    UndoesNothing(ledger.Now(), ledger.Log());
    if m.value != 0 {
      return [], Throws("ERC-20 message carries value");
    }
    if call.local != l2TokenAddress(call.remote) {
      return [], Throws("wrong token pair");
    }
    var thrown := Mint(ledger, call.remote, call.to, call.amount);
    if thrown.Some? {
      return [], Throws(Describe(thrown.value));
    }
    return [Logged(call.local, Transferred(NOBODY, call.to, call.amount)),
            Logged(L2_BRIDGE, Finalized(call.local, call.remote, call.from, call.to, call.amount, call.extra))], Accepts;
  }

  method EtherArrives(ledger: Ledger, m: CrossDomainMessage, call: L2BridgeCall) returns (out: seq<Emission>, end: Ending)
    requires call.FinalizeETH?
    requires ledger.Valid()
    modifies ledger, ledger.drive, ledger.drive.store.data, ledger.journal
    ensures ledger.Valid()
    ensures Ended(ReceiveEther(old(ledger.Seen()), m, call), ledger.Seen(), out, end)
    ensures Undoes(old(ledger.Now()), old(ledger.Log()), ledger.Now(), ledger.Log())
  {
    if m.value != call.amount {
      UndoesNothing(ledger.Now(), ledger.Log());
      return [], Throws("value does not match amount");
    }
    var thrown := Move(ledger, MESSENGER, call.to, call.amount);
    if thrown.Some? {
      return [], Throws(Describe(thrown.value));
    }
    return [Logged(L2_BRIDGE, EthFinalized(call.from, call.to, call.amount, call.extra))], Accepts;
  }

  /** The inbound half of the bridge: a throw, or the credit and its events. */
  method FinishBridging(ledger: Ledger, m: CrossDomainMessage, cd: CrossDomain) returns (out: seq<Emission>, end: Ending)
    requires ledger.Valid()
    modifies ledger, ledger.drive, ledger.drive.store.data, ledger.journal
    ensures ledger.Valid()
    ensures Ended(FinalizeFromMessenger(old(ledger.Seen()), m, cd), ledger.Seen(), out, end)
    ensures Undoes(old(ledger.Now()), old(ledger.Log()), ledger.Now(), ledger.Log())
  {
    UndoesNothing(ledger.Now(), ledger.Log());
    var call := decodeL2Bridge(m.message);
    if m.sender != cd.l1Bridge {
      return [], Throws("xDomainMessageSender is not the L1 bridge");
    }
    if call.NoL2BridgeCall? {
      return [], Throws("not a bridge message");
    }
    if call.FinalizeERC20? {
      out, end := TokensArrive(ledger, m, call);
    } else if call.FinalizeETH? {
      out, end := EtherArrives(ledger, m, call);
    } else {
      return [], Throws("unsupported bridge message");
    }
  }

  method DispatchRelay(ledger: Ledger, m: CrossDomainMessage, cd: CrossDomain) returns (out: seq<Emission>, end: Ending)
    requires ledger.Valid()
    modifies ledger, ledger.drive, ledger.drive.store.data, ledger.journal
    ensures ledger.Valid()
    ensures Ended(Dispatch(old(ledger.Seen()), m, cd), ledger.Seen(), out, end)
    ensures Undoes(old(ledger.Now()), old(ledger.Log()), ledger.Now(), ledger.Log())
  {
    if m.target == L2_BRIDGE {
      out, end := FinishBridging(ledger, m, cd);
      return;
    }
    if |m.message| > 0 {
      UndoesNothing(ledger.Now(), ledger.Log());
      return [], Throws("unsupported relay target");
    }
    var thrown := Move(ledger, MESSENGER, m.target, m.value);
    if thrown.Some? {
      return [], Throws(Describe(thrown.value));
    }
    return [], Accepts;
  }

  /** The failed inner call undone back to the mark, and recorded. */
  method RecordFailure(ledger: Ledger, hash: Digest, mark: nat, ghost v: View, ghost s: State, ghost log: seq<Undo>)
    requires ledger.Valid() && ledger.Was(v, s, log) && mark == |log|
    modifies ledger, ledger.drive, ledger.drive.store.data, ledger.journal
    ensures ledger.Valid()
    ensures var w := WorldOf(ledger.drive.cfg, v, s.ram); ledger.Seen() == w.(messages := w.messages[hash := Status.Failed])
    ensures Undoes(s, log, ledger.Now(), ledger.Log())
  {
    ledger.RestoreTo(mark, v, s, log);
    ghost var back := ledger.Now();
    ledger.SetMessageStatus(hash, Status.Failed);
    UndoesNothing(s, log);
    SameTrans(back, s, s);
    UndoesSame(s, log, s, back, log);
    UndoesTrans(s, log, back, log, ledger.Now(), ledger.Log());
  }

  /** The inner call of a relay: its failure is recorded, not propagated. */
  method Deliver(ledger: Ledger, m: CrossDomainMessage, cd: CrossDomain) returns (out: seq<Emission>)
    requires ledger.Valid()
    modifies ledger, ledger.drive, ledger.drive.store.data, ledger.journal
    ensures ledger.Valid()
    ensures Relays(old(ledger.Seen()), Ran(ledger.Seen(), out, Accepts), m, cd)
    ensures Undoes(old(ledger.Now()), old(ledger.Log()), ledger.Now(), ledger.Log())
  {
    ghost var v, s, log := ledger.drive.view, ledger.Now(), ledger.Log();
    var mark, hash := |ledger.journal.entries|, MessageHash(m);
    var end;
    out, end := DispatchRelay(ledger, m, cd);
    FailedDispatchIsSilent(old(ledger.Seen()), m, cd);
    if end.Accepts? {
      ghost var mid, midLog := ledger.Now(), ledger.Log();
      ledger.SetMessageStatus(hash, Successful);
      UndoesTrans(s, log, mid, midLog, ledger.Now(), ledger.Log());
      out := Then(out, Logged(MESSENGER, Relayed(hash, false)));
    } else {
      RecordFailure(ledger, hash, mark, v, s, log);
      out := [Logged(MESSENGER, Relayed(hash, true))];
    }
  }

  method Relay(ledger: Ledger, ctx: Ctx) returns (out: seq<Emission>, end: Ending)
    requires ledger.Valid()
    modifies ledger, ledger.drive, ledger.drive.store.data, ledger.journal
    ensures ledger.Valid()
    ensures Ended(MessengerAdvance(old(ledger.Seen()), ctx), ledger.Seen(), out, end)
    ensures Undoes(old(ledger.Now()), old(ledger.Log()), ledger.Now(), ledger.Log())
  {
    UndoesNothing(ledger.Now(), ledger.Log());
    if ledger.crossDomain.None? {
      return [], Reverts("no messenger registered");
    }
    var m := decodeRelay(ctx.data);
    if m.None? {
      return [], Reverts("unknown function");
    }
    var cd, hash := ledger.crossDomain.value, MessageHash(m.value);
    var status := if hash in ledger.messages then Some(ledger.messages[hash]) else None;
    var refused := Refusing(status, ctx, m.value, cd);
    if refused.Some? {
      return [], Reverts(refused.value);
    }
    RelayedIs(ledger.Seen(), ctx);
    out := Deliver(ledger, m.value, cd);
    return out, Accepts;
  }

  /** A relay that is not refused is the dispatch it attempts, recorded either way. */
  lemma {:induction false} RelayedIs(w: World, ctx: Ctx)
    requires w.pair.Some? && decodeRelay(ctx.data).Some? && RelayRefusal(w, ctx, decodeRelay(ctx.data).value, w.pair.value).None?
    ensures forall r: Ran :: Relays(w, r, decodeRelay(ctx.data).value, w.pair.value) ==> r == MessengerAdvance(w, ctx)
  {
    AcceptedRelays(w, ctx);
  }
}
