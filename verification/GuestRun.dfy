/**
  The running guest over many inputs: from a blank device, whatever arrives, the ledger in
  the drive's bytes is the one the run over values ends in, so the laws of whole runs hold
  of it.
 */
module GuestRun {
  import opened ByteCodec
  import opened Geometry
  import opened DriveSpec
  import opened DriveStore
  import opened LedgerSpec
  import opened LedgerLaws
  import opened MessengerLaws
  import opened GuestSpec
  import opened GuestLaws
  import opened GuestValue
  import opened GuestSolvency
  import opened GuestLedger
  import opened GuestRouter
  import opened GuestGenesis
  import opened GuestBoot

  /** The k-th program is what the application's handler does at the k-th input. */
  ghost predicate ExpectedAt(setup: Setup, w: World, inputs: seq<Timed>, apps: seq<Program>, k: nat)
    requires k < |inputs| == |apps|
  {
    Expected(setup, Run(setup, w, inputs[..k]), inputs[k].block, inputs[k].input, apps[k])
  }

  ghost predicate AllExpected(setup: Setup, w: World, inputs: seq<Timed>, apps: seq<Program>)
    requires |inputs| == |apps|
  {
    forall k: nat {:trigger ExpectedAt(setup, w, inputs, apps, k)} :: k < |inputs| ==> ExpectedAt(setup, w, inputs, apps, k)
  }

  /** What the inputs of a run are answered, in order. */
  ghost function RepliesOf(setup: Setup, w: World, inputs: seq<Timed>): (r: seq<Reply>)
    ensures |r| == |inputs|
  {
    if inputs == [] then []
    else
      var last := inputs[|inputs| - 1];
      RepliesOf(setup, w, Before(inputs)) + [GuestSpec.Advance(setup, Run(setup, w, Before(inputs)), last.block, last.input).1]
  }

  lemma {:induction false} OneMore(setup: Setup, w: World, inputs: seq<Timed>, k: nat)
    requires k < |inputs|
    ensures (Run(setup, w, inputs[..k + 1]), RepliesOf(setup, w, inputs[..k + 1])) ==
      var (x, reply) := GuestSpec.Advance(setup, Run(setup, w, inputs[..k]), inputs[k].block, inputs[k].input);
      (x, RepliesOf(setup, w, inputs[..k]) + [reply])
  {
    var longer := inputs[..k + 1];
    assert longer[..|longer| - 1] == inputs[..k];
  }

  /** Serves inputs in order; the ledger follows the run and the journal is empty between them. */
  method Serve(ledger: Ledger, setup: Setup, inputs: seq<Timed>, apps: seq<Program>) returns (replies: seq<Reply>)
    requires ledger.Valid() && ledger.Log() == [] && |inputs| == |apps|
    requires AllExpected(setup, ledger.Seen(), inputs, apps)
    modifies ledger, ledger.drive, ledger.drive.store.data, ledger.journal
    ensures ledger.Valid() && ledger.Log() == []
    ensures ledger.Seen() == Run(setup, old(ledger.Seen()), inputs)
    ensures replies == RepliesOf(setup, old(ledger.Seen()), inputs)
  {
    ghost var start := ledger.Seen();
    replies := [];
    for k := 0 to |inputs|
      invariant ledger.Valid() && ledger.Log() == [] && ledger.Seen() == Run(setup, start, inputs[..k])
      invariant replies == RepliesOf(setup, start, inputs[..k])
    {
      assert ExpectedAt(setup, start, inputs, apps, k);
      OneMore(setup, start, inputs, k);
      var reply := GuestRouter.Advance(ledger, setup, inputs[k].block, inputs[k].input, apps[k]);
      replies := replies + [reply];
    }
    assert inputs[..|inputs|] == inputs;
  }

  /** The nonces charged to an account run from zero, and the account's nonce is what comes next. */
  ghost predicate Counts(w: World, a: Address, charged: seq<nat>) {
    Consecutive(0, charged, AccountOf(w, a).nonce, Pow256(NonceBytes(w.geo)))
  }

  /**
    A guest started on a blank device: what its drive holds after any inputs balances to
    the wei, its supplies are held, its messenger can pay, and each account's nonces were
    charged in order.
   */
  method ServeFromBlank(store: Store, setup: Setup, inputs: seq<Timed>, apps: seq<Program>)
    returns (ledger: Ledger, replies: seq<Reply>)
    requires store.data.Length == DEVNET.driveLength && store.Bytes() == Zeros(DEVNET.driveLength)
    requires |inputs| == |apps| && AllExpected(setup, Genesis(Defaults(DEVNET)), inputs, apps)
    modifies store.data, store.journal
    ensures ledger.Valid() && ledger.Log() == []
    ensures ledger.Seen() == Run(setup, Genesis(Defaults(DEVNET)), inputs)
    ensures replies == RepliesOf(setup, Genesis(Defaults(DEVNET)), inputs)
    ensures BuiltInsOnly() ==>
      var f := FlowOf(setup, Genesis(Defaults(DEVNET)), inputs);
      Ether(ledger.Seen()) + f.withdrawn + f.fees == f.minted && Supplied(ledger.Seen())
    ensures BuiltInsOnly() && (forall k :: 0 <= k < |inputs| ==> Clear(inputs[k].input)) ==> Solvent(ledger.Seen(), 0)
    ensures forall a: Address :: Counts(ledger.Seen(), a, ChargedNonces(setup, Genesis(Defaults(DEVNET)), inputs, a))
  {
    ledger := CreateBlank(store);
    replies := Serve(ledger, setup, inputs, apps);
    FromGenesis(setup, Defaults(DEVNET), inputs);
  }

  /** The laws of whole runs, together. */
  lemma {:induction false} FromGenesis(s: Setup, geo: Config, inputs: seq<Timed>)
    requires FieldsFit(geo)
    ensures var w := Run(s, Genesis(geo), inputs);
      && (BuiltInsOnly() ==>
            var f := FlowOf(s, Genesis(geo), inputs); Ether(w) + f.withdrawn + f.fees == f.minted && Supplied(w))
      && (BuiltInsOnly() && (forall k :: 0 <= k < |inputs| ==> Clear(inputs[k].input)) ==> Solvent(w, 0))
      && (forall a: Address :: Counts(w, a, ChargedNonces(s, Genesis(geo), inputs, a)))
  {
    if BuiltInsOnly() { BooksFromGenesis(s, geo, inputs); }
    GenesisHolds(geo);
    RunSane(s, Genesis(geo), inputs);
    forall a: Address
      ensures Counts(Run(s, Genesis(geo), inputs), a, ChargedNonces(s, Genesis(geo), inputs, a))
    {
      NoncesAreConsecutive(s, Genesis(geo), inputs, a);
    }
  }
}
