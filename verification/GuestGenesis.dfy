/**
  The guest from genesis: over every run that starts on a freshly formatted drive, the
  books balance, supplies are held, the messenger can pay and no nonce is used twice.
 */
module GuestGenesis {
  import opened Options
  import opened ByteCodec
  import opened Geometry
  import opened DriveSpec
  import opened DriveTable
  import opened UndoLog
  import opened LedgerSpec
  import opened LedgerLaws
  import opened Handlers
  import opened HandlerLaws
  import opened MessengerLaws
  import opened GuestSpec
  import opened GuestLaws
  import opened GuestValue
  import opened GuestSolvency

  /** The ledger of a drive just formatted, before the owner has configured anything. */
  function Genesis(geo: Config): (w: World) {
    LedgerSpec.World.World(geo, EMPTY, map[], map[], map[], 0, None, 0, map[])
  }

  lemma {:induction false} NothingHeld(geo: Config, id: nat)
    ensures SupplyOf(Genesis(geo), id) == 0 == Held(Genesis(geo), id)
  {
    assert HeldBy(Genesis(geo).view.holdings, id) == map[];
  }

  lemma {:induction false} GenesisHolds(geo: Config)
    requires FieldsFit(geo)
    ensures var w := Genesis(geo);
      Sane(w) && Supplied(w) && Exclusive(w) && Solvent(w, 0) && Ether(w) == 0
  {
    var w := Genesis(geo);
    EmptyFits(geo);
    forall id: nat ensures SupplyOf(w, id) == Held(w, id) {
      NothingHeld(geo, id);
    }
    assert FailedValues(w.messages) == map[] && Balances(w.view.accounts) == map[];
  }

  /**
    Whole runs from genesis: ether is what was minted less what was withdrawn and charged,
    every token's supply is what its holders hold, and the messenger's balance covers the
    messages recorded as failed.
   */
  lemma {:induction false} BooksFromGenesis(s: Setup, geo: Config, inputs: seq<Timed>)
    requires FieldsFit(geo) && BuiltInsOnly()
    ensures var w, f := Run(s, Genesis(geo), inputs), FlowOf(s, Genesis(geo), inputs);
      && Ether(w) + f.withdrawn + f.fees == f.minted
      && (forall id: nat :: SupplyOf(w, id) == Held(w, id))
      && Exclusive(w)
      && ((forall k :: 0 <= k < |inputs| ==> Clear(inputs[k].input)) ==> Solvent(w, 0))
  {
    GenesisHolds(geo);
    ValueIsConserved(s, Genesis(geo), inputs);
    if forall k :: 0 <= k < |inputs| ==> Clear(inputs[k].input) {
      MessengerStaysSolvent(s, Genesis(geo), inputs);
    }
  }

  /** The nonces charged to an account from genesis are 0, 1, 2 and so on, exactly while the stored nonce can count them. */
  lemma {:induction false} NoncesFromGenesis(s: Setup, geo: Config, inputs: seq<Timed>, a: Address)
    requires FieldsFit(geo)
    ensures var n := ChargedNonces(s, Genesis(geo), inputs, a);
      (forall k :: 0 <= k < |n| ==> n[k] == k) <==> |n| <= Pow256(NonceBytes(geo))
  {
    GenesisHolds(geo);
    NoncesAreConsecutive(s, Genesis(geo), inputs, a);
    var n, p := ChargedNonces(s, Genesis(geo), inputs, a), Pow256(NonceBytes(geo));
    if |n| > p { assert n[p] == Wrap(p, p) == Wrap(0, p) == 0; }
  }

  /** From genesis, no message's inner call takes effect twice, and one took effect exactly when it is marked successful. */
  lemma {:induction false} DeliveriesFromGenesis(s: Setup, geo: Config, inputs: seq<Timed>, h: Digest)
    requires FieldsFit(geo) && BuiltInsOnly()
    ensures Deliveries(s, Genesis(geo), inputs, h) <= 1
    ensures Deliveries(s, Genesis(geo), inputs, h) == 1 <==> StatusOf(Run(s, Genesis(geo), inputs), h) == Some(Successful)
  {
    GenesisHolds(geo);
    DeliveredAtMostOnce(s, Genesis(geo), inputs, h);
  }
}
