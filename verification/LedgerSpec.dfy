/**
  The guest's ledger over values: the accounts drive's view and the in-RAM state that
  rides with it, and what each ledger call does to them or refuses.
 */
module LedgerSpec {
  import opened Options
  import opened ByteCodec
  import opened Geometry
  import opened DriveSpec
  import opened DriveTable
  import opened UndoLog

  /** Where the facade of an L1 token lives. */
  const l2TokenAddress: Address -> Address

  const TOKEN_WIDTH := 32

  /** What the ledger's getters show.  Only nonzero supplies are listed. */
  datatype World = World(
    geo: Config, view: View, supply: map<nat, int>, metadata: map<nat, Metadata>, portals: map<Address, nat>,
    fee: nat, pair: Option<CrossDomain>, msgNonce: nat, messages: map<Digest, Status>)

  datatype Lacking = EtherBalance | TokenBalance | FeeBalance
  datatype Fault = Insufficient(lacking: Lacking) | Drive(why: Refusal) | Unsupported(what: string)
  datatype Effect = Did(w: World) | Thrown(fault: Fault)

  // ------------------------------------------------------------------- accounts

  /** An address with no record reads as a zero account. */
  function AccountOf(w: World, a: Address): (r: Account) {
    if a in w.view.accounts then w.view.accounts[a] else Account(0, 0)
  }

  function PutAccount(w: World, a: Address, nonce: nat, balance: int): (r: Effect) {
    var refused := AccountRefusal(w.geo, w.view, a, nonce, balance);
    if refused.Some? then Thrown(Drive(refused.value))
    else Did(w.(view := SetAccount(w.geo, w.view, a, nonce, balance)))
  }

  function CreditEther(w: World, a: Address, n: nat): (r: Effect) {
    if n == 0 then Did(w)
    else if IsZero(a) then Thrown(Drive(ZeroAddress))
    else PutAccount(w, a, AccountOf(w, a).nonce, AccountOf(w, a).balance + n)
  }

  function DebitEther(w: World, a: Address, n: nat): (r: Effect) {
    if n == 0 then Did(w)
    else if IsZero(a) then Thrown(Drive(ZeroAddress))
    else if AccountOf(w, a).balance < n then Thrown(Insufficient(EtherBalance))
    else PutAccount(w, a, AccountOf(w, a).nonce, AccountOf(w, a).balance - n)
  }

  /** An account as the ledger reads it; the drive refuses the zero address. */
  function ReadAccount(w: World, a: Address): (r: Result<Account>) {
    if IsZero(a) then Refused(ZeroAddress) else Ok(AccountOf(w, a))
  }

  /** What taking an amount off an account would write, or why it cannot. */
  function Taking(acc: Result<Account>, n: nat, lacking: Lacking): (r: (Option<Fault>, Account)) {
    match acc
    case Refused(why) => (Some(Drive(why)), Account(0, 0))
    case Ok(x) =>
      if x.balance < n then (Some(Insufficient(lacking)), Account(0, 0)) else (None, x.(balance := x.balance - n))
  }

  lemma {:induction false} CreditEtherIs(w: World, a: Address, n: nat, acc: Result<Account>)
    requires acc == ReadAccount(w, a) && n > 0
    ensures CreditEther(w, a, n) == match acc
      case Refused(why) => Thrown(Drive(why))
      case Ok(x) => PutAccount(w, a, x.nonce, x.balance + n)
  {
  }

  /** A debit and a charge are both a taking, a charge with the nonce one on. */
  lemma {:induction false} DebitEtherIs(w: World, a: Address, n: nat, acc: Result<Account>)
    requires acc == ReadAccount(w, a) && n > 0
    ensures var (thrown, left) := Taking(acc, n, EtherBalance);
      DebitEther(w, a, n) == if thrown.Some? then Thrown(thrown.value) else PutAccount(w, a, left.nonce, left.balance)
  {
  }

  lemma {:induction false} ChargeIs(w: World, a: Address, n: nat, acc: Result<Account>)
    requires acc == ReadAccount(w, a)
    ensures var (thrown, left) := Taking(acc, n, FeeBalance);
      Charge(w, a, n) == if thrown.Some? then Thrown(thrown.value) else PutAccount(w, a, left.nonce + 1, left.balance)
  {
  }

  /** The one place nonces move. */
  function Charge(w: World, a: Address, fee: nat): (r: Effect) {
    if IsZero(a) then Thrown(Drive(ZeroAddress))
    else if AccountOf(w, a).balance < fee then Thrown(Insufficient(FeeBalance))
    else PutAccount(w, a, AccountOf(w, a).nonce + 1, AccountOf(w, a).balance - fee)
  }

  // --------------------------------------------------------------------- tokens

  /** Facade addresses of the registered tokens; a later token takes an address over. */
  function FacadesOf(tokens: seq<Token>): (m: map<Address, nat>) {
    if tokens == [] then map[]
    else FacadesOf(tokens[..|tokens| - 1])[l2TokenAddress(tokens[|tokens| - 1].address) := |tokens| - 1]
  }

  function TokenByL2(w: World, a: Address): (r: Option<nat>) {
    if a in FacadesOf(w.view.tokens) then Some(FacadesOf(w.view.tokens)[a]) else None
  }

  lemma {:induction false} FacadesName(tokens: seq<Token>, a: Address)
    requires a in FacadesOf(tokens)
    ensures FacadesOf(tokens)[a] < |tokens| && l2TokenAddress(tokens[FacadesOf(tokens)[a]].address) == a
    ensures forall k :: FacadesOf(tokens)[a] < k < |tokens| ==> l2TokenAddress(tokens[k].address) != a
  {
    var n := |tokens|;
    if l2TokenAddress(tokens[n - 1].address) != a { FacadesName(tokens[..n - 1], a); }
  }

  function TokenByL1(w: World, a: Address): (r: Option<nat>) {
    TokenIndex(w.view.tokens, a)
  }

  function SupplyOf(w: World, id: nat): (n: int) {
    TotalOf(w.supply, id)
  }

  /** The circulating total moved by delta; a zero total is not listed. */
  function AddTotal(w: World, id: nat, delta: int): (r: World) {
    var n := SupplyOf(w, id) + delta;
    w.(supply := if n == 0 then Without(w.supply, id) else w.supply[id := n])
  }

  function PutToken(w: World, a: Address, id: nat, value: int, delta: int): (r: Effect) {
    var refused := BalanceRefusal(w.geo, w.view, a, id, value);
    if refused.Some? then Thrown(Drive(refused.value))
    else Did(AddTotal(w.(view := SetTokenBalance(w.geo, w.view, a, id, value)), id, delta))
  }

  function CreditToken(w: World, a: Address, id: nat, n: nat): (r: Effect) {
    if n == 0 then Did(w)
    else
      var b := GetTokenBalance(w.geo, w.view, a, id);
      if b.Refused? then Thrown(Drive(b.why)) else PutToken(w, a, id, b.value + n, n)
  }

  function DebitToken(w: World, a: Address, id: nat, n: nat): (r: Effect) {
    if n == 0 then Did(w)
    else
      var b := GetTokenBalance(w.geo, w.view, a, id);
      if b.Refused? then Thrown(Drive(b.why))
      else if b.value < n then Thrown(Insufficient(TokenBalance))
      else PutToken(w, a, id, b.value - n, 0 - n)
  }

  /** What adding an amount to a holding would leave, or why it cannot. */
  function AddingTokens(held: Result<nat>, n: nat): (r: (Option<Fault>, nat)) {
    match held
    case Refused(why) => (Some(Drive(why)), 0)
    case Ok(x) => (None, x + n)
  }

  lemma {:induction false} CreditTokenIs(w: World, a: Address, id: nat, n: nat)
    ensures n > 0 ==> var (thrown, sum) := AddingTokens(GetTokenBalance(w.geo, w.view, a, id), n);
      CreditToken(w, a, id, n) == if thrown.Some? then Thrown(thrown.value) else PutToken(w, a, id, sum, n)
  {
  }

  /** What taking an amount off a holding would leave, or why it cannot. */
  function TakingTokens(held: Result<nat>, n: nat): (r: (Option<Fault>, nat)) {
    match held
    case Refused(why) => (Some(Drive(why)), 0)
    case Ok(x) => if x < n then (Some(Insufficient(TokenBalance)), 0) else (None, x - n)
  }

  lemma {:induction false} DebitTokenIs(w: World, a: Address, id: nat, n: nat)
    ensures n > 0 ==> var (thrown, left) := TakingTokens(GetTokenBalance(w.geo, w.view, a, id), n);
      DebitToken(w, a, id, n) == if thrown.Some? then Thrown(thrown.value) else PutToken(w, a, id, left, 0 - n)
  {
  }

  /** Registers a token under the next id, with its metadata where given. */
  function RegisterToken(w: World, l1: Address, m: Option<Metadata>): (r: Effect) {
    var refused := RegisterRefusal(w.geo, w.view, l1, TOKEN_WIDTH);
    if refused.Some? then Thrown(Drive(refused.value))
    else
      var id := |w.view.tokens|;
      Did(w.(view := DriveSpec.RegisterToken(w.geo, w.view, l1, TOKEN_WIDTH),
            metadata := if m.Some? then w.metadata[id := m.value] else w.metadata))
  }

  // ------------------------------------------------------------- the RAM as observed

  function Nonzero(totals: map<nat, int>): (m: map<nat, int>) {
    map id | id in totals && totals[id] != 0 :: totals[id]
  }

  /** The world a drive view and a RAM state stand for. */
  function WorldOf(geo: Config, v: View, r: Ram): (w: World) {
    World(geo, v, Nonzero(r.totals), r.metadata, r.portals, r.fee, r.crossDomain, r.msgNonce, r.messages)
  }

  lemma {:induction false} NonzeroReads(totals: map<nat, int>, id: nat)
    ensures TotalOf(Nonzero(totals), id) == TotalOf(totals, id)
  {
  }

  /** States no getter tells apart stand for the same world. */
  lemma {:induction false} SameWorld(geo: Config, v: View, a: State, b: State)
    requires Same(a, b)
    ensures WorldOf(geo, v, a.ram) == WorldOf(geo, v, b.ram)
  {
    forall id: nat ensures (id in Nonzero(a.ram.totals) <==> id in Nonzero(b.ram.totals))
      && (id in Nonzero(a.ram.totals) ==> Nonzero(a.ram.totals)[id] == Nonzero(b.ram.totals)[id])
    {
      assert TotalOf(a.ram.totals, id) == TotalOf(b.ram.totals, id);
    }
    assert Nonzero(a.ram.totals) == Nonzero(b.ram.totals);
    var x, y := a.ram.(totals := map[], facades := map[]), b.ram.(totals := map[], facades := map[]);
    assert x == y && a.ram.metadata == x.metadata == b.ram.metadata && a.ram.portals == x.portals == b.ram.portals;
    assert a.ram.fee == x.fee == b.ram.fee && a.ram.crossDomain == x.crossDomain == b.ram.crossDomain;
    assert a.ram.msgNonce == x.msgNonce == b.ram.msgNonce && a.ram.messages == x.messages == b.ram.messages;
  }

  lemma {:induction false} TotalAdded(geo: Config, v: View, r: Ram, id: nat, delta: int)
    ensures WorldOf(geo, v, r.(totals := r.totals[id := TotalOf(r.totals, id) + delta])) ==
      AddTotal(WorldOf(geo, v, r), id, delta)
  {
    var n := TotalOf(r.totals, id) + delta;
    NonzeroReads(r.totals, id);
    var out := Nonzero(r.totals[id := n]);
    assert out == if n == 0 then Without(Nonzero(r.totals), id) else Nonzero(r.totals)[id := n];
  }
}
