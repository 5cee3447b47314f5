/**
  What each ledger call keeps and what it moves: ether and nonces by account, token
  holdings against circulating supply.
 */
module LedgerLaws {
  import opened Options
  import opened ByteCodec
  import opened DriveSpec
  import opened UndoLog
  import opened LedgerSpec
  import opened Sums

  // ----------------------------------------------------------------------- measures

  function Balances(accounts: map<Address, Account>): (m: map<Address, nat>) {
    map a | a in accounts :: accounts[a].balance
  }

  ghost function Ether(w: World): (n: nat) {
    Sum(Balances(w.view.accounts))
  }

  function HeldBy(holdings: map<Holder, nat>, id: nat): (m: map<Holder, nat>) {
    map h | h in holdings && h.id == id :: holdings[h]
  }

  /** What all holders of a token hold together. */
  ghost function Held(w: World, id: nat): (n: nat) {
    Sum(HeldBy(w.view.holdings, id))
  }

  ghost predicate Supplied(w: World) {
    forall id: nat :: SupplyOf(w, id) == Held(w, id)
  }

  ghost predicate Sane(w: World) {
    Fits(w.geo, w.view)
  }

  // -------------------------------------------------------------------------- ether

  /** Everything but accounts is as it was. */
  ghost predicate OnlyAccounts(w: World, x: World) {
    x == w.(view := w.view.(accounts := x.view.accounts))
  }

  ghost predicate OthersKept(w: World, x: World, a: Address) {
    forall b: Address :: b != a ==> AccountOf(x, b) == AccountOf(w, b)
  }

  lemma {:induction false} EtherSet(w: World, a: Address, acc: Account)
    ensures var x := w.(view := w.view.(accounts := w.view.accounts[a := acc]));
      Ether(x) == Ether(w) - AccountOf(w, a).balance + acc.balance
  {
    SumSet(Balances(w.view.accounts), a, acc.balance);
    assert Balances(w.view.accounts[a := acc]) == Balances(w.view.accounts)[a := acc.balance];
  }

  /** A stored account: its record and nothing else, with the nonce reduced to its width. */
  lemma {:induction false} PutAccountIs(w: World, a: Address, nonce: nat, balance: int)
    requires PutAccount(w, a, nonce, balance).Did?
    ensures var x := PutAccount(w, a, nonce, balance).w;
      && OnlyAccounts(w, x) && OthersKept(w, x, a)
      && 0 <= balance && AccountOf(x, a) == Account(Wrap(nonce, Pow256(NonceBytes(w.geo))), balance)
      && Ether(x) == Ether(w) - AccountOf(w, a).balance + balance
  {
    EtherSet(w, a, Account(Wrap(nonce, Pow256(NonceBytes(w.geo))), balance));
  }

  /** The account's balance moved by delta; its nonce and every other account are as they were. */
  ghost predicate Moved(w: World, x: World, a: Address, delta: int) {
    && OnlyAccounts(w, x) && OthersKept(w, x, a)
    && AccountOf(x, a).nonce == AccountOf(w, a).nonce
    && AccountOf(x, a).balance == AccountOf(w, a).balance + delta
    && Ether(x) == Ether(w) + delta
  }

  ghost predicate NonceStored(w: World, a: Address) {
    AccountOf(w, a).nonce < Pow256(NonceBytes(w.geo))
  }

  lemma {:induction false} StoredNonce(w: World, a: Address)
    requires Sane(w)
    ensures NonceStored(w, a)
  {
    assert a in w.view.accounts ==> AccountFits(w.geo, w.view.accounts, a);
  }

  /** Rewriting an account under its own nonce moves its balance and nothing else. */
  lemma {:induction false} SameNonceMoves(w: World, a: Address, delta: int)
    requires NonceStored(w, a) && PutAccount(w, a, AccountOf(w, a).nonce, AccountOf(w, a).balance + delta).Did?
    ensures Moved(w, PutAccount(w, a, AccountOf(w, a).nonce, AccountOf(w, a).balance + delta).w, a, delta)
  {
    PutAccountIs(w, a, AccountOf(w, a).nonce, AccountOf(w, a).balance + delta);
  }

  lemma {:induction false} CreditMoves(w: World, a: Address, n: nat)
    requires NonceStored(w, a) && CreditEther(w, a, n).Did?
    ensures Moved(w, CreditEther(w, a, n).w, a, n)
  {
    if n > 0 { SameNonceMoves(w, a, n); }
  }

  lemma {:induction false} DebitMoves(w: World, a: Address, n: nat)
    requires NonceStored(w, a) && DebitEther(w, a, n).Did?
    ensures Moved(w, DebitEther(w, a, n).w, a, 0 - n)
  {
    if n > 0 { SameNonceMoves(w, a, 0 - n); }
  }

  /** The nonce one further and the balance less the fee; nothing else. */
  ghost predicate Billed(w: World, x: World, a: Address, fee: nat) {
    && OnlyAccounts(w, x) && OthersKept(w, x, a)
    && AccountOf(x, a).nonce == Wrap(AccountOf(w, a).nonce + 1, Pow256(NonceBytes(w.geo)))
    && AccountOf(x, a).balance == AccountOf(w, a).balance - fee
    && Ether(x) == Ether(w) - fee
  }

  lemma {:induction false} ChargeBills(w: World, a: Address, fee: nat)
    requires Charge(w, a, fee).Did?
    ensures Billed(w, Charge(w, a, fee).w, a, fee)
  {
    PutAccountIs(w, a, AccountOf(w, a).nonce + 1, AccountOf(w, a).balance - fee);
  }

  /** The charged world, in full. */
  function Charged(w: World, a: Address, fee: nat): (x: World)
    requires AccountOf(w, a).balance >= fee
  {
    var acc := AccountOf(w, a);
    var after := Account(Wrap(acc.nonce + 1, Pow256(NonceBytes(w.geo))), acc.balance - fee);
    w.(view := w.view.(accounts := w.view.accounts[a := after]))
  }

  lemma {:induction false} ChargeExact(w: World, a: Address, fee: nat)
    requires Charge(w, a, fee).Did?
    ensures AccountOf(w, a).balance >= fee && Charge(w, a, fee).w == Charged(w, a, fee)
  {
  }

  // ----------------------------------------------------------------- what fits still fits

  lemma {:induction false} PutAccountSane(w: World, a: Address, nonce: nat, balance: int)
    requires Sane(w) && PutAccount(w, a, nonce, balance).Did?
    ensures Sane(PutAccount(w, a, nonce, balance).w)
  {
    SetAccountFits(w.geo, w.view, a, nonce, balance);
  }

  lemma {:induction false} CreditSane(w: World, a: Address, n: nat)
    requires Sane(w) && CreditEther(w, a, n).Did?
    ensures Sane(CreditEther(w, a, n).w)
  {
    if n > 0 { PutAccountSane(w, a, AccountOf(w, a).nonce, AccountOf(w, a).balance + n); }
  }

  lemma {:induction false} DebitSane(w: World, a: Address, n: nat)
    requires Sane(w) && DebitEther(w, a, n).Did?
    ensures Sane(DebitEther(w, a, n).w)
  {
    if n > 0 { PutAccountSane(w, a, AccountOf(w, a).nonce, AccountOf(w, a).balance - n); }
  }

  lemma {:induction false} ChargeSane(w: World, a: Address, fee: nat)
    requires Sane(w) && Charge(w, a, fee).Did?
    ensures Sane(Charge(w, a, fee).w)
  {
    PutAccountSane(w, a, AccountOf(w, a).nonce + 1, AccountOf(w, a).balance - fee);
  }

  lemma {:induction false} PutTokenSane(w: World, a: Address, id: nat, value: int, delta: int)
    requires Sane(w) && PutToken(w, a, id, value, delta).Did?
    ensures Sane(PutToken(w, a, id, value, delta).w)
  {
    SetTokenBalanceFits(w.geo, w.view, a, id, value);
  }

  lemma {:induction false} CreditTokenSane(w: World, a: Address, id: nat, n: nat)
    requires Sane(w) && CreditToken(w, a, id, n).Did?
    ensures Sane(CreditToken(w, a, id, n).w)
  {
    if n > 0 { PutTokenSane(w, a, id, HoldingOf(w.view, id, a) + n, n); }
  }

  lemma {:induction false} DebitTokenSane(w: World, a: Address, id: nat, n: nat)
    requires Sane(w) && DebitToken(w, a, id, n).Did?
    ensures Sane(DebitToken(w, a, id, n).w)
  {
    if n > 0 { PutTokenSane(w, a, id, HoldingOf(w.view, id, a) - n, 0 - n); }
  }

  lemma {:induction false} RegisterSane(w: World, l1: Address, m: Option<Metadata>)
    requires Sane(w) && LedgerSpec.RegisterToken(w, l1, m).Did?
    ensures Sane(LedgerSpec.RegisterToken(w, l1, m).w)
  {
    RegisterFits(w.geo, w.view, l1, TOKEN_WIDTH);
  }

  // ------------------------------------------------------------------------- tokens

  /** What every token call keeps: accounts as read, total ether, supply, and the configuration. */
  ghost predicate TokensOnly(w: World, x: World) {
    && x.geo == w.geo && x.portals == w.portals && x.pair == w.pair && x.fee == w.fee
    && x.messages == w.messages && x.msgNonce == w.msgNonce
    && (forall a: Address :: AccountOf(x, a) == AccountOf(w, a))
    && Ether(x) == Ether(w)
    && (Supplied(w) ==> Supplied(x))
  }

  lemma {:induction false} TokensOnlyTrans(w: World, x: World, y: World)
    requires TokensOnly(w, x) && TokensOnly(x, y)
    ensures TokensOnly(w, y)
  {
  }

  /** One holding set: that token's total moves by the difference, every other total stays. */
  lemma {:induction false} HeldSet(holdings: map<Holder, nat>, h: Holder, n: nat, id: nat)
    ensures Sum(HeldBy(WithHolding(holdings, h, n), id)) ==
      Sum(HeldBy(holdings, id)) + if h.id == id then n - At(holdings, h) else 0
  {
    var m, out := HeldBy(holdings, id), HeldBy(WithHolding(holdings, h, n), id);
    if h.id != id {
      assert out == m;
    } else if n == 0 {
      SumDrop(m, h);
      assert out == m - {h};
    } else {
      SumSet(m, h, n);
      assert out == m[h := n];
    }
  }

  /** A wide drive may create the holder's record; it is a zero account, which reads as none. */
  lemma {:induction false} BornEmpty(w: World, a: Address)
    requires a !in w.view.accounts
    ensures var x := w.(view := w.view.(accounts := w.view.accounts[a := Account(0, 0)]));
      Ether(x) == Ether(w) && forall b: Address :: AccountOf(x, b) == AccountOf(w, b)
  {
    EtherSet(w, a, Account(0, 0));
  }

  lemma {:induction false} PutTokenSupplies(w: World, a: Address, id: nat, value: nat, delta: int, i: nat)
    requires delta == value - HoldingOf(w.view, id, a) && SupplyOf(w, i) == Held(w, i)
    ensures var x := AddTotal(w.(view := WithBalance(w.geo, w.view, a, id, value)), id, delta);
      SupplyOf(x, i) == Held(x, i)
  {
    HeldSet(w.view.holdings, Holder(id, a), value, i);
  }

  lemma {:induction false} PutTokenOnly(w: World, a: Address, id: nat, value: int, delta: int)
    requires PutToken(w, a, id, value, delta).Did? && delta == value - HoldingOf(w.view, id, a)
    ensures TokensOnly(w, PutToken(w, a, id, value, delta).w)
  {
    var x := PutToken(w, a, id, value, delta).w;
    SameAccountsSameReads(w, a, x);
    if Supplied(w) {
      forall i: nat ensures SupplyOf(x, i) == Held(x, i) {
        assert SupplyOf(w, i) == Held(w, i);
        PutTokenSupplies(w, a, id, value, delta, i);
      }
    }
  }

  lemma {:induction false} SameAccountsSameReads(w: World, a: Address, x: World)
    requires x.view.accounts == w.view.accounts ||
      (a !in w.view.accounts && x.view.accounts == w.view.accounts[a := Account(0, 0)])
    ensures Ether(x) == Ether(w) && forall b: Address :: AccountOf(x, b) == AccountOf(w, b)
  {
    if x.view.accounts != w.view.accounts { BornEmpty(w, a); }
  }

  lemma {:induction false} CreditTokenOnly(w: World, a: Address, id: nat, n: nat)
    requires CreditToken(w, a, id, n).Did?
    ensures TokensOnly(w, CreditToken(w, a, id, n).w)
  {
    if n > 0 {
      var value := HoldingOf(w.view, id, a) + n;
      assert CreditToken(w, a, id, n) == PutToken(w, a, id, value, n);
      PutTokenOnly(w, a, id, value, n);
    }
  }

  lemma {:induction false} DebitTokenOnly(w: World, a: Address, id: nat, n: nat)
    requires DebitToken(w, a, id, n).Did?
    ensures TokensOnly(w, DebitToken(w, a, id, n).w)
  {
    if n > 0 {
      var value, delta := HoldingOf(w.view, id, a) - n, 0 - n;
      assert DebitToken(w, a, id, n) == PutToken(w, a, id, value, delta);
      PutTokenOnly(w, a, id, value, delta);
    }
  }

  lemma {:induction false} RegisterOnly(w: World, l1: Address, m: Option<Metadata>)
    requires LedgerSpec.RegisterToken(w, l1, m).Did?
    ensures TokensOnly(w, LedgerSpec.RegisterToken(w, l1, m).w)
  {
    var x := LedgerSpec.RegisterToken(w, l1, m).w;
    SameAccountsSameReads(w, l1, x);
    if Supplied(w) {
      forall i: nat ensures SupplyOf(x, i) == Held(x, i) {
        assert SupplyOf(w, i) == Held(w, i);
      }
    }
  }
}
