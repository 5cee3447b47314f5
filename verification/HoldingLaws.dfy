/**
  Whose ether and whose tokens a ledger call moves: account by account and holding by
  holding, with every other one as it was.
 */
module HoldingLaws {
  import opened Options
  import opened DriveSpec
  import opened LedgerSpec
  import opened LedgerLaws
  import opened Handlers

  // -------------------------------------------------------------------------- ether

  /** So much ether passed from one account to another; every nonce and every other balance is as it was. */
  ghost predicate EtherPassed(w: World, x: World, from: Address, to: Address, n: nat) {
    && OnlyAccounts(w, x)
    && forall a: Address ::
         && AccountOf(x, a).nonce == AccountOf(w, a).nonce
         && AccountOf(x, a).balance == AccountOf(w, a).balance - Part(a == from, n) + Part(a == to, n)
  }

  function Part(mine: bool, n: nat): (r: nat) {
    if mine then n else 0
  }

  lemma {:induction false} MovePasses(w: World, from: Address, to: Address, n: nat)
    requires Sane(w) && MoveEther(w, from, to, n).Did?
    ensures EtherPassed(w, MoveEther(w, from, to, n).w, from, to, n) && AccountOf(w, from).balance >= n
  {
    var mid := DebitEther(w, from, n).w;
    StoredNonce(w, from);
    DebitMoves(w, from, n);
    DebitSane(w, from, n);
    StoredNonce(mid, to);
    CreditMoves(mid, to, n);
  }

  /** So much ether was taken off one account, and nothing else happened. */
  ghost predicate EtherTaken(w: World, x: World, from: Address, n: nat) {
    && OnlyAccounts(w, x)
    && forall a: Address ::
         && AccountOf(x, a).nonce == AccountOf(w, a).nonce
         && AccountOf(x, a).balance == AccountOf(w, a).balance - Part(a == from, n)
  }

  lemma {:induction false} DebitTakes(w: World, from: Address, n: nat)
    requires Sane(w) && DebitEther(w, from, n).Did?
    ensures EtherTaken(w, DebitEther(w, from, n).w, from, n) && AccountOf(w, from).balance >= n
  {
    StoredNonce(w, from);
    DebitMoves(w, from, n);
  }

  /** A debit goes through exactly when the account covers it; nothing is refused for want of room. */
  lemma {:induction false} DebitExactly(w: World, a: Address, n: nat)
    requires Sane(w)
    ensures DebitEther(w, a, n).Did? <==> n == 0 || AccountOf(w, a).balance >= n
  {
    if n > 0 && AccountOf(w, a).balance >= n { assert AccountFits(w.geo, w.view.accounts, a); }
  }

  // ------------------------------------------------------------------------- tokens

  /** One holding moved by delta; every other holding is as it was. */
  ghost predicate HoldingMoved(w: World, x: World, id: nat, a: Address, delta: int) {
    forall i: nat, b: Address ::
      HoldingOf(x.view, i, b) == HoldingOf(w.view, i, b) + if i == id && b == a then delta else 0
  }

  /** So much of a token passed from one holder to another; every other holding is as it was. */
  ghost predicate TokensPassed(w: World, x: World, id: nat, from: Address, to: Address, n: nat) {
    forall i: nat, b: Address ::
      HoldingOf(x.view, i, b) == HoldingOf(w.view, i, b) - Part(i == id && b == from, n) + Part(i == id && b == to, n)
  }

  /** Neither accounts as read, nor the registry, nor any setting. */
  ghost predicate HoldingsOnly(w: World, x: World) {
    && (forall a: Address :: AccountOf(x, a) == AccountOf(w, a)) && x.view.tokens == w.view.tokens
    && x == w.(view := x.view, supply := x.supply)
  }

  lemma {:induction false} PutMoves(w: World, a: Address, id: nat, value: int, delta: int)
    requires PutToken(w, a, id, value, delta).Did? && delta == value - HoldingOf(w.view, id, a)
    ensures HoldingMoved(w, PutToken(w, a, id, value, delta).w, id, a, delta)
    ensures HoldingsOnly(w, PutToken(w, a, id, value, delta).w)
  {
    var x := PutToken(w, a, id, value, delta).w;
    SameAccountsSameReads(w, a, x);
  }

  lemma {:induction false} CreditTokenMoves(w: World, a: Address, id: nat, n: nat)
    requires CreditToken(w, a, id, n).Did?
    ensures HoldingMoved(w, CreditToken(w, a, id, n).w, id, a, n) && HoldingsOnly(w, CreditToken(w, a, id, n).w)
  {
    if n > 0 { PutMoves(w, a, id, HoldingOf(w.view, id, a) + n, n); }
  }

  lemma {:induction false} DebitTokenMoves(w: World, a: Address, id: nat, n: nat)
    requires DebitToken(w, a, id, n).Did?
    ensures HoldingMoved(w, DebitToken(w, a, id, n).w, id, a, 0 - n) && HoldingsOnly(w, DebitToken(w, a, id, n).w)
    ensures HoldingOf(w.view, id, a) >= n
  {
    if n > 0 { PutMoves(w, a, id, HoldingOf(w.view, id, a) - n, 0 - n); }
  }

  lemma {:induction false} MovePassesTokens(w: World, from: Address, to: Address, id: nat, n: nat)
    requires MoveToken(w, from, to, id, n).Did?
    ensures TokensPassed(w, MoveToken(w, from, to, id, n).w, id, from, to, n)
    ensures HoldingsOnly(w, MoveToken(w, from, to, id, n).w) && HoldingOf(w.view, id, from) >= n
  {
    var mid := DebitToken(w, from, id, n).w;
    DebitTokenMoves(w, from, id, n);
    CreditTokenMoves(mid, to, id, n);
  }

  /** A holding debited goes through exactly when the holder has it. */
  lemma {:induction false} DebitTokenExactly(w: World, a: Address, id: nat, n: nat)
    requires Sane(w)
    ensures DebitToken(w, a, id, n).Did? <==> n == 0 || HoldingOf(w.view, id, a) >= n
  {
    if n > 0 && HoldingOf(w.view, id, a) >= n { assert HoldingFits(w.geo, w.view, Holder(id, a)); }
  }

  /** The token of an L1 address is known afterwards, registered last if it was not known before. */
  ghost predicate Known(w: World, x: World, l1: Address, id: nat) {
    && TokenByL1(x, l1) == Some(id)
    && x.view.tokens == if TokenByL1(w, l1).Some? then w.view.tokens else w.view.tokens + [Token(l1, TOKEN_WIDTH)]
  }

  lemma {:induction false} RegisteredLast(tokens: seq<Token>, l1: Address, more: seq<Token>)
    requires TokenIndex(tokens, l1).None? && more == tokens + [Token(l1, TOKEN_WIDTH)]
    ensures TokenIndex(more, l1) == Some(|tokens|)
  {
    var r := TokenIndex(more, l1);
    assert more[|tokens|].address == l1;
    assert forall i :: 0 <= i < |tokens| ==> more[i] == tokens[i];
  }

  lemma {:induction false} ResolveKnows(w: World, l1: Address)
    requires Resolve(w, l1).Did?
    ensures var id := if TokenByL1(w, l1).Some? then TokenByL1(w, l1).value else |w.view.tokens|;
      Known(w, Resolve(w, l1).w, l1, id)
    ensures var x := Resolve(w, l1).w; x == w.(view := w.view.(tokens := x.view.tokens))
  {
    if TokenByL1(w, l1).None? { RegisteredLast(w.view.tokens, l1, Resolve(w, l1).w.view.tokens); }
  }

  /** Knowing a token first and crediting it then, together. */
  lemma {:induction false} KnownThenMoved(w: World, mid: World, x: World, l1: Address, id: nat, to: Address, n: nat)
    requires Known(w, mid, l1, id) && mid == w.(view := w.view.(tokens := mid.view.tokens))
    requires HoldingMoved(mid, x, id, to, n) && HoldingsOnly(mid, x)
    ensures Known(w, x, l1, id) && HoldingMoved(w, x, id, to, n)
    ensures (forall a: Address :: AccountOf(x, a) == AccountOf(w, a)) && x == w.(view := x.view, supply := x.supply)
  {
    assert mid.view.holdings == w.view.holdings && mid.view.accounts == w.view.accounts;
    forall i: nat, b: Address
      ensures HoldingOf(x.view, i, b) == HoldingOf(w.view, i, b) + if i == id && b == to then n else 0
    {
      assert HoldingOf(mid.view, i, b) == HoldingOf(w.view, i, b);
    }
    forall a: Address ensures AccountOf(x, a) == AccountOf(w, a) {
      assert AccountOf(mid, a) == AccountOf(w, a);
    }
  }

  /** Minting raises one holding, of the token of that L1 address, and nothing else but the registry. */
  lemma {:induction false} MintMoves(w: World, l1: Address, to: Address, n: nat) returns (id: nat)
    requires MintToken(w, l1, to, n).Did?
    ensures var x := MintToken(w, l1, to, n).w;
      && Known(w, x, l1, id) && HoldingMoved(w, x, id, to, n)
      && (forall a: Address :: AccountOf(x, a) == AccountOf(w, a)) && x == w.(view := x.view, supply := x.supply)
  {
    id := if TokenByL1(w, l1).Some? then TokenByL1(w, l1).value else |w.view.tokens|;
    var mid := Resolve(w, l1).w;
    ResolveKnows(w, l1);
    CreditTokenMoves(mid, to, id, n);
    KnownThenMoved(w, mid, MintToken(w, l1, to, n).w, l1, id, to, n);
  }

  // ------------------------------------------------------------------------- facades

  /** An address is a facade exactly when it is that of a registered token. */
  lemma {:induction false} FacadesExactly(tokens: seq<Token>, a: Address)
    ensures a in FacadesOf(tokens) <==> exists k :: 0 <= k < |tokens| && FacadeAt(tokens[k], a)
    decreases |tokens|
  {
    if tokens != [] {
      var n := |tokens| - 1;
      FacadesExactly(tokens[..n], a);
      if k :| 0 <= k < n && FacadeAt(tokens[..n][k], a) { assert FacadeAt(tokens[k], a); }
      if k :| 0 <= k < |tokens| && FacadeAt(tokens[k], a) {
        if k < n { assert FacadeAt(tokens[..n][k], a); }
      }
      assert FacadeAt(tokens[n], a) <==> l2TokenAddress(tokens[n].address) == a;
    }
  }

  ghost predicate FacadeAt(t: Token, a: Address) {
    l2TokenAddress(t.address) == a
  }
}
