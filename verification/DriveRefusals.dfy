/**
  What the drive refuses, and why: a write is refused exactly when what it would leave
  does not fit the drive, and each refusal names its reason.
 */
module DriveRefusals {
  import opened Options
  import opened ByteCodec
  import opened Geometry
  import opened DriveSpec

  lemma {:induction false} OneMoreAccount(accounts: map<Address, Account>, a: Address, acc: Account)
    ensures |accounts[a := acc]| == |accounts| + if a in accounts then 0 else 1
  {
    assert accounts[a := acc].Keys == accounts.Keys + {a};
    if a in accounts { assert accounts[a := acc].Keys == accounts.Keys; }
  }

  /** An account is refused exactly if the drive could not hold it, or a compact record could not hold its nonce. */
  lemma {:induction false} AccountRefusedExactly(c: Config, v: View, a: Address, nonce: nat, balance: int)
    requires Fits(c, v)
    ensures AccountRefusal(c, v, a, nonce, balance).None? <==>
      balance >= 0 && (Compact(c) ==> nonce < Pow256(NonceBytes(c))) && Fits(c, WithAccount(c, v, a, nonce, balance))
    ensures AccountRefusal(c, v, a, nonce, balance) == Some(ZeroAddress) <==> IsZero(a)
    ensures AccountRefusal(c, v, a, nonce, balance) == Some(TableFull) ==> a !in v.accounts && |v.accounts| == c.loadLimit
  {
    SetAccountFits(c, v, a, nonce, balance);
    if balance >= 0 {
      var w := WithAccount(c, v, a, nonce, balance);
      OneMoreAccount(v.accounts, a, w.accounts[a]);
      if Fits(c, w) { assert AccountFits(c, w.accounts, a); }
    }
  }

  /** A balance is refused exactly if the profile keeps no tokens, holder or token is unknown, or the drive could not hold it. */
  lemma {:induction false} BalanceRefusedExactly(c: Config, v: View, a: Address, id: nat, value: int)
    requires Fits(c, v)
    ensures BalanceRefusal(c, v, a, id, value).None? <==>
      && c.profile != SINGLE_ASSET && !IsZero(a) && id < |v.tokens| && value >= 0
      && Fits(c, WithBalance(c, v, a, id, value))
    ensures BalanceRefusal(c, v, a, id, value) == Some(ZeroAddress) <==> IsZero(a)
    ensures BalanceRefusal(c, v, a, id, value) == Some(UnknownToken) <==> !IsZero(a) && id >= |v.tokens|
  {
    SetTokenBalanceFits(c, v, a, id, value);
    if !IsZero(a) && id < |v.tokens| && value >= 0 && c.profile != SINGLE_ASSET {
      var w, h := WithBalance(c, v, a, id, value), Holder(id, a);
      if Fits(c, w) {
        if value > 0 { assert HoldingFits(c, w, h); }
        OneMoreAccount(v.accounts, a, Account(0, 0));
        if h !in v.holdings && value > 0 { assert w.holdings.Keys == v.holdings.Keys + {h}; }
        ZeroFits(v.tokens[id].width);
      }
    }
  }

  lemma {:induction false} ZeroFits(width: nat)
    ensures 0 < Pow256(width)
  {
  }

  /** A token is refused exactly if the drive could not hold it, or a compact record could not hold its balances. */
  lemma {:induction false} TokenRefusedExactly(c: Config, v: View, a: Address, width: nat)
    requires Fits(c, v)
    ensures RegisterRefusal(c, v, a, width).None? <==> (Compact(c) ==> width == 8) && Fits(c, WithToken(v, a, width))
    ensures RegisterRefusal(c, v, a, width) == Some(DuplicateToken) ==>
      exists i :: 0 <= i < |v.tokens| && v.tokens[i].address == a
  {
    RegisterFits(c, v, a, width);
    var w := WithToken(v, a, width);
    var n := |v.tokens|;
    assert w.tokens[..n] == v.tokens && w.tokens[n] == Token(a, width);
    if Fits(c, w) { assert forall i :: 0 <= i < n ==> w.tokens[i].address != w.tokens[n].address; }
  }

  /** Without force, a delete takes away exactly the account named, and only if it never sent anything. */
  lemma {:induction false} UsedAccountsStay(c: Config, v: View, a: Address, b: Address)
    ensures b in DeleteAccount(c, v, a, false).accounts <==>
      b in v.accounts && (b != a || IsZero(a) || v.accounts[b].nonce != 0)
    ensures b in DeleteAccount(c, v, a, false).accounts ==> DeleteAccount(c, v, a, false).accounts[b] == v.accounts[b]
  {
  }
}
