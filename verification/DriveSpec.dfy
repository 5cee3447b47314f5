/**
  What an accounts drive stands for, with no bytes and no hashing: a bounded map of
  accounts, a bounded set of token holdings and an append-only token registry.  Every
  refusal of the drive is decided here from sizes and widths alone.
 */
module DriveSpec {
  import opened Options
  import opened ByteCodec
  import opened Geometry

  type Address = a: seq<Byte> | |a| == 20 witness Zeros(20)

  datatype Refusal =
    | ZeroAddress | Overflow | TableFull | RegistryFull | DuplicateToken
    | BadWidth | NoSuchProfile | UnknownToken | NonceProtected

  datatype Result<+T> = Ok(value: T) | Refused(why: Refusal)

  datatype Account = Account(nonce: nat, balance: nat)
  datatype Token = Token(address: Address, width: nat)
  datatype Holder = Holder(id: nat, who: Address)

  /** Only nonzero holdings are listed. */
  datatype View = View(accounts: map<Address, Account>, holdings: map<Holder, nat>, tokens: seq<Token>)

  const EMPTY := View(map[], map[], [])

  predicate Compact(c: Config) {
    c.profile == SINGLE_ASSET && c.slotSize == 32
  }

  function NonceBytes(c: Config): (n: nat) {
    if Compact(c) then FOUR else EIGHT
  }

  function BalanceBytes(c: Config): (n: nat) {
    if Compact(c) then EIGHT else THIRTY_TWO
  }

  predicate ValidWidth(w: nat) {
    w == 8 || w == 16 || w == 32
  }

  // ---------------------------------------------------------------- accounts

  function GetAccount(v: View, a: Address): (r: Result<Option<Account>>) {
    if IsZero(a) then Refused(ZeroAddress)
    else Ok(if a in v.accounts then Some(v.accounts[a]) else None)
  }

  /** Why an account write is refused, if it is. */
  function AccountRefusal(c: Config, v: View, a: Address, nonce: nat, balance: int): (r: Option<Refusal>) {
    if IsZero(a) then Some(ZeroAddress)
    else if Compact(c) && nonce >= Pow256(NonceBytes(c)) then Some(Overflow)
    else if balance < 0 || balance >= Pow256(BalanceBytes(c)) then Some(Overflow)
    else if a !in v.accounts && |v.accounts| >= c.loadLimit then Some(TableFull)
    else None
  }

  /** A standard record keeps the low 64 bits of the nonce. */
  function WithAccount(c: Config, v: View, a: Address, nonce: nat, balance: nat): (w: View) {
    v.(accounts := v.accounts[a := Account(Wrap(nonce, Pow256(NonceBytes(c))), balance)])
  }

  function SetAccount(c: Config, v: View, a: Address, nonce: nat, balance: int): (w: View) {
    if AccountRefusal(c, v, a, nonce, balance).None? then WithAccount(c, v, a, nonce, balance) else v
  }

  function DeleteRefusal(v: View, a: Address, force: bool): (r: Option<Refusal>) {
    if IsZero(a) then Some(ZeroAddress)
    else if a in v.accounts && !force && v.accounts[a].nonce != 0 then Some(NonceProtected)
    else None
  }

  /** Deleting an account of a wide drive takes its token columns with it. */
  function WithoutAccount(c: Config, v: View, a: Address): (w: View) {
    v.(accounts := Without(v.accounts, a),
       holdings := if c.profile == WIDE then map h | h in v.holdings && h.who != a :: v.holdings[h] else v.holdings)
  }

  function DeleteAccount(c: Config, v: View, a: Address, force: bool): (w: View) {
    if DeleteRefusal(v, a, force).None? && a in v.accounts then WithoutAccount(c, v, a) else v
  }

  // ---------------------------------------------------------------- registry

  function TokenIndex(tokens: seq<Token>, a: Address): (r: Option<nat>)
    ensures r.None? <==> forall i :: 0 <= i < |tokens| ==> tokens[i].address != a
    ensures r.Some? ==> r.value < |tokens| && tokens[r.value].address == a
    ensures r.Some? ==> forall i :: 0 <= i < r.value ==> tokens[i].address != a
  {
    if tokens == [] then None
    else
      var r := TokenIndex(tokens[..|tokens| - 1], a);
      if r.Some? then r
      else if tokens[|tokens| - 1].address == a then Some(|tokens| - 1)
      else None
  }

  /** Where the column of the next token of a wide slot begins. */
  function ColumnsEnd(tokens: seq<Token>): (n: nat)
    ensures n >= 64
  {
    if tokens == [] then 64 else ColumnsEnd(tokens[..|tokens| - 1]) + tokens[|tokens| - 1].width
  }

  function RegisterRefusal(c: Config, v: View, a: Address, width: nat): (r: Option<Refusal>) {
    if c.registryOffset == 0 then Some(NoSuchProfile)
    else if !ValidWidth(width) then Some(BadWidth)
    else if TokenIndex(v.tokens, a).Some? then Some(DuplicateToken)
    else if |v.tokens| >= c.registryCapacity then Some(RegistryFull)
    else if c.profile == WIDE && ColumnsEnd(v.tokens) + width > c.slotSize then Some(TableFull)
    else if c.profile == SPARSE && c.sparseSlotSize == 32 && width != 8 then Some(BadWidth)
    else if Compact(c) && width != 8 then Some(BadWidth)
    else None
  }

  function WithToken(v: View, a: Address, width: nat): (w: View) {
    v.(tokens := v.tokens + [Token(a, width)])
  }

  function RegisterToken(c: Config, v: View, a: Address, width: nat): (w: View) {
    if RegisterRefusal(c, v, a, width).None? then WithToken(v, a, width) else v
  }

  // --------------------------------------------------------------- holdings

  function HoldingOf(v: View, id: nat, a: Address): (n: nat) {
    if Holder(id, a) in v.holdings then v.holdings[Holder(id, a)] else 0
  }

  function GetTokenBalance(c: Config, v: View, a: Address, id: nat): (r: Result<nat>) {
    if IsZero(a) then Refused(ZeroAddress)
    else if id >= |v.tokens| then Refused(UnknownToken)
    else if c.profile == SINGLE_ASSET then Refused(NoSuchProfile)
    else Ok(HoldingOf(v, id, a))
  }

  function WithHolding(holdings: map<Holder, nat>, h: Holder, n: nat): (r: map<Holder, nat>) {
    if n == 0 then Without(holdings, h) else holdings[h := n]
  }

  function BalanceRefusal(c: Config, v: View, a: Address, id: nat, value: int): (r: Option<Refusal>) {
    if IsZero(a) then Some(ZeroAddress)
    else if id >= |v.tokens| then Some(UnknownToken)
    else if value < 0 || value >= Pow256(v.tokens[id].width) then Some(Overflow)
    else TableRefusal(c, v, a, id, value)
  }

  /** Why the profile's table refuses a balance that fits its token, if it does. */
  function TableRefusal(c: Config, v: View, a: Address, id: nat, value: nat): (r: Option<Refusal>) {
    if c.profile == SINGLE_ASSET then Some(NoSuchProfile)
    else if c.profile == WIDE && a !in v.accounts && value != 0 && |v.accounts| >= c.loadLimit then Some(TableFull)
    else if c.profile == SPARSE && Holder(id, a) !in v.holdings && value != 0 && |v.holdings| >= c.sparseLoadLimit
      then Some(TableFull)
    else None
  }

  /**
    In a wide drive a holding is a column of the account record, which a first nonzero
    balance creates; in a sparse drive it is a record of its own, which a zero balance
    removes.
   */
  function WithBalance(c: Config, v: View, a: Address, id: nat, value: nat): (w: View) {
    v.(holdings := WithHolding(v.holdings, Holder(id, a), value),
       accounts := if c.profile == WIDE && a !in v.accounts && value != 0 then v.accounts[a := Account(0, 0)] else v.accounts)
  }

  function SetTokenBalance(c: Config, v: View, a: Address, id: nat, value: int): (w: View) {
    if BalanceRefusal(c, v, a, id, value).None? then WithBalance(c, v, a, id, value) else v
  }

  // ------------------------------------------------------------- the invariant

  ghost predicate AccountFits(c: Config, accounts: map<Address, Account>, a: Address)
    requires a in accounts
  {
    !IsZero(a) && accounts[a].nonce < Pow256(NonceBytes(c)) && accounts[a].balance < Pow256(BalanceBytes(c))
  }

  ghost predicate AccountsFit(c: Config, accounts: map<Address, Account>) {
    && |accounts| <= c.loadLimit
    && forall a {:trigger AccountFits(c, accounts, a)} :: a in accounts ==> AccountFits(c, accounts, a)
  }

  ghost predicate HoldingFits(c: Config, v: View, h: Holder)
    requires h in v.holdings
  {
    && !IsZero(h.who) && h.id < |v.tokens|
    && 0 < v.holdings[h] < Pow256(v.tokens[h.id].width)
    && (c.profile == WIDE ==> h.who in v.accounts)
  }

  ghost predicate HoldingsFit(c: Config, v: View) {
    && (forall h {:trigger HoldingFits(c, v, h)} :: h in v.holdings ==> HoldingFits(c, v, h))
    && (c.profile == SPARSE ==> |v.holdings| <= c.sparseLoadLimit)
    && (c.profile == SINGLE_ASSET ==> v.holdings == map[])
  }

  ghost predicate TokensFit(c: Config, tokens: seq<Token>) {
    && (if c.registryOffset == 0 then tokens == [] else |tokens| <= c.registryCapacity)
    && (forall i :: 0 <= i < |tokens| ==>
          && ValidWidth(tokens[i].width)
          && (c.profile == SPARSE && c.sparseSlotSize == 32 ==> tokens[i].width == 8))
    && (forall i, j :: 0 <= i < j < |tokens| ==> tokens[i].address != tokens[j].address)
    && (c.profile == WIDE ==> ColumnsEnd(tokens) <= c.slotSize)
  }

  ghost predicate Fits(c: Config, v: View) {
    AccountsFit(c, v.accounts) && HoldingsFit(c, v) && TokensFit(c, v.tokens)
  }

  lemma {:induction false} EmptyFits(c: Config)
    requires c.profile == WIDE ==> c.slotSize >= 64
    ensures Fits(c, EMPTY)
  {
  }

  /** A view whose accounts still fit, and whose holdings were all there before, fits. */
  lemma {:induction false} FewerHoldingsFit(c: Config, v: View, w: View)
    requires HoldingsFit(c, v) && |w.holdings| <= |v.holdings| && |v.tokens| <= |w.tokens|
    requires forall h :: h in w.holdings ==> h in v.holdings && w.holdings[h] == v.holdings[h]
    requires forall h :: h in w.holdings && c.profile == WIDE && h.who in v.accounts ==> h.who in w.accounts
    requires w.tokens[..|v.tokens|] == v.tokens
    ensures HoldingsFit(c, w)
  {
    forall h | h in w.holdings ensures HoldingFits(c, w, h) {
      assert HoldingFits(c, v, h);
      assert w.tokens[h.id] == v.tokens[h.id];
    }
    if c.profile == SINGLE_ASSET { assert w.holdings.Keys == {}; }
  }

  lemma {:induction false} SetAccountFits(c: Config, v: View, a: Address, nonce: nat, balance: int)
    requires Fits(c, v)
    ensures Fits(c, SetAccount(c, v, a, nonce, balance))
  {
    var w := SetAccount(c, v, a, nonce, balance);
    forall b | b in w.accounts ensures AccountFits(c, w.accounts, b) {
      assert b in v.accounts ==> AccountFits(c, v.accounts, b);
    }
    FewerHoldingsFit(c, v, w);
  }

  lemma {:induction false} DeleteAccountFits(c: Config, v: View, a: Address, force: bool)
    requires Fits(c, v)
    ensures Fits(c, DeleteAccount(c, v, a, force))
  {
    var w := DeleteAccount(c, v, a, force);
    forall b | b in w.accounts ensures AccountFits(c, w.accounts, b) {
      assert AccountFits(c, v.accounts, b);
    }
    SubsetSize(w.accounts.Keys, v.accounts.Keys);
    SubsetSize(w.holdings.Keys, v.holdings.Keys);
    FewerHoldingsFit(c, v, w);
  }

  lemma {:induction false} RegisterFits(c: Config, v: View, a: Address, width: nat)
    requires Fits(c, v)
    ensures Fits(c, RegisterToken(c, v, a, width))
  {
    var w, more := RegisterToken(c, v, a, width), v.tokens + [Token(a, width)];
    assert more[..|more| - 1] == v.tokens;
    FewerHoldingsFit(c, v, w);
  }

  lemma {:induction false} WithHoldingSize(m: map<Holder, nat>, h: Holder, n: nat)
    ensures |WithHolding(m, h, n)| <= |m| + if n != 0 && h !in m then 1 else 0
  {
    assert Without(m, h).Keys == m.Keys - {h};
    assert m[h := n].Keys == m.Keys + {h};
  }

  lemma {:induction false} WithHoldingFits(c: Config, v: View, accounts: map<Address, Account>, h: Holder, n: nat)
    requires HoldingsFit(c, v) && v.accounts.Keys <= accounts.Keys
    requires !IsZero(h.who) && h.id < |v.tokens| && n < Pow256(v.tokens[h.id].width)
    requires c.profile == WIDE && n != 0 ==> h.who in accounts
    requires c.profile == SPARSE && n != 0 && h !in v.holdings ==> |v.holdings| < c.sparseLoadLimit
    requires c.profile != SINGLE_ASSET
    ensures HoldingsFit(c, View(accounts, WithHolding(v.holdings, h, n), v.tokens))
  {
    WithHoldingSize(v.holdings, h, n);
    var w := View(accounts, WithHolding(v.holdings, h, n), v.tokens);
    forall g | g in w.holdings ensures HoldingFits(c, w, g) {
      assert g in v.holdings ==> HoldingFits(c, v, g);
    }
  }

  lemma {:induction false} BornFits(c: Config, accounts: map<Address, Account>, a: Address)
    requires AccountsFit(c, accounts) && a !in accounts && !IsZero(a) && |accounts| < c.loadLimit
    ensures AccountsFit(c, accounts[a := Account(0, 0)])
  {
    var more := accounts[a := Account(0, 0)];
    forall b | b in more ensures AccountFits(c, more, b) {
      assert b in accounts ==> AccountFits(c, accounts, b);
    }
  }

  lemma {:induction false} SetTokenBalanceFits(c: Config, v: View, a: Address, id: nat, value: int)
    requires Fits(c, v)
    ensures Fits(c, SetTokenBalance(c, v, a, id, value))
  {
    var w := SetTokenBalance(c, v, a, id, value);
    if BalanceRefusal(c, v, a, id, value).None? {
      if w.accounts != v.accounts { BornFits(c, v.accounts, a); }
      WithHoldingFits(c, v, w.accounts, Holder(id, a), value);
    }
  }
}
