/**
  The drive itself: reads and writes go through the byte tables, and every operation
  answers and changes exactly what the abstract view says it should.
 */
module AccountsDrive {
  import opened Options
  import opened ByteCodec
  import opened Geometry
  import opened DriveSpec
  import opened DriveTable
  import opened DriveRecords
  import opened DriveUpdates
  import opened DriveImage
  import opened UndoLog
  import opened DriveStore

  lemma {:induction false} ReadsAccount(c: Config, mem: seq<Byte>, v: View, a: Address)
    requires Shows(c, mem, v)
    ensures a in Records(mem, AccountsTable(c)) <==> a in v.accounts
    ensures a in Records(mem, AccountsTable(c)) ==>
      var slot := Records(mem, AccountsTable(c))[a];
      |slot| == c.slotSize >= RecordBytes(c) && DecodeAccount(c, slot) == v.accounts[a]
  {
    assert AccountAt(c, Records(mem, AccountsTable(c)), v.accounts, a);
  }

  lemma {:induction false} ReadsHolding(c: Config, mem: seq<Byte>, v: View, a: Address, id: nat)
    requires Shows(c, mem, v) && c.profile == SPARSE && id < |v.tokens|
    ensures SparseAt(Records(mem, SparseTable(c)), v.holdings, Holder(id, a))
  {
  }

  lemma {:induction false} ReadsColumn(c: Config, mem: seq<Byte>, v: View, a: Address, id: nat)
    requires Shows(c, mem, v) && c.profile == WIDE && id < |v.tokens|
    ensures a in Records(mem, AccountsTable(c)) <==> a in v.accounts
    ensures a !in v.accounts ==> HoldingOf(v, id, a) == 0
    ensures a in Records(mem, AccountsTable(c)) ==>
      var slot := Records(mem, AccountsTable(c))[a];
      |slot| == c.slotSize >= ColumnsEnd(v.tokens) && HoldingOf(v, id, a) == Column(slot, v.tokens, id)
  {
    var recs := Records(mem, AccountsTable(c));
    ReadsAccount(c, mem, v, a);
    assert WideAt(recs, v.tokens, v.holdings, id, a) && HolderKnown(recs, v.tokens, v.holdings, Holder(id, a));
    assert WideSlot(recs, v.tokens, c.slotSize, a);
  }

  lemma {:induction false} CountsAccounts(c: Config, mem: seq<Byte>, v: View)
    requires Shows(c, mem, v)
    ensures Counter(mem, AccountsTable(c)) == |Records(mem, AccountsTable(c))| == |v.accounts|
  {
    CounterIsSize(mem, AccountsTable(c));
    AccountsCounted(c, Records(mem, AccountsTable(c)), v.accounts);
  }

  lemma {:induction false} CountsHoldings(c: Config, mem: seq<Byte>, v: View)
    requires Shows(c, mem, v) && c.profile == SPARSE
    ensures Counter(mem, SparseTable(c)) == |Records(mem, SparseTable(c))| == |v.holdings|
  {
    CounterIsSize(mem, SparseTable(c));
    HoldingsCounted(Records(mem, SparseTable(c)), v.tokens, v.holdings, c.sparseSlotSize);
  }

  lemma {:induction false} KeyedByHolder(c: Config, id: nat, a: Address, slot: Record)
    requires |slot| >= 32 && slot[..2] == LE(ID_BYTES, id) && slot[4..24] == a && !IsZero(a)
    ensures KeyOf(SparseTable(c), slot) == SparseKey(id, a) && LiveSlot(SparseTable(c), slot)
  {
  }

  lemma {:induction false} FreshHolderKeyed(slotSize: nat, id: nat, a: Address)
    requires slotSize >= 32
    ensures SparseRecord(slotSize, id, a)[..2] == LE(ID_BYTES, id) && SparseRecord(slotSize, id, a)[4..24] == a
  {
  }

  /** The record a holding write stores is live, under the holder's key, with the balance in it. */
  lemma {:induction false} HoldingSlotReady(c: Config, mem: seq<Byte>, a: Address, id: nat, value: nat, found: bool, rec: Record)
    requires TableOk(mem, SparseTable(c)) && (c.sparseSlotSize == 32 || c.sparseSlotSize == 64) && !IsZero(a)
    requires value < Pow256(c.sparseSlotSize - BalanceAt(c.sparseSlotSize))
    requires found ==> SparseKey(id, a) in Records(mem, SparseTable(c)) && rec == Records(mem, SparseTable(c))[SparseKey(id, a)]
    requires !found ==> rec == SparseRecord(c.sparseSlotSize, id, a)
    ensures |rec| == c.sparseSlotSize
    ensures var full := WithAmount(rec, value);
      BalanceOf(full) == value && LiveSlot(SparseTable(c), full) && KeyOf(SparseTable(c), full) == SparseKey(id, a)
  {
    if found {
      RecordKeyed(mem, SparseTable(c), SparseKey(id, a));
      KeyBytes(c, id, a, rec);
    } else {
      FreshHolderKeyed(c.sparseSlotSize, id, a);
    }
    AmountKeepsKey(c, id, a, rec, value);
  }

  lemma {:induction false} KeyBytes(c: Config, id: nat, a: Address, slot: Record)
    requires |slot| >= 32 && KeyOf(SparseTable(c), slot) == SparseKey(id, a)
    ensures slot[..2] == LE(ID_BYTES, id) && slot[4..24] == a
  {
    var k := SparseKey(id, a);
    assert k[..2] == slot[..2] && k[2..] == slot[4..24];
    assert k[..2] == LE(ID_BYTES, id) && k[2..] == a;
  }

  lemma {:induction false} AmountKeepsKey(c: Config, id: nat, a: Address, rec: Record, value: nat)
    requires (|rec| == 32 || |rec| == 64) && !IsZero(a) && value < Pow256(|rec| - BalanceAt(|rec|))
    requires rec[..2] == LE(ID_BYTES, id) && rec[4..24] == a
    ensures var full := WithAmount(rec, value);
      BalanceOf(full) == value && LiveSlot(SparseTable(c), full) && KeyOf(SparseTable(c), full) == SparseKey(id, a)
  {
    var full := WithAmount(rec, value);
    BalanceWritten(rec, value);
    assert full[..2] == full[..24][..2] && full[4..24] == full[..24][4..24];
    assert rec[..2] == rec[..24][..2] && rec[4..24] == rec[..24][4..24];
    KeyedByHolder(c, id, a, full);
  }

  lemma {:induction false} KeyedByAddress(c: Config, a: Address, slot: Record)
    requires |slot| >= 32 && slot[..20] == a && !IsZero(a)
    ensures KeyOf(AccountsTable(c), slot) == a && LiveSlot(AccountsTable(c), slot)
  {
  }

  /** The slot an account write stores is live, under the account's own key. */
  lemma {:induction false} AccountSlotReady(c: Config, mem: seq<Byte>, v: View, a: Address, nonce: nat, balance: nat)
    requires Shows(c, mem, v) && !IsZero(a) && balance < Pow256(BalanceBytes(c))
    ensures RecordBytes(c) <= c.slotSize
    ensures a in Records(mem, AccountsTable(c)) ==> |Records(mem, AccountsTable(c))[a]| == c.slotSize
    ensures var slot := AccountSlot(c, Records(mem, AccountsTable(c)), a, nonce, balance);
      c.slotSize >= 32 && LiveSlot(AccountsTable(c), slot) && KeyOf(AccountsTable(c), slot) == a
  {
    ReadsAccount(c, mem, v, a);
    var slot := AccountSlot(c, Records(mem, AccountsTable(c)), a, nonce, balance);
    AccountRoundTrip(c, a, nonce, balance, slot[RecordBytes(c)..]);
    assert slot == EncodeAccount(c, a, nonce, balance) + slot[RecordBytes(c)..];
    KeyedByAddress(c, a, slot);
  }

  lemma {:induction false} ColumnSlotReady(c: Config, mem: seq<Byte>, tokens: seq<Token>, a: Address, id: nat, value: nat,
                                           was: Record)
    requires TableOk(mem, AccountsTable(c)) && a in Records(mem, AccountsTable(c)) && !IsZero(a)
    requires was == Records(mem, AccountsTable(c))[a] && ColumnsEnd(tokens) <= c.slotSize && id < |tokens|
    ensures |was| == c.slotSize
    ensures var slot := WithColumn(was, tokens, id, value);
      |slot| >= 32 && LiveSlot(AccountsTable(c), slot) && KeyOf(AccountsTable(c), slot) == a
  {
    RecordKeyed(mem, AccountsTable(c), a);
    var slot := WithColumn(was, tokens, id, value);
    AroundColumns(was, tokens, id, value);
    assert slot[..20] == slot[..64][..20] && was[..20] == was[..64][..20];
    KeyedByAddress(c, a, slot);
  }

  lemma {:induction false} BlankColumnReady(c: Config, mem: seq<Byte>, v: View, a: Address, id: nat, value: nat)
    requires Shows(c, mem, v) && c.profile == WIDE && !IsZero(a) && id < |v.tokens|
    ensures c.slotSize >= ColumnsEnd(v.tokens)
    ensures var slot := WithColumn(BlankSlot(c, a), v.tokens, id, value);
      |slot| == c.slotSize && LiveSlot(AccountsTable(c), slot) && KeyOf(AccountsTable(c), slot) == a
  {
    var slot := WithColumn(BlankSlot(c, a), v.tokens, id, value);
    AroundColumns(BlankSlot(c, a), v.tokens, id, value);
    assert slot[..20] == slot[..64][..20] && BlankSlot(c, a)[..20] == BlankSlot(c, a)[..64][..20] == a;
    KeyedByAddress(c, a, slot);
  }

  /** An account that is not there holds nothing, so writing it a zero changes nothing. */
  lemma {:induction false} NoColumnNoHolding(c: Config, mem: seq<Byte>, v: View, a: Address, id: nat)
    requires Shows(c, mem, v) && c.profile == WIDE && a !in v.accounts && id < |v.tokens|
    ensures DriveSpec.WithBalance(c, v, a, id, 0) == v
  {
    ReadsColumn(c, mem, v, a, id);
    assert HolderKnown(Records(mem, AccountsTable(c)), v.tokens, v.holdings, Holder(id, a));
    ReadsAccount(c, mem, v, a);
    assert Without(v.holdings, Holder(id, a)) == v.holdings;
  }

  ghost predicate ColumnsKnown(tokens: seq<Token>, colOff: seq<nat>) {
    |colOff| == |tokens| && forall i :: 0 <= i < |tokens| ==> colOff[i] == ColumnAt(tokens, i)
  }

  lemma {:induction false} ColumnKnown(tokens: seq<Token>, colOff: seq<nat>, tok: Token)
    requires ColumnsKnown(tokens, colOff)
    ensures ColumnsKnown(tokens + [tok], colOff + [ColumnsEnd(tokens)])
  {
    forall i | 0 <= i <= |tokens|
      ensures ColumnAt(tokens + [tok], i) == if i < |tokens| then ColumnAt(tokens, i) else ColumnsEnd(tokens)
    {
      MoreColumns(tokens, tok, i);
    }
  }

  /** A balance within its token's width fits the balance field of a sparse record. */
  lemma {:induction false} AmountFits(c: Config, tokens: seq<Token>, id: nat, value: nat)
    requires FieldsFit(c) && TokensFit(c, tokens)
    requires id < |tokens| && value < Pow256(tokens[id].width)
    ensures c.profile == SPARSE ==> value < Pow256(c.sparseSlotSize - BalanceAt(c.sparseSlotSize))
  {
    if c.profile == SPARSE { PowMonotone(tokens[id].width, c.sparseSlotSize - BalanceAt(c.sparseSlotSize)); }
  }

  lemma {:induction false} IdsFit(c: Config, n: nat)
    requires FieldsFit(c) && c.registryOffset != 0 && n < c.registryCapacity
    ensures n < Pow256(ID_BYTES)
  {
    assert Pow256(2) == 65536;
  }

  class Drive {
    const store: Store
    const cfg: Config
    /** The registry as last read from the image, and where each token's column begins. */
    var tokens: seq<Token>
    var colOff: seq<nat>
    ghost var view: View

    ghost predicate Cached()
      reads this
    {
      tokens == view.tokens && ColumnsKnown(tokens, colOff)
    }

    ghost predicate Valid()
      reads this, store.data
    {
      Shows(cfg, store.Bytes(), view) && Fits(cfg, view) && Cached()
    }

    /** A drive over a store, before its registry is read. */
    constructor (store: Store, cfg: Config)
      ensures this.store == store && this.cfg == cfg && tokens == [] && colOff == [] && view == EMPTY
    {
      this.store, this.cfg := store, cfg;
      tokens, colOff, view := [], [], EMPTY;
    }

    /** Takes note of what the image has come to stand for. */
    ghost method Become(w: View)
      requires Shows(cfg, store.Bytes(), w) && Fits(cfg, w) && Cached() && w.tokens == view.tokens
      modifies this`view
      ensures Valid() && view == w
    {
      view := w;
    }

    // ------------------------------------------------------------------ accounts

    method GetAccount(a: Address) returns (r: Result<Option<Account>>)
      requires Valid()
      ensures r == DriveSpec.GetAccount(view, a)
    {
      if IsZero(a) {
        return Refused(ZeroAddress);
      }
      var found, i, slot := FindAccount(a, view);
      if !found {
        return Ok(None);
      }
      ReadsAccount(cfg, store.Bytes(), view, a);
      return Ok(Some(DecodeAccount(cfg, slot)));
    }

    /** The record bytes, or the refusal of a value too wide for its field. */
    method Encode(a: Address, nonce: nat, balance: int) returns (r: Option<Record>)
      ensures r.None? <==> (Compact(cfg) && nonce >= Pow256(NonceBytes(cfg))) || !(0 <= balance < Pow256(BalanceBytes(cfg)))
      ensures r.Some? ==> r.value == EncodeAccount(cfg, a, nonce, balance)
    {
      if Compact(cfg) && nonce >= Pow256(NonceBytes(cfg)) {
        return None;
      }
      var b := PutBE(BalanceBytes(cfg), balance);
      if b.None? {
        return None;
      }
      var pad := if Compact(cfg) then [] else Zeros(4);
      assert a + [] + LE(NonceBytes(cfg), nonce) == a + LE(NonceBytes(cfg), nonce);
      return Some(a + pad + LE(NonceBytes(cfg), nonce) + b.value);
    }

    method FindAccount(a: Address, ghost v: View) returns (found: bool, i: nat, slot: Record)
      requires Shows(cfg, store.Bytes(), v)
      ensures found <==> a in v.accounts
      ensures FoundAt(store.Bytes(), AccountsTable(cfg), a, found, i, slot)
    {
      found, i, slot := store.Lookup(AccountsTable(cfg), a);
      ReadsAccount(cfg, store.Bytes(), v, a);
    }

    method AccountsFull(ghost v: View) returns (full: bool)
      requires Shows(cfg, store.Bytes(), v)
      ensures full <==> |v.accounts| >= cfg.loadLimit
      ensures full <==> |Records(store.Bytes(), AccountsTable(cfg))| >= cfg.loadLimit
    {
      CountsAccounts(cfg, store.Bytes(), v);
      AccountsHeld(cfg, store.Bytes());
      var n := store.CounterAt(AccountsTable(cfg).countOff);
      full := n >= cfg.loadLimit;
    }

    /** Writes a record over an account's slot, or into a new one. */
    method WriteAccount(a: Address, nonce: nat, balance: nat, rec: Record, found: bool, i: nat, slot: Record, ghost v: View)
      requires Shows(cfg, store.Bytes(), v) && !IsZero(a) && balance < Pow256(BalanceBytes(cfg))
      requires rec == EncodeAccount(cfg, a, nonce, balance)
      requires FoundAt(store.Bytes(), AccountsTable(cfg), a, found, i, slot)
      requires found || |Records(store.Bytes(), AccountsTable(cfg))| < cfg.loadLimit
      modifies store.data, store.journal
      ensures Shows(cfg, store.Bytes(), WithAccount(cfg, v, a, nonce, balance))
      ensures Logged(old(store.Bytes()), old(store.Log()), store.Bytes(), store.Log())
    {
      var t := AccountsTable(cfg);
      AccountSlotReady(cfg, store.Bytes(), v, a, nonce, balance);
      var full := rec + if found then slot[|rec|..] else Zeros(t.slotSize - |rec|);
      store.Save(t, a, full, found, i, slot);
      AccountSet(cfg, old(store.Bytes()), store.Bytes(), v, a, nonce, balance);
    }

    /** Stores an encoded account, unless it would be a new record in a full table. */
    method StoreAccount(a: Address, nonce: nat, balance: nat, rec: Record, ghost v: View) returns (full: bool)
      requires Shows(cfg, store.Bytes(), v) && !IsZero(a) && balance < Pow256(BalanceBytes(cfg))
      requires rec == EncodeAccount(cfg, a, nonce, balance)
      modifies store.data, store.journal
      ensures full <==> a !in v.accounts && |v.accounts| >= cfg.loadLimit
      ensures
        if full then store.Bytes() == old(store.Bytes())
        else Shows(cfg, store.Bytes(), WithAccount(cfg, v, a, nonce, balance))
      ensures Logged(old(store.Bytes()), old(store.Log()), store.Bytes(), store.Log())
    {
      var found, i, slot := FindAccount(a, v);
      full := false;
      if !found {
        full := AccountsFull(v);
        if full {
          LoggedNothing(store.Bytes(), store.Log());
          return;
        }
      }
      WriteAccount(a, nonce, balance, rec, found, i, slot, v);
    }

    /** The write or its refusal, over an image that stands for v. */
    method TrySetAccount(a: Address, nonce: nat, balance: int, ghost v: View) returns (refused: Option<Refusal>)
      requires Shows(cfg, store.Bytes(), v)
      modifies store.data, store.journal
      ensures refused == AccountRefusal(cfg, v, a, nonce, balance)
      ensures Shows(cfg, store.Bytes(), DriveSpec.SetAccount(cfg, v, a, nonce, balance))
      ensures refused.Some? ==> store.Bytes() == old(store.Bytes())
      ensures Logged(old(store.Bytes()), old(store.Log()), store.Bytes(), store.Log())
    {
      LoggedNothing(store.Bytes(), store.Log());
      if IsZero(a) {
        return Some(ZeroAddress);
      }
      var rec := Encode(a, nonce, balance);
      if rec.None? {
        return Some(Overflow);
      }
      var full := StoreAccount(a, nonce, balance, rec.value, v);
      return if full then Some(TableFull) else None;
    }

    method SetAccount(a: Address, nonce: nat, balance: int) returns (refused: Option<Refusal>)
      requires Valid()
      modifies this`view, store.data, store.journal
      ensures Valid() && view == DriveSpec.SetAccount(cfg, old(view), a, nonce, balance)
      ensures refused == AccountRefusal(cfg, old(view), a, nonce, balance)
      ensures refused.Some? ==> store.Bytes() == old(store.Bytes())
      ensures Logged(old(store.Bytes()), old(store.Log()), store.Bytes(), store.Log())
    {
      refused := TrySetAccount(a, nonce, balance, view);
      SetAccountFits(cfg, view, a, nonce, balance);
      Become(DriveSpec.SetAccount(cfg, view, a, nonce, balance));
    }

    method TryDeleteAccount(a: Address, force: bool, ghost v: View) returns (refused: Option<Refusal>, removed: bool)
      requires Shows(cfg, store.Bytes(), v)
      modifies store.data, store.journal
      ensures refused == DeleteRefusal(v, a, force) && (removed <==> refused.None? && a in v.accounts)
      ensures Shows(cfg, store.Bytes(), DriveSpec.DeleteAccount(cfg, v, a, force))
      ensures !removed ==> store.Bytes() == old(store.Bytes())
      ensures Logged(old(store.Bytes()), old(store.Log()), store.Bytes(), store.Log())
    {
      LoggedNothing(store.Bytes(), store.Log());
      if IsZero(a) {
        return Some(ZeroAddress), false;
      }
      var found, i, slot := FindAccount(a, v);
      if !found {
        return None, false;
      }
      ReadsAccount(cfg, store.Bytes(), v, a);
      if !force && DecodeAccount(cfg, slot).nonce != 0 {
        return Some(NonceProtected), false;
      }
      store.Remove(AccountsTable(cfg), i);
      AccountDeleted(cfg, old(store.Bytes()), store.Bytes(), v, a);
      return None, true;
    }

    method DeleteAccount(a: Address, force: bool) returns (refused: Option<Refusal>, removed: bool)
      requires Valid()
      modifies this`view, store.data, store.journal
      ensures Valid() && view == DriveSpec.DeleteAccount(cfg, old(view), a, force)
      ensures refused == DeleteRefusal(old(view), a, force) && (removed <==> refused.None? && a in old(view).accounts)
      ensures !removed ==> store.Bytes() == old(store.Bytes())
      ensures Logged(old(store.Bytes()), old(store.Log()), store.Bytes(), store.Log())
    {
      refused, removed := TryDeleteAccount(a, force, view);
      DeleteAccountFits(cfg, view, a, force);
      Become(DriveSpec.DeleteAccount(cfg, view, a, force));
    }

    // ------------------------------------------------------------------ registry

    method TokenByAddress(a: Address) returns (r: Option<nat>)
      ensures r == TokenIndex(tokens, a)
    {
      for i := 0 to |tokens|
        invariant forall k :: 0 <= k < i ==> tokens[k].address != a
      {
        if tokens[i].address == a {
          return Some(i);
        }
      }
      return None;
    }

    method ColumnsNeeded() returns (sum: nat)
      ensures sum == ColumnsEnd(tokens)
    {
      sum := 64;
      for i := 0 to |tokens|
        invariant sum == ColumnsEnd(tokens[..i])
      {
        assert tokens[..i + 1][..i] == tokens[..i];
        sum := sum + tokens[i].width;
      }
      assert tokens[..|tokens|] == tokens;
    }

    /** Why a registration is refused, if it is, from the cached registry. */
    method CheckRegistration(a: Address, width: nat, ghost v: View) returns (refused: Option<Refusal>)
      requires tokens == v.tokens
      ensures refused == RegisterRefusal(cfg, v, a, width)
    {
      if cfg.registryOffset == 0 {
        return Some(NoSuchProfile);
      }
      if !ValidWidth(width) {
        return Some(BadWidth);
      }
      var known := TokenByAddress(a);
      if known.Some? {
        return Some(DuplicateToken);
      }
      if |tokens| >= cfg.registryCapacity {
        return Some(RegistryFull);
      }
      if cfg.profile == WIDE {
        var sum := ColumnsNeeded();
        if sum + width > cfg.slotSize {
          return Some(TableFull);
        }
      }
      if cfg.profile == SPARSE && cfg.sparseSlotSize == 32 && width != 8 {
        return Some(BadWidth);
      }
      if Compact(cfg) && width != 8 {
        return Some(BadWidth);
      }
      return None;
    }

    /** Appends a registry entry and counts it. */
    method AppendEntry(tok: Token, n: nat, ghost v: View)
      requires Shows(cfg, store.Bytes(), v) && n == |v.tokens|
      requires cfg.registryOffset != 0 && n < cfg.registryCapacity && ValidWidth(tok.width)
      requires cfg.profile == WIDE ==> ColumnsEnd(v.tokens) + tok.width <= cfg.slotSize
      modifies store.data, store.journal
      ensures Shows(cfg, store.Bytes(), v.(tokens := v.tokens + [tok]))
      ensures Logged(old(store.Bytes()), old(store.Log()), store.Bytes(), store.Log())
    {
      EntryAdded(cfg, store.Bytes(), v.tokens, tok);
      var at, more := cfg.registryOffset + 32 * n, n + 1;
      store.WriteAt(at, EntryOf(tok));
      ghost var mid, log := store.Bytes(), store.Log();
      store.SetCounter(OFF_TOKEN_COUNT, more);
      LoggedTrans(old(store.Bytes()), old(store.Log()), mid, log, store.Bytes(), store.Log());
      IdsFit(cfg, n);
      TokenRegistered(cfg, old(store.Bytes()), store.Bytes(), v, tok);
    }

    method NextColumn() returns (col: nat)
      requires ColumnsKnown(tokens, colOff)
      ensures col == ColumnsEnd(tokens)
    {
      if |tokens| == 0 {
        return 64;
      }
      return colOff[|tokens| - 1] + tokens[|tokens| - 1].width;
    }

    /** The cached registry and column offsets follow the appended entry. */
    method ExtendCache(a: Address, width: nat)
      requires Cached() && Shows(cfg, store.Bytes(), WithToken(view, a, width)) && Fits(cfg, WithToken(view, a, width))
      modifies this`tokens, this`colOff, this`view
      ensures Valid() && view == WithToken(old(view), a, width)
    {
      var col := NextColumn();
      ColumnKnown(tokens, colOff, Token(a, width));
      tokens := tokens + [Token(a, width)];
      colOff := colOff + [col];
      view := WithToken(view, a, width);
    }

    method TryRegisterToken(a: Address, width: nat, ghost v: View) returns (refused: Option<Refusal>)
      requires Shows(cfg, store.Bytes(), v) && tokens == v.tokens
      modifies store.data, store.journal
      ensures refused == RegisterRefusal(cfg, v, a, width)
      ensures Shows(cfg, store.Bytes(), DriveSpec.RegisterToken(cfg, v, a, width))
      ensures refused.Some? ==> store.Bytes() == old(store.Bytes())
      ensures Logged(old(store.Bytes()), old(store.Log()), store.Bytes(), store.Log())
    {
      refused := CheckRegistration(a, width, v);
      if refused.Some? {
        LoggedNothing(store.Bytes(), store.Log());
        return;
      }
      AppendEntry(Token(a, width), |tokens|, v);
    }

    method RegisterToken(a: Address, width: nat) returns (refused: Option<Refusal>, id: nat)
      requires Valid()
      modifies this`view, this`tokens, this`colOff, store.data, store.journal
      ensures Valid() && view == DriveSpec.RegisterToken(cfg, old(view), a, width)
      ensures refused == RegisterRefusal(cfg, old(view), a, width)
      ensures refused.None? ==> id == |old(view).tokens|
      ensures refused.Some? ==> store.Bytes() == old(store.Bytes())
      ensures Logged(old(store.Bytes()), old(store.Log()), store.Bytes(), store.Log())
    {
      id := |tokens|;
      refused := TryRegisterToken(a, width, view);
      if refused.None? {
        RegisterFits(cfg, view, a, width);
        ExtendCache(a, width);
      }
    }

    /** Reads registry entry i, unless it lies outside the image or names an unknown width. */
    method ReadEntry(i: nat) returns (r: Option<Token>)
      ensures r.Some? <==> ReadableAt(cfg, store.Bytes(), i)
      ensures r.Some? ==> ValidWidth(r.value.width) && EntryShown(cfg, store.Bytes(), seq(i + 1, _ => r.value), i)
    {
      if EntryAt(cfg, i) + 32 > store.data.Length {
        return None;
      }
      var e := store.ReadAt(cfg.registryOffset + 32 * i, 32);
      assert e[..20] == store.Bytes()[EntryAt(cfg, i)..EntryAt(cfg, i) + 20];
      if !ValidWidth(e[20]) {
        return None;
      }
      return Some(Token(e[..20], e[20]));
    }

    /** Reads the registry from the image. */
    method ReadRegistry() returns (ok: bool, read: seq<Token>, cols: seq<nat>)
      requires HEADER_SIZE <= store.data.Length
      ensures ok <==> Readable(cfg, store.Bytes())
      ensures ok ==> RegistryShown(cfg, store.Bytes(), read) && ColumnsKnown(read, cols)
    {
      read, cols := [], [];
      if cfg.registryOffset == 0 {
        return true, read, cols;
      }
      var n := store.CounterAt(OFF_TOKEN_COUNT);
      if n > cfg.registryCapacity {
        return false, read, cols;
      }
      var col := 64;
      for i := 0 to n
        invariant |read| == i && col == ColumnsEnd(read) && ColumnsKnown(read, cols)
        invariant forall k :: 0 <= k < i ==> EntryShown(cfg, store.Bytes(), read, k) && ReadableAt(cfg, store.Bytes(), k)
      {
        var tok := ReadEntry(i);
        if tok.None? {
          return false, read, cols;
        }
        ColumnKnown(read, cols, tok.value);
        MoreColumns(read, tok.value, |read|);
        ghost var before := read;
        read, cols, col := read + [tok.value], cols + [col], col + tok.value.width;
        forall k | 0 <= k < i ensures EntryShown(cfg, store.Bytes(), read, k) {
          assert EntryShown(cfg, store.Bytes(), before, k);
        }
      }
      return true, read, cols;
    }

    /** Re-reads the registry; the image may have been rolled back under the cache. */
    method ReloadRegistry(ghost v: View) returns (ok: bool)
      requires Shows(cfg, store.Bytes(), v) && Fits(cfg, v)
      modifies this`tokens, this`colOff, this`view
      ensures ok && Valid() && view == v
    {
      var read, cols;
      ok, read, cols := ReadRegistry();
      ShownIsReadable(cfg, store.Bytes(), v.tokens);
      RegistryUnique(cfg, store.Bytes(), read, v.tokens);
      tokens, colOff, view := read, cols, v;
    }

    // ------------------------------------------------------------ token balances

    method FindHolding(a: Address, id: nat, ghost v: View) returns (found: bool, i: nat, slot: Record)
      requires Shows(cfg, store.Bytes(), v) && cfg.profile == SPARSE && id < |v.tokens|
      ensures found <==> Holder(id, a) in v.holdings
      ensures FoundAt(store.Bytes(), SparseTable(cfg), SparseKey(id, a), found, i, slot)
      ensures found ==> |slot| == cfg.sparseSlotSize && v.holdings[Holder(id, a)] == BalanceOf(slot)
    {
      found, i, slot := store.Lookup(SparseTable(cfg), SparseKey(id, a));
      ReadsHolding(cfg, store.Bytes(), v, a, id);
    }

    method GetColumn(slot: Record, id: nat) returns (b: nat)
      requires ColumnsKnown(tokens, colOff) && id < |tokens| && ColumnsEnd(tokens) <= |slot|
      ensures b == Column(slot, tokens, id)
    {
      ColumnInside(tokens, id);
      b := ReadBE(slot[colOff[id]..colOff[id] + tokens[id].width]);
    }

    method PutColumn(slot: Record, id: nat, value: nat) returns (r: Record)
      requires ColumnsKnown(tokens, colOff) && id < |tokens| && ColumnsEnd(tokens) <= |slot|
      requires value < Pow256(tokens[id].width)
      ensures r == WithColumn(slot, tokens, id, value)
    {
      ColumnInside(tokens, id);
      var b := PutBE(tokens[id].width, value);
      r := slot[..colOff[id]] + b.value + slot[colOff[id] + tokens[id].width..];
    }

    /** A token's column of an account's slot, zero for an account that has none. */
    method ReadColumn(a: Address, id: nat, ghost v: View) returns (b: nat)
      requires Shows(cfg, store.Bytes(), v) && cfg.profile == WIDE && id < |v.tokens|
      requires tokens == v.tokens && ColumnsKnown(tokens, colOff)
      ensures b == HoldingOf(v, id, a)
    {
      var found, i, slot := FindAccount(a, v);
      ReadsColumn(cfg, store.Bytes(), v, a, id);
      if !found {
        return 0;
      }
      b := GetColumn(slot, id);
    }

    method ReadHolding(a: Address, id: nat, ghost v: View) returns (b: nat)
      requires Shows(cfg, store.Bytes(), v) && cfg.profile == SPARSE && id < |v.tokens|
      ensures b == HoldingOf(v, id, a)
    {
      var found, i, slot := FindHolding(a, id, v);
      if !found {
        return 0;
      }
      b := ReadBE(slot[BalanceAt(|slot|)..]);
    }

    method GetTokenBalance(a: Address, id: nat) returns (r: Result<nat>)
      requires Valid()
      ensures r == DriveSpec.GetTokenBalance(cfg, view, a, id)
    {
      if IsZero(a) {
        return Refused(ZeroAddress);
      }
      if id >= |tokens| {
        return Refused(UnknownToken);
      }
      if cfg.profile == WIDE {
        var b := ReadColumn(a, id, view);
        return Ok(b);
      }
      if cfg.profile == SPARSE {
        var b := ReadHolding(a, id, view);
        return Ok(b);
      }
      return Refused(NoSuchProfile);
    }

    /** Writes a token's column of an account's slot. */
    method WriteColumn(a: Address, id: nat, value: nat, i: nat, slot: Record, ghost v: View)
      requires Shows(cfg, store.Bytes(), v) && cfg.profile == WIDE && a in v.accounts && !IsZero(a)
      requires tokens == v.tokens && ColumnsKnown(tokens, colOff) && id < |tokens| && value < Pow256(tokens[id].width)
      requires FoundAt(store.Bytes(), AccountsTable(cfg), a, true, i, slot)
      modifies store.data, store.journal
      ensures Shows(cfg, store.Bytes(), v.(holdings := WithHolding(v.holdings, Holder(id, a), value)))
      ensures Logged(old(store.Bytes()), old(store.Log()), store.Bytes(), store.Log())
    {
      ColumnSlotReady(cfg, store.Bytes(), v.tokens, a, id, value, slot);
      var full := PutColumn(slot, id, value);
      store.Save(AccountsTable(cfg), a, full, true, i, slot);
      ColumnStored(cfg, old(store.Bytes()), store.Bytes(), v, a, id, value);
    }

    /** Creates the account record a first token balance needs. */
    method CreateColumn(a: Address, id: nat, value: nat, i: nat, slot: Record, ghost v: View)
      requires Shows(cfg, store.Bytes(), v) && cfg.profile == WIDE && a !in v.accounts && !IsZero(a)
      requires tokens == v.tokens && ColumnsKnown(tokens, colOff) && id < |tokens| && value < Pow256(tokens[id].width)
      requires FoundAt(store.Bytes(), AccountsTable(cfg), a, false, i, slot)
      requires |Records(store.Bytes(), AccountsTable(cfg))| < cfg.loadLimit
      modifies store.data, store.journal
      ensures Shows(cfg, store.Bytes(),
        View(v.accounts[a := Account(0, 0)], WithHolding(v.holdings, Holder(id, a), value), v.tokens))
      ensures Logged(old(store.Bytes()), old(store.Log()), store.Bytes(), store.Log())
    {
      BlankColumnReady(cfg, store.Bytes(), v, a, id, value);
      var full := PutColumn(BlankSlot(cfg, a), id, value);
      store.Save(AccountsTable(cfg), a, full, false, i, slot);
      ColumnCreated(cfg, old(store.Bytes()), store.Bytes(), v, a, id, value);
    }

    method StoreColumn(a: Address, id: nat, value: nat, ghost v: View) returns (refused: Option<Refusal>)
      requires Shows(cfg, store.Bytes(), v) && cfg.profile == WIDE && !IsZero(a)
      requires tokens == v.tokens && ColumnsKnown(tokens, colOff) && id < |tokens| && value < Pow256(tokens[id].width)
      modifies store.data, store.journal
      ensures refused == TableRefusal(cfg, v, a, id, value)
      ensures refused.None? ==> Shows(cfg, store.Bytes(), DriveSpec.WithBalance(cfg, v, a, id, value))
      ensures refused.Some? ==> store.Bytes() == old(store.Bytes())
      ensures Logged(old(store.Bytes()), old(store.Log()), store.Bytes(), store.Log())
    {
      LoggedNothing(store.Bytes(), store.Log());
      var found, i, slot := FindAccount(a, v);
      if found {
        WriteColumn(a, id, value, i, slot, v);
        return None;
      }
      if value == 0 {
        NoColumnNoHolding(cfg, store.Bytes(), v, a, id);
        return None;
      }
      var full := AccountsFull(v);
      if full {
        return Some(TableFull);
      }
      CreateColumn(a, id, value, i, slot, v);
      return None;
    }

    method HoldingsFull(ghost v: View) returns (full: bool)
      requires Shows(cfg, store.Bytes(), v) && cfg.profile == SPARSE
      ensures full <==> |v.holdings| >= cfg.sparseLoadLimit
      ensures full <==> |Records(store.Bytes(), SparseTable(cfg))| >= cfg.sparseLoadLimit
    {
      CountsHoldings(cfg, store.Bytes(), v);
      SparseHeld(cfg, store.Bytes());
      var n := store.CounterAt(SparseTable(cfg).countOff);
      full := n >= cfg.sparseLoadLimit;
    }

    /** The balance field rewritten in a sparse record. */
    method PutAmount(slot: Record, value: nat) returns (r: Record)
      requires (|slot| == 32 || |slot| == 64) && value < Pow256(|slot| - BalanceAt(|slot|))
      ensures r == WithAmount(slot, value)
    {
      var b := PutBE(|slot| - BalanceAt(|slot|), value);
      r := slot[..BalanceAt(|slot|)] + b.value;
    }

    method WriteHolding(a: Address, id: nat, value: nat, found: bool, i: nat, slot: Record, ghost v: View)
      requires Shows(cfg, store.Bytes(), v) && cfg.profile == SPARSE && !IsZero(a) && id < |v.tokens|
      requires value < Pow256(cfg.sparseSlotSize - BalanceAt(cfg.sparseSlotSize))
      requires FoundAt(store.Bytes(), SparseTable(cfg), SparseKey(id, a), found, i, slot)
      requires found || |Records(store.Bytes(), SparseTable(cfg))| < cfg.sparseLoadLimit
      modifies store.data, store.journal
      ensures Shows(cfg, store.Bytes(), v.(holdings := v.holdings[Holder(id, a) := value]))
      ensures Logged(old(store.Bytes()), old(store.Log()), store.Bytes(), store.Log())
    {
      var rec := if found then slot else SparseRecord(cfg.sparseSlotSize, id, a);
      HoldingSlotReady(cfg, store.Bytes(), a, id, value, found, rec);
      var full := PutAmount(rec, value);
      store.Save(SparseTable(cfg), SparseKey(id, a), full, found, i, slot);
      BalanceStored(cfg, old(store.Bytes()), store.Bytes(), v, a, id, full);
    }

    method StoreHolding(a: Address, id: nat, value: nat, ghost v: View) returns (refused: Option<Refusal>)
      requires Shows(cfg, store.Bytes(), v) && cfg.profile == SPARSE && !IsZero(a) && id < |v.tokens|
      requires value < Pow256(cfg.sparseSlotSize - BalanceAt(cfg.sparseSlotSize))
      modifies store.data, store.journal
      ensures refused == TableRefusal(cfg, v, a, id, value)
      ensures refused.None? ==> Shows(cfg, store.Bytes(), DriveSpec.WithBalance(cfg, v, a, id, value))
      ensures refused.Some? ==> store.Bytes() == old(store.Bytes())
      ensures Logged(old(store.Bytes()), old(store.Log()), store.Bytes(), store.Log())
    {
      LoggedNothing(store.Bytes(), store.Log());
      var found, i, slot := FindHolding(a, id, v);
      if value == 0 {
        assert !found ==> Without(v.holdings, Holder(id, a)) == v.holdings;
        if found {
          store.Remove(SparseTable(cfg), i);
          BalanceErased(cfg, old(store.Bytes()), store.Bytes(), v, a, id);
        }
        return None;
      }
      if !found {
        var full := HoldingsFull(v);
        if full {
          return Some(TableFull);
        }
      }
      WriteHolding(a, id, value, found, i, slot, v);
      return None;
    }

    /** The write or its refusal by the profile's table. */
    method StoreBalance(a: Address, id: nat, value: nat, ghost v: View) returns (refused: Option<Refusal>)
      requires Shows(cfg, store.Bytes(), v) && !IsZero(a)
      requires tokens == v.tokens && ColumnsKnown(tokens, colOff) && id < |tokens| && value < Pow256(tokens[id].width)
      requires cfg.profile == SPARSE ==> value < Pow256(cfg.sparseSlotSize - BalanceAt(cfg.sparseSlotSize))
      modifies store.data, store.journal
      ensures refused == TableRefusal(cfg, v, a, id, value)
      ensures refused.None? ==> Shows(cfg, store.Bytes(), DriveSpec.WithBalance(cfg, v, a, id, value))
      ensures refused.Some? ==> store.Bytes() == old(store.Bytes())
      ensures Logged(old(store.Bytes()), old(store.Log()), store.Bytes(), store.Log())
    {
      if cfg.profile == WIDE {
        refused := StoreColumn(a, id, value, v);
      } else if cfg.profile == SPARSE {
        refused := StoreHolding(a, id, value, v);
      } else {
        LoggedNothing(store.Bytes(), store.Log());
        refused := Some(NoSuchProfile);
      }
    }

    method TrySetTokenBalance(a: Address, id: nat, value: int, ghost v: View) returns (refused: Option<Refusal>)
      requires Shows(cfg, store.Bytes(), v) && TokensFit(cfg, v.tokens)
      requires tokens == v.tokens && ColumnsKnown(tokens, colOff)
      modifies store.data, store.journal
      ensures refused == BalanceRefusal(cfg, v, a, id, value)
      ensures Shows(cfg, store.Bytes(), DriveSpec.SetTokenBalance(cfg, v, a, id, value))
      ensures refused.Some? ==> store.Bytes() == old(store.Bytes())
      ensures Logged(old(store.Bytes()), old(store.Log()), store.Bytes(), store.Log())
    {
      LoggedNothing(store.Bytes(), store.Log());
      if IsZero(a) {
        return Some(ZeroAddress);
      }
      if id >= |tokens| {
        return Some(UnknownToken);
      }
      if value < 0 || value >= Pow256(tokens[id].width) {
        return Some(Overflow);
      }
      AmountFits(cfg, tokens, id, value);
      refused := StoreBalance(a, id, value, v);
    }

    method SetTokenBalance(a: Address, id: nat, value: int) returns (refused: Option<Refusal>)
      requires Valid()
      modifies this`view, store.data, store.journal
      ensures Valid() && view == DriveSpec.SetTokenBalance(cfg, old(view), a, id, value)
      ensures refused == BalanceRefusal(cfg, old(view), a, id, value)
      ensures refused.Some? ==> store.Bytes() == old(store.Bytes())
      ensures Logged(old(store.Bytes()), old(store.Log()), store.Bytes(), store.Log())
    {
      refused := TrySetTokenBalance(a, id, value, view);
      SetTokenBalanceFits(cfg, view, a, id, value);
      Become(DriveSpec.SetTokenBalance(cfg, view, a, id, value));
    }
  }
}
