/**
  What each drive operation does to the map of records, read back as accounts, holdings
  and tokens: exactly one entry of what the records stand for changes.
 */
module DriveUpdates {
  import opened Options
  import opened ByteCodec
  import opened Geometry
  import opened DriveSpec
  import opened DriveTable
  import opened DriveRecords

  // -------------------------------------------------------------------- accounts

  lemma {:induction false} AccountWritten(c: Config, recs: RecordMap, accounts: map<Address, Account>, a: Address,
                                          nonce: nat, balance: nat, rest: seq<Byte>)
    requires AccountsShown(c, recs, accounts) && balance < Pow256(BalanceBytes(c))
    requires RecordBytes(c) + |rest| == c.slotSize
    ensures AccountsShown(c, recs[a := EncodeAccount(c, a, nonce, balance) + rest],
                          accounts[a := Account(Wrap(nonce, Pow256(NonceBytes(c))), balance)])
  {
    AccountRoundTrip(c, a, nonce, balance, rest);
    AccountReplaced(c, recs, accounts, a, EncodeAccount(c, a, nonce, balance) + rest);
  }

  /** Replacing one record replaces one account, by what the record decodes to. */
  lemma {:induction false} AccountReplaced(c: Config, recs: RecordMap, accounts: map<Address, Account>, a: Address, slot: Record)
    requires AccountsShown(c, recs, accounts) && |slot| == c.slotSize >= RecordBytes(c)
    ensures AccountsShown(c, recs[a := slot], accounts[a := DecodeAccount(c, slot)])
  {
    var out, now := recs[a := slot], accounts[a := DecodeAccount(c, slot)];
    forall b: Key ensures AccountAt(c, out, now, b) {
      assert AccountAt(c, recs, accounts, b);
    }
  }

  lemma {:induction false} AccountErased(c: Config, recs: RecordMap, accounts: map<Address, Account>, a: Address)
    requires AccountsShown(c, recs, accounts)
    ensures AccountsShown(c, Without(recs, a), Without(accounts, a))
  {
    forall b: Key ensures AccountAt(c, Without(recs, a), Without(accounts, a), b) {
      assert AccountAt(c, recs, accounts, b);
    }
  }

  /** Bytes past the account fields decide the columns. */
  lemma {:induction false} SameTailSameColumn(s: Record, t: Record, tokens: seq<Token>, id: nat)
    requires id < |tokens| && ColumnsEnd(tokens) <= |s| == |t| && s[64..] == t[64..]
    ensures Column(s, tokens, id) == Column(t, tokens, id)
  {
    ColumnInside(tokens, id);
    var lo, hi := ColumnAt(tokens, id), ColumnAt(tokens, id) + tokens[id].width;
    assert s[lo..hi] == s[64..][lo - 64..hi - 64];
    assert t[lo..hi] == t[64..][lo - 64..hi - 64];
  }

  lemma {:induction false} ZeroColumn(slot: Record, tokens: seq<Token>, id: nat)
    requires id < |tokens| && ColumnsEnd(tokens) <= |slot| && IsZero(slot[64..])
    ensures Column(slot, tokens, id) == 0
  {
    ColumnInside(tokens, id);
    var lo, hi := ColumnAt(tokens, id), ColumnAt(tokens, id) + tokens[id].width;
    assert slot[lo..hi] == slot[64..][lo - 64..hi - 64];
    ZeroIsZeros(slot[lo..hi]);
  }

  /** Bytes that agree past the account fields are zero past the columns together. */
  lemma {:induction false} FieldsKeepTail(was: Record, slot: Record, end: nat)
    requires 64 <= end <= |was| == |slot| && IsZero(was[end..])
    requires forall i :: 64 <= i < |slot| ==> slot[i] == was[i]
    ensures IsZero(slot[end..])
  {
    forall i | end <= i < |slot| ensures slot[i] == 0 {
      assert was[end..][i - end] == 0;
    }
  }

  lemma {:induction false} SamePast(was: Record, slot: Record)
    requires 64 <= |was| == |slot| && slot[64..] == was[64..]
    ensures forall i :: 64 <= i < |slot| ==> slot[i] == was[i]
  {
    forall i | 64 <= i < |slot| ensures slot[i] == was[i] {
      assert slot[64..][i - 64] == was[64..][i - 64];
    }
  }

  /** The one record rewritten: its slot stays well formed and its columns say what they said. */
  lemma {:induction false} FieldsKeepAt(recs: RecordMap, tokens: seq<Token>, holdings: map<Holder, nat>, slotSize: nat,
                                        a: Address, slot: Record, id: nat)
    requires WideShown(recs, tokens, holdings, slotSize) && |slot| == slotSize
    requires a in recs && |recs[a]| == slotSize && slot[64..] == recs[a][64..]
    ensures WideSlot(recs[a := slot], tokens, slotSize, a) && WideAt(recs[a := slot], tokens, holdings, id, a)
  {
    assert WideSlot(recs, tokens, slotSize, a) && WideAt(recs, tokens, holdings, id, a);
    SamePast(recs[a], slot);
    FieldsKeepTail(recs[a], slot, ColumnsEnd(tokens));
    if id < |tokens| { SameTailSameColumn(recs[a], slot, tokens, id); }
  }

  /** A new record with zeros past the account fields has no holdings. */
  lemma {:induction false} NewFieldsAt(recs: RecordMap, tokens: seq<Token>, holdings: map<Holder, nat>, slotSize: nat,
                                       a: Address, slot: Record, id: nat)
    requires WideShown(recs, tokens, holdings, slotSize) && |slot| == slotSize && a !in recs
    requires slot[64..] == Zeros(slotSize - 64)
    ensures WideSlot(recs[a := slot], tokens, slotSize, a) && WideAt(recs[a := slot], tokens, holdings, id, a)
  {
    assert HolderKnown(recs, tokens, holdings, Holder(id, a));
    var blank := Zeros(slotSize);
    SamePast(blank, slot);
    FieldsKeepTail(blank, slot, ColumnsEnd(tokens));
    if id < |tokens| { ZeroColumn(slot, tokens, id); }
  }

  /** Rewriting the account fields of a wide slot leaves every holding as it was. */
  lemma {:induction false} FieldsKeepColumns(recs: RecordMap, tokens: seq<Token>, holdings: map<Holder, nat>, slotSize: nat,
                                             a: Address, slot: Record)
    requires WideShown(recs, tokens, holdings, slotSize) && |slot| == slotSize
    requires a in recs ==> |recs[a]| == slotSize
    requires slot[64..] == if a in recs then recs[a][64..] else Zeros(slotSize - 64)
    ensures WideShown(recs[a := slot], tokens, holdings, slotSize)
  {
    var out := recs[a := slot];
    forall b: Address, id: nat ensures WideSlot(out, tokens, slotSize, a) && WideAt(out, tokens, holdings, id, b) {
      assert WideAt(recs, tokens, holdings, id, b);
      if a in recs {
        FieldsKeepAt(recs, tokens, holdings, slotSize, a, slot, id);
      } else {
        NewFieldsAt(recs, tokens, holdings, slotSize, a, slot, id);
      }
    }
    forall b: Key ensures WideSlot(out, tokens, slotSize, b) {
      assert WideSlot(recs, tokens, slotSize, b);
      assert b == a ==> WideAt(out, tokens, holdings, 0, a);
    }
    forall h: Holder ensures HolderKnown(out, tokens, holdings, h) { assert HolderKnown(recs, tokens, holdings, h); }
  }

  lemma {:induction false} ErasedColumns(recs: RecordMap, tokens: seq<Token>, holdings: map<Holder, nat>, slotSize: nat,
                                         a: Address)
    requires WideShown(recs, tokens, holdings, slotSize)
    ensures WideShown(Without(recs, a), tokens, map h | h in holdings && h.who != a :: holdings[h], slotSize)
  {
    var out, left := Without(recs, a), map h | h in holdings && h.who != a :: holdings[h];
    forall b: Address, id: nat ensures WideAt(out, tokens, left, id, b) {
      assert WideAt(recs, tokens, holdings, id, b);
    }
    forall b: Key ensures WideSlot(out, tokens, slotSize, b) { assert WideSlot(recs, tokens, slotSize, b); }
    forall h: Holder ensures HolderKnown(out, tokens, left, h) { assert HolderKnown(recs, tokens, holdings, h); }
  }

  // -------------------------------------------------------------------- registry

  lemma {:induction false} MoreColumns(tokens: seq<Token>, tok: Token, id: nat)
    requires id <= |tokens|
    ensures ColumnsEnd(tokens + [tok]) == ColumnsEnd(tokens) + tok.width
    ensures ColumnAt(tokens + [tok], id) == if id < |tokens| then ColumnAt(tokens, id) else ColumnsEnd(tokens)
  {
    assert (tokens + [tok])[..|tokens|] == tokens;
    assert (tokens + [tok])[..id] == tokens[..id];
  }

  lemma {:induction false} NewColumnZero(slot: Record, tokens: seq<Token>, tok: Token)
    requires ColumnsEnd(tokens) + tok.width <= |slot| && IsZero(slot[ColumnsEnd(tokens)..])
    ensures ColumnsEnd(tokens + [tok]) <= |slot| && IsZero(slot[ColumnsEnd(tokens + [tok])..])
    ensures Column(slot, tokens + [tok], |tokens|) == 0
  {
    var end := ColumnsEnd(tokens);
    MoreColumns(tokens, tok, |tokens|);
    assert slot[end + tok.width..] == slot[end..][tok.width..];
    var bytes := slot[end..end + tok.width];
    assert bytes == slot[end..][..tok.width];
    ZeroIsZeros(bytes);
  }

  /** A new column reads zero for everyone, because nothing was ever written past the last one. */
  lemma {:induction false} ColumnAdded(recs: RecordMap, tokens: seq<Token>, holdings: map<Holder, nat>, slotSize: nat, tok: Token)
    requires WideShown(recs, tokens, holdings, slotSize) && ColumnsEnd(tokens) + tok.width <= slotSize
    ensures WideShown(recs, tokens + [tok], holdings, slotSize)
  {
    var more := tokens + [tok];
    MoreColumns(tokens, tok, |tokens|);
    forall a: Key ensures WideSlot(recs, more, slotSize, a) {
      assert WideSlot(recs, tokens, slotSize, a);
      if a in recs { NewColumnZero(recs[a], tokens, tok); }
    }
    forall a: Address, id: nat ensures WideAt(recs, more, holdings, id, a) {
      assert WideAt(recs, tokens, holdings, id, a) && HolderKnown(recs, tokens, holdings, Holder(id, a));
      assert WideSlot(recs, tokens, slotSize, a);
      if a in recs && id <= |tokens| {
        MoreColumns(tokens, tok, id);
        if id == |tokens| { NewColumnZero(recs[a], tokens, tok); }
      }
    }
    forall h: Holder ensures HolderKnown(recs, more, holdings, h) { assert HolderKnown(recs, tokens, holdings, h); }
  }

  // --------------------------------------------------------------------- columns

  /** Writing one column of one record changes that holding and no other. */
  lemma {:induction false} ColumnSet(recs: RecordMap, tokens: seq<Token>, holdings: map<Holder, nat>, slotSize: nat,
                                     a: Address, id: nat, value: nat)
    requires WideShown(recs, tokens, holdings, slotSize) && a in recs && |recs[a]| == slotSize
    requires id < |tokens| && value < Pow256(tokens[id].width)
    ensures WideShown(recs[a := WithColumn(recs[a], tokens, id, value)], tokens,
                      WithHolding(holdings, Holder(id, a), value), slotSize)
  {
    var slot := WithColumn(recs[a], tokens, id, value);
    var out, now := recs[a := slot], WithHolding(holdings, Holder(id, a), value);
    AroundColumns(recs[a], tokens, id, value);
    forall b: Address, k: nat ensures WideAt(out, tokens, now, k, b) {
      assert WideAt(recs, tokens, holdings, k, b);
      if b == a && k < |tokens| {
        if k == id { ColumnWritten(recs[a], tokens, id, value); }
        else { OtherColumn(recs[a], tokens, id, value, k); }
      }
    }
    forall b: Key ensures WideSlot(out, tokens, slotSize, b) { assert WideSlot(recs, tokens, slotSize, b); }
    forall h: Holder ensures HolderKnown(out, tokens, now, h) { assert HolderKnown(recs, tokens, holdings, h); }
  }

  /** The account fields of a slot, read from its first bytes. */
  lemma {:induction false} SameFrontSameAccount(c: Config, s: Record, t: Record)
    requires !Compact(c) && |s| >= 64 && |t| >= 64 && s[..64] == t[..64]
    ensures DecodeAccount(c, s) == DecodeAccount(c, t)
  {
    assert s[24..32] == s[..64][24..32] && s[32..64] == s[..64][32..64];
    assert t[24..32] == t[..64][24..32] && t[32..64] == t[..64][32..64];
  }

  lemma {:induction false} ColumnKeepsAccount(c: Config, recs: RecordMap, accounts: map<Address, Account>,
                                              tokens: seq<Token>, a: Address, id: nat, value: nat)
    requires AccountsShown(c, recs, accounts) && a in recs && !Compact(c)
    requires id < |tokens| && ColumnsEnd(tokens) <= c.slotSize
    requires |recs[a]| == c.slotSize
    ensures AccountsShown(c, recs[a := WithColumn(recs[a], tokens, id, value)], accounts)
  {
    var slot := WithColumn(recs[a], tokens, id, value);
    AroundColumns(recs[a], tokens, id, value);
    SameFrontSameAccount(c, slot, recs[a]);
    var out := recs[a := slot];
    forall b: Key ensures AccountAt(c, out, accounts, b) {
      assert AccountAt(c, recs, accounts, b);
    }
  }

  // ------------------------------------------------------------- sparse holdings

  /** Different holders have different keys. */
  lemma {:induction false} KeysApart(g: Holder, h: Holder)
    requires g.id < Pow256(ID_BYTES) && h.id < Pow256(ID_BYTES) && g != h
    ensures SparseKey(g.id, g.who) != SparseKey(h.id, h.who)
  {
    SparseKeyRoundTrip(g.id, g.who);
    SparseKeyRoundTrip(h.id, h.who);
  }

  lemma {:induction false} SparseSet(recs: RecordMap, tokens: seq<Token>, holdings: map<Holder, nat>, slotSize: nat,
                                     id: nat, a: Address, slot: Record)
    requires SparseShown(recs, tokens, holdings, slotSize) && id < |tokens| && |slot| == slotSize
    ensures SparseShown(recs[SparseKey(id, a) := slot], tokens, holdings[Holder(id, a) := BalanceOf(slot)], slotSize)
  {
    var key, who := SparseKey(id, a), Holder(id, a);
    SparseKeyRoundTrip(id, a);
    var out, now := recs[key := slot], holdings[who := BalanceOf(slot)];
    forall h: Holder | h.id < |tokens| ensures SparseAt(out, now, h) {
      assert SparseAt(recs, holdings, h);
      if h != who { KeysApart(h, who); }
    }
    forall k: Key ensures SparseSlot(out, tokens, slotSize, k) { assert SparseSlot(recs, tokens, slotSize, k); }
    forall h: Holder ensures TokenKnown(tokens, now, h) { assert TokenKnown(tokens, holdings, h); }
  }

  lemma {:induction false} SparseErased(recs: RecordMap, tokens: seq<Token>, holdings: map<Holder, nat>, slotSize: nat,
                                        id: nat, a: Address)
    requires SparseShown(recs, tokens, holdings, slotSize) && id < |tokens|
    ensures SparseShown(Without(recs, SparseKey(id, a)), tokens, Without(holdings, Holder(id, a)), slotSize)
  {
    var key, who := SparseKey(id, a), Holder(id, a);
    forall h: Holder | h.id < |tokens| ensures SparseAt(Without(recs, key), Without(holdings, who), h) {
      assert SparseAt(recs, holdings, h);
      if h != who { KeysApart(h, who); }
    }
    forall k: Key ensures SparseSlot(Without(recs, key), tokens, slotSize, k) { assert SparseSlot(recs, tokens, slotSize, k); }
    forall h: Holder ensures TokenKnown(tokens, Without(holdings, who), h) { assert TokenKnown(tokens, holdings, h); }
  }

  /** A new token has no holdings yet. */
  lemma {:induction false} SparseAdded(recs: RecordMap, tokens: seq<Token>, holdings: map<Holder, nat>, slotSize: nat, tok: Token)
    requires SparseShown(recs, tokens, holdings, slotSize) && |tokens| < Pow256(ID_BYTES)
    ensures SparseShown(recs, tokens + [tok], holdings, slotSize)
  {
    var more := tokens + [tok];
    forall h: Holder | h.id < |more| ensures SparseAt(recs, holdings, h) {
      assert TokenKnown(tokens, holdings, h) && SparseSlot(recs, tokens, slotSize, SparseKey(h.id, h.who));
      if h.id < |tokens| { assert SparseAt(recs, holdings, h); }
      else { SparseKeyRoundTrip(h.id, h.who); }
    }
    forall k: Key ensures SparseSlot(recs, more, slotSize, k) { assert SparseSlot(recs, tokens, slotSize, k); }
    forall h: Holder ensures TokenKnown(more, holdings, h) { assert TokenKnown(tokens, holdings, h); }
  }

  // ------------------------------------------------------------------------ sizes

  lemma {:induction false} AccountsCounted(c: Config, recs: RecordMap, accounts: map<Address, Account>)
    requires AccountsShown(c, recs, accounts)
    ensures |recs| == |accounts|
  {
    var keys: set<Key> := accounts.Keys;
    forall a: Key ensures a in recs.Keys <==> a in keys { assert AccountAt(c, recs, accounts, a); }
    assert recs.Keys == keys;
  }

  lemma {:induction false} HoldingsCounted(recs: RecordMap, tokens: seq<Token>, holdings: map<Holder, nat>, slotSize: nat)
    requires SparseShown(recs, tokens, holdings, slotSize)
    ensures |recs| == |holdings|
    decreases |recs|
  {
    if recs == map[] {
      forall h: Holder ensures h !in holdings {
        assert TokenKnown(tokens, holdings, h) && (h.id < |tokens| ==> SparseAt(recs, holdings, h));
      }
      assert holdings.Keys == {};
    } else {
      var k :| k in recs;
      assert SparseSlot(recs, tokens, slotSize, k);
      var h := HolderOf(k);
      HolderRoundTrip(k);
      assert SparseAt(recs, holdings, h);
      SparseErased(recs, tokens, holdings, slotSize, h.id, h.who);
      assert Without(recs, k).Keys == recs.Keys - {k} && Without(holdings, h).Keys == holdings.Keys - {h};
      HoldingsCounted(Without(recs, k), tokens, Without(holdings, h), slotSize);
    }
  }
}
