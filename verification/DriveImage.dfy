/**
  What a whole drive image stands for: the two tables, the registry and the counters of a
  formatted drive, read as one abstract view, and which writes leave which parts alone.
 */
module DriveImage {
  import opened Options
  import opened MachineWords
  import opened ByteCodec
  import opened Geometry
  import opened DriveSpec
  import opened DriveTable
  import opened DriveRecords
  import opened DriveUpdates

  const OFF_LIVE_COUNT := 0x28
  const OFF_TOKEN_COUNT := 0x68
  const OFF_SPARSE_LIVE_COUNT := 0x88

  function AccountsTable(c: Config): (t: Table) {
    Table(c.tableOffset, c.capacity, c.slotSize, OFF_LIVE_COUNT, c.loadLimit, c.seed, false)
  }

  function SparseTable(c: Config): (t: Table) {
    Table(c.sparseOffset, c.sparseCapacity, c.sparseSlotSize, OFF_SPARSE_LIVE_COUNT, c.sparseLoadLimit, c.seed, true)
  }

  /** The image has the length and the geometry it was formatted with. */
  ghost predicate Formatted(c: Config, mem: seq<Byte>) {
    Sound(c) && c.Words() && |mem| == c.driveLength
  }

  lemma {:induction false} WordBound()
    ensures Pow256(EIGHT) == TWO_64
  {
    assert Pow256(8) == TWO_64;
  }

  /** A table placed inside an image is held by it. */
  lemma {:induction false} TableHeld(t: Table, mem: seq<Byte>, size: nat)
    requires 0 < t.limit < t.capacity < TWO_64 && t.slotSize >= 32 && t.countOff + 8 <= t.base
    requires size == t.capacity * t.slotSize && t.base + size <= |mem|
    ensures Holds(mem, t) && t.End() == t.base + size
  {
    WordBound();
    AtIsProduct(t, t.capacity);
    assert t.slotSize * t.capacity == size;
  }

  lemma {:induction false} AccountsHeld(c: Config, mem: seq<Byte>)
    requires Formatted(c, mem)
    ensures Holds(mem, AccountsTable(c)) && AccountsTable(c).End() == c.tableOffset + c.capacity * c.slotSize
  {
    TableHeld(AccountsTable(c), mem, AccountsRegion(c).len);
  }

  lemma {:induction false} SparseHeld(c: Config, mem: seq<Byte>)
    requires Formatted(c, mem) && c.profile == SPARSE
    ensures Holds(mem, SparseTable(c)) && SparseTable(c).End() == c.sparseOffset + c.sparseCapacity * c.sparseSlotSize
  {
    TableHeld(SparseTable(c), mem, SparseRegion(c).len);
  }

  // -------------------------------------------------------------------- registry

  /** Where registry entry i begins. */
  function EntryAt(c: Config, i: nat): (off: nat) {
    c.registryOffset + 32 * i
  }

  function EntryOf(t: Token): (b: seq<Byte>)
    requires t.width < 256
    ensures |b| == 32
  {
    t.address + [t.width] + Zeros(11)
  }

  ghost predicate EntryShown(c: Config, mem: seq<Byte>, tokens: seq<Token>, i: nat)
    requires i < |tokens|
  {
    && EntryAt(c, i) + 32 <= |mem|
    && mem[EntryAt(c, i)..EntryAt(c, i) + 20] == tokens[i].address && mem[EntryAt(c, i) + 20] == tokens[i].width
  }

  function TokenCount(mem: seq<Byte>): (n: nat)
    requires HEADER_SIZE <= |mem|
  {
    FromLE(mem[OFF_TOKEN_COUNT..OFF_TOKEN_COUNT + 8])
  }

  ghost predicate RegistryShown(c: Config, mem: seq<Byte>, tokens: seq<Token>)
    requires HEADER_SIZE <= |mem|
  {
    if c.registryOffset == 0 then tokens == []
    else TokenCount(mem) == |tokens| <= c.registryCapacity && forall i :: 0 <= i < |tokens| ==> EntryShown(c, mem, tokens, i)
  }

  /** One image shows at most one registry. */
  lemma {:induction false} RegistryUnique(c: Config, mem: seq<Byte>, a: seq<Token>, b: seq<Token>)
    requires HEADER_SIZE <= |mem| && RegistryShown(c, mem, a) && RegistryShown(c, mem, b)
    ensures a == b
  {
    forall i | 0 <= i < |a| && c.registryOffset != 0 ensures a[i] == b[i] {
      assert EntryShown(c, mem, a, i) && EntryShown(c, mem, b, i);
    }
  }

  /** The registry can be read: it is not overfull, lies in the image, and names only known widths. */
  ghost predicate Readable(c: Config, mem: seq<Byte>)
    requires HEADER_SIZE <= |mem|
  {
    c.registryOffset != 0 ==>
      TokenCount(mem) <= c.registryCapacity && forall i :: 0 <= i < TokenCount(mem) ==> ReadableAt(c, mem, i)
  }

  predicate ReadableAt(c: Config, mem: seq<Byte>, i: nat) {
    EntryAt(c, i) + 32 <= |mem| && ValidWidth(mem[EntryAt(c, i) + 20])
  }

  lemma {:induction false} ShownIsReadable(c: Config, mem: seq<Byte>, tokens: seq<Token>)
    requires HEADER_SIZE <= |mem| && RegistryShown(c, mem, tokens) && TokensFit(c, tokens)
    ensures Readable(c, mem)
  {
    forall i | 0 <= i < |tokens| && c.registryOffset != 0 ensures ReadableAt(c, mem, i) {
      assert EntryShown(c, mem, tokens, i);
    }
  }

  /** The byte belongs to the registry: an entry or the token counter. */
  ghost predicate RegistryOwns(c: Config, k: nat) {
    || OFF_TOKEN_COUNT <= k < OFF_TOKEN_COUNT + 8
    || (c.registryOffset != 0 && c.registryOffset <= k < EntryAt(c, c.registryCapacity))
  }

  ghost predicate WithinRegistry(c: Config, before: seq<Byte>, after: seq<Byte>) {
    |before| == |after| && forall k :: 0 <= k < |before| && !RegistryOwns(c, k) ==> after[k] == before[k]
  }

  /** Header counters, registry and both tables share no byte. */
  lemma {:induction false} RegionsApart(c: Config, mem: seq<Byte>, k: nat)
    requires Formatted(c, mem)
    ensures Holds(mem, AccountsTable(c)) && (c.profile == SPARSE ==> Holds(mem, SparseTable(c)))
    ensures Owns(AccountsTable(c), k) ==> !RegistryOwns(c, k) && (c.profile == SPARSE ==> !Owns(SparseTable(c), k))
    ensures RegistryOwns(c, k) ==> !Owns(AccountsTable(c), k) && (c.profile == SPARSE ==> !Owns(SparseTable(c), k))
  {
    AccountsHeld(c, mem);
    if c.profile == SPARSE { SparseHeld(c, mem); }
  }

  lemma {:induction false} RegistryFrame(c: Config, a: seq<Byte>, b: seq<Byte>, tokens: seq<Token>)
    requires Formatted(c, a) && |a| == |b| && RegistryShown(c, a, tokens)
    requires forall k :: 0 <= k < |a| && RegistryOwns(c, k) ==> b[k] == a[k]
    ensures RegistryShown(c, b, tokens)
  {
    if c.registryOffset != 0 {
      assert a[OFF_TOKEN_COUNT..OFF_TOKEN_COUNT + 8] == b[OFF_TOKEN_COUNT..OFF_TOKEN_COUNT + 8];
      forall i | 0 <= i < |tokens| ensures EntryShown(c, b, tokens, i) {
        assert EntryShown(c, a, tokens, i);
        assert a[EntryAt(c, i)..EntryAt(c, i) + 20] == b[EntryAt(c, i)..EntryAt(c, i) + 20];
      }
    }
  }

  // -------------------------------------------------------------------- the view

  ghost predicate TablesOk(c: Config, mem: seq<Byte>) {
    TableOk(mem, AccountsTable(c)) && (c.profile == SPARSE ==> TableOk(mem, SparseTable(c)))
  }

  /** The records of the holdings table, where the profile has one. */
  ghost function SparseRecords(c: Config, mem: seq<Byte>): (m: RecordMap)
    requires TablesOk(c, mem)
  {
    if c.profile == SPARSE then Records(mem, SparseTable(c)) else map[]
  }

  ghost predicate RecordsShown(c: Config, accs: RecordMap, sparse: RecordMap, v: View) {
    && AccountsShown(c, accs, v.accounts)
    && (c.profile == WIDE ==> WideShown(accs, v.tokens, v.holdings, c.slotSize))
    && (c.profile == SPARSE ==> SparseShown(sparse, v.tokens, v.holdings, c.sparseSlotSize))
  }

  /** The image stands for the view. */
  ghost predicate Shows(c: Config, mem: seq<Byte>, v: View) {
    && Formatted(c, mem) && TablesOk(c, mem)
    && RegistryShown(c, mem, v.tokens)
    && RecordsShown(c, Records(mem, AccountsTable(c)), SparseRecords(c, mem), v)
  }

  // --------------------------------------------------------- one table, or the registry

  lemma {:induction false} TableFrame(a: seq<Byte>, b: seq<Byte>, t: Table)
    requires TableOk(a, t) && |a| == |b|
    requires forall k :: 0 <= k < |a| && Owns(t, k) ==> b[k] == a[k]
    ensures TableOk(b, t) && Records(b, t) == Records(a, t)
  {
    SameBytesSameTable(a, b, t);
  }

  /** A change inside the accounts table leaves the registry and the holdings table as they were. */
  lemma {:induction false} AccountsChanged(c: Config, mem: seq<Byte>, out: seq<Byte>, v: View)
    requires Shows(c, mem, v) && Within(AccountsTable(c), mem, out) && TableOk(out, AccountsTable(c))
    ensures Formatted(c, out) && TablesOk(c, out) && RegistryShown(c, out, v.tokens)
    ensures SparseRecords(c, out) == SparseRecords(c, mem)
  {
    forall k: nat ensures RegistryOwns(c, k) ==> !Owns(AccountsTable(c), k) {
      RegionsApart(c, mem, k);
    }
    RegistryFrame(c, mem, out, v.tokens);
    if c.profile == SPARSE {
      forall k: nat ensures Owns(SparseTable(c), k) ==> !Owns(AccountsTable(c), k) {
        RegionsApart(c, mem, k);
      }
      TableFrame(mem, out, SparseTable(c));
    }
  }

  /** A change inside the holdings table leaves the registry and the accounts table as they were. */
  lemma {:induction false} SparseChanged(c: Config, mem: seq<Byte>, out: seq<Byte>, v: View)
    requires Shows(c, mem, v) && c.profile == SPARSE && Within(SparseTable(c), mem, out) && TableOk(out, SparseTable(c))
    ensures Formatted(c, out) && TablesOk(c, out) && RegistryShown(c, out, v.tokens)
    ensures Records(out, AccountsTable(c)) == Records(mem, AccountsTable(c))
  {
    forall k: nat ensures RegistryOwns(c, k) ==> !Owns(SparseTable(c), k) {
      RegionsApart(c, mem, k);
    }
    RegistryFrame(c, mem, out, v.tokens);
    forall k: nat ensures Owns(AccountsTable(c), k) ==> !Owns(SparseTable(c), k) {
      RegionsApart(c, mem, k);
    }
    TableFrame(mem, out, AccountsTable(c));
  }

  /** A change inside the registry leaves both tables as they were. */
  lemma {:induction false} RegistryChanged(c: Config, mem: seq<Byte>, out: seq<Byte>, v: View)
    requires Shows(c, mem, v) && WithinRegistry(c, mem, out)
    ensures Formatted(c, out) && TablesOk(c, out)
    ensures Records(out, AccountsTable(c)) == Records(mem, AccountsTable(c))
    ensures SparseRecords(c, out) == SparseRecords(c, mem)
  {
    forall k: nat ensures Owns(AccountsTable(c), k) ==> !RegistryOwns(c, k) {
      RegionsApart(c, mem, k);
    }
    TableFrame(mem, out, AccountsTable(c));
    if c.profile == SPARSE {
      forall k: nat ensures Owns(SparseTable(c), k) ==> !RegistryOwns(c, k) {
        RegionsApart(c, mem, k);
      }
      TableFrame(mem, out, SparseTable(c));
    }
  }

  // ------------------------------------------------------------------ whole operations

  /** The slot an account write leaves: the record, then whatever columns were there. */
  ghost function AccountSlot(c: Config, recs: RecordMap, a: Address, nonce: nat, balance: nat): (slot: Record)
    requires RecordBytes(c) <= c.slotSize && (a in recs ==> |recs[a]| == c.slotSize)
    ensures |slot| == c.slotSize
  {
    EncodeAccount(c, a, nonce, balance) +
    if a in recs then recs[a][RecordBytes(c)..] else Zeros(c.slotSize - RecordBytes(c))
  }

  lemma {:induction false} AccountSetRecords(c: Config, accs: RecordMap, sparse: RecordMap, v: View, a: Address,
                                             nonce: nat, balance: nat)
    requires RecordsShown(c, accs, sparse, v) && balance < Pow256(BalanceBytes(c)) && RecordBytes(c) <= c.slotSize
    requires a in accs ==> |accs[a]| == c.slotSize
    ensures RecordsShown(c, accs[a := AccountSlot(c, accs, a, nonce, balance)], sparse, WithAccount(c, v, a, nonce, balance))
  {
    var slot := AccountSlot(c, accs, a, nonce, balance);
    AccountWritten(c, accs, v.accounts, a, nonce, balance, slot[RecordBytes(c)..]);
    assert slot == EncodeAccount(c, a, nonce, balance) + slot[RecordBytes(c)..];
    if c.profile == WIDE {
      FieldsKeepColumns(accs, v.tokens, v.holdings, c.slotSize, a, slot);
    }
  }

  lemma {:induction false} AccountSet(c: Config, mem: seq<Byte>, out: seq<Byte>, v: View, a: Address, nonce: nat, balance: nat)
    requires Shows(c, mem, v) && balance < Pow256(BalanceBytes(c))
    requires Within(AccountsTable(c), mem, out) && TableOk(out, AccountsTable(c))
    requires a in Records(mem, AccountsTable(c)) ==> |Records(mem, AccountsTable(c))[a]| == c.slotSize
    requires var accs := Records(mem, AccountsTable(c));
      Records(out, AccountsTable(c)) == accs[a := AccountSlot(c, accs, a, nonce, balance)]
    ensures Shows(c, out, WithAccount(c, v, a, nonce, balance))
  {
    AccountsChanged(c, mem, out, v);
    AccountSetRecords(c, Records(mem, AccountsTable(c)), SparseRecords(c, mem), v, a, nonce, balance);
  }

  lemma {:induction false} AccountDeleted(c: Config, mem: seq<Byte>, out: seq<Byte>, v: View, a: Address)
    requires Shows(c, mem, v)
    requires Within(AccountsTable(c), mem, out) && TableOk(out, AccountsTable(c))
    requires Records(out, AccountsTable(c)) == Without(Records(mem, AccountsTable(c)), a)
    ensures Shows(c, out, WithoutAccount(c, v, a))
  {
    var recs := Records(mem, AccountsTable(c));
    AccountsChanged(c, mem, out, v);
    AccountErased(c, recs, v.accounts, a);
    if c.profile == WIDE {
      ErasedColumns(recs, v.tokens, v.holdings, c.slotSize, a);
    }
  }

  /** The slot a first token balance creates: the address, zero account fields, zero columns. */
  function BlankSlot(c: Config, a: Address): (slot: Record)
    requires c.slotSize >= 20
    ensures |slot| == c.slotSize
  {
    a + Zeros(c.slotSize - 20)
  }

  lemma {:induction false} BlankIsZeroAccount(c: Config, a: Address)
    requires !Compact(c) && c.slotSize >= 64
    ensures BlankSlot(c, a)[..20] == a && DecodeAccount(c, BlankSlot(c, a)) == Account(0, 0)
    ensures BlankSlot(c, a)[64..] == Zeros(c.slotSize - 64)
  {
    var slot := BlankSlot(c, a);
    assert slot[24..32] == Zeros(8) && slot[32..64] == Zeros(32);
    ZeroIsZeros(slot[24..32]);
    ZeroIsZeros(slot[32..64]);
  }

  lemma {:induction false} BlankAdded(c: Config, accs: RecordMap, sparse: RecordMap, v: View, a: Address)
    requires RecordsShown(c, accs, sparse, v) && c.profile == WIDE && c.slotSize >= 64 && a !in accs
    ensures RecordsShown(c, accs[a := BlankSlot(c, a)], sparse, v.(accounts := v.accounts[a := Account(0, 0)]))
  {
    BlankIsZeroAccount(c, a);
    AccountReplaced(c, accs, v.accounts, a, BlankSlot(c, a));
    FieldsKeepColumns(accs, v.tokens, v.holdings, c.slotSize, a, BlankSlot(c, a));
  }

  lemma {:induction false} ColumnSetRecords(c: Config, accs: RecordMap, sparse: RecordMap, v: View, a: Address, id: nat,
                                            value: nat)
    requires RecordsShown(c, accs, sparse, v) && c.profile == WIDE && a in accs && |accs[a]| == c.slotSize
    requires id < |v.tokens| && value < Pow256(v.tokens[id].width)
    ensures RecordsShown(c, accs[a := WithColumn(accs[a], v.tokens, id, value)], sparse,
                         v.(holdings := WithHolding(v.holdings, Holder(id, a), value)))
  {
    ColumnKeepsAccount(c, accs, v.accounts, v.tokens, a, id, value);
    ColumnSet(accs, v.tokens, v.holdings, c.slotSize, a, id, value);
  }

  lemma {:induction false} ColumnStored(c: Config, mem: seq<Byte>, out: seq<Byte>, v: View, a: Address, id: nat, value: nat)
    requires Shows(c, mem, v) && c.profile == WIDE
    requires a in Records(mem, AccountsTable(c)) && |Records(mem, AccountsTable(c))[a]| == c.slotSize
    requires id < |v.tokens| && value < Pow256(v.tokens[id].width)
    requires Within(AccountsTable(c), mem, out) && TableOk(out, AccountsTable(c))
    requires var accs := Records(mem, AccountsTable(c));
      Records(out, AccountsTable(c)) == accs[a := WithColumn(accs[a], v.tokens, id, value)]
    ensures Shows(c, out, v.(holdings := WithHolding(v.holdings, Holder(id, a), value)))
  {
    AccountsChanged(c, mem, out, v);
    ColumnSetRecords(c, Records(mem, AccountsTable(c)), SparseRecords(c, mem), v, a, id, value);
  }

  lemma {:induction false} BlankColumnRecords(c: Config, accs: RecordMap, sparse: RecordMap, v: View, a: Address, id: nat,
                                              value: nat)
    requires RecordsShown(c, accs, sparse, v) && c.profile == WIDE && c.slotSize >= 64 && a !in accs
    requires id < |v.tokens| && value < Pow256(v.tokens[id].width)
    ensures RecordsShown(c, accs[a := WithColumn(BlankSlot(c, a), v.tokens, id, value)], sparse,
                         View(v.accounts[a := Account(0, 0)], WithHolding(v.holdings, Holder(id, a), value), v.tokens))
  {
    var blank, born := accs[a := BlankSlot(c, a)], v.(accounts := v.accounts[a := Account(0, 0)]);
    BlankAdded(c, accs, sparse, v, a);
    ColumnSetRecords(c, blank, sparse, born, a, id, value);
    assert blank[a := WithColumn(blank[a], v.tokens, id, value)] == accs[a := WithColumn(BlankSlot(c, a), v.tokens, id, value)];
  }

  lemma {:induction false} ColumnCreated(c: Config, mem: seq<Byte>, out: seq<Byte>, v: View, a: Address, id: nat, value: nat)
    requires Shows(c, mem, v) && c.profile == WIDE && a !in Records(mem, AccountsTable(c))
    requires id < |v.tokens| && value < Pow256(v.tokens[id].width)
    requires Within(AccountsTable(c), mem, out) && TableOk(out, AccountsTable(c))
    requires Records(out, AccountsTable(c)) ==
      Records(mem, AccountsTable(c))[a := WithColumn(BlankSlot(c, a), v.tokens, id, value)]
    ensures Shows(c, out, View(v.accounts[a := Account(0, 0)], WithHolding(v.holdings, Holder(id, a), value), v.tokens))
  {
    AccountsChanged(c, mem, out, v);
    BlankColumnRecords(c, Records(mem, AccountsTable(c)), SparseRecords(c, mem), v, a, id, value);
  }

  lemma {:induction false} BalanceSetRecords(c: Config, accs: RecordMap, sparse: RecordMap, v: View, a: Address, id: nat,
                                             slot: Record)
    requires RecordsShown(c, accs, sparse, v) && c.profile == SPARSE && id < |v.tokens| && |slot| == c.sparseSlotSize
    ensures RecordsShown(c, accs, sparse[SparseKey(id, a) := slot], v.(holdings := v.holdings[Holder(id, a) := BalanceOf(slot)]))
  {
    SparseSet(sparse, v.tokens, v.holdings, c.sparseSlotSize, id, a, slot);
  }

  lemma {:induction false} BalanceStored(c: Config, mem: seq<Byte>, out: seq<Byte>, v: View, a: Address, id: nat, slot: Record)
    requires Shows(c, mem, v) && c.profile == SPARSE && id < |v.tokens| && |slot| == c.sparseSlotSize
    requires Within(SparseTable(c), mem, out) && TableOk(out, SparseTable(c))
    requires Records(out, SparseTable(c)) == Records(mem, SparseTable(c))[SparseKey(id, a) := slot]
    ensures Shows(c, out, v.(holdings := v.holdings[Holder(id, a) := BalanceOf(slot)]))
  {
    SparseChanged(c, mem, out, v);
    BalanceSetRecords(c, Records(mem, AccountsTable(c)), SparseRecords(c, mem), v, a, id, slot);
  }

  lemma {:induction false} BalanceErased(c: Config, mem: seq<Byte>, out: seq<Byte>, v: View, a: Address, id: nat)
    requires Shows(c, mem, v) && c.profile == SPARSE && id < |v.tokens|
    requires Within(SparseTable(c), mem, out) && TableOk(out, SparseTable(c))
    requires Records(out, SparseTable(c)) == Without(Records(mem, SparseTable(c)), SparseKey(id, a))
    ensures Shows(c, out, v.(holdings := Without(v.holdings, Holder(id, a))))
  {
    SparseChanged(c, mem, out, v);
    SparseErased(Records(mem, SparseTable(c)), v.tokens, v.holdings, c.sparseSlotSize, id, a);
  }

  // -------------------------------------------------------------------- registration

  /** Writing an entry leaves the entries before it as they were. */
  lemma {:induction false} EntryWritten(c: Config, mem: seq<Byte>, tokens: seq<Token>, tok: Token, i: nat)
    requires Formatted(c, mem) && RegistryShown(c, mem, tokens) && c.registryOffset != 0 && |tokens| < c.registryCapacity
    requires tok.width < 256 && i <= |tokens|
    ensures EntryAt(c, |tokens|) + 32 <= |mem|
    ensures EntryShown(c, Splice(mem, EntryAt(c, |tokens|), EntryOf(tok)), tokens + [tok], i)
  {
    var out := Splice(mem, EntryAt(c, |tokens|), EntryOf(tok));
    if i < |tokens| {
      assert EntryShown(c, mem, tokens, i);
      SpliceElsewhere(mem, EntryAt(c, |tokens|), EntryOf(tok), EntryAt(c, i), EntryAt(c, i) + 20);
    } else {
      assert out[EntryAt(c, i)..EntryAt(c, i) + 20] == tok.address;
    }
  }

  lemma {:induction false} EntryAdded(c: Config, mem: seq<Byte>, tokens: seq<Token>, tok: Token)
    requires Formatted(c, mem) && RegistryShown(c, mem, tokens) && c.registryOffset != 0 && |tokens| < c.registryCapacity
    requires tok.width < 256
    ensures EntryAt(c, |tokens|) + 32 <= |mem|
    ensures var out := Splice(Splice(mem, EntryAt(c, |tokens|), EntryOf(tok)), OFF_TOKEN_COUNT, LE(EIGHT, |tokens| + 1));
      RegistryShown(c, out, tokens + [tok]) && WithinRegistry(c, mem, out)
  {
    var n, more := |tokens|, tokens + [tok];
    var mid := Splice(mem, EntryAt(c, n), EntryOf(tok));
    var out := Splice(mid, OFF_TOKEN_COUNT, LE(EIGHT, n + 1));
    WordBound();
    LERoundTrip(EIGHT, n + 1);
    SpliceReadsBack(mid, OFF_TOKEN_COUNT, LE(EIGHT, n + 1));
    forall i | 0 <= i < |more| ensures EntryShown(c, out, more, i) {
      EntryWritten(c, mem, tokens, tok, i);
      SpliceElsewhere(mid, OFF_TOKEN_COUNT, LE(EIGHT, n + 1), EntryAt(c, i), EntryAt(c, i) + 20);
    }
  }

  lemma {:induction false} RegisterRecords(c: Config, accs: RecordMap, sparse: RecordMap, v: View, tok: Token)
    requires RecordsShown(c, accs, sparse, v) && |v.tokens| < Pow256(ID_BYTES)
    requires c.profile == WIDE ==> ColumnsEnd(v.tokens) + tok.width <= c.slotSize
    ensures RecordsShown(c, accs, sparse, v.(tokens := v.tokens + [tok]))
  {
    if c.profile == WIDE {
      ColumnAdded(accs, v.tokens, v.holdings, c.slotSize, tok);
    } else if c.profile == SPARSE {
      SparseAdded(sparse, v.tokens, v.holdings, c.sparseSlotSize, tok);
    }
  }

  lemma {:induction false} TokenRegistered(c: Config, mem: seq<Byte>, out: seq<Byte>, v: View, tok: Token)
    requires Shows(c, mem, v) && |v.tokens| < Pow256(ID_BYTES)
    requires c.profile == WIDE ==> ColumnsEnd(v.tokens) + tok.width <= c.slotSize
    requires WithinRegistry(c, mem, out) && Formatted(c, out) && RegistryShown(c, out, v.tokens + [tok])
    ensures Shows(c, out, v.(tokens := v.tokens + [tok]))
  {
    RegistryChanged(c, mem, out, v);
    RegisterRecords(c, Records(mem, AccountsTable(c)), SparseRecords(c, mem), v, tok);
  }

  // ------------------------------------------------------------------ a fresh image

  /** The byte belongs to a table or to the token counter. */
  ghost predicate Counted(c: Config, k: nat) {
    || Owns(AccountsTable(c), k) || (c.profile == SPARSE && Owns(SparseTable(c), k))
    || OFF_TOKEN_COUNT <= k < OFF_TOKEN_COUNT + 8
  }

  lemma {:induction false} FreshTables(c: Config, mem: seq<Byte>)
    requires Formatted(c, mem) && forall k :: 0 <= k < |mem| && Counted(c, k) ==> mem[k] == 0
    ensures TablesOk(c, mem) && Records(mem, AccountsTable(c)) == map[] && SparseRecords(c, mem) == map[]
  {
    AccountsHeld(c, mem);
    forall k | 0 <= k < |mem| && Owns(AccountsTable(c), k) ensures mem[k] == 0 { assert Counted(c, k); }
    ZeroTable(mem, AccountsTable(c));
    if c.profile == SPARSE {
      SparseHeld(c, mem);
      forall k | 0 <= k < |mem| && Owns(SparseTable(c), k) ensures mem[k] == 0 { assert Counted(c, k); }
      ZeroTable(mem, SparseTable(c));
    }
  }

  lemma {:induction false} NothingShown(c: Config)
    requires c.profile == WIDE ==> c.slotSize >= 64
    requires c.profile == SPARSE ==> c.sparseSlotSize == 32 || c.sparseSlotSize == 64
    ensures RecordsShown(c, map[], map[], EMPTY)
  {
  }

  /** An image with zero counters and zero tables, as formatting leaves it, is an empty drive. */
  lemma {:induction false} FreshIsEmpty(c: Config, mem: seq<Byte>)
    requires Formatted(c, mem) && forall k :: 0 <= k < |mem| && Counted(c, k) ==> mem[k] == 0
    ensures Shows(c, mem, EMPTY) && Fits(c, EMPTY)
  {
    FreshTables(c, mem);
    forall k | OFF_TOKEN_COUNT <= k < OFF_TOKEN_COUNT + 8 ensures mem[k] == 0 { assert Counted(c, k); }
    assert mem[OFF_TOKEN_COUNT..OFF_TOKEN_COUNT + 8] == Zeros(8);
    ZeroIsZeros(Zeros(8));
    NothingShown(c);
    EmptyFits(c);
  }
}
