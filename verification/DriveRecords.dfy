/**
  Records and their fields: how accounts, wide columns and sparse holdings are laid out
  in slots, over the map of records a table stands for.
 */
module DriveRecords {
  import opened ByteCodec
  import opened Geometry
  import opened DriveSpec
  import opened DriveTable

  type RecordMap = map<Key, Record>

  // -------------------------------------------------------------------- accounts

  function RecordBytes(c: Config): (n: nat) {
    if Compact(c) then 32 else 64
  }

  function DecodeAccount(c: Config, slot: Record): (a: Account)
    requires |slot| >= RecordBytes(c)
  {
    if Compact(c) then Account(FromLE(slot[20..24]), FromBE(slot[24..32]))
    else Account(FromLE(slot[24..32]), FromBE(slot[32..64]))
  }

  /** The record bytes, for a nonce and a balance the widths admit. */
  function EncodeAccount(c: Config, a: Address, nonce: nat, balance: nat): (rec: Record)
    ensures |rec| == RecordBytes(c)
  {
    if Compact(c) then a + LE(NonceBytes(c), nonce) + BE(BalanceBytes(c), balance)
    else a + Zeros(4) + LE(NonceBytes(c), nonce) + BE(BalanceBytes(c), balance)
  }

  /** Writing a record over the front of a slot and reading it back. */
  lemma {:induction false} AccountRoundTrip(c: Config, a: Address, nonce: nat, balance: nat, rest: seq<Byte>)
    requires balance < Pow256(BalanceBytes(c))
    ensures var slot := EncodeAccount(c, a, nonce, balance) + rest;
      slot[..20] == a && DecodeAccount(c, slot) == Account(Wrap(nonce, Pow256(NonceBytes(c))), balance)
  {
    LERoundTrip(NonceBytes(c), nonce);
    BERoundTrip(BalanceBytes(c), balance);
    FieldsPlaced(a, Zeros(if Compact(c) then 0 else 4), LE(NonceBytes(c), nonce), BE(BalanceBytes(c), balance), rest);
    assert a + Zeros(0) == a;
  }

  /** Four fields laid out in a row are found where their lengths put them. */
  lemma {:induction false} FieldsPlaced(a: seq<Byte>, pad: seq<Byte>, nonce: seq<Byte>, balance: seq<Byte>, rest: seq<Byte>)
    ensures var slot := a + pad + nonce + balance + rest;
      && slot[..|a|] == a
      && slot[|a + pad|..|a + pad + nonce|] == nonce
      && slot[|a + pad + nonce|..|a + pad + nonce + balance|] == balance
  {
  }

  /** One address has a record exactly when it has an account, and the record says what the account is. */
  ghost predicate AccountAt(c: Config, recs: RecordMap, accounts: map<Address, Account>, a: Key) {
    && (a in recs <==> a in accounts)
    && (a in recs ==> |recs[a]| == c.slotSize >= RecordBytes(c) && DecodeAccount(c, recs[a]) == accounts[a])
  }

  ghost predicate AccountsShown(c: Config, recs: RecordMap, accounts: map<Address, Account>) {
    forall a: Key {:trigger AccountAt(c, recs, accounts, a)} :: AccountAt(c, recs, accounts, a)
  }

  // ---------------------------------------------------------------- wide columns

  /** Where a token's column begins in a wide slot. */
  function ColumnAt(tokens: seq<Token>, id: nat): (off: nat)
    requires id < |tokens|
  {
    ColumnsEnd(tokens[..id])
  }

  lemma {:induction false} ColumnsGrow(tokens: seq<Token>, i: nat, j: nat)
    requires i <= j <= |tokens|
    ensures 64 <= ColumnsEnd(tokens[..i]) <= ColumnsEnd(tokens[..j])
    ensures i < j ==> ColumnsEnd(tokens[..i]) + tokens[i].width <= ColumnsEnd(tokens[..j])
    decreases j
  {
    if j > 0 {
      assert tokens[..j][..j - 1] == tokens[..j - 1];
      ColumnsGrow(tokens, if i < j then i else j - 1, j - 1);
    }
  }

  /** Columns are disjoint, after the account fields and inside the slot. */
  lemma {:induction false} ColumnsApart(tokens: seq<Token>, i: nat, j: nat)
    requires i < |tokens| && j < |tokens| && i != j
    ensures 64 <= ColumnAt(tokens, i) && ColumnAt(tokens, i) + tokens[i].width <= ColumnsEnd(tokens)
    ensures ColumnAt(tokens, i) + tokens[i].width <= ColumnAt(tokens, j) ||
      ColumnAt(tokens, j) + tokens[j].width <= ColumnAt(tokens, i)
  {
    ColumnsGrow(tokens, i, |tokens|);
    ColumnsGrow(tokens, 0, i);
    assert tokens[..|tokens|] == tokens;
    if i < j { ColumnsGrow(tokens, i, j); } else { ColumnsGrow(tokens, j, i); }
  }

  lemma {:induction false} ColumnInside(tokens: seq<Token>, i: nat)
    requires i < |tokens|
    ensures 64 <= ColumnAt(tokens, i) && ColumnAt(tokens, i) + tokens[i].width <= ColumnsEnd(tokens)
  {
    ColumnsGrow(tokens, i, |tokens|);
    ColumnsGrow(tokens, 0, i);
    assert tokens[..|tokens|] == tokens;
  }

  function Column(slot: Record, tokens: seq<Token>, id: nat): (v: nat)
    requires id < |tokens| && ColumnsEnd(tokens) <= |slot|
  {
    ColumnInside(tokens, id);
    FromBE(slot[ColumnAt(tokens, id)..ColumnAt(tokens, id) + tokens[id].width])
  }

  /** A wide record has the slot's length and nothing past its last column. */
  ghost predicate WideSlot(recs: RecordMap, tokens: seq<Token>, slotSize: nat, a: Key) {
    a in recs ==> |recs[a]| == slotSize && ColumnsEnd(tokens) <= slotSize && IsZero(recs[a][ColumnsEnd(tokens)..])
  }

  /** A holding belongs to a registered token and to an address with a record. */
  ghost predicate HolderKnown(recs: RecordMap, tokens: seq<Token>, holdings: map<Holder, nat>, h: Holder) {
    h in holdings ==> h.id < |tokens| && h.who in recs
  }

  /** One holding is its column, and absent exactly when the column is zero. */
  ghost predicate WideAt(recs: RecordMap, tokens: seq<Token>, holdings: map<Holder, nat>, id: nat, a: Address) {
    a in recs && id < |tokens| && ColumnsEnd(tokens) <= |recs[a]| ==>
      var h := Holder(id, a);
      && (h in holdings <==> Column(recs[a], tokens, id) != 0)
      && (h in holdings ==> holdings[h] == Column(recs[a], tokens, id))
  }

  /** Every record's columns are the holdings, and nothing is written past the last column. */
  ghost predicate WideShown(recs: RecordMap, tokens: seq<Token>, holdings: map<Holder, nat>, slotSize: nat) {
    && ColumnsEnd(tokens) <= slotSize
    && (forall a: Key {:trigger WideSlot(recs, tokens, slotSize, a)} :: WideSlot(recs, tokens, slotSize, a))
    && (forall h: Holder {:trigger HolderKnown(recs, tokens, holdings, h)} :: HolderKnown(recs, tokens, holdings, h))
    && (forall a: Address, id: nat {:trigger WideAt(recs, tokens, holdings, id, a)} :: WideAt(recs, tokens, holdings, id, a))
  }

  /** The slot with one column rewritten. */
  function WithColumn(slot: Record, tokens: seq<Token>, id: nat, value: nat): (r: Record)
    requires id < |tokens| && ColumnsEnd(tokens) <= |slot|
    ensures |r| == |slot|
  {
    ColumnInside(tokens, id);
    Splice(slot, ColumnAt(tokens, id), BE(tokens[id].width, value))
  }

  lemma {:induction false} ColumnWritten(slot: Record, tokens: seq<Token>, id: nat, value: nat)
    requires id < |tokens| && ColumnsEnd(tokens) <= |slot| && value < Pow256(tokens[id].width)
    ensures Column(WithColumn(slot, tokens, id, value), tokens, id) == value
  {
    ColumnInside(tokens, id);
    BERoundTrip(tokens[id].width, value);
    SpliceReadsBack(slot, ColumnAt(tokens, id), BE(tokens[id].width, value));
  }

  lemma {:induction false} OtherColumn(slot: Record, tokens: seq<Token>, id: nat, value: nat, other: nat)
    requires id < |tokens| && other < |tokens| && other != id && ColumnsEnd(tokens) <= |slot|
    ensures Column(WithColumn(slot, tokens, id, value), tokens, other) == Column(slot, tokens, other)
  {
    ColumnsApart(tokens, id, other);
    ColumnInside(tokens, other);
    SpliceElsewhere(slot, ColumnAt(tokens, id), BE(tokens[id].width, value),
                    ColumnAt(tokens, other), ColumnAt(tokens, other) + tokens[other].width);
  }

  lemma {:induction false} AroundColumns(slot: Record, tokens: seq<Token>, id: nat, value: nat)
    requires id < |tokens| && ColumnsEnd(tokens) <= |slot|
    ensures WithColumn(slot, tokens, id, value)[..64] == slot[..64]
    ensures WithColumn(slot, tokens, id, value)[ColumnsEnd(tokens)..] == slot[ColumnsEnd(tokens)..]
  {
    ColumnInside(tokens, id);
  }

  // -------------------------------------------------------------- sparse holdings

  /** A token id takes two bytes. */
  type IdSize = n: nat | 1 < n < 3 witness 2
  const ID_BYTES: IdSize

  function SparseKey(id: nat, a: Address): (k: Key)
    ensures |k| == 22
  {
    LE(ID_BYTES, id) + a
  }

  function HolderOf(k: Key): (h: Holder)
    requires |k| == 22
  {
    Holder(FromLE(k[..2]), k[2..])
  }

  /** Keys name exactly one holder each. */
  lemma {:induction false} SparseKeyRoundTrip(id: nat, a: Address)
    requires id < Pow256(ID_BYTES)
    ensures HolderOf(SparseKey(id, a)) == Holder(id, a)
  {
    LERoundTrip(ID_BYTES, id);
    assert SparseKey(id, a)[..2] == LE(ID_BYTES, id) && SparseKey(id, a)[2..] == a;
  }

  lemma {:induction false} HolderRoundTrip(k: Key)
    requires |k| == 22
    ensures SparseKey(HolderOf(k).id, HolderOf(k).who) == k && HolderOf(k).id < Pow256(ID_BYTES)
  {
    FromLERoundTrip(k[..2]);
    FromLEBound(k[..2]);
    assert k[..2] + k[2..] == k;
  }

  /** Where a sparse record keeps its balance. */
  function BalanceAt(slotSize: nat): (off: nat) {
    if slotSize == 32 then 24 else 32
  }

  function BalanceOf(slot: Record): (v: nat)
    requires |slot| == 32 || |slot| == 64
  {
    FromBE(slot[BalanceAt(|slot|)..])
  }

  /** One holder's holding is its record's balance, and absent exactly when the record is. */
  ghost predicate SparseAt(recs: RecordMap, holdings: map<Holder, nat>, h: Holder) {
    var k := SparseKey(h.id, h.who);
    && (k in recs <==> h in holdings)
    && (k in recs ==> (|recs[k]| == 32 || |recs[k]| == 64) && holdings[h] == BalanceOf(recs[k]))
  }

  /** A sparse record has the slot's length and a key that names a registered token. */
  ghost predicate SparseSlot(recs: RecordMap, tokens: seq<Token>, slotSize: nat, k: Key) {
    k in recs ==> |k| == 22 && HolderOf(k).id < |tokens| && |recs[k]| == slotSize
  }

  ghost predicate TokenKnown(tokens: seq<Token>, holdings: map<Holder, nat>, h: Holder) {
    h in holdings ==> h.id < |tokens|
  }

  ghost predicate SparseShown(recs: RecordMap, tokens: seq<Token>, holdings: map<Holder, nat>, slotSize: nat) {
    && (slotSize == 32 || slotSize == 64) && |tokens| <= Pow256(ID_BYTES)
    && (forall k: Key {:trigger SparseSlot(recs, tokens, slotSize, k)} :: SparseSlot(recs, tokens, slotSize, k))
    && (forall h: Holder {:trigger TokenKnown(tokens, holdings, h)} :: TokenKnown(tokens, holdings, h))
    && (forall h: Holder {:trigger SparseAt(recs, holdings, h)} :: h.id < |tokens| ==> SparseAt(recs, holdings, h))
  }

  function WithAmount(slot: Record, value: nat): (r: Record)
    requires |slot| == 32 || |slot| == 64
    ensures |r| == |slot|
  {
    Splice(slot, BalanceAt(|slot|), BE(|slot| - BalanceAt(|slot|), value))
  }

  lemma {:induction false} BalanceWritten(slot: Record, value: nat)
    requires (|slot| == 32 || |slot| == 64) && value < Pow256(|slot| - BalanceAt(|slot|))
    ensures var r := WithAmount(slot, value); BalanceOf(r) == value && r[..24] == slot[..24]
  {
    var r := WithAmount(slot, value);
    BERoundTrip(|slot| - BalanceAt(|slot|), value);
    SpliceReadsBack(slot, BalanceAt(|slot|), BE(|slot| - BalanceAt(|slot|), value));
    assert r[BalanceAt(|slot|)..] == BE(|slot| - BalanceAt(|slot|), value);
  }

  /** A fresh sparse record: id, two zero bytes, address, and room for the balance. */
  function SparseRecord(slotSize: nat, id: nat, a: Address): (r: Record)
    requires slotSize >= 32
    ensures |r| == slotSize
  {
    LE(ID_BYTES, id) + Zeros(2) + a + Zeros(slotSize - 24)
  }

  lemma {:induction false} PowMonotone(m: nat, n: nat)
    requires m <= n
    ensures Pow256(m) <= Pow256(n)
  {
    if m < n { PowMonotone(m, n - 1); }
  }
}
