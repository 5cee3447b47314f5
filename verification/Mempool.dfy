/**
  The sequencer's transaction ingress: a bounded FIFO with two indexes, the hashes it
  holds and the account slots its gated entries compete for.
 */
module Mempool {
  import opened Options
  import opened Hashing

  type Raw(==, 0, !new)
  type Sender(==, 0, !new)

  datatype SenderNonce = SenderNonce(sender: Sender, nonce: nat)
  datatype Entry = Entry(raw: Raw, hash: Hash, sn: SenderNonce, gated: bool)

  datatype Refusal = PoolFull | KnownTx | Oversized | Undecodable | DepositType | InvalidSender | NonceUnread | NonceTooLow
  datatype Added = Accepted(hash: Hash) | Refused(why: Refusal)

  const MAX_TX_SIZE := 128 * 1024

  /** What decoding and sender recovery (foreign code) yield for a raw transaction. */
  datatype Tx = Tx(hash: Hash, deposit: bool, nonce: nat, sender: Option<Sender>)
  const sizeOf: Raw -> nat
  const decode: Raw -> Option<Tx>

  /** The account slot recorded for an entry that passed no nonce gate. */
  const noSlot: SenderNonce

  /**
    The checks before the lock.  A gate is armed when the chain supplied a nonce
    reader; current is what that reader answers for the recovered sender.
   */
  function Screen(raw: Raw, gate: bool, current: Option<nat>): (r: Option<Refusal>) {
    if sizeOf(raw) > MAX_TX_SIZE then Some(Oversized)
    else if decode(raw).None? then Some(Undecodable)
    else
      var tx := decode(raw).value;
      if tx.deposit then Some(DepositType)
      else if !gate then None
      else if tx.sender.None? then Some(InvalidSender)
      else if current.None? then Some(NonceUnread)
      else if tx.nonce < current.value then Some(NonceTooLow)
      else None
  }

  function EntryOf(raw: Raw, gate: bool, current: Option<nat>): (e: Entry)
    requires Screen(raw, gate, current).None?
  {
    var tx := decode(raw).value;
    Entry(raw, tx.hash, if gate then SenderNonce(tx.sender.value, tx.nonce) else noSlot, gate)
  }

  // ------------------------------------------------------- the queue as a value

  ghost function Hashes(q: seq<Entry>): (r: set<Hash>) {
    set e | e in q :: e.hash
  }

  ghost function GatedSlots(q: seq<Entry>): (r: set<SenderNonce>) {
    set e | e in q && e.gated :: e.sn
  }

  ghost predicate DistinctHashes(q: seq<Entry>) {
    forall i, j :: 0 <= i < j < |q| ==> q[i].hash != q[j].hash
  }

  ghost predicate DistinctSlots(q: seq<Entry>) {
    forall i, j :: 0 <= i < j < |q| && q[i].gated && q[j].gated ==> q[i].sn != q[j].sn
  }

  /** The first entry holding an account slot. */
  function HolderOf(q: seq<Entry>, sn: SenderNonce): (r: Option<nat>)
    ensures r.Some? ==> r.value < |q| && q[r.value].gated && q[r.value].sn == sn
    ensures r.None? ==> forall i :: 0 <= i < |q| && q[i].gated ==> q[i].sn != sn
  {
    if q == [] then None
    else
      var r := HolderOf(q[..|q| - 1], sn);
      if r.Some? then r
      else if q[|q| - 1].gated && q[|q| - 1].sn == sn then Some(|q| - 1)
      else None
  }

  ghost predicate Fit(q: seq<Entry>, max: nat) {
    DistinctHashes(q) && DistinctSlots(q) && |q| <= max
  }

  /** Offering one entry: refused, taking over the place of its rival, or queued last. */
  ghost function Offer(q: seq<Entry>, e: Entry, max: nat): (r: (Added, seq<Entry>)) {
    if e.hash in Hashes(q) then (Refused(KnownTx), q)
    else
      var rival := if e.gated then HolderOf(q, e.sn) else None;
      if rival.Some? then (Accepted(e.hash), q[rival.value := e])
      else if |q| >= max then (Refused(PoolFull), q)
      else (Accepted(e.hash), q + [e])
  }

  function Survivors(q: seq<Entry>, drop: set<Hash>): (r: seq<Entry>) {
    if q == [] then []
    else
      var rest, e := Survivors(q[..|q| - 1], drop), q[|q| - 1];
      if e.hash in drop then rest else rest + [e]
  }

  lemma {:induction false} OfferFits(q: seq<Entry>, e: Entry, max: nat)
    requires Fit(q, max)
    ensures Fit(Offer(q, e, max).1, max)
    ensures var q' := Offer(q, e, max).1;
      && Hashes(q') == (if q' == q then Hashes(q)
                        else if |q'| > |q| then Hashes(q) + {e.hash}
                        else Hashes(q) - {q[HolderOf(q, e.sn).value].hash} + {e.hash})
      && GatedSlots(q') == if q' != q && e.gated then GatedSlots(q) + {e.sn} else GatedSlots(q)
  {
    var q' := Offer(q, e, max).1;
    forall i | 0 <= i < |q| ensures q[i].hash in Hashes(q) && (q[i].gated ==> q[i].sn in GatedSlots(q)) {}
    if e.hash !in Hashes(q) {
      var rival := if e.gated then HolderOf(q, e.sn) else None;
      if rival.Some? {
        Replace(q, rival.value, e);
      } else if |q| < max {
        assert forall x :: x in q' <==> x in q || x == e;
        assert e in q';
        assert Hashes(q') == Hashes(q) + {e.hash};
      }
    }
  }

  lemma {:induction false} Replace(q: seq<Entry>, i: nat, e: Entry)
    requires DistinctHashes(q) && DistinctSlots(q) && i < |q|
    requires q[i].gated && e.gated && q[i].sn == e.sn && e.hash !in Hashes(q)
    ensures DistinctHashes(q[i := e]) && DistinctSlots(q[i := e])
    ensures Hashes(q[i := e]) == Hashes(q) - {q[i].hash} + {e.hash}
    ensures GatedSlots(q[i := e]) == GatedSlots(q)
  {
    var q' := q[i := e];
    forall x | 0 <= x < |q| ensures q[x].hash in Hashes(q) && (x != i ==> q'[x] == q[x] && q[x] in q') {}
    assert q'[i] == e && q[i] in q;
    forall h | h in Hashes(q) && h != q[i].hash ensures h in Hashes(q') {
      var x :| 0 <= x < |q| && q[x].hash == h;
      assert q'[x] in q';
    }
    forall h | h in Hashes(q') ensures h in Hashes(q) - {q[i].hash} + {e.hash} {
      var x :| 0 <= x < |q'| && q'[x].hash == h;
    }
    forall n | n in GatedSlots(q) ensures n in GatedSlots(q') {
      var x :| 0 <= x < |q| && q[x].gated && q[x].sn == n;
      assert q'[x] in q';
    }
    forall n | n in GatedSlots(q') ensures n in GatedSlots(q) {
      var x :| 0 <= x < |q'| && q'[x].gated && q'[x].sn == n;
      assert q[x] in q;
    }
  }

  /** The survivors of a drop, all of them. */
  lemma {:induction false} SurvivorsAre(q: seq<Entry>, drop: set<Hash>)
    ensures forall e :: e in Survivors(q, drop) <==> e in q && e.hash !in drop
    ensures |Survivors(q, drop)| <= |q|
    decreases |q|
  {
    if q != [] {
      assert q == q[..|q| - 1] + [q[|q| - 1]];
      SurvivorsAre(q[..|q| - 1], drop);
    }
  }

  lemma {:induction false} SurvivorsKeep(q: seq<Entry>, drop: set<Hash>)
    ensures forall e :: e in Survivors(q, drop) <==> e in q && e.hash !in drop
    ensures |Survivors(q, drop)| <= |q|
    ensures DistinctHashes(q) ==> DistinctHashes(Survivors(q, drop))
    ensures DistinctSlots(q) ==> DistinctSlots(Survivors(q, drop))
    decreases |q|
  {
    SurvivorsAre(q, drop);
    if q != [] {
      var init := q[..|q| - 1];
      SurvivorsKeep(init, drop);
      var rest := Survivors(init, drop);
      forall i | 0 <= i < |rest| ensures exists x :: 0 <= x < |init| && init[x] == rest[i] {
        assert rest[i] in init;
      }
    }
  }

  lemma {:induction false} ScanStep(q: seq<Entry>, drop: set<Hash>, i: nat)
    requires DistinctHashes(q) && DistinctSlots(q) && i < |q|
    ensures var e, kept, rest := q[i], Survivors(q[..i], drop), q[i + 1..];
      && Survivors(q[..i + 1], drop) == (if e.hash in drop then kept else kept + [e])
      && Hashes(q[i..]) == {e.hash} + Hashes(rest) && Hashes(kept + [e]) == Hashes(kept) + {e.hash}
      && e.hash !in Hashes(kept) + Hashes(rest)
  {
    var e, kept, rest := q[i], Survivors(q[..i], drop), q[i + 1..];
    assert q[..i + 1][..i] == q[..i] && q[i..] == [e] + rest;
    SurvivorsKeep(q[..i], drop);
    forall x | x in q[..i] || x in rest ensures x.hash != e.hash {
      var j :| 0 <= j < |q| && j != i && q[j] == x;
    }
  }

  lemma {:induction false} ScanSlots(q: seq<Entry>, drop: set<Hash>, i: nat)
    requires DistinctHashes(q) && DistinctSlots(q) && i < |q|
    ensures var e, kept, rest := q[i], Survivors(q[..i], drop), q[i + 1..];
      var own := if e.gated then {e.sn} else {};
      && GatedSlots(q[i..]) == own + GatedSlots(rest) && GatedSlots(kept + [e]) == GatedSlots(kept) + own
      && own !! GatedSlots(kept) + GatedSlots(rest)
  {
    var e, kept, rest := q[i], Survivors(q[..i], drop), q[i + 1..];
    assert q[i..] == [e] + rest;
    SurvivorsKeep(q[..i], drop);
    forall x | (x in q[..i] || x in rest) && x.gated && e.gated ensures x.sn != e.sn {
      var j :| 0 <= j < |q| && j != i && q[j] == x;
    }
  }

  ghost function HashIndex(q: seq<Entry>, drop: set<Hash>, i: nat): (r: set<Hash>)
    requires i <= |q|
  {
    Hashes(Survivors(q[..i], drop)) + Hashes(q[i..])
  }

  ghost function SlotIndex(q: seq<Entry>, drop: set<Hash>, i: nat): (r: set<SenderNonce>)
    requires i <= |q|
  {
    GatedSlots(Survivors(q[..i], drop)) + GatedSlots(q[i..])
  }

  /** What the two indexes become when the scan of Forget moves past entry i. */
  lemma {:induction false} ScanIndexes(q: seq<Entry>, drop: set<Hash>, i: nat)
    requires DistinctHashes(q) && DistinctSlots(q) && i < |q|
    ensures HashIndex(q, drop, i + 1) == HashIndex(q, drop, i) - if q[i].hash in drop then {q[i].hash} else {}
    ensures SlotIndex(q, drop, i + 1) ==
      SlotIndex(q, drop, i) - if q[i].hash in drop && q[i].gated then {q[i].sn} else {}
  {
    ScanStep(q, drop, i);
    ScanSlots(q, drop, i);
  }

  // --------------------------------------------------- any interleaving of calls

  /** The critical sections of concurrent callers, in the order the lock admits them. */
  datatype Section = Offering(e: Entry) | Dropping(hashes: set<Hash>)

  ghost function After(sections: seq<Section>, max: nat): (q: seq<Entry>) {
    if sections == [] then []
    else
      var q := After(sections[..|sections| - 1], max);
      match sections[|sections| - 1]
      case Offering(e) => Offer(q, e, max).1
      case Dropping(hs) => Survivors(q, hs)
  }

  lemma {:induction false} EveryInterleavingFits(sections: seq<Section>, max: nat)
    ensures Fit(After(sections, max), max)
    decreases |sections|
  {
    if sections != [] {
      var init := sections[..|sections| - 1];
      EveryInterleavingFits(init, max);
      match sections[|sections| - 1]
      case Offering(e) => OfferFits(After(init, max), e, max);
      case Dropping(hs) => SurvivorsKeep(After(init, max), hs);
    }
  }

  class Pool {
    var txs: seq<Entry>
    var known: set<Hash>
    var byNonce: set<SenderNonce>
    const max: nat

    /** The two indexes say exactly what the queue holds, and nothing is queued twice. */
    ghost predicate Consistent()
      reads this
    {
      && known == Hashes(txs)
      && byNonce == GatedSlots(txs)
      && Fit(txs, max)
    }

    constructor (limit: int)
      ensures Consistent() && txs == []
      ensures max == if limit <= 0 then 4096 else limit
    {
      txs, known, byNonce := [], {}, {};
      max := if limit <= 0 then 4096 else limit;
    }

    /** The part of Add that runs under the lock. */
    method Enqueue(raw: Raw, hash: Hash, sn: SenderNonce, gated: bool) returns (r: Added)
      requires Consistent()
      modifies this
      ensures Consistent()
      ensures (r, txs) == Offer(old(txs), Entry(raw, hash, sn, gated), max)
    {
      OfferFits(txs, Entry(raw, hash, sn, gated), max);
      if hash in known {
        return Refused(KnownTx);
      }
      if gated && sn in byNonce {
        var i := 0;
        while i < |txs|
          invariant 0 <= i <= |txs|
          invariant forall x :: 0 <= x < i && txs[x].gated ==> txs[x].sn != sn
          invariant unchanged(this)
        {
          if txs[i].gated && txs[i].sn == sn {
            assert HolderOf(txs, sn) == Some(i);
            known := known - {txs[i].hash};
            txs := txs[i := txs[i].(raw := raw, hash := hash)];
            known := known + {hash};
            return Accepted(hash);
          }
          i := i + 1;
        }
        // The index never claims a slot that no entry holds: the repair the source makes here is dead code.
        assert false;
      }
      if |txs| >= max {
        return Refused(PoolFull);
      }
      txs := txs + [Entry(raw, hash, sn, gated)];
      known := known + {hash};
      if gated {
        byNonce := byNonce + {sn};
      }
      return Accepted(hash);
    }

    method Add(raw: Raw, gate: bool, current: Option<nat>) returns (r: Added)
      requires Consistent()
      modifies this
      ensures Consistent()
      ensures Screen(raw, gate, current).Some? ==> r == Refused(Screen(raw, gate, current).value) && txs == old(txs)
      ensures Screen(raw, gate, current).None? ==> (r, txs) == Offer(old(txs), EntryOf(raw, gate, current), max)
    {
      if sizeOf(raw) > MAX_TX_SIZE { return Refused(Oversized); }
      var tx := decode(raw);
      if tx.None? { return Refused(Undecodable); }
      if tx.value.deposit { return Refused(DepositType); }
      var sn := noSlot;
      if gate {
        if tx.value.sender.None? { return Refused(InvalidSender); }
        if current.None? { return Refused(NonceUnread); }
        if tx.value.nonce < current.value { return Refused(NonceTooLow); }
        sn := SenderNonce(tx.value.sender.value, tx.value.nonce);
      }
      r := Enqueue(raw, tx.value.hash, sn, gate);
    }

    /** Drops transactions by hash: the survivors keep their order, and both indexes follow. */
    method Forget(hashes: seq<Hash>)
      requires Consistent()
      modifies this
      ensures Consistent()
      ensures txs == Survivors(old(txs), set h | h in hashes)
    {
      var drop := set h | h in hashes;
      var kept := [];
      assert txs[0..] == txs;
      var i := 0;
      while i < |txs|
        invariant 0 <= i <= |txs| && txs == old(txs)
        invariant kept == Survivors(txs[..i], drop)
        invariant known == HashIndex(txs, drop, i) && byNonce == SlotIndex(txs, drop, i)
      {
        var e := txs[i];
        ScanIndexes(txs, drop, i);
        assert txs[..i + 1][..i] == txs[..i];
        if e.hash in drop {
          known := known - {e.hash};
          if e.gated { byNonce := byNonce - {e.sn}; }
        } else {
          kept := kept + [e];
        }
        i := i + 1;
      }
      assert txs[..|txs|] == txs && txs[|txs|..] == [];
      SurvivorsKeep(txs, drop);
      txs := kept;
    }

    /** The raw bytes queued under a hash, if any. */
    method Get(hash: Hash) returns (r: Option<Raw>)
      requires Consistent()
      ensures r.Some? <==> hash in Hashes(txs)
      ensures r.Some? ==> exists e :: e in txs && e.hash == hash && e.raw == r.value
    {
      if hash !in known {
        return None;
      }
      for i := 0 to |txs|
        invariant forall x :: 0 <= x < i ==> txs[x].hash != hash
      {
        if txs[i].hash == hash {
          return Some(txs[i].raw);
        }
      }
      assert false;
      return None;
    }

    /** The queued transactions in FIFO order. */
    method Pending() returns (out: seq<Raw>)
      ensures |out| == |txs| && forall i :: 0 <= i < |txs| ==> out[i] == txs[i].raw
    {
      out := [];
      for i := 0 to |txs|
        invariant |out| == i && forall x :: 0 <= x < i ==> out[x] == txs[x].raw
      {
        out := out + [txs[i].raw];
      }
    }
  }
}
