/**
  What is in the pool and why: which transactions are let in, where an accepted one goes,
  and how every queued entry came to be there, whatever order callers ran in.
 */
module MempoolMeaning {
  import opened Options
  import opened Hashing
  import opened Filtering
  import opened Mempool

  /** A transaction that decodes, is small enough and is no deposit. */
  predicate Plain(raw: Raw) {
    sizeOf(raw) <= 131072 && decode(raw).Some? && !decode(raw).value.deposit
  }

  /** Where a nonce reader is at hand, the sender is known and its nonce has not passed the transaction's. */
  predicate Timely(tx: Tx, gate: bool, current: Option<nat>) {
    gate ==> tx.sender.Some? && current.Some? && current.value <= tx.nonce
  }

  /** A transaction is let through exactly if it is plain and timely. */
  lemma {:induction false} ScreenedExactly(raw: Raw, gate: bool, current: Option<nat>)
    ensures Screen(raw, gate, current).None? <==> Plain(raw) && Timely(decode(raw).value, gate, current)
  {
  }

  /** An entry speaks for its transaction: its own hash, and its own account slot where a nonce was read. */
  ghost predicate SpeaksFor(e: Entry) {
    && Plain(e.raw) && e.hash == decode(e.raw).value.hash
    && (e.gated ==> decode(e.raw).value.sender == Some(e.sn.sender) && decode(e.raw).value.nonce == e.sn.nonce)
  }

  lemma {:induction false} ScreenedSpeaks(raw: Raw, gate: bool, current: Option<nat>)
    requires Screen(raw, gate, current).None?
    ensures var e := EntryOf(raw, gate, current); SpeaksFor(e) && e.raw == raw && e.gated == gate
  {
  }

  // ------------------------------------------------------------------------ offering

  /** The place of the gated entry that competes for the same account slot. */
  ghost predicate RivalAt(q: seq<Entry>, e: Entry, i: nat) {
    i < |q| && q[i].gated && e.gated && q[i].sn == e.sn
  }

  /** The entry stands in its rival's place, or last where it has none, and every other entry stands where it stood. */
  ghost predicate PlacedIn(q: seq<Entry>, e: Entry, q': seq<Entry>) {
    && |q'| == (if exists i: nat :: RivalAt(q, e, i) then |q| else |q| + 1)
    && (forall i: nat :: i < |q| ==> q'[i] == if RivalAt(q, e, i) then e else q[i])
    && (|q'| > |q| ==> q'[|q|] == e)
  }

  /**
    An offer is refused exactly if its hash is queued, or it has no rival and the pool is
    full.  Accepted, it takes its rival's place, or the last one; no other place changes.
   */
  lemma {:induction false} OfferedExactly(q: seq<Entry>, e: Entry, max: nat)
    requires Fit(q, max)
    ensures var (r, q') := Offer(q, e, max);
      && (r == Refused(KnownTx) <==> exists i :: 0 <= i < |q| && q[i].hash == e.hash)
      && (r == Refused(PoolFull) <==>
            (forall i :: 0 <= i < |q| ==> q[i].hash != e.hash) && |q| == max && forall i: nat :: !RivalAt(q, e, i))
      && (r == Accepted(e.hash) || (r.Refused? && q' == q))
    ensures Offer(q, e, max).0.Accepted? ==> PlacedIn(q, e, Offer(q, e, max).1)
  {
    assert e.hash in Hashes(q) <==> exists i :: 0 <= i < |q| && q[i].hash == e.hash;
    var rival := if e.gated then HolderOf(q, e.sn) else None;
    if rival.Some? { assert RivalAt(q, e, rival.value); }
  }

  // ---------------------------------------------------------------------- forgetting

  function Kept(q: seq<Entry>, drop: set<Hash>): (r: seq<Option<Entry>>)
    ensures |r| == |q| && forall k :: 0 <= k < |q| ==> r[k] == if q[k].hash in drop then None else Some(q[k])
  {
    seq(|q|, k requires 0 <= k < |q| => if q[k].hash in drop then None else Some(q[k]))
  }

  /** Forgetting keeps exactly the entries not named, in their order. */
  lemma {:induction false} SurvivorsInOrder(q: seq<Entry>, drop: set<Hash>)
    ensures Gathers(Kept(q, drop), Survivors(q, drop))
    decreases |q|
  {
    if q != [] {
      var init := q[..|q| - 1];
      SurvivorsInOrder(init, drop);
      GathersNext(Kept(init, drop), Survivors(init, drop), Kept(q, drop), Survivors(q, drop));
    }
  }

  // ------------------------------------------------------------------ any interleaving

  /** Nothing from section i on named the hash. */
  ghost predicate NotDropped(sections: seq<Section>, i: nat, h: Hash) {
    forall j :: i <= j < |sections| && sections[j].Dropping? ==> h !in sections[j].hashes
  }

  /** The entry was offered at section i, and nothing since named its hash. */
  ghost predicate Came(sections: seq<Section>, e: Entry, i: nat) {
    i < |sections| && sections[i] == Offering(e) && NotDropped(sections, i, e.hash)
  }

  lemma {:induction false} OfferedOnly(q: seq<Entry>, e: Entry, max: nat, x: Entry)
    requires x in Offer(q, e, max).1
    ensures x == e || x in q
  {
  }

  /** Whatever order critical sections ran in, a queued entry was offered, and not dropped since. */
  lemma {:induction false} EveryEntryCame(sections: seq<Section>, max: nat, e: Entry) returns (i: nat)
    requires e in After(sections, max)
    ensures Came(sections, e, i)
    decreases |sections|
  {
    var n := |sections| - 1;
    var init := sections[..n];
    var q := After(init, max);
    if sections[n] == Offering(e) {
      i := n;
    } else {
      if sections[n].Offering? {
        OfferedOnly(q, sections[n].e, max, e);
      } else {
        SurvivorsAre(q, sections[n].hashes);
      }
      i := EveryEntryCame(init, max, e);
      assert forall j :: 0 <= j < n ==> sections[j] == init[j];
    }
  }

  /** Where callers offer what was screened, the queue holds nothing else, whatever order they ran in. */
  lemma {:induction false} EveryEntrySpeaks(sections: seq<Section>, max: nat, e: Entry)
    requires e in After(sections, max)
    requires forall i :: 0 <= i < |sections| && sections[i].Offering? ==> SpeaksFor(sections[i].e)
    ensures SpeaksFor(e)
  {
    var i := EveryEntryCame(sections, max, e);
  }
}
