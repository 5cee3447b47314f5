/**
  The cross-domain messenger: what relaying a message does to the ledger, and what it
  does to the messenger's obligation to the messages recorded as failed.
 */
module MessengerLaws {
  import opened Options
  import opened DriveSpec
  import opened DriveTable
  import opened UndoLog
  import opened LedgerSpec
  import opened LedgerLaws
  import opened Handlers
  import opened HandlerLaws
  import opened Sums

  /** The message a recorded hash is taken to be the hash of. */
  const preimage: Digest -> CrossDomainMessage

  /** The message is the one its hash is taken for: no other message in use has the same hash. */
  ghost predicate Unambiguous(m: CrossDomainMessage) {
    preimage(MessageHash(m)) == m
  }

  function FailedValues(messages: map<Digest, Status>): (m: map<Digest, nat>) {
    map h | h in messages && messages[h].Failed? :: preimage(h).value
  }

  /** What the messages recorded as failed still carry. */
  ghost function Owed(w: World): (n: nat) {
    Sum(FailedValues(w.messages))
  }

  ghost predicate Solvent(w: World, slack: nat) {
    AccountOf(w, MESSENGER).balance >= Owed(w) + slack
  }

  lemma {:induction false} OwedAfter(messages: map<Digest, Status>, h: Digest, s: Status)
    ensures Sum(FailedValues(messages[h := s])) ==
      Sum(FailedValues(messages)) - At(FailedValues(messages), h) + if s.Failed? then preimage(h).value else 0
  {
    var m := FailedValues(messages);
    if s.Failed? {
      SumSet(m, h, preimage(h).value);
      assert FailedValues(messages[h := s]) == m[h := preimage(h).value];
    } else {
      SumDrop(m, h);
      assert FailedValues(messages[h := s]) == m - {h};
    }
  }

  /** What a relay that is not refused outright does: a dispatch that went through, or a recorded failure. */
  ghost predicate Relays(w: World, r: Ran, m: CrossDomainMessage, cd: CrossDomain) {
    var d, hash := Dispatch(w, m, cd), MessageHash(m);
    if d.end.Accepts? then
      r == Ran(d.w.(messages := d.w.messages[hash := Successful]), Then(d.out, Logged(MESSENGER, Relayed(hash, false))), Accepts)
    else r == Ran(w.(messages := w.messages[hash := Failed]), [Logged(MESSENGER, Relayed(hash, true))], Accepts)
  }

  lemma {:induction false} AcceptedRelays(w: World, ctx: Ctx)
    ensures var r := MessengerAdvance(w, ctx);
      if r.end.Accepts? then
        && w.pair.Some? && decodeRelay(ctx.data).Some?
        && RelayRefusal(w, ctx, decodeRelay(ctx.data).value, w.pair.value).None?
        && Relays(w, r, decodeRelay(ctx.data).value, w.pair.value)
      else r.end.Reverts? && r.out == []
  {
  }

  /** Everything a fair run keeps, but for message statuses. */
  ghost predicate FairBut(w: World, x: World, left: nat, payer: Address) {
    Fair(w, x.(messages := w.messages), left, payer)
  }

  lemma {:induction false} StatusAside(w: World, x: World, messages: map<Digest, Status>, left: nat, payer: Address)
    requires Fair(w, x, left, payer)
    ensures FairBut(w, x.(messages := messages), left, payer)
  {
    assert x.(messages := messages).(messages := w.messages) == x;
  }

  lemma {:induction false} RelayFair(w: World, r: Ran, m: CrossDomainMessage, cd: CrossDomain)
    requires Sane(w) && Relays(w, r, m, cd)
    ensures FairBut(w, r.w, ValueOut(r.out), MESSENGER)
  {
    var d, hash := Dispatch(w, m, cd), MessageHash(m);
    if d.end.Accepts? {
      DispatchFair(w, m, cd);
      DispatchIs(w, m, cd);
      StatusAside(w, d.w, d.w.messages[hash := Successful], 0, MESSENGER);
    } else {
      FairNothing(w, MESSENGER);
      StatusAside(w, w, w.messages[hash := Failed], 0, MESSENGER);
    }
    NoWithdrawals(r.out);
  }

  /**
    A relay keeps the messenger solvent: a first delivery brings the value it may come to
    owe, and a replay owes it already.
   */
  lemma {:induction false} RelaySolvent(w: World, ctx: Ctx, r: Ran, m: CrossDomainMessage, cd: CrossDomain)
    requires Unambiguous(m) && Sane(w) && Relays(w, r, m, cd) && RelayRefusal(w, ctx, m, cd).None?
    requires Solvent(w, ctx.value)
    ensures Solvent(r.w, 0)
  {
    var d, hash := Dispatch(w, m, cd), MessageHash(m);
    OwedAfter(w.messages, hash, if d.end.Accepts? then Successful else Failed);
    if d.end.Accepts? { DispatchFair(w, m, cd); }
  }

  /** A delivered message was not delivered before, and no other message's standing changes. */
  lemma {:induction false} RelayMarks(w: World, ctx: Ctx, r: Ran, m: CrossDomainMessage, cd: CrossDomain, h: Digest)
    requires Sane(w) && Relays(w, r, m, cd) && RelayRefusal(w, ctx, m, cd).None?
    ensures Logged(MESSENGER, Relayed(h, false)) in r.out ==> StatusOf(w, h) != Some(Successful)
    ensures StatusOf(r.w, h) == Some(Successful) <==>
      StatusOf(w, h) == Some(Successful) || Logged(MESSENGER, Relayed(h, false)) in r.out
  {
    var d := Dispatch(w, m, cd);
    if d.end.Accepts? {
      DispatchFair(w, m, cd);
      DispatchQuiet(w, m, cd);
    }
  }

  lemma {:induction false} DispatchQuiet(w: World, m: CrossDomainMessage, cd: CrossDomain)
    requires Dispatch(w, m, cd).end.Accepts?
    ensures Quiet(Dispatch(w, m, cd).out)
  {
  }
}
