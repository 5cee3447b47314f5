/**
  When a simulation foretells the run.  It tells reverts and faults apart from the rest,
  knows nothing of the charge, and answers for a handler that rejects as for one that
  accepts.
 */
module GuestSimulation {
  import opened Options
  import opened LedgerSpec
  import opened LedgerLaws
  import opened Handlers
  import opened GuestSpec
  import opened GuestValue

  /** The answer agrees with the run exactly where the handler did not reject and, had it accepted, the charge goes through. */
  lemma {:induction false} SimulationForetells(base: World, mark: World, r: Ran, charge: Option<GuestSpec.Charged>)
    ensures (Simulated(r.end).0 <==> Finish(base, mark, r, charge).1.outcome.Accepted?) <==>
      !r.end.Rejects? && (r.end.Accepts? ==> ChargeIf(r.w, charge).Did?)
  {
    match r.end
    case Accepts =>
    case Fails(why) => assert !Commit(base, r.w, charge, Faulted, r.out + [Report(FailTag, why)]).1.outcome.Accepted?;
    case Reverts(why) =>
    case Rejects(_) =>
    case Throws(_) =>
  }

  /** A handler that rejects is simulated as a success, and run for real leaves nothing but a rejection. */
  lemma {:induction false} RejectionLooksAccepted(w: World, c: GuestSpec.Charged)
    ensures var r := Ran(w, [], Rejects("refused"));
      && Simulated(r.end) == (true, Report(ReturnTag, ""))
      && Finish(w, w, r, Some(c)) == (w, REJECTED)
  {
  }

  /** An admitted transaction: simulating it foretells whether it is accepted, with the same exceptions and no others. */
  lemma {:induction false} SignedForetold(s: Setup, w: World, b: Block, i: Input)
    requires i.Signed? && Admitted(s, w, i)
    ensures var r, c := Dispatched(w, SignedCtx(s, b, i)), GuestSpec.Charged.Charged(i.signer.value, w.fee);
      (Simulated(r.end).0 <==> Advance(s, w, b, i).1.outcome.Accepted?) <==>
        !r.end.Rejects? && (r.end.Accepts? ==> Charge(r.w, c.who, c.fee).Did?)
  {
    var r, c := Dispatched(w, SignedCtx(s, b, i)), GuestSpec.Charged.Charged(i.signer.value, w.fee);
    SimulationForetells(w, w, r, Some(c));
  }

  /** The built-in handlers never reject: of those, a simulation is wrong only about a charge that cannot be written. */
  lemma {:induction false} BuiltInsForetold(s: Setup, w: World, b: Block, i: Input)
    requires Sane(w) && BuiltInsOnly() && i.Signed? && Admitted(s, w, i)
    ensures var r := Dispatched(w, SignedCtx(s, b, i));
      (Simulated(r.end).0 <==> Advance(s, w, b, i).1.outcome.Accepted?) <==>
        (r.end.Accepts? ==> Charge(r.w, i.signer.value, w.fee).Did?)
  {
    SignedForetold(s, w, b, i);
    NeverFails(w, SignedCtx(s, b, i));
  }
}
