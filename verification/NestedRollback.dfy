/**
  Nested rollback: ledger calls, marks and rollbacks to any mark still open, in any
  order.  However they are interleaved, every open mark can be returned to exactly, and
  the ledger is always the one the surviving calls lead to.
 */
module NestedRollback {
  import opened Geometry
  import opened DriveSpec
  import opened DriveImage
  import opened UndoLog
  import opened LedgerSpec
  import opened GuestSpec
  import opened GuestLedger
  import opened GuestRouter

  /** A rollback names an open mark by its depth, counted from the outermost; a mark it does not have is no mark. */
  datatype Step = Do(op: LedgerOp) | Mark | Back(depth: nat)

  /** The ledger now and at each open mark, over values. */
  datatype Worlds = Worlds(now: World, marked: seq<World>)

  ghost function After(ws: Worlds, step: Step): (r: Worlds) {
    match step
    case Do(op) => ws.(now := Apply(ws.now, op))
    case Mark => ws.(marked := ws.marked + [ws.now])
    case Back(d) => if d < |ws.marked| then Worlds(ws.marked[d], ws.marked[..d + 1]) else ws
  }

  ghost function AfterAll(ws: Worlds, steps: seq<Step>): (r: Worlds) {
    if steps == [] then ws else After(AfterAll(ws, steps[..|steps| - 1]), steps[|steps| - 1])
  }

  // ------------------------------------------------------------------ what marks save

  /** What the ledger was at a mark. */
  datatype Saved = Saved(view: View, state: State, log: seq<Undo>)

  /** The journal since a mark takes the ledger back to what it was there. */
  ghost predicate HeldAt(geo: Config, stack: seq<Saved>, now: State, log: seq<Undo>, j: nat)
    requires j < |stack|
  {
    && Shows(geo, stack[j].state.mem, stack[j].view) && Fits(geo, stack[j].view)
    && Undoes(stack[j].state, stack[j].log, now, log)
  }

  ghost predicate Held(geo: Config, stack: seq<Saved>, now: State, log: seq<Undo>) {
    forall j: nat {:trigger HeldAt(geo, stack, now, log, j)} :: j < |stack| ==> HeldAt(geo, stack, now, log, j)
  }

  ghost predicate Under(stack: seq<Saved>, i: nat, j: nat)
    requires i < |stack| && j < |stack|
  {
    Undoes(stack[i].state, stack[i].log, stack[j].state, stack[j].log)
  }

  /** Each mark can be returned to from every mark inside it. */
  ghost predicate Nests(stack: seq<Saved>) {
    forall i: nat, j: nat {:trigger Under(stack, i, j)} :: i <= j < |stack| ==> Under(stack, i, j)
  }

  lemma {:induction false} HeldOn(geo: Config, stack: seq<Saved>, mid: State, midLog: seq<Undo>, now: State, log: seq<Undo>)
    requires Held(geo, stack, mid, midLog) && Undoes(mid, midLog, now, log)
    ensures Held(geo, stack, now, log)
  {
    forall j: nat | j < |stack| ensures HeldAt(geo, stack, now, log, j) {
      assert HeldAt(geo, stack, mid, midLog, j);
      UndoesTrans(stack[j].state, stack[j].log, mid, midLog, now, log);
    }
  }

  lemma {:induction false} MarkHeld(geo: Config, stack: seq<Saved>, v: View, now: State, log: seq<Undo>)
    requires Held(geo, stack, now, log) && Nests(stack) && Shows(geo, now.mem, v) && Fits(geo, v)
    ensures var more := stack + [Saved(v, now, log)]; Held(geo, more, now, log) && Nests(more)
  {
    var more := stack + [Saved(v, now, log)];
    UndoesNothing(now, log);
    forall j: nat | j < |more| ensures HeldAt(geo, more, now, log, j) {
      if j < |stack| { assert HeldAt(geo, stack, now, log, j); }
    }
    forall i: nat, j: nat | i <= j < |more| ensures Under(more, i, j) {
      if j < |stack| {
        assert Under(stack, i, j);
      } else if i < |stack| {
        assert HeldAt(geo, stack, now, log, i);
      }
    }
  }

  lemma {:induction false} BackHeld(geo: Config, stack: seq<Saved>, d: nat, now: State, log: seq<Undo>, back: State)
    requires Held(geo, stack, now, log) && Nests(stack) && d < |stack| && Same(back, stack[d].state)
    ensures Held(geo, stack[..d + 1], back, stack[d].log) && Nests(stack[..d + 1])
  {
    var left := stack[..d + 1];
    SameTrans(back, stack[d].state, stack[d].state);
    forall j: nat | j < |left| ensures HeldAt(geo, left, back, stack[d].log, j) {
      assert HeldAt(geo, stack, now, log, j) && Under(stack, j, d);
      UndoesSame(stack[j].state, stack[j].log, stack[d].state, back, stack[d].log);
    }
    forall i: nat, j: nat | i <= j < |left| ensures Under(left, i, j) {
      assert Under(stack, i, j);
    }
  }

  // ------------------------------------------------------------------------- running

  /** The marks are the journal lengths saved, and the worlds are the ones saved. */
  ghost predicate Agrees(geo: Config, marks: seq<nat>, stack: seq<Saved>, worlds: seq<World>) {
    && |marks| == |stack| == |worlds|
    && (forall j :: 0 <= j < |stack| ==> marks[j] == |stack[j].log|)
    && (forall j :: 0 <= j < |stack| ==> worlds[j] == WorldOf(geo, stack[j].view, stack[j].state.ram))
  }

  /** One step: afterwards every mark still open can be returned to. */
  method Run(ledger: Ledger, step: Step, marks: seq<nat>, ghost stack: seq<Saved>, ghost ws: Worlds)
    returns (marks': seq<nat>, ghost stack': seq<Saved>)
    requires ledger.Valid() && ledger.Seen() == ws.now
    requires Held(ledger.drive.cfg, stack, ledger.Now(), ledger.Log()) && Nests(stack)
    requires Agrees(ledger.drive.cfg, marks, stack, ws.marked)
    modifies ledger, ledger.drive, ledger.drive.store.data, ledger.journal
    ensures ledger.Valid() && ledger.Seen() == After(ws, step).now
    ensures Held(ledger.drive.cfg, stack', ledger.Now(), ledger.Log()) && Nests(stack')
    ensures Agrees(ledger.drive.cfg, marks', stack', After(ws, step).marked)
    ensures |stack| > 0 ==> |stack'| > 0 && stack'[0] == stack[0]
    ensures step.Back? && step.depth < |stack| ==>
      ledger.drive.store.Bytes() == stack[step.depth].state.mem && ledger.Log() == stack[step.depth].log
  {
    marks', stack' := marks, stack;
    ghost var mid, log := ledger.Now(), ledger.Log();
    match step
    case Do(op) =>
      ApplyOp(ledger, op);
      HeldOn(ledger.drive.cfg, stack, mid, log, ledger.Now(), ledger.Log());
    case Mark =>
      MarkHeld(ledger.drive.cfg, stack, ledger.drive.view, mid, log);
      marks' := marks + [|ledger.journal.entries|];
      stack' := stack + [Saved(ledger.drive.view, mid, log)];
    case Back(d) =>
      if d < |marks| {
        assert HeldAt(ledger.drive.cfg, stack, mid, log, d);
        ledger.RestoreTo(marks[d], stack[d].view, stack[d].state, stack[d].log);
        BackHeld(ledger.drive.cfg, stack, d, mid, log, ledger.Now());
        marks', stack' := marks[..d + 1], stack[..d + 1];
      }
  }

  /**
    Any interleaving of ledger calls, marks and rollbacks: the ledger ends as the calls
    that were not rolled back leave it, and the journal can still take it back to every
    mark left open and to where it began, exactly.
   */
  method RunAll(ledger: Ledger, steps: seq<Step>) returns (marks: seq<nat>, ghost stack: seq<Saved>)
    requires ledger.Valid()
    modifies ledger, ledger.drive, ledger.drive.store.data, ledger.journal
    ensures ledger.Valid() && ledger.Seen() == AfterAll(Worlds(old(ledger.Seen()), [old(ledger.Seen())]), steps).now
    ensures Held(ledger.drive.cfg, stack, ledger.Now(), ledger.Log())
    ensures Agrees(ledger.drive.cfg, marks, stack, AfterAll(Worlds(old(ledger.Seen()), [old(ledger.Seen())]), steps).marked)
    ensures |stack| > 0 && stack[0] == Saved(old(ledger.drive.view), old(ledger.Now()), old(ledger.Log()))
  {
    ghost var start := Worlds(ledger.Seen(), [ledger.Seen()]);
    ghost var first := Saved(ledger.drive.view, ledger.Now(), ledger.Log());
    MarkHeld(ledger.drive.cfg, [], first.view, first.state, first.log);
    assert [] + [first] == [first];
    marks, stack := [|ledger.journal.entries|], [first];
    for i := 0 to |steps|
      invariant ledger.Valid() && ledger.Seen() == AfterAll(start, steps[..i]).now
      invariant Held(ledger.drive.cfg, stack, ledger.Now(), ledger.Log()) && Nests(stack)
      invariant Agrees(ledger.drive.cfg, marks, stack, AfterAll(start, steps[..i]).marked)
      invariant |stack| > 0 && stack[0] == first
    {
      assert steps[..i + 1][..i] == steps[..i];
      marks, stack := Run(ledger, steps[i], marks, stack, AfterAll(start, steps[..i]));
    }
    assert steps[..|steps|] == steps;
  }
}
