/**
  The ledger's undo journal over values: what each restore entry puts back, and what it
  means for a stretch of the journal to undo a change of state.
 */
module UndoLog {
  import opened Options
  import opened ByteCodec
  import opened DriveSpec
  import opened DriveTable

  datatype Metadata = Metadata(name: string, symbol: string, decimals: nat)
  datatype CrossDomain = CrossDomain(l1Messenger: Address, l1MessengerAliased: Address, l1Bridge: Address)
  datatype Status = Successful | Failed

  /** The in-RAM state that rides with the drive. */
  datatype Ram = Ram(
    totals: map<nat, int>, metadata: map<nat, Metadata>, portals: map<Address, nat>, facades: map<Address, nat>,
    fee: nat, crossDomain: Option<CrossDomain>, msgNonce: nat, messages: map<Digest, Status>)

  datatype State = State(mem: seq<Byte>, ram: Ram)

  datatype Undo =
    | Image(off: nat, before: seq<Byte>)
    | Total(id: nat, total: int)
    | Meta(id: nat, metadata: Option<Metadata>)
    | Portal(portal: Address, kind: Option<nat>)
    | Fee(fee: nat)
    | Pair(crossDomain: Option<CrossDomain>)
    | MessageNonce(nonce: nat)
    | Message(hash: Digest, status: Option<Status>)
    | Facade(l2Token: Address)

  function Replace<K(==), V>(m: map<K, V>, k: K, v: Option<V>): (r: map<K, V>) {
    if v.Some? then m[k := v.value] else Without(m, k)
  }

  /** Running one restore closure. */
  function Undone(s: State, u: Undo): (r: State) {
    match u
    case Image(off, before) => if off + |before| <= |s.mem| then s.(mem := Splice(s.mem, off, before)) else s
    case Total(id, total) => s.(ram := s.ram.(totals := s.ram.totals[id := total]))
    case Meta(id, m) => s.(ram := s.ram.(metadata := Replace(s.ram.metadata, id, m)))
    case Portal(p, kind) => s.(ram := s.ram.(portals := Replace(s.ram.portals, p, kind)))
    case Fee(fee) => s.(ram := s.ram.(fee := fee))
    case Pair(cd) => s.(ram := s.ram.(crossDomain := cd))
    case MessageNonce(n) => s.(ram := s.ram.(msgNonce := n))
    case Message(h, st) => s.(ram := s.ram.(messages := Replace(s.ram.messages, h, st)))
    case Facade(l2) => s.(ram := s.ram.(facades := Without(s.ram.facades, l2)))
  }

  /** Undoing entries newest first. */
  function Rewind(s: State, log: seq<Undo>): (r: State)
    decreases |log|
  {
    if log == [] then s else Rewind(Undone(s, log[|log| - 1]), log[..|log| - 1])
  }

  // ---------------------------------------------------------------- observations

  function TotalOf(totals: map<nat, int>, id: nat): (n: int) {
    if id in totals then totals[id] else 0
  }

  /** Two states no getter tells apart: facades are derived from the bytes, and an absent total reads as zero. */
  ghost predicate Same(a: State, b: State) {
    && a.mem == b.mem
    && a.ram.(totals := map[], facades := map[]) == b.ram.(totals := map[], facades := map[])
    && forall id :: TotalOf(a.ram.totals, id) == TotalOf(b.ram.totals, id)
  }

  lemma {:induction false} UndoneSame(a: State, b: State, u: Undo)
    requires Same(a, b)
    ensures Same(Undone(a, u), Undone(b, u))
  {
    forall id ensures TotalOf(Undone(a, u).ram.totals, id) == TotalOf(Undone(b, u).ram.totals, id) {
      assert TotalOf(a.ram.totals, id) == TotalOf(b.ram.totals, id);
    }
  }

  lemma {:induction false} RewindSame(a: State, b: State, log: seq<Undo>)
    requires Same(a, b)
    ensures Same(Rewind(a, log), Rewind(b, log))
    decreases |log|
  {
    if log != [] {
      UndoneSame(a, b, log[|log| - 1]);
      RewindSame(Undone(a, log[|log| - 1]), Undone(b, log[|log| - 1]), log[..|log| - 1]);
    }
  }

  lemma {:induction false} RewindConcat(s: State, a: seq<Undo>, b: seq<Undo>)
    ensures Rewind(s, a + b) == Rewind(Rewind(s, b), a)
    decreases |b|
  {
    if b == [] {
      assert a + b == a;
    } else {
      assert (a + b)[..|a + b| - 1] == a + b[..|b| - 1];
      RewindConcat(Undone(s, b[|b| - 1]), a, b[..|b| - 1]);
    }
  }

  // ------------------------------------------------------------------- undoability

  /** The entries added between two points take the later state back to the earlier one. */
  ghost predicate Undoes(before: State, log: seq<Undo>, after: State, longer: seq<Undo>) {
    && log <= longer
    && Same(Rewind(after, longer[|log|..]), before)
  }

  lemma {:induction false} UndoesNothing(s: State, log: seq<Undo>)
    ensures Undoes(s, log, s, log)
  {
    assert log[|log|..] == [];
  }

  lemma {:induction false} UndoesTrans(a: State, la: seq<Undo>, b: State, lb: seq<Undo>, c: State, lc: seq<Undo>)
    requires Undoes(a, la, b, lb) && Undoes(b, lb, c, lc)
    ensures Undoes(a, la, c, lc)
  {
    assert lc[|la|..] == lb[|la|..] + lc[|lb|..];
    RewindConcat(c, lb[|la|..], lc[|lb|..]);
    RewindSame(Rewind(c, lc[|lb|..]), b, lb[|la|..]);
  }

  lemma {:induction false} UndoesOne(a: State, b: State, log: seq<Undo>, u: Undo)
    requires Same(Undone(b, u), a)
    ensures Undoes(a, log, b, log + [u])
  {
    var tail := (log + [u])[|log|..];
    assert tail == [u] && tail[..0] == [];
    assert Rewind(b, tail) == Rewind(Undone(b, u), []);
  }

  lemma {:induction false} SameTrans(a: State, b: State, c: State)
    requires Same(a, b) && Same(b, c)
    ensures Same(a, c) && Same(c, a)
  {
    forall id ensures TotalOf(a.ram.totals, id) == TotalOf(c.ram.totals, id) {
      assert TotalOf(a.ram.totals, id) == TotalOf(b.ram.totals, id) == TotalOf(c.ram.totals, id);
    }
  }

  /** What undoes a state undoes one no getter tells from it. */
  lemma {:induction false} UndoesSame(a: State, la: seq<Undo>, b: State, c: State, lb: seq<Undo>)
    requires Undoes(a, la, b, lb) && Same(b, c)
    ensures Undoes(a, la, c, lb)
  {
    SameTrans(b, c, c);
    RewindSame(c, b, lb[|la|..]);
    SameTrans(Rewind(c, lb[|la|..]), Rewind(b, lb[|la|..]), a);
  }

  // ---------------------------------------------------------------- drive writes only

  /** The entries added between two points are before-images that take the bytes back. */
  ghost predicate Logged(before: seq<Byte>, log: seq<Undo>, after: seq<Byte>, longer: seq<Undo>) {
    && log <= longer
    && forall ram :: Rewind(State(after, ram), longer[|log|..]) == State(before, ram)
  }

  lemma {:induction false} LoggedNothing(m: seq<Byte>, log: seq<Undo>)
    ensures Logged(m, log, m, log)
  {
    assert log[|log|..] == [];
  }

  lemma {:induction false} LoggedWrite(m: seq<Byte>, log: seq<Undo>, off: nat, b: seq<Byte>)
    requires off + |b| <= |m|
    ensures Logged(m, log, Splice(m, off, b), log + [Image(off, m[off..off + |b|])])
  {
    var u := Image(off, m[off..off + |b|]);
    var tail := (log + [u])[|log|..];
    assert tail == [u] && tail[..0] == [];
    SpliceUndone(m, off, b);
    forall ram ensures Rewind(State(Splice(m, off, b), ram), tail) == State(m, ram) {
      assert Rewind(State(Splice(m, off, b), ram), tail) == Rewind(Undone(State(Splice(m, off, b), ram), u), []);
    }
  }

  lemma {:induction false} LoggedTrans(a: seq<Byte>, la: seq<Undo>, b: seq<Byte>, lb: seq<Undo>, c: seq<Byte>, lc: seq<Undo>)
    requires Logged(a, la, b, lb) && Logged(b, lb, c, lc)
    ensures Logged(a, la, c, lc)
  {
    assert lc[|la|..] == lb[|la|..] + lc[|lb|..];
    forall ram ensures Rewind(State(c, ram), lc[|la|..]) == State(a, ram) {
      RewindConcat(State(c, ram), lb[|la|..], lc[|lb|..]);
    }
  }

  lemma {:induction false} LoggedUndoes(a: seq<Byte>, la: seq<Undo>, b: seq<Byte>, lb: seq<Undo>, ram: Ram)
    requires Logged(a, la, b, lb)
    ensures Undoes(State(a, ram), la, State(b, ram), lb)
  {
  }
}
