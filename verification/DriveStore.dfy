/**
  The store under the drive and the table algorithms over it: lookup, insert and remove
  as loops that read and write slots of the image in place, each write noting its
  before-image in the journal.
 */
module DriveStore {
  import opened Options
  import opened ByteCodec
  import opened RobinHood
  import opened DriveTable
  import opened UndoLog

  class Journal {
    var entries: seq<Undo>

    constructor ()
      ensures entries == []
    {
      entries := [];
    }

    method Note(u: Undo)
      modifies this
      ensures entries == old(entries) + [u]
    {
      entries := entries + [u];
    }

    method Commit()
      modifies this
      ensures entries == []
    {
      entries := [];
    }
  }

  /** A drive image that journals what each write overwrites. */
  class Store {
    const data: array<Byte>
    const journal: Journal

    constructor (length: nat, journal: Journal)
      ensures fresh(data) && data[..] == Zeros(length) && this.journal == journal
    {
      data := new Byte[length](_ => 0);
      this.journal := journal;
    }

    ghost function Bytes(): (b: seq<Byte>)
      reads data
    {
      data[..]
    }

    ghost function Log(): (l: seq<Undo>)
      reads journal
    {
      journal.entries
    }

    method ReadAt(off: nat, len: nat) returns (b: seq<Byte>)
      requires off + len <= data.Length
      ensures b == Bytes()[off..off + len]
    {
      b := data[off..off + len];
    }

    /** The write below the journal. */
    method Put(off: nat, b: seq<Byte>)
      requires off + |b| <= data.Length
      modifies data
      ensures Bytes() == Splice(old(Bytes()), off, b)
    {
      for k := 0 to |b|
        invariant forall x :: 0 <= x < data.Length ==> data[x] == if off <= x < off + k then b[x - off] else old(data[x])
      {
        data[off + k] := b[k];
      }
    }

    method WriteAt(off: nat, b: seq<Byte>)
      requires off + |b| <= data.Length
      modifies data, journal
      ensures Bytes() == Splice(old(Bytes()), off, b)
      ensures Logged(old(Bytes()), old(Log()), Bytes(), Log())
    {
      var before := ReadAt(off, |b|);
      journal.Note(Image(off, before));
      Put(off, b);
      LoggedWrite(old(Bytes()), old(Log()), off, b);
    }

    // ------------------------------------------------------------------ counters

    method CounterAt(off: nat) returns (n: nat)
      requires off + 8 <= data.Length
      ensures n == FromLE(Bytes()[off..off + 8]) < Pow256(EIGHT)
    {
      var b := ReadAt(off, 8);
      FromLEBound(b);
      n := FromLE(b);
    }

    method SetCounter(off: nat, n: nat)
      requires off + 8 <= data.Length
      modifies data, journal
      ensures Bytes() == Splice(old(Bytes()), off, LE(EIGHT, n))
      ensures Logged(old(Bytes()), old(Log()), Bytes(), Log())
    {
      WriteAt(off, LE(EIGHT, n));
    }

    // --------------------------------------------------------------------- slots

    method ReadSlot(t: Table, i: nat) returns (slot: seq<Byte>)
      requires Holds(Bytes(), t) && i < t.capacity
      ensures slot == SlotAt(Bytes(), t, i)
    {
      AtIsProduct(t, i);
      AtOrdered(t, i, t.capacity);
      slot := ReadAt(t.base + t.slotSize * i, t.slotSize);
    }

    method WriteSlot(t: Table, i: nat, slot: seq<Byte>)
      requires Holds(Bytes(), t) && i < t.capacity && |slot| == t.slotSize
      modifies data, journal
      ensures Holds(Bytes(), t) && Within(t, old(Bytes()), Bytes()) && Counter(Bytes(), t) == old(Counter(Bytes(), t))
      ensures SlotsOf(Bytes(), t) == old(SlotsOf(Bytes(), t))[i := Abs(t, slot)]
      ensures Logged(old(Bytes()), old(Log()), Bytes(), Log())
    {
      SlotWritten(Bytes(), t, i, slot);
      AtIsProduct(t, i);
      WriteAt(t.base + t.slotSize * i, slot);
    }

    /** Moves the live counter by one. */
    method Bump(t: Table, step: int)
      requires Holds(Bytes(), t) && 0 <= Counter(Bytes(), t) + step < Pow256(EIGHT)
      modifies data, journal
      ensures Holds(Bytes(), t) && Within(t, old(Bytes()), Bytes())
      ensures SlotsOf(Bytes(), t) == old(SlotsOf(Bytes(), t)) && Counter(Bytes(), t) == old(Counter(Bytes(), t)) + step
      ensures Logged(old(Bytes()), old(Log()), Bytes(), Log())
    {
      var n := CounterAt(t.countOff);
      var moved := n + step;
      CounterWritten(Bytes(), t, moved);
      SetCounter(t.countOff, moved);
    }

    method ProbeIndex(t: Table, h: nat, dist: nat) returns (i: nat)
      requires h < t.capacity && dist < t.capacity
      ensures i == Step(h, dist, t.capacity)
    {
      ModIsWrap(h + dist, t.capacity);
      i := (h + dist) % t.capacity;
    }

    method Displacement(t: Table, slot: seq<Byte>, at: nat) returns (d: nat)
      requires |slot| >= 32 && at < t.capacity
      ensures d == Ahead(Home(t, KeyOf(t, slot)), at, t.capacity)
    {
      var h := Home(t, KeyOf(t, slot));
      ModIsWrap(at + t.capacity - h, t.capacity);
      d := (at + t.capacity - h) % t.capacity;
    }

    /** The probe loop: from the key's home until the key, a free slot, or a record nearer its home. */
    method Search(t: Table, key: Key) returns (found: bool, i: nat, slot: Record)
      requires Holds(Bytes(), t)
      ensures Probe(Bytes(), t, key, 0) == if found then Some(i) else None
      ensures found ==> slot == SlotAt(Bytes(), t, i)
    {
      var h := Home(t, key);
      i, slot := 0, [];
      for dist := 0 to t.capacity
        invariant Probe(Bytes(), t, key, 0) == Probe(Bytes(), t, key, dist)
      {
        i := ProbeIndex(t, h, dist);
        slot := ReadSlot(t, i);
        ProbeStep(Bytes(), t, key, dist, slot);
        if !LiveSlot(t, slot) {
          return false, i, slot;
        }
        if KeyOf(t, slot) == key {
          return true, i, slot;
        }
        var d := Displacement(t, slot, i);
        if d < dist {
          return false, i, slot;
        }
      }
      return false, i, slot;
    }

    /** Finds a key's slot exactly when the table has a record for it. */
    method Lookup(t: Table, key: Key) returns (found: bool, i: nat, slot: Record)
      requires TableOk(Bytes(), t)
      ensures FoundAt(Bytes(), t, key, found, i, slot)
    {
      found, i, slot := Search(t, key);
      ProbeFinds(Bytes(), t, key);
    }

    /** One turn of the insert loop: leave the record here, swap it for one nearer its home, or go on. */
    method PlaceStep(t: Table, carry: Record, dist: nat) returns (placed: bool, next: Record, far: nat)
      requires Holds(Bytes(), t) && Homed(SlotsOf(Bytes(), t))
      requires |carry| == t.slotSize && LiveSlot(t, carry) && dist < t.capacity
      modifies data, journal
      ensures Holds(Bytes(), t) && |next| == t.slotSize && LiveSlot(t, next)
      ensures Turned(old(SlotsOf(Bytes(), t)), SlotsOf(Bytes(), t), Abs(t, carry), dist, placed, Abs(t, next), far)
      ensures Within(t, old(Bytes()), Bytes()) && Counter(Bytes(), t) == old(Counter(Bytes(), t))
      ensures Logged(old(Bytes()), old(Log()), Bytes(), Log())
    {
      var i := ProbeIndex(t, Home(t, KeyOf(t, carry)), dist);
      var slot := ReadSlot(t, i);
      assert SlotsOf(Bytes(), t)[i] == Abs(t, slot);
      if !LiveSlot(t, slot) {
        WriteSlot(t, i, carry);
        return true, carry, dist;
      }
      var d := Displacement(t, slot, i);
      if d < dist {
        WriteSlot(t, i, carry);
        return false, slot, d + 1;
      }
      LoggedNothing(Bytes(), Log());
      return false, carry, dist + 1;
    }

    method Place(t: Table, rec: Record)
      requires Holds(Bytes(), t) && |rec| == t.slotSize && LiveSlot(t, rec)
      requires CanCarry(SlotsOf(Bytes(), t), Abs(t, rec), 0)
      modifies data, journal
      ensures Holds(Bytes(), t) && Within(t, old(Bytes()), Bytes()) && Counter(Bytes(), t) == old(Counter(Bytes(), t))
      ensures SlotsOf(Bytes(), t) == old(InsertFrom(SlotsOf(Bytes(), t), Abs(t, rec), 0))
      ensures Logged(old(Bytes()), old(Log()), Bytes(), Log())
    {
      var placed, carry, dist := false, rec, 0;
      ghost var s, c := SlotsOf(Bytes(), t), Abs(t, rec);
      ghost var end := InsertFrom(s, c, 0);
      LoggedNothing(Bytes(), Log());
      while !placed
        invariant Holds(Bytes(), t) && s == SlotsOf(Bytes(), t)
        invariant |carry| == t.slotSize && LiveSlot(t, carry) && c == Abs(t, carry)
        invariant if placed then s == end else CanCarry(s, c, dist) && InsertFrom(s, c, dist) == end
        invariant Within(t, old(Bytes()), Bytes()) && Counter(Bytes(), t) == old(Counter(Bytes(), t))
        invariant Logged(old(Bytes()), old(Log()), Bytes(), Log())
        decreases !placed, if placed then 0 else Gap(s, Step(c.home, dist, |s|))
      {
        ghost var mem, log, far := Bytes(), Log(), dist;
        placed, carry, dist := PlaceStep(t, carry, dist);
        if !placed {
          TurnGoesOn(s, SlotsOf(Bytes(), t), c, far, Abs(t, carry), dist);
        }
        s, c := SlotsOf(Bytes(), t), Abs(t, carry);
        LoggedTrans(old(Bytes()), old(Log()), mem, log, Bytes(), Log());
      }
    }

    /** Stores a record under a key the table does not have. */
    method Insert(t: Table, rec: Record)
      requires TableOk(Bytes(), t) && |rec| == t.slotSize && LiveSlot(t, rec)
      requires KeyOf(t, rec) !in Records(Bytes(), t) && |Records(Bytes(), t)| < t.limit
      modifies data, journal
      ensures TableOk(Bytes(), t) && Within(t, old(Bytes()), Bytes())
      ensures Records(Bytes(), t) == old(Records(Bytes(), t))[KeyOf(t, rec) := rec]
      ensures Logged(old(Bytes()), old(Log()), Bytes(), Log())
    {
      CounterIsSize(Bytes(), t);
      Place(t, rec);
      ghost var mem, log := Bytes(), Log();
      Bump(t, 1);
      LoggedTrans(old(Bytes()), old(Log()), mem, log, Bytes(), Log());
      Inserted(old(Bytes()), Bytes(), t, rec);
    }

    /** One turn of the remove loop: free the hole, or pull the next record back into it. */
    method CloseStep(t: Table, i: nat) returns (closed: bool, next: nat)
      requires Closing(Bytes(), t, i)
      modifies data, journal
      ensures Holds(Bytes(), t) && Within(t, old(Bytes()), Bytes()) && Counter(Bytes(), t) == old(Counter(Bytes(), t))
      ensures Logged(old(Bytes()), old(Log()), Bytes(), Log())
      ensures closed ==> SlotsOf(Bytes(), t) == old(Closed(Bytes(), t, i))
      ensures !closed ==>
        && Closing(Bytes(), t, next)
        && Closed(Bytes(), t, next) == old(Closed(Bytes(), t, i))
        && Gap(SlotsOf(Bytes(), t), next) < old(Gap(SlotsOf(Bytes(), t), i))
    {
      ghost var mem := Bytes();
      var j := ProbeIndex(t, i, 1);
      var slot := ReadSlot(t, j);
      var d := Displacement(t, slot, j);
      if !LiveSlot(t, slot) || d == 0 {
        CloseEnds(mem, t, i, j);
        WriteSlot(t, i, Zeros(t.slotSize));
        return true, i;
      }
      WriteSlot(t, i, slot);
      CloseOn(mem, Bytes(), t, i, j);
      return false, j;
    }

    method CloseUp(t: Table, at: nat)
      requires Closing(Bytes(), t, at)
      modifies data, journal
      ensures Holds(Bytes(), t) && Within(t, old(Bytes()), Bytes()) && Counter(Bytes(), t) == old(Counter(Bytes(), t))
      ensures SlotsOf(Bytes(), t) == old(Closed(Bytes(), t, at))
      ensures Logged(old(Bytes()), old(Log()), Bytes(), Log())
    {
      var closed, i := false, at;
      LoggedNothing(Bytes(), Log());
      while !closed
        invariant Holds(Bytes(), t)
        invariant closed ==> SlotsOf(Bytes(), t) == old(Closed(Bytes(), t, at))
        invariant !closed ==> Closing(Bytes(), t, i)
        invariant !closed ==> Closed(Bytes(), t, i) == old(Closed(Bytes(), t, at))
        invariant Within(t, old(Bytes()), Bytes()) && Counter(Bytes(), t) == old(Counter(Bytes(), t))
        invariant Logged(old(Bytes()), old(Log()), Bytes(), Log())
        decreases !closed, if closed then 0 else Gap(SlotsOf(Bytes(), t), i)
      {
        ghost var mem, log := Bytes(), Log();
        closed, i := CloseStep(t, i);
        LoggedTrans(old(Bytes()), old(Log()), mem, log, Bytes(), Log());
      }
    }

    /** Deletes the record in a live slot, closing the run behind it. */
    method Remove(t: Table, i: nat)
      requires TableOk(Bytes(), t) && i < t.capacity && SlotsOf(Bytes(), t)[i].Used?
      modifies data, journal
      ensures TableOk(Bytes(), t) && Within(t, old(Bytes()), Bytes())
      ensures Records(Bytes(), t) == Without(old(Records(Bytes(), t)), old(SlotsOf(Bytes(), t)[i].key))
      ensures Logged(old(Bytes()), old(Log()), Bytes(), Log())
    {
      LiveIsCounted(Bytes(), t, i);
      CloseUp(t, i);
      ghost var mem, log := Bytes(), Log();
      Bump(t, -1);
      LoggedTrans(old(Bytes()), old(Log()), mem, log, Bytes(), Log());
      Removed(old(Bytes()), Bytes(), t, i);
    }

    /** Rewrites the record in a slot under the same key. */
    method Rewrite(t: Table, i: nat, slot: Record)
      requires TableOk(Bytes(), t) && i < t.capacity && |slot| == t.slotSize && LiveSlot(t, slot)
      requires SlotsOf(Bytes(), t)[i].Used? && SlotsOf(Bytes(), t)[i].key == KeyOf(t, slot)
      modifies data, journal
      ensures TableOk(Bytes(), t) && Within(t, old(Bytes()), Bytes())
      ensures Records(Bytes(), t) == old(Records(Bytes(), t))[KeyOf(t, slot) := slot]
      ensures Logged(old(Bytes()), old(Log()), Bytes(), Log())
    {
      WriteSlot(t, i, slot);
      Overwritten(old(Bytes()), Bytes(), t, i, KeyOf(t, slot), slot);
    }

    /** Stores a record under its key, in place where a lookup found the key and as a new record where it did not. */
    method Save(t: Table, key: Key, rec: Record, found: bool, i: nat, ghost was: Record)
      requires TableOk(Bytes(), t) && FoundAt(Bytes(), t, key, found, i, was)
      requires |rec| == t.slotSize && LiveSlot(t, rec) && KeyOf(t, rec) == key
      requires found || |Records(Bytes(), t)| < t.limit
      modifies data, journal
      ensures TableOk(Bytes(), t) && Within(t, old(Bytes()), Bytes())
      ensures Records(Bytes(), t) == old(Records(Bytes(), t))[key := rec]
      ensures Logged(old(Bytes()), old(Log()), Bytes(), Log())
    {
      if found {
        Rewrite(t, i, rec);
      } else {
        Insert(t, rec);
      }
    }
  }
}
