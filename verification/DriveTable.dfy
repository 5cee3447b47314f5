/**
  A hash table of the drive as bytes: where its slots and its live counter sit in the
  image, and the abstract table those bytes stand for.
 */
module DriveTable {
  import opened Options
  import opened ByteCodec
  import opened RobinHood
  import opened TableRefinement
  import opened TableRuns

  type Digest = d: seq<Byte> | |d| == 32 witness Zeros(32)

  const keccak256: seq<Byte> -> Digest

  type Key = seq<Byte>
  type Record = seq<Byte>
  type Slots = seq<Slot<Key, Record>>

  /** One of the drive's two tables; the sparse one keys its records by token id and address. */
  datatype Table = Table(base: nat, capacity: nat, slotSize: nat, countOff: nat, limit: nat, seed: seq<Byte>, sparse: bool)
  {
    ghost predicate Sound() {
      && 0 < limit < capacity < Pow256(EIGHT) && slotSize >= 32
      && countOff + 8 <= base
    }

    /** Where slot i begins. */
    ghost function At(i: nat): (off: nat)
      ensures off >= base
    {
      if i == 0 then base else At(i - 1) + slotSize
    }

    ghost function End(): (off: nat)
      ensures off >= base
    {
      At(capacity)
    }
  }

  lemma {:induction false} AtIsProduct(t: Table, i: nat)
    ensures t.At(i) == t.base + t.slotSize * i
  {
    if i > 0 {
      AtIsProduct(t, i - 1);
      assert t.slotSize * i == t.slotSize * (i - 1) + t.slotSize;
    }
  }

  lemma {:induction false} AtOrdered(t: Table, i: nat, j: nat)
    requires i < j
    ensures t.At(i) + t.slotSize <= t.At(j)
    decreases j
  {
    if i < j - 1 { AtOrdered(t, i, j - 1); }
  }

  // ------------------------------------------------------------------ one slot

  /** The bytes of a slot whose being nonzero makes it live: its address. */
  function LiveOff(t: Table): (off: nat) {
    if t.sparse then 4 else 0
  }

  predicate LiveSlot(t: Table, slot: seq<Byte>)
    requires |slot| >= 32
  {
    !IsZero(slot[LiveOff(t)..LiveOff(t) + 20])
  }

  function KeyOf(t: Table, slot: seq<Byte>): (k: Key)
    requires |slot| >= 32
    ensures |k| == if t.sparse then 22 else 20
  {
    if t.sparse then slot[..2] + slot[4..24] else slot[..20]
  }

  function Home(t: Table, key: Key): (h: nat)
    requires t.capacity > 0
    ensures h < t.capacity
  {
    FromLE(keccak256(t.seed + key)[..8]) % t.capacity
  }

  ghost function HomeOf(t: Table): (hm: Key -> nat) {
    k => if t.capacity > 0 then Home(t, k) else 0
  }

  ghost function Abs(t: Table, slot: seq<Byte>): (r: Slot<Key, Record>)
    requires |slot| >= 32 && t.capacity > 0
  {
    if LiveSlot(t, slot) then Used(Home(t, KeyOf(t, slot)), KeyOf(t, slot), slot) else Free
  }

  // ------------------------------------------------------------------ the image

  ghost predicate Holds(mem: seq<Byte>, t: Table) {
    t.Sound() && t.End() <= |mem|
  }

  ghost function SlotAt(mem: seq<Byte>, t: Table, i: nat): (slot: seq<Byte>)
    requires Holds(mem, t) && i < t.capacity
    ensures |slot| == t.slotSize
  {
    AtOrdered(t, i, t.capacity);
    mem[t.At(i)..t.At(i) + t.slotSize]
  }

  ghost function SlotsOf(mem: seq<Byte>, t: Table): (s: Slots)
    requires Holds(mem, t)
    ensures |s| == t.capacity
  {
    seq(t.capacity, i requires 0 <= i < t.capacity => Abs(t, SlotAt(mem, t, i)))
  }

  ghost function Counter(mem: seq<Byte>, t: Table): (n: nat)
    requires Holds(mem, t)
  {
    FromLE(mem[t.countOff..t.countOff + 8])
  }

  /** What the bytes of a table satisfy between operations. */
  ghost predicate TableOk(mem: seq<Byte>, t: Table) {
    && Holds(mem, t)
    && Inv(SlotsOf(mem, t), HomeOf(t), t.limit)
    && Counter(mem, t) == |Live(SlotsOf(mem, t))|
  }

  ghost function Records(mem: seq<Byte>, t: Table): (m: map<Key, Record>)
    requires TableOk(mem, t)
  {
    Contents(SlotsOf(mem, t))
  }

  /** The byte belongs to the table: one of its slots or its counter. */
  ghost predicate Owns(t: Table, k: nat) {
    t.base <= k < t.End() || t.countOff <= k < t.countOff + 8
  }

  ghost predicate Within(t: Table, before: seq<Byte>, after: seq<Byte>) {
    |before| == |after| && forall k :: 0 <= k < |before| && !Owns(t, k) ==> after[k] == before[k]
  }

  // ---------------------------------------------------------------------- writes

  lemma {:induction false} SlotWritten(mem: seq<Byte>, t: Table, i: nat, slot: seq<Byte>)
    requires Holds(mem, t) && i < t.capacity && |slot| == t.slotSize
    ensures t.At(i) + t.slotSize <= t.End()
    ensures var out := Splice(mem, t.At(i), slot);
      && Holds(out, t) && Within(t, mem, out) && Counter(out, t) == Counter(mem, t)
      && SlotsOf(out, t) == SlotsOf(mem, t)[i := Abs(t, slot)]
  {
    AtOrdered(t, i, t.capacity);
    var out := Splice(mem, t.At(i), slot);
    SpliceReadsBack(mem, t.At(i), slot);
    SpliceElsewhere(mem, t.At(i), slot, t.countOff, t.countOff + 8);
    forall j | 0 <= j < t.capacity ensures SlotAt(out, t, j) == if j == i then slot else SlotAt(mem, t, j) {
      AtOrdered(t, j, t.capacity);
      if j < i { AtOrdered(t, j, i); } else if j > i { AtOrdered(t, i, j); }
      if j != i { SpliceElsewhere(mem, t.At(i), slot, t.At(j), t.At(j) + t.slotSize); }
    }
  }

  lemma {:induction false} CounterWritten(mem: seq<Byte>, t: Table, n: nat)
    requires Holds(mem, t) && n < Pow256(EIGHT)
    ensures var out := Splice(mem, t.countOff, LE(EIGHT, n));
      && Holds(out, t) && Within(t, mem, out) && Counter(out, t) == n
      && SlotsOf(out, t) == SlotsOf(mem, t)
  {
    var out := Splice(mem, t.countOff, LE(EIGHT, n));
    SpliceReadsBack(mem, t.countOff, LE(EIGHT, n));
    LERoundTrip(EIGHT, n);
    forall j | 0 <= j < t.capacity ensures SlotAt(out, t, j) == SlotAt(mem, t, j) {
      AtOrdered(t, j, t.capacity);
      SpliceElsewhere(mem, t.countOff, LE(EIGHT, n), t.At(j), t.At(j) + t.slotSize);
    }
  }

  /** A table is read only through the bytes it owns. */
  lemma {:induction false} SameBytesSameTable(a: seq<Byte>, b: seq<Byte>, t: Table)
    requires Holds(a, t) && |a| == |b|
    requires forall k :: 0 <= k < |a| && Owns(t, k) ==> b[k] == a[k]
    ensures Holds(b, t) && SlotsOf(a, t) == SlotsOf(b, t) && Counter(a, t) == Counter(b, t)
  {
    forall j | 0 <= j < t.capacity ensures SlotAt(a, t, j) == SlotAt(b, t, j) {
      AtOrdered(t, j, t.capacity);
    }
    assert a[t.countOff..t.countOff + 8] == b[t.countOff..t.countOff + 8];
  }

  // --------------------------------------------------------------------- probing

  /** The rest of a lookup once it has probed this far from the key's home. */
  ghost function Probe(mem: seq<Byte>, t: Table, key: Key, dist: nat): (r: Option<nat>)
    requires Holds(mem, t) && dist <= t.capacity
    ensures r.Some? ==> r.value < t.capacity
  {
    assert Homed(SlotsOf(mem, t));
    Lookup(SlotsOf(mem, t), Home(t, key), key, dist)
  }

  lemma {:induction false} ProbeStep(mem: seq<Byte>, t: Table, key: Key, dist: nat, slot: seq<Byte>)
    requires Holds(mem, t) && dist < t.capacity
    requires slot == SlotAt(mem, t, Step(Home(t, key), dist, t.capacity))
    ensures var i := Step(Home(t, key), dist, t.capacity);
      Probe(mem, t, key, dist) ==
        if !LiveSlot(t, slot) then None
        else if KeyOf(t, slot) == key then Some(i)
        else if Ahead(Home(t, KeyOf(t, slot)), i, t.capacity) < dist then None
        else Probe(mem, t, key, dist + 1)
  {
    var i := Step(Home(t, key), dist, t.capacity);
    assert SlotsOf(mem, t)[i] == Abs(t, slot);
  }

  lemma {:induction false} ProbeFinds(mem: seq<Byte>, t: Table, key: Key)
    requires TableOk(mem, t)
    ensures Probe(mem, t, key, 0).Some? <==> key in Records(mem, t)
    ensures var r := Probe(mem, t, key, 0); r.Some? ==>
      && SlotAt(mem, t, r.value) == Records(mem, t)[key]
      && SlotsOf(mem, t)[r.value] == Used(Home(t, key), key, Records(mem, t)[key])
  {
    LookupIsMap(SlotsOf(mem, t), HomeOf(t), key);
    var r := Probe(mem, t, key, 0);
    assert r.Some? ==> SlotsOf(mem, t)[r.value] == Abs(t, SlotAt(mem, t, r.value));
  }

  /** What a lookup reports: whether the key has a record, and if so where and which. */
  ghost predicate FoundAt(mem: seq<Byte>, t: Table, key: Key, found: bool, i: nat, slot: Record)
    requires TableOk(mem, t)
  {
    && (found <==> key in Records(mem, t))
    && (found ==>
          && i < t.capacity && |slot| == t.slotSize && slot == Records(mem, t)[key]
          && SlotsOf(mem, t)[i] == Used(Home(t, key), key, slot))
  }

  lemma {:induction false} CounterIsSize(mem: seq<Byte>, t: Table)
    requires TableOk(mem, t)
    ensures Counter(mem, t) == |Records(mem, t)| <= t.limit
  {
    LiveIsSize(SlotsOf(mem, t));
  }

  lemma {:induction false} LiveIsCounted(mem: seq<Byte>, t: Table, i: nat)
    requires TableOk(mem, t) && i < t.capacity && SlotsOf(mem, t)[i].Used?
    ensures 0 < Counter(mem, t) < Pow256(EIGHT) && Closing(mem, t, i)
  {
    assert i in Live(SlotsOf(mem, t));
  }

  /** A record sits under its own key, in a live slot. */
  lemma {:induction false} RecordKeyed(mem: seq<Byte>, t: Table, key: Key)
    requires TableOk(mem, t) && key in Records(mem, t)
    ensures |Records(mem, t)[key]| == t.slotSize >= 32
    ensures LiveSlot(t, Records(mem, t)[key]) && KeyOf(t, Records(mem, t)[key]) == key
  {
    var s := SlotsOf(mem, t);
    var i :| 0 <= i < |s| && s[i].Used? && s[i].key == key;
    assert s[i] == Abs(t, SlotAt(mem, t, i));
  }

  // ------------------------------------------------------------------- inserting

  /** What one turn of the insert loop does to the slot it looks at and to the record it carries. */
  ghost predicate Turned(s: Slots, u: Slots, carry: Slot<Key, Record>, dist: nat, placed: bool, next: Slot<Key, Record>, far: nat)
    requires Homed(s) && carry.Used? && carry.home < |s| && dist < |s|
  {
    var i := Step(carry.home, dist, |s|);
    && (placed <==> s[i].Free?)
    && (if placed || Disp(s, i) < dist then u == s[i := carry] else u == s)
    && (!placed ==> if Disp(s, i) < dist then next == s[i] && far == Disp(s, i) + 1 else next == carry && far == dist + 1)
  }

  /** A turn that does not end the loop keeps where it will end and brings that nearer. */
  lemma {:induction false} TurnGoesOn(s: Slots, u: Slots, carry: Slot<Key, Record>, dist: nat, next: Slot<Key, Record>, far: nat)
    requires CanCarry(s, carry, dist) && Turned(s, u, carry, dist, false, next, far)
    ensures CanCarry(u, next, far) && InsertFrom(u, next, far) == InsertFrom(s, carry, dist)
    ensures Gap(u, Step(next.home, far, |u|)) < Gap(s, Step(carry.home, dist, |s|))
  {
    CarryStep(s, carry, dist);
  }

  /** A new record under a new key, placed and counted. */
  lemma {:induction false} Inserted(mem: seq<Byte>, out: seq<Byte>, t: Table, rec: seq<Byte>)
    requires TableOk(mem, t) && |rec| == t.slotSize && LiveSlot(t, rec)
    requires KeyOf(t, rec) !in Records(mem, t) && |Records(mem, t)| < t.limit
    requires CanCarry(SlotsOf(mem, t), Abs(t, rec), 0)
    requires Holds(out, t) && SlotsOf(out, t) == InsertFrom(SlotsOf(mem, t), Abs(t, rec), 0)
    requires Counter(out, t) == Counter(mem, t) + 1
    ensures TableOk(out, t) && Records(out, t) == Records(mem, t)[KeyOf(t, rec) := rec]
  {
    LiveIsSize(SlotsOf(mem, t));
    InsertRefines(SlotsOf(mem, t), HomeOf(t), t.limit, KeyOf(t, rec), rec);
  }

  // -------------------------------------------------------------------- removing

  /** A hole at i is being closed by pulling the run behind it back. */
  ghost predicate Closing(mem: seq<Byte>, t: Table, i: nat) {
    && Holds(mem, t) && i < t.capacity
    && HasFree(SlotsOf(mem, t)) && SlotsOf(mem, t)[i].Used?
  }

  ghost function Closed(mem: seq<Byte>, t: Table, i: nat): (s: Slots)
    requires Closing(mem, t, i)
  {
    assert Homed(SlotsOf(mem, t));
    RemoveFrom(SlotsOf(mem, t), i)
  }

  lemma {:induction false} CloseEnds(mem: seq<Byte>, t: Table, i: nat, j: nat)
    requires Closing(mem, t, i) && j == Next(i, t.capacity)
    requires var next := SlotAt(mem, t, j);
      !LiveSlot(t, next) || Ahead(Home(t, KeyOf(t, next)), j, t.capacity) == 0
    ensures Closed(mem, t, i) == SlotsOf(mem, t)[i := Free]
    ensures Abs(t, Zeros(t.slotSize)) == Free
  {
    assert SlotsOf(mem, t)[j] == Abs(t, SlotAt(mem, t, j));
    assert IsZero(Zeros(t.slotSize)[LiveOff(t)..LiveOff(t) + 20]);
  }

  lemma {:induction false} CloseOn(mem: seq<Byte>, out: seq<Byte>, t: Table, i: nat, j: nat)
    requires Closing(mem, t, i) && j == Next(i, t.capacity)
    requires var next := SlotAt(mem, t, j);
      LiveSlot(t, next) && Ahead(Home(t, KeyOf(t, next)), j, t.capacity) != 0
    requires Holds(out, t) && SlotsOf(out, t) == SlotsOf(mem, t)[i := Abs(t, SlotAt(mem, t, j))]
    ensures Closing(out, t, j) && Closed(out, t, j) == Closed(mem, t, i)
    ensures Gap(SlotsOf(out, t), j) < Gap(SlotsOf(mem, t), i)
  {
    var s := SlotsOf(mem, t);
    assert s[j] == Abs(t, SlotAt(mem, t, j));
    assert Homed(s);
    GapStep(s, i, s[j]);
  }

  lemma {:induction false} Removed(mem: seq<Byte>, out: seq<Byte>, t: Table, i: nat)
    requires TableOk(mem, t) && Closing(mem, t, i)
    requires Holds(out, t) && SlotsOf(out, t) == Closed(mem, t, i) && Counter(out, t) == Counter(mem, t) - 1
    ensures TableOk(out, t) && Records(out, t) == Without(Records(mem, t), SlotsOf(mem, t)[i].key)
  {
    assert Without(Records(mem, t), SlotsOf(mem, t)[i].key) == Records(mem, t) - {SlotsOf(mem, t)[i].key};
    DropOne(SlotsOf(mem, t), i);
    RemoveRefines(SlotsOf(mem, t), HomeOf(t), i);
  }

  // ------------------------------------------------------------------ overwriting

  lemma {:induction false} Overwritten(mem: seq<Byte>, out: seq<Byte>, t: Table, i: nat, key: Key, slot: seq<Byte>)
    requires TableOk(mem, t) && i < t.capacity && |slot| == t.slotSize && LiveSlot(t, slot) && KeyOf(t, slot) == key
    requires SlotsOf(mem, t)[i].Used? && SlotsOf(mem, t)[i].key == key
    requires Holds(out, t) && SlotsOf(out, t) == SlotsOf(mem, t)[i := Abs(t, slot)] && Counter(out, t) == Counter(mem, t)
    ensures TableOk(out, t) && Records(out, t) == Records(mem, t)[key := slot]
  {
    var s := SlotsOf(mem, t);
    Overwrite(s, HomeOf(t), i, slot);
    assert s[i].(val := slot) == Abs(t, slot);
  }

  // ------------------------------------------------------------------- a fresh table

  lemma {:induction false} ZeroTable(mem: seq<Byte>, t: Table)
    requires Holds(mem, t)
    requires forall k :: 0 <= k < |mem| && Owns(t, k) ==> mem[k] == 0
    ensures TableOk(mem, t) && Records(mem, t) == map[]
  {
    var s := SlotsOf(mem, t);
    forall j | 0 <= j < t.capacity ensures s[j].Free? {
      AtOrdered(t, j, t.capacity);
      assert IsZero(SlotAt(mem, t, j));
    }
    assert s[0].Free? && Live(s) == {};
    assert mem[t.countOff..t.countOff + 8] == Zeros(8);
    ZeroIsZeros(Zeros(8));
  }
}
