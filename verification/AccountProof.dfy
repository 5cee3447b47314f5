/**
  The provable account read: the lookup replayed slot by slot, recording which slots it
  examined, and the pages of the drive that contain them.
 */
module AccountProof {
  import opened Options
  import opened ByteCodec
  import opened RobinHood
  import opened DriveTable
  import opened DriveStore
  import opened DriveSpec
  import opened DriveRecords
  import opened DriveImage
  import opened AccountsDrive

  const PAGE := 4096

  /** A lookup that has come this far goes past the slot: a live record of another key, no nearer its home. */
  ghost predicate Passes(t: Table, key: Key, slot: Record, dist: nat)
    requires |slot| >= 32 && dist < t.capacity
  {
    var i := Step(Home(t, key), dist, t.capacity);
    LiveSlot(t, slot) && KeyOf(t, slot) != key && Ahead(Home(t, KeyOf(t, slot)), i, t.capacity) >= dist
  }

  /** How many slots from the key's home a lookup examines in all, once it has passed the first dist. */
  ghost function WalkLength(mem: seq<Byte>, t: Table, key: Key, dist: nat): (n: nat)
    requires Holds(mem, t) && dist <= t.capacity
    ensures dist <= n <= t.capacity && (dist < t.capacity ==> dist < n)
    decreases t.capacity - dist
  {
    if dist == t.capacity then dist
    else if Passes(t, key, SlotAt(mem, t, Step(Home(t, key), dist, t.capacity)), dist) then WalkLength(mem, t, key, dist + 1)
    else dist + 1
  }

  /** What the lookup still finds, and how much further it looks, past one slot. */
  lemma {:induction false} WalkStep(mem: seq<Byte>, t: Table, key: Key, dist: nat, slot: Record)
    requires Holds(mem, t) && dist < t.capacity && slot == SlotAt(mem, t, Step(Home(t, key), dist, t.capacity))
    ensures WalkLength(mem, t, key, dist) == if Passes(t, key, slot, dist) then WalkLength(mem, t, key, dist + 1) else dist + 1
    ensures Probe(mem, t, key, dist) ==
      if Passes(t, key, slot, dist) then Probe(mem, t, key, dist + 1)
      else if LiveSlot(t, slot) && KeyOf(t, slot) == key then Some(Step(Home(t, key), dist, t.capacity))
      else None
  {
    ProbeStep(mem, t, key, dist, slot);
  }

  /** Examines one slot of the walk: whether the walk ends here, and whether it found the key. */
  method Examine(store: Store, t: Table, key: Key, home: nat, dist: nat) returns (i: nat, slot: Record, ends: bool, found: bool)
    requires Holds(store.Bytes(), t) && home == Home(t, key) && dist < t.capacity
    ensures i == Step(home, dist, t.capacity) && slot == SlotAt(store.Bytes(), t, i)
    ensures ends <==> !Passes(t, key, slot, dist)
    ensures found <==> LiveSlot(t, slot) && KeyOf(t, slot) == key
  {
    i := store.ProbeIndex(t, home, dist);
    slot := store.ReadSlot(t, i);
    if !LiveSlot(t, slot) {
      return i, slot, true, false;
    }
    if KeyOf(t, slot) == key {
      return i, slot, true, true;
    }
    var d := store.Displacement(t, slot, i);
    return i, slot, d < dist, false;
  }

  /** The replayed walk finds what the drive's own lookup finds, and reports how far it looked. */
  method Walk(store: Store, t: Table, key: Key) returns (found: bool, at: nat, record: Record, home: nat, walk: nat)
    requires Holds(store.Bytes(), t)
    ensures home == Home(t, key) && walk == WalkLength(store.Bytes(), t, key, 0)
    ensures Probe(store.Bytes(), t, key, 0) == if found then Some(at) else None
    ensures found ==> record == SlotAt(store.Bytes(), t, at)
  {
    home, walk, at, record := Home(t, key), 0, 0, [];
    ghost var mem := store.Bytes();
    for dist := 0 to t.capacity
      invariant walk == dist
      invariant WalkLength(mem, t, key, 0) == WalkLength(mem, t, key, dist)
      invariant Probe(mem, t, key, 0) == Probe(mem, t, key, dist)
    {
      var ends;
      at, record, ends, found := Examine(store, t, key, home, dist);
      WalkStep(mem, t, key, dist, record);
      walk := dist + 1;
      if ends {
        return;
      }
    }
    found := false;
  }

  ghost predicate SameSlot(a: seq<Byte>, b: seq<Byte>, t: Table, home: nat, x: nat)
    requires Holds(a, t) && Holds(b, t) && home < t.capacity && x < t.capacity
  {
    SlotAt(a, t, Step(home, x, t.capacity)) == SlotAt(b, t, Step(home, x, t.capacity))
  }

  /** Two images agree on the slots a walk examines. */
  ghost predicate AgreeOnWalk(a: seq<Byte>, b: seq<Byte>, t: Table, key: Key, from: nat, walk: nat)
    requires Holds(a, t) && Holds(b, t) && walk <= t.capacity
  {
    forall x: nat {:trigger SameSlot(a, b, t, Home(t, key), x)} :: from <= x < walk ==> SameSlot(a, b, t, Home(t, key), x)
  }

  /** A lookup depends on nothing but the slots it examines: neither how far it goes nor what it finds. */
  lemma {:induction false} SameLength(a: seq<Byte>, b: seq<Byte>, t: Table, key: Key, dist: nat)
    requires Holds(a, t) && Holds(b, t) && dist <= t.capacity
    requires AgreeOnWalk(a, b, t, key, dist, WalkLength(a, t, key, dist))
    ensures WalkLength(b, t, key, dist) == WalkLength(a, t, key, dist)
    decreases t.capacity - dist
  {
    if dist < t.capacity {
      var slot := SlotAt(a, t, Step(Home(t, key), dist, t.capacity));
      assert SameSlot(a, b, t, Home(t, key), dist);
      if Passes(t, key, slot, dist) {
        SameLength(a, b, t, key, dist + 1);
      }
    }
  }

  lemma {:induction false} SameAnswer(a: seq<Byte>, b: seq<Byte>, t: Table, key: Key, dist: nat, walk: nat)
    requires Holds(a, t) && Holds(b, t) && dist <= t.capacity && walk == WalkLength(a, t, key, dist)
    requires AgreeOnWalk(a, b, t, key, dist, walk)
    ensures Probe(b, t, key, dist) == Probe(a, t, key, dist)
    decreases t.capacity - dist
  {
    if dist < t.capacity {
      var slot := SlotAt(a, t, Step(Home(t, key), dist, t.capacity));
      assert SameSlot(a, b, t, Home(t, key), dist);
      WalkStep(a, t, key, dist, slot);
      WalkStep(b, t, key, dist, slot);
      if Passes(t, key, slot, dist) {
        SameAnswer(a, b, t, key, dist + 1, walk);
      }
    }
  }

  /**
    The walked slots prove the answer: any valid table that agrees on them has the same
    record for the key, or none.
   */
  lemma {:induction false} WalkProves(a: seq<Byte>, b: seq<Byte>, t: Table, key: Key)
    requires TableOk(a, t) && TableOk(b, t)
    requires AgreeOnWalk(a, b, t, key, 0, WalkLength(a, t, key, 0))
    ensures key in Records(a, t) <==> key in Records(b, t)
    ensures key in Records(a, t) ==> Records(a, t)[key] == Records(b, t)[key]
  {
    SameAnswer(a, b, t, key, 0, WalkLength(a, t, key, 0));
    ProbeFinds(a, t, key);
    ProbeFinds(b, t, key);
    var r := Probe(a, t, key, 0);
    if r.Some? {
      FoundInWalk(a, t, key, 0);
      var x :| 0 <= x < WalkLength(a, t, key, 0) && Step(Home(t, key), x, t.capacity) == r.value;
      assert SameSlot(a, b, t, Home(t, key), x);
    }
  }

  /** The slot a lookup finds is one of those it examined. */
  lemma {:induction false} FoundInWalk(mem: seq<Byte>, t: Table, key: Key, dist: nat)
    requires Holds(mem, t) && dist <= t.capacity && Probe(mem, t, key, dist).Some?
    ensures exists x ::
      dist <= x < WalkLength(mem, t, key, dist) && Step(Home(t, key), x, t.capacity) == Probe(mem, t, key, dist).value
    decreases t.capacity - dist
  {
    var i := Step(Home(t, key), dist, t.capacity);
    ProbeStep(mem, t, key, dist, SlotAt(mem, t, i));
    if KeyOf(t, SlotAt(mem, t, i)) != key {
      FoundInWalk(mem, t, key, dist + 1);
    }
  }

  // ---------------------------------------------------------------------- the pages

  /** The page a byte lies in. */
  function PageOf(off: nat): (p: nat)
    ensures p <= off < p + PAGE && p % PAGE == 0
  {
    off - off % PAGE
  }

  /** Exactly the pages that hold some byte of a range. */
  ghost predicate Covers(pages: set<nat>, start: nat, end: nat) {
    && (forall k :: start <= k < end ==> PageOf(k) in pages)
    && (forall p :: p in pages ==> p % PAGE == 0 && start < p + PAGE && p < end)
  }

  lemma {:induction false} SamePage(p: nat, k: nat)
    requires p % PAGE == 0 && p <= k < p + PAGE
    ensures PageOf(k) == p
  {
    var q := PageOf(k);
    assert (p - q) % PAGE == 0 && -PAGE < p - q < PAGE;
  }

  /** The page offsets of a nonempty run of slots. */
  method AddRange(start: nat, end: nat) returns (pages: set<nat>)
    requires start < end
    ensures Covers(pages, start, end)
  {
    pages := {};
    var p := PageOf(start);
    while p < end
      invariant p % PAGE == 0 && PageOf(start) <= p
      invariant forall k :: start <= k < end && k < p ==> PageOf(k) in pages
      invariant forall q :: q in pages ==> q % PAGE == 0 && start < q + PAGE && q < end
    {
      forall k | start <= k < end && p <= k < p + PAGE ensures PageOf(k) == p {
        SamePage(p, k);
      }
      pages := pages + {p};
      p := p + PAGE;
    }
  }

  /** The bytes of a walk: one run of slots, or two when it wraps the end of the table. */
  ghost predicate Walked(t: Table, home: nat, walk: nat, k: nat)
    requires home < t.capacity && walk <= t.capacity
  {
    exists x :: 0 <= x < walk && InSlot(t, Step(home, x, t.capacity), k)
  }

  ghost predicate InSlot(t: Table, i: nat, k: nat) {
    t.At(i) <= k < t.At(i) + t.slotSize
  }

  /** A run of slots is a run of bytes. */
  lemma {:induction false} RunOfSlots(t: Table, first: nat, n: nat, k: nat)
    requires t.slotSize > 0
    ensures t.At(first) <= k < t.At(first + n) <==> exists i :: first <= i < first + n && InSlot(t, i, k)
    decreases n
  {
    if n > 0 {
      RunOfSlots(t, first, n - 1, k);
      assert t.At(first + n) == t.At(first + n - 1) + t.slotSize;
      AtRises(t, first, first + n - 1);
      if t.At(first) <= k < t.At(first + n) && !(k < t.At(first + n - 1)) {
        assert InSlot(t, first + n - 1, k);
      }
    }
    forall i | first <= i < first + n && InSlot(t, i, k) ensures t.At(first) <= k < t.At(first + n) {
      AtRises(t, first, i);
      AtOrdered(t, i, first + n);
    }
  }

  lemma {:induction false} AtRises(t: Table, i: nat, j: nat)
    requires i <= j
    ensures t.At(i) <= t.At(j)
  {
    if i < j { AtOrdered(t, i, j); }
  }

  /** A walk that runs past the end of the table continues at its start. */
  lemma {:induction false} WalkIsRuns(t: Table, home: nat, walk: nat, k: nat)
    requires t.slotSize > 0 && home < t.capacity && walk <= t.capacity
    ensures Walked(t, home, walk, k) <==>
      if home + walk <= t.capacity then t.At(home) <= k < t.At(home + walk)
      else t.At(home) <= k < t.End() || t.base <= k < t.At(home + walk - t.capacity)
  {
    var past := home + walk - t.capacity;
    RunOfSlots(t, home, if past <= 0 then walk else t.capacity - home, k);
    if past > 0 { RunOfSlots(t, 0, past, k); }
    if Walked(t, home, walk, k) {
      var x :| 0 <= x < walk && InSlot(t, Step(home, x, t.capacity), k);
    }
    forall i | home <= i < home + walk && i < t.capacity && InSlot(t, i, k) ensures Walked(t, home, walk, k) {
      assert Step(home, i - home, t.capacity) == i;
    }
    forall i | 0 <= i < past && InSlot(t, i, k) ensures Walked(t, home, walk, k) {
      assert Step(home, i + t.capacity - home, t.capacity) == i;
    }
  }

  predicate Ascending(r: seq<nat>) {
    forall i, j :: 0 <= i < j < |r| ==> r[i] < r[j]
  }

  function Placed(r: seq<nat>, x: nat): (s: seq<nat>) {
    if r == [] || x < r[0] then [x] + r else [r[0]] + Placed(r[1..], x)
  }

  lemma {:induction false} PlacedAscends(r: seq<nat>, x: nat)
    requires Ascending(r) && x !in r
    ensures Ascending(Placed(r, x)) && forall y :: y in Placed(r, x) <==> y == x || y in r
  {
    if r != [] && x >= r[0] {
      PlacedAscends(r[1..], x);
      assert r == [r[0]] + r[1..];
      assert x != r[0];
      var rest := Placed(r[1..], x);
      forall i | 0 <= i < |rest| ensures r[0] < rest[i] {
        assert rest[i] in rest;
      }
    }
  }

  /** The pages served for a walk: ascending, none twice, and exactly those that hold a byte of a walked slot. */
  method WalkPages(t: Table, home: nat, walk: nat) returns (offsets: seq<nat>)
    requires t.slotSize > 0 && home < t.capacity && 1 <= walk <= t.capacity
    ensures Ascending(offsets)
    ensures forall k :: Walked(t, home, walk, k) ==> PageOf(k) in offsets
    ensures forall p :: p in offsets ==> exists k :: Walked(t, home, walk, k) && PageOf(k) == p
  {
    var pages := SlotPages(t, home, walk);
    offsets := [];
    var rest := pages;
    while rest != {}
      invariant Ascending(offsets) && forall p :: p in pages <==> p in offsets || p in rest
      invariant forall p :: p in rest ==> p !in offsets
      decreases |rest|
    {
      var p :| p in rest;
      PlacedAscends(offsets, p);
      offsets, rest := Placed(offsets, p), rest - {p};
    }
  }

  /** Two images agree on every byte of the pages. */
  ghost predicate AgreeOnPages(a: seq<Byte>, b: seq<Byte>, offsets: seq<nat>) {
    |a| == |b| && forall k :: 0 <= k < |a| && PageOf(k) in offsets ==> a[k] == b[k]
  }

  lemma {:induction false} PagesShowSlot(a: seq<Byte>, b: seq<Byte>, t: Table, home: nat, walk: nat, offsets: seq<nat>, x: nat)
    requires Holds(a, t) && Holds(b, t) && home < t.capacity && x < walk <= t.capacity && AgreeOnPages(a, b, offsets)
    requires forall k :: Walked(t, home, walk, k) ==> PageOf(k) in offsets
    ensures SameSlot(a, b, t, home, x)
  {
    var i := Step(home, x, t.capacity);
    var p, q := SlotAt(a, t, i), SlotAt(b, t, i);
    AtOrdered(t, i, t.capacity);
    forall j | 0 <= j < t.slotSize ensures p[j] == q[j] {
      var k := t.At(i) + j;
      assert InSlot(t, i, k);
      assert Walked(t, home, walk, k);
      assert p[j] == a[k] && q[j] == b[k];
    }
  }

  /**
    The served pages prove the answer: any valid table that agrees on them is walked as
    far and has the same record for the key, or none.
   */
  lemma {:induction false} PagesProve(a: seq<Byte>, b: seq<Byte>, t: Table, key: Key, offsets: seq<nat>)
    requires TableOk(a, t) && TableOk(b, t) && AgreeOnPages(a, b, offsets)
    requires forall k :: Walked(t, Home(t, key), WalkLength(a, t, key, 0), k) ==> PageOf(k) in offsets
    ensures WalkLength(b, t, key, 0) == WalkLength(a, t, key, 0)
    ensures key in Records(a, t) <==> key in Records(b, t)
    ensures key in Records(a, t) ==> Records(a, t)[key] == Records(b, t)[key]
  {
    var home, walk := Home(t, key), WalkLength(a, t, key, 0);
    forall x: nat | x < walk ensures SameSlot(a, b, t, home, x) {
      PagesShowSlot(a, b, t, home, walk, offsets, x);
    }
    SameLength(a, b, t, key, 0);
    WalkProves(a, b, t, key);
  }

  /** Each page that covers a run holds one of its bytes. */
  lemma {:induction false} PageHolds(pages: set<nat>, start: nat, end: nat, p: nat)
    requires start < end && Covers(pages, start, end) && p in pages
    ensures exists k :: start <= k < end && PageOf(k) == p
  {
    var k := if p < start then start else p;
    SamePage(p, k);
  }

  method SlotPages(t: Table, home: nat, walk: nat) returns (pages: set<nat>)
    requires t.slotSize > 0 && home < t.capacity && 1 <= walk <= t.capacity
    ensures forall k :: Walked(t, home, walk, k) ==> PageOf(k) in pages
    ensures forall p :: p in pages ==> exists k :: Walked(t, home, walk, k) && PageOf(k) == p
  {
    AtIsProduct(t, home);
    AtIsProduct(t, home + walk);
    AtIsProduct(t, t.capacity);
    forall k: nat ensures Walked(t, home, walk, k) <==>
      if home + walk <= t.capacity then t.At(home) <= k < t.At(home + walk)
      else t.At(home) <= k < t.End() || t.base <= k < t.At(home + walk - t.capacity)
    {
      WalkIsRuns(t, home, walk, k);
    }
    var wrap := home + walk;
    if wrap > t.capacity {
      AtIsProduct(t, wrap - t.capacity);
      AtOrdered(t, home, t.capacity);
      AtOrdered(t, 0, wrap - t.capacity);
      var a := AddRange(t.base + t.slotSize * home, t.base + t.slotSize * t.capacity);
      var b := AddRange(t.base, t.base + t.slotSize * (wrap - t.capacity));
      pages := a + b;
      forall p | p in pages ensures exists k :: Walked(t, home, walk, k) && PageOf(k) == p {
        if p in a { PageHolds(a, t.At(home), t.End(), p); } else { PageHolds(b, t.base, t.At(wrap - t.capacity), p); }
      }
    } else {
      AtOrdered(t, home, wrap);
      pages := AddRange(t.base + t.slotSize * home, t.base + t.slotSize * wrap);
      forall p | p in pages ensures exists k :: Walked(t, home, walk, k) && PageOf(k) == p {
        PageHolds(pages, t.At(home), t.At(wrap), p);
      }
    }
  }

  /** The whole read: the account as the drive has it, or its absence, with the pages that show it. */
  method ProveAccount(drive: Drive, a: Address) returns (account: Option<Account>, home: nat, walk: nat, offsets: seq<nat>)
    requires drive.Valid()
    ensures account == if a in drive.view.accounts then Some(drive.view.accounts[a]) else None
    ensures home == Home(AccountsTable(drive.cfg), a)
    ensures Ascending(offsets) && walk <= drive.cfg.capacity
    ensures forall k :: Walked(AccountsTable(drive.cfg), home, walk, k) ==> PageOf(k) in offsets
    ensures forall p :: p in offsets ==> exists k :: Walked(AccountsTable(drive.cfg), home, walk, k) && PageOf(k) == p
    ensures Holds(drive.store.Bytes(), AccountsTable(drive.cfg))
    ensures walk == WalkLength(drive.store.Bytes(), AccountsTable(drive.cfg), a, 0)
  {
    var t := AccountsTable(drive.cfg);
    AccountsHeld(drive.cfg, drive.store.Bytes());
    var found, at, record;
    found, at, record, home, walk := Walk(drive.store, t, a);
    ProbeFinds(drive.store.Bytes(), t, a);
    ReadsAccount(drive.cfg, drive.store.Bytes(), drive.view, a);
    account := if found then Some(DecodeAccount(drive.cfg, record)) else None;
    offsets := WalkPages(t, home, walk);
  }
}
