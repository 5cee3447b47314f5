/**
  The layout of a drive table is a function of the key set: whatever order of
  operations led to it, the same keys occupy the same slots under the same homes,
  and only records of equal home can trade places.
 */
module TableLayout {
  import opened Options
  import opened RobinHood
  import opened TableRefinement
  import opened TableRuns

  /** The n slots ending at e. */
  ghost predicate InArc(x: nat, e: nat, n: nat, c: nat)
    requires x < c && e < c
  {
    Ahead(x, e, c) < n
  }

  ghost function Arc(e: nat, n: nat, c: nat): (a: set<nat>)
    requires e < c && n <= c
    ensures |a| == n
    ensures forall x: nat :: x in a <==> x < c && InArc(x, e, n, c)
    decreases n
  {
    if n == 0 then {} else
      assert Ahead(Back(e, n - 1, c), e, c) == n - 1;
      Arc(e, n - 1, c) + {Back(e, n - 1, c)}
  }

  /** The keys whose home lies in the n slots ending at e. */
  ghost function KeysOf<K>(keys: set<K>, hm: K -> nat, e: nat, n: nat, c: nat): (r: set<K>)
    requires e < c && forall k :: k in keys ==> hm(k) < c
  {
    set k | k in keys && InArc(hm(k), e, n, c)
  }

  /** The slots whose record has its home in the n slots ending at e. */
  ghost function SlotsOf<K, V>(s: seq<Slot<K, V>>, e: nat, n: nat): (r: set<nat>)
    requires e < |s| && Homed(s)
  {
    set i: nat | i < |s| && s[i].Used? && InArc(s[i].home, e, n, |s|)
  }

  lemma {:induction false} SlotsMatchKeys<K, V>(s: seq<Slot<K, V>>, hm: K -> nat, e: nat, n: nat)
    requires Valid(s, hm) && e < |s|
    ensures |SlotsOf(s, e, n)| == |KeysOf(Contents(s).Keys, hm, e, n, |s|)|
  {
    var idx := SlotsOf(s, e, n);
    var keys := set i | i in idx :: s[i].key;
    KeySetSize(s, idx, keys);
    assert keys == KeysOf(Contents(s).Keys, hm, e, n, |s|);
  }

  /** A record cannot be carried over a free slot, so its home lies after every free slot behind it. */
  lemma {:induction false} NoFreeBetween<K, V>(s: seq<Slot<K, V>>, i: nat, f: nat)
    requires Ordered(s) && i < |s| && f < |s| && s[i].Used? && s[f].Free?
    ensures Disp(s, i) < Ahead(f, i, |s|)
  {
    var d := Ahead(f, i, |s|);
    assert Back(i, d, |s|) == f;
    if d <= Disp(s, i) {
      ChainBack(s, i, d);
      assert false;
    }
  }

  /** In a table whose run of n used slots ends at e, at least n keys have their home in that run. */
  lemma {:induction false} RunIsHome<K, V>(s: seq<Slot<K, V>>, e: nat, n: nat)
    requires Ordered(s) && e < |s| && n < |s|
    requires s[Back(e, n, |s|)].Free?
    requires forall x :: 0 <= x < n ==> s[Back(e, x, |s|)].Used?
    ensures |SlotsOf(s, e, n)| >= n
  {
    var c, f := |s|, Back(e, n, |s|);
    forall x | x in Arc(e, n, c) ensures x in SlotsOf(s, e, n) {
      assert Back(e, Ahead(x, e, c), c) == x;
      NoFreeBetween(s, x, f);
    }
    SubsetSize(Arc(e, n, c), SlotsOf(s, e, n));
  }

  /** When e is free, every key with its home in the n slots ending at e is stored in the n - 1 slots before e. */
  lemma {:induction false} FreeIsSpare<K, V>(s: seq<Slot<K, V>>, e: nat, n: nat)
    requires Ordered(s) && e < |s| && 0 < n <= |s| && s[e].Free?
    ensures |SlotsOf(s, e, n)| < n
  {
    var c := |s|;
    forall i | i in SlotsOf(s, e, n) ensures i in Arc(e, n, c) - {e} {
      NoFreeBetween(s, i, e);
    }
    SubsetSize(SlotsOf(s, e, n), Arc(e, n, c) - {e});
  }

  /** The distance back from e to the nearest free slot. */
  lemma {:induction false} RunBehind<K, V>(s: seq<Slot<K, V>>, e: nat, d: nat) returns (n: nat)
    requires e < |s| && HasFree(s) && d < |s|
    requires forall x :: 0 <= x < d ==> s[Back(e, x, |s|)].Used?
    ensures n < |s| && s[Back(e, n, |s|)].Free?
    ensures forall x :: 0 <= x < n ==> s[Back(e, x, |s|)].Used?
    decreases |s| - d
  {
    if s[Back(e, d, |s|)].Free? {
      n := d;
    } else {
      var f :| 0 <= f < |s| && s[f].Free?;
      assert Back(e, Ahead(f, e, |s|), |s|) == f;
      assert d + 1 < |s|;
      n := RunBehind(s, e, d + 1);
    }
  }

  /** Two tables over the same keys are free in the same slots. */
  lemma {:induction false} SameFree<K, V, W>(a: seq<Slot<K, V>>, b: seq<Slot<K, W>>, hm: K -> nat, e: nat)
    requires Valid(a, hm) && Valid(b, hm) && |a| == |b|
    requires Contents(a).Keys == Contents(b).Keys
    requires e < |a| && a[e].Free?
    ensures b[e].Free?
  {
    if b[e].Used? {
      var n := RunBehind(b, e, 0);
      assert Back(e, 0, |b|) == e;
      RunIsHome(b, e, n);
      FreeIsSpare(a, e, n);
      SlotsMatchKeys(a, hm, e, n);
      SlotsMatchKeys(b, hm, e, n);
      assert false;
    }
  }

  // --------------------------------------------------------------- equal homes

  ghost predicate SameHome<K, V, W>(x: Slot<K, V>, y: Slot<K, W>) {
    x.Free? == y.Free? && (x.Used? ==> x.home == y.home)
  }

  /** The first d slots from e on hold the same homes in both tables. */
  ghost predicate AgreeUpTo<K, V, W>(a: seq<Slot<K, V>>, b: seq<Slot<K, W>>, e: nat, d: nat)
    requires e < |a| == |b| && d <= |a|
  {
    forall x: nat :: x < |a| && Ahead(e, x, |a|) < d ==> SameHome(a[x], b[x])
  }

  /** A record of home h beyond p, with no free slot before h, puts a record of home at most h in p. */
  lemma {:induction false} SortedByHome<K, V>(s: seq<Slot<K, V>>, e: nat, p: nat, j: nat)
    requires Ordered(s) && e < |s| && p < |s| && j < |s| && s[e].Free? && s[j].Used?
    requires Ahead(e, s[j].home, |s|) <= Ahead(e, p, |s|) <= Ahead(e, j, |s|)
    ensures s[p].Used? && Ahead(e, s[p].home, |s|) <= Ahead(e, s[j].home, |s|)
  {
    var c := |s|;
    NoFreeBetween(s, j, e);
    var d := Ahead(e, j, c) - Ahead(e, p, c);
    ChainBack(s, j, d);
    assert Back(j, d, c) == p;
    NoFreeBetween(s, p, e);
  }

  ghost function AtHome<K, V>(s: seq<Slot<K, V>>, h: nat): (r: set<nat>) {
    set i: nat | i < |s| && s[i].Used? && s[i].home == h
  }

  lemma {:induction false} SameAtHome<K, V, W>(a: seq<Slot<K, V>>, b: seq<Slot<K, W>>, hm: K -> nat, h: nat)
    requires Valid(a, hm) && Valid(b, hm) && |a| == |b| && h < |a|
    requires Contents(a).Keys == Contents(b).Keys
    ensures |AtHome(a, h)| == |AtHome(b, h)|
  {
    SlotsMatchKeys(a, hm, h, 1);
    SlotsMatchKeys(b, hm, h, 1);
    assert AtHome(a, h) == SlotsOf(a, h, 1);
    assert AtHome(b, h) == SlotsOf(b, h, 1);
  }

  lemma {:induction false} FewerBefore<K, V, W>(a: seq<Slot<K, V>>, b: seq<Slot<K, W>>, e: nat, p: nat, h: nat)
    requires |a| == |b| && e < |a| && p in AtHome(a, h)
    requires AgreeUpTo(a, b, e, Ahead(e, p, |a|))
    requires forall j :: j in AtHome(b, h) ==> Ahead(e, j, |a|) < Ahead(e, p, |a|)
    ensures |AtHome(b, h)| < |AtHome(a, h)|
  {
    forall j | j in AtHome(b, h) ensures j in AtHome(a, h) - {p} {
      assert SameHome(a[j], b[j]);
    }
    SubsetSize(AtHome(b, h), AtHome(a, h) - {p});
  }

  /** At the first disagreement, the table with the earlier home would hold one record of that home too many. */
  lemma {:induction false} NoFirstDifference<K, V, W>(a: seq<Slot<K, V>>, b: seq<Slot<K, W>>, hm: K -> nat, e: nat, p: nat)
    requires Valid(a, hm) && Valid(b, hm) && |a| == |b|
    requires Contents(a).Keys == Contents(b).Keys
    requires e < |a| && p < |a| && a[e].Free? && b[e].Free?
    requires AgreeUpTo(a, b, e, Ahead(e, p, |a|))
    requires a[p].Used?
    ensures b[p].Used? && Ahead(e, b[p].home, |a|) <= Ahead(e, a[p].home, |a|)
  {
    var c, h := |a|, a[p].home;
    NoFreeBetween(a, p, e);
    SameAtHome(a, b, hm, h);
    if j :| j in AtHome(b, h) && Ahead(e, p, c) <= Ahead(e, j, c) {
      SortedByHome(b, e, p, j);
    } else {
      FewerBefore(a, b, e, p, h);
      assert false;
    }
  }

  lemma {:induction false} AgreeFrom<K, V, W>(a: seq<Slot<K, V>>, b: seq<Slot<K, W>>, hm: K -> nat, e: nat, d: nat)
    requires Valid(a, hm) && Valid(b, hm) && |a| == |b|
    requires Contents(a).Keys == Contents(b).Keys
    requires e < |a| && a[e].Free? && b[e].Free? && d <= |a|
    ensures AgreeUpTo(a, b, e, d)
    decreases d
  {
    if d > 0 {
      AgreeFrom(a, b, hm, e, d - 1);
      var p := Step(e, d - 1, |a|);
      assert Ahead(e, p, |a|) == d - 1;
      AgreeNext(a, b, hm, e, p);
    }
  }

  /** Tables that agree up to a slot agree on it too. */
  lemma {:induction false} AgreeNext<K, V, W>(a: seq<Slot<K, V>>, b: seq<Slot<K, W>>, hm: K -> nat, e: nat, p: nat)
    requires Valid(a, hm) && Valid(b, hm) && |a| == |b|
    requires Contents(a).Keys == Contents(b).Keys
    requires e < |a| && a[e].Free? && b[e].Free? && p < |a| && AgreeUpTo(a, b, e, Ahead(e, p, |a|))
    ensures AgreeUpTo(a, b, e, Ahead(e, p, |a|) + 1)
  {
    SameNext(a, b, hm, e, p);
    OneAhead(a, b, e, p);
  }

  lemma {:induction false} SameNext<K, V, W>(a: seq<Slot<K, V>>, b: seq<Slot<K, W>>, hm: K -> nat, e: nat, p: nat)
    requires Valid(a, hm) && Valid(b, hm) && |a| == |b|
    requires Contents(a).Keys == Contents(b).Keys
    requires e < |a| && a[e].Free? && b[e].Free? && p < |a| && AgreeUpTo(a, b, e, Ahead(e, p, |a|))
    ensures SameHome(a[p], b[p])
  {
    if a[p].Used? { NoFirstDifference(a, b, hm, e, p); }
    if b[p].Used? { NoFirstDifference(b, a, hm, e, p); }
  }

  /** One slot only lies at each distance ahead of another. */
  lemma {:induction false} OneAhead<K, V, W>(a: seq<Slot<K, V>>, b: seq<Slot<K, W>>, e: nat, p: nat)
    requires |a| == |b| && e < |a| && p < |a| && AgreeUpTo(a, b, e, Ahead(e, p, |a|)) && SameHome(a[p], b[p])
    ensures AgreeUpTo(a, b, e, Ahead(e, p, |a|) + 1)
  {
    assert forall x: nat :: x < |a| && Ahead(e, x, |a|) == Ahead(e, p, |a|) ==> x == p;
  }

  /** Equal key sets force equal occupancy and equal homes, slot by slot. */
  lemma {:induction false} LayoutIsCanonical<K, V, W>(a: seq<Slot<K, V>>, b: seq<Slot<K, W>>, hm: K -> nat, i: nat)
    requires Valid(a, hm) && Valid(b, hm) && |a| == |b|
    requires Contents(a).Keys == Contents(b).Keys
    requires i < |a|
    ensures SameHome(a[i], b[i])
  {
    var e :| 0 <= e < |a| && a[e].Free?;
    SameFree(a, b, hm, e);
    AgreeFrom(a, b, hm, e, |a|);
  }

  /**
    Two runs of operations that leave the same keys leave the same layout, however
    they interleaved their stores and erasures.
   */
  lemma {:induction false} RunsShareLayout<K(!new), V>(hm: K -> nat, c: nat, limit: nat, ops: seq<Op<K, V>>,
                                             ops': seq<Op<K, V>>, i: nat)
    requires limit < c && HashInto(hm, c) && i < c
    requires MapRun(limit, ops).Keys == MapRun(limit, ops').Keys
    ensures SameHome(TableRun(hm, c, limit, ops)[i], TableRun(hm, c, limit, ops')[i])
  {
    RunContents(hm, c, limit, ops);
    RunContents(hm, c, limit, ops');
    LayoutIsCanonical(TableRun(hm, c, limit, ops), TableRun(hm, c, limit, ops'), hm, i);
  }
}
