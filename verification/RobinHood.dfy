/**
  The probing rules of the accounts drive (home, displacement, early-terminating
  lookup, strict-less-than swaps, backward-shift deletion) on a cyclic sequence of
  slots, free of bytes.  A slot remembers the home its key hashes to, so the theory
  below never needs the hash itself.
 */
module RobinHood {
  import opened Options

  datatype Slot<+K, +V> = Free | Used(home: nat, key: K, val: V)

  // ------------------------------------------------------------ cyclic order

  function Next(i: nat, c: nat): (j: nat)
    requires i < c
    ensures j < c
  {
    if i + 1 == c then 0 else i + 1
  }

  /** The position d steps after i. */
  function Step(i: nat, d: nat, c: nat): (j: nat)
    requires i < c && d <= c
    ensures j < c
  {
    if i + d < c then i + d else i + d - c
  }

  /** The position d steps before i. */
  function Back(i: nat, d: nat, c: nat): (j: nat)
    requires i < c && d <= c
    ensures j < c
  {
    if d <= i then i - d else i + c - d
  }

  /** How many steps forward lead from one position to another. */
  function Ahead(from: nat, to: nat, c: nat): (d: nat)
    requires from < c && to < c
    ensures d < c
  {
    if from <= to then to - from else to + c - from
  }

  /** The source writes every cyclic position as a remainder; below 2c that is one conditional. */
  lemma {:induction false} ModIsWrap(x: nat, c: nat)
    requires 0 < c && x < 2 * c
    ensures x % c == if x < c then x else x - c
  {
    var d, r := x / c, x % c;
    assert x == d * c + r;
    if x < c { OneRemainder(d, r, 0, x, c); } else { OneRemainder(d, r, 1, x - c, c); }
  }

  lemma {:induction false} OneRemainder(d: int, r: nat, q: int, s: nat, c: nat)
    requires r < c && s < c && d * c + r == q * c + s
    ensures d == q && r == s
  {
    if d < q { NextMultiple(d, q, c); } else if q < d { NextMultiple(q, d, c); }
  }

  lemma {:induction false} NextMultiple(a: int, b: int, c: nat)
    requires a < b
    ensures a * c + c <= b * c
  {
    assert (b - a - 1) * c >= 0;
  }

  // --------------------------------------------------------------- predicates

  ghost predicate HasFree<K, V>(s: seq<Slot<K, V>>) {
    exists i :: 0 <= i < |s| && s[i].Free?
  }

  ghost predicate Homed<K, V>(s: seq<Slot<K, V>>) {
    forall i :: 0 <= i < |s| && s[i].Used? ==> s[i].home < |s|
  }

  /** Every key sits under the home the hash function assigns to it. */
  ghost predicate Hashed<K, V>(s: seq<Slot<K, V>>, hm: K -> nat) {
    forall i :: 0 <= i < |s| && s[i].Used? ==> s[i].home == hm(s[i].key) < |s|
  }

  ghost predicate Apart<K, V>(s: seq<Slot<K, V>>, i: nat, j: nat)
    requires i < |s| && j < |s|
  {
    s[i].Used? && s[j].Used? && s[i].key == s[j].key ==> i == j
  }

  ghost predicate Unique<K, V>(s: seq<Slot<K, V>>) {
    forall i: nat, j: nat {:trigger Apart(s, i, j)} :: i < |s| && j < |s| ==> Apart(s, i, j)
  }

  function Disp<K, V>(s: seq<Slot<K, V>>, i: nat): (d: nat)
    requires i < |s| && s[i].Used? && s[i].home < |s|
    ensures d < |s|
  {
    Ahead(s[i].home, i, |s|)
  }

  /** A displaced record is preceded by a record displaced at least as far, less one. */
  ghost predicate Supported<K, V>(s: seq<Slot<K, V>>, i: nat)
    requires i < |s| && Homed(s)
  {
    s[i].Used? && Disp(s, i) > 0 ==>
      var p := Back(i, 1, |s|);
      s[p].Used? && Disp(s, p) >= Disp(s, i) - 1
  }

  ghost predicate Ordered<K, V>(s: seq<Slot<K, V>>) {
    && Homed(s)
    && forall i :: 0 <= i < |s| ==> Supported(s, i)
  }

  /** What every reachable table satisfies. */
  ghost predicate Valid<K, V>(s: seq<Slot<K, V>>, hm: K -> nat) {
    && Hashed(s, hm)
    && Unique(s)
    && Ordered(s)
    && HasFree(s)
  }

  // ------------------------------------------------------------- nearest free

  ghost function GapFrom<K, V>(s: seq<Slot<K, V>>, i: nat, d: nat): (g: nat)
    requires i < |s| && d < |s|
    requires exists x :: d <= x < |s| && s[Step(i, x, |s|)].Free?
    ensures g < |s|
    decreases |s| - d
  {
    if s[Step(i, d, |s|)].Free? then d else GapFrom(s, i, d + 1)
  }

  /** The cyclic distance from i to the nearest free slot at or after it. */
  ghost function Gap<K, V>(s: seq<Slot<K, V>>, i: nat): (g: nat)
    requires i < |s| && HasFree(s)
    ensures g < |s|
  {
    FreeIsAhead(s, i);
    GapFrom(s, i, 0)
  }

  lemma {:induction false} GapFromIs<K, V>(s: seq<Slot<K, V>>, i: nat, d: nat)
    requires i < |s| && d < |s|
    requires exists x :: d <= x < |s| && s[Step(i, x, |s|)].Free?
    ensures var g := GapFrom(s, i, d);
      d <= g < |s| && s[Step(i, g, |s|)].Free? && forall x :: d <= x < g ==> s[Step(i, x, |s|)].Used?
    decreases |s| - d
  {
    if s[Step(i, d, |s|)].Used? { GapFromIs(s, i, d + 1); }
  }

  lemma {:induction false} GapIs<K, V>(s: seq<Slot<K, V>>, i: nat)
    requires i < |s| && HasFree(s)
    ensures var g := Gap(s, i);
      g < |s| && s[Step(i, g, |s|)].Free? && forall x :: 0 <= x < g ==> s[Step(i, x, |s|)].Used?
  {
    FreeIsAhead(s, i);
    GapFromIs(s, i, 0);
  }

  lemma {:induction false} FreeIsAhead<K, V>(s: seq<Slot<K, V>>, i: nat)
    requires i < |s| && HasFree(s)
    ensures exists x :: 0 <= x < |s| && s[Step(i, x, |s|)].Free?
  {
    var e :| 0 <= e < |s| && s[e].Free?;
    assert Step(i, Ahead(i, e, |s|), |s|) == e;
  }

  /** Moving one slot on brings the nearest free slot one step closer, whatever is written behind. */
  lemma {:induction false} GapStep<K, V>(s: seq<Slot<K, V>>, i: nat, r: Slot<K, V>)
    requires i < |s| && HasFree(s) && s[i].Used? && r.Used?
    ensures HasFree(s[i := r]) && Gap(s, i) > 0
    ensures Gap(s[i := r], Next(i, |s|)) == Gap(s, i) - 1
    ensures Gap(s, Next(i, |s|)) == Gap(s, i) - 1
  {
    var g, n, t := Gap(s, i), Next(i, |s|), s[i := r];
    GapIs(s, i);
    assert g > 0 by { assert Step(i, 0, |s|) == i; }
    var e := Step(i, g, |s|);
    assert e != i && t[e].Free?;
    assert forall x :: 0 <= x < |s| ==> Step(n, x, |s|) == Step(i, x + 1, |s|);
    assert Step(n, g - 1, |s|) == e;
    assert forall x :: 0 <= x < g - 1 ==> t[Step(n, x, |s|)].Used? && s[Step(n, x, |s|)].Used?;
    LeastIsGap(s, n, g - 1);
    LeastIsGap(t, n, g - 1);
  }

  lemma {:induction false} LeastIsGap<K, V>(s: seq<Slot<K, V>>, i: nat, g: nat)
    requires i < |s| && g < |s| && s[Step(i, g, |s|)].Free?
    requires forall x :: 0 <= x < g ==> s[Step(i, x, |s|)].Used?
    ensures HasFree(s) && Gap(s, i) == g
  {
    var h := Gap(s, i);
    GapIs(s, i);
    assert h >= g;
  }

  // --------------------------------------------------------------- operations

  /** Probes from the key's home until the key, a free slot, or a record nearer its home. */
  function Lookup<K(==), V>(s: seq<Slot<K, V>>, h: nat, key: K, dist: nat): (r: Option<nat>)
    requires h < |s| && dist <= |s| && Homed(s)
    ensures r.Some? ==> r.value < |s| && s[r.value].Used? && s[r.value].key == key
    decreases |s| - dist
  {
    if dist == |s| then None
    else
      var i := Step(h, dist, |s|);
      if s[i].Free? then None
      else if s[i].key == key then Some(i)
      else if Disp(s, i) < dist then None
      else Lookup(s, h, key, dist + 1)
  }

  ghost predicate CanCarry<K, V>(s: seq<Slot<K, V>>, carry: Slot<K, V>, dist: nat) {
    && Homed(s) && HasFree(s)
    && carry.Used? && carry.home < |s|
    && dist < |s|
    && dist + Gap(s, Step(carry.home, dist, |s|)) < |s|
  }

  /** Carries a record forward, leaving it where the resident is nearer its home and carrying that one on. */
  function InsertFrom<K, V>(s: seq<Slot<K, V>>, carry: Slot<K, V>, dist: nat): (t: seq<Slot<K, V>>)
    requires CanCarry(s, carry, dist)
    ensures |t| == |s|
    decreases Gap(s, Step(carry.home, dist, |s|))
  {
    var i := Step(carry.home, dist, |s|);
    if s[i].Free? then s[i := carry]
    else
      CarryStep(s, carry, dist);
      if Disp(s, i) < dist then InsertFrom(s[i := carry], s[i], Disp(s, i) + 1)
      else InsertFrom(s, carry, dist + 1)
  }

  lemma {:induction false} CarryStep<K, V>(s: seq<Slot<K, V>>, carry: Slot<K, V>, dist: nat)
    requires CanCarry(s, carry, dist)
    requires s[Step(carry.home, dist, |s|)].Used?
    ensures var i := Step(carry.home, dist, |s|);
      && (Disp(s, i) < dist ==>
            && CanCarry(s[i := carry], s[i], Disp(s, i) + 1)
            && Gap(s[i := carry], Step(s[i].home, Disp(s, i) + 1, |s|)) == Gap(s, i) - 1)
      && (Disp(s, i) >= dist ==>
            && CanCarry(s, carry, dist + 1)
            && Gap(s, Step(carry.home, dist + 1, |s|)) == Gap(s, i) - 1)
  {
    var i := Step(carry.home, dist, |s|);
    GapStep(s, i, carry);
    assert Step(carry.home, dist + 1, |s|) == Next(i, |s|);
    assert Step(s[i].home, Disp(s, i) + 1, |s|) == Next(i, |s|);
  }

  /** Pulls displaced successors back over the hole at i until one sits at home or the run ends. */
  function RemoveFrom<K, V>(s: seq<Slot<K, V>>, i: nat): (t: seq<Slot<K, V>>)
    requires Homed(s) && HasFree(s) && i < |s| && s[i].Used?
    ensures |t| == |s|
    decreases Gap(s, i)
  {
    var j := Next(i, |s|);
    if s[j].Free? || Disp(s, j) == 0 then s[i := Free]
    else
      GapStep(s, i, s[j]);
      assert j != i;
      RemoveFrom(s[i := s[j]], j)
  }
}
