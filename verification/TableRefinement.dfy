/**
  A robin-hood table refines a map: every operation keeps the ordering of
  displacements, and the early-terminating lookup answers exactly what a map would.
 */
module TableRefinement {
  import opened Options
  import opened RobinHood

  ghost function KeySet<K, V>(s: seq<Slot<K, V>>): (keys: set<K>) {
    set i | 0 <= i < |s| && s[i].Used? :: s[i].key
  }

  /** The slot that holds a key. */
  ghost function Where<K, V>(s: seq<Slot<K, V>>, key: K): (i: nat)
    requires key in KeySet(s)
    ensures i < |s| && s[i].Used? && s[i].key == key
  {
    var i :| 0 <= i < |s| && s[i].Used? && s[i].key == key;
    i
  }

  /** The map a table stands for. */
  ghost function Contents<K, V>(s: seq<Slot<K, V>>): (m: map<K, V>)
    requires Unique(s)
    ensures m.Keys == KeySet(s)
    ensures forall i :: 0 <= i < |s| && s[i].Used? ==> s[i].key in m && m[s[i].key] == s[i].val
  {
    var m := map k | k in KeySet(s) :: s[Where(s, k)].val;
    assert forall i :: 0 <= i < |s| && s[i].Used? ==> s[i].key in m && Apart(s, i, Where(s, s[i].key));
    m
  }

  /** A map with the table's entries and no other key is the table's map. */
  lemma {:induction false} ContentsAre<K, V>(s: seq<Slot<K, V>>, m: map<K, V>)
    requires Unique(s)
    requires forall i :: 0 <= i < |s| && s[i].Used? ==> s[i].key in m && m[s[i].key] == s[i].val
    requires forall k :: k in m ==> k in KeySet(s)
    ensures Contents(s) == m
  {
    forall k | k in m ensures k in Contents(s) && Contents(s)[k] == m[k] {
      var i := Where(s, k);
      assert s[i].key == k;
    }
  }

  ghost function Live<K, V>(s: seq<Slot<K, V>>): (l: set<nat>) {
    set i: nat | i < |s| && s[i].Used?
  }

  // ------------------------------------------------------------------- lookup

  /** Behind a record displaced by d, the d slots back to its home are all used, each displaced enough. */
  lemma {:induction false} ChainBack<K, V>(s: seq<Slot<K, V>>, i: nat, e: nat)
    requires Ordered(s) && i < |s| && s[i].Used? && e <= Disp(s, i)
    ensures var p := Back(i, e, |s|); s[p].Used? && Disp(s, p) >= Disp(s, i) - e
  {
    if e > 0 {
      ChainBack(s, i, e - 1);
      var p := Back(i, e - 1, |s|);
      assert Supported(s, p);
      assert Back(p, 1, |s|) == Back(i, e, |s|);
    }
  }

  lemma {:induction false} LookupReaches<K, V>(s: seq<Slot<K, V>>, h: nat, key: K, dist: nat, p: nat)
    requires Ordered(s) && Unique(s) && h < |s|
    requires p < |s| && s[p].Used? && s[p].key == key && s[p].home == h
    requires dist <= Disp(s, p)
    ensures Lookup(s, h, key, dist) == Some(p)
    decreases |s| - dist
  {
    var i := Step(h, dist, |s|);
    ChainBack(s, p, Disp(s, p) - dist);
    assert Back(p, Disp(s, p) - dist, |s|) == i;
    assert Apart(s, i, p);
    if s[i].key != key {
      assert dist < Disp(s, p);
      LookupReaches(s, h, key, dist + 1, p);
    }
  }

  lemma {:induction false} LookupIsMap<K, V>(s: seq<Slot<K, V>>, hm: K -> nat, key: K)
    requires Valid(s, hm) && hm(key) < |s|
    ensures Lookup(s, hm(key), key, 0).Some? <==> key in Contents(s)
    ensures var r := Lookup(s, hm(key), key, 0); r.Some? ==> s[r.value].val == Contents(s)[key]
  {
    var r := Lookup(s, hm(key), key, 0);
    if r.Some? {
      assert s[r.value].key in Contents(s);
    } else if key in Contents(s) {
      var p :| 0 <= p < |s| && s[p].Used? && s[p].key == key;
      LookupReaches(s, hm(key), key, 0, p);
    }
  }

  // ------------------------------------------------------------------- insert

  /** The carried record may be left at its current position without breaking the order. */
  ghost predicate Carried<K, V>(s: seq<Slot<K, V>>, carry: Slot<K, V>, dist: nat) {
    && CanCarry(s, carry, dist)
    && Ordered(s)
    && (dist > 0 ==>
          var p := Back(Step(carry.home, dist, |s|), 1, |s|);
          s[p].Used? && Disp(s, p) >= dist - 1)
  }

  ghost predicate Absent<K, V>(s: seq<Slot<K, V>>, key: K) {
    forall i :: 0 <= i < |s| && s[i].Used? ==> s[i].key != key
  }

  lemma {:induction false} PlaceOrdered<K, V>(s: seq<Slot<K, V>>, carry: Slot<K, V>, dist: nat)
    requires Carried(s, carry, dist)
    requires var i := Step(carry.home, dist, |s|); s[i].Free? || Disp(s, i) < dist
    ensures var i := Step(carry.home, dist, |s|);
      Ordered(s[i := carry]) && Disp(s[i := carry], i) == dist
  {
    var i := Step(carry.home, dist, |s|);
    var t := s[i := carry];
    assert Disp(t, i) == dist;
    forall x | 0 <= x < |t| ensures Supported(t, x) {
      assert Supported(s, x);
    }
  }

  lemma {:induction false} PlaceUnique<K, V>(s: seq<Slot<K, V>>, carry: Slot<K, V>, i: nat)
    requires Unique(s) && carry.Used? && i < |s| && Absent(s, carry.key)
    ensures Unique(s[i := carry])
    ensures s[i].Used? ==> Absent(s[i := carry], s[i].key)
  {
    var t := s[i := carry];
    forall x: nat, y: nat | x < |t| && y < |t| ensures Apart(t, x, y) {
      assert Apart(s, x, y);
    }
    forall x | 0 <= x < |t| && t[x].Used? ensures s[i].Used? ==> t[x].key != s[i].key {
      assert Apart(s, x, i);
    }
  }

  /** Overwriting a slot with a record new to the table adds its key, in place of the resident's if there was one. */
  lemma {:induction false} PlaceContents<K, V>(s: seq<Slot<K, V>>, carry: Slot<K, V>, i: nat)
    requires Unique(s) && carry.Used? && i < |s| && Absent(s, carry.key)
    ensures Unique(s[i := carry])
    ensures s[i].Free? ==> Contents(s[i := carry]) == Contents(s)[carry.key := carry.val]
    ensures s[i].Used? ==>
      && Absent(s[i := carry], s[i].key)
      && Contents(s[i := carry])[s[i].key := s[i].val] == Contents(s)[carry.key := carry.val]
  {
    var t := s[i := carry];
    PlaceUnique(s, carry, i);
    var m, n := Contents(s), Contents(t);
    var left := if s[i].Used? then n[s[i].key := s[i].val] else n;
    forall k | k in m[carry.key := carry.val] ensures k in left {
      if k == carry.key {
        assert t[i].key == k;
      } else {
        var x := Where(s, k);
        assert x != i ==> t[x].key == k;
      }
    }
    forall k | k in left ensures k in m[carry.key := carry.val] && left[k] == m[carry.key := carry.val][k] {
      if s[i].Used? && k == s[i].key {
        assert s[i].key in m;
      } else {
        var x := Where(t, k);
        assert t[x].key == k && (x != i ==> s[x].key == k);
      }
    }
  }

  /** After a swap or a step on, the carried record may still be left where it is. */
  lemma {:induction false} CarriedOn<K, V>(s: seq<Slot<K, V>>, carry: Slot<K, V>, dist: nat)
    requires Carried(s, carry, dist) && s[Step(carry.home, dist, |s|)].Used?
    ensures var i := Step(carry.home, dist, |s|);
      if Disp(s, i) < dist then Carried(s[i := carry], s[i], Disp(s, i) + 1) else Carried(s, carry, dist + 1)
  {
    var i := Step(carry.home, dist, |s|);
    CarryStep(s, carry, dist);
    assert Back(Next(i, |s|), 1, |s|) == i;
    if Disp(s, i) < dist {
      PlaceOrdered(s, carry, dist);
      assert Step(s[i].home, Disp(s, i) + 1, |s|) == Next(i, |s|);
    } else {
      assert Step(carry.home, dist + 1, |s|) == Next(i, |s|);
    }
  }

  lemma {:induction false} InsertOrders<K, V>(s: seq<Slot<K, V>>, carry: Slot<K, V>, dist: nat)
    requires Carried(s, carry, dist)
    ensures Ordered(InsertFrom(s, carry, dist))
    decreases Gap(s, Step(carry.home, dist, |s|))
  {
    var i := Step(carry.home, dist, |s|);
    if s[i].Free? {
      PlaceOrdered(s, carry, dist);
    } else {
      CarriedOn(s, carry, dist);
      CarryStep(s, carry, dist);
      if Disp(s, i) < dist {
        InsertOrders(s[i := carry], s[i], Disp(s, i) + 1);
      } else {
        InsertOrders(s, carry, dist + 1);
      }
    }
  }

  lemma {:induction false} PlaceCounts<K, V>(s: seq<Slot<K, V>>, carry: Slot<K, V>, i: nat)
    requires carry.Used? && i < |s|
    ensures |Live(s[i := carry])| == |Live(s)| + if s[i].Free? then 1 else 0
  {
    assert Live(s[i := carry]) == Live(s) + {i};
  }

  lemma {:induction false} InsertCounts<K, V>(s: seq<Slot<K, V>>, carry: Slot<K, V>, dist: nat)
    requires CanCarry(s, carry, dist)
    ensures |Live(InsertFrom(s, carry, dist))| == |Live(s)| + 1
    decreases Gap(s, Step(carry.home, dist, |s|))
  {
    var i := Step(carry.home, dist, |s|);
    PlaceCounts(s, carry, i);
    if s[i].Used? {
      CarryStep(s, carry, dist);
      if Disp(s, i) < dist {
        InsertCounts(s[i := carry], s[i], Disp(s, i) + 1);
      } else {
        InsertCounts(s, carry, dist + 1);
      }
    }
  }

  lemma {:induction false} InsertAdds<K, V>(s: seq<Slot<K, V>>, hm: K -> nat, carry: Slot<K, V>, dist: nat)
    requires CanCarry(s, carry, dist)
    requires Hashed(s, hm) && Unique(s)
    requires carry.home == hm(carry.key) && Absent(s, carry.key)
    ensures var t := InsertFrom(s, carry, dist);
      && Hashed(t, hm) && Unique(t)
      && Contents(t) == Contents(s)[carry.key := carry.val]
    decreases Gap(s, Step(carry.home, dist, |s|))
  {
    var i := Step(carry.home, dist, |s|);
    PlaceContents(s, carry, i);
    if s[i].Used? {
      CarryStep(s, carry, dist);
      if Disp(s, i) < dist {
        InsertAdds(s[i := carry], hm, s[i], Disp(s, i) + 1);
      } else {
        InsertAdds(s, hm, carry, dist + 1);
      }
    }
  }

  // ------------------------------------------------------------------- remove

  lemma {:induction false} ShiftOrdered<K, V>(s: seq<Slot<K, V>>, i: nat)
    requires Ordered(s) && i < |s| && s[i].Used?
    ensures var j := Next(i, |s|);
      if s[j].Free? || Disp(s, j) == 0 then Ordered(s[i := Free])
      else Ordered(s[i := s[j]])
  {
    var j := Next(i, |s|);
    assert Supported(s, i) && Supported(s, j) && Back(j, 1, |s|) == i;
    var t := if s[j].Free? || Disp(s, j) == 0 then s[i := Free] else s[i := s[j]];
    forall x | 0 <= x < |t| ensures Supported(t, x) {
      assert Supported(s, x);
    }
  }

  lemma {:induction false} RemoveRefines<K, V>(s: seq<Slot<K, V>>, hm: K -> nat, i: nat)
    requires Ordered(s) && Hashed(s, hm) && HasFree(s) && i < |s| && s[i].Used?
    requires Unique(s[i := Free])
    ensures var t := RemoveFrom(s, i);
      && Ordered(t) && Hashed(t, hm) && Unique(t) && HasFree(t)
      && Contents(t) == Contents(s[i := Free])
      && |Live(t)| == |Live(s)| - 1
    decreases Gap(s, i)
  {
    var j := Next(i, |s|);
    ShiftOrdered(s, i);
    if s[j].Free? || Disp(s, j) == 0 {
      var t := s[i := Free];
      assert Live(s) == Live(t) + {i};
      assert t[i].Free?;
    } else {
      var t := s[i := s[j]];
      GapStep(s, i, s[j]);
      assert i != j;
      assert Live(t) == Live(s);
      SameContents(s[i := Free], t[j := Free], i, j);
      RemoveRefines(t, hm, j);
    }
  }

  /** A record moved from slot j to the free slot i leaves the table's map alone. */
  lemma {:induction false} SameContents<K, V>(a: seq<Slot<K, V>>, b: seq<Slot<K, V>>, i: nat, j: nat)
    requires |a| == |b| && i < |a| && j < |a| && i != j
    requires Unique(a) && a[i].Free? && a[j].Used?
    requires b == a[i := a[j]][j := Free]
    ensures Unique(b) && Contents(b) == Contents(a)
  {
    forall x: nat, y: nat | x < |b| && y < |b| ensures Apart(b, x, y) {
      assert Apart(a, if x == i then j else x, if y == i then j else y);
    }
    forall x | 0 <= x < |b| && b[x].Used? ensures b[x].key in Contents(a) && Contents(a)[b[x].key] == b[x].val {
      assert b[x] == a[if x == i then j else x];
    }
    forall k | k in Contents(a) ensures k in KeySet(b) {
      var x := Where(a, k);
      assert b[if x == j then i else x].key == k;
    }
    ContentsAre(b, Contents(a));
  }
}
