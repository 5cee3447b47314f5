/**
  Whole runs of a drive table from the all-zero image: any sequence of puts and
  deletes behaves as the same sequence on a plain bounded map.
 */
module TableRuns {
  import opened Options
  import opened RobinHood
  import opened TableRefinement

  /** What a drive table keeps between operations. */
  ghost predicate Inv<K, V>(s: seq<Slot<K, V>>, hm: K -> nat, limit: nat) {
    Valid(s, hm) && |Live(s)| <= limit < |s|
  }

  ghost function Put<K, V>(s: seq<Slot<K, V>>, hm: K -> nat, limit: nat, key: K, val: V): (r: Option<seq<Slot<K, V>>>)
    requires Inv(s, hm, limit) && hm(key) < |s|
  {
    var at := Lookup(s, hm(key), key, 0);
    if at.Some? then Some(s[at.value := Used(hm(key), key, val)])
    else if |Live(s)| >= limit then None
    else Some(InsertFrom(s, Used(hm(key), key, val), 0))
  }

  ghost function Delete<K, V>(s: seq<Slot<K, V>>, hm: K -> nat, key: K): (r: seq<Slot<K, V>>)
    requires Valid(s, hm) && hm(key) < |s|
  {
    var at := Lookup(s, hm(key), key, 0);
    if at.Some? then RemoveFrom(s, at.value) else s
  }

  // ------------------------------------------------------------ cardinalities

  /** The first n positions. */
  ghost function Range(n: nat): (r: set<nat>)
    ensures |r| == n
    ensures forall i: nat :: i in r <==> i < n
  {
    if n == 0 then {} else Range(n - 1) + {n - 1}
  }

  lemma {:induction false} NotFullHasFree<K, V>(s: seq<Slot<K, V>>)
    requires |Live(s)| < |s|
    ensures HasFree(s)
  {
    assert !HasFree(s) ==> Live(s) == Range(|s|);
  }

  /** The live counter of a table is the size of the map it stands for. */
  lemma {:induction false} LiveIsSize<K, V>(s: seq<Slot<K, V>>)
    requires Unique(s)
    ensures |Live(s)| == |Contents(s)|
  {
    KeySetSize(s, Live(s), set i | i in Live(s) :: s[i].key);
    assert (set i | i in Live(s) :: s[i].key) == Contents(s).Keys;
  }

  lemma {:induction false} KeySetSize<K, V>(s: seq<Slot<K, V>>, idx: set<nat>, keys: set<K>)
    requires Unique(s) && idx <= Live(s)
    requires keys == set i | i in idx :: s[i].key
    ensures |keys| == |idx|
    decreases idx
  {
    if idx != {} {
      var i :| i in idx;
      assert forall j :: j in idx ==> Apart(s, i, j);
      KeySetSize(s, idx - {i}, keys - {s[i].key});
    }
  }

  // ------------------------------------------------------------- one operation

  lemma {:induction false} OverwriteOrdered<K, V>(s: seq<Slot<K, V>>, i: nat, val: V)
    requires Ordered(s) && i < |s| && s[i].Used?
    ensures Ordered(s[i := s[i].(val := val)])
  {
    var t := s[i := s[i].(val := val)];
    forall x | 0 <= x < |t| ensures Supported(t, x) {
      assert Supported(s, x);
    }
  }

  lemma {:induction false} Overwrite<K, V>(s: seq<Slot<K, V>>, hm: K -> nat, i: nat, val: V)
    requires Valid(s, hm) && i < |s| && s[i].Used?
    ensures var t := s[i := s[i].(val := val)];
      && Valid(t, hm) && Live(t) == Live(s)
      && Contents(t) == Contents(s)[s[i].key := val]
  {
    var t := s[i := s[i].(val := val)];
    OverwriteOrdered(s, i, val);
    var e :| 0 <= e < |s| && s[e].Free?;
    assert t[e].Free?;
    OverwriteContents(s, i, val);
  }

  lemma {:induction false} OverwriteContents<K, V>(s: seq<Slot<K, V>>, i: nat, val: V)
    requires Unique(s) && i < |s| && s[i].Used?
    ensures var t := s[i := s[i].(val := val)]; Unique(t) && Contents(t) == Contents(s)[s[i].key := val]
  {
    var t, m := s[i := s[i].(val := val)], Contents(s)[s[i].key := val];
    forall x: nat, y: nat | x < |t| && y < |t| ensures Apart(t, x, y) {
      assert Apart(s, x, y);
    }
    forall x | 0 <= x < |t| && t[x].Used? ensures t[x].key in m && m[t[x].key] == t[x].val {
      assert Apart(s, x, i);
    }
    forall k | k in m ensures k in KeySet(t) {
      var x := if k == s[i].key then i else Where(s, k);
      assert t[x].key == k;
    }
    ContentsAre(t, m);
  }

  lemma {:induction false} InsertRefines<K, V>(s: seq<Slot<K, V>>, hm: K -> nat, limit: nat, key: K, val: V)
    requires Inv(s, hm, limit) && hm(key) < |s|
    requires key !in Contents(s) && |Live(s)| < limit
    ensures var t := InsertFrom(s, Used(hm(key), key, val), 0);
      Inv(t, hm, limit) && Contents(t) == Contents(s)[key := val] && |Live(t)| == |Live(s)| + 1
  {
    var r := Used(hm(key), key, val);
    assert Absent(s, key) by {
      forall i | 0 <= i < |s| && s[i].Used? ensures s[i].key != key {
        assert s[i].key in Contents(s);
      }
    }
    InsertOrders(s, r, 0);
    InsertCounts(s, r, 0);
    InsertAdds(s, hm, r, 0);
    NotFullHasFree(InsertFrom(s, r, 0));
  }

  lemma {:induction false} PutRefines<K, V>(s: seq<Slot<K, V>>, hm: K -> nat, limit: nat, key: K, val: V)
    requires Inv(s, hm, limit) && hm(key) < |s|
    ensures Put(s, hm, limit, key, val).None? <==> key !in Contents(s) && |Contents(s)| >= limit
    ensures var r := Put(s, hm, limit, key, val);
      r.Some? ==> Inv(r.value, hm, limit) && |r.value| == |s| && Contents(r.value) == Contents(s)[key := val]
  {
    LookupIsMap(s, hm, key);
    LiveIsSize(s);
    var at := Lookup(s, hm(key), key, 0);
    if at.Some? {
      Overwrite(s, hm, at.value, val);
      assert s[at.value].(val := val) == Used(hm(key), key, val);
    } else if |Live(s)| < limit {
      InsertRefines(s, hm, limit, key, val);
    }
  }

  lemma {:induction false} DropOne<K, V>(s: seq<Slot<K, V>>, i: nat)
    requires Unique(s) && i < |s| && s[i].Used?
    ensures Unique(s[i := Free]) && Contents(s[i := Free]) == Contents(s) - {s[i].key}
  {
    var t, m := s[i := Free], Contents(s) - {s[i].key};
    forall x: nat, y: nat | x < |t| && y < |t| ensures Apart(t, x, y) {
      assert Apart(s, x, y);
    }
    forall x | 0 <= x < |t| && t[x].Used? ensures t[x].key in m && m[t[x].key] == t[x].val {
      assert Apart(s, x, i);
    }
    forall k | k in m ensures k in KeySet(t) {
      var x := Where(s, k);
      assert t[x].key == k;
    }
    ContentsAre(t, m);
  }

  lemma {:induction false} DeleteRefines<K, V>(s: seq<Slot<K, V>>, hm: K -> nat, limit: nat, key: K)
    requires Inv(s, hm, limit) && hm(key) < |s|
    ensures var t := Delete(s, hm, key);
      Inv(t, hm, limit) && |t| == |s| && Contents(t) == Contents(s) - {key}
  {
    LookupIsMap(s, hm, key);
    var at := Lookup(s, hm(key), key, 0);
    if at.Some? {
      DropOne(s, at.value);
      RemoveRefines(s, hm, at.value);
    }
  }

  // ------------------------------------------------------------------ whole runs

  datatype Op<K, V> = Store(key: K, val: V) | Erase(key: K)

  /** One operation on a plain map bounded by the load limit. */
  ghost function OnMap<K, V>(m: map<K, V>, limit: nat, op: Op<K, V>): (n: map<K, V>) {
    match op
    case Store(k, v) => if k !in m && |m| >= limit then m else m[k := v]
    case Erase(k) => m - {k}
  }

  ghost function MapRun<K, V>(limit: nat, ops: seq<Op<K, V>>): (m: map<K, V>) {
    if ops == [] then map[]
    else OnMap(MapRun(limit, ops[..|ops| - 1]), limit, ops[|ops| - 1])
  }

  ghost predicate HashInto<K(!new)>(hm: K -> nat, c: nat) {
    forall k :: hm(k) < c
  }

  ghost function OnTable<K(!new), V>(s: seq<Slot<K, V>>, hm: K -> nat, limit: nat, op: Op<K, V>): (t: seq<Slot<K, V>>)
    requires Inv(s, hm, limit) && HashInto(hm, |s|)
  {
    match op
    case Store(k, v) => (var r := Put(s, hm, limit, k, v); if r.Some? then r.value else s)
    case Erase(k) => Delete(s, hm, k)
  }

  lemma {:induction false} OnTableKeeps<K(!new), V>(s: seq<Slot<K, V>>, hm: K -> nat, limit: nat, op: Op<K, V>)
    requires Inv(s, hm, limit) && HashInto(hm, |s|)
    ensures var t := OnTable(s, hm, limit, op);
      Inv(t, hm, limit) && |t| == |s| && Contents(t) == OnMap(Contents(s), limit, op)
  {
    match op
    case Store(k, v) => PutRefines(s, hm, limit, k, v);
    case Erase(k) => DeleteRefines(s, hm, limit, k);
  }

  /** The table after a run of operations on an all-free image of c slots. */
  ghost function TableRun<K(!new), V>(hm: K -> nat, c: nat, limit: nat, ops: seq<Op<K, V>>): (s: seq<Slot<K, V>>)
    requires limit < c && HashInto(hm, c)
    ensures |s| == c && Inv(s, hm, limit)
    decreases |ops|
  {
    if ops == [] then
      var s := seq(c, _ => Free);
      assert s[0].Free? && Live(s) == {};
      s
    else
      var s := TableRun(hm, c, limit, ops[..|ops| - 1]);
      OnTableKeeps(s, hm, limit, ops[|ops| - 1]);
      OnTable(s, hm, limit, ops[|ops| - 1])
  }

  lemma {:induction false} RunContents<K(!new), V>(hm: K -> nat, c: nat, limit: nat, ops: seq<Op<K, V>>)
    requires limit < c && HashInto(hm, c)
    ensures Contents(TableRun(hm, c, limit, ops)) == MapRun(limit, ops)
    decreases |ops|
  {
    if ops == [] {
      assert Contents(TableRun(hm, c, limit, ops)) == map[];
    } else {
      var p := ops[..|ops| - 1];
      RunContents(hm, c, limit, p);
      OnTableKeeps(TableRun(hm, c, limit, p), hm, limit, ops[|ops| - 1]);
    }
  }

  /**
    Any run of stores and erasures leaves exactly the map the run leaves on a plain
    bounded map, and the early-terminating lookup reads it: the last value stored
    under the key, or absence.
   */
  lemma {:induction false} RunRefinesMap<K(!new), V>(hm: K -> nat, c: nat, limit: nat, ops: seq<Op<K, V>>, key: K)
    requires limit < c && HashInto(hm, c)
    ensures var s := TableRun(hm, c, limit, ops);
      && Contents(s) == MapRun(limit, ops)
      && |Live(s)| == |MapRun(limit, ops)| <= limit
      && (var at := Lookup(s, hm(key), key, 0);
          && (at.None? <==> key !in MapRun(limit, ops))
          && (at.Some? ==> s[at.value].val == MapRun(limit, ops)[key]))
  {
    RunContents(hm, c, limit, ops);
    LookupIsMap(TableRun(hm, c, limit, ops), hm, key);
    LiveIsSize(TableRun(hm, c, limit, ops));
  }
}
