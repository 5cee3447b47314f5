/**
  Picking some elements of a list out in order, stated by position: what stands where in
  the result, and nothing else stands there.
 */
module Filtering {
  import opened Options

  /** How many of the first i offers give something. */
  function Rank<T>(offers: seq<Option<T>>, i: nat): (n: nat)
    requires i <= |offers|
  {
    if i == 0 then 0 else Rank(offers, i - 1) + if offers[i - 1].Some? then 1 else 0
  }

  ghost predicate GivenAt<T>(offers: seq<Option<T>>, list: seq<T>, i: nat)
    requires i < |offers|
  {
    offers[i].Some? ==> Rank(offers, i) < |list| && list[Rank(offers, i)] == offers[i].value
  }

  /** The list is what the offers give, in their order. */
  ghost predicate Gathers<T>(offers: seq<Option<T>>, list: seq<T>) {
    && |list| == Rank(offers, |offers|)
    && forall i: nat {:trigger GivenAt(offers, list, i)} :: i < |offers| ==> GivenAt(offers, list, i)
  }

  lemma {:induction false} SameRank<T>(a: seq<Option<T>>, b: seq<Option<T>>, i: nat)
    requires i <= |a| && i <= |b| && forall k :: 0 <= k < i ==> a[k] == b[k]
    ensures Rank(a, i) == Rank(b, i)
  {
    if i > 0 { SameRank(a, b, i - 1); }
  }

  /** One more offer adds what it gives at the end. */
  lemma {:induction false} GathersNext<T>(offers: seq<Option<T>>, list: seq<T>, more: seq<Option<T>>, longer: seq<T>)
    requires Gathers(offers, list) && |more| == |offers| + 1 && forall k :: 0 <= k < |offers| ==> more[k] == offers[k]
    requires longer == if more[|offers|].Some? then list + [more[|offers|].value] else list
    ensures Gathers(more, longer)
  {
    SameRank(offers, more, |offers|);
    forall i: nat | i < |more| ensures GivenAt(more, longer, i) {
      if i < |offers| {
        assert GivenAt(offers, list, i);
        SameRank(offers, more, i);
      }
    }
  }

  /** Every place of the result was given by one of the offers. */
  lemma {:induction false} GivenBy<T>(offers: seq<Option<T>>, j: nat, n: nat) returns (i: nat)
    requires n <= |offers| && j < Rank(offers, n)
    ensures i < n && offers[i].Some? && Rank(offers, i) == j
    decreases n
  {
    if Rank(offers, n - 1) == j { i := n - 1; } else { i := GivenBy(offers, j, n - 1); }
  }

  /** The offers decide the list. */
  lemma {:induction false} GathersOnce<T>(offers: seq<Option<T>>, a: seq<T>, b: seq<T>)
    requires Gathers(offers, a) && Gathers(offers, b)
    ensures a == b
  {
    forall j: nat | j < |a| ensures a[j] == b[j] {
      var i := GivenBy(offers, j, |offers|);
      assert GivenAt(offers, a, i) && GivenAt(offers, b, i);
    }
  }

  /** What is in the list is what was given, and the other way round. */
  lemma {:induction false} InGathered<T>(offers: seq<Option<T>>, list: seq<T>, x: T)
    requires Gathers(offers, list)
    ensures x in list <==> Some(x) in offers
  {
    if x in list {
      var j :| 0 <= j < |list| && list[j] == x;
      var i := GivenBy(offers, j, |offers|);
      assert GivenAt(offers, list, i);
      assert offers[i] == Some(x);
    }
    if Some(x) in offers {
      var i: nat :| i < |offers| && offers[i] == Some(x);
      assert GivenAt(offers, list, i);
    }
  }
}
