/**
  The canonical mapping: which block each height belongs to.  It must always be one
  parent-linked path from the root, although a reorganisation stops rewriting it as
  soon as it meets a height that already agrees.
 */
module Canonical {
  import opened Hashing
  import opened Ancestry

  /** The ancestor of a block at a height. */
  ghost function AncestorAt(t: BlockTree, h: Hash, n: nat): (a: Hash)
    requires Linked(t) && h in t.nodes && t.Number(t.root) <= n <= t.Number(h)
    ensures a in t.nodes && t.Number(a) == n
    decreases t.Number(h)
  {
    assert LinkedAt(t, h);
    if t.Number(h) == n then h
    else
      NotBelowRoot(t, t.Parent(h));
      AncestorAt(t, t.Parent(h), n)
  }

  ghost predicate PathAt(t: BlockTree, canon: map<nat, Hash>, tip: Hash, n: nat)
    requires Linked(t) && tip in t.nodes
  {
    && (n in canon <==> t.Number(t.root) <= n <= t.Number(tip))
    && (n in canon ==> canon[n] == AncestorAt(t, tip, n))
  }

  /** Heights from the root up to a block, each holding that block's ancestor. */
  ghost predicate IsPath(t: BlockTree, canon: map<nat, Hash>, tip: Hash)
    requires Linked(t) && tip in t.nodes
  {
    forall n: nat {:trigger PathAt(t, canon, tip, n)} :: PathAt(t, canon, tip, n)
  }

  /** Two blocks sharing an ancestor share everything below it. */
  lemma {:induction false} AncestorOfAncestor(t: BlockTree, h: Hash, m: nat, n: nat)
    requires Linked(t) && h in t.nodes && t.Number(t.root) <= n <= m <= t.Number(h)
    ensures AncestorAt(t, AncestorAt(t, h, m), n) == AncestorAt(t, h, n)
    decreases t.Number(h)
  {
    assert LinkedAt(t, h);
    if m < t.Number(h) {
      NotBelowRoot(t, t.Parent(h));
      AncestorOfAncestor(t, t.Parent(h), m, n);
    }
  }

  lemma {:induction false} AncestorStep(t: BlockTree, h: Hash, n: nat)
    requires Linked(t) && h in t.nodes && t.Number(t.root) < n <= t.Number(h)
    ensures var a := AncestorAt(t, h, n);
      a != t.root && t.Parent(a) in t.nodes && t.Parent(a) == AncestorAt(t, h, n - 1)
  {
    var a := AncestorAt(t, h, n);
    assert LinkedAt(t, a);
    NotBelowRoot(t, t.Parent(a));
    AncestorOfAncestor(t, h, n, n - 1);
  }

  lemma {:induction false} RootIsAncestor(t: BlockTree, h: Hash)
    requires Linked(t) && h in t.nodes
    ensures t.Number(t.root) <= t.Number(h)
    ensures AncestorAt(t, h, t.Number(t.root)) == t.root
  {
    NotBelowRoot(t, h);
    var a := AncestorAt(t, h, t.Number(t.root));
    NotBelowRoot(t, a);
  }

  /** The tree grows at its leaves only. */
  ghost predicate Grows(t: BlockTree, u: BlockTree) {
    && t.root == u.root
    && t.nodes.Keys <= u.nodes.Keys
    && forall h :: h in t.nodes ==> u.nodes[h] == t.nodes[h]
  }

  lemma {:induction false} AncestorsSurvive(t: BlockTree, u: BlockTree, h: Hash, n: nat)
    requires Linked(t) && Linked(u) && Grows(t, u) && h in t.nodes && t.Number(t.root) <= n <= t.Number(h)
    ensures AncestorAt(u, h, n) == AncestorAt(t, h, n)
    decreases t.Number(h)
  {
    assert LinkedAt(t, h) && LinkedAt(u, h);
    if n < t.Number(h) {
      NotBelowRoot(t, t.Parent(h));
      AncestorsSurvive(t, u, t.Parent(h), n);
    }
  }

  lemma {:induction false} PathSurvives(t: BlockTree, u: BlockTree, canon: map<nat, Hash>, tip: Hash)
    requires Linked(t) && Linked(u) && Grows(t, u) && tip in t.nodes && IsPath(t, canon, tip)
    ensures IsPath(u, canon, tip)
  {
    forall n: nat ensures PathAt(u, canon, tip, n) {
      assert PathAt(t, canon, tip, n);
      if n in canon { AncestorsSurvive(t, u, tip, n); }
    }
  }

  /** Cutting the tree above the root leaves the ancestors that remain where they were. */
  lemma {:induction false} AncestorsWithin(t: BlockTree, u: BlockTree, h: Hash, n: nat)
    requires Linked(t) && Linked(u) && h in u.nodes && u.Number(u.root) <= n <= u.Number(h)
    requires forall x :: x in u.nodes ==> x in t.nodes && t.nodes[x] == u.nodes[x]
    ensures t.Number(t.root) <= n && AncestorAt(u, h, n) == AncestorAt(t, h, n)
    decreases u.Number(h)
  {
    assert LinkedAt(t, h) && LinkedAt(u, h);
    NotBelowRoot(t, u.root);
    if n < u.Number(h) {
      assert h != u.root;
      NotBelowRoot(u, u.Parent(h));
      NotBelowRoot(t, h);
      AncestorsWithin(t, u, u.Parent(h), n);
    }
  }

  /** A hash absent from the mapping reads as the zero hash. */
  function At(canon: map<nat, Hash>, n: nat): (h: Hash) {
    if n in canon then canon[n] else zeroHash
  }

  // -------------------------------------------------------------- reorganisation

  ghost predicate RewritingAt(t: BlockTree, canon: map<nat, Hash>, old_tip: Hash, head: Hash, m: int, n: nat)
    requires Linked(t) && old_tip in t.nodes && head in t.nodes
  {
    if n <= m then
      && (n in canon <==> t.Number(t.root) <= n <= t.Number(old_tip) && n <= t.Number(head))
      && (n in canon ==> canon[n] == AncestorAt(t, old_tip, n))
    else PathAt(t, canon, head, n)
  }

  /**
    Midway through a rewrite towards head: the heights above m already hold head's
    ancestors, those up to m still hold the old tip's.
   */
  ghost predicate Rewriting(t: BlockTree, canon: map<nat, Hash>, old_tip: Hash, head: Hash, m: int)
    requires Linked(t) && old_tip in t.nodes && head in t.nodes
  {
    forall n: nat {:trigger RewritingAt(t, canon, old_tip, head, m, n)} :: RewritingAt(t, canon, old_tip, head, m, n)
  }

  /** Heights above a new head dropped, the rewrite can begin. */
  lemma {:induction false} RewriteBegins(t: BlockTree, canon: map<nat, Hash>, tip: Hash, head: Hash, low: map<nat, Hash>)
    requires Linked(t) && tip in t.nodes && head in t.nodes && IsPath(t, canon, tip)
    requires forall n: nat :: n in low <==> n in canon && n <= t.Number(head)
    requires forall n: nat :: n in low ==> low[n] == canon[n]
    ensures Rewriting(t, low, tip, head, t.Number(head))
  {
    forall n: nat ensures RewritingAt(t, low, tip, head, t.Number(head), n) {
      assert PathAt(t, canon, tip, n);
    }
  }

  /** Writing the head's ancestor at height m takes the rewrite one height down. */
  lemma {:induction false} RewriteStep(t: BlockTree, canon: map<nat, Hash>, tip: Hash, head: Hash, m: nat)
    requires Linked(t) && tip in t.nodes && head in t.nodes && t.Number(t.root) <= m <= t.Number(head)
    requires Rewriting(t, canon, tip, head, m)
    ensures Rewriting(t, canon[m := AncestorAt(t, head, m)], tip, head, m - 1)
  {
    var next, k := canon[m := AncestorAt(t, head, m)], m - 1;
    forall n: nat ensures RewritingAt(t, next, tip, head, k, n) {
      assert RewritingAt(t, canon, tip, head, m, n);
    }
  }

  /** A rewrite that has passed the root is complete. */
  lemma {:induction false} RewriteEnds(t: BlockTree, canon: map<nat, Hash>, tip: Hash, head: Hash)
    requires Linked(t) && tip in t.nodes && head in t.nodes
    requires Rewriting(t, canon, tip, head, t.Number(t.root) - 1)
    ensures IsPath(t, canon, head)
  {
    forall n: nat ensures PathAt(t, canon, head, n) {
      assert RewritingAt(t, canon, tip, head, t.Number(t.root) - 1, n);
    }
  }

  /** Meeting an agreeing height, the rest of the old path is already head's. */
  lemma {:induction false} AgreementIsEnough(t: BlockTree, canon: map<nat, Hash>, old_tip: Hash, head: Hash, m: nat)
    requires Linked(t) && old_tip in t.nodes && head in t.nodes && t.Number(t.root) <= m <= t.Number(head)
    requires Rewriting(t, canon, old_tip, head, m)
    requires m in canon && canon[m] == AncestorAt(t, head, m)
    ensures IsPath(t, canon, head)
  {
    assert RewritingAt(t, canon, old_tip, head, m, m);
    forall n: nat ensures PathAt(t, canon, head, n) {
      assert RewritingAt(t, canon, old_tip, head, m, n);
      if t.Number(t.root) <= n <= m {
        AncestorOfAncestor(t, head, m, n);
        AncestorOfAncestor(t, old_tip, m, n);
      }
    }
  }
}
