/**
  The accumulator as the chain runs it: a frontier updated in place by a carry loop,
  cloned before a child block extends it.
 */
module Accumulator {
  import opened Hashing
  import opened MerkleTree
  import opened OutputTree

  /** The table of default nodes, lifted level by level. */
  method ZeroHashes() returns (z: array<Hash>)
    ensures fresh(z) && z.Length == HEIGHT + 1
    ensures forall h :: 0 <= h <= HEIGHT ==> z[h] == Zero(h)
  {
    z := new Hash[HEIGHT + 1](_ => zeroHash);
    var h := 1;
    while h <= HEIGHT
      invariant 1 <= h <= HEIGHT + 1
      invariant forall x :: 0 <= x < h ==> z[x] == Zero(x)
    {
      z[h] := hashPair(z[h - 1], z[h - 1]);
      h := h + 1;
    }
  }

  class Tree {
    var count: nat
    var branch: array<Hash>

    ghost function View(): (f: Frontier)
      reads this, branch
    {
      Frontier(count, branch[..])
    }

    constructor ()
      ensures View() == EMPTY && fresh(branch)
    {
      count, branch := 0, new Hash[0];
    }

    constructor Clone(t: Tree)
      ensures View() == t.View() && fresh(branch)
    {
      count := t.count;
      var b := new Hash[t.branch.Length](i requires 0 <= i < t.branch.Length reads t, t.branch => t.branch[i]);
      branch := b;
      new;
      assert branch[..] == t.branch[..];
    }

    /** Appends zero hashes until level h exists. */
    method Grow(h: nat)
      modifies this`branch
      ensures old(branch).Length <= branch.Length
      ensures branch.Length == if h < old(branch).Length then old(branch).Length else h + 1
      ensures branch == old(branch) || fresh(branch)
      ensures forall x :: 0 <= x < branch.Length ==>
        branch[x] == if x < old(branch).Length then old(branch[x]) else zeroHash
    {
      if branch.Length <= h {
        var b := new Hash[h + 1](_ => zeroHash);
        var i := 0;
        while i < branch.Length
          invariant branch == old(branch) && branch.Length <= h && unchanged(branch)
          invariant 0 <= i <= branch.Length
          invariant forall x :: 0 <= x < i ==> b[x] == branch[x]
          invariant forall x :: i <= x < b.Length ==> b[x] == zeroHash
        {
          b[i] := branch[i];
          i := i + 1;
        }
        branch := b;
      }
    }

    /** One leaf carried up the frontier; ok is false where the source panics. */
    method Insert(leaf: Hash) returns (ok: bool)
      requires Sized(View())
      modifies this, branch
      ensures var next := Carry(old(View()), leaf, 0);
        ok == next.Some? && View() == if ok then next.value else old(View())
      ensures branch == old(branch) || fresh(branch)
    {
      ghost var f := View();
      var node, size := leaf, count;
      var h := 0;
      while h < HEIGHT
        invariant 0 <= h <= HEIGHT
        invariant View() == f && branch == old(branch)
        invariant size == Shr(count, h)
        invariant Carry(f, leaf, 0) == Carry(f, node, h)
      {
        if size % 2 == 0 {
          Grow(h);
          branch[h] := node;
          count := count + 1;
          assert branch[..] == Park(f.branch, h, node);
          return true;
        }
        assert Bit(count, h);
        node := hashPair(branch[h], node);
        size := size / 2;
        h := h + 1;
      }
      return false;
    }

    /** Extends a copy; the receiver keeps its leaves whatever the child appends. */
    method Append(leaves: seq<Hash>) returns (next: Tree, ok: bool)
      requires Sized(View())
      ensures ok == OutputTree.Append(View(), leaves).Some?
      ensures ok ==> next.View() == OutputTree.Append(View(), leaves).value
      ensures leaves == [] ==> next == this
      ensures leaves != [] ==> fresh(next) && fresh(next.branch)
    {
      if leaves == [] {
        return this, true;
      }
      next := new Tree.Clone(this);
      var i := 0;
      while i < |leaves|
        invariant 0 <= i <= |leaves|
        invariant fresh(next) && fresh(next.branch)
        invariant Sized(next.View())
        invariant OutputTree.Append(View(), leaves) == OutputTree.Append(next.View(), leaves[i..])
      {
        ghost var f := next.View();
        CarrySized(f, leaves[i], 0);
        assert leaves[i..][0] == leaves[i] && leaves[i..][1..] == leaves[i + 1..];
        ok := next.Insert(leaves[i]);
        if !ok { return; }
        i := i + 1;
      }
      ok := true;
    }

    method Root() returns (node: Hash)
      requires Sized(View())
      ensures node == OutputTree.Root(View())
    {
      ghost var f := View();
      var zeros := ZeroHashes();
      node := zeroHash;
      var size := count;
      var h := 0;
      while h < HEIGHT
        invariant 0 <= h <= HEIGHT
        invariant size == Shr(count, h)
        invariant View() == f && RootFrom(f, node, h) == OutputTree.Root(f)
      {
        if size % 2 == 1 {
          assert Bit(f.count, h);
          node := hashPair(branch[h], node);
        } else {
          node := hashPair(node, zeros[h]);
        }
        size := size / 2;
        h := h + 1;
      }
    }
  }
}
