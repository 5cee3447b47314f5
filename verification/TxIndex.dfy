/**
  The index from a transaction to every block in memory that recorded it.
 */
module TxIndex {
  import opened Options
  import opened Hashing
  import opened Ancestry

  ghost predicate RecordsTx(n: Ancestry.Node, x: Hash) {
    exists i :: 0 <= i < |n.outputs| && n.outputs[i].txHash == Some(x)
  }

  predicate Listed(index: map<Hash, seq<Hash>>, x: Hash, h: Hash) {
    x in index && h in index[x]
  }

  /** The index names exactly the blocks in memory that recorded each transaction. */
  ghost predicate Indexed(t: BlockTree, index: map<Hash, seq<Hash>>) {
    forall x, h {:trigger Listed(index, x, h)} :: Listed(index, x, h) <==> h in t.nodes && RecordsTx(t.nodes[h], x)
  }

  /** Files a block under every transaction it recorded. */
  method IndexBlock(index: map<Hash, seq<Hash>>, n: Ancestry.Node, h: Hash, ghost t: BlockTree) returns (r: map<Hash, seq<Hash>>)
    requires Indexed(t, index) && h !in t.nodes
    ensures Indexed(t.(nodes := t.nodes[h := n]), r)
  {
    var outputs := n.outputs;
    r := index;
    for i := 0 to |outputs|
      invariant forall x, b :: Listed(r, x, b) <==>
        Listed(index, x, b) || (b == h && exists j :: 0 <= j < i && outputs[j].txHash == Some(x))
    {
      ghost var before := r;
      var x := outputs[i].txHash;
      if x.Some? {
        r := r[x.value := (if x.value in r then r[x.value] else []) + [h]];
        assert forall y, b :: Listed(r, y, b) <==> Listed(before, y, b) || (y == x.value && b == h);
      }
    }
    IndexFollows(t, index, h, n, r);
  }

  lemma {:induction false} IndexFollows(t: BlockTree, index: map<Hash, seq<Hash>>, h: Hash, n: Ancestry.Node,
                                        index': map<Hash, seq<Hash>>)
    requires Indexed(t, index) && h !in t.nodes
    requires forall x, b {:trigger Listed(index', x, b)} ::
      Listed(index', x, b) <==> Listed(index, x, b) || (b == h && RecordsTx(n, x))
    ensures Indexed(t.(nodes := t.nodes[h := n]), index')
  {
    var u := t.(nodes := t.nodes[h := n]);
    forall x, b ensures Listed(index', x, b) <==> b in u.nodes && RecordsTx(u.nodes[b], x) {
      assert Listed(index, x, b) <==> b in t.nodes && RecordsTx(t.nodes[b], x);
    }
  }
}
