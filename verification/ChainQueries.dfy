/** Questions a running chain answers from what it keeps. */
module ChainQueries {
  import opened Options
  import opened Hashing
  import opened TxIndex
  import opened ChainState
  import opened Emissions

  /** A valid chain keeps all the numbering asks for. */
  method EmissionsOf(c: Chain, x: Hash) returns (r: Option<Located>)
    requires c.Valid()
    ensures r.None? <==> forall h :: OnPath(c.tree, c.canonical, h) ==> !RecordsTx(c.tree.nodes[h], x)
    ensures r.Some? ==>
      && OnPath(c.tree, c.canonical, r.value.block) && r.value.number == c.tree.Number(r.value.block)
      && r.value.outputs in c.tree.nodes[r.value.block].outputs && r.value.outputs.txHash == Some(x)
      && Numbered(c.tree, c.base, c.tip, r.value)
  {
    r := TxEmissions(c.tree, c.canonical, c.index, x, c.base, c.tip);
  }
}
