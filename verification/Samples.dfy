/** Small batches for concrete runs. */
module Samples {
  import opened Core
  import opened Log

  const NODE_C := PlainBatch("c", "t")
  const NODE_A := PlainBatch("a", "t")
  const NODE_B := PlainBatch("b", "t")
  const EDGE_AB := EMPTY_BATCH.(edgesUpserted := [EdgeRecord("e", "a", "b", "t", map[])])

  lemma Different()
    ensures "a" != "b"
  {
    assert "a"[0] != "b"[0];
  }

  lemma EdgeNeedsB(g: Graph)
    requires "a" in g.nodes
    ensures EndpointsExist(g.nodes, EDGE_AB) <==> "b" in g.nodes
    ensures "b" in g.nodes ==> Accepted(g, EDGE_AB)
  {
    var e := EDGE_AB.edgesUpserted[0];
    assert e in EDGE_AB.edgesUpserted && NodesById(EDGE_AB.nodesUpserted) == map[];
    assert Namespace("a") == Namespace("b") == None by {
      assert "a"[1..] == "" && "b"[1..] == "";
    }
  }

  lemma OnlyANamed()
    ensures !NodeNamed([NODE_A], "b")
  {
    Different();
    PlainAccepted(EMPTY_GRAPH, "a", "t");
    assert [NODE_A][..0] == [];
  }
}
