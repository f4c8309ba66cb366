// Node identities and directed graphs of the topology map.

module Graphs {
  import opened Options
  import opened Hops

  type EndpointId = string

  /** The graph's node identifiers. The program spells them "root", the endpoint's own id,
      "transit:<ip>", "anon_<tag of the last answering hop>_to_<first 8 characters of the id>"
      and "subnet:<network>"; the five spellings never coincide. */
  datatype NodeId =
    | Root
    | Endpoint(id: EndpointId)
    | Transit(ip: Address)
    | Anonymous(after: Option<Address>, owner: string)
    | Hub(subnet: string)

  type Edge = (NodeId, NodeId)

  /** A walk follows edges; it may also pause on a node. */
  ghost predicate Walk(edges: set<Edge>, p: seq<NodeId>) {
    && p != []
    && forall i :: 0 <= i < |p| - 1 ==> p[i] == p[i + 1] || (p[i], p[i + 1]) in edges
  }

  /** A walk that never pauses. */
  ghost predicate Path(edges: set<Edge>, p: seq<NodeId>) {
    && p != []
    && forall i :: 0 <= i < |p| - 1 ==> (p[i], p[i + 1]) in edges
  }

  ghost predicate Connects(edges: set<Edge>, p: seq<NodeId>, u: NodeId, v: NodeId) {
    Walk(edges, p) && p[0] == u && p[|p| - 1] == v
  }

  ghost predicate Reachable(edges: set<Edge>, u: NodeId, v: NodeId) {
    exists p :: Connects(edges, p, u, v)
  }

  ghost predicate Cycle(edges: set<Edge>, p: seq<NodeId>) {
    Path(edges, p) && |p| > 1 && p[0] == p[|p| - 1]
  }

  ghost predicate Acyclic(edges: set<Edge>) {
    forall p :: !Cycle(edges, p)
  }

  lemma ReachableWalk(edges: set<Edge>, p: seq<NodeId>)
    requires Walk(edges, p)
    ensures Reachable(edges, p[0], p[|p| - 1])
  {
    assert Connects(edges, p, p[0], p[|p| - 1]);
  }

  lemma WalkJoin(edges: set<Edge>, p: seq<NodeId>, q: seq<NodeId>)
    requires Walk(edges, p) && Walk(edges, q) && p[|p| - 1] == q[0]
    ensures Walk(edges, p + q)
  {
    forall i | 0 <= i < |p + q| - 1
      ensures (p + q)[i] == (p + q)[i + 1] || ((p + q)[i], (p + q)[i + 1]) in edges
    {
      if i < |p| - 1 {
        assert p[i] == p[i + 1] || (p[i], p[i + 1]) in edges;
      } else if i >= |p| {
        var j := i - |p|;
        assert q[j] == q[j + 1] || (q[j], q[j + 1]) in edges;
      }
    }
  }

  lemma ReachableTrans(edges: set<Edge>, u: NodeId, v: NodeId, w: NodeId)
    requires Reachable(edges, u, v) && Reachable(edges, v, w)
    ensures Reachable(edges, u, w)
  {
    var p :| Connects(edges, p, u, v);
    var q :| Connects(edges, q, v, w);
    WalkJoin(edges, p, q);
    assert Connects(edges, p + q, u, w);
  }
}
