// The depth-first search behind status propagation (backend/app/services/topology.py).

module Downstream {
  import opened Graphs

  predicate Monitored(nodes: set<NodeId>, n: NodeId) { n in nodes && n.Endpoint? }

  /** The child index is the adjacency of the edge set; a missing key means no children. */
  ghost predicate Indexes(children: map<NodeId, set<NodeId>>, edges: set<Edge>) {
    forall u, v :: (u, v) in edges <==> u in children && v in children[u]
  }

  ghost predicate EndsIn(nodes: set<NodeId>, edges: set<Edge>) {
    forall e :: e in edges ==> e.0 in nodes && e.1 in nodes
  }

  /** A path none of whose nodes is monitored. */
  ghost predicate QuietPath(nodes: set<NodeId>, edges: set<Edge>, p: seq<NodeId>) {
    Path(edges, p) && forall i :: 0 <= i < |p| ==> !Monitored(nodes, p[i])
  }

  ghost predicate Quietly(nodes: set<NodeId>, edges: set<Edge>, p: seq<NodeId>, u: NodeId, v: NodeId) {
    QuietPath(nodes, edges, p) && p[0] == u && p[|p| - 1] == v
  }

  ghost predicate QuietlyReaches(nodes: set<NodeId>, edges: set<Edge>, u: NodeId, v: NodeId) {
    exists p :: Quietly(nodes, edges, p, u, v)
  }

  /** A monitored node one edge after a quiet path from `start`. */
  ghost predicate IsDownstream(nodes: set<NodeId>, edges: set<Edge>, start: NodeId, m: NodeId) {
    && Monitored(nodes, m)
    && exists u :: QuietlyReaches(nodes, edges, start, u) && (u, m) in edges
  }

  ghost function DownstreamOf(nodes: set<NodeId>, edges: set<Edge>, start: NodeId): set<NodeId> {
    set m | m in nodes && IsDownstream(nodes, edges, start, m)
  }

  lemma QuietStart(nodes: set<NodeId>, edges: set<Edge>, u: NodeId)
    requires !Monitored(nodes, u)
    ensures QuietlyReaches(nodes, edges, u, u)
  {
    assert Quietly(nodes, edges, [u], u, u);
  }

  lemma QuietPrepend(nodes: set<NodeId>, edges: set<Edge>, u: NodeId, v: NodeId, w: NodeId)
    requires !Monitored(nodes, u) && (u, v) in edges && QuietlyReaches(nodes, edges, v, w)
    ensures QuietlyReaches(nodes, edges, u, w)
  {
    var p :| Quietly(nodes, edges, p, v, w);
    var q := [u] + p;
    assert Quietly(nodes, edges, q, u, w) by {
      forall i | 0 <= i < |q| - 1 ensures (q[i], q[i + 1]) in edges {
        if i > 0 { assert (p[i - 1], p[i]) in edges; }
      }
    }
  }

  /** What a search may say: it found only nodes downstream of u, by quiet nodes it visited. */
  ghost predicate Sound(nodes: set<NodeId>, edges: set<Edge>, u: NodeId, seen: set<NodeId>, found: set<NodeId>) {
    && (forall n :: n in seen ==> !Monitored(nodes, n) && QuietlyReaches(nodes, edges, u, n))
    && (forall m :: m in found ==> IsDownstream(nodes, edges, u, m))
  }

  /** What it may not miss: every child of a visited node is found or visited. */
  ghost predicate Exhausted(nodes: set<NodeId>, edges: set<Edge>, seen: set<NodeId>, visited: set<NodeId>,
                            found: set<NodeId>)
  {
    forall n, c {:trigger (n, c) in edges} :: n in seen && (n, c) in edges ==>
        if Monitored(nodes, c) then c in found else c in visited
  }

  lemma SoundPrepend(nodes: set<NodeId>, edges: set<Edge>, u: NodeId, c: NodeId, seen: set<NodeId>, found: set<NodeId>)
    requires !Monitored(nodes, u) && (u, c) in edges && Sound(nodes, edges, c, seen, found)
    ensures Sound(nodes, edges, u, seen, found)
  {
    forall n | n in seen ensures QuietlyReaches(nodes, edges, u, n) {
      QuietPrepend(nodes, edges, u, c, n);
    }
    forall m | m in found ensures IsDownstream(nodes, edges, u, m) {
      var n :| QuietlyReaches(nodes, edges, c, n) && (n, m) in edges;
      QuietPrepend(nodes, edges, u, c, n);
    }
  }

  /** The recursive search. `visited` is shared by the whole search, so it comes back extended. */
  method Search(nodes: set<NodeId>, children: map<NodeId, set<NodeId>>, start: NodeId, visited: set<NodeId>,
                ghost edges: set<Edge>)
    returns (found: set<NodeId>, visited': set<NodeId>)
    requires Indexes(children, edges) && EndsIn(nodes, edges)
    requires start in nodes && !Monitored(nodes, start) && start !in visited
    requires forall v :: v in visited ==> !Monitored(nodes, v)
    ensures visited + {start} <= visited'
    ensures Sound(nodes, edges, start, visited' - visited, found)
    ensures Exhausted(nodes, edges, visited' - visited, visited', found)
    decreases nodes - visited
  {
    found, visited' := {}, visited + {start};
    QuietStart(nodes, edges, start);
    var todo := if start in children then children[start] else {};
    ghost var all := todo;
    while todo != {}
      invariant todo <= all
      invariant visited + {start} <= visited'
      invariant Sound(nodes, edges, start, visited' - visited, found)
      invariant Exhausted(nodes, edges, visited' - visited - {start}, visited', found)
      invariant forall c :: c in all - todo ==> if Monitored(nodes, c) then c in found else c in visited'
    {
      var child :| child in todo;
      todo := todo - {child};
      assert (start, child) in edges;
      if child !in visited' {
        if Monitored(nodes, child) {
          found := found + {child};
        } else {
          ghost var before, found0 := visited', found;
          var deeper, visited'' := Search(nodes, children, child, visited', edges);
          SoundPrepend(nodes, edges, start, child, visited'' - visited', deeper);
          found, visited' := found + deeper, visited'';
          assert visited'' - visited == (before - visited) + (visited'' - before);
        }
      }
    }
  }

  /** A search from scratch finds exactly the downstream nodes, whatever the order of the children. */
  method AllDownstream(nodes: set<NodeId>, children: map<NodeId, set<NodeId>>, start: NodeId, ghost edges: set<Edge>)
    returns (found: set<NodeId>)
    requires Indexes(children, edges) && EndsIn(nodes, edges)
    requires start in nodes && !Monitored(nodes, start)
    ensures found == DownstreamOf(nodes, edges, start)
  {
    var visited;
    found, visited := Search(nodes, children, start, {}, edges);
    assert visited - {} == visited;
    forall m | m in DownstreamOf(nodes, edges, start) ensures m in found {
      var u :| QuietlyReaches(nodes, edges, start, u) && (u, m) in edges;
      QuietNodesSeen(nodes, edges, start, u, visited, found);
    }
  }

  lemma QuietNodesSeen(nodes: set<NodeId>, edges: set<Edge>, start: NodeId, u: NodeId, visited: set<NodeId>,
                       found: set<NodeId>)
    requires start in visited && Exhausted(nodes, edges, visited, visited, found)
    requires QuietlyReaches(nodes, edges, start, u)
    ensures u in visited
  {
    var p :| Quietly(nodes, edges, p, start, u);
    var i := 0;
    while i < |p| - 1
      invariant 0 <= i < |p| && p[i] in visited
    {
      assert (p[i], p[i + 1]) in edges;
      i := i + 1;
    }
  }
}
