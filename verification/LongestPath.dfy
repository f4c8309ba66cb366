// What the level pass computes, independently of how: longest paths, and where cycles show.

module LongestPath {
  import opened Graphs
  import opened Levels

  ghost predicate Within(nodes: set<NodeId>, p: seq<NodeId>) {
    forall i :: 0 <= i < |p| ==> p[i] in nodes
  }

  /** A path from a node without source to v. */
  ghost predicate FullPath(nodes: set<NodeId>, edges: set<Edge>, p: seq<NodeId>, v: NodeId) {
    && Path(edges, p) && Within(nodes, p)
    && p[|p| - 1] == v && !HasSource(nodes, edges, p[0])
  }

  ghost predicate LongestPathLength(nodes: set<NodeId>, edges: set<Edge>, v: NodeId, n: nat) {
    && (exists p :: FullPath(nodes, edges, p, v) && |p| == n + 1)
    && (forall q :: Path(edges, q) && Within(nodes, q) && q[|q| - 1] == v ==> |q| <= n + 1)
  }

  ghost predicate CycleInto(nodes: set<NodeId>, edges: set<Edge>, c: seq<NodeId>, q: seq<NodeId>, v: NodeId) {
    && Cycle(edges, c) && Within(nodes, c)
    && Path(edges, q) && Within(nodes, q)
    && q[0] == c[0] && q[|q| - 1] == v
  }

  /** Some cycle leads to v. */
  ghost predicate BehindCycle(nodes: set<NodeId>, edges: set<Edge>, v: NodeId) {
    exists c, q :: CycleInto(nodes, edges, c, q, v)
  }

  lemma SourceExpanded(nodes: set<NodeId>, edges: set<Edge>, expanded: set<NodeId>, levels: map<NodeId, nat>, u: NodeId,
                       v: NodeId)
    requires Leveled(nodes, edges, expanded, levels)
    requires u in nodes && v in expanded && (u, v) in edges
    ensures u in expanded && levels[u] + 1 <= levels[v]
  {
    assert u !in Waiting(nodes, edges, expanded, v);
    assert LevelRule(nodes, edges, expanded, levels, v);
  }

  /** Along a path into an expanded node the levels climb by at least one a step. */
  lemma {:induction false} PathsClimb(nodes: set<NodeId>, edges: set<Edge>, expanded: set<NodeId>,
                                      levels: map<NodeId, nat>, q: seq<NodeId>)
    requires Leveled(nodes, edges, expanded, levels)
    requires Path(edges, q) && Within(nodes, q) && q[|q| - 1] in expanded
    ensures q[0] in expanded
    ensures levels[q[0]] + |q| - 1 <= levels[q[|q| - 1]]
    decreases |q|
  {
    if |q| > 1 {
      SourceExpanded(nodes, edges, expanded, levels, q[|q| - 2], q[|q| - 1]);
      PathsClimb(nodes, edges, expanded, levels, q[..|q| - 1]);
    }
  }

  /** A node of level l with a source has a source of level l - 1. */
  lemma LevelSource(nodes: set<NodeId>, edges: set<Edge>, expanded: set<NodeId>, levels: map<NodeId, nat>, v: NodeId)
    returns (u: NodeId)
    requires Leveled(nodes, edges, expanded, levels)
    requires v in expanded && HasSource(nodes, edges, v)
    ensures u in expanded && v in nodes && (u, v) in edges && u in levels && v in levels && levels[u] + 1 == levels[v]
  {
    assert LevelRule(nodes, edges, expanded, levels, v);
    var s :| s in nodes && (s, v) in edges;
    SourceExpanded(nodes, edges, expanded, levels, s, v);
    u :| u in expanded && (u, v) in edges && u in levels && levels[u] + 1 == levels[v];
  }

  lemma SourcelessLevel(nodes: set<NodeId>, edges: set<Edge>, expanded: set<NodeId>, levels: map<NodeId, nat>,
                        v: NodeId)
    requires Leveled(nodes, edges, expanded, levels)
    requires v in expanded && !HasSource(nodes, edges, v)
    ensures v in levels && levels[v] == 0 && FullPath(nodes, edges, [v], v)
  {
    assert LevelRule(nodes, edges, expanded, levels, v);
  }

  lemma FullPathOn(nodes: set<NodeId>, edges: set<Edge>, p: seq<NodeId>, u: NodeId, v: NodeId)
    requires FullPath(nodes, edges, p, u) && v in nodes && (u, v) in edges
    ensures FullPath(nodes, edges, p + [v], v)
  {
  }

  lemma {:induction false} PathOfLevel(nodes: set<NodeId>, edges: set<Edge>, expanded: set<NodeId>,
                                       levels: map<NodeId, nat>, v: NodeId)
    returns (p: seq<NodeId>)
    requires Leveled(nodes, edges, expanded, levels)
    requires v in expanded && v in levels
    ensures FullPath(nodes, edges, p, v) && |p| == levels[v] + 1
    decreases levels[v]
  {
    hide Leveled, FullPath, HasSource;
    if HasSource(nodes, edges, v) {
      var u := LevelSource(nodes, edges, expanded, levels, v);
      var p' := PathOfLevel(nodes, edges, expanded, levels, u);
      FullPathOn(nodes, edges, p', u, v);
      p := p' + [v];
    } else {
      SourcelessLevel(nodes, edges, expanded, levels, v);
      p := [v];
    }
  }

  /** An expanded node's level is the length of its longest path from a node without source. */
  lemma LevelIsLongestPath(nodes: set<NodeId>, edges: set<Edge>, expanded: set<NodeId>, levels: map<NodeId, nat>,
                           v: NodeId)
    requires Leveled(nodes, edges, expanded, levels)
    requires v in expanded
    ensures LongestPathLength(nodes, edges, v, levels[v])
  {
    var p := PathOfLevel(nodes, edges, expanded, levels, v);
    forall q | Path(edges, q) && Within(nodes, q) && q[|q| - 1] == v ensures |q| <= levels[v] + 1 {
      PathsClimb(nodes, edges, expanded, levels, q);
    }
  }

  lemma {:induction false} DistinctFits(nodes: set<NodeId>, p: seq<NodeId>)
    requires Distinct(p) && Within(nodes, p)
    ensures |p| <= |nodes|
  {
    if p != [] {
      var rest := p[1..];
      assert forall i :: 0 <= i < |rest| ==> rest[i] == p[i + 1];
      DistinctFits(nodes - {p[0]}, rest);
    }
  }

  /** Walking backwards through unexpanded nodes runs into a cycle. */
  lemma {:induction false} BackIntoCycle(nodes: set<NodeId>, edges: set<Edge>, expanded: set<NodeId>, p: seq<NodeId>)
    returns (c: seq<NodeId>, q: seq<NodeId>)
    requires Saturated(nodes, edges, expanded)
    requires Path(edges, p) && Distinct(p) && Within(nodes - expanded, p)
    ensures CycleInto(nodes, edges, c, q, p[|p| - 1])
    decreases |nodes| - |p|
  {
    var u :| u in Waiting(nodes, edges, expanded, p[0]);
    if k :| 0 <= k < |p| && p[k] == u {
      c := [u] + p[..k + 1];
      q := p[k..];
    } else {
      var longer := [u] + p;
      DistinctFits(nodes, longer);
      c, q := BackIntoCycle(nodes, edges, expanded, longer);
    }
  }

  /** The pass leaves a node unexpanded exactly when a cycle leads to it. */
  lemma UnexpandedIffBehindCycle(nodes: set<NodeId>, edges: set<Edge>, expanded: set<NodeId>, levels: map<NodeId, nat>,
                                 v: NodeId)
    requires Leveled(nodes, edges, expanded, levels)
    requires v in nodes
    ensures v !in expanded <==> BehindCycle(nodes, edges, v)
  {
    if v !in expanded {
      var c, q := BackIntoCycle(nodes, edges, expanded, [v]);
    } else if c, q :| CycleInto(nodes, edges, c, q, v) {
      PathsClimb(nodes, edges, expanded, levels, q);
      PathsClimb(nodes, edges, expanded, levels, c);
      assert false;
    }
  }

  lemma AcyclicHasNoneBehind(nodes: set<NodeId>, edges: set<Edge>, v: NodeId)
    requires Acyclic(edges)
    ensures !BehindCycle(nodes, edges, v)
  {
    forall c, q ensures !CycleInto(nodes, edges, c, q, v) {
      assert !Cycle(edges, c);
    }
  }

  /** A node all of whose sources lie behind cycles, and which has one, keeps the default level 1. */
  lemma DefaultLevel(nodes: set<NodeId>, edges: set<Edge>, expanded: set<NodeId>, levels: map<NodeId, nat>, v: NodeId)
    requires Leveled(nodes, edges, expanded, levels) && v in nodes
    requires exists u :: u in nodes && (u, v) in edges
    requires forall u :: u in nodes && (u, v) in edges ==> BehindCycle(nodes, edges, u)
    ensures levels[v] == 1
  {
    forall u | u in nodes && (u, v) in edges ensures u !in expanded {
      UnexpandedIffBehindCycle(nodes, edges, expanded, levels, u);
    }
    assert LevelRule(nodes, edges, expanded, levels, v);
  }

  /** On an acyclic graph the pass reaches every node and gives each its longest path length. */
  lemma AcyclicLevels(nodes: set<NodeId>, edges: set<Edge>, expanded: set<NodeId>, levels: map<NodeId, nat>)
    requires Leveled(nodes, edges, expanded, levels)
    requires Acyclic(edges)
    ensures expanded == nodes
    ensures forall v :: v in nodes ==> LongestPathLength(nodes, edges, v, levels[v])
  {
    forall v | v in nodes ensures v in expanded && LongestPathLength(nodes, edges, v, levels[v]) {
      UnexpandedIffBehindCycle(nodes, edges, expanded, levels, v);
      AcyclicHasNoneBehind(nodes, edges, v);
      LevelIsLongestPath(nodes, edges, expanded, levels, v);
    }
  }
}
