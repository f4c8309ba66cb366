// What the statuses and the parents of the map mean after each operation.

module TopologyStatus {
  import opened Options
  import opened Hops
  import opened Graphs
  import opened Downstream
  import opened ParentForest
  import opened TopologyModel
  import opened TopologyFacts
  import opened TopologyRuns

  // ------------------------------------------------------------------
  // Inferred states
  // ------------------------------------------------------------------

  /** Propagation changes no monitored node, so the question "is everything behind n down?" has
      the same answer before and after it. */
  lemma PropagationStable(states: map<NodeId, string>, edges: set<Edge>, n: NodeId)
    ensures AllDownBehind(Propagated(states, edges), edges, n) <==> AllDownBehind(states, edges, n)
  {
    var states' := Propagated(states, edges);
    assert states'.Keys == states.Keys;
    forall m | m in DownstreamOf(states.Keys, edges, n) ensures states'[m] == states[m] {}
  }

  /** After propagation a router reads INFERRED_DOWN exactly when it read so before, or when it is
      no failure point and everything behind it is down. Nothing ever clears the mark. */
  lemma PropagationExact(states: map<NodeId, string>, edges: set<Edge>, n: NodeId)
    requires n in states && n.Transit?
    ensures var states' := Propagated(states, edges);
            states'[n] == INFERRED_DOWN <==>
            states[n] == INFERRED_DOWN || (states[n] != FAILURE_POINT && AllDownBehind(states', edges, n))
    ensures Propagated(states, edges)[n] == FAILURE_POINT <==> states[n] == FAILURE_POINT
  {
    PropagationStable(states, edges, n);
  }

  /** Propagating again changes nothing. */
  lemma PropagationIdempotent(states: map<NodeId, string>, edges: set<Edge>)
    ensures Propagated(Propagated(states, edges), edges) == Propagated(states, edges)
  {
    var states' := Propagated(states, edges);
    forall n | n in states' ensures Propagated(states', edges)[n] == states'[n] {
      PropagationStable(states, edges, n);
    }
  }

  /** After a rebuild a router that is no failure point is INFERRED_DOWN exactly when it has
      monitored nodes behind it and all of them are down. */
  lemma RebuildInfersExactly(inv: Inventory, n: NodeId)
    ensures var t := Rebuilt(inv);
            n.Transit? && n in t.states ==>
              && (t.states[n] == FAILURE_POINT <==> n.ip in inv.failedIps)
              && (t.states[n] != FAILURE_POINT ==>
                  (t.states[n] == INFERRED_DOWN <==> AllDownBehind(t.states, t.edges, n)))
  {
    if n.Transit? && n in Rebuilt(inv).states {
      MapNode(MonitoredRows(inv.rows), AddressBook(inv.rows), inv, n);
      PropagationExact(RebuiltStates(inv), RebuiltEdges(inv), n);
    }
  }

  /** Incremental operations never clear the mark: while the router stays on the map and nobody
      sets its own status, it stays INFERRED_DOWN, whatever comes back up behind it. */
  lemma {:induction false} MarkSticks(t: Topo, ops: seq<Op>, n: NodeId)
    requires n in t.states && n.Transit? && t.states[n] == INFERRED_DOWN
    requires forall i :: 0 <= i < |ops| ==> !(ops[i].SetStatus? && ops[i].node == n)
    requires forall i :: 0 <= i <= |ops| ==> n in ApplyAll(t, ops[..i]).states
    ensures n in ApplyAll(t, ops).states && ApplyAll(t, ops).states[n] == INFERRED_DOWN
    decreases |ops|
  {
    if ops == [] {
      assert ops[..0] == ops;
    } else {
      var t', rest := Apply(t, ops[0]), ops[1..];
      assert ApplyAll(t, ops[..1]) == t' by { assert ops[..1][1..] == []; }
      forall i | 0 <= i <= |rest| ensures n in ApplyAll(t', rest[..i]).states {
        assert ops[..i + 1][1..] == rest[..i];
        assert n in ApplyAll(t, ops[..i + 1]).states;
      }
      MarkSticksOnce(t, ops[0], n);
      MarkSticks(t', rest, n);
      assert ops[..|ops|] == ops;
    }
  }

  lemma MarkSticksOnce(t: Topo, op: Op, n: NodeId)
    requires n in t.states && n.Transit? && t.states[n] == INFERRED_DOWN
    requires !(op.SetStatus? && op.node == n) && n in Apply(t, op).states
    ensures Apply(t, op).states[n] == INFERRED_DOWN
  {
    match op {
      case SetStatus(m, s) =>
        if m in t.states {
          PropagationExact(t.states[m := s], t.edges, n);
        }
      case NewRoute(ep, hops) =>
        if ep !in t.disabled {
          PropagationExact(UpdatedStates(t, ep, Route(hops)), UpdatedEdges(t, ep, Route(hops)), n);
        }
    }
  }

  // ------------------------------------------------------------------
  // Parents after a path update
  // ------------------------------------------------------------------

  /** Position i of the path steps into n from another node. */
  predicate Enters(p: seq<NodeId>, i: int, n: NodeId) {
    0 <= i && i + 1 < |p| && p[i] != n && p[i + 1] == n
  }

  /** After a path update the parents of the endpoint are exactly the nodes from which the new
      path enters it. */
  lemma ParentsAfterUpdate(t: Topo, ep: EndpointId, hops: seq<Hop>, u: NodeId)
    requires Sane(t) && Root in t.states && Endpoint(ep) in t.states && ep !in t.disabled
    ensures var path := StitchPath(Route(hops), ep, t.byIp, true);
            (u, Endpoint(ep)) in PathUpdated(t, ep, hops).edges <==>
                exists i :: Enters(path, i, Endpoint(ep)) && path[i] == u
  {
    var path, n := StitchPath(Route(hops), ep, t.byIp, true), Endpoint(ep);
    if (u, n) in PathUpdated(t, ep, hops).edges {
      assert (u, n) in PathEdges(path);
      var i :| 0 <= i < |path| - 1 && StepOf(path, i).0 != StepOf(path, i).1 && StepOf(path, i) == (u, n);
      assert Enters(path, i, n);
    }
    if i :| Enters(path, i, n) && path[i] == u {
      PathStep(path, i);
      FreshPathSurvives(t, ep, hops);
    }
  }

  ghost predicate SoleParent(edges: set<Edge>, n: NodeId) {
    && (exists u :: (u, n) in edges)
    && forall u, v :: (u, n) in edges && (v, n) in edges ==> u == v
  }

  /** The endpoint keeps a single parent exactly when its new path always enters it from the same
      node. The in-code promise that stale pruning leaves one parent holds under this condition only. */
  lemma SoleParentAfterUpdate(t: Topo, ep: EndpointId, hops: seq<Hop>)
    requires Sane(t) && Root in t.states && Endpoint(ep) in t.states && ep !in t.disabled
    ensures var path := StitchPath(Route(hops), ep, t.byIp, true);
            SoleParent(PathUpdated(t, ep, hops).edges, Endpoint(ep)) <==>
            forall i, j :: Enters(path, i, Endpoint(ep)) && Enters(path, j, Endpoint(ep)) ==> path[i] == path[j]
  {
    var path, n, edges := StitchPath(Route(hops), ep, t.byIp, true), Endpoint(ep), PathUpdated(t, ep, hops).edges;
    forall u ensures (u, n) in edges <==> exists i :: Enters(path, i, n) && path[i] == u {
      ParentsAfterUpdate(t, ep, hops, u);
    }
    var k := FirstEntry(path, n);
    assert (path[k], n) in edges;
    if SoleParent(edges, n) {
      forall i, j | Enters(path, i, n) && Enters(path, j, n) ensures path[i] == path[j] {
        assert (path[i], n) in edges && (path[j], n) in edges;
      }
    }
  }

  lemma FirstEntry(p: seq<NodeId>, n: NodeId) returns (i: nat)
    requires |p| > 1 && p[0] != n && p[|p| - 1] == n
    ensures Enters(p, i, n)
  {
    i := 0;
    while p[i + 1] != n
      invariant i + 1 < |p| && p[i] != n
      decreases |p| - i
    {
      i := i + 1;
    }
  }

  /** A route that passes the endpoint itself midway leaves it with two parents. */
  lemma TwoParents(t: Topo, ep: EndpointId, own: Address, a: Address, b: Address)
    requires Sane(t) && Root in t.states && Endpoint(ep) in t.states && ep !in t.disabled
    requires a != b && a !in t.byIp && b !in t.byIp && own in t.byIp && t.byIp[own] == ep
    ensures var hops := [Hop(Some(1), Some(a), None), Hop(Some(2), Some(own), None), Hop(Some(3), Some(b), None)];
            !SoleParent(PathUpdated(t, ep, hops).edges, Endpoint(ep))
  {
    var hops := [Hop(Some(1), Some(a), None), Hop(Some(2), Some(own), None), Hop(Some(3), Some(b), None)];
    CollapsedFixesNormal(hops);
    assert Route(hops) == hops;
    var path := StitchPath(hops, ep, t.byIp, true);
    assert path == [Root, Transit(a), Endpoint(ep), Transit(b), Endpoint(ep)];
    assert Enters(path, 1, Endpoint(ep)) && Enters(path, 3, Endpoint(ep));
    SoleParentAfterUpdate(t, ep, hops);
  }

  // ------------------------------------------------------------------
  // Where acyclic manual parents come from
  // ------------------------------------------------------------------

  /** The manual parents as stored, whether or not the parent is on the map. */
  function StoredParents(dir: Directory): Parents {
    map id | id in dir && dir[id].manualParent.Some? :: dir[id].manualParent.value
  }

  lemma {:induction false} SubClimb(sub: Parents, all: Parents, x: EndpointId, n: nat)
    requires forall id :: id in sub ==> id in all && all[id] == sub[id]
    requires Climb(all, x, n) == None
    ensures Climb(sub, x, n) == None
    decreases n
  {
    if x in sub {
      SubClimb(sub, all, sub[x], n - 1);
    }
  }

  /** Parent links accepted by the cycle check are fit for the rebuild: a run of checked changes
      that agrees with the stored rows makes every monitored node reachable. */
  lemma CheckedParentsReachable(inv: Inventory, start: Parents, changes: seq<ParentChange>, ops: seq<Op>)
    requires Forest(start)
    requires var dir := MonitoredRows(inv.rows);
             forall id :: id in StoredParents(dir) ==>
                 id in PatchedAll(start, changes) && PatchedAll(start, changes)[id] == StoredParents(dir)[id]
    ensures var t := ApplyAll(Rebuilt(inv), ops);
            forall e :: e in MonitoredRows(inv.rows) ==>
                Endpoint(e) in t.states && Reachable(t.edges, Root, Endpoint(e))
  {
    RunKeepsForest(start, changes);
    var all, sub := PatchedAll(start, changes), ManualParents(MonitoredRows(inv.rows));
    forall x ensures Rooted(sub, x) {
      assert Rooted(all, x);
      var n: nat :| Climb(all, x, n) == None;
      SubClimb(sub, all, x, n);
    }
    MonitoredStayReachable(inv, ops);
  }
}
