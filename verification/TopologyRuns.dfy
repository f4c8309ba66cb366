// Whole runs of the topology map: reachability, pruning and status.

module TopologyRuns {
  import opened Options
  import opened Hops
  import opened Graphs
  import opened ParentForest
  import opened TopologyModel
  import opened TopologyFacts

  // ------------------------------------------------------------------
  // A fresh route survives its own pruning
  // ------------------------------------------------------------------

  /** Everything the new route of `ep` names is still named after the route is stored. */
  lemma FreshTransitNamed(t: Topo, ep: EndpointId, hops: seq<Hop>, n: NodeId)
    requires n in TransitAmong(RouteNodes(Route(hops), ep, t.byIp))
    ensures Named(t.routes[ep := Route(hops)], t.byIp, n)
  {
    SanitizedIdempotent(hops, None);
    assert NamedBy(t.routes[ep := Route(hops)], t.byIp, ep, n);
  }

  /** Every node and every edge of the freshly stitched path is on the updated map. */
  lemma FreshPathSurvives(t: Topo, ep: EndpointId, hops: seq<Hop>)
    requires Sane(t) && Root in t.states && ep !in t.disabled
    ensures var t' := PathUpdated(t, ep, hops);
            var path := StitchPath(Route(hops), ep, t.byIp, Endpoint(ep) in t.states);
            && PathEdges(path) <= t'.edges
            && forall i :: 0 <= i < |path| ==> path[i] in t'.states
  {
    var clean := Route(hops);
    var onMap := Endpoint(ep) in t.states;
    var path := StitchPath(clean, ep, t.byIp, onMap);
    var nodes := UpdatedStates(t, ep, clean).Keys;
    forall n | n in TransitAmong(RouteNodes(clean, ep, t.byIp)) ensures n in nodes {
      FreshTransitNamed(t, ep, hops, n);
    }
    assert Resolves(nodes, t.byIp);
    forall e | e in PathEdges(path) ensures e in UpdatedEdges(t, ep, clean) {
      StitchEdgeEnds(clean, ep, t.byIp, onMap, nodes, e);
    }
    forall i | 0 <= i < |path| ensures path[i] in nodes {
      StitchPathNode(clean, ep, t.byIp, onMap, i);
    }
  }

  // ------------------------------------------------------------------
  // Supports: why a monitored node is reachable
  // ------------------------------------------------------------------

  /** Ranks order the endpoints so that each one hangs on the root or on endpoints of lower rank. */
  type Ranks = map<EndpointId, nat>

  ghost predicate Anchors(rank: Ranks, e: EndpointId, n: NodeId) {
    n == Root || (n.Endpoint? && n.id in rank && e in rank && rank[n.id] < rank[e])
  }

  /** A walk to e from an anchor whose transit nodes are all named by e's own route. */
  ghost predicate Support(t: Topo, rank: Ranks, e: EndpointId, p: seq<NodeId>) {
    && Walk(t.edges, p) && p[|p| - 1] == Endpoint(e)
    && Anchors(rank, e, p[0])
    && (forall i :: 0 <= i < |p| && IsTransit(p[i]) ==> NamedBy(t.routes, t.byIp, e, p[i]))
  }

  ghost predicate Supported(t: Topo, rank: Ranks) {
    && Root in t.states
    && (forall e :: e in rank <==> Endpoint(e) in t.states)
    && (forall e {:trigger rank[e]} :: e in rank ==> exists p :: Support(t, rank, e, p))
  }

  lemma {:induction false} SupportedReachable(t: Topo, rank: Ranks, e: EndpointId)
    requires Supported(t, rank) && e in rank
    ensures Reachable(t.edges, Root, Endpoint(e))
    decreases rank[e]
  {
    var p: seq<NodeId> :| Support(t, rank, e, p);
    ReachableWalk(t.edges, p);
    if p[0] != Root {
      SupportedReachable(t, rank, p[0].id);
      ReachableTrans(t.edges, Root, p[0], Endpoint(e));
    }
  }

  // ------------------------------------------------------------------
  // A path update keeps the supports
  // ------------------------------------------------------------------

  /** The updated endpoint becomes the first one; the others keep their order. */
  function Promoted(rank: Ranks, ep: EndpointId): Ranks {
    map e | e in rank :: if e == ep then 0 else rank[e] + 1
  }

  /** An edge survives the update of another endpoint when it does not enter that endpoint and
      its transit ends are named by a route that stays. */
  lemma EdgeSurvives(t: Topo, ep: EndpointId, clean: seq<Hop>, e: EndpointId, u: NodeId, v: NodeId)
    requires Sane(t) && e != ep
    requires (u, v) in t.edges && v != Endpoint(ep)
    requires IsTransit(u) ==> NamedBy(t.routes, t.byIp, e, u)
    requires IsTransit(v) ==> NamedBy(t.routes, t.byIp, e, v)
    ensures (u, v) in UpdatedEdges(t, ep, clean)
  {
    assert (u, v).0 in t.states && (u, v).1 in t.states;
    assert IsTransit(u) ==> NamedBy(t.routes[ep := clean], t.byIp, e, u);
    assert IsTransit(v) ==> NamedBy(t.routes[ep := clean], t.byIp, e, v);
  }

  /** The last position of ep on p, or the start when ep is not on p. */
  lemma CutAt(p: seq<NodeId>, n: NodeId) returns (j: nat)
    requires p != []
    ensures j < |p| && (p[j] == n || j == 0)
    ensures forall i :: j < i < |p| ==> p[i] != n
  {
    j := |p| - 1;
    while j > 0 && p[j] != n
      invariant j < |p| && forall i :: j < i < |p| ==> p[i] != n
    {
      j := j - 1;
    }
  }

  lemma OtherSupportKept(t: Topo, rank: Ranks, ep: EndpointId, hops: seq<Hop>, e: EndpointId)
    requires Sane(t) && Supported(t, rank) && ep !in t.disabled
    requires e in rank && e != ep
    ensures exists p :: Support(PathUpdated(t, ep, hops), Promoted(rank, ep), e, p)
  {
    hide PathUpdated, Promoted;
    var p: seq<NodeId> :| Support(t, rank, e, p);
    var j := CutAt(p, Endpoint(ep));
    if p[j] == Endpoint(ep) {
      assert p[j] == p[j + 1] || (p[j], p[j + 1]) in t.edges;
      assert (p[j], p[j + 1]).0 in t.states;
    }
    KeptSupport(t, rank, ep, hops, e, p, j);
  }

  /** The part of a support behind its last visit to the updated endpoint supports its own. */
  lemma KeptSupport(t: Topo, rank: Ranks, ep: EndpointId, hops: seq<Hop>, e: EndpointId, p: seq<NodeId>, j: nat)
    requires Sane(t) && Support(t, rank, e, p) && ep !in t.disabled && e in rank && e != ep && j < |p|
    requires (p[j] == Endpoint(ep) && ep in rank) || j == 0
    requires forall i :: j < i < |p| ==> p[i] != Endpoint(ep)
    ensures Support(PathUpdated(t, ep, hops), Promoted(rank, ep), e, p[j..])
  {
    hide NamedBy;
    var t', clean, q := PathUpdated(t, ep, hops), Route(hops), p[j..];
    SuffixWalks(t, ep, clean, e, p, j);
    forall i | 0 <= i < |q| && IsTransit(q[i]) ensures NamedBy(t'.routes, t'.byIp, e, q[i]) {
      assert NamedBy(t.routes, t.byIp, e, p[j + i]);
      NamedLater(t, ep, clean, e, p[j + i]);
    }
  }

  lemma NamedLater(t: Topo, ep: EndpointId, clean: seq<Hop>, e: EndpointId, n: NodeId)
    requires NamedBy(t.routes, t.byIp, e, n) && e != ep
    ensures NamedBy(t.routes[ep := clean], t.byIp, e, n)
  {
  }

  lemma SuffixWalks(t: Topo, ep: EndpointId, clean: seq<Hop>, e: EndpointId, p: seq<NodeId>, j: nat)
    requires Sane(t) && e != ep && Walk(t.edges, p) && j < |p|
    requires forall i :: 0 <= i < |p| && IsTransit(p[i]) ==> NamedBy(t.routes, t.byIp, e, p[i])
    requires forall i :: j < i < |p| ==> p[i] != Endpoint(ep)
    ensures Walk(UpdatedEdges(t, ep, clean), p[j..])
  {
    hide NamedBy, UpdatedEdges, Sane;
    var q := p[j..];
    forall i | 0 <= i < |q| - 1 ensures q[i] == q[i + 1] || (q[i], q[i + 1]) in UpdatedEdges(t, ep, clean) {
      var k := j + i;
      assert p[k] == p[k + 1] || (p[k], p[k + 1]) in t.edges;
      if p[k] != p[k + 1] {
        EdgeSurvives(t, ep, clean, e, p[k], p[k + 1]);
      }
    }
  }

  lemma OwnSupportMade(t: Topo, rank: Ranks, ep: EndpointId, hops: seq<Hop>)
    requires Sane(t) && Supported(t, rank) && ep !in t.disabled && ep in rank
    ensures exists p :: Support(PathUpdated(t, ep, hops), Promoted(rank, ep), ep, p)
  {
    var t', clean := PathUpdated(t, ep, hops), Route(hops);
    var p := StitchPath(clean, ep, t.byIp, true);
    FreshPathSurvives(t, ep, hops);
    forall i | 0 <= i < |p| - 1 ensures p[i] == p[i + 1] || (p[i], p[i + 1]) in t'.edges {
      PathStep(p, i);
    }
    forall i | 0 <= i < |p| && IsTransit(p[i]) ensures NamedBy(t'.routes, t'.byIp, ep, p[i]) {
      StitchPathNode(clean, ep, t.byIp, true, i);
      SanitizedIdempotent(hops, None);
    }
    assert Support(t', Promoted(rank, ep), ep, p);
  }

  lemma PathUpdateSupported(t: Topo, rank: Ranks, ep: EndpointId, hops: seq<Hop>)
    requires Sane(t) && Supported(t, rank) && ep !in t.disabled
    ensures Supported(PathUpdated(t, ep, hops), Promoted(rank, ep))
  {
    UpdatedKeepsEndpoints(t, ep, Route(hops));
    var rank' := Promoted(rank, ep);
    forall e | e in rank' ensures exists p :: Support(PathUpdated(t, ep, hops), rank', e, p) {
      if e == ep {
        OwnSupportMade(t, rank, ep, hops);
      } else {
        OtherSupportKept(t, rank, ep, hops, e);
      }
    }
  }

  lemma StatusUpdateSupported(t: Topo, rank: Ranks, n: NodeId, state: string)
    requires Sane(t) && Supported(t, rank)
    ensures Supported(StatusUpdated(t, n, state), rank)
  {
    StatusUpdateSane(t, n, state);
    var t' := StatusUpdated(t, n, state);
    forall e | e in rank ensures exists p :: Support(t', rank, e, p) {
      var p: seq<NodeId> :| Support(t, rank, e, p);
      assert Support(t', rank, e, p);
    }
  }

  // ------------------------------------------------------------------
  // The rebuild makes the supports
  // ------------------------------------------------------------------

  /** The manual parents the rebuild follows: both ends on the map. */
  function ManualParents(dir: Directory): Parents {
    map id | id in dir && HasManualParent(dir, dir[id]) :: dir[id].manualParent.value
  }

  ghost function Heights(dir: Directory): Ranks
    requires Forest(ManualParents(dir))
  {
    map id | id in dir :: Height(ManualParents(dir), id)
  }

  /** An edge of the merge is still there after clustering, or its hub stands in between. */
  lemma ClusteredStep(dir: Directory, edges: set<Edge>, nets: set<string>, u: NodeId, v: NodeId)
    requires (u, v) in edges
    ensures || (u, v) in Clustered(dir, edges, nets)
            || (u == Root && exists s ::
                (Root, Hub(s)) in Clustered(dir, edges, nets) && (Hub(s), v) in Clustered(dir, edges, nets))
  {
    var moved := Moved(dir, edges, nets);
    if (u, v) in RootLinks(moved) {
      var id :| id in moved && (Root, Endpoint(id)) == (u, v);
      var s := dir[id].subnet.value;
      assert (Hub(s), Endpoint(id)) in HubLinks(dir, moved);
      assert (Root, Hub(s)) in Clustered(dir, edges, nets);
    }
  }

  /** A map whose edges and routes are those of the rebuild. */
  ghost predicate BuiltFrom(t: Topo, dir: Directory, byIp: map<Address, EndpointId>, inv: Inventory) {
    && t.edges == MapEdges(dir, byIp, inv) && t.routes == inv.routes && t.byIp == byIp
    && (forall id :: id in dir ==> dir[id].id == id)
  }

  /** The stitched route of a row is a walk of the rebuilt map, possibly through a hub at its start. */
  lemma StitchedSupport(t: Topo, dir: Directory, byIp: map<Address, EndpointId>, inv: Inventory, rank: Ranks,
                        id: EndpointId)
    requires BuiltFrom(t, dir, byIp, inv)
    requires id in dir && !HasManualParent(dir, dir[id])
    ensures exists p :: Support(t, rank, id, p)
  {
    var clean := StoredRoute(inv, id);
    var p := StitchPath(clean, id, byIp, true);
    var rest := p[1..];
    StitchedTail(dir, byIp, inv, id);
    forall i | 0 <= i < |p| && IsTransit(p[i]) ensures NamedBy(t.routes, t.byIp, id, p[i]) {
      StitchPathNode(clean, id, byIp, true, i);
      RowTransitNamed(dir, byIp, inv, id, p[i]);
    }
    var start := StitchedHead(dir, byIp, inv, id);
    WalkJoin(t.edges, start, rest);
    SupportFrom(t, rank, id, start + rest, p);
  }

  lemma StitchedMerged(dir: Directory, byIp: map<Address, EndpointId>, inv: Inventory, id: EndpointId)
    requires id in dir && dir[id].id == id && !HasManualParent(dir, dir[id])
    ensures PathEdges(StitchPath(StoredRoute(inv, id), id, byIp, true)) <= MergedEdges(dir, byIp, inv, dir.Keys)
  {
    assert RowEdges(dir, byIp, inv, dir[id]) == PathEdges(StitchPath(StoredRoute(inv, id), id, byIp, true));
  }

  lemma StitchedTail(dir: Directory, byIp: map<Address, EndpointId>, inv: Inventory, id: EndpointId)
    requires id in dir && dir[id].id == id && !HasManualParent(dir, dir[id])
    ensures Walk(MapEdges(dir, byIp, inv), StitchPath(StoredRoute(inv, id), id, byIp, true)[1..])
  {
    var merged := MergedEdges(dir, byIp, inv, dir.Keys);
    var p := StitchPath(StoredRoute(inv, id), id, byIp, true);
    var rest := p[1..];
    StitchedMerged(dir, byIp, inv, id);
    forall i | 0 <= i < |rest| - 1
      ensures rest[i] == rest[i + 1] || (rest[i], rest[i + 1]) in MapEdges(dir, byIp, inv)
    {
      PathStep(p, i + 1);
      StitchPathNode(StoredRoute(inv, id), id, byIp, true, i + 1);
      if rest[i] != rest[i + 1] {
        ClusteredStep(dir, merged, ClusterNetworks(dir, merged), rest[i], rest[i + 1]);
      }
    }
  }

  lemma StitchedHead(dir: Directory, byIp: map<Address, EndpointId>, inv: Inventory, id: EndpointId)
    returns (start: seq<NodeId>)
    requires id in dir && dir[id].id == id && !HasManualParent(dir, dir[id])
    ensures Walk(MapEdges(dir, byIp, inv), start) && start[0] == Root
    ensures start[|start| - 1] == StitchPath(StoredRoute(inv, id), id, byIp, true)[1]
    ensures forall i :: 0 <= i < |start| - 1 ==> start[i] == Root || start[i].Hub?
  {
    var merged := MergedEdges(dir, byIp, inv, dir.Keys);
    var p := StitchPath(StoredRoute(inv, id), id, byIp, true);
    StitchedMerged(dir, byIp, inv, id);
    PathStep(p, 0);
    StitchPathNode(StoredRoute(inv, id), id, byIp, true, 1);
    ClusteredStep(dir, merged, ClusterNetworks(dir, merged), Root, p[1]);
    start := StepOrHub(MapEdges(dir, byIp, inv), p[1]);
  }

  lemma StepOrHub(edges: set<Edge>, v: NodeId) returns (start: seq<NodeId>)
    requires (Root, v) in edges || exists s :: (Root, Hub(s)) in edges && (Hub(s), v) in edges
    ensures Walk(edges, start) && start[0] == Root && start[|start| - 1] == v
    ensures forall i :: 0 <= i < |start| - 1 ==> start[i] == Root || start[i].Hub?
  {
    if (Root, v) in edges {
      start := [Root, v];
    } else {
      var s :| (Root, Hub(s)) in edges && (Hub(s), v) in edges;
      start := [Root, Hub(s), v];
    }
  }

  lemma SupportFrom(t: Topo, rank: Ranks, id: EndpointId, q: seq<NodeId>, p: seq<NodeId>)
    requires Walk(t.edges, q) && q[0] == Root && q[|q| - 1] == Endpoint(id)
    requires forall i :: 0 <= i < |q| ==> q[i] in p || q[i] == Root || q[i].Hub?
    requires forall i :: 0 <= i < |p| && IsTransit(p[i]) ==> NamedBy(t.routes, t.byIp, id, p[i])
    ensures exists s :: Support(t, rank, id, s)
  {
    assert Support(t, rank, id, q);
  }

  lemma EdgeSupport(t: Topo, rank: Ranks, parent: EndpointId, id: EndpointId)
    requires (Endpoint(parent), Endpoint(id)) in t.edges && Anchors(rank, id, Endpoint(parent))
    ensures exists p :: Support(t, rank, id, p)
  {
    assert Support(t, rank, id, [Endpoint(parent), Endpoint(id)]);
  }

  lemma ManualEdgeMerged(dir: Directory, byIp: map<Address, EndpointId>, inv: Inventory, id: EndpointId)
    requires id in dir && dir[id].id == id && HasManualParent(dir, dir[id])
    ensures (Endpoint(dir[id].manualParent.value), Endpoint(id)) in MergedEdges(dir, byIp, inv, dir.Keys)
  {
    assert (Endpoint(dir[id].manualParent.value), Endpoint(id)) in RowEdges(dir, byIp, inv, dir[id]);
  }

  lemma ManualSupport(t: Topo, dir: Directory, byIp: map<Address, EndpointId>, inv: Inventory, id: EndpointId)
    requires BuiltFrom(t, dir, byIp, inv)
    requires Forest(ManualParents(dir))
    requires id in dir && HasManualParent(dir, dir[id])
    ensures exists p :: Support(t, Heights(dir), id, p)
  {
    var parent := dir[id].manualParent.value;
    var merged := MergedEdges(dir, byIp, inv, dir.Keys);
    ManualEdgeMerged(dir, byIp, inv, id);
    ClusteredStep(dir, merged, ClusterNetworks(dir, merged), Endpoint(parent), Endpoint(id));
    ChildHigher(ManualParents(dir), id);
    EdgeSupport(t, Heights(dir), parent, id);
  }

  lemma BuiltSupported(t: Topo, dir: Directory, byIp: map<Address, EndpointId>, inv: Inventory)
    requires BuiltFrom(t, dir, byIp, inv)
    requires t.states.Keys == MapStates(dir, byIp, inv).Keys
    requires Forest(ManualParents(dir))
    ensures Supported(t, Heights(dir))
  {
    MapNode(dir, byIp, inv, Root);
    var rank := Heights(dir);
    forall e ensures e in rank <==> Endpoint(e) in t.states {
      MapNode(dir, byIp, inv, Endpoint(e));
    }
    forall e | e in rank ensures exists p :: Support(t, rank, e, p) {
      if HasManualParent(dir, dir[e]) {
        ManualSupport(t, dir, byIp, inv, e);
      } else {
        StitchedSupport(t, dir, byIp, inv, rank, e);
      }
    }
  }

  lemma RebuiltSupported(inv: Inventory)
    requires Forest(ManualParents(MonitoredRows(inv.rows)))
    ensures Supported(Rebuilt(inv), Heights(MonitoredRows(inv.rows)))
  {
    RowsById(inv.rows);
    BuiltSupported(Rebuilt(inv), MonitoredRows(inv.rows), AddressBook(inv.rows), inv);
  }

  // ------------------------------------------------------------------
  // Runs
  // ------------------------------------------------------------------

  datatype Op =
    | SetStatus(node: NodeId, state: string)
    | NewRoute(ep: EndpointId, hops: seq<Hop>)

  ghost function Apply(t: Topo, op: Op): Topo {
    match op
    case SetStatus(n, s) => StatusUpdated(t, n, s)
    case NewRoute(ep, hops) => PathUpdated(t, ep, hops)
  }

  ghost function ApplyAll(t: Topo, ops: seq<Op>): Topo
    decreases |ops|
  {
    if ops == [] then t else ApplyAll(Apply(t, ops[0]), ops[1..])
  }

  lemma {:induction false} RunKeepsSupports(t: Topo, rank: Ranks, ops: seq<Op>) returns (rank': Ranks)
    requires Sane(t) && Supported(t, rank)
    ensures Sane(ApplyAll(t, ops)) && Supported(ApplyAll(t, ops), rank')
    ensures rank'.Keys == rank.Keys
    decreases |ops|
  {
    rank' := rank;
    if ops != [] {
      match ops[0] {
        case SetStatus(n, s) =>
          StatusUpdateSane(t, n, s);
          StatusUpdateSupported(t, rank, n, s);
        case NewRoute(ep, hops) =>
          PathUpdateSane(t, ep, hops);
          if ep !in t.disabled {
            PathUpdateSupported(t, rank, ep, hops);
            rank' := Promoted(rank, ep);
          }
      }
      rank' := RunKeepsSupports(Apply(t, ops[0]), rank', ops[1..]);
    }
  }

  /** From a rebuild with acyclic manual parents, no sequence of status changes and new routes
      ever cuts a monitored node off the root. */
  lemma MonitoredStayReachable(inv: Inventory, ops: seq<Op>)
    requires Forest(ManualParents(MonitoredRows(inv.rows)))
    ensures var t := ApplyAll(Rebuilt(inv), ops);
            && Sane(t)
            && forall e :: e in MonitoredRows(inv.rows) ==>
                Endpoint(e) in t.states && Reachable(t.edges, Root, Endpoint(e))
  {
    RebuildSane(inv);
    RebuiltSupported(inv);
    var rank := RunKeepsSupports(Rebuilt(inv), Heights(MonitoredRows(inv.rows)), ops);
    var t := ApplyAll(Rebuilt(inv), ops);
    forall e | e in MonitoredRows(inv.rows) ensures Endpoint(e) in t.states && Reachable(t.edges, Root, Endpoint(e)) {
      SupportedReachable(t, rank, e);
    }
  }
}
