// Facts about the topology model that hold operation by operation.

module TopologyFacts {
  import opened Hops
  import opened Graphs
  import opened Downstream
  import opened TopologyModel

  // ------------------------------------------------------------------
  // Stitched paths
  // ------------------------------------------------------------------

  lemma PathEdgeAt(p: seq<NodeId>, e: Edge) returns (i: nat)
    requires e in PathEdges(p)
    ensures i < |p| - 1 && e == (p[i], p[i + 1])
  {
    i :| 0 <= i < |p| - 1 && StepOf(p, i).0 != StepOf(p, i).1 && StepOf(p, i) == e;
  }

  /** Consecutive nodes of a path are joined by its edges, or are the same node. */
  lemma PathStep(p: seq<NodeId>, i: nat)
    requires i < |p| - 1
    ensures p[i] == p[i + 1] || (p[i], p[i + 1]) in PathEdges(p)
  {
    assert StepOf(p, i) == (p[i], p[i + 1]);
  }

  /** The nodes of a stitched path: the root only first, then transit nodes of the route and
      monitored endpoints. */
  lemma StitchPathNode(clean: seq<Hop>, ep: EndpointId, byIp: map<Address, EndpointId>, onMap: bool, i: nat)
    requires i < |StitchPath(clean, ep, byIp, onMap)|
    ensures var n := StitchPath(clean, ep, byIp, onMap)[i];
            if i == 0 then n == Root
            else
              n in TransitAmong(RouteNodes(clean, ep, byIp))
              || (n.Endpoint? && (n.id in byIp.Values || (onMap && n.id == ep)))
  {
    var nodes := RouteNodes(clean, ep, byIp);
    if 0 < i <= |nodes| {
      assert nodes[i - 1] in nodes;
    }
  }

  lemma StitchEdgeEnds(clean: seq<Hop>, ep: EndpointId, byIp: map<Address, EndpointId>, onMap: bool, nodes: set<NodeId>,
                       e: Edge)
    requires e in PathEdges(StitchPath(clean, ep, byIp, onMap))
    requires Root in nodes && Resolves(nodes, byIp) && (onMap ==> Endpoint(ep) in nodes)
    requires TransitAmong(RouteNodes(clean, ep, byIp)) <= nodes
    ensures e.0 in nodes && e.1 in nodes
  {
    var i := PathEdgeAt(StitchPath(clean, ep, byIp, onMap), e);
    StitchPathNode(clean, ep, byIp, onMap, i);
    StitchPathNode(clean, ep, byIp, onMap, i + 1);
  }

  lemma StitchEdgeTarget(clean: seq<Hop>, ep: EndpointId, byIp: map<Address, EndpointId>, onMap: bool, e: Edge)
    requires e in PathEdges(StitchPath(clean, ep, byIp, onMap))
    ensures e.1 != Root && !e.1.Hub? && !e.0.Hub?
  {
    var i := PathEdgeAt(StitchPath(clean, ep, byIp, onMap), e);
    StitchPathNode(clean, ep, byIp, onMap, i);
    StitchPathNode(clean, ep, byIp, onMap, i + 1);
  }

  // ------------------------------------------------------------------
  // Path updates
  // ------------------------------------------------------------------

  /** A path update keeps the map sane. */
  lemma PathUpdateSane(t: Topo, ep: EndpointId, hops: seq<Hop>)
    requires Sane(t)
    ensures Sane(PathUpdated(t, ep, hops))
  {
    if ep !in t.disabled {
      var clean := Route(hops);
      assert RootHasNoSource(UpdatedEdges(t, ep, clean)) by {
        forall e | e in UpdatedEdges(t, ep, clean) ensures e.1 != Root {
          if e in PathEdges(StitchPath(clean, ep, t.byIp, Endpoint(ep) in t.states)) {
            StitchEdgeTarget(clean, ep, t.byIp, Endpoint(ep) in t.states, e);
          }
        }
      }
      UpdatedKeepsEndpoints(t, ep, clean);
    }
  }

  /** Monitored nodes never leave the map. */
  lemma UpdatedKeepsEndpoints(t: Topo, ep: EndpointId, clean: seq<Hop>)
    ensures forall n :: !IsTransit(n) ==> (n in UpdatedStates(t, ep, clean) <==> n in t.states)
    ensures forall n :: n in UpdatedStates(t, ep, clean) && IsTransit(n) ==> Named(t.routes[ep := clean], t.byIp, n)
  {
  }

  lemma StatusUpdateSane(t: Topo, n: NodeId, state: string)
    requires Sane(t)
    ensures Sane(StatusUpdated(t, n, state))
    ensures StatusUpdated(t, n, state).states.Keys == t.states.Keys
  {
    assert n in t.states ==> t.states[n := state].Keys == t.states.Keys;
  }

  // ------------------------------------------------------------------
  // The rebuild
  // ------------------------------------------------------------------

  lemma {:induction false} RowsById(rows: seq<EndpointRow>)
    ensures forall id :: id in MonitoredRows(rows) ==> MonitoredRows(rows)[id].id == id
    ensures forall ip :: ip in AddressBook(rows) ==> AddressBook(rows)[ip] in MonitoredRows(rows)
  {
    if rows != [] {
      RowsById(rows[..|rows| - 1]);
    }
  }

  lemma BaseNodes(dir: Directory, inv: Inventory)
    ensures Root in BaseStates(dir, inv)
    ensures forall id :: id in dir ==> Endpoint(id) in BaseStates(dir, inv)
    ensures forall n :: n in BaseStates(dir, inv) ==> n == Root || n.Endpoint?
  {
  }

  /** Every edge of the trie merge joins two of its nodes and enters neither the root nor a hub. */
  lemma MergedEdge(dir: Directory, byIp: map<Address, EndpointId>, inv: Inventory, e: Edge)
    requires forall id :: id in dir ==> dir[id].id == id
    requires forall ip :: ip in byIp ==> byIp[ip] in dir
    requires e in MergedEdges(dir, byIp, inv, dir.Keys)
    ensures e.0 in MergedStates(dir, byIp, inv, dir.Keys) && e.1 in MergedStates(dir, byIp, inv, dir.Keys)
    ensures e.1 != Root && !e.1.Hub? && !e.0.Hub?
  {
    var id :| id in dir.Keys && id in dir && e in RowEdges(dir, byIp, inv, dir[id]);
    BaseNodes(dir, inv);
    if !HasManualParent(dir, dir[id]) {
      var nodes := MergedStates(dir, byIp, inv, dir.Keys).Keys;
      assert RowTransit(dir, byIp, inv, dir[id]) <= nodes by {
        assert RowTransit(dir, byIp, inv, dir[id]) <= MergedTransit(dir, byIp, inv, dir.Keys);
      }
      StitchEdgeEnds(StoredRoute(inv, id), id, byIp, true, nodes, e);
      StitchEdgeTarget(StoredRoute(inv, id), id, byIp, true, e);
    }
  }

  /** The edges of the rebuilt map: a merged edge, a link to a hub, or a link from a hub. */
  lemma MapEdge(dir: Directory, byIp: map<Address, EndpointId>, inv: Inventory, e: Edge)
    requires e in MapEdges(dir, byIp, inv)
    ensures var merged := MergedEdges(dir, byIp, inv, dir.Keys);
            || e in merged
            || (e.0 == Root && e.1.Hub? && e.1.subnet in ClusterNetworks(dir, merged))
            || (e.0.Hub? && e.0.subnet in ClusterNetworks(dir, merged) && e.1.Endpoint? && e.1.id in dir)
  {
  }

  /** The nodes of the rebuilt map, kind by kind. */
  lemma MapNode(dir: Directory, byIp: map<Address, EndpointId>, inv: Inventory, n: NodeId)
    ensures n in MapStates(dir, byIp, inv) <==>
            match n
            case Root => true
            case Endpoint(id) => id in dir
            case Hub(s) => s in ClusterNetworks(dir, MergedEdges(dir, byIp, inv, dir.Keys))
            case _ => n in MergedTransit(dir, byIp, inv, dir.Keys)
    ensures IsTransit(n) && n in MapStates(dir, byIp, inv) ==>
            MapStates(dir, byIp, inv)[n] == TransitState(n, inv.failedIps)
  {
    BaseNodes(dir, inv);
    MergedTransitKind(dir, byIp, inv);
  }

  lemma MergedTransitKind(dir: Directory, byIp: map<Address, EndpointId>, inv: Inventory)
    ensures forall n :: n in MergedTransit(dir, byIp, inv, dir.Keys) ==> IsTransit(n)
  {
    forall n | n in MergedTransit(dir, byIp, inv, dir.Keys) ensures IsTransit(n) {
      var id :| id in dir.Keys && n in RowTransit(dir, byIp, inv, dir[id]);
    }
  }

  lemma MapEnds(dir: Directory, byIp: map<Address, EndpointId>, inv: Inventory)
    requires forall id :: id in dir ==> dir[id].id == id
    requires forall ip :: ip in byIp ==> byIp[ip] in dir
    ensures EndsIn(MapStates(dir, byIp, inv).Keys, MapEdges(dir, byIp, inv))
    ensures RootHasNoSource(MapEdges(dir, byIp, inv))
  {
    forall e | e in MapEdges(dir, byIp, inv)
      ensures e.0 in MapStates(dir, byIp, inv) && e.1 in MapStates(dir, byIp, inv) && e.1 != Root
    {
      MapEdge(dir, byIp, inv, e);
      MapNode(dir, byIp, inv, e.0);
      MapNode(dir, byIp, inv, e.1);
      if e in MergedEdges(dir, byIp, inv, dir.Keys) {
        MergedEdge(dir, byIp, inv, e);
      }
    }
  }

  lemma RowTransitNamed(dir: Directory, byIp: map<Address, EndpointId>, inv: Inventory, id: EndpointId, n: NodeId)
    requires id in dir && dir[id].id == id && n in RowTransit(dir, byIp, inv, dir[id])
    ensures NamedBy(inv.routes, byIp, id, n) && Named(inv.routes, byIp, n)
  {
    assert n in RouteNodes(StoredRoute(inv, id), id, byIp);
    assert StoredRoute(inv, id) != [];
    if id !in inv.routes {
      assert false;
    }
    assert NamedBy(inv.routes, byIp, id, n);
  }

  lemma MapTransitNamed(dir: Directory, byIp: map<Address, EndpointId>, inv: Inventory, n: NodeId)
    requires forall id :: id in dir ==> dir[id].id == id
    requires n in MapStates(dir, byIp, inv) && IsTransit(n)
    ensures Named(inv.routes, byIp, n)
  {
    MapNode(dir, byIp, inv, n);
    var id :| id in dir && n in RowTransit(dir, byIp, inv, dir[id]);
    RowTransitNamed(dir, byIp, inv, id, n);
  }

  lemma RebuildSane(inv: Inventory)
    ensures Sane(Rebuilt(inv))
  {
    var dir, byIp := MonitoredRows(inv.rows), AddressBook(inv.rows);
    RowsById(inv.rows);
    MapEnds(dir, byIp, inv);
    forall n | n in RebuiltStates(inv) && IsTransit(n) ensures Named(inv.routes, byIp, n) {
      MapTransitNamed(dir, byIp, inv, n);
    }
    forall ip | ip in byIp ensures Endpoint(byIp[ip]) in RebuiltStates(inv) {
      MapNode(dir, byIp, inv, Endpoint(byIp[ip]));
    }
  }
}
