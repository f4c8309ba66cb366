// The in-memory graph manager, updated in place (backend/app/services/topology.py).

module TopologyGraph {
  import opened Collections
  import opened Options
  import opened Hops
  import opened Graphs
  import opened Levels
  import opened Downstream
  import opened TopologyModel
  import opened TopologyFacts

  // ------------------------------------------------------------------
  // Shared steps
  // ------------------------------------------------------------------

  /** Adds one edge to the edge set and to the child index. */
  method Link(edges: set<Edge>, children: map<NodeId, set<NodeId>>, u: NodeId, v: NodeId)
    returns (edges': set<Edge>, children': map<NodeId, set<NodeId>>)
    requires Indexes(children, edges)
    ensures edges' == edges + {(u, v)} && Indexes(children', edges')
  {
    edges', children' := edges + {(u, v)}, children;
    if u !in children' {
      children' := children'[u := {}];
    }
    children' := children'[u := children'[u] + {v}];
  }

  /** Removes one edge from both. */
  method Unlink(edges: set<Edge>, children: map<NodeId, set<NodeId>>, u: NodeId, v: NodeId)
    returns (edges': set<Edge>, children': map<NodeId, set<NodeId>>)
    requires Indexes(children, edges)
    ensures edges' == edges - {(u, v)} && Indexes(children', edges')
  {
    edges', children' := edges - {(u, v)}, children;
    if u in children' {
      children' := children'[u := children'[u] - {v}];
    }
  }

  /** The edge of one step of a path; staying put needs none. */
  function StepEdges(u: NodeId, v: NodeId): set<Edge> { if u == v then {} else {(u, v)} }

  lemma PathEdgesAppend(p: seq<NodeId>, n: NodeId)
    requires p != []
    ensures PathEdges(p + [n]) == PathEdges(p) + StepEdges(p[|p| - 1], n)
  {
    var q := p + [n];
    forall i | 0 <= i < |p| - 1 ensures StepOf(q, i) == StepOf(p, i) {}
    assert StepOf(q, |p| - 1) == (p[|p| - 1], n);
    forall e | e in PathEdges(q) ensures e in PathEdges(p) + if p[|p| - 1] == n then {} else {(p[|p| - 1], n)} {
      var i :| 0 <= i < |q| - 1 && StepOf(q, i).0 != StepOf(q, i).1 && StepOf(q, i) == e;
      if i < |p| - 1 {
        assert StepOf(p, i) == e;
      }
    }
    forall e | e in PathEdges(p) ensures e in PathEdges(q) {
      var i :| 0 <= i < |p| - 1 && StepOf(p, i).0 != StepOf(p, i).1 && StepOf(p, i) == e;
      assert StepOf(q, i) == e;
    }
  }

  /** The state of a node once the transit nodes of a route have been visited. */
  function StitchedState(states: map<NodeId, string>, transit: set<NodeId>, failed: set<Address>, n: NodeId): string {
    if n in transit && n.Transit? && n.ip in failed then FAILURE_POINT
    else if n in states then states[n] else UP
  }

  ghost predicate Stitched(states: map<NodeId, string>, transit: set<NodeId>, failed: set<Address>,
                           states': map<NodeId, string>)
  {
    && states'.Keys == states.Keys + transit
    && (forall n :: n in states' ==> states'[n] == StitchedState(states, transit, failed, n))
  }

  /** What visiting one node of a route does to the states. */
  function Visited(states: map<NodeId, string>, n: NodeId, failed: set<Address>): map<NodeId, string> {
    if !IsTransit(n) then states
    else if n.Transit? && n.ip in failed then states[n := FAILURE_POINT]
    else if n in states then states
    else states[n := UP]
  }

  /** Resolves one hop to its node, creating the node when it is a new transit node. */
  method VisitHop(states: map<NodeId, string>, hop: Hop, tag: Option<Address>, ep: EndpointId,
                  byIp: map<Address, EndpointId>, failed: set<Address>)
    returns (current: NodeId, states': map<NodeId, string>)
    ensures current == HopNode(hop, tag, ep, byIp)
    ensures states' == Visited(states, current, failed)
  {
    states' := states;
    if hop.ip.None? {
      current := Anonymous(tag, Prefix8(ep));
      if current !in states' {
        states' := states'[current := UP];
      }
    } else if hop.ip.value in byIp {
      current := Endpoint(byIp[hop.ip.value]);
    } else {
      current := Transit(hop.ip.value);
      if current !in states' {
        states' := states'[current := if hop.ip.value in failed then FAILURE_POINT else UP];
      } else if hop.ip.value in failed {
        states' := states'[current := FAILURE_POINT];
      }
    }
  }

  /** Visiting nodes one after the other. */
  function VisitedAll(states: map<NodeId, string>, nodes: seq<NodeId>, failed: set<Address>): map<NodeId, string> {
    if nodes == [] then states
    else Visited(VisitedAll(states, nodes[..|nodes| - 1], failed), nodes[|nodes| - 1], failed)
  }

  lemma {:induction false} VisitedAllIsStitched(states: map<NodeId, string>, nodes: seq<NodeId>, failed: set<Address>)
    ensures Stitched(states, TransitAmong(nodes), failed, VisitedAll(states, nodes, failed))
  {
    if nodes != [] {
      var i := |nodes| - 1;
      VisitedAllIsStitched(states, nodes[..i], failed);
      TransitAmongStep(nodes, i);
      assert nodes[..i + 1] == nodes;
    }
  }

  lemma TransitAmongStep(nodes: seq<NodeId>, i: nat)
    requires i < |nodes|
    ensures TransitAmong(nodes[..i + 1]) == TransitAmong(nodes[..i]) + if IsTransit(nodes[i]) then {nodes[i]} else {}
  {
    assert nodes[..i + 1] == nodes[..i] + [nodes[i]];
    forall n ensures n in nodes[..i + 1] <==> n in nodes[..i] || n == nodes[i] {}
  }

  /** One hop of the walk: its node and the edge that leads to it. */
  method StitchHop(states: map<NodeId, string>, edges: set<Edge>, children: map<NodeId, set<NodeId>>,
                   previous: NodeId, hop: Hop, tag: Option<Address>, ep: EndpointId, byIp: map<Address, EndpointId>,
                   failed: set<Address>)
    returns (current: NodeId, states': map<NodeId, string>, edges': set<Edge>, children': map<NodeId, set<NodeId>>)
    requires Indexes(children, edges)
    ensures current == HopNode(hop, tag, ep, byIp)
    ensures states' == Visited(states, current, failed)
    ensures edges' == edges + StepEdges(previous, current)
    ensures Indexes(children', edges')
  {
    edges', children' := edges, children;
    current, states' := VisitHop(states, hop, tag, ep, byIp, failed);
    if previous != current {
      edges', children' := Link(edges', children', previous, current);
    }
  }

  /** Walks a clean route from the root, creating transit nodes and edges on the way. */
  method StitchHops(states: map<NodeId, string>, edges: set<Edge>, children: map<NodeId, set<NodeId>>,
                    clean: seq<Hop>, ep: EndpointId, byIp: map<Address, EndpointId>, failed: set<Address>)
    returns (previous: NodeId, states': map<NodeId, string>, edges': set<Edge>, children': map<NodeId, set<NodeId>>)
    requires Indexes(children, edges)
    ensures states' == VisitedAll(states, RouteNodes(clean, ep, byIp), failed)
    ensures previous == ([Root] + RouteNodes(clean, ep, byIp))[|clean|]
    ensures edges' == edges + PathEdges([Root] + RouteNodes(clean, ep, byIp))
    ensures Indexes(children', edges')
  {
    states', edges', children' := states, edges, children;
    ghost var nodes := RouteNodes(clean, ep, byIp);
    previous := Root;
    var tag: Option<Address> := None;
    for i := 0 to |clean|
      invariant tag == LastAnswer(clean[..i])
      invariant previous == ([Root] + nodes[..i])[i]
      invariant states' == VisitedAll(states, nodes[..i], failed)
      invariant edges' == edges + PathEdges([Root] + nodes[..i])
      invariant Indexes(children', edges')
    {
      RouteStep(states, clean, nodes, i, failed);
      previous, states', edges', children' :=
        StitchHop(states', edges', children', previous, clean[i], tag, ep, byIp, failed);
      if clean[i].ip.Some? {
        tag := clean[i].ip;
      }
    }
    assert nodes[..|clean|] == nodes;
  }

  lemma RouteStep(states: map<NodeId, string>, clean: seq<Hop>, nodes: seq<NodeId>, i: nat, failed: set<Address>)
    requires i < |clean| == |nodes|
    ensures LastAnswer(clean[..i + 1]) == if clean[i].ip.Some? then clean[i].ip else LastAnswer(clean[..i])
    ensures VisitedAll(states, nodes[..i + 1], failed) ==
            Visited(VisitedAll(states, nodes[..i], failed), nodes[i], failed)
    ensures ([Root] + nodes[..i + 1])[i + 1] == nodes[i]
    ensures PathEdges([Root] + nodes[..i + 1]) ==
            PathEdges([Root] + nodes[..i]) + StepEdges(([Root] + nodes[..i])[i], nodes[i])
  {
    assert clean[..i + 1][..i] == clean[..i];
    assert nodes[..i + 1][..i] == nodes[..i];
    PathEdgesAppend([Root] + nodes[..i], nodes[i]);
    assert [Root] + nodes[..i + 1] == [Root] + nodes[..i] + [nodes[i]];
  }

  /** The whole path of one endpoint; the endpoint itself is attached only when it is on the map. */
  method StitchRoute(states: map<NodeId, string>, edges: set<Edge>, children: map<NodeId, set<NodeId>>,
                     clean: seq<Hop>, ep: EndpointId, byIp: map<Address, EndpointId>, onMap: bool, failed: set<Address>)
    returns (states': map<NodeId, string>, edges': set<Edge>, children': map<NodeId, set<NodeId>>)
    requires Indexes(children, edges)
    ensures states' == VisitedAll(states, RouteNodes(clean, ep, byIp), failed)
    ensures edges' == edges + PathEdges(StitchPath(clean, ep, byIp, onMap))
    ensures Indexes(children', edges')
  {
    var previous;
    previous, states', edges', children' := StitchHops(states, edges, children, clean, ep, byIp, failed);
    ghost var walked := [Root] + RouteNodes(clean, ep, byIp);
    if onMap {
      PathEdgesAppend(walked, Endpoint(ep));
      if previous != Endpoint(ep) {
        edges', children' := Link(edges', children', previous, Endpoint(ep));
      }
    } else {
      assert walked + [] == walked;
    }
  }

  /** Marks the routers whose monitored nodes are all down, one node at a time. */
  method PropagateInferredDown(states: map<NodeId, string>, children: map<NodeId, set<NodeId>>, ghost edges: set<Edge>)
    returns (states': map<NodeId, string>)
    requires Indexes(children, edges) && EndsIn(states.Keys, edges)
    ensures states' == Propagated(states, edges)
  {
    states' := states;
    var todo := states.Keys;
    while todo != {}
      invariant todo <= states.Keys == states'.Keys
      invariant forall n :: n in todo ==> states'[n] == states[n]
      invariant forall n :: n in states && n !in todo ==> states'[n] == Propagated(states, edges)[n]
    {
      var n :| n in todo;
      todo := todo - {n};
      if n.Transit? && states'[n] != FAILURE_POINT {
        var behind := AllDownstream(states'.Keys, children, n, edges);
        if behind != {} && forall m :: m in behind ==> CountsAsDown(states'[m]) {
          states' := states'[n := INFERRED_DOWN];
        }
      }
    }
  }

  // ------------------------------------------------------------------
  // Steps of the incremental update
  // ------------------------------------------------------------------

  /** Drops the stale incoming edges of one node. */
  method UnlinkIncoming(edges: set<Edge>, children: map<NodeId, set<NodeId>>, n: NodeId)
    returns (edges': set<Edge>, children': map<NodeId, set<NodeId>>)
    requires Indexes(children, edges)
    ensures edges' == edges - IncomingTo(edges, n) && Indexes(children', edges')
  {
    edges', children' := edges, children;
    var stale := IncomingTo(edges, n);
    while stale != {}
      invariant stale <= IncomingTo(edges, n)
      invariant edges' == edges - (IncomingTo(edges, n) - stale)
      invariant Indexes(children', edges')
    {
      var e :| e in stale;
      edges', children' := Unlink(edges', children', e.0, e.1);
      stale := stale - {e};
    }
  }

  /** The transit nodes that some stored route names. */
  method ActiveTransit(routes: map<EndpointId, seq<Hop>>, byIp: map<Address, EndpointId>) returns (active: set<NodeId>)
    ensures forall n :: n in active <==> Named(routes, byIp, n)
  {
    active := {};
    var todo := routes.Keys;
    while todo != {}
      invariant todo <= routes.Keys
      invariant forall n :: n in active <==> exists ep :: ep in routes && ep !in todo && NamedBy(routes, byIp, ep, n)
    {
      var ep :| ep in todo;
      var named := RouteTransit(routes[ep], ep, byIp);
      active := active + named;
      todo := todo - {ep};
    }
  }

  method RouteTransit(hops: seq<Hop>, ep: EndpointId, byIp: map<Address, EndpointId>) returns (named: set<NodeId>)
    ensures forall n :: n in named <==> IsTransit(n) && n in RouteNodes(Route(hops), ep, byIp)
  {
    var clean := Sanitize(hops, None);
    ghost var nodes := RouteNodes(clean, ep, byIp);
    named := {};
    var tag: Option<Address> := None;
    for i := 0 to |clean|
      invariant tag == LastAnswer(clean[..i])
      invariant named == TransitAmong(nodes[..i])
    {
      assert nodes[i] == HopNode(clean[i], tag, ep, byIp);
      if clean[i].ip.None? {
        named := named + {Anonymous(tag, Prefix8(ep))};
      } else {
        if clean[i].ip.value !in byIp {
          named := named + {Transit(clean[i].ip.value)};
        }
        tag := clean[i].ip;
      }
      TransitAmongStep(nodes, i);
      assert clean[..i + 1][..i] == clean[..i];
      assert tag == LastAnswer(clean[..i + 1]);
    }
    assert nodes[..|clean|] == nodes;
  }

  /** The child index, built afresh from the edges. */
  method IndexEdges(edges: set<Edge>) returns (children: map<NodeId, set<NodeId>>)
    ensures Indexes(children, edges)
  {
    children := map[];
    var todo, done := edges, {};
    while todo != {}
      invariant done + todo == edges
      invariant Indexes(children, done)
    {
      var e :| e in todo;
      done, children := Link(done, children, e.0, e.1);
      todo := todo - {e};
    }
  }

  // ------------------------------------------------------------------
  // Steps of the rebuild
  // ------------------------------------------------------------------

  method ReadRows(rows: seq<EndpointRow>)
    returns (dir: Directory, byIp: map<Address, EndpointId>, disabled: set<EndpointId>)
    ensures dir == MonitoredRows(rows) && byIp == AddressBook(rows) && disabled == DisabledIds(rows)
  {
    dir, byIp, disabled := map[], map[], {};
    for i := 0 to |rows|
      invariant dir == MonitoredRows(rows[..i])
      invariant byIp == AddressBook(rows[..i])
      invariant disabled == DisabledIds(rows[..i])
    {
      var row := rows[i];
      assert rows[..i + 1] == rows[..i] + [row];
      assert rows[..i + 1][..i] == rows[..i];
      DisabledStep(rows[..i], row);
      if !row.discoverable {
        disabled := disabled + {row.id};
      } else {
        dir := dir[row.id := row];
        byIp := byIp[row.ip := row.id];
      }
    }
    assert rows[..|rows|] == rows;
  }

  lemma DisabledStep(rows: seq<EndpointRow>, row: EndpointRow)
    ensures DisabledIds(rows + [row]) == DisabledIds(rows) + if row.discoverable then {} else {row.id}
  {
    forall r ensures r in rows + [row] <==> r in rows || r == row {}
    assert row in rows + [row];
  }

  /** The base nodes keep their states; the transit nodes are up unless their address failed. */
  ghost predicate StatesOver(base: map<NodeId, string>, transit: set<NodeId>, failed: set<Address>,
                             states: map<NodeId, string>)
  {
    && states.Keys == base.Keys + transit
    && (forall n :: n in states ==> states[n] == if n in base then base[n] else TransitState(n, failed))
  }

  lemma MergeOne(dir: Directory, byIp: map<Address, EndpointId>, inv: Inventory, ids: set<EndpointId>, id: EndpointId)
    requires id in dir
    ensures MergedEdges(dir, byIp, inv, ids + {id}) ==
            MergedEdges(dir, byIp, inv, ids) + RowEdges(dir, byIp, inv, dir[id])
    ensures MergedTransit(dir, byIp, inv, ids + {id}) ==
            MergedTransit(dir, byIp, inv, ids) + RowTransit(dir, byIp, inv, dir[id])
  {
  }

  lemma MergeStates(base: map<NodeId, string>, transit: set<NodeId>, more: set<NodeId>, failed: set<Address>,
                    states: map<NodeId, string>, states': map<NodeId, string>)
    requires StatesOver(base, transit, failed, states)
    requires Stitched(states, more, failed, states')
    requires forall n :: n in base ==> !IsTransit(n)
    ensures StatesOver(base, transit + more, failed, states')
  {
  }

  /** The trie merge: every row adds its manual link or its stitched route. */
  method MergeRows(dir: Directory, byIp: map<Address, EndpointId>, inv: Inventory)
    returns (states: map<NodeId, string>, edges: set<Edge>, children: map<NodeId, set<NodeId>>)
    requires forall id :: id in dir ==> dir[id].id == id
    ensures StatesOver(BaseStates(dir, inv), MergedTransit(dir, byIp, inv, dir.Keys), inv.failedIps, states)
    ensures edges == MergedEdges(dir, byIp, inv, dir.Keys)
    ensures Indexes(children, edges)
  {
    var base := BaseStates(dir, inv);
    assert forall n :: n in base ==> !IsTransit(n);
    states, edges, children := base, {}, map[];
    var todo := dir.Keys;
    ghost var done: set<EndpointId> := {};
    while todo != {}
      invariant todo <= dir.Keys && done == dir.Keys - todo
      invariant StatesOver(base, MergedTransit(dir, byIp, inv, done), inv.failedIps, states)
      invariant edges == MergedEdges(dir, byIp, inv, done)
      invariant Indexes(children, edges)
    {
      var id :| id in todo;
      var row := dir[id];
      MergeOne(dir, byIp, inv, done, id);
      FinishOne(dir.Keys, todo, id);
      if HasManualParent(dir, row) {
        edges, children := Link(edges, children, Endpoint(row.manualParent.value), Endpoint(id));
        assert MergedTransit(dir, byIp, inv, done + {id}) == MergedTransit(dir, byIp, inv, done);
      } else {
        var clean := Sanitize(if id in inv.routes then inv.routes[id] else [], None);
        ghost var before := states;
        states, edges, children := StitchRoute(states, edges, children, clean, id, byIp, true, inv.failedIps);
        VisitedAllIsStitched(before, RouteNodes(clean, id, byIp), inv.failedIps);
        MergeStates(base, MergedTransit(dir, byIp, inv, done), RowTransit(dir, byIp, inv, row), inv.failedIps, before,
                    states);
      }
      todo, done := todo - {id}, done + {id};
    }
    assert done == dir.Keys;
  }

  // ------------------------------------------------------------------
  // Subnet clustering
  // ------------------------------------------------------------------

  /** Groups the endpoints linked to the root directly by network. */
  method GroupDirect(dir: Directory, edges: set<Edge>) returns (byNet: map<string, set<EndpointId>>)
    ensures forall s :: s in byNet ==> s != "" && byNet[s] == DirectIn(dir, edges, s) && byNet[s] != {}
    ensures forall s :: s != "" && DirectIn(dir, edges, s) != {} ==> s in byNet
  {
    byNet := map[];
    var todo := set id | id in dir && (Root, Endpoint(id)) in edges;
    ghost var done: set<EndpointId> := {};
    while todo != {}
      invariant done !! todo && forall id :: id in done + todo <==> id in dir && (Root, Endpoint(id)) in edges
      invariant forall s :: s in byNet <==> s != "" && DirectIn(dir, edges, s) * done != {}
      invariant forall s :: s in byNet ==> byNet[s] == DirectIn(dir, edges, s) * done
    {
      var id :| id in todo;
      ghost var before := done;
      todo, done := todo - {id}, done + {id};
      var net := dir[id].subnet;
      forall s
        ensures DirectIn(dir, edges, s) * done == DirectIn(dir, edges, s) * before + if net == Some(s) then {id} else {}
      {}
      if net.Some? && net.value != "" {
        byNet := byNet[net.value := (if net.value in byNet then byNet[net.value] else {}) + {id}];
      }
    }
    forall s ensures DirectIn(dir, edges, s) * done == DirectIn(dir, edges, s) {}
  }

  /** Puts one hub between the root and the endpoints of its network. */
  method MoveBehindHub(edges: set<Edge>, children: map<NodeId, set<NodeId>>, hub: NodeId, ids: set<EndpointId>)
    returns (edges': set<Edge>, children': map<NodeId, set<NodeId>>)
    requires Indexes(children, edges) && hub.Hub?
    ensures edges' == edges + {(Root, hub)} - RootLinks(ids) + LinksFrom(hub, ids)
    ensures Indexes(children', edges')
  {
    edges', children' := Link(edges, children, Root, hub);
    var todo := ids;
    ghost var done: set<EndpointId> := {};
    while todo != {}
      invariant done + todo == ids && done !! todo
      invariant edges' == edges + {(Root, hub)} - RootLinks(done) + LinksFrom(hub, done)
      invariant Indexes(children', edges')
    {
      var id :| id in todo;
      edges', children' := Unlink(edges', children', Root, Endpoint(id));
      edges', children' := Link(edges', children', hub, Endpoint(id));
      assert RootLinks(done + {id}) == RootLinks(done) + {(Root, Endpoint(id))};
      assert LinksFrom(hub, done + {id}) == LinksFrom(hub, done) + {(hub, Endpoint(id))};
      todo, done := todo - {id}, done + {id};
    }
    assert done == ids;
  }

  function LinksFrom(hub: NodeId, ids: set<EndpointId>): set<Edge> {
    set id | id in ids :: (hub, Endpoint(id))
  }

  lemma ClusterOne(dir: Directory, edges: set<Edge>, done: set<string>, s: string)
    requires s !in done
    ensures Clustered(dir, edges, done + {s}) ==
            Clustered(dir, edges, done) + {(Root, Hub(s))} - RootLinks(DirectIn(dir, edges, s))
                + LinksFrom(Hub(s), DirectIn(dir, edges, s))
  {
    var more := DirectIn(dir, edges, s);
    var moved := Moved(dir, edges, done);
    assert Moved(dir, edges, done + {s}) == moved + more;
    assert RootLinks(moved + more) == RootLinks(moved) + RootLinks(more);
    assert HubLinks(dir, moved + more) == HubLinks(dir, moved) + LinksFrom(Hub(s), more);
    assert (set x | x in done + {s} :: (Root, Hub(x))) == (set x | x in done :: (Root, Hub(x))) + {(Root, Hub(s))};
  }

  lemma LargeNetworks(dir: Directory, edges: set<Edge>, byNet: map<string, set<EndpointId>>)
    requires forall s :: s in byNet ==> s != "" && byNet[s] == DirectIn(dir, edges, s) && byNet[s] != {}
    requires forall s :: s != "" && DirectIn(dir, edges, s) != {} ==> s in byNet
    ensures (set s | s in byNet && |byNet[s]| >= 2) == ClusterNetworks(dir, edges)
  {
    forall s ensures s in byNet && |byNet[s]| >= 2 <==> s in ClusterNetworks(dir, edges) {
      if s in byNet && |byNet[s]| >= 2 {
        var id :| id in byNet[s];
        assert dir[id].subnet == Some(s) && Clusters(dir, edges, s);
      }
    }
  }

  lemma HubOne(states: map<NodeId, string>, done: set<string>, s: string)
    requires Hub(s) !in states && s !in done
    ensures Hub(s) !in WithHubs(states, done)
    ensures WithHubs(states, done + {s}) == WithHubs(states, done)[Hub(s) := UP]
  {
    var a, b := WithHubs(states, done + {s}), WithHubs(states, done)[Hub(s) := UP];
    assert a.Keys == b.Keys;
    forall n | n in a ensures a[n] == b[n] {}
  }

  /** Clusters one network. */
  method ClusterNetwork(states: map<NodeId, string>, edges: set<Edge>, children: map<NodeId, set<NodeId>>, s: string,
                        ids: set<EndpointId>)
    returns (states': map<NodeId, string>, edges': set<Edge>, children': map<NodeId, set<NodeId>>)
    requires Indexes(children, edges)
    ensures states' == if Hub(s) in states then states else states[Hub(s) := UP]
    ensures edges' == edges + {(Root, Hub(s))} - RootLinks(ids) + LinksFrom(Hub(s), ids)
    ensures Indexes(children', edges')
  {
    states' := states;
    if Hub(s) !in states' {
      states' := states'[Hub(s) := UP];
    }
    edges', children' := MoveBehindHub(edges, children, Hub(s), ids);
  }

  /** Clusters every network with two or more direct endpoints. */
  method ClusterSubnets(dir: Directory, states: map<NodeId, string>, edges: set<Edge>,
                        children: map<NodeId, set<NodeId>>)
    returns (states': map<NodeId, string>, edges': set<Edge>, children': map<NodeId, set<NodeId>>)
    requires Indexes(children, edges)
    requires forall n :: n in states ==> !n.Hub?
    ensures edges' == Clustered(dir, edges, ClusterNetworks(dir, edges))
    ensures states' == WithHubs(states, ClusterNetworks(dir, edges))
    ensures Indexes(children', edges')
  {
    states', edges', children' := states, edges, children;
    var byNet := GroupDirect(dir, edges);
    LargeNetworks(dir, edges, byNet);
    var todo := set s | s in byNet && |byNet[s]| >= 2;
    ghost var nets := todo;
    ghost var done: set<string> := {};
    NothingClustered(dir, edges, states);
    while todo != {}
      invariant todo <= nets && done == nets - todo
      invariant edges' == Clustered(dir, edges, done)
      invariant states' == WithHubs(states, done)
      invariant Indexes(children', edges')
    {
      var s :| s in todo;
      HubOne(states, done, s);
      ClusterOne(dir, edges, done, s);
      FinishOne(nets, todo, s);
      states', edges', children' := ClusterNetwork(states', edges', children', s, byNet[s]);
      todo, done := todo - {s}, done + {s};
    }
    assert done == nets;
  }

  lemma NothingClustered(dir: Directory, edges: set<Edge>, states: map<NodeId, string>)
    ensures Clustered(dir, edges, {}) == edges
    ensures WithHubs(states, {}) == states
  {
    assert Moved(dir, edges, {}) == {};
  }

  // ------------------------------------------------------------------
  // The manager
  // ------------------------------------------------------------------

  /** The graph handed to readers. */
  datatype GraphView = GraphView(states: map<NodeId, string>, levels: map<NodeId, nat>, edges: set<Edge>)

  ghost predicate SomeLeveling(nodes: set<NodeId>, edges: set<Edge>, levels: map<NodeId, nat>) {
    exists order: seq<NodeId> :: Distinct(order) && Leveled(nodes, edges, Elements(order), levels)
  }

  class TopologyManager {
    var states: map<NodeId, string>
    var levels: map<NodeId, nat>
    var edges: set<Edge>
    var children: map<NodeId, set<NodeId>>
    var byIp: map<Address, EndpointId>
    var disabled: set<EndpointId>
    var routes: map<EndpointId, seq<Hop>>
    var cached: GraphView

    ghost function Map(): Topo
      reads this
    {
      Topo(states, edges, routes, byIp, disabled)
    }

    /** The child index is the adjacency of the edges, the cache is the graph, the levels are those
        the level pass promises for the present edges, and the map is sane. */
    ghost predicate Valid()
      reads this
    {
      && Indexes(children, edges)
      && cached == GraphView(states, levels, edges)
      && SomeLeveling(states.Keys, edges, levels)
      && Sane(Map())
    }

    constructor ()
      ensures Valid() && Map() == Topo(map[], {}, map[], map[], {})
    {
      states, levels, edges, children := map[], map[], {}, map[];
      byIp, disabled, routes := map[], {}, map[];
      cached := GraphView(map[], map[], {});
      new;
      assert Distinct([]) && Leveled({}, {}, Elements([]), levels);
    }

    /** Installs a new graph and publishes it: new levels, then the cache. */
    method Install(t: Topo, index: map<NodeId, set<NodeId>>)
      requires Indexes(index, t.edges) && Sane(t)
      modifies this
      ensures Valid() && Map() == t
    {
      states, edges, children := t.states, t.edges, index;
      byIp, disabled, routes := t.byIp, t.disabled, t.routes;
      ghost var order, relaxed;
      levels, order, relaxed := AssignLevels(states.Keys, edges);
      cached := GraphView(states, levels, edges);
    }

    method UpdateNodeStatus(n: NodeId, state: string)
      requires Valid()
      modifies this
      ensures Valid() && Map() == StatusUpdated(old(Map()), n, state)
    {
      if n.Endpoint? && n.id in disabled {
        return;
      }
      if n in states {
        var s := states[n := state];
        assert s.Keys == states.Keys;
        s := PropagateInferredDown(s, children, edges);
        assert s.Keys == states.Keys;
        states := s;
        cached := GraphView(states, levels, edges);
      }
    }

    method UpdateEndpointPath(ep: EndpointId, hops: seq<Hop>)
      requires Valid()
      modifies this
      ensures Valid() && Map() == PathUpdated(old(Map()), ep, hops)
    {
      if ep in disabled {
        return;
      }
      var clean := Sanitize(hops, None);
      PathUpdateSane(Map(), ep, hops);
      var t, index := Reroute(Topo(states, edges, routes, byIp, disabled), children, ep, clean);
      Install(t, index);
    }

    method FullRebuild(inv: Inventory)
      modifies this
      ensures Valid() && Map() == Rebuilt(inv)
    {
      RebuildSane(inv);
      var t, index := Rebuild(inv);
      Install(t, index);
    }
  }

  /** The ghost pruning pass: unnamed transit nodes go, then the edges that lost an end. */
  method PruneGhosts(states: map<NodeId, string>, edges: set<Edge>, routes: map<EndpointId, seq<Hop>>,
                     byIp: map<Address, EndpointId>)
    returns (states': map<NodeId, string>, edges': set<Edge>, children': map<NodeId, set<NodeId>>)
    ensures states' == Unghosted(states, routes, byIp)
    ensures edges' == EdgesWithin(states'.Keys, edges)
    ensures Indexes(children', edges')
  {
    var active := ActiveTransit(routes, byIp);
    var orphaned := set n | n in states && IsTransit(n) && n !in active;
    states' := states - orphaned;
    edges' := EdgesWithin(states'.Keys, edges);
    children' := IndexEdges(edges');
  }

  /** Drops the stale incoming edges of an endpoint and stitches its new route. */
  method Restitch(ghost t: Topo, children: map<NodeId, set<NodeId>>, states: map<NodeId, string>, edges: set<Edge>,
                  byIp: map<Address, EndpointId>, ep: EndpointId, clean: seq<Hop>)
    returns (states': map<NodeId, string>, edges': set<Edge>, children': map<NodeId, set<NodeId>>)
    requires t.states == states && t.edges == edges && t.byIp == byIp && Indexes(children, edges)
    ensures states' == WithRoute(states, RouteNodes(clean, ep, byIp))
    ensures edges' == Restitched(t, ep, clean)
    ensures Indexes(children', edges')
  {
    edges', children' := UnlinkIncoming(edges, children, Endpoint(ep));
    states', edges', children' := StitchRoute(states, edges', children', clean, ep, byIp, Endpoint(ep) in states, {});
    FreshStates(states, RouteNodes(clean, ep, byIp));
  }

  lemma FreshStates(states: map<NodeId, string>, nodes: seq<NodeId>)
    ensures VisitedAll(states, nodes, {}) == WithRoute(states, nodes)
  {
    VisitedAllIsStitched(states, nodes, {});
  }

  /** The map that a new clean route makes. */
  method Reroute(t: Topo, children: map<NodeId, set<NodeId>>, ep: EndpointId, clean: seq<Hop>)
    returns (t': Topo, index: map<NodeId, set<NodeId>>)
    requires Indexes(children, t.edges)
    ensures t' == Rerouted(t, ep, clean)
    ensures Indexes(index, t'.edges)
  {
    var routes := t.routes[ep := clean];
    var states, edges;
    states, edges, index := Restitch(t, children, t.states, t.edges, t.byIp, ep, clean);
    states, edges, index := PruneGhosts(states, edges, routes, t.byIp);
    states := PropagateInferredDown(states, index, edges);
    t' := Topo(states, edges, routes, t.byIp, t.disabled);
  }

  /** The map that the database content makes. */
  method Rebuild(inv: Inventory) returns (t: Topo, index: map<NodeId, set<NodeId>>)
    ensures t == Rebuilt(inv)
    ensures Indexes(index, t.edges)
  {
    var dir, byIp, disabled := ReadRows(inv.rows);
    var states, edges;
    states, edges, index := MergeAndCluster(dir, byIp, inv);
    states := PropagateInferredDown(states, index, edges);
    t := Topo(states, edges, inv.routes, byIp, disabled);
  }

  /** The rebuild's two graph passes. */
  method MergeAndCluster(dir: Directory, byIp: map<Address, EndpointId>, inv: Inventory)
    returns (states: map<NodeId, string>, edges: set<Edge>, children: map<NodeId, set<NodeId>>)
    requires dir == MonitoredRows(inv.rows) && byIp == AddressBook(inv.rows)
    ensures states == MapStates(dir, byIp, inv) && edges == MapEdges(dir, byIp, inv)
    ensures Indexes(children, edges) && EndsIn(states.Keys, edges)
  {
    RowsById(inv.rows);
    states, edges, children := MergeRows(dir, byIp, inv);
    assert states == MergedStates(dir, byIp, inv, dir.Keys);
    BaseNodes(dir, inv);
    states, edges, children := ClusterSubnets(dir, states, edges, children);
    MapEnds(dir, byIp, inv);
  }
}
