// What stands on the map after each operation: statuses, nodes and edges, in terms of the arguments
// of the operation (backend/app/services/topology.py).

module TopologyContents {
  import opened Collections
  import opened Options
  import opened Hops
  import opened Graphs
  import opened Downstream
  import opened TopologyModel
  import opened TopologyFacts

  predicate ReadsDown(state: string) { state == "DOWN" || state == "DOWN-UNSTABLE" || state == "FAILURE_POINT" }

  /** The status a node reads once the routers have been marked: its own, except that a router which is no
      failure point and has only nodes that are down behind it, and at least one, reads INFERRED_DOWN. */
  ghost predicate Marked(own: string, read: string, n: NodeId, states: map<NodeId, string>, edges: set<Edge>) {
    var behind := DownstreamOf(states.Keys, edges, n);
    read ==
      if n.Transit? && own != "FAILURE_POINT" && behind != {} && forall m :: m in behind ==> ReadsDown(states[m])
      then "INFERRED_DOWN" else own
  }

  lemma PropagatedMarks(states: map<NodeId, string>, edges: set<Edge>, n: NodeId)
    requires n in states
    ensures Propagated(states, edges).Keys == states.Keys
    ensures Marked(states[n], Propagated(states, edges)[n], n, Propagated(states, edges), edges)
  {
    var states' := Propagated(states, edges);
    forall m | m in DownstreamOf(states.Keys, edges, n) ensures states'[m] == states[m] {}
  }

  /** A path from r to the endpoint m that passes no other endpoint of the map. */
  ghost predicate LeadsDown(nodes: set<NodeId>, edges: set<Edge>, p: seq<NodeId>, r: NodeId, m: NodeId) {
    && Path(edges, p) && |p| >= 2 && p[0] == r && p[|p| - 1] == m
    && forall i :: 0 < i < |p| - 1 ==> !(p[i].Endpoint? && p[i] in nodes)
  }

  /** Behind a router are the endpoints of the map that such paths lead to. */
  lemma BehindMeans(nodes: set<NodeId>, edges: set<Edge>, r: NodeId, m: NodeId)
    requires !r.Endpoint?
    ensures m in DownstreamOf(nodes, edges, r) <==>
            m.Endpoint? && m in nodes && exists p :: LeadsDown(nodes, edges, p, r, m)
  {
    if IsDownstream(nodes, edges, r, m) {
      var u :| QuietlyReaches(nodes, edges, r, u) && (u, m) in edges;
      var p :| Quietly(nodes, edges, p, r, u);
      assert LeadsDown(nodes, edges, p + [m], r, m);
    }
    if m.Endpoint? && m in nodes {
      if p :| LeadsDown(nodes, edges, p, r, m) {
        var n := |p| - 1;
        assert (p[n - 1], p[n]) in edges;
        assert Quietly(nodes, edges, p[..n], r, p[n - 1]);
      }
    }
  }

  // ------------------------------------------------------------------
  // Status updates
  // ------------------------------------------------------------------

  /** A status update of an unknown or disabled node changes nothing. */
  lemma UnknownIgnored(t: Topo, n: NodeId, state: string)
    requires n !in t.states || (n.Endpoint? && n.id in t.disabled)
    ensures StatusUpdated(t, n, state) == t
  {
  }

  /** Otherwise the node gets the new status, every other node keeps its own, and the routers are marked
      anew; the graph stays. */
  lemma StatusStored(t: Topo, n: NodeId, state: string, m: NodeId)
    requires n in t.states && !(n.Endpoint? && n.id in t.disabled) && m in t.states
    ensures var t' := StatusUpdated(t, n, state);
            && t'.edges == t.edges && t'.routes == t.routes && t'.byIp == t.byIp && t'.disabled == t.disabled
            && t'.states.Keys == t.states.Keys
            && Marked(if m == n then state else t.states[m], t'.states[m], m, t'.states, t'.edges)
            && (!m.Transit? ==> t'.states[m] == if m == n then state else t.states[m])
  {
    assert t.states[n := state].Keys == t.states.Keys;
    PropagatedMarks(t.states[n := state], t.edges, m);
  }

  /** A router behind which one endpoint was still up reads INFERRED_DOWN as soon as that one goes down,
      unless it is a failure point. */
  lemma LastOneDown(t: Topo, r: NodeId, n: NodeId, state: string)
    requires n in t.states && n.Endpoint? && n.id !in t.disabled && ReadsDown(state)
    requires r in t.states && r.Transit? && t.states[r] != "FAILURE_POINT"
    requires n in DownstreamOf(t.states.Keys, t.edges, r)
    requires forall m :: m in DownstreamOf(t.states.Keys, t.edges, r) && m != n ==> ReadsDown(t.states[m])
    ensures StatusUpdated(t, n, state).states[r] == "INFERRED_DOWN"
  {
    var t' := StatusUpdated(t, n, state);
    StatusStored(t, n, state, r);
    forall m | m in DownstreamOf(t'.states.Keys, t'.edges, r) ensures ReadsDown(t'.states[m]) {
      StatusStored(t, n, state, m);
    }
  }

  // ------------------------------------------------------------------
  // The nodes of a route
  // ------------------------------------------------------------------

  /** Hop j is the last to answer before hop i. */
  predicate AnswersLast(hops: seq<Hop>, j: int, i: int) {
    && 0 <= j < i <= |hops| && hops[j].ip.Some?
    && forall k :: j < k < i ==> hops[k].ip.None?
  }

  lemma {:induction false} LastAnswerIs(hops: seq<Hop>, j: int)
    requires AnswersLast(hops, j, |hops|)
    ensures LastAnswer(hops) == hops[j].ip
    decreases |hops|
  {
    if j < |hops| - 1 {
      LastAnswerIs(hops[..|hops| - 1], j);
    }
  }

  lemma {:induction false} NoLastAnswer(hops: seq<Hop>)
    requires forall k :: 0 <= k < |hops| ==> hops[k].ip.None?
    ensures LastAnswer(hops) == None
    decreases |hops|
  {
    if hops != [] {
      NoLastAnswer(hops[..|hops| - 1]);
    }
  }

  function First8(id: EndpointId): string { if |id| <= 8 then id else id[..8] }

  /** The node of one hop: the monitored endpoint with its address, otherwise the router with its address;
      a silent hop is the gap after the last answer before it, of the endpoint it leads to. */
  lemma HopIsNode(hops: seq<Hop>, ep: EndpointId, byIp: map<Address, EndpointId>, i: nat)
    requires i < |hops|
    ensures var n := RouteNodes(hops, ep, byIp)[i];
            match hops[i].ip
            case Some(ip) => n == if ip in byIp then Endpoint(byIp[ip]) else Transit(ip)
            case None =>
              && (forall j :: AnswersLast(hops, j, i) ==> n == Anonymous(hops[j].ip, First8(ep)))
              && ((forall j :: 0 <= j < i ==> hops[j].ip.None?) ==> n == Anonymous(None, First8(ep)))
  {
    forall j | AnswersLast(hops, j, i) ensures LastAnswer(hops[..i]) == hops[j].ip {
      LastAnswerIs(hops[..i], j);
    }
    if forall j :: 0 <= j < i ==> hops[j].ip.None? {
      NoLastAnswer(hops[..i]);
    }
  }

  /** Gaps behind answers of different routers are different nodes. */
  lemma GapsDiffer(hops: seq<Hop>, ep: EndpointId, byIp: map<Address, EndpointId>, i: nat, j: int, k: nat, l: int)
    requires i < |hops| && k < |hops| && hops[i].ip.None? && hops[k].ip.None?
    requires AnswersLast(hops, j, i) && AnswersLast(hops, l, k) && hops[j].ip != hops[l].ip
    ensures RouteNodes(hops, ep, byIp)[i] != RouteNodes(hops, ep, byIp)[k]
  {
    HopIsNode(hops, ep, byIp, i);
    HopIsNode(hops, ep, byIp, k);
  }

  /** The path of a route: from the root over the nodes of its hops, and on to the endpoint on the map. */
  lemma PathOfRoute(hops: seq<Hop>, ep: EndpointId, byIp: map<Address, EndpointId>, onMap: bool)
    ensures var p := StitchPath(hops, ep, byIp, onMap);
            && |p| == 1 + |hops| + (if onMap then 1 else 0) && p[0] == Root
            && (forall i :: 0 <= i < |hops| ==> p[i + 1] == RouteNodes(hops, ep, byIp)[i])
            && (onMap ==> p[|hops| + 1] == Endpoint(ep))
  {
  }

  /** Position i of the path is a step from u to another node v. */
  predicate Steps(p: seq<NodeId>, i: int, u: NodeId, v: NodeId) {
    0 <= i < |p| - 1 && p[i] == u && p[i + 1] == v && u != v
  }

  lemma EdgeIsStep(p: seq<NodeId>, u: NodeId, v: NodeId)
    ensures (u, v) in PathEdges(p) <==> exists i :: Steps(p, i, u, v)
  {
    if (u, v) in PathEdges(p) {
      var i :| 0 <= i < |p| - 1 && StepOf(p, i).0 != StepOf(p, i).1 && StepOf(p, i) == (u, v);
      assert Steps(p, i, u, v);
    }
    if i :| Steps(p, i, u, v) {
      PathStep(p, i);
    }
  }

  // ------------------------------------------------------------------
  // Path updates
  // ------------------------------------------------------------------

  /** Some stored route has a hop that is the transit node n. */
  predicate OnRoute(routes: map<EndpointId, seq<Hop>>, byIp: map<Address, EndpointId>, n: NodeId) {
    exists ep, i {:trigger RouteNodes(Route(routes[ep]), ep, byIp)[i]} ::
      ep in routes && 0 <= i < |Route(routes[ep])| && RouteNodes(Route(routes[ep]), ep, byIp)[i] == n
  }

  lemma NamedOnRoute(routes: map<EndpointId, seq<Hop>>, byIp: map<Address, EndpointId>, n: NodeId)
    requires n.Transit? || n.Anonymous?
    ensures Named(routes, byIp, n) <==> OnRoute(routes, byIp, n)
  {
    if Named(routes, byIp, n) {
      var ep :| ep in routes && NamedBy(routes, byIp, ep, n);
      var ns := RouteNodes(Route(routes[ep]), ep, byIp);
      var i :| 0 <= i < |ns| && ns[i] == n;
      assert RouteNodes(Route(routes[ep]), ep, byIp)[i] == n;
    }
    if ep, i {:trigger RouteNodes(Route(routes[ep]), ep, byIp)[i]} :|
        ep in routes && 0 <= i < |Route(routes[ep])| && RouteNodes(Route(routes[ep]), ep, byIp)[i] == n {
      assert NamedBy(routes, byIp, ep, n);
    }
  }

  /** A path update of a disabled endpoint changes nothing. */
  lemma DisabledIgnored(t: Topo, ep: EndpointId, hops: seq<Hop>)
    requires ep in t.disabled
    ensures PathUpdated(t, ep, hops) == t
  {
  }

  /** Otherwise the clean route is stored; a transit node is on the map exactly when it was or the new
      route passes it, and some stored route still does; other nodes stay; a new node starts UP, an old
      one keeps its status, and the routers are marked anew. */
  lemma PathNodes(t: Topo, ep: EndpointId, hops: seq<Hop>, n: NodeId)
    requires ep !in t.disabled
    ensures var t', clean := PathUpdated(t, ep, hops), Route(hops);
            && t'.routes == t.routes[ep := clean] && t'.byIp == t.byIp && t'.disabled == t.disabled
            && (n in t'.states <==>
                if n.Transit? || n.Anonymous? then
                  && (n in t.states || exists i :: 0 <= i < |clean| && RouteNodes(clean, ep, t.byIp)[i] == n)
                  && OnRoute(t'.routes, t.byIp, n)
                else n in t.states)
            && (n in t'.states ==>
                  Marked(if n in t.states then t.states[n] else "UP", t'.states[n], n, t'.states, t'.edges))
  {
    hide Propagated, RouteNodes, Named, OnRoute, EdgesWithin, Marked;
    var clean := Route(hops);
    var states, edges := UpdatedStates(t, ep, clean), UpdatedEdges(t, ep, clean);
    if n.Transit? || n.Anonymous? {
      NamedOnRoute(t.routes[ep := clean], t.byIp, n);
    }
    assert n in TransitAmong(RouteNodes(clean, ep, t.byIp)) <==>
           IsTransit(n) && exists i :: 0 <= i < |clean| && RouteNodes(clean, ep, t.byIp)[i] == n;
    KeysKept(states, edges);
    if n in states {
      PropagatedMarks(states, edges, n);
    }
  }

  lemma KeysKept(states: map<NodeId, string>, edges: set<Edge>)
    ensures Propagated(states, edges).Keys == states.Keys
  {
  }

  /** Of the edges, those into the endpoint go and the steps of the new path come, between nodes that are on
      the map. */
  lemma PathLinks(t: Topo, ep: EndpointId, hops: seq<Hop>, u: NodeId, v: NodeId)
    requires ep !in t.disabled
    ensures var t', p := PathUpdated(t, ep, hops), StitchPath(Route(hops), ep, t.byIp, Endpoint(ep) in t.states);
            (u, v) in t'.edges <==>
            && u in t'.states && v in t'.states
            && (((u, v) in t.edges && v != Endpoint(ep)) || exists i :: Steps(p, i, u, v))
  {
    hide Propagated, StitchPath, PathEdges, Route;
    var clean := Route(hops);
    EdgeIsStep(StitchPath(clean, ep, t.byIp, Endpoint(ep) in t.states), u, v);
    KeysKept(UpdatedStates(t, ep, clean), UpdatedEdges(t, ep, clean));
  }

  // ------------------------------------------------------------------
  // The rows of a rebuild
  // ------------------------------------------------------------------

  /** Row i takes part in discovery, and no later one with its id does. */
  predicate Live(rows: seq<EndpointRow>, i: int) {
    && 0 <= i < |rows| && rows[i].discoverable
    && forall k :: i < k < |rows| && rows[k].discoverable ==> rows[k].id != rows[i].id
  }

  predicate HasAddress(rows: seq<EndpointRow>, i: int, ip: Address) {
    && 0 <= i < |rows| && rows[i].discoverable && rows[i].ip == ip
    && forall k :: i < k < |rows| && rows[k].discoverable ==> rows[k].ip != ip
  }

  lemma {:induction false} LiveRow(rows: seq<EndpointRow>, i: int)
    requires Live(rows, i)
    ensures rows[i].id in MonitoredRows(rows) && MonitoredRows(rows)[rows[i].id] == rows[i]
    decreases |rows|
  {
    if i < |rows| - 1 {
      LiveRow(rows[..|rows| - 1], i);
    }
  }

  lemma {:induction false} RowIsLive(rows: seq<EndpointRow>, id: EndpointId) returns (i: int)
    requires id in MonitoredRows(rows)
    ensures Live(rows, i) && rows[i].id == id
    decreases |rows|
  {
    var n := |rows| - 1;
    if rows[n].discoverable && rows[n].id == id {
      i := n;
    } else {
      i := RowIsLive(rows[..n], id);
    }
  }

  lemma {:induction false} AddressResolves(rows: seq<EndpointRow>, i: int, ip: Address)
    requires HasAddress(rows, i, ip)
    ensures ip in AddressBook(rows) && AddressBook(rows)[ip] == rows[i].id
    decreases |rows|
  {
    if i < |rows| - 1 {
      AddressResolves(rows[..|rows| - 1], i, ip);
    }
  }

  lemma {:induction false} AddressHasRow(rows: seq<EndpointRow>, ip: Address) returns (i: int)
    requires ip in AddressBook(rows)
    ensures HasAddress(rows, i, ip)
    decreases |rows|
  {
    var n := |rows| - 1;
    if rows[n].discoverable && rows[n].ip == ip {
      i := n;
    } else {
      i := AddressHasRow(rows[..n], ip);
    }
  }

  /** The monitored nodes of a rebuild are the rows in discovery; a row out of it is off the map, and later
      updates ignore it. Its address resolves as the latest row with it says. */
  lemma RebuiltRows(inv: Inventory, id: EndpointId, ip: Address)
    ensures var t := Rebuilt(inv);
            && (Endpoint(id) in t.states <==> exists i :: Live(inv.rows, i) && inv.rows[i].id == id)
            && (id in t.disabled <==>
                exists i :: 0 <= i < |inv.rows| && inv.rows[i].id == id && !inv.rows[i].discoverable)
            && (ip in t.byIp <==> exists i :: HasAddress(inv.rows, i, ip))
            && (forall i :: HasAddress(inv.rows, i, ip) ==> ip in t.byIp && t.byIp[ip] == inv.rows[i].id)
            && t.routes == inv.routes
  {
    hide Propagated, RebuiltEdges, MergedEdges, RebuiltStates, MonitoredRows, AddressBook;
    KeysKept(RebuiltStates(inv), RebuiltEdges(inv));
    RebuiltEndpoint(inv, id);
    if id in MonitoredRows(inv.rows) {
      var i := RowIsLive(inv.rows, id);
    }
    if i :| Live(inv.rows, i) && inv.rows[i].id == id {
      LiveRow(inv.rows, i);
    }
    if ip in AddressBook(inv.rows) {
      var i := AddressHasRow(inv.rows, ip);
    }
    forall i | HasAddress(inv.rows, i, ip)
      ensures ip in AddressBook(inv.rows) && AddressBook(inv.rows)[ip] == inv.rows[i].id
    {
      AddressResolves(inv.rows, i, ip);
    }
    DisabledRows(inv.rows, id);
  }

  lemma RebuiltEndpoint(inv: Inventory, id: EndpointId)
    ensures Endpoint(id) in RebuiltStates(inv) <==> id in MonitoredRows(inv.rows)
  {
    MapNode(MonitoredRows(inv.rows), AddressBook(inv.rows), inv, Endpoint(id));
  }

  lemma DisabledRows(rows: seq<EndpointRow>, id: EndpointId)
    ensures id in DisabledIds(rows) <==> exists i :: 0 <= i < |rows| && rows[i].id == id && !rows[i].discoverable
  {
    if i :| 0 <= i < |rows| && rows[i].id == id && !rows[i].discoverable {
      assert rows[i] in rows;
    }
  }

  // ------------------------------------------------------------------
  // The statuses of a rebuild
  // ------------------------------------------------------------------

  /** An endpoint that is down and lies on an open incident, by address or id, is a failure point; so is a
      router whose address is the failed hop of one. */
  function OwnStatus(dir: Directory, inv: Inventory, n: NodeId): string {
    match n
    case Endpoint(id) =>
      if id in dir then
        var row := dir[id];
        if (row.ip in inv.failedIps || row.id in inv.failedIds) && (row.state == "DOWN" || row.state == "DOWN-UNSTABLE")
        then "FAILURE_POINT" else row.state
      else "UP"
    case Transit(ip) => if ip in inv.failedIps then "FAILURE_POINT" else "UP"
    case _ => "UP"
  }

  lemma MapOwn(dir: Directory, byIp: map<Address, EndpointId>, inv: Inventory, n: NodeId)
    requires n in MapStates(dir, byIp, inv)
    ensures MapStates(dir, byIp, inv)[n] == OwnStatus(dir, inv, n)
  {
    hide ClusterNetworks, MergedEdges, MergedTransit;
    MapNode(dir, byIp, inv, n);
    if IsTransit(n) {
    } else if n.Hub? {
      HubOwn(MergedStates(dir, byIp, inv, dir.Keys), ClusterNetworks(dir, MergedEdges(dir, byIp, inv, dir.Keys)), n);
    } else {
      BaseNodes(dir, inv);
      assert MergedStates(dir, byIp, inv, dir.Keys)[n] == BaseStates(dir, inv)[n];
    }
  }

  lemma HubOwn(states: map<NodeId, string>, nets: set<string>, n: NodeId)
    requires n.Hub? && n.subnet in nets
    ensures n in WithHubs(states, nets) && WithHubs(states, nets)[n] == "UP"
  {
    var hubs := map s | s in nets :: Hub(s) := "UP";
    assert n in hubs;
  }

  /** The statuses after a rebuild. */
  lemma RebuiltStatus(inv: Inventory, n: NodeId)
    requires n in Rebuilt(inv).states
    ensures var t := Rebuilt(inv); Marked(OwnStatus(MonitoredRows(inv.rows), inv, n), t.states[n], n, t.states, t.edges)
  {
    hide Marked, RebuiltEdges, MapStates, OwnStatus;
    KeysKept(RebuiltStates(inv), RebuiltEdges(inv));
    MapOwn(MonitoredRows(inv.rows), AddressBook(inv.rows), inv, n);
    PropagatedMarks(RebuiltStates(inv), RebuiltEdges(inv), n);
  }

  /** In particular a row in discovery reads its own state, or FAILURE_POINT when it is down on an incident. */
  lemma RowStatus(inv: Inventory, i: int)
    requires Live(inv.rows, i)
    ensures var row, t := inv.rows[i], Rebuilt(inv);
            && Endpoint(row.id) in t.states
            && t.states[Endpoint(row.id)] ==
               if (row.ip in inv.failedIps || row.id in inv.failedIds)
                  && (row.state == "DOWN" || row.state == "DOWN-UNSTABLE")
               then "FAILURE_POINT" else row.state
  {
    hide Propagated, RebuiltEdges, RebuiltStates, MonitoredRows;
    var row := inv.rows[i];
    LiveRow(inv.rows, i);
    RebuiltEndpoint(inv, row.id);
    KeysKept(RebuiltStates(inv), RebuiltEdges(inv));
    RebuiltStatus(inv, Endpoint(row.id));
  }

  // ------------------------------------------------------------------
  // The edges of a rebuild
  // ------------------------------------------------------------------

  function Stored(inv: Inventory, id: EndpointId): seq<Hop> { if id in inv.routes then inv.routes[id] else [] }

  /** A row whose manual parent is on the map contributes that link; another row the steps of its stored
      route, cleaned, or of the direct path without one. */
  ghost predicate RowLinks(dir: Directory, byIp: map<Address, EndpointId>, inv: Inventory, id: EndpointId,
                           u: NodeId, v: NodeId)
  {
    && id in dir
    && if dir[id].manualParent.Some? && dir[id].manualParent.value in dir
       then u == Endpoint(dir[id].manualParent.value) && v == Endpoint(dir[id].id)
       else
         exists i :: Steps(StitchPath(Route(Stored(inv, dir[id].id)), dir[id].id, byIp, true), i, u, v)
  }

  ghost predicate Linked(dir: Directory, byIp: map<Address, EndpointId>, inv: Inventory, u: NodeId, v: NodeId) {
    exists id :: RowLinks(dir, byIp, inv, id, u, v)
  }

  lemma LinkedMerged(dir: Directory, byIp: map<Address, EndpointId>, inv: Inventory, u: NodeId, v: NodeId)
    ensures (u, v) in MergedEdges(dir, byIp, inv, dir.Keys) <==> Linked(dir, byIp, inv, u, v)
  {
    hide RowEdges, RowLinks;
    forall id | id in dir
      ensures (u, v) in RowEdges(dir, byIp, inv, dir[id]) <==> RowLinks(dir, byIp, inv, id, u, v)
    {
      RowLinksEdges(dir, byIp, inv, id, u, v);
    }
    if Linked(dir, byIp, inv, u, v) {
      var id :| RowLinks(dir, byIp, inv, id, u, v);
      LinksOnMap(dir, byIp, inv, id, u, v);
    }
  }

  lemma LinksOnMap(dir: Directory, byIp: map<Address, EndpointId>, inv: Inventory, id: EndpointId, u: NodeId, v: NodeId)
    requires RowLinks(dir, byIp, inv, id, u, v)
    ensures id in dir
  {
  }

  lemma RowLinksEdges(dir: Directory, byIp: map<Address, EndpointId>, inv: Inventory, id: EndpointId,
                      u: NodeId, v: NodeId)
    requires id in dir
    ensures (u, v) in RowEdges(dir, byIp, inv, dir[id]) <==> RowLinks(dir, byIp, inv, id, u, v)
  {
    var p := RowPath(dir, byIp, inv, dir[id]);
    EdgeIsStep(p, u, v);
    if !HasManualParent(dir, dir[id]) {
      assert p == StitchPath(Route(Stored(inv, dir[id].id)), dir[id].id, byIp, true);
    }
  }

  /** Two endpoints of the network hang on the root directly. */
  ghost predicate Crowded(dir: Directory, byIp: map<Address, EndpointId>, inv: Inventory, net: string) {
    exists a, b :: a != b && OnRootIn(dir, byIp, inv, a, net) && OnRootIn(dir, byIp, inv, b, net)
  }

  ghost predicate OnRootIn(dir: Directory, byIp: map<Address, EndpointId>, inv: Inventory, id: EndpointId, net: string)
  {
    id in dir && Linked(dir, byIp, inv, Root, Endpoint(id)) && dir[id].subnet == Some(net)
  }

  lemma TwoMembers<T>(s: set<T>)
    ensures |s| >= 2 <==> exists a, b :: a in s && b in s && a != b
  {
    if |s| >= 2 {
      var a :| a in s;
      assert s == (s - {a}) + {a};
      var b :| b in s - {a};
      assert a in s && b in s && a != b;
    }
    if a, b :| a in s && b in s && a != b {
      assert {a, b} <= s;
      SubsetSize({a, b}, s);
    }
  }

  lemma CrowdedClusters(dir: Directory, byIp: map<Address, EndpointId>, inv: Inventory, net: string)
    ensures net in ClusterNetworks(dir, MergedEdges(dir, byIp, inv, dir.Keys)) <==>
            net != "" && Crowded(dir, byIp, inv, net)
  {
    hide MergedEdges, Linked;
    var merged := MergedEdges(dir, byIp, inv, dir.Keys);
    forall id ensures id in DirectIn(dir, merged, net) <==> OnRootIn(dir, byIp, inv, id, net) {
      LinkedMerged(dir, byIp, inv, Root, Endpoint(id));
    }
    TwoMembers(DirectIn(dir, merged, net));
  }

  /** The edges of the rebuilt map. Endpoints of a crowded network leave the root for the network's hub; every
      other link of a row stays. */
  lemma RebuiltLinks(inv: Inventory, u: NodeId, v: NodeId)
    ensures var dir, byIp := MonitoredRows(inv.rows), AddressBook(inv.rows);
            (u, v) in Rebuilt(inv).edges <==>
            if v.Hub? then u == Root && v.subnet != "" && Crowded(dir, byIp, inv, v.subnet)
            else if u.Hub? then
              v.Endpoint? && u.subnet != "" && Crowded(dir, byIp, inv, u.subnet)
                  && OnRootIn(dir, byIp, inv, v.id, u.subnet)
            else
              && Linked(dir, byIp, inv, u, v)
              && !(u == Root && v.Endpoint? && v.id in dir && dir[v.id].subnet.Some? && dir[v.id].subnet.value != ""
                   && Crowded(dir, byIp, inv, dir[v.id].subnet.value))
  {
    var dir, byIp := MonitoredRows(inv.rows), AddressBook(inv.rows);
    RowsById(inv.rows);
    MapLinks(dir, byIp, inv, u, v);
  }

  lemma MapLinks(dir: Directory, byIp: map<Address, EndpointId>, inv: Inventory, u: NodeId, v: NodeId)
    requires (forall id :: id in dir ==> dir[id].id == id) && forall ip :: ip in byIp ==> byIp[ip] in dir
    ensures (u, v) in MapEdges(dir, byIp, inv) <==>
            if v.Hub? then u == Root && v.subnet != "" && Crowded(dir, byIp, inv, v.subnet)
            else if u.Hub? then
              v.Endpoint? && u.subnet != "" && Crowded(dir, byIp, inv, u.subnet)
                  && OnRootIn(dir, byIp, inv, v.id, u.subnet)
            else
              && Linked(dir, byIp, inv, u, v)
              && !(u == Root && v.Endpoint? && v.id in dir && dir[v.id].subnet.Some? && dir[v.id].subnet.value != ""
                   && Crowded(dir, byIp, inv, dir[v.id].subnet.value))
  {
    hide MergedEdges, Linked, Crowded, ClusterNetworks;
    var merged := MergedEdges(dir, byIp, inv, dir.Keys);
    LinkedMerged(dir, byIp, inv, u, v);
    if (u, v) in merged {
      MergedEdge(dir, byIp, inv, (u, v));
    }
    if v.Endpoint? {
      LinkedMerged(dir, byIp, inv, Root, v);
      if v.id in dir && dir[v.id].subnet.Some? {
        CrowdedClusters(dir, byIp, inv, dir[v.id].subnet.value);
      }
    }
    if u.Hub? {
      CrowdedClusters(dir, byIp, inv, u.subnet);
    }
    if v.Hub? {
      CrowdedClusters(dir, byIp, inv, v.subnet);
    }
  }

  /** The transit nodes of a rebuild are those on the stored routes of rows without a usable manual parent, and
      the hubs those of the crowded networks. */
  lemma RebuiltTransit(inv: Inventory, n: NodeId)
    ensures var dir, byIp := MonitoredRows(inv.rows), AddressBook(inv.rows);
            && (n.Transit? || n.Anonymous? ==>
                  (n in Rebuilt(inv).states <==> exists id :: RowPasses(dir, byIp, inv, id, n)))
            && (n.Hub? ==> (n in Rebuilt(inv).states <==> n.subnet != "" && Crowded(dir, byIp, inv, n.subnet)))
            && (n == Root ==> n in Rebuilt(inv).states)
  {
    hide Crowded, MapStates, Rebuilt, RowPasses;
    RebuiltNodes(inv);
    MapTransit(MonitoredRows(inv.rows), AddressBook(inv.rows), inv, n);
  }

  lemma RebuiltNodes(inv: Inventory)
    ensures Rebuilt(inv).states.Keys == MapStates(MonitoredRows(inv.rows), AddressBook(inv.rows), inv).Keys
  {
    hide MapStates;
  }

  lemma MapTransit(dir: Directory, byIp: map<Address, EndpointId>, inv: Inventory, n: NodeId)
    ensures n.Transit? || n.Anonymous? ==>
              (n in MapStates(dir, byIp, inv) <==> exists id :: RowPasses(dir, byIp, inv, id, n))
    ensures n.Hub? ==> (n in MapStates(dir, byIp, inv) <==> n.subnet != "" && Crowded(dir, byIp, inv, n.subnet))
    ensures n == Root ==> n in MapStates(dir, byIp, inv)
  {
    hide Crowded, MergedEdges, MergedTransit, ClusterNetworks, MapStates, RowPasses;
    MapNode(dir, byIp, inv, n);
    if n.Hub? {
      CrowdedClusters(dir, byIp, inv, n.subnet);
    }
    if n.Transit? || n.Anonymous? {
      MergedPasses(dir, byIp, inv, n);
    }
  }

  ghost predicate RowPasses(dir: Directory, byIp: map<Address, EndpointId>, inv: Inventory, id: EndpointId, n: NodeId) {
    && id in dir && !(dir[id].manualParent.Some? && dir[id].manualParent.value in dir)
    && n in RouteNodes(Route(Stored(inv, dir[id].id)), dir[id].id, byIp)
  }

  lemma MergedPasses(dir: Directory, byIp: map<Address, EndpointId>, inv: Inventory, n: NodeId)
    requires n.Transit? || n.Anonymous?
    ensures n in MergedTransit(dir, byIp, inv, dir.Keys) <==> exists id :: RowPasses(dir, byIp, inv, id, n)
  {
    hide RouteNodes, Route;
    if n in MergedTransit(dir, byIp, inv, dir.Keys) {
      var id :| id in dir.Keys && n in RowTransit(dir, byIp, inv, dir[id]);
      assert RowPasses(dir, byIp, inv, id, n);
    }
    if id :| RowPasses(dir, byIp, inv, id, n) {
      assert n in RowTransit(dir, byIp, inv, dir[id]);
    }
  }
}
