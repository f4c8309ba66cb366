// The topology map as a value: what each operation of the graph manager turns it into
// (backend/app/services/topology.py).

module TopologyModel {
  import opened Options
  import opened Hops
  import opened Graphs
  import opened Downstream

  const UP := "UP"
  const FAILURE_POINT := "FAILURE_POINT"
  const INFERRED_DOWN := "INFERRED_DOWN"
  const DOWN_STATES := {"DOWN", "DOWN-UNSTABLE"}

  /** The live map. `states` holds the nodes; `byIp` resolves a hop address to a monitored endpoint. */
  datatype Topo = Topo(
    states: map<NodeId, string>,
    edges: set<Edge>,
    routes: map<EndpointId, seq<Hop>>,
    byIp: map<Address, EndpointId>,
    disabled: set<EndpointId>)

  /** Nodes of type "transit": routers that answered and anonymous gaps. */
  predicate IsTransit(n: NodeId) { n.Transit? || n.Anonymous? }

  // ------------------------------------------------------------------
  // Stitching one route
  // ------------------------------------------------------------------

  function Prefix8(id: EndpointId): string { if |id| <= 8 then id else id[..8] }

  /** The address of the last answering hop; it names the anonymous gap that follows. */
  function LastAnswer(hops: seq<Hop>): Option<Address> {
    if hops == [] then None
    else if hops[|hops| - 1].ip.Some? then hops[|hops| - 1].ip
    else LastAnswer(hops[..|hops| - 1])
  }

  function HopNode(hop: Hop, tag: Option<Address>, ep: EndpointId, byIp: map<Address, EndpointId>): NodeId {
    if hop.ip.None? then Anonymous(tag, Prefix8(ep))
    else if hop.ip.value in byIp then Endpoint(byIp[hop.ip.value])
    else Transit(hop.ip.value)
  }

  /** The node of every hop of a clean route. */
  function RouteNodes(hops: seq<Hop>, ep: EndpointId, byIp: map<Address, EndpointId>): (ns: seq<NodeId>)
    ensures |ns| == |hops|
  {
    seq(|hops|, i requires 0 <= i < |hops| => HopNode(hops[i], LastAnswer(hops[..i]), ep, byIp))
  }

  function TransitAmong(nodes: seq<NodeId>): set<NodeId> { set n | n in nodes && IsTransit(n) }

  /** The stitched path: from the root through the hops, and on to the endpoint when it is on the map. */
  function StitchPath(hops: seq<Hop>, ep: EndpointId, byIp: map<Address, EndpointId>, onMap: bool): seq<NodeId> {
    [Root] + RouteNodes(hops, ep, byIp) + if onMap then [Endpoint(ep)] else []
  }

  /** The edges of a path; a node that repeats adds none. */
  function PathEdges(p: seq<NodeId>): set<Edge> {
    set i {:trigger StepOf(p, i)} | 0 <= i < |p| - 1 && StepOf(p, i).0 != StepOf(p, i).1 :: StepOf(p, i)
  }

  function StepOf(p: seq<NodeId>, i: nat): Edge
    requires i < |p| - 1
  {
    (p[i], p[i + 1])
  }

  /** The stored route of `ep` names the transit node n. */
  predicate NamedBy(routes: map<EndpointId, seq<Hop>>, byIp: map<Address, EndpointId>, ep: EndpointId, n: NodeId) {
    ep in routes && IsTransit(n) && n in RouteNodes(Route(routes[ep]), ep, byIp)
  }

  predicate Named(routes: map<EndpointId, seq<Hop>>, byIp: map<Address, EndpointId>, n: NodeId) {
    exists ep :: ep in routes && NamedBy(routes, byIp, ep, n)
  }

  // ------------------------------------------------------------------
  // Status propagation
  // ------------------------------------------------------------------

  predicate CountsAsDown(state: string) { state in DOWN_STATES || state == FAILURE_POINT }

  /** The router has monitored nodes behind it and all of them are down. */
  ghost predicate AllDownBehind(states: map<NodeId, string>, edges: set<Edge>, n: NodeId) {
    var behind := DownstreamOf(states.Keys, edges, n);
    behind != {} && forall m :: m in behind ==> CountsAsDown(states[m])
  }

  ghost predicate Infers(states: map<NodeId, string>, edges: set<Edge>, n: NodeId)
    requires n in states
  {
    n.Transit? && states[n] != FAILURE_POINT && AllDownBehind(states, edges, n)
  }

  ghost function Propagated(states: map<NodeId, string>, edges: set<Edge>): map<NodeId, string> {
    map n | n in states :: if Infers(states, edges, n) then INFERRED_DOWN else states[n]
  }

  // ------------------------------------------------------------------
  // Incremental operations
  // ------------------------------------------------------------------

  ghost function StatusUpdated(t: Topo, n: NodeId, state: string): Topo {
    if (n.Endpoint? && n.id in t.disabled) || n !in t.states then t
    else t.(states := Propagated(t.states[n := state], t.edges))
  }

  function IncomingTo(edges: set<Edge>, n: NodeId): set<Edge> {
    set e | e in edges && e.1 == n
  }

  /** The nodes after stitching: new transit nodes start UP. */
  function WithRoute(states: map<NodeId, string>, nodes: seq<NodeId>): map<NodeId, string> {
    map n | n in states.Keys + TransitAmong(nodes) :: if n in states then states[n] else UP
  }

  /** The nodes that survive the ghost pruning: every non-transit node, and the named transit nodes. */
  function Unghosted(states: map<NodeId, string>, routes: map<EndpointId, seq<Hop>>,
                     byIp: map<Address, EndpointId>): map<NodeId, string>
  {
    map n | n in states && (IsTransit(n) ==> Named(routes, byIp, n)) :: states[n]
  }

  function EdgesWithin(nodes: set<NodeId>, edges: set<Edge>): set<Edge> {
    set e | e in edges && e.0 in nodes && e.1 in nodes
  }

  /** The edges after a new route for `ep`, before pruning. */
  function Restitched(t: Topo, ep: EndpointId, clean: seq<Hop>): set<Edge> {
    t.edges - IncomingTo(t.edges, Endpoint(ep)) + PathEdges(StitchPath(clean, ep, t.byIp, Endpoint(ep) in t.states))
  }

  /** The nodes after a path update, before propagation. */
  function UpdatedStates(t: Topo, ep: EndpointId, clean: seq<Hop>): map<NodeId, string> {
    Unghosted(WithRoute(t.states, RouteNodes(clean, ep, t.byIp)), t.routes[ep := clean], t.byIp)
  }

  function UpdatedEdges(t: Topo, ep: EndpointId, clean: seq<Hop>): set<Edge> {
    EdgesWithin(UpdatedStates(t, ep, clean).Keys, Restitched(t, ep, clean))
  }

  ghost function Rerouted(t: Topo, ep: EndpointId, clean: seq<Hop>): Topo {
    var edges := UpdatedEdges(t, ep, clean);
    Topo(Propagated(UpdatedStates(t, ep, clean), edges), edges, t.routes[ep := clean], t.byIp, t.disabled)
  }

  ghost function PathUpdated(t: Topo, ep: EndpointId, hops: seq<Hop>): Topo {
    if ep in t.disabled then t else Rerouted(t, ep, Route(hops))
  }

  // ------------------------------------------------------------------
  // Full rebuild
  // ------------------------------------------------------------------

  /** One endpoint row as the rebuild reads it. */
  datatype EndpointRow = EndpointRow(
    id: EndpointId,
    ip: Address,
    subnet: Option<string>,
    discoverable: bool,
    manualParent: Option<EndpointId>,
    state: string)

  /** Everything the rebuild reads from the database. */
  datatype Inventory = Inventory(
    rows: seq<EndpointRow>,
    routes: map<EndpointId, seq<Hop>>,
    failedIps: set<Address>,
    failedIds: set<EndpointId>)

  type Directory = map<EndpointId, EndpointRow>

  /** The rows that take part, by id. */
  function MonitoredRows(rows: seq<EndpointRow>): Directory {
    if rows == [] then map[]
    else
      var row := rows[|rows| - 1];
      var before := MonitoredRows(rows[..|rows| - 1]);
      if row.discoverable then before[row.id := row] else before
  }

  function AddressBook(rows: seq<EndpointRow>): map<Address, EndpointId> {
    if rows == [] then map[]
    else
      var row := rows[|rows| - 1];
      var before := AddressBook(rows[..|rows| - 1]);
      if row.discoverable then before[row.ip := row.id] else before
  }

  function DisabledIds(rows: seq<EndpointRow>): set<EndpointId> {
    set row | row in rows && !row.discoverable :: row.id
  }

  function InitialState(row: EndpointRow, inv: Inventory): string {
    if (row.ip in inv.failedIps || row.id in inv.failedIds) && row.state in DOWN_STATES then FAILURE_POINT
    else row.state
  }

  /** The root and the monitored nodes. */
  function BaseStates(dir: Directory, inv: Inventory): map<NodeId, string> {
    map n | n in {Root} + (set id | id in dir :: Endpoint(id)) ::
      if n.Endpoint? && n.id in dir then InitialState(dir[n.id], inv) else UP
  }

  /** The manual parent counts only when it is itself on the map. */
  predicate HasManualParent(dir: Directory, row: EndpointRow) {
    row.manualParent.Some? && row.manualParent.value in dir
  }

  function StoredRoute(inv: Inventory, id: EndpointId): seq<Hop> {
    Route(if id in inv.routes then inv.routes[id] else [])
  }

  function RowPath(dir: Directory, byIp: map<Address, EndpointId>, inv: Inventory, row: EndpointRow): seq<NodeId> {
    if HasManualParent(dir, row) then [Endpoint(row.manualParent.value), Endpoint(row.id)]
    else StitchPath(StoredRoute(inv, row.id), row.id, byIp, true)
  }

  /** The edges one row contributes. A manual parent is linked even when it is the endpoint itself. */
  function RowEdges(dir: Directory, byIp: map<Address, EndpointId>, inv: Inventory, row: EndpointRow): set<Edge> {
    if HasManualParent(dir, row) then {(Endpoint(row.manualParent.value), Endpoint(row.id))}
    else PathEdges(RowPath(dir, byIp, inv, row))
  }

  function RowTransit(dir: Directory, byIp: map<Address, EndpointId>, inv: Inventory, row: EndpointRow): set<NodeId> {
    if HasManualParent(dir, row) then {}
    else TransitAmong(RouteNodes(StoredRoute(inv, row.id), row.id, byIp))
  }

  function MergedEdges(dir: Directory, byIp: map<Address, EndpointId>, inv: Inventory, ids: set<EndpointId>): set<Edge>
  {
    set id, e | id in ids && id in dir && e in RowEdges(dir, byIp, inv, dir[id]) :: e
  }

  function MergedTransit(dir: Directory, byIp: map<Address, EndpointId>, inv: Inventory,
                         ids: set<EndpointId>): set<NodeId>
  {
    set id, n | id in ids && id in dir && n in RowTransit(dir, byIp, inv, dir[id]) :: n
  }

  function TransitState(n: NodeId, failed: set<Address>): string {
    if n.Transit? && n.ip in failed then FAILURE_POINT else UP
  }

  function MergedStates(dir: Directory, byIp: map<Address, EndpointId>, inv: Inventory,
                        ids: set<EndpointId>): map<NodeId, string>
  {
    var base := BaseStates(dir, inv);
    map n | n in base.Keys + MergedTransit(dir, byIp, inv, ids) ::
      if n in base then base[n] else TransitState(n, inv.failedIps)
  }

  /** The monitored endpoints linked to the root directly whose network is s. */
  function DirectIn(dir: Directory, edges: set<Edge>, s: string): set<EndpointId> {
    set id | id in dir && (Root, Endpoint(id)) in edges && dir[id].subnet == Some(s)
  }

  /** A network is clustered when it holds two or more direct endpoints. */
  predicate Clusters(dir: Directory, edges: set<Edge>, s: string) {
    s != "" && |DirectIn(dir, edges, s)| >= 2
  }

  function ClusterNetworks(dir: Directory, edges: set<Edge>): set<string> {
    set id | id in dir && dir[id].subnet.Some? && Clusters(dir, edges, dir[id].subnet.value) :: dir[id].subnet.value
  }

  /** The direct endpoints of the networks in `done`. */
  function Moved(dir: Directory, edges: set<Edge>, done: set<string>): set<EndpointId> {
    set id | id in dir && (Root, Endpoint(id)) in edges && dir[id].subnet.Some? && dir[id].subnet.value in done
  }

  function RootLinks(ids: set<EndpointId>): set<Edge> {
    set id | id in ids :: (Root, Endpoint(id))
  }

  function HubLinks(dir: Directory, ids: set<EndpointId>): set<Edge> {
    set id | id in ids && id in dir && dir[id].subnet.Some? :: (Hub(dir[id].subnet.value), Endpoint(id))
  }

  /** The edges after moving the direct endpoints of the networks in `done` behind their hubs. */
  function Clustered(dir: Directory, edges: set<Edge>, done: set<string>): set<Edge> {
    var moved := Moved(dir, edges, done);
    edges - RootLinks(moved) + (set s | s in done :: (Root, Hub(s))) + HubLinks(dir, moved)
  }

  function WithHubs(states: map<NodeId, string>, nets: set<string>): map<NodeId, string> {
    states + map s | s in nets :: Hub(s) := UP
  }

  /** The edges of the rebuilt map: the trie merge, then the clustering. */
  function MapEdges(dir: Directory, byIp: map<Address, EndpointId>, inv: Inventory): set<Edge> {
    var merged := MergedEdges(dir, byIp, inv, dir.Keys);
    Clustered(dir, merged, ClusterNetworks(dir, merged))
  }

  /** Its nodes, before propagation. */
  function MapStates(dir: Directory, byIp: map<Address, EndpointId>, inv: Inventory): map<NodeId, string> {
    WithHubs(MergedStates(dir, byIp, inv, dir.Keys), ClusterNetworks(dir, MergedEdges(dir, byIp, inv, dir.Keys)))
  }

  function RebuiltEdges(inv: Inventory): set<Edge> {
    MapEdges(MonitoredRows(inv.rows), AddressBook(inv.rows), inv)
  }

  function RebuiltStates(inv: Inventory): map<NodeId, string> {
    MapStates(MonitoredRows(inv.rows), AddressBook(inv.rows), inv)
  }

  ghost function Rebuilt(inv: Inventory): Topo {
    Topo(Propagated(RebuiltStates(inv), RebuiltEdges(inv)), RebuiltEdges(inv), inv.routes, AddressBook(inv.rows),
         DisabledIds(inv.rows))
  }

  // ------------------------------------------------------------------
  // What every map satisfies
  // ------------------------------------------------------------------

  /** Every edge joins two nodes of the map, none enters the root, resolved addresses are on the
      map, and no transit node is there without a route that names it. */
  ghost predicate Sane(t: Topo) {
    && EndsIn(t.states.Keys, t.edges)
    && RootHasNoSource(t.edges)
    && Resolves(t.states.Keys, t.byIp)
    && NoGhosts(t)
  }

  ghost predicate RootHasNoSource(edges: set<Edge>) {
    forall e :: e in edges ==> e.1 != Root
  }

  ghost predicate Resolves(nodes: set<NodeId>, byIp: map<Address, EndpointId>) {
    forall ip :: ip in byIp ==> Endpoint(byIp[ip]) in nodes
  }

  ghost predicate NoGhosts(t: Topo) {
    forall n :: n in t.states && IsTransit(n) ==> Named(t.routes, t.byIp, n)
  }
}
