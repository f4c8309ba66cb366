// When the rebuilt map is the acyclic graph it is meant to be (backend/app/services/topology.py).

module TopologyAcyclic {
  import opened Collections
  import opened Options
  import opened Hops
  import opened Graphs
  import opened Levels
  import opened LongestPath
  import opened TopologyModel
  import opened TopologyFacts

  type Ranking = map<NodeId, int>

  predicate Climbs(rank: Ranking, e: Edge) { e.0 in rank && e.1 in rank && rank[e.0] < rank[e.1] }

  ghost predicate AllClimb(rank: Ranking, edges: set<Edge>) {
    forall e {:trigger Climbs(rank, e)} :: e in edges ==> Climbs(rank, e)
  }

  // ------------------------------------------------------------------
  // A graph is acyclic exactly when its nodes can be ranked
  // ------------------------------------------------------------------

  lemma {:induction false} PathClimbs(rank: Ranking, edges: set<Edge>, p: seq<NodeId>)
    requires AllClimb(rank, edges) && Path(edges, p) && |p| > 1
    ensures p[0] in rank && p[|p| - 1] in rank && rank[p[0]] < rank[p[|p| - 1]]
    decreases |p|
  {
    var n := |p| - 1;
    assert Climbs(rank, (p[n - 1], p[n]));
    if n > 1 {
      PathClimbs(rank, edges, p[..n]);
    }
  }

  lemma RankedIsAcyclic(rank: Ranking, edges: set<Edge>)
    requires AllClimb(rank, edges)
    ensures Acyclic(edges)
  {
    forall p ensures !Cycle(edges, p) {
      if Cycle(edges, p) {
        PathClimbs(rank, edges, p);
        assert false;
      }
    }
  }

  ghost predicate Leads(edges: set<Edge>, p: seq<NodeId>, u: NodeId, v: NodeId) {
    Path(edges, p) && |p| > 1 && p[0] == u && p[|p| - 1] == v
  }

  ghost predicate Above(edges: set<Edge>, u: NodeId, v: NodeId) {
    exists p :: Leads(edges, p, u, v)
  }

  ghost function Ancestors(nodes: set<NodeId>, edges: set<Edge>, v: NodeId): set<NodeId> {
    set u | u in nodes && Above(edges, u, v)
  }

  lemma AncestorsGrow(nodes: set<NodeId>, edges: set<Edge>, e: Edge)
    requires Acyclic(edges) && e in edges && e.0 in nodes
    ensures |Ancestors(nodes, edges, e.0)| < |Ancestors(nodes, edges, e.1)|
  {
    var a, b := Ancestors(nodes, edges, e.0), Ancestors(nodes, edges, e.1);
    assert Leads(edges, [e.0, e.1], e.0, e.1);
    forall u | u in a ensures u in b {
      var p :| Leads(edges, p, u, e.0);
      assert Leads(edges, p + [e.1], u, e.1);
    }
    if e.0 in a {
      var p :| Leads(edges, p, e.0, e.0);
      assert Cycle(edges, p);
      assert false;
    }
    SubsetSize(a, b);
  }

  lemma AcyclicIsRanked(nodes: set<NodeId>, edges: set<Edge>) returns (rank: Ranking)
    requires Acyclic(edges) && forall e :: e in edges ==> e.0 in nodes && e.1 in nodes
    ensures AllClimb(rank, edges)
  {
    rank := map v | v in nodes :: |Ancestors(nodes, edges, v)|;
    forall e | e in edges ensures Climbs(rank, e) {
      AncestorsGrow(nodes, edges, e);
    }
  }

  // ------------------------------------------------------------------
  // Clustering neither opens nor closes a cycle
  // ------------------------------------------------------------------

  /** Every node of a cycle has an edge into it and an edge out of it on the cycle. */
  lemma OnCycle(edges: set<Edge>, p: seq<NodeId>, i: nat) returns (before: nat)
    requires Cycle(edges, p) && i < |p|
    ensures before < |p| - 1 && (p[before], p[i]) in edges && (p[before], p[before + 1]) in edges
  {
    before := if i == 0 then |p| - 2 else i - 1;
    assert (p[before], p[before + 1]) in edges;
  }

  ghost predicate Addressed(dir: Directory, byIp: map<Address, EndpointId>) {
    (forall id :: id in dir ==> dir[id].id == id) && forall ip :: ip in byIp ==> byIp[ip] in dir
  }

  lemma MapTarget(dir: Directory, byIp: map<Address, EndpointId>, inv: Inventory, e: Edge)
    requires Addressed(dir, byIp) && e in MapEdges(dir, byIp, inv)
    ensures e.1 != Root && (e.1.Hub? ==> e.0 == Root)
    ensures e.0 != Root && !e.0.Hub? ==> e in MergedEdges(dir, byIp, inv, dir.Keys)
  {
    MapEdge(dir, byIp, inv, e);
    if e in MergedEdges(dir, byIp, inv, dir.Keys) {
      MergedEdge(dir, byIp, inv, e);
    }
  }

  lemma MapCycleMerged(dir: Directory, byIp: map<Address, EndpointId>, inv: Inventory, p: seq<NodeId>)
    requires Addressed(dir, byIp) && Cycle(MapEdges(dir, byIp, inv), p)
    ensures Cycle(MergedEdges(dir, byIp, inv, dir.Keys), p)
  {
    var edges := MapEdges(dir, byIp, inv);
    forall i | 0 <= i < |p| ensures p[i] != Root {
      var b := OnCycle(edges, p, i);
      MapTarget(dir, byIp, inv, (p[b], p[i]));
    }
    forall i | 0 <= i < |p| ensures !p[i].Hub? {
      var b := OnCycle(edges, p, i);
      MapTarget(dir, byIp, inv, (p[b], p[i]));
    }
    forall i | 0 <= i < |p| - 1 ensures (p[i], p[i + 1]) in MergedEdges(dir, byIp, inv, dir.Keys) {
      assert (p[i], p[i + 1]) in edges;
      MapTarget(dir, byIp, inv, (p[i], p[i + 1]));
    }
  }

  lemma MergedStays(dir: Directory, byIp: map<Address, EndpointId>, inv: Inventory, e: Edge)
    requires e in MergedEdges(dir, byIp, inv, dir.Keys) && e.0 != Root
    ensures e in MapEdges(dir, byIp, inv)
  {
  }

  lemma MergedCycleMap(dir: Directory, byIp: map<Address, EndpointId>, inv: Inventory, p: seq<NodeId>)
    requires Addressed(dir, byIp) && Cycle(MergedEdges(dir, byIp, inv, dir.Keys), p)
    ensures Cycle(MapEdges(dir, byIp, inv), p)
  {
    var merged := MergedEdges(dir, byIp, inv, dir.Keys);
    forall i | 0 <= i < |p| - 1 ensures (p[i], p[i + 1]) in MapEdges(dir, byIp, inv) {
      var b := OnCycle(merged, p, i);
      MergedEdge(dir, byIp, inv, (p[b], p[i]));
      assert (p[i], p[i + 1]) in merged;
      MergedStays(dir, byIp, inv, (p[i], p[i + 1]));
    }
  }

  // ------------------------------------------------------------------
  // The rebuilt map
  // ------------------------------------------------------------------

  /** One ranking of the nodes that every manual link and every step of every stored route climbs. */
  ghost predicate RowsClimb(rank: Ranking, inv: Inventory) {
    var dir, byIp := MonitoredRows(inv.rows), AddressBook(inv.rows);
    forall id {:trigger dir[id]} :: id in dir ==> AllClimb(rank, RowEdges(dir, byIp, inv, dir[id]))
  }

  lemma RowsClimbTogether(rank: Ranking, inv: Inventory)
    ensures var dir := MonitoredRows(inv.rows);
            RowsClimb(rank, inv) <==> AllClimb(rank, MergedEdges(dir, AddressBook(inv.rows), inv, dir.Keys))
  {
    var dir, byIp := MonitoredRows(inv.rows), AddressBook(inv.rows);
    var merged := MergedEdges(dir, byIp, inv, dir.Keys);
    if AllClimb(rank, merged) {
      forall id | id in dir ensures AllClimb(rank, RowEdges(dir, byIp, inv, dir[id])) {
        forall e | e in RowEdges(dir, byIp, inv, dir[id]) ensures Climbs(rank, e) {
          assert e in merged;
        }
      }
    }
    if RowsClimb(rank, inv) {
      forall e | e in merged ensures Climbs(rank, e) {
        var id :| id in dir.Keys && id in dir && e in RowEdges(dir, byIp, inv, dir[id]);
        assert AllClimb(rank, RowEdges(dir, byIp, inv, dir[id]));
      }
    }
  }

  lemma MergedAcyclic(inv: Inventory)
    ensures var dir := MonitoredRows(inv.rows);
            Acyclic(RebuiltEdges(inv)) <==> Acyclic(MergedEdges(dir, AddressBook(inv.rows), inv, dir.Keys))
  {
    var dir, byIp := MonitoredRows(inv.rows), AddressBook(inv.rows);
    RowsById(inv.rows);
    if p :| Cycle(RebuiltEdges(inv), p) {
      MapCycleMerged(dir, byIp, inv, p);
    }
    if p :| Cycle(MergedEdges(dir, byIp, inv, dir.Keys), p) {
      MergedCycleMap(dir, byIp, inv, p);
    }
  }

  /** The rebuilt map is acyclic exactly when one ranking of the nodes is climbed by every manual
      link and every step of every stored route. */
  lemma RebuiltAcyclicIff(inv: Inventory)
    ensures Acyclic(RebuiltEdges(inv)) <==> exists rank :: RowsClimb(rank, inv)
  {
    var dir, byIp := MonitoredRows(inv.rows), AddressBook(inv.rows);
    var merged := MergedEdges(dir, byIp, inv, dir.Keys);
    MergedAcyclic(inv);
    if Acyclic(merged) {
      RowsById(inv.rows);
      forall e | e in merged
        ensures e.0 in MergedStates(dir, byIp, inv, dir.Keys) && e.1 in MergedStates(dir, byIp, inv, dir.Keys)
      {
        MergedEdge(dir, byIp, inv, e);
      }
      var rank := AcyclicIsRanked(MergedStates(dir, byIp, inv, dir.Keys).Keys, merged);
      RowsClimbTogether(rank, inv);
    }
    if rank :| RowsClimb(rank, inv) {
      RowsClimbTogether(rank, inv);
      RankedIsAcyclic(rank, merged);
    }
  }

  /** Then the levels of the rebuild are the longest path lengths, for every node of the map. */
  lemma RankedLevels(inv: Inventory, rank: Ranking, expanded: set<NodeId>, levels: map<NodeId, nat>)
    requires RowsClimb(rank, inv) && Leveled(RebuiltStates(inv).Keys, RebuiltEdges(inv), expanded, levels)
    ensures forall v :: v in RebuiltStates(inv) ==>
            LongestPathLength(RebuiltStates(inv).Keys, RebuiltEdges(inv), v, levels[v])
  {
    RebuiltAcyclicIff(inv);
    AcyclicLevels(RebuiltStates(inv).Keys, RebuiltEdges(inv), expanded, levels);
  }

  // ------------------------------------------------------------------
  // Rows that disagree on an order
  // ------------------------------------------------------------------

  /** Along a walk every node comes after the ones before it. */
  lemma {:induction false} Onward(edges: set<Edge>, p: seq<NodeId>, i: nat, j: nat)
    requires Walk(edges, p) && i <= j < |p|
    ensures p[i] == p[j] || Above(edges, p[i], p[j])
    decreases j - i
  {
    if i < j {
      Onward(edges, p, i, j - 1);
      assert p[j - 1] == p[j - 1 + 1] || (p[j - 1], p[j - 1 + 1]) in edges;
      if p[j - 1] != p[j] {
        if p[i] == p[j - 1] {
          assert Leads(edges, [p[i], p[j]], p[i], p[j]);
        } else {
          var q :| Leads(edges, q, p[i], p[j - 1]);
          assert Leads(edges, q + [p[j]], p[i], p[j]);
        }
      }
    }
  }

  lemma AboveBothWays(edges: set<Edge>, u: NodeId, v: NodeId)
    requires Above(edges, u, v) && Above(edges, v, u)
    ensures !Acyclic(edges)
  {
    var p :| Leads(edges, p, u, v);
    var q :| Leads(edges, q, v, u);
    var c := p + q[1..];
    forall i | 0 <= i < |c| - 1 ensures (c[i], c[i + 1]) in edges {
      if i >= |p| - 1 {
        assert (q[i - |p| + 1], q[i - |p| + 2]) in edges;
      }
    }
    assert Cycle(edges, c);
  }

  lemma RowWalks(dir: Directory, byIp: map<Address, EndpointId>, inv: Inventory, id: EndpointId)
    requires id in dir
    ensures Walk(MergedEdges(dir, byIp, inv, dir.Keys), RowPath(dir, byIp, inv, dir[id]))
  {
    var p := RowPath(dir, byIp, inv, dir[id]);
    forall i | 0 <= i < |p| - 1
      ensures p[i] == p[i + 1] || (p[i], p[i + 1]) in MergedEdges(dir, byIp, inv, dir.Keys)
    {
      if !HasManualParent(dir, dir[id]) {
        PathStep(p, i);
      }
      assert p[i] == p[i + 1] || (p[i], p[i + 1]) in RowEdges(dir, byIp, inv, dir[id]);
    }
  }

  /** The path of the row, its manual link or stored route, passes u and later v. */
  predicate Passes(inv: Inventory, id: EndpointId, u: NodeId, v: NodeId) {
    var dir := MonitoredRows(inv.rows);
    id in dir
    && var p := RowPath(dir, AddressBook(inv.rows), inv, dir[id]);
       exists i, j :: 0 <= i < j < |p| && p[i] == u && p[j] == v
  }

  /** Two rows, or one, that pass the same two nodes in opposite order close a cycle. */
  lemma OppositeOrders(inv: Inventory, x: EndpointId, y: EndpointId, u: NodeId, v: NodeId)
    requires u != v && Passes(inv, x, u, v) && Passes(inv, y, v, u)
    ensures !Acyclic(RebuiltEdges(inv))
  {
    var dir, byIp := MonitoredRows(inv.rows), AddressBook(inv.rows);
    var merged := MergedEdges(dir, byIp, inv, dir.Keys);
    var p, q := RowPath(dir, byIp, inv, dir[x]), RowPath(dir, byIp, inv, dir[y]);
    RowWalks(dir, byIp, inv, x);
    RowWalks(dir, byIp, inv, y);
    var i, j :| 0 <= i < j < |p| && p[i] == u && p[j] == v;
    Onward(merged, p, i, j);
    var k, l :| 0 <= k < l < |q| && q[k] == v && q[l] == u;
    Onward(merged, q, k, l);
    AboveBothWays(merged, u, v);
    MergedAcyclic(inv);
  }

  /** Two endpoints behind two routers, with swapped routes. */
  function SwappedInventory(): Inventory {
    Inventory(
      [EndpointRow("x", "10.0.0.1", None, true, None, UP), EndpointRow("y", "10.0.0.2", None, true, None, UP)],
      map["x" := [Hop(Some(1), Some("10.1.0.1"), None), Hop(Some(2), Some("10.1.0.2"), None)],
          "y" := [Hop(Some(1), Some("10.1.0.2"), None), Hop(Some(2), Some("10.1.0.1"), None)]],
      {}, {})
  }

  lemma TwoHopRow(inv: Inventory, id: EndpointId, a: Address, b: Address)
    requires var dir, byIp := MonitoredRows(inv.rows), AddressBook(inv.rows);
             && id in dir && dir[id].id == id && !HasManualParent(dir, dir[id]) && id in inv.routes
             && a !in byIp && b !in byIp
             && inv.routes[id] == [Hop(Some(1), Some(a), None), Hop(Some(2), Some(b), None)]
    ensures Passes(inv, id, Transit(a), Transit(b))
  {
    var dir := MonitoredRows(inv.rows);
    var hops := inv.routes[id];
    assert EndsAnswering(hops) && NoSilentPair(hops);
    CollapsedFixesNormal(hops);
    assert Stripped(hops) == hops;
    var p := RowPath(dir, AddressBook(inv.rows), inv, dir[id]);
    assert p[1] == Transit(a) && p[2] == Transit(b);
  }

  lemma SwappedInventoryCycles()
    ensures !Acyclic(RebuiltEdges(SwappedInventory()))
  {
    var inv := SwappedInventory();
    var rows := inv.rows;
    assert rows[..1] == [rows[0]] && rows[..1][..0] == [];
    assert MonitoredRows(rows[..1]) == map["x" := rows[0]];
    assert AddressBook(rows[..1]) == map["10.0.0.1" := "x"];
    assert MonitoredRows(rows) == map["x" := rows[0], "y" := rows[1]];
    assert AddressBook(rows) == map["10.0.0.1" := "x", "10.0.0.2" := "y"];
    TwoHopRow(inv, "x", "10.1.0.1", "10.1.0.2");
    TwoHopRow(inv, "y", "10.1.0.2", "10.1.0.1");
    OppositeOrders(inv, "x", "y", Transit("10.1.0.1"), Transit("10.1.0.2"));
  }
}
