// The queue-based level pass (backend/app/services/topology.py).

module Levels {
  import opened Graphs

  predicate HasSource(nodes: set<NodeId>, edges: set<Edge>, v: NodeId) {
    exists u :: u in nodes && (u, v) in edges
  }

  function Targets(nodes: set<NodeId>, edges: set<Edge>, u: NodeId): set<NodeId> {
    set v | v in nodes && (u, v) in edges
  }

  /** The sources of v that have not been expanded yet. */
  function Waiting(nodes: set<NodeId>, edges: set<Edge>, expanded: set<NodeId>, v: NodeId): set<NodeId> {
    set u | u in nodes && u !in expanded && (u, v) in edges
  }

  /** Some source of v has been expanded. */
  ghost predicate Touched(edges: set<Edge>, expanded: set<NodeId>, v: NodeId) {
    exists u :: u in expanded && (u, v) in edges
  }

  /** Level l is one more than the highest level among the expanded sources of v. */
  ghost predicate TightLevel(edges: set<Edge>, expanded: set<NodeId>, levels: map<NodeId, nat>, v: NodeId, l: nat) {
    && (forall u :: u in expanded && (u, v) in edges ==> u in levels && levels[u] + 1 <= l)
    && (exists u :: u in expanded && (u, v) in edges && u in levels && levels[u] + 1 == l)
  }

  /** What the pass promises on every graph: v gets 0 when it has no source, one more than its
      highest expanded source when it has one, and the default 1 otherwise. */
  ghost predicate LevelRule(nodes: set<NodeId>, edges: set<Edge>, expanded: set<NodeId>, levels: map<NodeId, nat>,
                            v: NodeId)
    requires v in levels
  {
    if !HasSource(nodes, edges, v) then levels[v] == 0
    else if !Touched(edges, expanded, v) then levels[v] == 1
    else TightLevel(edges, expanded, levels, v, levels[v])
  }

  /** The expanded nodes are exactly those all of whose sources are expanded. */
  ghost predicate Saturated(nodes: set<NodeId>, edges: set<Edge>, expanded: set<NodeId>) {
    && expanded <= nodes
    && forall v :: v in nodes ==> (v in expanded <==> Waiting(nodes, edges, expanded, v) == {})
  }

  ghost predicate Leveled(nodes: set<NodeId>, edges: set<Edge>, expanded: set<NodeId>, levels: map<NodeId, nat>) {
    && levels.Keys == nodes
    && Saturated(nodes, edges, expanded)
    && forall v {:trigger LevelRule(nodes, edges, expanded, levels, v)} :: v in nodes ==>
        LevelRule(nodes, edges, expanded, levels, v)
  }

  function Elements(s: seq<NodeId>): set<NodeId> { set n | n in s }

  ghost predicate Distinct(s: seq<NodeId>) {
    forall i, j :: 0 <= i < j < |s| ==> s[i] != s[j]
  }

  // ------------------------------------------------------------------
  // The invariant of the queue loop
  // ------------------------------------------------------------------

  /** The counters hold the number of edges still to be relaxed. */
  ghost predicate CountInv(nodes: set<NodeId>, edges: set<Edge>, expanded: set<NodeId>, inDegrees: map<NodeId, int>) {
    && inDegrees.Keys == nodes
    && forall v :: v in nodes ==> inDegrees[v] == |Waiting(nodes, edges, expanded, v)|
  }

  /** The queue holds, once each, the unexpanded nodes that wait for nothing. */
  ghost predicate ReadyInv(nodes: set<NodeId>, edges: set<Edge>, expanded: set<NodeId>, queue: seq<NodeId>) {
    && expanded <= nodes
    && Distinct(queue)
    && (forall v :: v in queue ==> v in nodes && v !in expanded)
    && forall v :: v in nodes ==> (v in expanded || v in queue <==> Waiting(nodes, edges, expanded, v) == {})
  }

  ghost predicate MidLevel(nodes: set<NodeId>, edges: set<Edge>, expanded: set<NodeId>, levels: map<NodeId, nat>,
                           v: NodeId)
    requires v in levels
  {
    if HasSource(nodes, edges, v) then TightLevel(edges, expanded, levels, v, levels[v]) else levels[v] == 0
  }

  /** A node has a level once it is known to have no source, or one of its sources is expanded. */
  ghost predicate LevelInv(nodes: set<NodeId>, edges: set<Edge>, expanded: set<NodeId>, levels: map<NodeId, nat>) {
    && levels.Keys <= nodes
    && expanded <= nodes
    && (forall v :: v in nodes ==> (v in levels <==> !HasSource(nodes, edges, v) || Touched(edges, expanded, v)))
    && forall v {:trigger MidLevel(nodes, edges, expanded, levels, v)} :: v in levels ==>
        MidLevel(nodes, edges, expanded, levels, v)
  }

  /** A queued node has its level, and none of its targets is queued or expanded. */
  lemma HeadReady(nodes: set<NodeId>, edges: set<Edge>, expanded: set<NodeId>, queue: seq<NodeId>,
                  levels: map<NodeId, nat>, u: NodeId)
    requires ReadyInv(nodes, edges, expanded, queue)
    requires LevelInv(nodes, edges, expanded, levels)
    requires u in queue
    ensures u in nodes && u in levels && u !in expanded
    ensures forall v :: v in Targets(nodes, edges, u) ==> v in nodes && v !in expanded && v !in queue
  {
    if s :| s in nodes && (s, u) in edges {
      assert s !in Waiting(nodes, edges, expanded, u);
    }
    forall v | v in Targets(nodes, edges, u) ensures v !in expanded && v !in queue {
      assert u in Waiting(nodes, edges, expanded, v);
    }
  }

  // ------------------------------------------------------------------
  // One expansion
  // ------------------------------------------------------------------

  /** What relaxing the edges from u to `targets` does to the levels. */
  ghost predicate Raised(u: NodeId, targets: set<NodeId>, levels0: map<NodeId, nat>, levels: map<NodeId, nat>)
    requires u in levels0
  {
    && levels.Keys == levels0.Keys + targets
    && (forall v :: v in levels0 && v !in targets ==> levels[v] == levels0[v])
    && forall v :: v in targets ==>
        levels[v] == if v in levels0 && levels0[v] > levels0[u] then levels0[v] else levels0[u] + 1
  }

  /** What it does to the counters. */
  ghost predicate Counted(targets: set<NodeId>, inDegrees0: map<NodeId, int>, inDegrees: map<NodeId, int>) {
    && inDegrees.Keys == inDegrees0.Keys
    && forall v :: v in inDegrees ==> inDegrees[v] == inDegrees0[v] - if v in targets then 1 else 0
  }

  lemma ExpandCounts(nodes: set<NodeId>, edges: set<Edge>, expanded: set<NodeId>, u: NodeId,
                     inDegrees0: map<NodeId, int>, inDegrees: map<NodeId, int>)
    requires CountInv(nodes, edges, expanded, inDegrees0) && u in nodes && u !in expanded
    requires Counted(Targets(nodes, edges, u), inDegrees0, inDegrees)
    ensures CountInv(nodes, edges, expanded + {u}, inDegrees)
  {
    forall v | v in nodes ensures inDegrees[v] == |Waiting(nodes, edges, expanded + {u}, v)| {
      assert Waiting(nodes, edges, expanded + {u}, v) == Waiting(nodes, edges, expanded, v) - {u};
    }
  }

  lemma ExpandQueue(nodes: set<NodeId>, edges: set<Edge>, expanded: set<NodeId>, queue: seq<NodeId>, added: seq<NodeId>,
                    inDegrees: map<NodeId, int>)
    requires ReadyInv(nodes, edges, expanded, queue) && queue != []
    requires CountInv(nodes, edges, expanded + {queue[0]}, inDegrees)
    requires forall v :: v in Targets(nodes, edges, queue[0]) ==> v !in expanded && v !in queue
    requires Distinct(added)
    requires forall v :: v in added <==> v in Targets(nodes, edges, queue[0]) && inDegrees[v] <= 0
    ensures ReadyInv(nodes, edges, expanded + {queue[0]}, queue[1..] + added)
  {
    var u := queue[0];
    var queue' := queue[1..] + added;
    forall v ensures v in queue <==> v == u || v in queue[1..] {
      assert queue == [u] + queue[1..];
    }
    forall v ensures v in queue' <==> v in queue[1..] || v in added {}
    assert u !in queue[1..];
    DistinctJoin(queue[1..], added);
    forall v | v in nodes
      ensures v in expanded + {u} || v in queue' <==> Waiting(nodes, edges, expanded + {u}, v) == {}
    {
      if v !in Targets(nodes, edges, u) {
        assert Waiting(nodes, edges, expanded + {u}, v) == Waiting(nodes, edges, expanded, v);
      } else {
        assert u in Waiting(nodes, edges, expanded, v);
        assert |Waiting(nodes, edges, expanded + {u}, v)| == 0 <==> Waiting(nodes, edges, expanded + {u}, v) == {};
      }
    }
  }

  lemma DistinctJoin(a: seq<NodeId>, b: seq<NodeId>)
    requires Distinct(a) && Distinct(b) && forall v :: v in a ==> v !in b
    ensures Distinct(a + b)
  {
    forall i, j | 0 <= i < j < |a + b| ensures (a + b)[i] != (a + b)[j] {
      if i < |a| <= j {
        assert a[i] in a && b[j - |a|] in b;
      }
    }
  }

  lemma ExpandLevels(nodes: set<NodeId>, edges: set<Edge>, expanded: set<NodeId>, u: NodeId,
                     levels0: map<NodeId, nat>, levels: map<NodeId, nat>)
    requires LevelInv(nodes, edges, expanded, levels0) && u in levels0
    requires forall v :: v in Targets(nodes, edges, u) ==> v !in expanded && v != u
    requires Raised(u, Targets(nodes, edges, u), levels0, levels)
    ensures LevelInv(nodes, edges, expanded + {u}, levels)
  {
    forall v | v in nodes
      ensures v in levels <==> !HasSource(nodes, edges, v) || Touched(edges, expanded + {u}, v)
      ensures v in levels ==> MidLevel(nodes, edges, expanded + {u}, levels, v)
    {
      if (u, v) in edges {
        assert v in Targets(nodes, edges, u);
        RaisedTarget(nodes, edges, expanded, u, levels0, levels, v);
      } else {
        assert v !in Targets(nodes, edges, u);
        assert Touched(edges, expanded + {u}, v) <==> Touched(edges, expanded, v);
        if v in levels {
          UnraisedNode(nodes, edges, expanded, u, levels0, levels, v);
        }
      }
    }
  }

  lemma UnraisedNode(nodes: set<NodeId>, edges: set<Edge>, expanded: set<NodeId>, u: NodeId,
                     levels0: map<NodeId, nat>, levels: map<NodeId, nat>, v: NodeId)
    requires LevelInv(nodes, edges, expanded, levels0) && u in levels0
    requires forall v :: v in Targets(nodes, edges, u) ==> v !in expanded && v != u
    requires Raised(u, Targets(nodes, edges, u), levels0, levels)
    requires v in levels0 && (u, v) !in edges
    ensures MidLevel(nodes, edges, expanded + {u}, levels, v)
  {
    assert MidLevel(nodes, edges, expanded, levels0, v);
    if HasSource(nodes, edges, v) {
      var s :| s in expanded && (s, v) in edges && s in levels0 && levels0[s] + 1 == levels0[v];
      assert levels[s] + 1 == levels[v];
    }
  }

  lemma RaisedTarget(nodes: set<NodeId>, edges: set<Edge>, expanded: set<NodeId>, u: NodeId,
                     levels0: map<NodeId, nat>, levels: map<NodeId, nat>, v: NodeId)
    requires LevelInv(nodes, edges, expanded, levels0) && u in levels0
    requires forall v :: v in Targets(nodes, edges, u) ==> v !in expanded && v != u
    requires Raised(u, Targets(nodes, edges, u), levels0, levels)
    requires v in Targets(nodes, edges, u)
    ensures v in levels && Touched(edges, expanded + {u}, v) && MidLevel(nodes, edges, expanded + {u}, levels, v)
  {
    assert v in levels0 ==> MidLevel(nodes, edges, expanded, levels0, v);
    forall s | s in expanded + {u} && (s, v) in edges ensures s in levels && levels[s] + 1 <= levels[v] {
      if s != u {
        assert Touched(edges, expanded, v);
      }
    }
    if v in levels0 && levels0[v] > levels0[u] {
      var s :| s in expanded && (s, v) in edges && s in levels0 && levels0[s] + 1 == levels0[v];
      assert levels[s] + 1 == levels[v];
    } else {
      assert levels[u] + 1 == levels[v];
    }
  }

  // ------------------------------------------------------------------
  // The pass
  // ------------------------------------------------------------------

  lemma WaitingOneMore(nodes: set<NodeId>, counted: set<Edge>, e: Edge, v: NodeId)
    requires e !in counted && e.0 in nodes
    ensures |Waiting(nodes, counted + {e}, {}, v)| == |Waiting(nodes, counted, {}, v)| + if v == e.1 then 1 else 0
  {
    assert e == (e.0, e.1);
    if v == e.1 {
      assert Waiting(nodes, counted + {e}, {}, v) == Waiting(nodes, counted, {}, v) + {e.0};
    } else {
      assert Waiting(nodes, counted + {e}, {}, v) == Waiting(nodes, counted, {}, v);
    }
  }

  lemma CountOne(nodes: set<NodeId>, counted: set<Edge>, e: Edge, inDegrees: map<NodeId, int>)
    requires CountInv(nodes, counted, {}, inDegrees)
    requires e !in counted && e.0 in nodes && e.1 in nodes
    ensures CountInv(nodes, counted + {e}, {}, inDegrees[e.1 := inDegrees[e.1] + 1])
  {
    forall v | v in nodes
      ensures |Waiting(nodes, counted + {e}, {}, v)| == |Waiting(nodes, counted, {}, v)| + if v == e.1 then 1 else 0
    {
      WaitingOneMore(nodes, counted, e, v);
    }
    hide Waiting;
  }

  /** The counting loop. Edges with an end outside `nodes` are ignored. */
  method CountEdges(nodes: set<NodeId>, edges: set<Edge>) returns (inDegrees: map<NodeId, int>)
    ensures CountInv(nodes, edges, {}, inDegrees)
  {
    inDegrees := map n | n in nodes :: 0;
    var pending := edges;
    ghost var counted: set<Edge> := {};
    while pending != {}
      invariant counted !! pending
      invariant forall e :: e in edges <==>
                e in pending || e in counted || (e in edges && (e.0 !in nodes || e.1 !in nodes))
      invariant counted + pending <= edges
      invariant CountInv(nodes, counted, {}, inDegrees)
    {
      var e :| e in pending;
      if e.0 in nodes && e.1 in nodes {
        CountOne(nodes, counted, e, inDegrees);
        inDegrees := inDegrees[e.1 := inDegrees[e.1] + 1];
        counted := counted + {e};
      }
      pending := pending - {e};
    }
    forall v | v in nodes ensures Waiting(nodes, counted, {}, v) == Waiting(nodes, edges, {}, v) {
      forall u | u in nodes ensures (u, v) in counted <==> (u, v) in edges {}
    }
  }

  /** The nodes that wait for nothing start in the queue, at level 0. */
  method StartQueue(nodes: set<NodeId>, edges: set<Edge>, inDegrees: map<NodeId, int>)
    returns (queue: seq<NodeId>, levels: map<NodeId, nat>)
    requires CountInv(nodes, edges, {}, inDegrees)
    requires forall e :: e in edges ==> e.1 != Root
    ensures ReadyInv(nodes, edges, {}, queue)
    ensures LevelInv(nodes, edges, {}, levels)
  {
    levels := map[];
    queue := [];
    SourcelessCount(nodes, edges, inDegrees);
    var unseen := nodes;
    while unseen != {}
      invariant unseen <= nodes
      invariant Distinct(queue)
      invariant forall v :: v in queue <==> v in nodes && v !in unseen && inDegrees[v] == 0
      invariant forall v :: v in levels <==> v in nodes && v !in unseen && inDegrees[v] == 0
      invariant forall v :: v in levels ==> levels[v] == 0
    {
      var n :| n in unseen;
      if inDegrees[n] == 0 || n == Root {
        DistinctJoin(queue, [n]);
        queue := queue + [n];
        levels := levels[n := 0];
      }
      unseen := unseen - {n};
    }
    StartDone(nodes, edges, inDegrees, queue, levels);
  }

  lemma SourcelessCount(nodes: set<NodeId>, edges: set<Edge>, inDegrees: map<NodeId, int>)
    requires CountInv(nodes, edges, {}, inDegrees)
    ensures forall v :: v in nodes ==> (inDegrees[v] == 0 <==> !HasSource(nodes, edges, v))
  {
    WaitingForNone(nodes, edges);
    forall v | v in nodes ensures inDegrees[v] == 0 <==> !HasSource(nodes, edges, v) {
      assert |Waiting(nodes, edges, {}, v)| == 0 <==> Waiting(nodes, edges, {}, v) == {};
    }
  }

  lemma StartDone(nodes: set<NodeId>, edges: set<Edge>, inDegrees: map<NodeId, int>, queue: seq<NodeId>,
                  levels: map<NodeId, nat>)
    requires inDegrees.Keys == nodes
    requires forall v :: v in nodes ==> (inDegrees[v] == 0 <==> !HasSource(nodes, edges, v))
    requires Distinct(queue)
    requires forall v :: v in queue <==> v in nodes && inDegrees[v] == 0
    requires forall v :: v in levels <==> v in nodes && inDegrees[v] == 0
    requires forall v :: v in levels ==> levels[v] == 0
    ensures ReadyInv(nodes, edges, {}, queue)
    ensures LevelInv(nodes, edges, {}, levels)
  {
    assert ReadyInv(nodes, edges, {}, queue) by {
      WaitingForNone(nodes, edges);
    }
    forall v | v in nodes ensures !Touched(edges, {}, v) {}
  }

  lemma WaitingForNone(nodes: set<NodeId>, edges: set<Edge>)
    ensures forall v :: v in nodes ==> (Waiting(nodes, edges, {}, v) == {} <==> !HasSource(nodes, edges, v))
  {
    forall v | v in nodes ensures Waiting(nodes, edges, {}, v) == {} <==> !HasSource(nodes, edges, v) {
      if u :| u in nodes && (u, v) in edges {
        assert u in Waiting(nodes, edges, {}, v);
      }
    }
  }

  /** The relaxation counts: each edge out of an expanded node once, every other edge never. */
  ghost predicate RelaxedOnce(nodes: set<NodeId>, edges: set<Edge>, expanded: set<NodeId>, relaxed: multiset<Edge>) {
    forall e :: relaxed[e] == if e.0 in expanded && e.1 in nodes && e in edges then 1 else 0
  }

  lemma RelaxedStep(nodes: set<NodeId>, edges: set<Edge>, expanded: set<NodeId>, u: NodeId, relaxed: multiset<Edge>,
                    relaxing: multiset<Edge>)
    requires RelaxedOnce(nodes, edges, expanded, relaxed) && u !in expanded
    requires forall e :: relaxing[e] == if e.0 == u && e.1 in Targets(nodes, edges, u) then 1 else 0
    ensures RelaxedOnce(nodes, edges, expanded + {u}, relaxed + relaxing)
  {
    forall e
      ensures (relaxed + relaxing)[e] == if e.0 in expanded + {u} && e.1 in nodes && e in edges then 1 else 0
    {
      assert e == (e.0, e.1);
      assert relaxed[e] == if e.0 in expanded && e.1 in nodes && e in edges then 1 else 0;
      assert relaxing[e] == if e.0 == u && e.1 in Targets(nodes, edges, u) then 1 else 0;
    }
  }

  function RelaxedLevels(u: NodeId, levels: map<NodeId, nat>, v: NodeId): map<NodeId, nat>
    requires u in levels
  {
    if v !in levels || levels[u] + 1 > levels[v] then levels[v := levels[u] + 1] else levels
  }

  lemma RaiseOne(u: NodeId, seen: set<NodeId>, levels0: map<NodeId, nat>, levels: map<NodeId, nat>, v: NodeId)
    requires u in levels0 && Raised(u, seen, levels0, levels) && u !in seen && v != u && v !in seen
    ensures u in levels && Raised(u, seen + {v}, levels0, RelaxedLevels(u, levels, v))
  {
  }

  lemma RaisedNone(u: NodeId, levels: map<NodeId, nat>)
    requires u in levels
    ensures Raised(u, {}, levels, levels)
  {
  }

  lemma CountOneDown(seen: set<NodeId>, inDegrees0: map<NodeId, int>, inDegrees: map<NodeId, int>, v: NodeId)
    requires Counted(seen, inDegrees0, inDegrees) && v in inDegrees && v !in seen
    ensures Counted(seen + {v}, inDegrees0, inDegrees[v := inDegrees[v] - 1])
  {
  }

  /** Relaxes every edge out of u and queues the targets that wait for nothing more. */
  method Expand(nodes: set<NodeId>, edges: set<Edge>, u: NodeId, queue: seq<NodeId>, levels: map<NodeId, nat>,
                inDegrees: map<NodeId, int>)
    returns (ghost added: seq<NodeId>, queue': seq<NodeId>, levels': map<NodeId, nat>, inDegrees': map<NodeId, int>,
             ghost relaxed: multiset<Edge>)
    requires u in levels && u !in Targets(nodes, edges, u)
    requires inDegrees.Keys == nodes
    ensures Raised(u, Targets(nodes, edges, u), levels, levels')
    ensures Counted(Targets(nodes, edges, u), inDegrees, inDegrees')
    ensures queue' == queue + added && Distinct(added)
    ensures forall v :: v in added <==> v in Targets(nodes, edges, u) && inDegrees'[v] <= 0
    ensures forall e :: relaxed[e] == if e.0 == u && e.1 in Targets(nodes, edges, u) then 1 else 0
  {
    queue', levels', inDegrees' := queue, levels, inDegrees;
    added, relaxed := [], multiset{};
    var todo := Targets(nodes, edges, u);
    ghost var targets: set<NodeId> := todo;
    ghost var seen: set<NodeId> := {};
    RaisedNone(u, levels);
    hide Raised;
    while todo != {}
      invariant seen + todo == targets && seen !! todo
      invariant u in levels' && Raised(u, seen, levels, levels')
      invariant Counted(seen, inDegrees, inDegrees')
      invariant queue' == queue + added && Distinct(added)
      invariant forall v :: v in added <==> v in seen && inDegrees'[v] <= 0
      invariant forall e :: relaxed[e] == if e.0 == u && e.1 in seen then 1 else 0
    {
      var v :| v in todo;
      RaiseOne(u, seen, levels, levels', v);
      CountOneDown(seen, inDegrees, inDegrees', v);
      if v !in levels' || levels'[u] + 1 > levels'[v] {
        levels' := levels'[v := levels'[u] + 1];
      }
      inDegrees' := inDegrees'[v := inDegrees'[v] - 1];
      relaxed := relaxed + multiset{(u, v)};
      if inDegrees'[v] <= 0 {
        queue' := queue' + [v];
        added := added + [v];
      }
      todo, seen := todo - {v}, seen + {v};
    }
    assert seen == targets;
  }

  lemma OrderStep(order: seq<NodeId>, u: NodeId)
    requires Distinct(order) && u !in Elements(order)
    ensures Distinct(order + [u])
    ensures Elements(order + [u]) == Elements(order) + {u}
  {
    forall n ensures n in order + [u] <==> n in order || n == u {}
    assert forall n :: n in order ==> n in Elements(order);
    DistinctJoin(order, [u]);
  }

  /** The level pass: every node is expanded at most once and every edge relaxed at most once.
      It terminates because no edge enters the root. */
  method AssignLevels(nodes: set<NodeId>, edges: set<Edge>)
    returns (levels: map<NodeId, nat>, ghost order: seq<NodeId>, ghost relaxed: multiset<Edge>)
    requires forall e :: e in edges ==> e.1 != Root
    ensures Distinct(order)
    ensures RelaxedOnce(nodes, edges, Elements(order), relaxed)
    ensures Leveled(nodes, edges, Elements(order), levels)
    ensures exists expanded :: Leveled(nodes, edges, expanded, levels)
  {
    var inDegrees := CountEdges(nodes, edges);
    var queue;
    queue, levels := StartQueue(nodes, edges, inDegrees);
    order, relaxed := [], multiset{};
    ghost var expanded: set<NodeId> := {};
    while queue != []
      invariant expanded == Elements(order)
      invariant Distinct(order)
      invariant CountInv(nodes, edges, expanded, inDegrees)
      invariant ReadyInv(nodes, edges, expanded, queue)
      invariant LevelInv(nodes, edges, expanded, levels)
      invariant RelaxedOnce(nodes, edges, expanded, relaxed)
      decreases nodes - expanded
    {
      var u := queue[0];
      HeadReady(nodes, edges, expanded, queue, levels, u);
      ghost var queue0, levels0, inDegrees0 := queue, levels, inDegrees;
      ghost var added, relaxing;
      added, queue, levels, inDegrees, relaxing := Expand(nodes, edges, u, queue[1..], levels, inDegrees);
      ExpandCounts(nodes, edges, expanded, u, inDegrees0, inDegrees);
      ExpandQueue(nodes, edges, expanded, queue0, added, inDegrees);
      ExpandLevels(nodes, edges, expanded, u, levels0, levels);
      RelaxedStep(nodes, edges, expanded, u, relaxed, relaxing);
      OrderStep(order, u);
      relaxed := relaxed + relaxing;
      order := order + [u];
      expanded := expanded + {u};
    }
    FinishLeveled(nodes, edges, expanded, levels);
    levels := WithDefaults(nodes, levels);
  }

  /** The levels of all nodes: a node the pass never touched gets the default 1. */
  function WithDefaults(nodes: set<NodeId>, levels: map<NodeId, nat>): map<NodeId, nat> {
    map n | n in nodes :: if n in levels then levels[n] else if n != Root then 1 else 0
  }

  lemma FinishLeveled(nodes: set<NodeId>, edges: set<Edge>, expanded: set<NodeId>, levels: map<NodeId, nat>)
    requires ReadyInv(nodes, edges, expanded, [])
    requires LevelInv(nodes, edges, expanded, levels)
    requires forall e :: e in edges ==> e.1 != Root
    ensures Leveled(nodes, edges, expanded, WithDefaults(nodes, levels))
  {
    var full := WithDefaults(nodes, levels);
    forall v | v in nodes ensures LevelRule(nodes, edges, expanded, full, v) {
      FinishNode(nodes, edges, expanded, levels, v);
    }
  }

  lemma FinishNode(nodes: set<NodeId>, edges: set<Edge>, expanded: set<NodeId>, levels: map<NodeId, nat>, v: NodeId)
    requires LevelInv(nodes, edges, expanded, levels)
    requires forall e :: e in edges ==> e.1 != Root
    requires v in nodes
    ensures LevelRule(nodes, edges, expanded, WithDefaults(nodes, levels), v)
  {
    var full := WithDefaults(nodes, levels);
    if v in levels {
      assert MidLevel(nodes, edges, expanded, levels, v);
      if HasSource(nodes, edges, v) {
        var u :| u in expanded && (u, v) in edges && u in levels && levels[u] + 1 == levels[v];
        assert full[u] + 1 == full[v];
      }
    } else {
      var s :| s in nodes && (s, v) in edges;
      assert (s, v).1 != Root;
    }
  }
}
