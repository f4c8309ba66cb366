// Manual parents and their cycle check (backend/app/repositories/endpoint_repo.py).

module ParentForest {
  import opened Options
  import opened Graphs

  /** The manual parent of each endpoint that has one. */
  type Parents = map<EndpointId, EndpointId>

  /** The n-th ancestor of x, or nothing when the chain of parents is shorter. */
  function Climb(parents: Parents, x: EndpointId, n: nat): Option<EndpointId>
    decreases n
  {
    if n == 0 then Some(x)
    else if x in parents then Climb(parents, parents[x], n - 1)
    else None
  }

  /** The chain of parents of x ends. */
  ghost predicate Rooted(parents: Parents, x: EndpointId) {
    exists n: nat :: Climb(parents, x, n) == None
  }

  ghost predicate Forest(parents: Parents) {
    forall x :: Rooted(parents, x)
  }

  lemma {:induction false} ClimbAdd(parents: Parents, x: EndpointId, m: nat, n: nat)
    ensures Climb(parents, x, m).Some? ==> Climb(parents, x, m + n) == Climb(parents, Climb(parents, x, m).value, n)
    ensures Climb(parents, x, m).None? ==> Climb(parents, x, m + n).None?
    decreases m
  {
    if m > 0 && x in parents {
      ClimbAdd(parents, parents[x], m - 1, n);
    }
  }

  /** A chain that comes back to where it was never ends. */
  lemma {:induction false} LoopNeverEnds(parents: Parents, y: EndpointId, period: nat, n: nat)
    requires period > 0 && Climb(parents, y, period) == Some(y)
    ensures Climb(parents, y, n).Some?
    decreases n
  {
    if n < period {
      ClimbAdd(parents, y, n, period - n);
    } else {
      ClimbAdd(parents, y, period, n - period);
      LoopNeverEnds(parents, y, period, n - period);
    }
  }

  lemma LoopAheadNotRooted(parents: Parents, x: EndpointId, m: nat, period: nat)
    requires period > 0
    requires Climb(parents, x, m).Some? && Climb(parents, x, m + period) == Climb(parents, x, m)
    ensures !Rooted(parents, x)
  {
    var y := Climb(parents, x, m).value;
    ClimbAdd(parents, x, m, period);
    forall n: nat ensures Climb(parents, x, n).Some? {
      LoopNeverEnds(parents, y, period, n);
      ClimbAdd(parents, x, m, n);
      ClimbAdd(parents, x, n, m);
    }
  }

  /** While the old chain avoids e, redirecting e changes nothing on it. */
  lemma {:induction false} ClimbAvoiding(parents: Parents, e: EndpointId, p: EndpointId, x: EndpointId, n: nat)
    requires forall i: nat :: i < n ==> Climb(parents, x, i) != Some(e)
    ensures Climb(parents[e := p], x, n) == Climb(parents, x, n)
    decreases n
  {
    if n > 0 && x in parents {
      assert Climb(parents, x, 0) != Some(e);
      forall i: nat | i < n - 1 ensures Climb(parents, parents[x], i) != Some(e) {
        assert Climb(parents, x, i + 1) == Climb(parents, parents[x], i);
      }
      ClimbAvoiding(parents, e, p, parents[x], n - 1);
    } else if n > 0 {
      assert Climb(parents, x, 0) != Some(e);
    }
  }

  /** The check answers exactly whether the new link would leave the endpoint on an endless
      chain, on every parent map, and always terminates. */
  method DetectParentCycle(parents: Parents, e: EndpointId, parent: Option<EndpointId>) returns (cyclic: bool)
    ensures parent.None? ==> !cyclic
    ensures parent.Some? ==> (cyclic <==> !Rooted(parents[e := parent.value], e))
  {
    if parent.None? {
      return false;
    }
    ghost var linked := parents[e := parent.value];
    if e == parent.value {
      assert Climb(linked, e, 1) == Climb(linked, e, 0);
      LoopAheadNotRooted(linked, e, 0, 1);
      return true;
    }
    var curr := parent;
    var visited := {e};
    ghost var steps: nat := 0;
    while curr.Some?
      invariant curr == Climb(parents, parent.value, steps) == Climb(linked, e, steps + 1)
      invariant forall i: nat :: i < steps ==> Climb(parents, parent.value, i) != Some(e)
      invariant forall v :: v in visited <==>
                v == e || exists i: nat :: i < steps && Climb(parents, parent.value, i) == Some(v)
      decreases parents.Keys - visited, curr.Some?
    {
      if curr.value in visited {
        EndlessFrom(parents, linked, e, parent.value, curr.value, steps);
        return true;
      }
      visited := visited + {curr.value};
      ghost var before := curr.value;
      curr := if curr.value in parents then Some(parents[curr.value]) else None;
      ClimbAdd(parents, parent.value, steps, 1);
      assert Climb(parents, before, 1) == curr;
      steps := steps + 1;
      ClimbAvoiding(parents, e, parent.value, parent.value, steps);
    }
    return false;
  }

  lemma EndlessFrom(parents: Parents, linked: Parents, e: EndpointId, p: EndpointId, curr: EndpointId, steps: nat)
    requires linked == parents[e := p]
    requires Climb(linked, e, steps + 1) == Some(curr)
    requires forall i: nat :: i < steps ==> Climb(parents, p, i) != Some(e)
    requires curr == e || exists i: nat :: i < steps && Climb(parents, p, i) == Some(curr)
    ensures !Rooted(linked, e)
  {
    if curr == e {
      LoopAheadNotRooted(linked, e, 0, steps + 1);
    } else {
      var i: nat :| i < steps && Climb(parents, p, i) == Some(curr);
      ClimbAvoiding(parents, e, p, p, i);
      assert Climb(linked, e, i + 1) == Climb(linked, p, i);
      LoopAheadNotRooted(linked, e, i + 1, steps - i);
    }
  }

  // ------------------------------------------------------------------
  // Runs of parent changes
  // ------------------------------------------------------------------

  datatype ParentChange = ParentChange(endpoint: EndpointId, parent: EndpointId)

  /** A PATCH of the manual parent: refused when the check reports a cycle. */
  method PatchParent(parents: Parents, change: ParentChange) returns (parents': Parents)
    ensures parents' == Patched(parents, change)
    ensures var linked := parents[change.endpoint := change.parent];
            parents' == if Rooted(linked, change.endpoint) then linked else parents
  {
    var cyclic := DetectParentCycle(parents, change.endpoint, Some(change.parent));
    parents' := if cyclic then parents else parents[change.endpoint := change.parent];
  }

  ghost function Patched(parents: Parents, change: ParentChange): Parents {
    var linked := parents[change.endpoint := change.parent];
    if Rooted(linked, change.endpoint) then linked else parents
  }

  ghost function PatchedAll(parents: Parents, changes: seq<ParentChange>): Parents
    decreases |changes|
  {
    if changes == [] then parents else PatchedAll(Patched(parents, changes[0]), changes[1..])
  }

  lemma PatchedForest(parents: Parents, change: ParentChange)
    requires Forest(parents)
    ensures Forest(Patched(parents, change))
  {
    var e, p := change.endpoint, change.parent;
    var linked := parents[e := p];
    if Rooted(linked, e) {
      forall x ensures Rooted(linked, x) {
        assert Rooted(parents, x);
        var n: nat :| Climb(parents, x, n) == None;
        if i: nat :| i < n && Climb(parents, x, i) == Some(e) {
          RootedThrough(parents, e, p, x, i);
        } else {
          ClimbAvoiding(parents, e, p, x, n);
        }
      }
    }
  }

  /** A chain that used to pass through e now follows the new chain of e. */
  lemma {:induction false} RootedThrough(parents: Parents, e: EndpointId, p: EndpointId, x: EndpointId, i: nat)
    requires Rooted(parents[e := p], e) && Climb(parents, x, i) == Some(e)
    ensures Rooted(parents[e := p], x)
    decreases i
  {
    var linked := parents[e := p];
    if x != e {
      assert i > 0;
      RootedThrough(parents, e, p, parents[x], i - 1);
      var n: nat :| Climb(linked, parents[x], n) == None;
      assert Climb(linked, x, n + 1) == None;
    }
  }

  /** Any run of checked parent changes keeps the manual parents acyclic. */
  lemma {:induction false} RunKeepsForest(parents: Parents, changes: seq<ParentChange>)
    requires Forest(parents)
    ensures Forest(PatchedAll(parents, changes))
    decreases |changes|
  {
    if changes != [] {
      PatchedForest(parents, changes[0]);
      RunKeepsForest(Patched(parents, changes[0]), changes[1..]);
    }
  }

  // ------------------------------------------------------------------
  // Heights
  // ------------------------------------------------------------------

  /** The number of steps after which the chain of x has ended. */
  ghost function Height(parents: Parents, x: EndpointId): (h: nat)
    requires Rooted(parents, x)
    ensures Climb(parents, x, h) == None
    ensures h > 0 && Climb(parents, x, h - 1).Some?
  {
    var n: nat :| Climb(parents, x, n) == None;
    Least(parents, x, n)
  }

  ghost function Least(parents: Parents, x: EndpointId, n: nat): (h: nat)
    requires Climb(parents, x, n) == None
    ensures Climb(parents, x, h) == None
    ensures h > 0 && Climb(parents, x, h - 1).Some?
    decreases n
  {
    if Climb(parents, x, n - 1) == None then Least(parents, x, n - 1) else n
  }

  /** Every child is exactly one step higher than its parent. */
  lemma ChildHigher(parents: Parents, x: EndpointId)
    requires Rooted(parents, x) && x in parents
    ensures Rooted(parents, parents[x])
    ensures Height(parents, x) == Height(parents, parents[x]) + 1
  {
    var h := Height(parents, x);
    assert Climb(parents, parents[x], h - 1) == None;
    var k := Height(parents, parents[x]);
    if k < h - 1 {
      ClimbAdd(parents, parents[x], k, h - 2 - k);
    } else if h - 1 < k {
      ClimbAdd(parents, parents[x], h - 1, k - h);
    }
  }
}
