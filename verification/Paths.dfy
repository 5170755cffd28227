/** Directed paths over a finite set of edges, and when adding one edge closes a cycle. */
module Paths {

  type Id = nat

  type Edges = set<(Id, Id)>

  predicate IsPath(edges: Edges, path: seq<Id>) {
    path != [] && forall i :: 0 <= i < |path| - 1 ==> (path[i], path[i + 1]) in edges
  }

  predicate Joins(edges: Edges, path: seq<Id>, a: Id, b: Id) {
    IsPath(edges, path) && path[0] == a && path[|path| - 1] == b
  }

  ghost predicate Reaches(edges: Edges, a: Id, b: Id) {
    exists path :: Joins(edges, path, a, b)
  }

  /** There is a cycle through the node: a path back to it of at least one edge. */
  ghost predicate OnCycle(edges: Edges, a: Id) {
    exists next :: (a, next) in edges && Reaches(edges, next, a)
  }

  ghost predicate Acyclic(edges: Edges) {
    forall a :: !OnCycle(edges, a)
  }

  lemma ReachesSelf(edges: Edges, a: Id)
    ensures Reaches(edges, a, a)
  {
    assert Joins(edges, [a], a, a);
  }

  lemma ReachesNext(edges: Edges, a: Id, b: Id, c: Id)
    requires Reaches(edges, a, b) && (b, c) in edges
    ensures Reaches(edges, a, c)
  {
    var path :| Joins(edges, path, a, b);
    assert Joins(edges, path + [c], a, c);
  }

  lemma ReachesFrom(edges: Edges, a: Id, b: Id, c: Id)
    requires (a, b) in edges && Reaches(edges, b, c)
    ensures Reaches(edges, a, c)
  {
    var path :| Joins(edges, path, b, c);
    assert Joins(edges, [a] + path, a, c);
  }

  lemma ReachesThrough(edges: Edges, a: Id, b: Id, c: Id)
    requires Reaches(edges, a, b) && Reaches(edges, b, c)
    ensures Reaches(edges, a, c)
  {
    var p :| Joins(edges, p, a, b);
    var q :| Joins(edges, q, b, c);
    var path := p + q[1..];
    forall i | 0 <= i < |path| - 1 ensures (path[i], path[i + 1]) in edges {
      if i < |p| - 1 {
        assert (p[i], p[i + 1]) in edges;
      } else {
        var j := i - (|p| - 1);
        assert (q[j], q[j + 1]) in edges;
      }
    }
    assert Joins(edges, path, a, c);
  }

  lemma MoreEdgesReach(edges: Edges, more: Edges, a: Id, b: Id)
    requires edges <= more && Reaches(edges, a, b)
    ensures Reaches(more, a, b)
  {
    var path :| Joins(edges, path, a, b);
    assert Joins(more, path, a, b);
  }

  lemma FewerEdgesAcyclic(edges: Edges, fewer: Edges)
    requires fewer <= edges && Acyclic(edges)
    ensures Acyclic(fewer)
  {
    forall a: Id ensures !OnCycle(fewer, a) {
      assert !OnCycle(edges, a);
      if OnCycle(fewer, a) {
        var next :| (a, next) in fewer && Reaches(fewer, next, a);
        MoreEdgesReach(fewer, edges, next, a);
      }
    }
  }

  /** A path that may use the new edge either avoids it, or gets to its source and leaves from its target. */
  lemma {:induction false} UsesNewEdge(edges: Edges, s: Id, t: Id, path: seq<Id>, a: Id, b: Id)
    requires Joins(edges + {(s, t)}, path, a, b)
    ensures Reaches(edges, a, b) || (Reaches(edges, a, s) && Reaches(edges, t, b))
  {
    if |path| == 1 {
      ReachesSelf(edges, a);
    } else {
      var next := path[1];
      assert (path[0], path[1]) in edges + {(s, t)};
      assert Joins(edges + {(s, t)}, path[1..], next, b);
      UsesNewEdge(edges, s, t, path[1..], next, b);
      if (a, next) in edges {
        if Reaches(edges, next, b) {
          ReachesFrom(edges, a, next, b);
        } else {
          ReachesFrom(edges, a, next, s);
        }
      } else {
        ReachesSelf(edges, s);
      }
    }
  }

  /** Refusing exactly the edges whose target already reaches their source is what keeps a graph acyclic. */
  lemma AddingKeepsAcyclicIff(edges: Edges, s: Id, t: Id)
    requires Acyclic(edges)
    ensures Acyclic(edges + {(s, t)}) <==> !Reaches(edges, t, s)
  {
    var more := edges + {(s, t)};
    if Reaches(edges, t, s) {
      MoreEdgesReach(edges, more, t, s);
      assert OnCycle(more, s);
    } else {
      forall a: Id ensures !OnCycle(more, a) {
        if OnCycle(more, a) {
          NoNewCycle(edges, s, t, a);
        }
      }
    }
  }

  lemma NoNewCycle(edges: Edges, s: Id, t: Id, a: Id)
    requires Acyclic(edges) && OnCycle(edges + {(s, t)}, a)
    ensures Reaches(edges, t, s)
  {
    var more := edges + {(s, t)};
    var next :| (a, next) in more && Reaches(more, next, a);
    var path :| Joins(more, path, next, a);
    UsesNewEdge(edges, s, t, path, next, a);
    if (a, next) in edges {
      assert !OnCycle(edges, a);
      ReachesFrom(edges, a, next, s);
      ReachesThrough(edges, t, a, s);
    }
  }

  lemma {:induction false} ClosedHoldsReachable(edges: Edges, closed: set<Id>, path: seq<Id>, a: Id, b: Id)
    requires a in closed && forall e :: e in edges && e.0 in closed ==> e.1 in closed
    requires Joins(edges, path, a, b)
    ensures b in closed
  {
    if |path| > 1 {
      assert (path[0], path[1]) in edges;
      assert Joins(edges, path[1..], path[1], b);
      ClosedHoldsReachable(edges, closed, path[1..], path[1], b);
    }
  }
}
