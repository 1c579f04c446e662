// The concept graph: reachability along one kind of edge, and why the guard keeps
// it acyclic (src/taxonomy.rs, validate_edge_does_not_cycle).
module ConceptGraph {
  import opened Sets

  datatype Kind = Broader | Requires | ContrastsWith | Related

  datatype Edge = Edge(subject: string, kind: Kind, target: string)

  // nodes is a walk along edges of that kind.
  ghost predicate Walk(edges: set<Edge>, p: Kind, nodes: seq<string>) {
    nodes != [] && forall i :: 0 <= i < |nodes| - 1 ==> Edge(nodes[i], p, nodes[i + 1]) in edges
  }

  ghost predicate WalkFrom(edges: set<Edge>, p: Kind, nodes: seq<string>, a: string, b: string) {
    Walk(edges, p, nodes) && nodes[0] == a && nodes[|nodes| - 1] == b
  }

  ghost predicate Reaches(edges: set<Edge>, p: Kind, a: string, b: string) {
    exists nodes :: WalkFrom(edges, p, nodes, a, b)
  }

  ghost predicate Acyclic(edges: set<Edge>, p: Kind) {
    forall nodes :: Walk(edges, p, nodes) && |nodes| >= 2 ==> nodes[0] != nodes[|nodes| - 1]
  }

  lemma TailOfWalk(edges: set<Edge>, p: Kind, nodes: seq<string>)
    requires Walk(edges, p, nodes) && |nodes| >= 2
    ensures Walk(edges, p, nodes[1..])
  {
    var rest := nodes[1..];
    forall i | 0 <= i < |rest| - 1
      ensures Edge(rest[i], p, rest[i + 1]) in edges
    {
      assert rest[i] == nodes[i + 1] && rest[i + 1] == nodes[i + 2];
    }
  }

  lemma ReachesItself(edges: set<Edge>, p: Kind, a: string)
    ensures Reaches(edges, p, a, a)
  {
    assert WalkFrom(edges, p, [a], a, a);
  }

  lemma Joins(edges: set<Edge>, p: Kind, left: seq<string>, right: seq<string>, a: string, b: string, c: string)
    requires WalkFrom(edges, p, left, a, b) && WalkFrom(edges, p, right, b, c)
    ensures WalkFrom(edges, p, left + right[1..], a, c)
  {
    var all := left + right[1..];
    forall i | 0 <= i < |all| - 1
      ensures Edge(all[i], p, all[i + 1]) in edges
    {
      if i >= |left| - 1 {
        assert all[i] == right[i - (|left| - 1)] && all[i + 1] == right[i + 1 - (|left| - 1)];
      }
    }
  }

  lemma ReachesJoin(edges: set<Edge>, p: Kind, a: string, b: string, c: string)
    requires Reaches(edges, p, a, b) && Reaches(edges, p, b, c)
    ensures Reaches(edges, p, a, c)
  {
    var left :| WalkFrom(edges, p, left, a, b);
    var right :| WalkFrom(edges, p, right, b, c);
    Joins(edges, p, left, right, a, b, c);
  }

  lemma ReachesAlong(edges: set<Edge>, p: Kind, a: string, b: string)
    requires Edge(a, p, b) in edges
    ensures Reaches(edges, p, a, b)
  {
    assert WalkFrom(edges, p, [a, b], a, b);
  }

  // ----- the fixpoint

  function Successors(edges: set<Edge>, p: Kind, from: set<string>): set<string> {
    set e | e in edges && e.kind == p && e.subject in from :: e.target
  }

  ghost predicate Closed(edges: set<Edge>, p: Kind, found: set<string>) {
    forall e :: e in edges && e.kind == p && e.subject in found ==> e.target in found
  }

  lemma {:induction false} ClosedHoldsWalks(edges: set<Edge>, p: Kind, found: set<string>, nodes: seq<string>)
    requires Closed(edges, p, found) && Walk(edges, p, nodes) && nodes[0] in found
    ensures nodes[|nodes| - 1] in found
  {
    if |nodes| > 1 {
      var e := Edge(nodes[0], p, nodes[1]);
      assert e in edges && e.target in found;
      var rest := nodes[1..];
      TailOfWalk(edges, p, nodes);
      ClosedHoldsWalks(edges, p, found, rest);
    }
  }

  function Objects(edges: set<Edge>): set<string> {
    set e | e in edges :: e.target
  }

  // The recursive query: start, then everything one more edge away, until
  // nothing new is found. It finds exactly what start reaches.
  method Reachable(edges: set<Edge>, p: Kind, start: string) returns (found: set<string>)
    ensures forall n :: n in found <==> Reaches(edges, p, start, n)
  {
    found := {start};
    ReachesItself(edges, p, start);
    var grew := true;
    while grew
      invariant start in found && found <= Objects(edges) + {start}
      invariant forall n :: n in found ==> Reaches(edges, p, start, n)
      invariant !grew ==> Closed(edges, p, found)
      decreases |Objects(edges) + {start}| - |found|, grew
    {
      var next := Successors(edges, p, found) - found;
      forall n | n in next
        ensures Reaches(edges, p, start, n)
      {
        var e :| e in edges && e.kind == p && e.subject in found && e.target == n;
        ReachesAlong(edges, p, e.subject, n);
        ReachesJoin(edges, p, start, e.subject, n);
      }
      grew := next != {};
      if grew {
        Larger(found, next);
        SubsetSize(found + next, Objects(edges) + {start});
      }
      found := found + next;
    }
    forall n | Reaches(edges, p, start, n)
      ensures n in found
    {
      var nodes :| WalkFrom(edges, p, nodes, start, n);
      ClosedHoldsWalks(edges, p, found, nodes);
    }
  }

  lemma Larger(s: set<string>, more: set<string>)
    requires more != {} && s * more == {}
    ensures |s + more| > |s|
  {
    assert |s + more| == |s| + |more|;
  }

  // ----- the guard

  // A walk in the larger graph avoids the new edge or passes through it.
  lemma {:induction false} WalkWithNewEdge(edges: set<Edge>, e: Edge, nodes: seq<string>, a: string, b: string)
    requires WalkFrom(edges + {e}, e.kind, nodes, a, b)
    ensures Reaches(edges, e.kind, a, b)
         || (Reaches(edges, e.kind, a, e.subject) && Reaches(edges, e.kind, e.target, b))
  {
    var p := e.kind;
    if |nodes| == 1 {
      ReachesItself(edges, p, a);
    } else {
      var rest := nodes[1..];
      TailOfWalk(edges + {e}, p, nodes);
      assert Edge(nodes[0], p, nodes[1]) in edges + {e};
      WalkWithNewEdge(edges, e, rest, nodes[1], b);
      if Edge(a, p, nodes[1]) in edges {
        ReachesAlong(edges, p, a, nodes[1]);
        if Reaches(edges, p, nodes[1], b) {
          ReachesJoin(edges, p, a, nodes[1], b);
        } else {
          ReachesJoin(edges, p, a, nodes[1], e.subject);
        }
      } else {
        ReachesItself(edges, p, a);
      }
    }
  }

  lemma ClosingEdge(edges: set<Edge>, e: Edge)
    requires Reaches(edges, e.kind, e.target, e.subject)
    ensures !Acyclic(edges + {e}, e.kind)
  {
    var nodes :| WalkFrom(edges, e.kind, nodes, e.target, e.subject);
    var cycle := [e.subject] + nodes;
    forall i | 0 <= i < |cycle| - 1
      ensures Edge(cycle[i], e.kind, cycle[i + 1]) in edges + {e}
    {
      if i > 0 {
        assert cycle[i] == nodes[i - 1] && cycle[i + 1] == nodes[i];
      }
    }
    assert Walk(edges + {e}, e.kind, cycle);
  }

  lemma SafeEdge(edges: set<Edge>, e: Edge, nodes: seq<string>)
    requires Acyclic(edges, e.kind) && Walk(edges + {e}, e.kind, nodes) && |nodes| >= 2
    requires nodes[0] == nodes[|nodes| - 1]
    ensures Reaches(edges, e.kind, e.target, e.subject)
  {
    var p, v, w := e.kind, nodes[0], nodes[1];
    var rest := nodes[1..];
    TailOfWalk(edges + {e}, p, nodes);
    assert Edge(nodes[0], p, nodes[1]) in edges + {e};
    WalkWithNewEdge(edges, e, rest, w, v);
    if Edge(v, p, w) in edges {
      ReachesAlong(edges, p, v, w);
      if Reaches(edges, p, w, v) {
        var back :| WalkFrom(edges, p, back, w, v);
        Joins(edges, p, [v, w], back, v, w, v);
        assert false;
      } else {
        ReachesJoin(edges, p, e.target, v, w);
        ReachesJoin(edges, p, e.target, w, e.subject);
      }
    }
  }

  // The guard is exact: adding the edge keeps the graph acyclic precisely when
  // the object does not already reach the subject.
  lemma GuardIsExact(edges: set<Edge>, e: Edge)
    requires Acyclic(edges, e.kind)
    ensures Acyclic(edges + {e}, e.kind) <==> !Reaches(edges, e.kind, e.target, e.subject)
  {
    if Reaches(edges, e.kind, e.target, e.subject) {
      ClosingEdge(edges, e);
    } else {
      forall nodes | Walk(edges + {e}, e.kind, nodes) && |nodes| >= 2
        ensures nodes[0] != nodes[|nodes| - 1]
      {
        if nodes[0] == nodes[|nodes| - 1] {
          SafeEdge(edges, e, nodes);
        }
      }
    }
  }

  lemma OtherPredicatesKept(edges: set<Edge>, e: Edge, p: Kind)
    requires Acyclic(edges, p) && e.kind != p
    ensures Acyclic(edges + {e}, p)
  {
    forall nodes | Walk(edges + {e}, p, nodes) && |nodes| >= 2
      ensures nodes[0] != nodes[|nodes| - 1]
    {
      assert Walk(edges, p, nodes);
    }
  }

  // Fewer edges of the kind, fewer cycles.
  lemma FewerEdges(small: set<Edge>, large: set<Edge>, p: Kind)
    requires Acyclic(large, p) && forall e :: e in small && e.kind == p ==> e in large
    ensures Acyclic(small, p)
  {
    forall nodes | Walk(small, p, nodes) && |nodes| >= 2
      ensures nodes[0] != nodes[|nodes| - 1]
    {
      assert Walk(large, p, nodes);
    }
  }

  lemma NoEdgesNoCycle(edges: set<Edge>, p: Kind)
    requires edges == {}
    ensures Acyclic(edges, p)
  {
    forall nodes: seq<string>
      ensures |nodes| >= 2 ==> !Walk(edges, p, nodes)
    {
      if |nodes| >= 2 {
        assert Edge(nodes[0], p, nodes[0 + 1]) !in edges;
      }
    }
  }
}
