// The three-colour depth-first search that rejects cyclic proposal
// dependencies (src/audit.rs, ensure_acyclic).
module DependencyGraph {

  type Graph = map<string, seq<string>>

  // Every edge ends at a node of the graph; the source filters the rest away.
  predicate Closed(g: Graph) {
    forall n, i :: n in g && 0 <= i < |g[n]| ==> g[n][i] in g
  }

  predicate IsPath(g: Graph, p: seq<string>) {
    && |p| > 0
    && (forall i :: 0 <= i < |p| ==> p[i] in g)
    && (forall i :: 0 <= i < |p| - 1 ==> p[i + 1] in g[p[i]])
  }

  // A walk along at least one edge that returns to where it began.
  predicate IsCycle(g: Graph, p: seq<string>) {
    IsPath(g, p) && |p| > 1 && p[0] == p[|p| - 1]
  }

  ghost predicate Acyclic(g: Graph) {
    forall p :: !IsCycle(g, p)
  }

  // A finishing order: each node is listed once, after everything it depends on.
  predicate Finished(g: Graph, order: seq<string>) {
    && (forall i, j :: 0 <= i < j < |order| ==> order[i] != order[j])
    && (forall i :: 0 <= i < |order| ==> order[i] in g)
    && (forall i, k :: 0 <= i < |order| && 0 <= k < |g[order[i]]| ==> g[order[i]][k] in order[..i])
  }

  predicate TopologicalOrder(g: Graph, order: seq<string>) {
    Finished(g, order) && forall n :: n in g ==> n in order
  }

  function Position(order: seq<string>, n: string): (k: nat)
    requires n in order
    ensures k < |order| && order[k] == n
  {
    if order[0] == n then 0 else 1 + Position(order[1..], n)
  }

  // Along a path, positions in a topological order strictly fall.
  lemma {:induction false} PathDescends(g: Graph, order: seq<string>, p: seq<string>)
    requires TopologicalOrder(g, order) && IsPath(g, p) && |p| > 1
    ensures p[0] in order && p[|p| - 1] in order
    ensures Position(order, p[|p| - 1]) < Position(order, p[0])
  {
    var i := Position(order, p[0]);
    var k :| 0 <= k < |g[p[0]]| && g[p[0]][k] == p[1];
    assert g[order[i]][k] in order[..i];
    var j :| 0 <= j < i && order[j] == p[1];
    PositionUnique(order, p[1], j);
    if |p| > 2 {
      var q := p[1..];
      forall m | 0 <= m < |q| - 1
        ensures q[m + 1] in g[q[m]]
      {
        assert p[m + 1 + 1] in g[p[m + 1]];
      }
      PathDescends(g, order, q);
    }
  }

  lemma {:induction false} PositionUnique(order: seq<string>, n: string, j: nat)
    requires j < |order| && order[j] == n
    requires forall a, b :: 0 <= a < b < |order| ==> order[a] != order[b]
    ensures Position(order, n) == j
  {
  }

  lemma TopologicalOrderIsAcyclic(g: Graph, order: seq<string>)
    requires TopologicalOrder(g, order)
    ensures Acyclic(g)
  {
    forall p | IsCycle(g, p)
      ensures false
    {
      PathDescends(g, order, p);
    }
  }

  datatype Verdict = Ordered | CycleAt(node: string)

  // The mark table: 1 while a node is on the recursion stack, 2 once finished.
  type Marks = map<string, int>

  ghost predicate Consistent(g: Graph, marks: Marks, stack: seq<string>, order: seq<string>) {
    && (forall n :: n in marks <==> n in stack || n in order)
    && (forall n :: n in stack ==> n in g && n !in order && marks[n] == 1)
    && (forall n :: n in order ==> marks[n] == 2)
    && (stack == [] || IsPath(g, stack))
    && Finished(g, order)
  }

  method Visit(g: Graph, node: string, marks0: Marks, ghost stack: seq<string>, ghost order0: seq<string>)
    returns (verdict: Verdict, marks: Marks, ghost order: seq<string>, ghost cycle: seq<string>)
    requires Closed(g) && node in g
    requires Consistent(g, marks0, stack, order0)
    requires stack == [] || node in g[stack[|stack| - 1]]
    ensures verdict.Ordered? ==> Consistent(g, marks, stack, order) && order0 <= order && node in order
    ensures verdict.CycleAt? ==> IsCycle(g, cycle) && cycle[0] == verdict.node
    decreases g.Keys - marks0.Keys
  {
    marks, order, cycle := marks0, order0, [];
    if node in marks && marks[node] == 1 {
      // The node is still open, so the stack from there closes a cycle.
      ghost var i :| 0 <= i < |stack| && stack[i] == node;
      cycle := stack[i..] + [node];
      CycleClosed(g, stack, i, node);
      return CycleAt(node), marks, order, cycle;
    }
    if node in marks && marks[node] == 2 {
      return Ordered, marks, order, cycle;
    }
    marks := marks[node := 1];
    ghost var deeper := stack + [node];
    OpenNode(g, marks0, marks, stack, order, node);
    var k := 0;
    while k < |g[node]|
      invariant 0 <= k <= |g[node]|
      invariant Consistent(g, marks, deeper, order)
      invariant order0 <= order
      invariant forall m :: 0 <= m < k ==> g[node][m] in order
    {
      var next := g[node][k];
      assert deeper[|deeper| - 1] == node;
      VisitShrinks(g, marks0, marks, stack, order0, deeper, order, node);
      ghost var before := order;
      verdict, marks, order, cycle := Visit(g, next, marks, deeper, order);
      if verdict.CycleAt? {
        return;
      }
      k := k + 1;
    }
    ghost var finished := order;
    order := order + [node];
    marks := marks[node := 2];
    FinishNode(g, deeper, finished, node);
    return Ordered, marks, order, cycle;
  }

  lemma OpenNode(g: Graph, marks0: Marks, marks: Marks, stack: seq<string>, order: seq<string>, node: string)
    requires Consistent(g, marks0, stack, order) && node in g && node !in marks0
    requires stack == [] || node in g[stack[|stack| - 1]]
    requires marks == marks0[node := 1]
    ensures Consistent(g, marks, stack + [node], order) && node !in order
  {
  }

  lemma CycleClosed(g: Graph, stack: seq<string>, i: nat, node: string)
    requires i < |stack| && stack[i] == node && IsPath(g, stack) && node in g[stack[|stack| - 1]]
    ensures IsCycle(g, stack[i..] + [node])
  {
    var c := stack[i..] + [node];
    forall m | 0 <= m < |c| - 1
      ensures c[m + 1] in g[c[m]]
    {
      assert c[m] == stack[i + m];
    }
  }

  lemma VisitShrinks(g: Graph, marks0: Marks, marks: Marks, stack: seq<string>, order0: seq<string>,
                     deeper: seq<string>, order: seq<string>, node: string)
    requires Consistent(g, marks0, stack, order0) && Consistent(g, marks, deeper, order)
    requires deeper == stack + [node] && order0 <= order && node in g && node !in marks0
    ensures g.Keys - marks.Keys < g.Keys - marks0.Keys
  {
    forall n | n in marks0
      ensures n in marks
    {
      if n in order0 {
        assert n in order;
      } else {
        assert n in deeper;
      }
    }
    assert node in deeper;
    assert node in g.Keys - marks0.Keys && node !in g.Keys - marks.Keys;
  }

  lemma FinishNode(g: Graph, deeper: seq<string>, order: seq<string>, node: string)
    requires Finished(g, order) && node in g && node !in order
    requires forall m :: 0 <= m < |g[node]| ==> g[node][m] in order
    ensures Finished(g, order + [node])
  {
    var o := order + [node];
    forall i, k | 0 <= i < |o| && 0 <= k < |g[o[i]]|
      ensures g[o[i]][k] in o[..i]
    {
      if i < |order| {
        assert o[..i] == order[..i];
      } else {
        assert o[..i] == order;
      }
    }
  }

  // Nodes are taken in any order, as a hash set yields them.  The verdict is
  // exact: success comes with a topological order of every node, and a refusal
  // with a cycle through the reported node.
  method EnsureAcyclic(g: Graph) returns (verdict: Verdict, ghost order: seq<string>, ghost cycle: seq<string>)
    requires Closed(g)
    ensures verdict.Ordered? <==> Acyclic(g)
    ensures verdict.Ordered? ==> TopologicalOrder(g, order)
    ensures verdict.CycleAt? ==> IsCycle(g, cycle) && cycle[0] == verdict.node
  {
    var keys := g.Keys;
    var marks: Marks := map[];
    order, cycle := [], [];
    while keys != {}
      invariant keys <= g.Keys
      invariant Consistent(g, marks, [], order)
      invariant forall n :: n in g && n !in keys ==> n in order
    {
      var key :| key in keys;
      verdict, marks, order, cycle := Visit(g, key, marks, [], order);
      if verdict.CycleAt? {
        return;
      }
      keys := keys - {key};
    }
    TopologicalOrderIsAcyclic(g, order);
    verdict := Ordered;
  }
}
