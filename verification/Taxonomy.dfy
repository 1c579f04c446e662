// Growing the concept graph: keys, canonical pairs and guarded edges, one
// upsert at a time (src/db.rs, upsert_concept_tx; src/taxonomy.rs).
module Taxonomy {
  import opened Outcomes
  import opened Texts
  import opened ConceptGraph

  // ----- keys

  predicate KeyChar(c: char) {
    'a' <= c <= 'z' || '0' <= c <= '9'
  }

  predicate Separator(c: char) {
    c == '.' || c == '_' || c == '-'
  }

  // Non-empty segments of lower-case letters and digits with single separators
  // between them.
  predicate Segmented(key: string) {
    && key != [] && KeyChar(key[0]) && KeyChar(key[|key| - 1])
    && (forall i :: 0 <= i < |key| ==> KeyChar(key[i]) || Separator(key[i]))
    && forall i :: 0 < i < |key| && Separator(key[i]) ==> KeyChar(key[i - 1])
  }

  predicate KeyOk(key: string) {
    1 <= |key| <= 160 && Segmented(key)
  }

  method ValidateConceptKey(key: string) returns (ok: bool)
    ensures ok <==> KeyOk(key)
  {
    if key == [] || |key| > 160 {
      return false;
    }
    var segmentIsEmpty := true;
    var i := 0;
    while i < |key|
      invariant 0 <= i <= |key|
      invariant forall k :: 0 <= k < i ==> KeyChar(key[k]) || Separator(key[k])
      invariant forall k :: 0 < k < i && Separator(key[k]) ==> KeyChar(key[k - 1])
      invariant i > 0 ==> KeyChar(key[0])
      invariant segmentIsEmpty <==> i == 0 || Separator(key[i - 1])
    {
      if KeyChar(key[i]) {
        segmentIsEmpty := false;
      } else if Separator(key[i]) && !segmentIsEmpty {
        segmentIsEmpty := true;
      } else {
        return false;
      }
      i := i + 1;
    }
    ok := !segmentIsEmpty;
  }

  // ----- canonical pairs

  datatype Pair = Pair(left: string, right: string)

  function CanonicalPair(left: string, right: string): Pair {
    if TextAtMost(left, right) then Pair(left, right) else Pair(right, left)
  }

  // The two orders of one pair are stored alike.
  lemma CanonicalPairIsSymmetric(a: string, b: string)
    ensures CanonicalPair(a, b) == CanonicalPair(b, a)
    ensures TextAtMost(CanonicalPair(a, b).left, CanonicalPair(a, b).right)
  {
    TextTotal(a, b);
    TextTotal(b, a);
  }

  // ----- upserts

  datatype Concept = Concept(scheme: string, title: string, active: bool)

  datatype Provenance = Curated | External | Inferred

  datatype EdgeInput = EdgeInput(other: string, kind: Kind, provenance: Provenance)

  // edges lists the broader parents, as curated broader edges, before the others.
  datatype Upsert = Upsert(key: string, scheme: string, title: string, active: Option<bool>, edges: seq<EdgeInput>)

  // primaries are the concepts some live target has as its primary one.
  datatype Graph = Graph(schemes: set<string>, concepts: map<string, Concept>, edges: map<Edge, Provenance>,
    primaries: set<string>)

  predicate Symmetric(kind: Kind) {
    kind == ContrastsWith || kind == Related
  }

  function EdgeFor(key: string, input: EdgeInput): Edge {
    if Symmetric(input.kind)
    then var pair := CanonicalPair(key, input.other); Edge(pair.left, input.kind, pair.right)
    else Edge(key, input.kind, input.other)
  }

  // The table refuses self edges and keeps the first row of a key; both without an error.
  function Inserted(edges: map<Edge, Provenance>, e: Edge, provenance: Provenance): map<Edge, Provenance> {
    if e.subject == e.target || e in edges then edges else edges[e := provenance]
  }

  ghost predicate Refused(edges: map<Edge, Provenance>, e: Edge) {
    !Symmetric(e.kind) && Reaches(edges.Keys, e.kind, e.target, e.subject)
  }

  ghost function InsertEdges(g: Graph, key: string, inputs: seq<EdgeInput>): Option<Graph> {
    if inputs == [] then Some(g)
    else
      var earlier := InsertEdges(g, key, inputs[..|inputs| - 1]);
      var input := inputs[|inputs| - 1];
      if earlier.None? then None
      else if !KeyOk(input.other) || input.other !in g.concepts then None
      else
        var e := EdgeFor(key, input);
        if Refused(earlier.value.edges, e) then None
        else Some(earlier.value.(edges := Inserted(earlier.value.edges, e, input.provenance)))
  }

  predicate HeadOk(g: Graph, x: Upsert) {
    && KeyOk(x.key) && x.scheme in g.schemes && TextOk(x.title, 500) && |x.edges| <= 20
    && (x.key in g.concepts && x.active == Some(false) ==> x.key !in g.primaries)
  }

  function WithConcept(g: Graph, x: Upsert): Graph {
    g.(concepts := g.concepts[x.key := Concept(x.scheme, x.title, x.active != Some(false))])
  }

  // All or nothing.
  ghost function Upserted(g: Graph, x: Upsert): Option<Graph> {
    if !HeadOk(g, x) then None else InsertEdges(WithConcept(g, x), x.key, x.edges)
  }

  ghost function Next(g: Graph, x: Upsert): Graph {
    var u := Upserted(g, x);
    if u.Some? then u.value else g
  }

  ghost function Run(g: Graph, xs: seq<Upsert>): Graph
    decreases |xs|
  {
    if xs == [] then g else Run(Next(g, xs[0]), xs[1..])
  }

  // ----- what every upsert keeps

  ghost predicate EdgeOk(g: Graph, e: Edge) {
    && e.subject in g.concepts && e.target in g.concepts && e.subject != e.target
    && (Symmetric(e.kind) ==> TextAtMost(e.subject, e.target))
  }

  // The hierarchies are acyclic; edges join distinct concepts, and a symmetric
  // pair is stored in one direction only.
  ghost predicate Inv(g: Graph) {
    && Acyclic(g.edges.Keys, Broader) && Acyclic(g.edges.Keys, Requires)
    && forall e :: e in g.edges ==> EdgeOk(g, e)
  }

  lemma InsertKeepsHierarchy(edges: map<Edge, Provenance>, e: Edge, provenance: Provenance, kind: Kind)
    requires !Symmetric(kind) && Acyclic(edges.Keys, kind) && !Refused(edges, e)
    ensures Acyclic(Inserted(edges, e, provenance).Keys, kind)
  {
    if e.subject != e.target && e !in edges {
      assert Inserted(edges, e, provenance).Keys == edges.Keys + {e};
      if e.kind == kind {
        GuardIsExact(edges.Keys, e);
      } else {
        OtherPredicatesKept(edges.Keys, e, kind);
      }
    }
  }

  lemma EdgeForIsOk(g: Graph, key: string, input: EdgeInput)
    requires key in g.concepts && input.other in g.concepts
    ensures var e := EdgeFor(key, input); e.subject != e.target ==> EdgeOk(g, e)
  {
    CanonicalPairIsSymmetric(key, input.other);
  }

  lemma {:induction false} EdgesKeepInv(g: Graph, key: string, inputs: seq<EdgeInput>)
    requires Inv(g) && key in g.concepts && InsertEdges(g, key, inputs).Some?
    ensures Inv(InsertEdges(g, key, inputs).value)
    ensures InsertEdges(g, key, inputs).value == g.(edges := InsertEdges(g, key, inputs).value.edges)
    ensures forall e :: e in g.edges ==> e in InsertEdges(g, key, inputs).value.edges
  {
    if inputs != [] {
      EdgesKeepInv(g, key, inputs[..|inputs| - 1]);
      var earlier, input := InsertEdges(g, key, inputs[..|inputs| - 1]).value, inputs[|inputs| - 1];
      var e := EdgeFor(key, input);
      EdgeForIsOk(earlier, key, input);
      InsertKeepsHierarchy(earlier.edges, e, input.provenance, Broader);
      InsertKeepsHierarchy(earlier.edges, e, input.provenance, Requires);
    }
  }

  lemma UpsertKeepsInv(g: Graph, x: Upsert)
    requires Inv(g)
    ensures Inv(Next(g, x))
  {
    if Upserted(g, x).Some? {
      var h := WithConcept(g, x);
      forall e | e in h.edges
        ensures EdgeOk(h, e)
      {
        assert EdgeOk(g, e);
      }
      EdgesKeepInv(h, x.key, x.edges);
    }
  }

  // Every run of upserts keeps both hierarchies acyclic.
  lemma {:induction false} RunKeepsInv(g: Graph, xs: seq<Upsert>)
    requires Inv(g)
    ensures Inv(Run(g, xs))
    decreases |xs|
  {
    if xs != [] {
      UpsertKeepsInv(g, xs[0]);
      RunKeepsInv(Next(g, xs[0]), xs[1..]);
    }
  }

  // ----- which upserts are refused

  predicate AllKnown(g: Graph, inputs: seq<EdgeInput>) {
    forall i :: 0 <= i < |inputs| ==> KeyOk(inputs[i].other) && inputs[i].other in g.concepts
  }

  function EdgesOf(key: string, inputs: seq<EdgeInput>): set<Edge> {
    set i | 0 <= i < |inputs| :: EdgeFor(key, inputs[i])
  }

  ghost predicate Hierarchies(edges: set<Edge>) {
    Acyclic(edges, Broader) && Acyclic(edges, Requires)
  }

  // The same edges in the two hierarchies.
  ghost predicate SameHierarchies(a: set<Edge>, b: set<Edge>) {
    forall e: Edge :: !Symmetric(e.kind) ==> (e in a <==> e in b)
  }

  lemma HierarchiesAgree(a: set<Edge>, b: set<Edge>)
    requires SameHierarchies(a, b)
    ensures Hierarchies(a) <==> Hierarchies(b)
  {
    if Hierarchies(a) {
      FewerEdges(b, a, Broader);
      FewerEdges(b, a, Requires);
    }
    if Hierarchies(b) {
      FewerEdges(a, b, Broader);
      FewerEdges(a, b, Requires);
    }
  }

  lemma EdgesOfLast(key: string, inputs: seq<EdgeInput>)
    requires inputs != []
    ensures EdgesOf(key, inputs) == EdgesOf(key, inputs[..|inputs| - 1]) + {EdgeFor(key, inputs[|inputs| - 1])}
  {
    var init, last := inputs[..|inputs| - 1], inputs[|inputs| - 1];
    forall e | e in EdgesOf(key, inputs)
      ensures e in EdgesOf(key, init) + {EdgeFor(key, last)}
    {
      var i :| 0 <= i < |inputs| && EdgeFor(key, inputs[i]) == e;
      assert i < |init| ==> init[i] == inputs[i];
    }
    forall e | e in EdgesOf(key, init)
      ensures e in EdgesOf(key, inputs)
    {
      var i :| 0 <= i < |init| && EdgeFor(key, init[i]) == e;
      assert inputs[i] == init[i];
    }
  }

  // One more edge: the guard sees exactly the cycles it closes.
  lemma OneMoreEdge(edges: map<Edge, Provenance>, e: Edge, provenance: Provenance)
    requires Hierarchies(edges.Keys)
    ensures Refused(edges, e) <==> !Hierarchies(edges.Keys + {e})
    ensures !Refused(edges, e) ==> SameHierarchies(Inserted(edges, e, provenance).Keys, edges.Keys + {e})
  {
    if e.kind != Broader {
      OtherPredicatesKept(edges.Keys, e, Broader);
    }
    if e.kind != Requires {
      OtherPredicatesKept(edges.Keys, e, Requires);
    }
    if !Symmetric(e.kind) {
      GuardIsExact(edges.Keys, e);
      ReachesItself(edges.Keys, e.kind, e.subject);
    }
  }

  lemma OneMoreInput(edges: map<Edge, Provenance>, before: set<Edge>, e: Edge, provenance: Provenance)
    requires Hierarchies(edges.Keys) && SameHierarchies(edges.Keys, before)
    ensures Refused(edges, e) <==> !Hierarchies(before + {e})
    ensures !Refused(edges, e) ==> SameHierarchies(Inserted(edges, e, provenance).Keys, before + {e})
  {
    OneMoreEdge(edges, e, provenance);
    assert SameHierarchies(edges.Keys + {e}, before + {e});
    HierarchiesAgree(edges.Keys + {e}, before + {e});
  }

  lemma AllKnownLast(g: Graph, inputs: seq<EdgeInput>)
    requires inputs != []
    ensures AllKnown(g, inputs) <==>
            var last := inputs[|inputs| - 1];
            AllKnown(g, inputs[..|inputs| - 1]) && KeyOk(last.other) && last.other in g.concepts
  {
    var init := inputs[..|inputs| - 1];
    assert forall i :: 0 <= i < |init| ==> init[i] == inputs[i];
  }

  ghost predicate InsertsAs(g: Graph, key: string, inputs: seq<EdgeInput>) {
    var inserted, all := InsertEdges(g, key, inputs), g.edges.Keys + EdgesOf(key, inputs);
    && (inserted.Some? <==> AllKnown(g, inputs) && Hierarchies(all))
    && (inserted.Some? ==> SameHierarchies(inserted.value.edges.Keys, all))
  }

  // Edges go in one by one, and yet exactly when all of them together are sound.
  lemma {:induction false} InsertSucceedsIff(g: Graph, key: string, inputs: seq<EdgeInput>)
    requires Inv(g) && key in g.concepts
    ensures InsertsAs(g, key, inputs)
  {
    if inputs == [] {
      assert g.edges.Keys + EdgesOf(key, inputs) == g.edges.Keys;
    } else {
      var init, last := inputs[..|inputs| - 1], inputs[|inputs| - 1];
      InsertSucceedsIff(g, key, init);
      AllKnownLast(g, inputs);
      EdgesOfLast(key, inputs);
      var before, e := g.edges.Keys + EdgesOf(key, init), EdgeFor(key, last);
      assert g.edges.Keys + EdgesOf(key, inputs) == before + {e};
      if InsertEdges(g, key, init).Some? {
        EdgesKeepInv(g, key, init);
        var earlier := InsertEdges(g, key, init).value;
        OneMoreInput(earlier.edges, before, e, last.provenance);
        assert earlier.concepts == g.concepts;
      } else if Hierarchies(before + {e}) {
        FewerEdges(before, before + {e}, Broader);
        FewerEdges(before, before + {e}, Requires);
      }
    }
  }

  // An upsert fails exactly when its own concept is not in order, one of its
  // edges names an unknown concept, or its edges together would close a cycle.
  lemma OnlyCyclesAreRefused(g: Graph, x: Upsert)
    requires Inv(g)
    ensures Upserted(g, x).None? <==>
            || !HeadOk(g, x)
            || !AllKnown(WithConcept(g, x), x.edges)
            || !Hierarchies(g.edges.Keys + EdgesOf(x.key, x.edges))
  {
    var h := WithConcept(g, x);
    forall e | e in h.edges
      ensures EdgeOk(h, e)
    {
      assert EdgeOk(g, e);
    }
    InsertSucceedsIff(h, x.key, x.edges);
  }

  // Sending a stored edge again is accepted and changes nothing.
  lemma StoredEdgeIsAccepted(g: Graph, e: Edge, provenance: Provenance)
    requires Inv(g) && e in g.edges
    ensures !Refused(g.edges, e) && Inserted(g.edges, e, provenance) == g.edges
  {
    if !Symmetric(e.kind) {
      assert g.edges.Keys + {e} == g.edges.Keys;
      assert e.kind == Broader || e.kind == Requires;
      GuardIsExact(g.edges.Keys, e);
    }
  }

  // ----- the tables

  class Store {
    var schemes: set<string>
    var concepts: map<string, Concept>
    var edges: map<Edge, Provenance>
    var primaries: set<string>

    function State(): Graph
      reads this
    {
      Graph(schemes, concepts, edges, primaries)
    }

    constructor (schemes: set<string>, primaries: set<string>)
      ensures State() == Graph(schemes, map[], map[], primaries) && Inv(State())
    {
      this.schemes, this.primaries := schemes, primaries;
      concepts, edges := map[], map[];
      new;
      NoEdgesNoCycle(State().edges.Keys, Broader);
      NoEdgesNoCycle(State().edges.Keys, Requires);
    }

    method InsertEdge(key: string, input: EdgeInput) returns (ok: bool)
      modifies this`edges
      ensures var e := EdgeFor(key, input);
              && ok == !Refused(old(edges), e)
              && edges == if ok then Inserted(old(edges), e, input.provenance) else old(edges)
    {
      var e := EdgeFor(key, input);
      if !Symmetric(input.kind) {
        var found := Reachable(edges.Keys, e.kind, e.target);
        if e.subject in found {
          return false;
        }
      }
      edges := Inserted(edges, e, input.provenance);
      ok := true;
    }

    method InsertAll(key: string, inputs: seq<EdgeInput>) returns (ok: bool)
      modifies this`edges
      ensures ok <==> InsertEdges(old(State()), key, inputs).Some?
      ensures ok ==> State() == InsertEdges(old(State()), key, inputs).value
    {
      ghost var start := State();
      var i := 0;
      while i < |inputs|
        invariant 0 <= i <= |inputs|
        invariant InsertEdges(start, key, inputs[..i]) == Some(State())
      {
        assert inputs[..i + 1][..i] == inputs[..i];
        var inserted := false;
        if KeyOk(inputs[i].other) && inputs[i].other in concepts {
          inserted := InsertEdge(key, inputs[i]);
        }
        if !inserted {
          FailureStays(start, key, inputs, i + 1);
          return false;
        }
        i := i + 1;
      }
      assert inputs[..i] == inputs;
      ok := true;
    }

    // One transaction: whatever fails, the tables are as before.
    method UpsertConcept(x: Upsert) returns (ok: bool)
      requires Inv(State())
      modifies this
      ensures ok <==> Upserted(old(State()), x).Some?
      ensures State() == Next(old(State()), x) && Inv(State())
    {
      assert Inv(Next(State(), x)) by {
        UpsertKeepsInv(State(), x);
      }
      var keyOk := ValidateConceptKey(x.key);
      if !keyOk || !HeadOk(State(), x) {
        return false;
      }
      var savedConcepts, savedEdges := concepts, edges;
      concepts := concepts[x.key := Concept(x.scheme, x.title, x.active != Some(false))];
      ok := InsertAll(x.key, x.edges);
      if !ok {
        concepts, edges := savedConcepts, savedEdges;
      }
    }
  }

  lemma {:induction false} FailureStays(g: Graph, key: string, inputs: seq<EdgeInput>, n: nat)
    requires n <= |inputs| && InsertEdges(g, key, inputs[..n]).None?
    ensures InsertEdges(g, key, inputs).None?
    decreases |inputs| - n
  {
    if n < |inputs| {
      assert inputs[..n + 1][..n] == inputs[..n];
      FailureStays(g, key, inputs, n + 1);
    } else {
      assert inputs[..n] == inputs;
    }
  }
}
