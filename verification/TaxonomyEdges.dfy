// What an accepted upsert stores, edge by edge, told from its inputs
// (src/db.rs, upsert_concept and insert_concept_edge).
module TaxonomyEdges {
  import opened Outcomes
  import opened Texts
  import opened ConceptGraph
  import opened Taxonomy

  // The input asks for this row: a hierarchy edge from the concept to the other
  // one, or a symmetric pair with the lesser key first.
  predicate Asks(key: string, input: EdgeInput, e: Edge) {
    && e.kind == input.kind
    && match input.kind
       case Broader => e.subject == key && e.target == input.other
       case Requires => e.subject == key && e.target == input.other
       case _ =>
         && TextAtMost(e.subject, e.target)
         && ((e.subject == key && e.target == input.other) || (e.subject == input.other && e.target == key))
  }

  // The row is new, and has the provenance of the first input asking for it.
  ghost predicate AskedFirst(key: string, inputs: seq<EdgeInput>, e: Edge, provenance: Provenance, i: nat) {
    && i < |inputs| && Asks(key, inputs[i], e) && inputs[i].provenance == provenance
    && forall j :: 0 <= j < i ==> !Asks(key, inputs[j], e)
  }

  // How a list of inputs moves the edges.
  ghost predicate EdgesMoved(key: string, inputs: seq<EdgeInput>, before: map<Edge, Provenance>,
                             after: map<Edge, Provenance>) {
    && (forall e :: e in before ==> e in after && after[e] == before[e])
    && (forall e, i :: 0 <= i < |inputs| && Asks(key, inputs[i], e) && e.subject != e.target ==> e in after)
    && forall e :: e in after && e !in before ==>
         e.subject != e.target && exists i :: AskedFirst(key, inputs, e, after[e], i)
  }

  lemma AsksIff(key: string, input: EdgeInput, e: Edge)
    ensures Asks(key, input, e) <==> e == EdgeFor(key, input)
  {
    TextTotal(key, input.other);
    CanonicalPairIsSymmetric(key, input.other);
  }

  lemma {:induction false} InsertMoves(g: Graph, key: string, inputs: seq<EdgeInput>)
    requires InsertEdges(g, key, inputs).Some?
    ensures var h := InsertEdges(g, key, inputs).value;
            h == g.(edges := h.edges) && EdgesMoved(key, inputs, g.edges, h.edges)
  {
    if inputs != [] {
      var init := inputs[..|inputs| - 1];
      InsertMoves(g, key, init);
      var mid, after := InsertEdges(g, key, init).value, InsertEdges(g, key, inputs).value;
      OneMoreMoves(key, inputs, g.edges, mid.edges, after.edges);
    }
  }

  lemma OneMoreMoves(key: string, inputs: seq<EdgeInput>, before: map<Edge, Provenance>, mid: map<Edge, Provenance>,
                     after: map<Edge, Provenance>)
    requires inputs != [] && EdgesMoved(key, inputs[..|inputs| - 1], before, mid)
    requires var last := inputs[|inputs| - 1]; after == Inserted(mid, EdgeFor(key, last), last.provenance)
    ensures EdgesMoved(key, inputs, before, after)
  {
    var init, n := inputs[..|inputs| - 1], |inputs| - 1;
    forall e, i | 0 <= i < |inputs| && Asks(key, inputs[i], e) && e.subject != e.target
      ensures e in after
    {
      AsksIff(key, inputs[n], e);
      assert i < n ==> init[i] == inputs[i];
    }
    forall e | e in after && e !in before
      ensures e.subject != e.target && exists i :: AskedFirst(key, inputs, e, after[e], i)
    {
      AsksIff(key, inputs[n], e);
      if e in mid {
        var i :| AskedFirst(key, init, e, mid[e], i);
        assert AskedFirst(key, inputs, e, after[e], i);
      } else {
        NotAskedBefore(key, init, before, mid, e);
        assert AskedFirst(key, inputs, e, after[e], n);
      }
    }
  }

  lemma NotAskedBefore(key: string, inputs: seq<EdgeInput>, before: map<Edge, Provenance>, after: map<Edge, Provenance>,
                       e: Edge)
    requires EdgesMoved(key, inputs, before, after) && e !in after && e.subject != e.target
    ensures forall j :: 0 <= j < |inputs| ==> !Asks(key, inputs[j], e)
  {
  }

  // The edges of an accepted upsert: none is lost or changes its provenance, each
  // input's edge is there unless it is a self edge, and no other edge is new.
  lemma UpsertMovesEdges(g: Graph, x: Upsert, h: Graph)
    requires Upserted(g, x) == Some(h)
    ensures EdgesMoved(x.key, x.edges, g.edges, h.edges)
  {
    InsertMoves(WithConcept(g, x), x.key, x.edges);
  }

  // A listed hierarchy edge is stored from the concept to the other; of a listed
  // symmetric pair exactly one order is, the lesser key first.
  lemma ListedEdgeIsStored(g: Graph, x: Upsert, h: Graph, i: nat)
    requires Inv(g) && Upserted(g, x) == Some(h) && i < |x.edges| && x.edges[i].other != x.key
    ensures var input := x.edges[i];
            && (input.kind == Broader || input.kind == Requires ==> Edge(x.key, input.kind, input.other) in h.edges)
            && (input.kind == ContrastsWith || input.kind == Related ==>
                  && (Edge(x.key, input.kind, input.other) in h.edges <==> TextAtMost(x.key, input.other))
                  && (Edge(input.other, input.kind, x.key) in h.edges <==> TextAtMost(input.other, x.key))
                  && (Edge(x.key, input.kind, input.other) in h.edges <==>
                        Edge(input.other, input.kind, x.key) !in h.edges))
  {
    var input := x.edges[i];
    UpsertMovesEdges(g, x, h);
    UpsertKeepsInv(g, x);
    TextTotal(x.key, input.other);
    var forth, back := Edge(x.key, input.kind, input.other), Edge(input.other, input.kind, x.key);
    assert Asks(x.key, input, forth) || Asks(x.key, input, back);
    assert forth in h.edges ==> EdgeOk(h, forth);
    assert back in h.edges ==> EdgeOk(h, back);
  }

  // The concept of an accepted upsert has its scheme and title and is active
  // unless the upsert says otherwise; every other concept is as it was.
  lemma UpsertStoresConcept(g: Graph, x: Upsert, h: Graph)
    requires Upserted(g, x) == Some(h)
    ensures x.key in h.concepts && h.concepts[x.key].scheme == x.scheme && h.concepts[x.key].title == x.title
    ensures h.concepts[x.key].active == (match x.active case Some(active) => active case None => true)
    ensures forall k :: k != x.key ==>
              (k in h.concepts <==> k in g.concepts) && (k in g.concepts ==> h.concepts[k] == g.concepts[k])
    ensures h.schemes == g.schemes && h.primaries == g.primaries
  {
    InsertMoves(WithConcept(g, x), x.key, x.edges);
  }

  // ----- which upserts are accepted

  predicate LowerOrDigit(c: char) {
    'a' <= c <= 'z' || '0' <= c <= '9'
  }

  predicate Word(s: string) {
    s != "" && forall i :: 0 <= i < |s| ==> LowerOrDigit(s[i])
  }

  // A word, or a word, a dot, underscore or hyphen, and again a key.
  ghost predicate IsKey(s: string) {
    || Word(s)
    || exists n: nat :: n < |s| && Word(s[..n]) && s[n] in "._-" && IsKey(s[n + 1..])
  }

  lemma CharsIff(c: char)
    ensures KeyChar(c) <==> LowerOrDigit(c)
    ensures Separator(c) <==> c in "._-"
  {
  }

  lemma {:induction false} KeysAreSegmented(s: string)
    requires IsKey(s)
    ensures Segmented(s)
    decreases |s|
  {
    if Word(s) {
      forall i | 0 <= i < |s|
        ensures KeyChar(s[i])
      {
        CharsIff(s[i]);
      }
    } else {
      var n: nat :| n < |s| && Word(s[..n]) && s[n] in "._-" && IsKey(s[n + 1..]);
      KeysAreSegmented(s[n + 1..]);
      forall i | 0 <= i < n
        ensures KeyChar(s[i])
      {
        assert s[..n][i] == s[i];
        CharsIff(s[i]);
      }
      CharsIff(s[n]);
      Extended(s, n);
    }
  }

  lemma Extended(s: string, n: nat)
    requires 0 < n < |s| && (forall i :: 0 <= i < n ==> KeyChar(s[i])) && Separator(s[n]) && Segmented(s[n + 1..])
    ensures Segmented(s)
  {
    var rest := s[n + 1..];
    assert forall i :: n < i < |s| ==> s[i] == rest[i - n - 1];
    assert s[|s| - 1] == rest[|rest| - 1];
  }

  function FirstSeparator(s: string): (n: nat)
    ensures n <= |s| && (forall i :: 0 <= i < n ==> !Separator(s[i])) && (n < |s| ==> Separator(s[n]))
  {
    if s == [] || Separator(s[0]) then 0
    else
      var n := FirstSeparator(s[1..]);
      assert forall i :: 0 < i <= n ==> i < |s| ==> s[i] == s[1..][i - 1];
      n + 1
  }

  lemma {:induction false} SegmentedAreKeys(s: string)
    requires Segmented(s)
    ensures IsKey(s)
    decreases |s|
  {
    var n := FirstSeparator(s);
    forall i | 0 <= i < n
      ensures LowerOrDigit(s[i])
    {
      CharsIff(s[i]);
    }
    if n < |s| {
      var rest := s[n + 1..];
      RestSegmented(s, n);
      SegmentedAreKeys(rest);
      CharsIff(s[n]);
      assert Word(s[..n]);
    }
  }

  lemma RestSegmented(s: string, n: nat)
    requires Segmented(s) && n < |s| && Separator(s[n])
    ensures 0 < n < |s| - 1 && Segmented(s[n + 1..])
  {
    var rest := s[n + 1..];
    assert forall i :: 0 <= i < |rest| ==> rest[i] == s[n + 1 + i];
    assert rest != [];
    assert rest[|rest| - 1] == s[|s| - 1];
    assert !Separator(s[n + 1]);
  }

  // What is accepted as a key.
  lemma {:induction false} KeyIff(key: string)
    ensures KeyOk(key) <==> |key| <= 160 && IsKey(key)
  {
    if Segmented(key) {
      SegmentedAreKeys(key);
    }
    if IsKey(key) {
      KeysAreSegmented(key);
    }
  }

  ghost predicate HeadInOrder(g: Graph, x: Upsert) {
    && IsKey(x.key) && |x.key| <= 160 && x.scheme in g.schemes && !Blank(x.title) && |x.title| <= 500
    && |x.edges| <= 20 && (x.active == Some(false) && x.key in g.concepts ==> x.key !in g.primaries)
  }

  // The edges the inputs ask for, self edges included.
  ghost predicate AskedEdges(key: string, inputs: seq<EdgeInput>, asked: set<Edge>) {
    forall e :: e in asked <==> exists i :: 0 <= i < |inputs| && Asks(key, inputs[i], e)
  }

  // An upsert is accepted exactly when its concept is in order, every other concept
  // it names is known, and with all its edges both hierarchies stay free of cycles.
  lemma AcceptedIff(g: Graph, x: Upsert) returns (asked: set<Edge>)
    requires Inv(g)
    ensures AskedEdges(x.key, x.edges, asked)
    ensures Upserted(g, x).Some? <==>
            && HeadInOrder(g, x) && (forall input :: input in x.edges ==> Named(g, x.key, input.other))
            && Acyclic(g.edges.Keys + asked, Broader) && Acyclic(g.edges.Keys + asked, Requires)
  {
    asked := EdgesOf(x.key, x.edges);
    forall e
      ensures e in asked <==> exists i :: 0 <= i < |x.edges| && Asks(x.key, x.edges[i], e)
    {
      EdgeAsked(x.key, x.edges, e);
    }
    OnlyCyclesAreRefused(g, x);
    KeyIff(x.key);
    NamesIff(g, x);
  }

  ghost predicate Named(g: Graph, key: string, other: string) {
    IsKey(other) && |other| <= 160 && (other in g.concepts || other == key)
  }

  lemma NamesIff(g: Graph, x: Upsert)
    ensures AllKnown(WithConcept(g, x), x.edges) <==> forall input :: input in x.edges ==> Named(g, x.key, input.other)
  {
    forall i | 0 <= i < |x.edges|
      ensures KeyOk(x.edges[i].other) && x.edges[i].other in WithConcept(g, x).concepts <==>
              Named(g, x.key, x.edges[i].other)
    {
      KeyIff(x.edges[i].other);
    }
    if forall input :: input in x.edges ==> Named(g, x.key, input.other) {
      assert forall i :: 0 <= i < |x.edges| ==> x.edges[i] in x.edges;
    }
  }

  lemma EdgeAsked(key: string, inputs: seq<EdgeInput>, e: Edge)
    ensures e in EdgesOf(key, inputs) <==> exists i :: 0 <= i < |inputs| && Asks(key, inputs[i], e)
  {
    if e in EdgesOf(key, inputs) {
      var i :| 0 <= i < |inputs| && EdgeFor(key, inputs[i]) == e;
      AsksIff(key, inputs[i], e);
    }
    if i :| 0 <= i < |inputs| && Asks(key, inputs[i], e) {
      AsksIff(key, inputs[i], e);
    }
  }
}
