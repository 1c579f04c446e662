// The order of the review queue and of drill recommendations
// (src/db.rs, sort_rows, diversify_rows and keep_better_recommendation).
module Ranking {
  import opened Outcomes
  import opened Texts
  import opened SessionModel
  import opened BriefPlanner

  // Days stand for the dates of the source; retrievability is never NaN.
  datatype Target = Target(
    key: string, due: Option<int>, errorDays: int, unresolved: int, latestError: Option<int>, incorrect: int,
    retrievability: Option<real>, branch: string)

  datatype Ordering = Less | Equal | Greater {
    function Then(next: Ordering): Ordering {
      if this == Equal then next else this
    }

    function Reverse(): Ordering {
      match this
      case Less => Greater
      case Equal => Equal
      case Greater => Less
    }
  }

  function OfInts(a: int, b: int): Ordering {
    if a < b then Less else if a == b then Equal else Greater
  }

  function OfReals(a: real, b: real): Ordering {
    if a < b then Less else if a == b then Equal else Greater
  }

  function OfTexts(a: string, b: string): Ordering {
    if a == b then Equal else if TextAtMost(a, b) then Less else Greater
  }

  // None comes before every value.
  function OfOptions(a: Option<int>, b: Option<int>): Ordering {
    match (a, b)
    case (None, None) => Equal
    case (None, Some(_)) => Less
    case (Some(_), None) => Greater
    case (Some(x), Some(y)) => OfInts(x, y)
  }

  function OfRetrievability(a: Option<real>, b: Option<real>): Ordering {
    match (a, b)
    case (Some(x), Some(y)) => OfReals(x, y)
    case (Some(_), None) => Less
    case (None, Some(_)) => Greater
    case (None, None) => Equal
  }

  function ByDueness(a: Target, b: Target): Ordering {
    if a.due.Some? && b.due.Some? then OfInts(a.due.value, b.due.value)
    else if a.due.Some? then Less
    else if b.due.Some? then Greater
    else Equal
  }

  // Among targets never reviewed, the history of errors decides, worst first.
  function ByHistory(a: Target, b: Target): Ordering {
    if a.due.Some? || b.due.Some? then Equal
    else
      OfInts(b.errorDays, a.errorDays)
        .Then(OfInts(b.unresolved, a.unresolved))
        .Then(OfOptions(b.latestError, a.latestError))
        .Then(OfInts(b.incorrect, a.incorrect))
  }

  function Compare(a: Target, b: Target): Ordering {
    ByDueness(a, b)
      .Then(ByHistory(a, b))
      .Then(OfRetrievability(a.retrievability, b.retrievability))
      .Then(OfTexts(a.key, b.key))
  }

  // ----- a strict total order

  lemma TextsAntisymmetric(a: string, b: string)
    ensures OfTexts(a, b) == OfTexts(b, a).Reverse()
  {
    TextTotal(a, b);
  }

  lemma CompareAntisymmetric(a: Target, b: Target)
    ensures Compare(a, b) == Compare(b, a).Reverse()
    ensures Compare(a, b) == Equal ==> a.key == b.key
  {
    TextsAntisymmetric(a.key, b.key);
  }

  lemma TextsTransitive(a: string, b: string, c: string)
    requires OfTexts(a, b) != Greater && OfTexts(b, c) != Greater
    ensures OfTexts(a, c) != Greater && (OfTexts(a, c) == Equal ==> OfTexts(a, b) == Equal && OfTexts(b, c) == Equal)
  {
    TextTotal(a, b);
    TextTotal(b, c);
    TextTransitive(a, b, c);
    TextTotal(a, c);
  }

  lemma HistoryTransitive(a: Target, b: Target, c: Target)
    requires a.due.None? && b.due.None? && c.due.None?
    requires ByHistory(a, b) != Greater && ByHistory(b, c) != Greater
    ensures ByHistory(a, c) != Greater &&
            (ByHistory(a, c) == Equal ==> ByHistory(a, b) == Equal && ByHistory(b, c) == Equal)
    ensures ByHistory(a, b) == Equal && ByHistory(b, c) == Equal ==> ByHistory(a, c) == Equal
  {
  }

  lemma CompareTransitive(a: Target, b: Target, c: Target)
    requires Compare(a, b) == Less && Compare(b, c) == Less
    ensures Compare(a, c) == Less
  {
    if a.due.None? && b.due.None? && c.due.None? {
      HistoryTransitive(a, b, c);
    }
    if OfTexts(a.key, b.key) != Greater && OfTexts(b.key, c.key) != Greater {
      TextsTransitive(a.key, b.key, c.key);
    }
  }

  // ----- what comes first

  // Reviewed targets come first, the earliest due leading.  Among targets never
  // reviewed: more days with errors, more unresolved, a later error, more mistakes.
  predicate MorePressing(a: Target, b: Target) {
    match (a.due, b.due)
    case (Some(x), Some(y)) => x < y
    case (Some(_), None) => true
    case (None, Some(_)) => false
    case (None, None) =>
      || a.errorDays > b.errorDays
      || (a.errorDays == b.errorDays && a.unresolved > b.unresolved)
      || (a.errorDays == b.errorDays && a.unresolved == b.unresolved && LaterError(a, b))
      || (a.errorDays == b.errorDays && a.unresolved == b.unresolved && a.latestError == b.latestError &&
          a.incorrect > b.incorrect)
  }

  predicate LaterError(a: Target, b: Target) {
    match (a.latestError, b.latestError)
    case (Some(x), Some(y)) => x > y
    case (Some(_), None) => true
    case _ => false
  }

  // Then what is less likely to be remembered, and at last the key decides.
  predicate ComesFirst(a: Target, b: Target) {
    MorePressing(a, b) || (!MorePressing(b, a) && (Fainter(a, b) || (!Fainter(b, a) && TextLess(a.key, b.key))))
  }

  predicate Fainter(a: Target, b: Target) {
    match (a.retrievability, b.retrievability)
    case (Some(x), Some(y)) => x < y
    case (Some(_), None) => true
    case _ => false
  }

  lemma CompareMeans(a: Target, b: Target)
    ensures Compare(a, b) == Less <==> ComesFirst(a, b)
  {
  }

  // ----- one ranking per set of targets

  ghost predicate Ranked(xs: seq<Target>) {
    forall i, j :: 0 <= i < j < |xs| ==> Compare(xs[i], xs[j]) == Less
  }

  lemma LeastComesFirst(xs: seq<Target>, ys: seq<Target>)
    requires Ranked(xs) && Ranked(ys) && multiset(xs) == multiset(ys) && xs != [] && ys != []
    ensures xs[0] == ys[0]
  {
    assert xs[0] in multiset(ys) && ys[0] in multiset(xs);
    var i :| 0 <= i < |ys| && ys[i] == xs[0];
    var j :| 0 <= j < |xs| && xs[j] == ys[0];
    if i > 0 && j > 0 {
      CompareAntisymmetric(xs[0], ys[0]);
    }
  }

  // The ranked queue does not depend on the order its rows were loaded in.
  lemma {:induction false} RankingIsUnique(xs: seq<Target>, ys: seq<Target>)
    requires Ranked(xs) && Ranked(ys) && multiset(xs) == multiset(ys)
    ensures xs == ys
  {
    assert |multiset(xs)| == |xs| && |multiset(ys)| == |ys|;
    if xs != [] {
      LeastComesFirst(xs, ys);
      assert xs == [xs[0]] + xs[1..] && ys == [ys[0]] + ys[1..];
      assert multiset(xs[1..]) == multiset(xs) - multiset{xs[0]};
      RankingIsUnique(xs[1..], ys[1..]);
    }
  }

  ghost predicate DistinctKeys(xs: seq<Target>) {
    forall i, j :: 0 <= i < j < |xs| ==> xs[i].key != xs[j].key
  }

  function Insert(xs: seq<Target>, x: Target): seq<Target> {
    if xs == [] || Compare(xs[|xs| - 1], x) != Greater then xs + [x]
    else Insert(xs[..|xs| - 1], x) + [xs[|xs| - 1]]
  }

  function Sort(xs: seq<Target>): seq<Target> {
    if xs == [] then [] else Insert(Sort(xs[..|xs| - 1]), xs[|xs| - 1])
  }

  lemma {:induction false} InsertAdds(xs: seq<Target>, x: Target)
    ensures multiset(Insert(xs, x)) == multiset(xs) + multiset{x}
  {
    if xs != [] {
      assert xs == xs[..|xs| - 1] + [xs[|xs| - 1]];
      InsertAdds(xs[..|xs| - 1], x);
    }
  }

  lemma {:induction false} SortPermutes(xs: seq<Target>)
    ensures multiset(Sort(xs)) == multiset(xs)
  {
    if xs != [] {
      assert xs == xs[..|xs| - 1] + [xs[|xs| - 1]];
      SortPermutes(xs[..|xs| - 1]);
      InsertAdds(Sort(xs[..|xs| - 1]), xs[|xs| - 1]);
    }
  }

  lemma RankedThenLast(xs: seq<Target>, x: Target)
    requires Ranked(xs) && forall i :: 0 <= i < |xs| ==> Compare(xs[i], x) == Less
    ensures Ranked(xs + [x])
  {
  }

  lemma {:induction false} InsertRanks(xs: seq<Target>, x: Target)
    requires Ranked(xs) && forall i :: 0 <= i < |xs| ==> xs[i].key != x.key
    ensures Ranked(Insert(xs, x))
  {
    if xs != [] {
      var init, last := xs[..|xs| - 1], xs[|xs| - 1];
      CompareAntisymmetric(last, x);
      if Compare(last, x) == Greater {
        InsertRanks(init, x);
        InsertAdds(init, x);
        var rest := Insert(init, x);
        forall k | 0 <= k < |rest|
          ensures Compare(rest[k], last) == Less
        {
          assert rest[k] in multiset(rest);
          assert rest[k] == x || rest[k] in init;
        }
        RankedThenLast(rest, last);
      } else {
        forall k | 0 <= k < |xs|
          ensures Compare(xs[k], x) == Less
        {
          if k < |xs| - 1 {
            CompareTransitive(xs[k], last, x);
          }
        }
        RankedThenLast(xs, x);
      }
    }
  }

  lemma SameKeysApart(xs: seq<Target>, ys: seq<Target>, x: Target)
    requires multiset(xs) == multiset(ys) && forall i :: 0 <= i < |xs| ==> xs[i].key != x.key
    ensures forall i :: 0 <= i < |ys| ==> ys[i].key != x.key
  {
    forall i | 0 <= i < |ys|
      ensures ys[i].key != x.key
    {
      assert ys[i] in multiset(xs);
    }
  }

  lemma {:induction false} SortRanks(xs: seq<Target>)
    requires DistinctKeys(xs)
    ensures Ranked(Sort(xs))
  {
    if xs != [] {
      var init, last := xs[..|xs| - 1], xs[|xs| - 1];
      SortRanks(init);
      SortPermutes(init);
      SameKeysApart(init, Sort(init), last);
      InsertRanks(Sort(init), last);
    }
  }

  // Sorting gives the one ranked order, whatever order the rows came in.
  lemma {:induction false} LoadOrderDoesNotMatter(xs: seq<Target>, ys: seq<Target>)
    requires DistinctKeys(xs) && DistinctKeys(ys) && multiset(xs) == multiset(ys)
    ensures Sort(xs) == Sort(ys) && Ranked(Sort(xs)) && multiset(Sort(xs)) == multiset(xs)
  {
    SortRanks(xs);
    SortRanks(ys);
    SortPermutes(xs);
    SortPermutes(ys);
    RankingIsUnique(Sort(xs), Sort(ys));
  }

  // ----- diversifying

  // Reorders one stretch of targets. A branch is marked used as soon as a
  // target of it is placed, so the search for a place further up always fails
  // and the stretch keeps its order.
  method DiversifySegment(rows: array<Target>, start: nat, end: nat)
    requires start <= end <= rows.Length
    modifies rows
    ensures rows[..] == old(rows[..])
  {
    var out: seq<Target> := [];
    var used: set<string> := {};
    var i := start;
    while i < end
      invariant start <= i <= end
      invariant out == rows[start..i] && rows[..] == old(rows[..])
      invariant forall k :: 0 <= k < |out| ==> out[k].branch in used
    {
      var row := rows[i];
      if row.branch in used {
        out := out + [row];
      } else {
        var position := 0;
        while position < |out| && out[position].branch in used
          invariant 0 <= position <= |out|
        {
          position := position + 1;
        }
        out := out[..position] + [row] + out[position..];
        used := used + {row.branch};
      }
      i := i + 1;
    }
    forall k | start <= k < end {
      rows[k] := out[k - start];
    }
    assert rows[..] == old(rows[..]);
  }

  // Stretch by stretch of equal due dates, the queue comes out as it went in.
  method DiversifyRows(rows: array<Target>)
    modifies rows
    ensures rows[..] == old(rows[..])
  {
    var start := 0;
    while start < rows.Length
      invariant 0 <= start <= rows.Length
      invariant rows[..] == old(rows[..])
    {
      var due := rows[start].due;
      var end := start + 1;
      while end < rows.Length && rows[end].due == due
        invariant start < end <= rows.Length
      {
        end := end + 1;
      }
      DiversifySegment(rows, start, end);
      start := end;
    }
  }

  // ----- the best recommendation per drill and stage

  datatype Kind = Kind(drill: DrillType, stage: Stage)

  function KindOf(r: Recommendation): Kind {
    Kind(r.drill, r.stage)
  }

  // Heavier, or as heavy and nearer, or as near and first by name.
  predicate Beats(a: Recommendation, b: Recommendation) {
    || a.weight > b.weight
    || (a.weight == b.weight && (a.distance < b.distance || (a.distance == b.distance && TextLess(a.source, b.source))))
  }

  lemma BeatsIsTotal(a: Recommendation, b: Recommendation)
    requires KindOf(a) == KindOf(b)
    ensures Beats(a, b) || Beats(b, a) || a == b
    ensures !(Beats(a, b) && Beats(b, a))
  {
    TextTotal(a.source, b.source);
  }

  lemma BeatsIsTransitive(a: Recommendation, b: Recommendation, c: Recommendation)
    requires Beats(a, b) && Beats(b, c)
    ensures Beats(a, c)
  {
    if a.weight == b.weight == c.weight && a.distance == b.distance == c.distance {
      TextTransitive(a.source, b.source, c.source);
      TextTotal(a.source, b.source);
    }
  }

  type Best = map<Kind, Recommendation>

  // For each kind on offer, the one candidate nothing of its kind beats.
  ghost predicate BestOf(candidates: seq<Recommendation>, best: Best) {
    && (forall c :: c in candidates ==> KindOf(c) in best && !Beats(c, best[KindOf(c)]))
    && forall k :: k in best ==> best[k] in candidates && KindOf(best[k]) == k
  }

  // The candidate takes its place among the best of those seen before it.
  method KeepBetter(ghost seen: seq<Recommendation>, best: Best, candidate: Recommendation) returns (next: Best)
    requires BestOf(seen, best)
    ensures BestOf(seen + [candidate], next)
  {
    next := best;
    var replace := KindOf(candidate) !in best;
    if !replace {
      var current := best[KindOf(candidate)];
      replace := candidate.weight > current.weight
        || (candidate.weight == current.weight
            && (candidate.distance < current.distance
                || (candidate.distance == current.distance && TextLess(candidate.source, current.source))));
    }
    if replace {
      ReplacedIsBest(seen, best, candidate);
      next := next[KindOf(candidate) := candidate];
    }
  }

  lemma ReplacedIsBest(seen: seq<Recommendation>, best: Best, candidate: Recommendation)
    requires BestOf(seen, best) && (KindOf(candidate) in best ==> Beats(candidate, best[KindOf(candidate)]))
    ensures BestOf(seen + [candidate], best[KindOf(candidate) := candidate])
  {
    BeatsIsTotal(candidate, candidate);
    forall c | c in seen && KindOf(c) == KindOf(candidate)
      ensures !Beats(c, candidate)
    {
      if Beats(c, candidate) {
        BeatsIsTransitive(c, candidate, best[KindOf(c)]);
      }
    }
  }

  method Gather(candidates: seq<Recommendation>) returns (best: Best)
    ensures BestOf(candidates, best)
  {
    best := map[];
    var i := 0;
    while i < |candidates|
      invariant 0 <= i <= |candidates|
      invariant BestOf(candidates[..i], best)
    {
      best := KeepBetter(candidates[..i], best, candidates[i]);
      assert candidates[..i + 1] == candidates[..i] + [candidates[i]];
      i := i + 1;
    }
    assert candidates[..i] == candidates;
  }

  // ----- the recommendations of a target

  ghost predicate Strict(recs: seq<Recommendation>) {
    forall i, j :: 0 <= i < j < |recs| ==> Precedes(recs[i], recs[j])
  }

  // recs lists, in order, one recommendation per kind, which no row of that kind beats.
  ghost predicate Recommended(rows: seq<Recommendation>, recs: seq<Recommendation>) {
    && Strict(recs) && DistinctKinds(recs)
    && (forall r :: r in recs ==> r in rows)
    && forall c {:trigger Answered(recs, c)} :: c in rows ==> Answered(recs, c)
  }

  ghost predicate Answered(recs: seq<Recommendation>, c: Recommendation) {
    exists r :: r in recs && KindOf(r) == KindOf(c) && !Beats(c, r)
  }

  // The place of r among recommendations of other kinds.
  method Place(recs: seq<Recommendation>, r: Recommendation) returns (placed: seq<Recommendation>)
    requires Strict(recs) && DistinctKinds(recs) && forall k :: 0 <= k < |recs| ==> KindOf(recs[k]) != KindOf(r)
    ensures Strict(placed) && DistinctKinds(placed) && forall x :: x in placed <==> x in recs || x == r
  {
    var i := 0;
    while i < |recs| && Precedes(recs[i], r)
      invariant 0 <= i <= |recs|
      invariant forall k :: 0 <= k < i ==> Precedes(recs[k], r)
    {
      i := i + 1;
    }
    placed := recs[..i] + [r] + recs[i..];
    forall k | i <= k < |recs|
      ensures Precedes(r, recs[k])
    {
      KindsNeverTie(recs[i], r);
      if k > i {
        PrecedesIsTransitive(r, recs[i], recs[k]);
      }
    }
    assert forall k :: 0 <= k < |recs| ==> recs[k] == if k < i then placed[k] else placed[k + 1];
    assert placed[i] == r;
  }

  lemma PrecedesIsTransitive(a: Recommendation, b: Recommendation, c: Recommendation)
    requires Precedes(a, b) && Precedes(b, c)
    ensures Precedes(a, c)
  {
  }

  // The values of the table in whatever order it yields them, sorted.
  method Listed(best: Best) returns (recs: seq<Recommendation>)
    requires forall k :: k in best ==> KindOf(best[k]) == k
    ensures Strict(recs) && DistinctKinds(recs) && forall r :: r in recs <==> KindOf(r) in best && best[KindOf(r)] == r
  {
    recs := [];
    var rest := best.Keys;
    while rest != {}
      invariant rest <= best.Keys && Strict(recs) && DistinctKinds(recs)
      invariant forall r :: r in recs <==> KindOf(r) in best.Keys - rest && best[KindOf(r)] == r
    {
      var k :| k in rest;
      assert forall j :: 0 <= j < |recs| ==> recs[j] in recs;
      recs := Place(recs, best[k]);
      rest := rest - {k};
    }
  }

  // A target's own rows if it has any, otherwise those it inherits.
  method Recommendations(overrides: seq<Recommendation>, inherited: seq<Recommendation>)
      returns (recs: seq<Recommendation>)
    ensures Recommended(if overrides != [] then overrides else inherited, recs)
  {
    var best := Gather(overrides);
    NothingGathered(overrides, best);
    if best == map[] {
      best := Gather(inherited);
    }
    recs := Listed(best);
    BestIsRecommended(if overrides != [] then overrides else inherited, best, recs);
  }

  lemma NothingGathered(rows: seq<Recommendation>, best: Best)
    requires BestOf(rows, best)
    ensures best == map[] <==> rows == []
  {
    if rows != [] {
      assert KindOf(rows[0]) in best;
    }
    if best != map[] {
      var k :| k in best;
      assert best[k] in rows;
    }
  }

  lemma BestIsRecommended(rows: seq<Recommendation>, best: Best, recs: seq<Recommendation>)
    requires BestOf(rows, best) && Strict(recs) && DistinctKinds(recs)
    requires forall r :: r in recs <==> KindOf(r) in best && best[KindOf(r)] == r
    ensures Recommended(rows, recs)
  {
    forall c | c in rows
      ensures Answered(recs, c)
    {
      var r := best[KindOf(c)];
      assert r in recs && KindOf(r) == KindOf(c) && !Beats(c, r);
    }
  }

  lemma SameMember(xs: seq<Recommendation>, ys: seq<Recommendation>, a: seq<Recommendation>, b: seq<Recommendation>,
                   r: Recommendation)
    requires (forall c :: c in xs <==> c in ys) && Recommended(xs, a) && Recommended(ys, b) && r in a
    ensures r in b
  {
    assert r in ys && Answered(b, r);
    var other :| other in b && KindOf(other) == KindOf(r) && !Beats(r, other);
    assert other in xs && Answered(a, other);
    var back :| back in a && KindOf(back) == KindOf(other) && !Beats(other, back);
    var i :| 0 <= i < |a| && a[i] == r;
    var j :| 0 <= j < |a| && a[j] == back;
    assert i == j;
    BeatsIsTotal(r, other);
  }

  lemma HeadsAgree(a: seq<Recommendation>, b: seq<Recommendation>)
    requires Strict(a) && Strict(b) && a != [] && b != [] && a[0] in b && b[0] in a
    ensures a[0] == b[0]
  {
    var i :| 0 <= i < |b| && b[i] == a[0];
    var j :| 0 <= j < |a| && a[j] == b[0];
  }

  lemma TailMember(a: seq<Recommendation>, b: seq<Recommendation>, r: Recommendation)
    requires Strict(a) && a != [] && b != [] && a[0] == b[0] && r in a[1..] && r in b
    ensures r in b[1..]
  {
    var i :| 0 <= i < |a[1..]| && a[1..][i] == r;
    assert Precedes(a[0], a[i + 1]);
    assert b == [b[0]] + b[1..];
  }

  lemma {:induction false} SortedIsUnique(a: seq<Recommendation>, b: seq<Recommendation>)
    requires Strict(a) && Strict(b) && (forall r :: r in a ==> r in b) && forall r :: r in b ==> r in a
    ensures a == b
  {
    assert b != [] ==> b[0] in b;
    if a != [] {
      assert a[0] in b;
      assert b[0] in a;
      HeadsAgree(a, b);
      forall r | r in a[1..]
        ensures r in b[1..]
      {
        assert r in a;
        TailMember(a, b, r);
      }
      forall r | r in b[1..]
        ensures r in a[1..]
      {
        assert r in b;
        TailMember(b, a, r);
      }
      SortedIsUnique(a[1..], b[1..]);
      assert a == [a[0]] + a[1..] && b == [b[0]] + b[1..];
    }
  }

  // The list depends neither on the order or the repetition of the rows nor on
  // the order in which the table yields its values.
  lemma RecommendationsIgnoreOrder(xs: seq<Recommendation>, ys: seq<Recommendation>, a: seq<Recommendation>,
                                   b: seq<Recommendation>)
    requires (forall c :: c in xs <==> c in ys) && Recommended(xs, a) && Recommended(ys, b)
    ensures a == b
  {
    forall r | r in a
      ensures r in b
    {
      SameMember(xs, ys, a, b, r);
    }
    forall r | r in b
      ensures r in a
    {
      SameMember(ys, xs, b, a, r);
    }
    SortedIsUnique(a, b);
  }
}
