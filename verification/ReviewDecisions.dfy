// The decision on a proposed review, taken from the verdicts.
module ReviewDecisions {
  import opened Outcomes
  import opened Sets
  import opened Texts
  import opened SessionModel
  import opened ReviewPolicy

  datatype Decision = Decision(
    weakness: string, eligible: bool, codes: seq<Code>, supporting: seq<nat>, excluded: seq<nat>, policyVersion: nat)

  // The code one judged record raises.
  predicate Raises(j: Judged, c: Code) {
    match j.verdict
    case Irrelevant => false
    case Invalid(code) => c == code
    case Excluded(code) => j.cited && c == code
    case Counted(failed) => failed && !j.cited && c == FailureNotCited
  }

  function Supporting(js: seq<Judged>): seq<nat> {
    if js == [] then []
    else
      var j := js[|js| - 1];
      Supporting(js[..|js| - 1]) + (if j.Supports() then [j.no] else [])
  }

  function ExcludedNos(js: seq<Judged>): seq<nat> {
    if js == [] then []
    else
      var j := js[|js| - 1];
      ExcludedNos(js[..|js| - 1]) + (if j.verdict.Excluded? && j.cited then [j.no] else [])
  }

  predicate Failed(js: seq<Judged>) {
    exists k :: 0 <= k < |js| && js[k].Fails()
  }

  predicate TwoScenarios(js: seq<Judged>) {
    exists i, j :: 0 <= i < |js| && 0 <= j < |js| && js[i].Supports() && js[j].Supports() &&
      js[i].scenario != js[j].scenario
  }

  predicate Covers(v: Variation, weakness: string, nos: seq<nat>) {
    v.weakness == weakness && forall k :: 0 <= k < |nos| ==> nos[k] in v.observationNos
  }

  predicate Covered(variations: seq<Variation>, weakness: string, nos: seq<nat>) {
    exists v :: 0 <= v < |variations| && Covers(variations[v], weakness, nos)
  }

  predicate EffortUnknown(observations: seq<Observation>, nos: seq<nat>) {
    exists i :: 0 <= i < |observations| && observations[i].no in nos
                && (observations[i].effort.None? || observations[i].effort == Some(UnknownEffort))
  }

  predicate Unexplained(review: Review) {
    review.rating != Again && (review.rationale.None? || Blank(review.rationale.value))
  }

  // What the decision reads besides the verdicts.
  datatype Context = Context(review: Review, observations: seq<Observation>, variations: seq<Variation>)

  predicate Varied(x: Context, js: seq<Judged>) {
    |Supporting(js)| >= 2 && TwoScenarios(js) && Covered(x.variations, x.review.weakness, Supporting(js))
  }

  predicate Raised(x: Context, js: seq<Judged>, c: Code) {
    || (exists k :: 0 <= k < |js| && Raises(js[k], c))
    || (c == InsufficientRating &&
        (Unexplained(x.review) || (x.review.rating != Again && EffortUnknown(x.observations, Supporting(js)))))
    || (c == InsufficientVaried && !Varied(x, js))
    || (c == FailureRequiresAgain && Failed(js) && x.review.rating != Again)
    || (c == RatingConflicts && !Failed(js) && x.review.rating == Again)
  }

  predicate Ascending(codes: seq<Code>) {
    forall i, j :: 0 <= i < j < |codes| ==> Rank(codes[i]) < Rank(codes[j])
  }

  predicate Decides(x: Context, js: seq<Judged>, d: Decision) {
    && d.supporting == Supporting(js) && d.excluded == ExcludedNos(js)
    && Ascending(d.codes) && (forall c :: c in d.codes <==> Raised(x, js, c))
    && (d.eligible <==> |d.supporting| >= 2 && forall c :: c in d.codes ==> !Blocking(c))
  }

  predicate IsDecision(r: Session, review: Review, version: nat, d: Decision) {
    && d.weakness == review.weakness && d.policyVersion == version
    && match r.evidence
       case None => !d.eligible && d.codes == [UnknownAssistance] && d.supporting == [] &&
         d.excluded == review.citations
       case Some(e) => Decides(Context(review, AllObservations(r), e.variations), Judgements(r, e, review), d)
  }

  function Inserted(sorted: seq<Code>, i: nat, c: Code): (r: seq<Code>)
    requires i <= |sorted|
    ensures forall x :: x in r <==> x in sorted || x == c
  {
    var r := sorted[..i] + [c] + sorted[i..];
    assert r[i] == c;
    assert forall k :: 0 <= k < |sorted| ==> sorted[k] == if k < i then r[k] else r[k + 1];
    r
  }

  // Sorted by name, without duplicates.
  method SortDedup(codes: seq<Code>) returns (sorted: seq<Code>)
    ensures Ascending(sorted) && forall c :: c in sorted <==> c in codes
  {
    sorted := [];
    var n := 0;
    while n < |codes|
      invariant 0 <= n <= |codes| && Ascending(sorted)
      invariant forall c :: c in sorted <==> c in codes[..n]
    {
      var i := 0;
      while i < |sorted| && Rank(sorted[i]) < Rank(codes[n])
        invariant 0 <= i <= |sorted|
        invariant forall k :: 0 <= k < i ==> Rank(sorted[k]) < Rank(codes[n])
      {
        i := i + 1;
      }
      if i == |sorted| || sorted[i] != codes[n] {
        sorted := Inserted(sorted, i, codes[n]);
      }
      assert codes[..n + 1] == codes[..n] + [codes[n]];
      n := n + 1;
    }
    assert codes[..n] == codes;
  }

  predicate ScenariosSeen(js: seq<Judged>, seen: set<string>) {
    && (forall k :: 0 <= k < |js| && js[k].Supports() ==> js[k].scenario in seen)
    && (forall s :: s in seen ==> exists k :: 0 <= k < |js| && js[k].Supports() && js[k].scenario == s)
  }

  lemma ScenariosTell(js: seq<Judged>, seen: set<string>)
    requires ScenariosSeen(js, seen)
    ensures |seen| >= 2 <==> TwoScenarios(js)
  {
    if |seen| >= 2 {
      var s :| s in seen;
      assert |seen - {s}| == |seen| - 1;
      var t :| t in seen - {s};
      assert t in seen && s != t;
    }
    if TwoScenarios(js) {
      var i, j :| 0 <= i < |js| && 0 <= j < |js| && js[i].Supports() && js[j].Supports() &&
          js[i].scenario != js[j].scenario;
      SubsetSize({js[i].scenario, js[j].scenario}, seen);
    }
  }

  datatype Tally = Tally(supporting: seq<nat>, excluded: seq<nat>, codes: seq<Code>, failure: bool,
    scenarios: set<string>)

  predicate Tallied(js: seq<Judged>, t: Tally) {
    && t.supporting == Supporting(js) && t.excluded == ExcludedNos(js)
    && (forall c :: c in t.codes <==> exists k :: 0 <= k < |js| && Raises(js[k], c))
    && (t.failure <==> Failed(js))
    && ScenariosSeen(js, t.scenarios)
  }

  function Counting(t: Tally, j: Judged): Tally {
    match j.verdict
    case Irrelevant => t
    case Invalid(code) => t.(codes := t.codes + [code])
    case Excluded(code) => if j.cited then t.(excluded := t.excluded + [j.no], codes := t.codes + [code]) else t
    case Counted(failed) =>
      Tally(if j.cited then t.supporting + [j.no] else t.supporting, t.excluded,
            if failed && !j.cited then t.codes + [FailureNotCited] else t.codes,
            t.failure || failed, if j.cited then t.scenarios + {j.scenario} else t.scenarios)
  }

  lemma CountingCodes(js: seq<Judged>, j: Judged, t: Tally)
    requires forall c :: c in t.codes <==> exists k :: 0 <= k < |js| && Raises(js[k], c)
    ensures forall c :: c in Counting(t, j).codes <==> exists k :: 0 <= k < |js + [j]| && Raises((js + [j])[k], c)
  {
    var all, u := js + [j], Counting(t, j);
    forall c
      ensures c in u.codes <==> exists k :: 0 <= k < |all| && Raises(all[k], c)
    {
      assert c in u.codes <==> c in t.codes || Raises(j, c);
      assert all[|js|] == j && forall k :: 0 <= k < |js| ==> all[k] == js[k];
    }
  }

  lemma CountingScenarios(js: seq<Judged>, j: Judged, t: Tally)
    requires ScenariosSeen(js, t.scenarios)
    ensures ScenariosSeen(js + [j], Counting(t, j).scenarios)
  {
    var all := js + [j];
    assert all[|js|] == j && forall k :: 0 <= k < |js| ==> all[k] == js[k];
  }

  lemma {:induction false} CountingNumbers(js: seq<Judged>, j: Judged, t: Tally)
    requires t.supporting == Supporting(js) && t.excluded == ExcludedNos(js)
    ensures Counting(t, j).supporting == Supporting(js + [j]) && Counting(t, j).excluded == ExcludedNos(js + [j])
  {
    assert (js + [j])[..|js|] == js;
  }

  lemma CountingFailure(js: seq<Judged>, j: Judged, t: Tally)
    requires t.failure <==> Failed(js)
    ensures Counting(t, j).failure <==> Failed(js + [j])
  {
    var all := js + [j];
    assert all[|js|] == j && forall k :: 0 <= k < |js| ==> all[k] == js[k];
  }

  lemma CountingTallies(js: seq<Judged>, j: Judged, t: Tally)
    requires Tallied(js, t)
    ensures Tallied(js + [j], Counting(t, j))
  {
    CountingNumbers(js, j, t);
    CountingCodes(js, j, t);
    CountingFailure(js, j, t);
    CountingScenarios(js, j, t);
  }

  method Inspect(js: seq<Judged>) returns (t: Tally)
    ensures Tallied(js, t)
  {
    t := Tally([], [], [], false, {});
    var n := 0;
    while n < |js|
      invariant 0 <= n <= |js| && Tallied(js[..n], t)
    {
      CountingTallies(js[..n], js[n], t);
      assert js[..n + 1] == js[..n] + [js[n]];
      t := Counting(t, js[n]);
      n := n + 1;
    }
    assert js[..n] == js;
  }

  method RaiseCodes(x: Context, js: seq<Judged>, t: Tally) returns (codes: seq<Code>)
    requires Tallied(js, t) && (|t.scenarios| >= 2 <==> TwoScenarios(js))
    ensures forall c :: c in codes <==> Raised(x, js, c)
  {
    codes := t.codes;
    if x.review.rating != Again && EffortUnknown(x.observations, t.supporting) {
      codes := codes + [InsufficientRating];
    }
    if |t.supporting| < 2 || |t.scenarios| < 2 || !Covered(x.variations, x.review.weakness, t.supporting) {
      codes := codes + [InsufficientVaried];
    }
    if t.failure && x.review.rating != Again {
      codes := codes + [FailureRequiresAgain];
    }
    if !t.failure && x.review.rating == Again {
      codes := codes + [RatingConflicts];
    }
    if Unexplained(x.review) {
      codes := codes + [InsufficientRating];
    }
  }

  method DecideFrom(x: Context, js: seq<Judged>, version: nat) returns (d: Decision)
    ensures Decides(x, js, d) && d.weakness == x.review.weakness && d.policyVersion == version
  {
    var t := Inspect(js);
    ScenariosTell(js, t.scenarios);
    var codes := RaiseCodes(x, js, t);
    var sorted := SortDedup(codes);
    var eligible := |t.supporting| >= 2 && forall k :: 0 <= k < |sorted| ==> !Blocking(sorted[k]);
    d := Decision(x.review.weakness, eligible, sorted, t.supporting, t.excluded, version);
  }

  method ReviewDecision(r: Session, review: Review, version: nat) returns (d: Decision)
    ensures IsDecision(r, review, version, d)
  {
    if r.evidence.None? {
      d := Decision(review.weakness, false, [UnknownAssistance], [], review.citations, version);
    } else {
      var e := r.evidence.value;
      d := DecideFrom(Context(review, AllObservations(r), e.variations), Judgements(r, e, review), version);
    }
  }
}
