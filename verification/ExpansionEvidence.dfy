// The production evidence of an expansion read back: each record says of its
// attempt or observation what the compact request said, and each number in it
// names what the request's reference named.
module ExpansionEvidence {
  import opened Outcomes
  import opened SessionModel
  import opened CompactRequest
  import opened Expansion
  import opened ExpansionChecks
  import opened ExpansionReading

  // ----- what is read

  ghost predicate OriginalRead(attempts: seq<Attempt>, original: Option<AttemptRef>, no: Option<nat>) {
    match original
    case None => no.None?
    case Some(r) => no.Some? && Stands(attempts, no.value, r)
  }

  ghost predicate RecordRead(attempts: seq<Attempt>, x: AttemptEvidence, e: CompactEvidence) {
    && x.kind == e.kind && x.cueing == e.cueing && x.exposure == e.exposure && x.provenance == e.provenance
    && x.scenario == e.scenario && x.topic == e.topic && x.details == e.details
    && OriginalRead(attempts, e.original, x.originalNo)
  }

  predicate VerdictRead(e: Evidence, x: Observation, attemptNo: nat, s: Assessment) {
    && 1 <= x.no <= |e.observations|
    && var v := e.observations[x.no - 1];
       && v.observationNo == x.no && v.attemptNo == attemptNo
       && v.realization == s.realization && v.accuracy == s.accuracy && v.provenance == s.provenance
  }

  // The number is that of the first attempt recorded as a retry of attempt m.
  predicate IsFirstRetry(records: seq<AttemptEvidence>, m: nat, first: Option<nat>) {
    && (forall k :: 0 <= k < |records| && records[k].originalNo == Some(m) ==> first.Some? && first.value <= k + 1)
    && (first.Some? ==> 1 <= first.value <= |records| && records[first.value - 1].originalNo == Some(m))
  }

  // An intervention after attempt a of a turn precedes the next attempt of the
  // turn, and otherwise the first retry, if there is one.
  ghost predicate BeforeRead(out: Session, e: Evidence, r: AttemptRef, last: bool, m: nat, before: Option<nat>) {
    if last then IsFirstRetry(e.attempts, m, before)
    else before.Some? && Stands(out.attempts, before.value, AttemptRef(r.turn, r.attempt + 1))
  }

  ghost predicate HelpRead(out: Session, e: Evidence, turn: Turn, r: AttemptRef, m: nat)
    requires 1 <= r.attempt <= |turn.attempts|
  {
    var given, found := turn.attempts[r.attempt - 1].after, Having(e.interventions, After(m));
    && |found| == |given|
    && forall i :: 0 <= i < |found| ==>
         && found[i].text == given[i].text && found[i].targets == given[i].targets
         && BeforeRead(out, e, r, r.attempt == |turn.attempts|, m, found[i].beforeNo)
  }

  ghost predicate EvidenceRead(out: Session, e: Evidence, turn: Turn, r: AttemptRef, m: nat)
    requires 1 <= r.attempt <= |turn.attempts| && 1 <= m <= |out.attempts|
  {
    var at, x := turn.attempts[r.attempt - 1], out.attempts[m - 1];
    && |e.attempts| == |out.attempts| && at.evidence.Some? && e.attempts[m - 1].attemptNo == m
    && RecordRead(out.attempts, e.attempts[m - 1], at.evidence.value)
    && |x.observations| == |at.observations|
    && (forall o :: 0 <= o < |at.observations| ==>
          at.observations[o].assessment.Some? &&
          VerdictRead(e, x.observations[o], m, at.observations[o].assessment.value))
    && HelpRead(out, e, turn, r, m)
  }

  // ----- records of attempts and observations

  // Every attempt carries the evidence and assessments that production asks for.
  ghost predicate Assessed(turns: seq<Turn>) {
    forall t: nat, a: nat :: Valid(turns, t, a) ==> AssessedAt(turns, t, a)
  }

  predicate AssessedAt(turns: seq<Turn>, t: nat, a: nat)
    requires Valid(turns, t, a)
  {
    var at := turns[t].attempts[a];
    && at.evidence.Some? && (Original(at).Some? ==> AttemptRefOk(turns, Original(at).value))
    && forall o :: 0 <= o < |at.observations| ==> at.observations[o].assessment.Some?
  }

  lemma ProductionIsAssessed(req: Compact)
    requires Expandable(req) && ProductionPresent(req)
    ensures Assessed(req.turns)
  {
    forall t: nat, a: nat | Valid(req.turns, t, a)
      ensures AssessedAt(req.turns, t, a)
    {
      AcceptedAttempt(req, t, a);
    }
  }

  lemma RecordAt(turns: seq<Turn>, records: seq<AttemptEvidence>, t: nat, a: nat)
    requires Assessed(turns) && Filled(Attempts, turns, records, EvidenceAt(turns), |turns|, 0) && Valid(turns, t, a)
    ensures AttemptNo(turns, t, a) <= |records| && EvidenceAt(turns).requires(t, a, 0)
    ensures records[AttemptNo(turns, t, a) - 1] == EvidenceAt(turns)(t, a, 0)
    ensures turns[t].attempts[a].evidence.Some?
    ensures Original(turns[t].attempts[a]).Some? ==> AttemptRefOk(turns, Original(turns[t].attempts[a]).value)
  {
    assert Inside(Attempts, turns, t, a, 0) && Earlier(t, a, |turns|, 0);
    assert AssessedAt(turns, t, a);
  }

  lemma RecordIsRead(turns: seq<Turn>, attempts: seq<Attempt>, records: seq<AttemptEvidence>, t: nat, a: nat)
    requires Filled(Attempts, turns, attempts, AttemptAt(turns), |turns|, 0)
    requires Assessed(turns) && Filled(Attempts, turns, records, EvidenceAt(turns), |turns|, 0) && Valid(turns, t, a)
    ensures |records| == |attempts| && AttemptNo(turns, t, a) <= |records| && turns[t].attempts[a].evidence.Some?
    ensures records[AttemptNo(turns, t, a) - 1].attemptNo == AttemptNo(turns, t, a)
    ensures RecordRead(attempts, records[AttemptNo(turns, t, a) - 1], turns[t].attempts[a].evidence.value)
  {
    RecordAt(turns, records, t, a);
    var original := Original(turns[t].attempts[a]);
    if original.Some? {
      NumberStands(turns, attempts, original.value.turn - 1, original.value.attempt - 1);
    }
  }

  lemma VerdictIsRead(turns: seq<Turn>, e: Evidence, t: nat, a: nat, o: nat)
    requires Assessed(turns) && Filled(Observations, turns, e.observations, AssessmentAt(turns), |turns|, 0)
    requires Inside(Observations, turns, t, a, o)
    ensures Inside(Attempts, turns, t, a, 0) && turns[t].attempts[a].observations[o].assessment.Some?
    ensures VerdictRead(e, AttemptAt(turns)(t, a, 0).observations[o], AttemptNo(turns, t, a),
                        turns[t].attempts[a].observations[o].assessment.value)
  {
    assert Earlier(t, a, |turns|, 0) && AssessedAt(turns, t, a);
    assert Inside(Attempts, turns, t, a, 0);
  }

  // ----- interventions

  lemma HelpOwner(turns: seq<Turn>, list: seq<Intervention>, i: nat, t: nat, a: nat)
    requires InterventionsPlaced(turns, list) && Valid(turns, t, a) && i < |list|
    ensures list[i].afterNo == AttemptNo(turns, t, a) <==>
            Offset(Interventions, turns, t, a) <= i < Offset(Interventions, turns, t, a) + |turns[t].attempts[a].after|
  {
    var u, b := LocateInTurns(Interventions, turns, |turns|, i);
    assert Inside(Interventions, turns, u, b, i - Offset(Interventions, turns, u, b));
    AttemptNoInjective(turns, u, b, t, a);
    OffsetsAscend(Interventions, turns, u, b, t, a);
    OffsetsAscend(Interventions, turns, t, a, u, b);
  }

  lemma {:induction false} HelpBlock(turns: seq<Turn>, list: seq<Intervention>, t: nat, a: nat)
    requires InterventionsPlaced(turns, list) && Valid(turns, t, a)
    ensures Offset(Interventions, turns, t, a) + |turns[t].attempts[a].after| <= |list|
    ensures var lo := Offset(Interventions, turns, t, a);
            Having(list, After(AttemptNo(turns, t, a))) == list[lo..lo + |turns[t].attempts[a].after|]
  {
    var lo := Offset(Interventions, turns, t, a);
    OffsetsAscend(Interventions, turns, t, a, t, a);
    forall i | 0 <= i < |list|
      ensures After(AttemptNo(turns, t, a))(list[i]) <==> lo <= i < lo + |turns[t].attempts[a].after|
    {
      HelpOwner(turns, list, i, t, a);
    }
    HavingBlock(list, After(AttemptNo(turns, t, a)), lo, lo + |turns[t].attempts[a].after|);
  }

  // Which records name attempt (t, a) as their original.
  lemma RetriesAreRecorded(turns: seq<Turn>, records: seq<AttemptEvidence>, t: nat, a: nat, u: nat, b: nat)
    requires Assessed(turns) && Filled(Attempts, turns, records, EvidenceAt(turns), |turns|, 0)
    requires Valid(turns, t, a) && Valid(turns, u, b)
    ensures AttemptNo(turns, u, b) <= |records|
    ensures records[AttemptNo(turns, u, b) - 1].originalNo == Some(AttemptNo(turns, t, a)) <==>
            Original(turns[u].attempts[b]) == Some(AttemptRef(t + 1, a + 1))
  {
    RecordAt(turns, records, u, b);
    var original := Original(turns[u].attempts[b]);
    if original.Some? {
      AttemptNoInjective(turns, original.value.turn - 1, original.value.attempt - 1, t, a);
    }
  }

  lemma FirstRetryIsRead(turns: seq<Turn>, records: seq<AttemptEvidence>, t: nat, a: nat, first: Option<nat>)
    requires Assessed(turns) && Filled(Attempts, turns, records, EvidenceAt(turns), |turns|, 0) && Valid(turns, t, a)
    requires FirstRetry(turns, AttemptRef(t + 1, a + 1), first)
    ensures IsFirstRetry(records, AttemptNo(turns, t, a), first)
  {
    forall k | 0 <= k < |records| && records[k].originalNo == Some(AttemptNo(turns, t, a))
      ensures first.Some? && first.value <= k + 1
    {
      var u, b := AttemptNumbersInOrder(turns, k + 1);
      RetriesAreRecorded(turns, records, t, a, u, b);
    }
    if first.Some? {
      var u, b :| 0 <= u < |turns| && 0 <= b < |turns[u].attempts|
                  && Original(turns[u].attempts[b]) == Some(AttemptRef(t + 1, a + 1)) &&
                     AttemptNo(turns, u, b) == first.value;
      RetriesAreRecorded(turns, records, t, a, u, b);
    }
  }

  lemma BeforeIsRead(turns: seq<Turn>, out: Session, e: Evidence, t: nat, a: nat, before: Option<nat>)
    requires Filled(Attempts, turns, out.attempts, AttemptAt(turns), |turns|, 0)
    requires Assessed(turns) && Filled(Attempts, turns, e.attempts, EvidenceAt(turns), |turns|, 0)
    requires Valid(turns, t, a) && Precedes(turns, t, a, before)
    ensures BeforeRead(out, e, AttemptRef(t + 1, a + 1), a + 1 == |turns[t].attempts|, AttemptNo(turns, t, a), before)
  {
    if a + 1 < |turns[t].attempts| {
      NumberStands(turns, out.attempts, t, a + 1);
    } else {
      FirstRetryIsRead(turns, e.attempts, t, a, before);
    }
  }

  lemma HelpIsRead(turns: seq<Turn>, out: Session, e: Evidence, t: nat, a: nat)
    requires Filled(Attempts, turns, out.attempts, AttemptAt(turns), |turns|, 0)
    requires Assessed(turns) && Filled(Attempts, turns, e.attempts, EvidenceAt(turns), |turns|, 0)
    requires InterventionsPlaced(turns, e.interventions) && Valid(turns, t, a)
    ensures HelpRead(out, e, turns[t], AttemptRef(t + 1, a + 1), AttemptNo(turns, t, a))
  {
    HelpBlock(turns, e.interventions, t, a);
    var found := Having(e.interventions, After(AttemptNo(turns, t, a)));
    forall i | 0 <= i < |found|
      ensures found[i].text == turns[t].attempts[a].after[i].text
      ensures found[i].targets == turns[t].attempts[a].after[i].targets
      ensures BeforeRead(out, e, AttemptRef(t + 1, a + 1), a + 1 == |turns[t].attempts|, AttemptNo(turns, t, a),
                         found[i].beforeNo)
    {
      assert Inside(Interventions, turns, t, a, i);
      assert found[i] == e.interventions[Offset(Interventions, turns, t, a) + i];
      BeforeIsRead(turns, out, e, t, a, found[i].beforeNo);
    }
  }

  // Whatever attempt number m stands for, the evidence on it is what the request
  // said of that attempt.
  lemma EvidenceIsRead(req: Compact, out: Session, m: nat, r: AttemptRef)
    requires Expandable(req) && IsExpansion(req, out) && out.evidence.Some?
    requires AttemptRefOk(req.turns, r) && Stands(out.attempts, m, r)
    ensures EvidenceRead(out, out.evidence.value, req.turns[r.turn - 1], r, m)
  {
    var turns, t, a := req.turns, r.turn - 1, r.attempt - 1;
    ProductionIsAssessed(req);
    NumberStands(turns, out.attempts, t, a);
    OnePlaceEach(out.attempts, m, AttemptNo(turns, t, a), r);
    PlacedEvidence(turns, out, out.evidence.value, t, a);
  }

  lemma PlacedEvidence(turns: seq<Turn>, out: Session, e: Evidence, t: nat, a: nat)
    requires Filled(Attempts, turns, out.attempts, AttemptAt(turns), |turns|, 0)
    requires Assessed(turns) && Filled(Attempts, turns, e.attempts, EvidenceAt(turns), |turns|, 0)
    requires Filled(Observations, turns, e.observations, AssessmentAt(turns), |turns|, 0)
    requires InterventionsPlaced(turns, e.interventions) && Valid(turns, t, a)
    ensures AttemptNo(turns, t, a) <= |out.attempts|
    ensures EvidenceRead(out, e, turns[t], AttemptRef(t + 1, a + 1), AttemptNo(turns, t, a))
  {
    NumberStands(turns, out.attempts, t, a);
    RecordIsRead(turns, out.attempts, e.attempts, t, a);
    HelpIsRead(turns, out, e, t, a);
    forall o | 0 <= o < |turns[t].attempts[a].observations|
      ensures turns[t].attempts[a].observations[o].assessment.Some?
      ensures VerdictRead(e, AttemptAt(turns)(t, a, 0).observations[o], AttemptNo(turns, t, a),
                          turns[t].attempts[a].observations[o].assessment.value)
    {
      VerdictIsRead(turns, e, t, a, o);
    }
  }

  // ----- opportunities and variations

  function OpportunityCount(turns: seq<Turn>): nat {
    if turns == [] then 0
    else
      var last := turns[|turns| - 1];
      OpportunityCount(turns[..|turns| - 1]) + (if last.purpose.Some? then |last.targets| else 0)
  }

  function VariationCount(reviews: seq<CompactReview>): nat {
    if reviews == [] then 0
    else VariationCount(reviews[..|reviews| - 1]) + (if reviews[|reviews| - 1].variation.Some? then 1 else 0)
  }

  ghost predicate OpportunitiesRead(turns: seq<Turn>, list: seq<Opportunity>) {
    && |list| == OpportunityCount(turns)
    && forall t: nat, i: nat :: t < |turns| && turns[t].purpose.Some? && i < |turns[t].targets| ==>
         OpportunityRead(turns, list, t, i)
  }

  predicate OpportunityRead(turns: seq<Turn>, list: seq<Opportunity>, t: nat, i: nat)
    requires t < |turns| && turns[t].purpose.Some? && i < |turns[t].targets|
  {
    var k := OpportunityCount(turns[..t]) + i;
    k < |list| && list[k].weakness == turns[t].targets[i] && list[k].purpose == turns[t].purpose.value
  }

  // Each purpose of a turn makes one opportunity for each of its targets, in order.
  lemma {:induction false} OpportunitiesAreRead(turns: seq<Turn>)
    ensures OpportunitiesRead(turns, Opportunities(turns))
  {
    if turns != [] {
      var init := turns[..|turns| - 1];
      OpportunitiesAreRead(init);
      forall t: nat, i: nat | t < |turns| && turns[t].purpose.Some? && i < |turns[t].targets|
        ensures OpportunityRead(turns, Opportunities(turns), t, i)
      {
        if t < |init| {
          assert init[..t] == turns[..t] && OpportunityRead(init, Opportunities(init), t, i);
        } else {
          assert turns[..t] == init;
        }
      }
    }
  }

  ghost predicate VariationsRead(req: Compact, out: Session, reviews: seq<CompactReview>, list: seq<Variation>) {
    && |list| == VariationCount(reviews)
    && forall k: nat :: k < |reviews| && reviews[k].variation.Some? ==>
         && VariationCount(reviews[..k]) < |list|
         && VariationRead(req, out, reviews[k], list[VariationCount(reviews[..k])])
  }

  ghost predicate VariationRead(req: Compact, out: Session, r: CompactReview, v: Variation)
    requires r.variation.Some?
  {
    && v.weakness == r.target && v.rationale == r.variation.value.rationale
    && Cites(req, out, v.observationNos, r.variation.value.refs)
  }

  // The references of r's variation are in range and read back.
  ghost predicate VariationCites(req: Compact, out: Session, r: CompactReview) {
    ReviewOk(req.turns, true, r) &&
    (r.variation.Some? ==> Cites(req, out, Nos(req.turns, r.variation.value.refs), r.variation.value.refs))
  }

  // The variations in order, citing what their references named.
  lemma {:induction false} VariationsAreRead(req: Compact, out: Session, reviews: seq<CompactReview>)
    requires forall k :: 0 <= k < |reviews| ==> ReviewOk(req.turns, true, reviews[k])
    requires forall k :: 0 <= k < |reviews| ==> VariationCites(req, out, reviews[k])
    ensures VariationsRead(req, out, reviews, Variations(req.turns, reviews))
  {
    if reviews != [] {
      var init, last := reviews[..|reviews| - 1], reviews[|reviews| - 1];
      assert forall k :: 0 <= k < |init| ==> init[k] == reviews[k];
      VariationsAreRead(req, out, init);
      assert VariationCites(req, out, last);
      var list := Variations(req.turns, init);
      if last.variation.Some? {
        OneMoreVariation(req, out, reviews, list,
          Variation(last.target, Nos(req.turns, last.variation.value.refs), last.variation.value.rationale));
      } else {
        NoMoreVariation(req, out, reviews, list);
      }
    }
  }

  lemma OneMoreVariation(req: Compact, out: Session, reviews: seq<CompactReview>, list: seq<Variation>, v: Variation)
    requires reviews != [] && VariationsRead(req, out, reviews[..|reviews| - 1], list)
    requires reviews[|reviews| - 1].variation.Some? && VariationRead(req, out, reviews[|reviews| - 1], v)
    ensures VariationsRead(req, out, reviews, list + [v])
  {
    var init := reviews[..|reviews| - 1];
    assert forall k: nat :: k <= |init| ==> reviews[..k] == init[..k];
    assert init[..|init|] == init;
  }

  lemma NoMoreVariation(req: Compact, out: Session, reviews: seq<CompactReview>, list: seq<Variation>)
    requires reviews != [] && VariationsRead(req, out, reviews[..|reviews| - 1], list)
    requires reviews[|reviews| - 1].variation.None?
    ensures VariationsRead(req, out, reviews, list)
  {
    var init := reviews[..|reviews| - 1];
    assert forall k: nat :: k <= |init| ==> reviews[..k] == init[..k];
  }

  lemma VariationsAreCited(req: Compact, out: Session)
    requires IsExpansion(req, out) && ProductionPresent(req)
    ensures forall k :: 0 <= k < |req.reviews| ==> VariationCites(req, out, req.reviews[k])
  {
    forall k | 0 <= k < |req.reviews|
      ensures VariationCites(req, out, req.reviews[k])
    {
      if req.reviews[k].variation.Some? {
        NosCite(req, out, req.reviews[k].variation.value.refs);
      }
    }
  }

  // ----- the evidence as a whole

  predicate SaysAnything(req: Compact) {
    || (exists t, a ::
          0 <= t < |req.turns| && 0 <= a < |req.turns[t].attempts| && AttemptSays(req.turns[t].attempts[a]))
    || (exists k :: 0 <= k < |req.reviews| && req.reviews[k].variation.Some?)
  }

  predicate AttemptSays(at: CompactAttempt) {
    at.evidence.Some? || exists o :: 0 <= o < |at.observations| && at.observations[o].assessment.Some?
  }

  // There is evidence exactly when the request supplies any part of it, under its
  // policy version; interventions are numbered in order.
  lemma EvidenceIsWhole(req: Compact, out: Session)
    requires IsExpansion(req, out)
    ensures out.evidence.Some? <==> SaysAnything(req)
    ensures out.evidence.Some? ==>
              var e := out.evidence.value;
              && req.policyVersion == Some(e.policyVersion)
              && OpportunitiesRead(req.turns, e.opportunities)
              && VariationsRead(req, out, req.reviews, e.variations)
              && forall k :: 0 <= k < |e.interventions| ==> e.interventions[k].no == k + 1
  {
    forall at: CompactAttempt
      ensures AssessesAttempt(at) == AttemptSays(at)
    {
    }
    if ProductionPresent(req) {
      OpportunitiesAreRead(req.turns);
      VariationsAreCited(req, out);
      VariationsAreRead(req, out, req.reviews);
      forall k | 0 <= k < |out.evidence.value.interventions|
        ensures out.evidence.value.interventions[k].no == k + 1
      {
        var t, a, i := PlacedInterventionAt(req.turns, out.evidence.value.interventions, k);
      }
    }
  }

  // ----- feedback

  function Lines(s: string): (lines: seq<string>)
    ensures lines != []
  {
    if s == [] then [[]] else WithHead(s[0], Lines(s[1..]))
  }

  function WithHead(c: char, lines: seq<string>): (r: seq<string>)
    requires lines != []
    ensures r != []
  {
    if c == '\n' then [[]] + lines else [[c] + lines[0]] + lines[1..]
  }

  lemma HeadLine(c: char, xs: seq<string>, ys: seq<string>)
    requires xs != []
    ensures WithHead(c, xs + ys) == WithHead(c, xs) + ys
  {
    assert (xs + ys)[1..] == xs[1..] + ys;
  }

  function AllLines(texts: seq<string>): seq<string> {
    if texts == [] then [] else Lines(texts[0]) + AllLines(texts[1..])
  }

  lemma {:induction false} LinesJoin(a: string, b: string)
    ensures Lines(a + "\n" + b) == Lines(a) + Lines(b)
  {
    if a == [] {
      assert [] + "\n" + b == "\n" + b && ("\n" + b)[1..] == b;
    } else {
      LinesJoin(a[1..], b);
      var all := a + "\n" + b;
      assert all[0] == a[0] && all[1..] == a[1..] + "\n" + b;
      HeadLine(a[0], Lines(a[1..]), Lines(b));
    }
  }

  lemma {:induction false} JoinedLines(parts: seq<string>)
    requires parts != []
    ensures Lines(Joined(parts)) == AllLines(parts)
  {
    if |parts| == 1 {
      assert AllLines(parts[1..]) == [];
    } else {
      JoinedLines(parts[1..]);
      LinesJoin(parts[0], Joined(parts[1..]));
    }
  }

  lemma {:induction false} TextAt(ats: seq<CompactAttempt>, a: nat, i: nat)
    requires a < |ats| && i < |ats[a].after|
    ensures InAttempts(Interventions, ats, a) + i < |InterventionTexts(ats)|
    ensures InterventionTexts(ats)[InAttempts(Interventions, ats, a) + i] == ats[a].after[i].text
  {
    if a > 0 {
      TextAt(ats[1..], a - 1, i);
      FirstAside(ats, a);
    } else {
      assert InAttempts(Interventions, ats, 0) == 0;
    }
  }

  lemma {:induction false} FirstAside(ats: seq<CompactAttempt>, n: nat)
    requires 0 < n <= |ats|
    ensures InAttempts(Interventions, ats, n) == |ats[0].after| + InAttempts(Interventions, ats[1..], n - 1)
  {
    if n > 1 {
      FirstAside(ats, n - 1);
    } else {
      assert InAttempts(Interventions, ats, 0) == 0;
    }
  }

  lemma {:induction false} TextCount(ats: seq<CompactAttempt>)
    ensures |InterventionTexts(ats)| == InAttempts(Interventions, ats, |ats|)
  {
    if ats != [] {
      TextCount(ats[1..]);
      FirstAside(ats, |ats|);
    } else {
      assert InAttempts(Interventions, ats, 0) == 0;
    }
  }

  // Texts lists what was said after each attempt, in order.
  ghost predicate TextsInOrder(texts: seq<string>, ats: seq<CompactAttempt>) {
    && |texts| == InAttempts(Interventions, ats, |ats|)
    && forall a: nat, i: nat :: a < |ats| && i < |ats[a].after| ==> TextStands(texts, ats, a, i)
  }

  predicate TextStands(texts: seq<string>, ats: seq<CompactAttempt>, a: nat, i: nat)
    requires a < |ats| && i < |ats[a].after|
  {
    var k := InAttempts(Interventions, ats, a) + i;
    k < |texts| && texts[k] == ats[a].after[i].text
  }

  // Without evidence, an item's feedback holds the lines of all interventions of
  // its turn, in order, and there is none without interventions; with evidence
  // there is none at all.
  lemma FeedbackIsRead(req: Compact, out: Session, t: nat) returns (texts: seq<string>)
    requires IsExpansion(req, out) && t < |req.turns|
    ensures TextsInOrder(texts, req.turns[t].attempts)
    ensures var feedback := out.items[t].feedback;
            && (feedback.Some? <==> out.evidence.None? && texts != [])
            && (feedback.Some? ==> Lines(feedback.value) == AllLines(texts))
  {
    var ats := req.turns[t].attempts;
    texts := InterventionTexts(ats);
    TextsAreInOrder(ats);
    if texts != [] {
      JoinedLines(texts);
    }
    assert out.items[t] == ItemAt(req.turns, ProductionPresent(req), t);
  }

  lemma {:induction false} TextsAreInOrder(ats: seq<CompactAttempt>)
    ensures TextsInOrder(InterventionTexts(ats), ats)
  {
    TextCount(ats);
    forall a: nat, i: nat | a < |ats| && i < |ats[a].after|
      ensures TextStands(InterventionTexts(ats), ats, a, i)
    {
      TextAt(ats, a, i);
    }
  }
}
