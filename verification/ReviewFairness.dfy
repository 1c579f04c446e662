// What the eligibility rule guarantees a learner, whatever a tutor cites.
module ReviewFairness {
  import opened Outcomes
  import opened SessionModel
  import opened CanonicalChecks
  import opened ReviewPolicy
  import opened ReviewDecisions

  // ----- what counts, in the raw fields

  predicate Unassisted(e: Evidence, item: Item, attempt: Attempt, a: AttemptEvidence) {
    && a.kind != SelfCorrection && a.exposure == NoneKnown && a.cueing == NoneDetected
    && (forall o :: 0 <= o < |attempt.observations| ==>
          attempt.observations[o].hint.None? || attempt.observations[o].hint == Some(NoHint))
    && (forall i :: 0 <= i < |e.interventions| && e.interventions[i].afterNo < a.attemptNo ==>
          e.interventions[i].targets != []
          && forall k :: 0 <= k < |e.interventions[i].targets| ==>
               e.interventions[i].targets[k] !in Practised(item, attempt))
    && item.drill in {SituationalResponse, QuestionAnswer, MicroStory, Retell, Fluency432}
    && !PromptSupplies(item.prompt, Practised(item, attempt))
  }

  // The record is an assessable use of the target, produced cold or in a
  // transfer, with no hint, cue, model or earlier intervention.
  predicate Independent(r: Session, e: Evidence, o: ObservationEvidence) {
    var a := FindEvidence(e.attempts, o.attemptNo);
    var actual := FindObservation(AllObservations(r), o.observationNo);
    && a.Some? && actual.Some?
    && var attempt := FindAttempt(r.attempts, a.value.attemptNo);
       && attempt.Some?
       && var item := FindItem(r.items, attempt.value.itemNo);
          && item.Some?
          && Unassisted(e, item.value, attempt.value, a.value)
          && (o.realization == Used || o.realization == Attempted) && o.accuracy != NotAssessable
          && actual.value.hint == Some(NoHint)
          && (actual.value.phase == Some(ColdRetrieval) || actual.value.phase == Some(Transfer))
  }

  lemma IndependentClassIff(e: Evidence, item: Item, attempt: Attempt, a: AttemptEvidence)
    ensures var supplied := PromptSupplies(item.prompt, Practised(item, attempt));
            Classify(e, item, attempt, a, supplied) == IndependentClass && !supplied <==>
                Unassisted(e, item, attempt, a)
  {
    var practised := Practised(item, attempt);
    if !Exposed(e, a.attemptNo, practised) {
      forall i | 0 <= i < |e.interventions| && e.interventions[i].afterNo < a.attemptNo
        ensures e.interventions[i].targets != []
        ensures forall k :: 0 <= k < |e.interventions[i].targets| ==> e.interventions[i].targets[k] !in practised
      {
        assert !Touches(e.interventions[i], a.attemptNo, practised);
      }
    }
  }

  // The ladder of exclusions lets through exactly the independent uses.
  lemma CountedIff(r: Session, e: Evidence, target: string, o: ObservationEvidence)
    ensures VerdictOn(r, e, target, o).Counted? <==> ConcernsTarget(r, target, o.observationNo) && Independent(r, e, o)
    ensures VerdictOn(r, e, target, o) == Counted(true) <==>
            && ConcernsTarget(r, target, o.observationNo) && Independent(r, e, o)
            && (o.accuracy == Inaccurate || o.accuracy == PartlyAccurate)
  {
    var a := FindEvidence(e.attempts, o.attemptNo);
    if a.Some? {
      var attempt := FindAttempt(r.attempts, a.value.attemptNo);
      if attempt.Some? {
        var item := FindItem(r.items, attempt.value.itemNo);
        if item.Some? {
          IndependentClassIff(e, item.value, attempt.value, a.value);
        }
      }
    }
  }

  predicate IndependentUse(r: Session, e: Evidence, target: string, o: ObservationEvidence) {
    ConcernsTarget(r, target, o.observationNo) && Independent(r, e, o)
  }

  predicate IndependentFailure(r: Session, e: Evidence, target: string, o: ObservationEvidence) {
    IndependentUse(r, e, target, o) && (o.accuracy == Inaccurate || o.accuracy == PartlyAccurate)
  }

  predicate AnyFailure(r: Session, e: Evidence, target: string) {
    exists k :: 0 <= k < |e.observations| && IndependentFailure(r, e, target, e.observations[k])
  }

  // ----- when a review is eligible

  predicate BlocksByItself(j: Judged) {
    match j.verdict
    case Invalid(code) => Blocking(code)
    case Excluded(code) => j.cited && Blocking(code)
    case _ => false
  }

  // Eligibility without the codes.
  predicate Deserves(x: Context, js: seq<Judged>) {
    && Varied(x, js)
    && (Failed(js) <==> x.review.rating == Again)
    && (forall k :: 0 <= k < |js| && js[k].Fails() ==> js[k].cited)
    && (forall k :: 0 <= k < |js| ==> !BlocksByItself(js[k]))
    && !Unexplained(x.review)
    && (x.review.rating != Again ==> !EffortUnknown(x.observations, Supporting(js)))
  }

  lemma EligibleIff(x: Context, js: seq<Judged>, d: Decision)
    requires Decides(x, js, d)
    ensures d.eligible <==> Deserves(x, js)
  {
    if Deserves(x, js) {
      forall c | c in d.codes
        ensures !Blocking(c)
      {
        assert Raised(x, js, c);
      }
    }
    if d.eligible {
      forall c | Blocking(c)
        ensures !Raised(x, js, c)
      {
      }
      DeservesFromCodes(x, js);
    }
  }

  lemma DeservesFromCodes(x: Context, js: seq<Judged>)
    requires forall c :: Blocking(c) ==> !Raised(x, js, c)
    ensures Deserves(x, js)
  {
    assert !Raised(x, js, InsufficientVaried) && !Raised(x, js, FailureRequiresAgain) &&
           !Raised(x, js, RatingConflicts);
    assert !Raised(x, js, InsufficientRating);
    forall k | 0 <= k < |js|
      ensures !BlocksByItself(js[k]) && (js[k].Fails() ==> js[k].cited)
    {
      if js[k].Fails() && !js[k].cited {
        assert Raises(js[k], FailureNotCited);
        assert Raised(x, js, FailureNotCited);
      }
      if BlocksByItself(js[k]) {
        assert Raises(js[k], js[k].verdict.code);
        assert Raised(x, js, js[k].verdict.code);
      }
    }
  }

  lemma FailedIff(r: Session, e: Evidence, review: Review)
    ensures Failed(Judgements(r, e, review)) <==> AnyFailure(r, e, review.weakness)
  {
    var js := Judgements(r, e, review);
    forall k | 0 <= k < |e.observations|
      ensures js[k].Fails() <==> IndependentFailure(r, e, review.weakness, e.observations[k])
    {
      CountedIff(r, e, review.weakness, e.observations[k]);
    }
  }

  predicate TwoIndependentScenarios(r: Session, e: Evidence, review: Review, v: Variation) {
    exists i, j ::
      && 0 <= i < |e.observations| && 0 <= j < |e.observations|
      && CitedUse(r, e, review, v, e.observations[i]) && CitedUse(r, e, review, v, e.observations[j])
      && ScenarioOf(e, e.observations[i]) != ScenarioOf(e, e.observations[j])
  }

  predicate CitedUse(r: Session, e: Evidence, review: Review, v: Variation, o: ObservationEvidence) {
    IndependentUse(r, e, review.weakness, o) && o.observationNo in review.citations &&
      o.observationNo in v.observationNos
  }

  lemma {:induction false} SupportIsListed(js: seq<Judged>, k: nat)
    requires k < |js| && js[k].Supports()
    ensures js[k].no in Supporting(js)
  {
    if k < |js| - 1 {
      assert js[..|js| - 1][k] == js[k];
      SupportIsListed(js[..|js| - 1], k);
    }
  }

  lemma VariedMeans(r: Session, e: Evidence, review: Review) returns (v: Variation)
    requires Varied(Context(review, AllObservations(r), e.variations), Judgements(r, e, review))
    ensures v in e.variations && v.weakness == review.weakness && TwoIndependentScenarios(r, e, review, v)
  {
    var js := Judgements(r, e, review);
    var n :| 0 <= n < |e.variations| && Covers(e.variations[n], review.weakness, Supporting(js));
    v := e.variations[n];
    var i, j :| 0 <= i < |js| && 0 <= j < |js| && js[i].Supports() && js[j].Supports() &&
        js[i].scenario != js[j].scenario;
    SupportIsListed(js, i);
    SupportIsListed(js, j);
    CountedIff(r, e, review.weakness, e.observations[i]);
    CountedIff(r, e, review.weakness, e.observations[j]);
    assert CitedUse(r, e, review, v, e.observations[i]) && CitedUse(r, e, review, v, e.observations[j]);
  }

  // An eligible review says Again exactly when some independent attempt failed,
  // cites every such failure, and rests on independent uses from two scenarios
  // that one variation assessment covers.
  lemma EligibleMeans(r: Session, e: Evidence, review: Review, version: nat, d: Decision) returns (v: Variation)
    requires r.evidence == Some(e) && IsDecision(r, review, version, d) && d.eligible
    ensures review.rating == Again <==> AnyFailure(r, e, review.weakness)
    ensures forall k :: 0 <= k < |e.observations| && IndependentFailure(r, e, review.weakness, e.observations[k]) ==>
              e.observations[k].observationNo in review.citations
    ensures v in e.variations && v.weakness == review.weakness && TwoIndependentScenarios(r, e, review, v)
  {
    var js := Judgements(r, e, review);
    EligibleIff(Context(review, AllObservations(r), e.variations), js, d);
    FailedIff(r, e, review);
    v := VariedMeans(r, e, review);
    forall k | 0 <= k < |e.observations| && IndependentFailure(r, e, review.weakness, e.observations[k])
      ensures e.observations[k].observationNo in review.citations
    {
      CountedIff(r, e, review.weakness, e.observations[k]);
      assert js[k].Fails();
    }
  }

  // No choice of citations, rating or rationale gets around a failure: two
  // eligible reviews of one target agree on whether it failed.
  lemma NoCherryPicking(r: Session, e: Evidence, one: Review, two: Review, version: nat, d1: Decision, d2: Decision)
    requires r.evidence == Some(e) && one.weakness == two.weakness
    requires IsDecision(r, one, version, d1) && IsDecision(r, two, version, d2)
    ensures d1.eligible && d2.eligible ==> (one.rating == Again <==> two.rating == Again)
    ensures d1.eligible && one.rating != Again ==> !AnyFailure(r, e, one.weakness)
  {
    if d1.eligible {
      var v := EligibleMeans(r, e, one, version, d1);
    }
    if d2.eligible {
      var v := EligibleMeans(r, e, two, version, d2);
    }
  }

  // ----- more help never makes more evidence

  lemma InterventionsOnlyShrink(r: Session, e: Evidence, more: Evidence, target: string, o: ObservationEvidence)
    requires more.attempts == e.attempts && forall i :: 0 <= i < |e.interventions| ==>
               e.interventions[i] in more.interventions
    ensures VerdictOn(r, more, target, o).Counted? ==> VerdictOn(r, e, target, o) == VerdictOn(r, more, target, o)
  {
    CountedIff(r, e, target, o);
    CountedIff(r, more, target, o);
  }

  lemma {:induction false} SupportShrinks(js: seq<Judged>, fewer: seq<Judged>)
    requires |js| == |fewer| && forall k :: 0 <= k < |js| ==>
               js[k].no == fewer[k].no && js[k].cited == fewer[k].cited &&
                 (fewer[k].verdict.Counted? ==> js[k].verdict.Counted?)
    ensures |Supporting(fewer)| <= |Supporting(js)| && forall n :: n in Supporting(fewer) ==> n in Supporting(js)
  {
    if js != [] {
      SupportShrinks(js[..|js| - 1], fewer[..|js| - 1]);
    }
  }

  // Reporting further interventions can only take records out of the supporting set.
  lemma MoreHelpLessSupport(r: Session, e: Evidence, more: Evidence, review: Review, version: nat, d: Decision,
                            d': Decision)
    requires more.attempts == e.attempts && more.observations == e.observations
    requires forall i :: 0 <= i < |e.interventions| ==> e.interventions[i] in more.interventions
    requires IsDecision(r.(evidence := Some(e)), review, version, d)
    requires IsDecision(r.(evidence := Some(more)), review, version, d')
    ensures forall n :: n in d'.supporting ==> n in d.supporting
    ensures |d'.supporting| <= |d.supporting|
  {
    var r0, r1 := r.(evidence := Some(e)), r.(evidence := Some(more));
    var js, fewer := Judgements(r0, e, review), Judgements(r1, more, review);
    forall k | 0 <= k < |js|
      ensures js[k].no == fewer[k].no && js[k].cited == fewer[k].cited &&
              (fewer[k].verdict.Counted? ==> js[k].verdict.Counted?)
    {
      var o := e.observations[k];
      InterventionsOnlyShrink(r0, e, more, review.weakness, o);
      SameVerdictWithoutEvidenceField(r0, r1, more, review.weakness, o);
    }
    SupportShrinks(js, fewer);
  }

  lemma SameVerdictWithoutEvidenceField(r: Session, r': Session, e: Evidence, target: string, o: ObservationEvidence)
    requires r' == r.(evidence := r'.evidence)
    ensures VerdictOn(r, e, target, o) == VerdictOn(r', e, target, o)
  {
    assert AllObservations(r) == AllObservations(r');
    assert ConcernsTarget(r, target, o.observationNo) <==> ConcernsTarget(r', target, o.observationNo);
    var a := FindEvidence(e.attempts, o.attemptNo);
    if a.Some? {
      assert AttemptClass(r, e, a.value) == AttemptClass(r', e, a.value);
    }
  }
}
