// Why a record does not count, and what each code of a decision says, in the
// raw fields of the recording (src/production.rs, attempt_class and
// review_decision).
module ReviewReasons {
  import opened Outcomes
  import opened Texts
  import opened SessionModel
  import opened CanonicalChecks
  import opened ReviewPolicy
  import opened ReviewDecisions
  import opened ReviewFairness

  // ----- the conditions

  // What a record is about: the attempt and the item it names, if they exist.
  datatype About = About(attempt: Option<Attempt>, item: Option<Item>)

  function AboutAttempt(r: Session, a: AttemptEvidence): About {
    var attempt := FindAttempt(r.attempts, a.attemptNo);
    About(attempt, if attempt.None? then None else FindItem(r.items, attempt.value.itemNo))
  }

  predicate Found(x: About) {
    x.attempt.Some? && x.item.Some?
  }

  predicate IsPractised(x: About, weakness: string)
    requires Found(x)
  {
    weakness in x.item.value.targets ||
    exists o :: 0 <= o < |x.attempt.value.observations| && x.attempt.value.observations[o].weakness == weakness
  }

  // An earlier intervention without targets, or on something practised here.
  predicate HelpedBefore(e: Evidence, a: AttemptEvidence, x: About)
    requires Found(x)
  {
    exists i :: 0 <= i < |e.interventions| && HelpsWith(e.interventions[i], a, x)
  }

  predicate HelpsWith(help: Intervention, a: AttemptEvidence, x: About)
    requires Found(x)
  {
    help.afterNo < a.attemptNo &&
    (help.targets == [] || exists k :: 0 <= k < |help.targets| && IsPractised(x, help.targets[k]))
  }

  predicate IsAssisted(e: Evidence, a: AttemptEvidence, x: About)
    requires Found(x)
  {
    || a.kind == SelfCorrection || a.exposure == Exposure.Model || a.exposure == RelevantWording
    || HelpedBefore(e, a, x)
    || exists o :: 0 <= o < |x.attempt.value.observations| && WasHinted(x.attempt.value.observations[o])
  }

  predicate WasHinted(o: Observation) {
    o.hint == Some(IndirectHint) || o.hint == Some(DirectHint) || o.hint == Some(AnswerShown)
  }

  // The prompt dictates a form, or names the form of something practised here.
  predicate IsSupplied(x: About)
    requires Found(x)
  {
    var prompt := x.item.value.prompt;
    || SaysAny(prompt, INSTRUCTIONS)
    || (PractisesPart(x, "llevar") && SaysAny(prompt, ["llevas", "llevo", "lleva ", "llevamos", "llevar +"]))
    || (PractisesPart(x, "para_que") && Says(prompt, "para que"))
  }

  const INSTRUCTIONS: seq<string> :=
    ["exprésalo con", "expresalo con", "usando ", "utiliza ", "usa la estructura", "une las", "completa la frase",
     "transforma ", "rellena ", "___"]

  predicate PractisesPart(x: About, part: string)
    requires Found(x)
  {
    var targets, observed := x.item.value.targets, x.attempt.value.observations;
    || (exists k :: 0 <= k < |targets| && Contains(targets[k], part))
    || (exists o :: 0 <= o < |observed| && Contains(observed[o].weakness, part))
  }

  // d is c in lower case.
  predicate SameLetter(c: char, d: char) {
    var capital := 'A' <= c <= 'Z' || (192 <= c as int <= 222 && c as int != 215);
    d as int == if capital then c as int + 32 else c as int
  }

  // The words stand in the prompt, in capitals or not.
  predicate Says(prompt: string, words: string) {
    exists i :: 0 <= i <= |prompt| && SaysAt(prompt, words, i)
  }

  predicate SaysAt(prompt: string, words: string, i: nat) {
    i + |words| <= |prompt| && forall k :: 0 <= k < |words| ==> SameLetter(prompt[i + k], words[k])
  }

  predicate SaysAny(prompt: string, phrases: seq<string>) {
    exists k :: 0 <= k < |phrases| && Says(prompt, phrases[k])
  }

  predicate IsCued(a: AttemptEvidence, x: About)
    requires Found(x)
  {
    || IsSupplied(x)
    || a.cueing == Cueing.Indirect || a.cueing == TargetFormSupplied || a.cueing == ModelSupplied
    || x.item.value.drill in {Translation, SentenceTransformation, SentenceCompletion, SentenceCombining,
                              ErrorCorrection, MinimalPairChoice, DialogueCompletion}
  }

  predicate IsUnknown(e: Evidence, a: AttemptEvidence, x: About) {
    !Found(x) ||
    (!IsAssisted(e, a, x) && !IsCued(a, x) && (a.cueing == UnknownCueing || a.exposure == UnknownExposure))
  }

  // The condition each reason stands for; they are asked in this order.
  const REASONS: seq<Code> :=
    [TargetNotObserved, PromptSupplied, AssistedRetry, UnknownAssistance, AssistedOrCued, NotIndependentPhase,
     InsufficientRating]

  predicate Applies(code: Code, e: Evidence, o: ObservationEvidence, a: AttemptEvidence, actual: Observation,
                    x: About) {
    match code
    case TargetNotObserved => o.realization == NotObserved || o.realization == Ambiguous
    case PromptSupplied => !Found(x) || IsSupplied(x)
    case AssistedRetry => a.kind == SelfCorrection
    case UnknownAssistance => actual.hint.None? || IsUnknown(e, a, x)
    case AssistedOrCued => actual.hint != Some(NoHint) || !Found(x) || IsAssisted(e, a, x) || IsCued(a, x)
    case NotIndependentPhase => actual.phase != Some(ColdRetrieval) && actual.phase != Some(Transfer)
    case InsufficientRating => o.accuracy == NotAssessable
    case _ => false
  }

  // The first reason that applies.
  predicate IsReason(n: nat, e: Evidence, o: ObservationEvidence, a: AttemptEvidence, actual: Observation, x: About)
    requires n < |REASONS|
  {
    Applies(REASONS[n], e, o, a, actual, x) && forall i :: 0 <= i < n ==> !Applies(REASONS[i], e, o, a, actual, x)
  }

  // ----- prompts

  lemma SaysIff(prompt: string, words: string)
    ensures Contains(Lower(prompt), words) <==> Says(prompt, words)
  {
    var lower := Lower(prompt);
    forall i: nat | i <= |prompt|
      ensures StandsAt(lower, words, i) <==> SaysAt(prompt, words, i)
    {
      if i + |words| <= |prompt| {
        var part := lower[i..i + |words|];
        assert forall k :: 0 <= k < |part| ==> part[k] == LowerChar(prompt[i + k]);
        LettersAgree();
      }
    }
  }

  lemma LettersAgree()
    ensures forall c, d :: LowerChar(c) == d <==> SameLetter(c, d)
  {
  }

  lemma SaysAnyIff(prompt: string, phrases: seq<string>)
    ensures AnyContained(Lower(prompt), phrases) <==> SaysAny(prompt, phrases)
  {
    forall k | 0 <= k < |phrases|
      ensures Contains(Lower(prompt), phrases[k]) <==> Says(prompt, phrases[k])
    {
      SaysIff(prompt, phrases[k]);
    }
  }

  lemma PartIff(x: About, part: string)
    requires Found(x)
    ensures AnyNames(Practised(x.item.value, x.attempt.value), part) <==> PractisesPart(x, part)
  {
    var targets, observed := x.item.value.targets, x.attempt.value.observations;
    var all := Practised(x.item.value, x.attempt.value);
    assert forall k :: 0 <= k < |targets| ==> all[k] == targets[k];
    assert forall o :: 0 <= o < |observed| ==> all[|targets| + o] == observed[o].weakness;
    if k :| 0 <= k < |all| && Contains(all[k], part) {
      assert k < |targets| || observed[k - |targets|].weakness == all[k];
    }
  }

  // Every part of "duration_llevar" is part of the target, "llevar" among them.
  lemma LlevarIsPart(target: string)
    requires Contains(target, "duration_llevar")
    ensures Contains(target, "llevar")
  {
    var i :| 0 <= i <= |target| && StandsAt(target, "duration_llevar", i);
    assert "duration_llevar"[9..] == "llevar";
    assert StandsAt(target, "llevar", i + 9) by {
      assert target[i + 9..i + 15] == target[i..i + 15][9..];
    }
  }

  lemma SuppliedIff(x: About)
    requires Found(x)
    ensures PromptSupplies(x.item.value.prompt, Practised(x.item.value, x.attempt.value)) <==> IsSupplied(x)
  {
    var prompt, targets := x.item.value.prompt, Practised(x.item.value, x.attempt.value);
    SaysAnyIff(prompt, MANIPULATIONS);
    SaysAnyIff(prompt, LLEVAR_FORMS);
    SaysIff(prompt, "para que");
    PartIff(x, "llevar");
    PartIff(x, "para_que");
    if k :| 0 <= k < |targets| && Contains(targets[k], "duration_llevar") {
      LlevarIsPart(targets[k]);
    }
  }

  // ----- the verdict gives the first reason

  lemma ClassMeans(e: Evidence, a: AttemptEvidence, x: About)
    requires Found(x)
    ensures var supplied := IsSupplied(x);
            var c := Classify(e, x.item.value, x.attempt.value, a, supplied);
            && (c == Assisted <==> IsAssisted(e, a, x))
            && (c == CuedControlled <==> !IsAssisted(e, a, x) && IsCued(a, x))
            && (c == UnknownClass <==> IsUnknown(e, a, x))
  {
    var item, attempt := x.item.value, x.attempt.value;
    PractisedMeans(x);
    if HelpedBefore(e, a, x) {
      var i :| 0 <= i < |e.interventions| && HelpsWith(e.interventions[i], a, x);
      assert Touches(e.interventions[i], a.attemptNo, Practised(item, attempt));
    }
    if Exposed(e, a.attemptNo, Practised(item, attempt)) {
      var i :| 0 <= i < |e.interventions| && Touches(e.interventions[i], a.attemptNo, Practised(item, attempt));
      assert HelpsWith(e.interventions[i], a, x);
    }
  }

  lemma PractisedMeans(x: About)
    requires Found(x)
    ensures forall w :: w in Practised(x.item.value, x.attempt.value) <==> IsPractised(x, w)
  {
    var item, attempt := x.item.value, x.attempt.value;
    forall w
      ensures w in Weaknesses(attempt.observations) <==>
              exists o :: 0 <= o < |attempt.observations| && attempt.observations[o].weakness == w
    {
      if o :| 0 <= o < |attempt.observations| && attempt.observations[o].weakness == w {
        assert Weaknesses(attempt.observations)[o] == w;
      }
    }
  }

  lemma AttributionMeans(r: Session, e: Evidence, a: AttemptEvidence)
    ensures var x, c := AboutAttempt(r, a), AttemptClass(r, e, a);
            && (c.findings <==> !Found(x) || IsSupplied(x))
            && (c.class_ == UnknownClass <==> IsUnknown(e, a, x))
            && (c.class_ != IndependentClass <==>
                  !Found(x) || IsUnknown(e, a, x) || IsAssisted(e, a, x) || IsCued(a, x))
  {
    var x := AboutAttempt(r, a);
    if Found(x) {
      SuppliedIff(x);
      ClassMeans(e, a, x);
    }
  }

  // A record of the target with an attempt and an observation is excluded for the
  // first reason that applies to it, and counts when none does.
  lemma ExcludedForReason(r: Session, e: Evidence, target: string, o: ObservationEvidence, a: AttemptEvidence,
                          actual: Observation)
    requires ConcernsTarget(r, target, o.observationNo) && FindEvidence(e.attempts, o.attemptNo) == Some(a)
    requires FindObservation(AllObservations(r), o.observationNo) == Some(actual)
    ensures var x, v := AboutAttempt(r, a), VerdictOn(r, e, target, o);
            && (forall n: nat :: n < |REASONS| ==> (v == Excluded(REASONS[n]) <==> IsReason(n, e, o, a, actual, x)))
            && (v.Counted? <==> forall n :: 0 <= n < |REASONS| ==> !Applies(REASONS[n], e, o, a, actual, x))
            && (v == Counted(true) <==> v.Counted? && (o.accuracy == Inaccurate || o.accuracy == PartlyAccurate))
            && !v.Irrelevant? && !v.Invalid?
  {
    AttributionMeans(r, e, a);
    WeighedInOrder(e, o, a, actual, AboutAttempt(r, a), AttemptClass(r, e, a));
  }

  lemma WeighedInOrder(e: Evidence, o: ObservationEvidence, a: AttemptEvidence, actual: Observation, x: About,
                       c: Attribution)
    requires c.findings <==> !Found(x) || IsSupplied(x)
    requires c.class_ == UnknownClass <==> IsUnknown(e, a, x)
    requires c.class_ != IndependentClass <==> !Found(x) || IsUnknown(e, a, x) || IsAssisted(e, a, x) || IsCued(a, x)
    ensures forall n: nat :: n < |REASONS| ==>
              (Weigh(o, a, actual, c) == Excluded(REASONS[n]) <==> IsReason(n, e, o, a, actual, x))
    ensures Weigh(o, a, actual, c).Counted? <==>
            forall n :: 0 <= n < |REASONS| ==> !Applies(REASONS[n], e, o, a, actual, x)
    ensures Weigh(o, a, actual, c).Counted? || Weigh(o, a, actual, c).Excluded?
  {
    assert REASONS[0] == TargetNotObserved && REASONS[1] == PromptSupplied && REASONS[2] == AssistedRetry &&
           REASONS[3] == UnknownAssistance && REASONS[4] == AssistedOrCued && REASONS[5] == NotIndependentPhase &&
           REASONS[6] == InsufficientRating;
    UnknownIsCovered(e, o, a, actual, x);
  }

  lemma UnknownIsCovered(e: Evidence, o: ObservationEvidence, a: AttemptEvidence, actual: Observation, x: About)
    ensures actual.hint.None? || IsUnknown(e, a, x) ==> Applies(UnknownAssistance, e, o, a, actual, x)
  {
  }

  // ----- what a decision reports

  predicate ExcludedBy(r: Session, e: Evidence, target: string, o: ObservationEvidence, n: nat)
    requires n < |REASONS|
  {
    var a, actual := FindEvidence(e.attempts, o.attemptNo), FindObservation(AllObservations(r), o.observationNo);
    ConcernsTarget(r, target, o.observationNo) && a.Some? && actual.Some? &&
    IsReason(n, e, o, a.value, actual.value, AboutAttempt(r, a.value))
  }

  lemma VerdictMeans(r: Session, e: Evidence, target: string, o: ObservationEvidence)
    ensures var v := VerdictOn(r, e, target, o);
            && (forall n: nat :: n < |REASONS| ==> (v == Excluded(REASONS[n]) <==> ExcludedBy(r, e, target, o, n)))
            && (v.Excluded? ==> exists n: nat :: n < |REASONS| && v == Excluded(REASONS[n]))
            && (v == Invalid(InvalidAttempt) <==>
                  ConcernsTarget(r, target, o.observationNo) && FindEvidence(e.attempts, o.attemptNo).None?)
            && (v.Invalid? ==> v.code == InvalidAttempt || v.code == InvalidObservation)
  {
    var a, actual := FindEvidence(e.attempts, o.attemptNo), FindObservation(AllObservations(r), o.observationNo);
    if ConcernsTarget(r, target, o.observationNo) && a.Some? && actual.Some? {
      ExcludedForReason(r, e, target, o, a.value, actual.value);
    }
  }

  predicate CitedAndExcluded(r: Session, e: Evidence, review: Review, k: nat, n: nat)
    requires k < |e.observations| && n < |REASONS|
  {
    e.observations[k].observationNo in review.citations && ExcludedBy(r, e, review.weakness, e.observations[k], n)
  }

  predicate SupportingUse(r: Session, e: Evidence, review: Review, o: ObservationEvidence) {
    o.observationNo in review.citations && IndependentUse(r, e, review.weakness, o)
  }

  predicate TwoUses(r: Session, e: Evidence, review: Review) {
    exists i, j ::
      && 0 <= i < |e.observations| && 0 <= j < |e.observations|
      && SupportingUse(r, e, review, e.observations[i]) && SupportingUse(r, e, review, e.observations[j])
      && ScenariosDiffer(e, e.observations[i], e.observations[j])
  }

  // The records of the two attempts tell of different scenarios.
  predicate ScenariosDiffer(e: Evidence, o: ObservationEvidence, p: ObservationEvidence) {
    var a, b := FindEvidence(e.attempts, o.attemptNo), FindEvidence(e.attempts, p.attemptNo);
    a.Some? && b.Some? && a.value.scenario != b.value.scenario
  }

  predicate ListsAll(v: Variation, weakness: string, nos: seq<nat>) {
    v.weakness == weakness && forall n :: n in nos ==> n in v.observationNos
  }

  // The supporting and excluded numbers of a decision.
  lemma NumbersMean(r: Session, e: Evidence, review: Review, version: nat, d: Decision)
    requires r.evidence == Some(e) && IsDecision(r, review, version, d)
    ensures forall no :: no in d.supporting <==>
              exists k :: 0 <= k < |e.observations| && SupportingUse(r, e, review, e.observations[k])
                          && e.observations[k].observationNo == no
    ensures forall no :: no in d.excluded <==>
              exists k: nat, n: nat :: k < |e.observations| && n < |REASONS| && CitedAndExcluded(r, e, review, k, n)
                                       && e.observations[k].observationNo == no
  {
    var js := Judgements(r, e, review);
    ListedMeans(js);
    forall k: nat | k < |e.observations|
      ensures js[k].Supports() <==> SupportingUse(r, e, review, e.observations[k])
      ensures js[k].verdict.Excluded? && js[k].cited <==>
              exists n: nat :: n < |REASONS| && CitedAndExcluded(r, e, review, k, n)
    {
      CountedIff(r, e, review.weakness, e.observations[k]);
      JudgedExcluded(r, e, review, k);
    }
  }

  lemma JudgedExcluded(r: Session, e: Evidence, review: Review, k: nat)
    requires k < |e.observations|
    ensures var j := Judgements(r, e, review)[k];
            && (j.verdict.Excluded? && j.cited <==>
                  exists n: nat :: n < |REASONS| && CitedAndExcluded(r, e, review, k, n))
            && forall n: nat :: n < |REASONS| ==>
                 (j.verdict == Excluded(REASONS[n]) && j.cited <==> CitedAndExcluded(r, e, review, k, n))
  {
    var v := VerdictOn(r, e, review.weakness, e.observations[k]);
    VerdictMeans(r, e, review.weakness, e.observations[k]);
    if v.Excluded? && e.observations[k].observationNo in review.citations {
      var n: nat :| n < |REASONS| && v == Excluded(REASONS[n]);
      assert CitedAndExcluded(r, e, review, k, n);
    }
  }

  lemma {:induction false} ListedMeans(js: seq<Judged>)
    ensures forall no :: no in Supporting(js) <==> exists k :: 0 <= k < |js| && js[k].Supports() && js[k].no == no
    ensures forall no :: no in ExcludedNos(js) <==>
              exists k :: 0 <= k < |js| && js[k].verdict.Excluded? && js[k].cited && js[k].no == no
  {
    if js != [] {
      ListedMeans(js[..|js| - 1]);
      SupportingGrows(js);
      ExcludedGrows(js);
    }
  }

  lemma SupportingGrows(js: seq<Judged>)
    requires js != []
    requires var init := js[..|js| - 1];
             forall no :: no in Supporting(init) <==>
               exists k :: 0 <= k < |init| && init[k].Supports() && init[k].no == no
    ensures forall no :: no in Supporting(js) <==> exists k :: 0 <= k < |js| && js[k].Supports() && js[k].no == no
  {
    var init := js[..|js| - 1];
    forall no | no in Supporting(js)
      ensures exists k :: 0 <= k < |js| && js[k].Supports() && js[k].no == no
    {
      if no in Supporting(init) {
        var k :| 0 <= k < |init| && init[k].Supports() && init[k].no == no;
        assert js[k].Supports();
      }
    }
    forall k | 0 <= k < |js| && js[k].Supports()
      ensures js[k].no in Supporting(js)
    {
      assert k < |init| ==> init[k] == js[k];
    }
  }

  lemma ExcludedGrows(js: seq<Judged>)
    requires js != []
    requires var init := js[..|js| - 1];
             forall no :: no in ExcludedNos(init) <==>
               exists k :: 0 <= k < |init| && init[k].verdict.Excluded? && init[k].cited && init[k].no == no
    ensures forall no :: no in ExcludedNos(js) <==>
              exists k :: 0 <= k < |js| && js[k].verdict.Excluded? && js[k].cited && js[k].no == no
  {
    var init := js[..|js| - 1];
    forall no | no in ExcludedNos(js)
      ensures exists k :: 0 <= k < |js| && js[k].verdict.Excluded? && js[k].cited && js[k].no == no
    {
      if no in ExcludedNos(init) {
        var k :| 0 <= k < |init| && init[k].verdict.Excluded? && init[k].cited && init[k].no == no;
        assert js[k].cited;
      }
    }
    forall k | 0 <= k < |js| && js[k].verdict.Excluded? && js[k].cited
      ensures js[k].no in ExcludedNos(js)
    {
      assert k < |init| ==> init[k] == js[k];
    }
  }

  // Which reason each code of an exclusion is.
  lemma ReasonsDiffer(m: nat, n: nat)
    requires m < |REASONS| && n < |REASONS| && REASONS[m] == REASONS[n]
    ensures m == n
  {
  }

  predicate UncitedFailure(r: Session, e: Evidence, review: Review, k: nat)
    requires k < |e.observations|
  {
    e.observations[k].observationNo !in review.citations &&
    IndependentFailure(r, e, review.weakness, e.observations[k])
  }

  lemma RaisedByRecord(r: Session, e: Evidence, review: Review, k: nat, c: Code)
    requires k < |e.observations|
    ensures var j := Judgements(r, e, review)[k];
            Raises(j, c) <==>
            || (c == FailureNotCited && UncitedFailure(r, e, review, k))
            || (exists n: nat :: n < |REASONS| && REASONS[n] == c && CitedAndExcluded(r, e, review, k, n))
            || j.verdict == Invalid(c)
  {
    CountedIff(r, e, review.weakness, e.observations[k]);
    JudgedExcluded(r, e, review, k);
    VerdictMeans(r, e, review.weakness, e.observations[k]);
  }

  // Some cited record of the target is excluded for the reason.
  predicate SomeExcluded(r: Session, e: Evidence, review: Review, n: nat)
    requires n < |REASONS|
  {
    exists k: nat :: k < |e.observations| && CitedAndExcluded(r, e, review, k, n)
  }

  predicate NeverExplained(review: Review) {
    review.rating != Again && match review.rationale case None => true case Some(text) => Blank(text)
  }

  predicate EffortNotKnown(r: Session, review: Review, supporting: seq<nat>) {
    review.rating != Again &&
    exists i :: 0 <= i < |AllObservations(r)| && AllObservations(r)[i].no in supporting &&
      (AllObservations(r)[i].effort == None || AllObservations(r)[i].effort == Some(UnknownEffort))
  }

  ghost predicate VariedEnough(r: Session, e: Evidence, review: Review, supporting: seq<nat>) {
    && |supporting| >= 2 && TwoUses(r, e, review)
    && exists v :: 0 <= v < |e.variations| && ListsAll(e.variations[v], review.weakness, supporting)
  }

  // What each code of a decision on evidence says.
  ghost predicate CodesSay(r: Session, e: Evidence, review: Review, d: Decision) {
    && (FailureRequiresAgain in d.codes <==> AnyFailure(r, e, review.weakness) && review.rating != Again)
    && (RatingConflicts in d.codes <==> !AnyFailure(r, e, review.weakness) && review.rating == Again)
    && (FailureNotCited in d.codes <==> exists k: nat :: k < |e.observations| && UncitedFailure(r, e, review, k))
    && (InsufficientVaried in d.codes <==> !VariedEnough(r, e, review, d.supporting))
    && (InsufficientRating in d.codes <==>
          || SomeExcluded(r, e, review, 6) || NeverExplained(review) || EffortNotKnown(r, review, d.supporting))
    && (forall n: nat :: n < 6 ==> (REASONS[n] in d.codes <==> SomeExcluded(r, e, review, n)))
  }

  lemma CodesMean(r: Session, e: Evidence, review: Review, version: nat, d: Decision)
    requires r.evidence == Some(e) && IsDecision(r, review, version, d)
    ensures CodesSay(r, e, review, d)
  {
    OutcomeCodes(r, e, review, d);
    RatingCode(r, e, review, d);
    forall n: nat | n < 6
      ensures REASONS[n] in d.codes <==> SomeExcluded(r, e, review, n)
    {
      ReasonCode(r, e, review, d, n);
    }
  }

  lemma ReasonCode(r: Session, e: Evidence, review: Review, d: Decision, n: nat)
    requires r.evidence == Some(e) && n < 6
    requires Decides(Context(review, AllObservations(r), e.variations), Judgements(r, e, review), d)
    ensures REASONS[n] in d.codes <==> SomeExcluded(r, e, review, n)
  {
    ReasonsInPlace();
    RaisedForReason(r, e, review, n);
    RaisedByRecordsOnly(Context(review, AllObservations(r), e.variations), Judgements(r, e, review), REASONS[n]);
  }

  lemma RaisedByRecordsOnly(x: Context, js: seq<Judged>, c: Code)
    requires c !in {InsufficientRating, InsufficientVaried, FailureRequiresAgain, RatingConflicts}
    ensures Raised(x, js, c) <==> SomeRaises(js, c)
  {
  }

  ghost predicate SomeRaises(js: seq<Judged>, c: Code) {
    exists k :: 0 <= k < |js| && Raises(js[k], c)
  }

  lemma OutcomeCodes(r: Session, e: Evidence, review: Review, d: Decision)
    requires r.evidence == Some(e)
    requires Decides(Context(review, AllObservations(r), e.variations), Judgements(r, e, review), d)
    ensures FailureRequiresAgain in d.codes <==> AnyFailure(r, e, review.weakness) && review.rating != Again
    ensures RatingConflicts in d.codes <==> !AnyFailure(r, e, review.weakness) && review.rating == Again
    ensures FailureNotCited in d.codes <==> exists k: nat :: k < |e.observations| && UncitedFailure(r, e, review, k)
    ensures InsufficientVaried in d.codes <==> !VariedEnough(r, e, review, d.supporting)
  {
    FailedIff(r, e, review);
    VariedIff(r, e, review);
    NoRecordRaises(r, e, review);
    UncitedIsRaised(r, e, review);
  }

  lemma RatingCode(r: Session, e: Evidence, review: Review, d: Decision)
    requires r.evidence == Some(e)
    requires Decides(Context(review, AllObservations(r), e.variations), Judgements(r, e, review), d)
    ensures InsufficientRating in d.codes <==>
            SomeExcluded(r, e, review, 6) || NeverExplained(review) || EffortNotKnown(r, review, d.supporting)
  {
    ReasonsInPlace();
    RaisedForReason(r, e, review, 6);
  }

  lemma ReasonsInPlace()
    ensures REASONS[0] == TargetNotObserved && REASONS[1] == PromptSupplied && REASONS[2] == AssistedRetry
    ensures REASONS[3] == UnknownAssistance && REASONS[4] == AssistedOrCued && REASONS[5] == NotIndependentPhase
    ensures REASONS[6] == InsufficientRating && |REASONS| == 7
  {
  }

  // Some codes are never a single record's.
  lemma NoRecordRaises(r: Session, e: Evidence, review: Review)
    ensures var js := Judgements(r, e, review);
            !SomeRaises(js, FailureRequiresAgain) && !SomeRaises(js, RatingConflicts) &&
            !SomeRaises(js, InsufficientVaried)
  {
    var js := Judgements(r, e, review);
    ReasonsInPlace();
    forall k: nat, c | k < |js| && c in {FailureRequiresAgain, RatingConflicts, InsufficientVaried}
      ensures !Raises(js[k], c)
    {
      VerdictMeans(r, e, review.weakness, e.observations[k]);
    }
  }

  lemma UncitedIsRaised(r: Session, e: Evidence, review: Review)
    ensures SomeRaises(Judgements(r, e, review), FailureNotCited) <==>
            exists k: nat :: k < |e.observations| && UncitedFailure(r, e, review, k)
  {
    var js := Judgements(r, e, review);
    ReasonsInPlace();
    forall k: nat | k < |js|
      ensures Raises(js[k], FailureNotCited) <==> UncitedFailure(r, e, review, k)
    {
      CountedIff(r, e, review.weakness, e.observations[k]);
      VerdictMeans(r, e, review.weakness, e.observations[k]);
    }
  }

  lemma RaisedForReason(r: Session, e: Evidence, review: Review, n: nat)
    requires n < |REASONS|
    ensures var js := Judgements(r, e, review);
            SomeRaises(js, REASONS[n]) <==> SomeExcluded(r, e, review, n)
  {
    var js := Judgements(r, e, review);
    ReasonsInPlace();
    forall k: nat | k < |js|
      ensures Raises(js[k], REASONS[n]) <==> CitedAndExcluded(r, e, review, k, n)
    {
      RaisedByRecord(r, e, review, k, REASONS[n]);
      VerdictMeans(r, e, review.weakness, e.observations[k]);
      forall m: nat | m < |REASONS| && REASONS[m] == REASONS[n]
        ensures m == n
      {
        ReasonsDiffer(m, n);
      }
    }
  }

  lemma VariedIff(r: Session, e: Evidence, review: Review)
    ensures var js := Judgements(r, e, review);
            Varied(Context(review, AllObservations(r), e.variations), js) <==>
            VariedEnough(r, e, review, Supporting(js))
  {
    var js := Judgements(r, e, review);
    forall k: nat | k < |js|
      ensures js[k].Supports() <==> SupportingUse(r, e, review, e.observations[k])
      ensures js[k].scenario == ScenarioOf(e, e.observations[k])
    {
      CountedIff(r, e, review.weakness, e.observations[k]);
    }
    assert TwoScenarios(js) <==> TwoUses(r, e, review);
    forall v: nat | v < |e.variations|
      ensures Covers(e.variations[v], review.weakness, Supporting(js)) <==>
              ListsAll(e.variations[v], review.weakness, Supporting(js))
    {
    }
  }

  // ----- the order of the codes

  function CodeName(c: Code): string {
    match c
    case AssistedOrCued => "assisted_or_cued"
    case AssistedRetry => "assisted_retry"
    case FailureNotCited => "independent_failure_not_cited"
    case FailureRequiresAgain => "independent_failure_requires_again"
    case InsufficientRating => "insufficient_rating_evidence"
    case InsufficientVaried => "insufficient_varied_evidence"
    case InvalidAttempt => "invalid_attempt_reference"
    case InvalidObservation => "invalid_observation_reference"
    case NotIndependentPhase => "not_independent_assessment_phase"
    case PromptSupplied => "prompt_supplied_target"
    case RatingConflicts => "rating_conflicts_with_success"
    case TargetNotObserved => "target_not_observed"
    case UnknownAssistance => "unknown_assistance"
  }

  const CODE_NAMES: seq<string> :=
    ["assisted_or_cued", "assisted_retry", "independent_failure_not_cited", "independent_failure_requires_again",
     "insufficient_rating_evidence", "insufficient_varied_evidence", "invalid_attempt_reference",
     "invalid_observation_reference", "not_independent_assessment_phase", "prompt_supplied_target",
     "rating_conflicts_with_success", "target_not_observed", "unknown_assistance"]

  lemma CodeNamesAscend()
    ensures NextIsGreater(CODE_NAMES)
  {
    forall i | 0 <= i < |CODE_NAMES| - 1
      ensures TextLess(CODE_NAMES[i], CODE_NAMES[i + 1])
    {
      if i in {0, 2, 3, 4, 5, 6} {
        CloseNames(i);
      } else {
        FarNames(i);
      }
    }
  }

  // Names that start with different letters.
  lemma FarNames(i: nat)
    requires i < |CODE_NAMES| - 1 && i !in {0, 2, 3, 4, 5, 6}
    ensures TextLess(CODE_NAMES[i], CODE_NAMES[i + 1])
  {
  }

  // Names that start alike.
  lemma CloseNames(i: nat)
    requires i in {0, 2, 3, 4, 5, 6}
    ensures TextLess(CODE_NAMES[i], CODE_NAMES[i + 1])
  {
    if i == 0 {
      AssistedNames();
      LessAfter("assisted_", "or_cued", "retry");
    } else if i == 2 {
      FailureNames();
      LessAfter("independent_failure_", "not_cited", "requires_again");
    } else if i == 3 {
      AgainName();
      RatingName();
      LessAfter("in", "dependent_failure_" + "requires_again", "sufficient_rating_evidence");
    } else if i == 4 {
      RatingStem();
      VariedStem();
      LessAfter("insufficient_", "rating_evidence", "varied_evidence");
    } else if i == 5 {
      VariedName();
      AttemptName();
      LessAfter("in", "sufficient_varied_evidence", "valid_attempt_reference");
    } else {
      AttemptStem();
      ObservationName();
      LessAfter("invalid_", "attempt_reference", "observation_reference");
    }
  }

  lemma AssistedNames()
    ensures CODE_NAMES[0] == "assisted_" + "or_cued" && CODE_NAMES[1] == "assisted_" + "retry"
  {
  }

  lemma FailureNames()
    ensures CODE_NAMES[2] == "independent_failure_" + "not_cited"
    ensures CODE_NAMES[3] == "independent_failure_" + "requires_again"
  {
  }

  lemma AgainName()
    ensures CODE_NAMES[3] == "in" + ("dependent_failure_" + "requires_again")
  {
    FailureNames();
    FailureStem();
    Regroup("in", "dependent_failure_", "requires_again");
  }

  lemma FailureStem()
    ensures "independent_failure_" == "in" + "dependent_failure_"
  {
  }

  lemma Regroup(a: string, b: string, c: string)
    ensures (a + b) + c == a + (b + c)
  {
  }

  lemma RatingName()
    ensures CODE_NAMES[4] == "in" + "sufficient_rating_evidence"
  {
  }

  lemma VariedName()
    ensures CODE_NAMES[5] == "in" + "sufficient_varied_evidence"
  {
  }

  lemma AttemptName()
    ensures CODE_NAMES[6] == "in" + "valid_attempt_reference"
  {
  }

  lemma RatingStem()
    ensures CODE_NAMES[4] == "insufficient_" + "rating_evidence"
  {
  }

  lemma VariedStem()
    ensures CODE_NAMES[5] == "insufficient_" + "varied_evidence"
  {
  }

  lemma AttemptStem()
    ensures CODE_NAMES[6] == "invalid_" + "attempt_reference"
  {
  }

  lemma ObservationName()
    ensures CODE_NAMES[7] == "invalid_" + "observation_reference"
  {
  }

  lemma NamedByRank(c: Code)
    ensures Rank(c) < |CODE_NAMES| && CodeName(c) == CODE_NAMES[Rank(c)]
  {
  }

  // A decision lists its codes in the order of their wire names, none twice.
  lemma CodesInNameOrder(r: Session, review: Review, version: nat, d: Decision)
    requires IsDecision(r, review, version, d)
    ensures forall i, j :: 0 <= i < j < |d.codes| ==> TextLess(CodeName(d.codes[i]), CodeName(d.codes[j]))
  {
    CodeNamesAscend();
    forall i, j | 0 <= i < j < |d.codes|
      ensures TextLess(CodeName(d.codes[i]), CodeName(d.codes[j]))
    {
      NamedByRank(d.codes[i]);
      NamedByRank(d.codes[j]);
      RankedByName(CODE_NAMES, Rank(d.codes[i]), Rank(d.codes[j]));
    }
  }
}
