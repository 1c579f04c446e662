// Attempts whose observations do not count leave the decision alone.
module ReviewAdditions {
  import opened Outcomes
  import opened SessionModel
  import opened CanonicalChecks
  import opened ReviewPolicy
  import opened ReviewDecisions
  import opened ReviewFairness
  import opened ReviewOrder

  // A further attempt x, with its record and the records of its observations,
  // all under numbers the session does not use yet; possibly the item of a new
  // turn; and what the tutor said after the attempts there were.
  datatype Addition = Addition(
    item: Option<Item>, x: Attempt, record: AttemptEvidence, observations: seq<ObservationEvidence>,
    interventions: seq<Intervention>)

  predicate Separate(r: Session, e: Evidence, add: Addition) {
    && add.record.attemptNo == add.x.no
    && (forall k :: 0 <= k < |r.attempts| ==> r.attempts[k].no != add.x.no)
    && (forall o, k :: 0 <= o < |add.x.observations| && 0 <= k < |e.observations| ==>
          add.x.observations[o].no != e.observations[k].observationNo)
    && (forall k :: 0 <= k < |add.observations| ==> add.observations[k].attemptNo == add.x.no)
    && (add.item.Some? ==> NewItem(r, add.item.value))
    && (forall i, k :: 0 <= i < |add.interventions| && 0 <= k < |r.attempts| ==>
          add.interventions[i].afterNo >= r.attempts[k].no)
  }

  // Evidence nests every observation under an attempt, so none is the item's own.
  predicate NewItem(r: Session, item: Item) {
    item.observations == [] && forall k :: 0 <= k < |r.items| ==> r.items[k].no != item.no
  }

  function Extended(r: Session, e: Evidence, add: Addition): Session {
    r.(items := r.items + ItemsOf(add), attempts := r.attempts + [add.x], evidence := Some(WithRecords(e, add)))
  }

  function ItemsOf(add: Addition): seq<Item> {
    if add.item.Some? then [add.item.value] else []
  }

  function WithRecords(e: Evidence, add: Addition): Evidence {
    e.(attempts := e.attempts + [add.record], observations := e.observations + add.observations,
       interventions := e.interventions + add.interventions)
  }

  predicate SetAside(v: Verdict) {
    v.Irrelevant? || (v.Excluded? && v.code != InsufficientRating)
  }

  lemma {:induction false} FindEvidenceExtends(attempts: seq<AttemptEvidence>, more: AttemptEvidence, no: nat)
    requires more.attemptNo != no
    ensures FindEvidence(attempts + [more], no) == FindEvidence(attempts, no)
  {
    if attempts != [] {
      assert (attempts + [more])[1..] == attempts[1..] + [more];
      FindEvidenceExtends(attempts[1..], more, no);
    }
  }

  lemma {:induction false} FindAttemptExtends(attempts: seq<Attempt>, more: Attempt, no: nat)
    requires more.no != no
    ensures FindAttempt(attempts + [more], no) == FindAttempt(attempts, no)
  {
    if attempts != [] {
      assert (attempts + [more])[1..] == attempts[1..] + [more];
      FindAttemptExtends(attempts[1..], more, no);
    }
  }

  lemma {:induction false} FindObservationExtends(observations: seq<Observation>, more: seq<Observation>, no: nat)
    requires forall o :: 0 <= o < |more| ==> more[o].no != no
    ensures FindObservation(observations + more, no) == FindObservation(observations, no)
  {
    if observations != [] {
      assert (observations + more)[1..] == observations[1..] + more;
      FindObservationExtends(observations[1..], more, no);
    } else {
      assert observations + more == more;
      NoObservation(more, no);
    }
  }

  lemma {:induction false} NoObservation(observations: seq<Observation>, no: nat)
    requires forall o :: 0 <= o < |observations| ==> observations[o].no != no
    ensures FindObservation(observations, no) == None
  {
    if observations != [] {
      NoObservation(observations[1..], no);
    }
  }

  lemma {:induction false} AttemptObservationsExtend(attempts: seq<Attempt>, x: Attempt)
    ensures AttemptObservations(attempts + [x]) == AttemptObservations(attempts) + x.observations
  {
    if attempts == [] {
      assert attempts + [x] == [x] && [x][1..] == [];
    } else {
      assert (attempts + [x])[1..] == attempts[1..] + [x];
      AttemptObservationsExtend(attempts[1..], x);
    }
  }

  lemma {:induction false} ItemObservationsExtend(items: seq<Item>, item: Item)
    requires item.observations == []
    ensures ItemObservations(items + [item]) == ItemObservations(items)
  {
    if items == [] {
      assert items + [item] == [item] && [item][1..] == [];
    } else {
      assert (items + [item])[1..] == items[1..] + [item];
      ItemObservationsExtend(items[1..], item);
    }
  }

  lemma {:induction false} FindItemExtends(items: seq<Item>, more: Item, no: Option<nat>)
    requires Some(more.no) != no
    ensures FindItem(items + [more], no) == FindItem(items, no)
  {
    if items != [] {
      assert (items + [more])[1..] == items[1..] + [more];
      FindItemExtends(items[1..], more, no);
    } else {
      assert items + [more] == [more] && [more][1..] == [];
    }
  }

  lemma AllObservationsExtend(r: Session, e: Evidence, add: Addition)
    requires Separate(r, e, add)
    ensures AllObservations(Extended(r, e, add)) == AllObservations(r) + add.x.observations
  {
    AttemptObservationsExtend(r.attempts, add.x);
    if add.item.Some? {
      ItemObservationsExtend(r.items, add.item.value);
    } else {
      assert r.items + ItemsOf(add) == r.items;
    }
  }

  lemma {:induction false} OldItem(r: Session, add: Addition, no: Option<nat>)
    requires (add.item.Some? ==> NewItem(r, add.item.value)) && HasItem(r.items, no)
    ensures FindItem(r.items + ItemsOf(add), no) == FindItem(r.items, no)
  {
    if add.item.Some? {
      FindItemExtends(r.items, add.item.value, no);
    } else {
      assert r.items + ItemsOf(add) == r.items;
    }
  }

  lemma {:induction false} FoundAttemptIsThere(attempts: seq<Attempt>, no: nat)
    requires FindAttempt(attempts, no).Some?
    ensures FindAttempt(attempts, no).value in attempts && FindAttempt(attempts, no).value.no == no
  {
    if attempts[0].no != no {
      FoundAttemptIsThere(attempts[1..], no);
    }
  }

  // What is said later exposes nobody earlier.
  lemma {:induction false} OldExposure(r: Session, e: Evidence, add: Addition, attemptNo: nat, practised: seq<string>)
    requires Separate(r, e, add) && FindAttempt(r.attempts, attemptNo).Some?
    ensures Exposed(WithRecords(e, add), attemptNo, practised) <==> Exposed(e, attemptNo, practised)
  {
    FoundAttemptIsThere(r.attempts, attemptNo);
    var all := WithRecords(e, add).interventions;
    assert forall i :: 0 <= i < |e.interventions| ==> all[i] == e.interventions[i];
    assert forall i :: |e.interventions| <= i < |all| ==> all[i] == add.interventions[i - |e.interventions|];
  }

  lemma OldClass(r: Session, e: Evidence, add: Addition, a: AttemptEvidence)
    requires Separate(r, e, add) && AttemptEvidenceLinked(r, a)
    ensures AttemptClass(Extended(r, e, add), WithRecords(e, add), a) == AttemptClass(r, e, a)
  {
    FoundAttemptIsThere(r.attempts, a.attemptNo);
    FindAttemptExtends(r.attempts, add.x, a.attemptNo);
    var attempt := FindAttempt(r.attempts, a.attemptNo).value;
    OldItem(r, add, attempt.itemNo);
    var item := FindItem(r.items, attempt.itemNo);
    if item.Some? {
      OldExposure(r, e, add, a.attemptNo, Practised(item.value, attempt));
    }
  }

  lemma OldConcern(r: Session, e: Evidence, add: Addition, target: string, no: nat)
    requires Separate(r, e, add)
    requires forall o :: 0 <= o < |add.x.observations| ==> add.x.observations[o].no != no
    ensures ConcernsTarget(Extended(r, e, add), target, no) <==> ConcernsTarget(r, target, no)
  {
    AllObservationsExtend(r, e, add);
    var all, more := AllObservations(r), AllObservations(Extended(r, e, add));
    if i :| 0 <= i < |all| && all[i].no == no && all[i].weakness == target {
      assert more[i] == all[i];
    }
  }

  lemma OldVerdict(r: Session, e: Evidence, add: Addition, target: string, k: nat)
    requires EvidenceLinked(r, e) && Separate(r, e, add) && k < |e.observations|
    ensures VerdictOn(Extended(r, e, add), WithRecords(e, add), target, e.observations[k]) ==
            VerdictOn(r, e, target, e.observations[k])
    ensures ScenarioOf(WithRecords(e, add), e.observations[k]) == ScenarioOf(e, e.observations[k])
  {
    var o := e.observations[k];
    assert ObservationEvidenceLinked(r, o);
    FoundAttemptIsThere(r.attempts, o.attemptNo);
    FindEvidenceExtends(e.attempts, add.record, o.attemptNo);
    EvidenceFound(e.attempts, o.attemptNo);
    OldConcern(r, e, add, target, o.observationNo);
    AllObservationsExtend(r, e, add);
    FindObservationExtends(AllObservations(r), add.x.observations, o.observationNo);
    var a := FindEvidence(e.attempts, o.attemptNo);
    if a.Some? {
      OldClass(r, e, add, a.value);
    }
  }

  lemma {:induction false} ExtrasSupportNothing(js: seq<Judged>, extras: seq<Judged>)
    requires forall k :: 0 <= k < |extras| ==> SetAside(extras[k].verdict)
    ensures Supporting(js + extras) == Supporting(js)
    decreases |extras|
  {
    if extras == [] {
      assert js + extras == js;
    } else {
      var all := js + extras;
      assert all[..|all| - 1] == js + extras[..|extras| - 1];
      ExtrasSupportNothing(js, extras[..|extras| - 1]);
    }
  }

  lemma {:induction false} SupportedNumbersAreJudged(js: seq<Judged>, n: nat)
    requires n in Supporting(js)
    ensures exists k :: 0 <= k < |js| && js[k].no == n
  {
    if js[|js| - 1].no != n {
      var init := js[..|js| - 1];
      SupportedNumbersAreJudged(init, n);
      var k :| 0 <= k < |init| && init[k].no == n;
      assert js[k].no == n;
    }
  }

  ghost predicate Appended(js: seq<Judged>, all: seq<Judged>) {
    && |js| <= |all|
    && (forall k :: 0 <= k < |js| ==> all[k] == js[k])
    && (forall k :: |js| <= k < |all| ==> SetAside(all[k].verdict))
  }

  lemma NoNewScenario(js: seq<Judged>, all: seq<Judged>)
    requires Appended(js, all)
    ensures TwoScenarios(js) <==> TwoScenarios(all)
  {
    if TwoScenarios(js) {
      var i, j :| 0 <= i < |js| && 0 <= j < |js| && js[i].Supports() && js[j].Supports() &&
          js[i].scenario != js[j].scenario;
      assert all[i] == js[i] && all[j] == js[j];
    }
  }

  lemma NoNewFailure(js: seq<Judged>, all: seq<Judged>)
    requires Appended(js, all)
    ensures Failed(js) <==> Failed(all)
  {
    if k :| 0 <= k < |js| && js[k].Fails() {
      assert all[k] == js[k];
    }
  }

  predicate AllFailuresCited(js: seq<Judged>) {
    forall k :: 0 <= k < |js| && js[k].Fails() ==> js[k].cited
  }

  predicate NoneBlocks(js: seq<Judged>) {
    forall k :: 0 <= k < |js| ==> !BlocksByItself(js[k])
  }

  lemma NoNewBlock(js: seq<Judged>, all: seq<Judged>)
    requires Appended(js, all) && KnownCodes(all)
    ensures AllFailuresCited(js) <==> AllFailuresCited(all)
    ensures NoneBlocks(js) <==> NoneBlocks(all)
  {
    assert AllFailuresCited(all) ==> forall k :: 0 <= k < |js| ==> all[k] == js[k];
    if NoneBlocks(all) {
      forall k | 0 <= k < |js|
        ensures !BlocksByItself(js[k])
      {
        assert all[k] == js[k];
      }
    }
  }

  // The only exclusion that blocks is the unassessable one.
  ghost predicate KnownCodes(js: seq<Judged>) {
    forall k :: 0 <= k < |js| && js[k].verdict.Excluded? && Blocking(js[k].verdict.code) ==>
        js[k].verdict.code == InsufficientRating
  }

  lemma JudgementsKnowCodes(r: Session, e: Evidence, review: Review)
    ensures KnownCodes(Judgements(r, e, review))
  {
    forall k | 0 <= k < |e.observations|
      ensures var v := VerdictOn(r, e, review.weakness, e.observations[k]);
              v.Excluded? && Blocking(v.code) ==> v.code == InsufficientRating
    {
    }
  }

  lemma {:induction false} SetAsideChangesNothing(x: Context, y: Context, js: seq<Judged>, extras: seq<Judged>)
    requires KnownCodes(js + extras) && forall k :: 0 <= k < |extras| ==> SetAside(extras[k].verdict)
    requires x.review.(citations := []) == y.review.(citations := []) && x.variations == y.variations
    requires EffortUnknown(x.observations, Supporting(js)) <==> EffortUnknown(y.observations, Supporting(js))
    ensures Deserves(x, js) <==> Deserves(y, js + extras)
  {
    ExtrasSupportNothing(js, extras);
    NoNewScenario(js, js + extras);
    NoNewFailure(js, js + extras);
    NoNewBlock(js, js + extras);
    assert Varied(x, js) <==> Varied(y, js + extras);
    assert Unexplained(x.review) <==> Unexplained(y.review);
  }

  lemma EffortOfOldObservations(r: Session, e: Evidence, add: Addition, review: Review)
    requires Separate(r, e, add)
    ensures var nos := Supporting(Judgements(r, e, review));
            EffortUnknown(AllObservations(r), nos) <==> EffortUnknown(AllObservations(Extended(r, e, add)), nos)
  {
    var all, more := AllObservations(r), AllObservations(Extended(r, e, add));
    var js := Judgements(r, e, review);
    AllObservationsExtend(r, e, add);
    forall i | 0 <= i < |more| && more[i].no in Supporting(js)
      ensures i < |all| && more[i] == all[i]
    {
      SupportedNumbersAreJudged(js, more[i].no);
    }
    if i :|
      0 <= i < |all| && all[i].no in Supporting(js) && (all[i].effort.None? || all[i].effort == Some(UnknownEffort))
    {
      assert more[i] == all[i];
    }
  }

  lemma ExtendedJudgements(r: Session, e: Evidence, add: Addition, review: Review, review': Review)
    requires EvidenceLinked(r, e) && Separate(r, e, add) && review'.weakness == review.weakness
    requires forall k :: 0 <= k < |e.observations| ==>
               (e.observations[k].observationNo in review.citations <==>
                   e.observations[k].observationNo in review'.citations)
    ensures var r', e' := Extended(r, e, add), WithRecords(e, add);
            Judgements(r', e', review') == Judgements(r, e, review) + JudgeAll(r', e', review', add.observations)
  {
    var r', e' := Extended(r, e, add), WithRecords(e, add);
    forall k | 0 <= k < |e.observations|
      ensures Judgements(r', e', review')[k] == Judgements(r, e, review)[k]
    {
      assert e'.observations[k] == e.observations[k];
      OldVerdict(r, e, add, review.weakness, k);
    }
    assert forall k :: |e.observations| <= k < |e'.observations| ==>
             e'.observations[k] == add.observations[k - |e.observations|];
  }

  // A further attempt, of a turn there was or a new one, whose observations are
  // all set aside (assisted, cued, of unknown assistance, in the wrong phase, not
  // observed, or about something else) changes neither the eligibility nor the
  // support, cited or not, and neither does what the tutor says after it.
  lemma SetAsideAttemptsDoNotMatter(r: Session, e: Evidence, add: Addition, review: Review, review': Review,
                                    version: nat,
                                    d: Decision, d': Decision)
    requires r.evidence == Some(e) && EvidenceLinked(r, e) && Separate(r, e, add)
    requires review' == review.(citations := review'.citations)
    requires forall k :: 0 <= k < |e.observations| ==>
               (e.observations[k].observationNo in review.citations <==>
                   e.observations[k].observationNo in review'.citations)
    requires forall k :: 0 <= k < |add.observations| ==>
               SetAside(VerdictOn(Extended(r, e, add), WithRecords(e, add), review.weakness, add.observations[k]))
    requires IsDecision(r, review, version, d) && IsDecision(Extended(r, e, add), review', version, d')
    ensures d.eligible == d'.eligible && d.supporting == d'.supporting
  {
    var r', e' := Extended(r, e, add), WithRecords(e, add);
    var js, extras := Judgements(r, e, review), JudgeAll(r', e', review', add.observations);
    ExtendedJudgements(r, e, add, review, review');
    JudgementsKnowCodes(r', e', review');
    EffortOfOldObservations(r, e, add, review);
    ExtrasSupportNothing(js, extras);
    var x, y := Context(review, AllObservations(r), e.variations), Context(review', AllObservations(r'), e'.variations);
    SetAsideChangesNothing(x, y, js, extras);
    EligibleIff(x, js, d);
    EligibleIff(y, js + extras, d');
  }
}
