// The recorder's own validators of a canonical request: numbers and links
// (src/db.rs, validate_record_practice_request; src/evidence.rs) and production
// evidence (src/production.rs, validate_evidence).
module CanonicalChecks {
  import opened Outcomes
  import opened Texts
  import opened SessionModel

  function FindAttempt(attempts: seq<Attempt>, no: nat): Option<Attempt> {
    if attempts == [] then None
    else if attempts[0].no == no then Some(attempts[0])
    else FindAttempt(attempts[1..], no)
  }

  function FindObservation(observations: seq<Observation>, no: nat): Option<Observation> {
    if observations == [] then None
    else if observations[0].no == no then Some(observations[0])
    else FindObservation(observations[1..], no)
  }

  predicate HasItem(items: seq<Item>, no: Option<nat>) {
    no.Some? && exists i :: 0 <= i < |items| && items[i].no == no.value
  }

  predicate HasAttempt(attempts: seq<Attempt>, no: nat) {
    exists i :: 0 <= i < |attempts| && attempts[i].no == no
  }

  predicate HasObservation(observations: seq<Observation>, no: nat) {
    exists i :: 0 <= i < |observations| && observations[i].no == no
  }

  // ----- numbers and links of the request

  predicate ItemsNumbered(items: seq<Item>) {
    forall i :: 0 <= i < |items| ==> items[i].no > 0 && forall j :: 0 <= j < i ==> items[j].no != items[i].no
  }

  predicate AttemptsNumbered(attempts: seq<Attempt>) {
    forall i :: 0 <= i < |attempts| ==> attempts[i].no > 0 && forall j :: 0 <= j < i ==>
        attempts[j].no != attempts[i].no
  }

  predicate ObservationsNumbered(observations: seq<Observation>) {
    forall i :: 0 <= i < |observations| ==>
      observations[i].no > 0 && forall j :: 0 <= j < i ==> observations[j].no != observations[i].no
  }

  predicate FindingLinked(r: Session, f: Finding) {
    && (f.itemNo.Some? ==> HasItem(r.items, f.itemNo))
    && (f.attemptNo.Some? ==>
          var attempt := FindAttempt(r.attempts, f.attemptNo.value);
          attempt.Some? && (f.itemNo.Some? ==> attempt.value.itemNo == f.itemNo))
  }

  predicate CitationsExist(r: Session, review: Review) {
    forall k :: 0 <= k < |review.citations| ==>
      review.citations[k] > 0 && HasObservation(AllObservations(r), review.citations[k])
  }

  predicate NumbersAndLinks(r: Session) {
    && ItemsNumbered(r.items)
    && AttemptsNumbered(r.attempts)
    && (forall i :: 0 <= i < |r.attempts| && r.attempts[i].itemNo.Some? ==> HasItem(r.items, r.attempts[i].itemNo))
    && (forall i :: 0 <= i < |r.assessments| ==>
         r.assessments[i].attemptNo > 0 && HasAttempt(r.attempts, r.assessments[i].attemptNo))
    && ObservationsNumbered(AllObservations(r)) && |AllObservations(r)| <= 300
    && (forall i :: 0 <= i < |r.findings| ==> FindingLinked(r, r.findings[i]))
    && (forall i :: 0 <= i < |r.reviews| ==> CitationsExist(r, r.reviews[i]))
  }

  // ----- production evidence

  predicate AttemptEvidenceLinked(r: Session, a: AttemptEvidence) {
    var attempt := FindAttempt(r.attempts, a.attemptNo);
    && attempt.Some?
    && !Blank(attempt.value.transcript) && HasItem(r.items, attempt.value.itemNo)
    && (a.originalNo.Some? ==> a.originalNo.value < a.attemptNo && HasAttempt(r.attempts, a.originalNo.value))
    && (a.kind == SelfCorrection ==> a.originalNo.Some?)
    && (a.kind == Initial ==> a.originalNo.None?)
  }

  predicate ObservationEvidenceLinked(r: Session, o: ObservationEvidence) {
    var attempt := FindAttempt(r.attempts, o.attemptNo);
    && FindObservation(AllObservations(r), o.observationNo).Some?
    && attempt.Some? && HasObservation(attempt.value.observations, o.observationNo)
  }

  predicate InterventionLinked(r: Session, i: Intervention) {
    && i.no > 0 && !Blank(i.text) && HasAttempt(r.attempts, i.afterNo)
    && (i.beforeNo.Some? ==> i.beforeNo.value > i.afterNo && HasAttempt(r.attempts, i.beforeNo.value))
  }

  // One record per attempt and per observation, nested where it belongs, with
  // originals earlier and interventions in order.
  predicate EvidenceLinked(r: Session, e: Evidence) {
    && (forall i :: 0 <= i < |e.attempts| ==>
          AttemptEvidenceLinked(r, e.attempts[i]) && forall j :: 0 <= j < i ==>
              e.attempts[j].attemptNo != e.attempts[i].attemptNo)
    && |e.attempts| == |r.attempts|
    && (forall i :: 0 <= i < |e.observations| ==>
          ObservationEvidenceLinked(r, e.observations[i])
          && forall j :: 0 <= j < i ==> e.observations[j].observationNo != e.observations[i].observationNo)
    && |e.observations| == |AllObservations(r)|
    && (forall i :: 0 <= i < |e.interventions| ==>
          InterventionLinked(r, e.interventions[i]) && forall j :: 0 <= j < i ==>
              e.interventions[j].no != e.interventions[i].no)
  }

  predicate AccuracyFits(o: ObservationEvidence, outcome: ObservationOutcome) {
    match o.realization
    case NotObserved => o.accuracy == NotAssessable && outcome == Omitted
    case Ambiguous => o.accuracy == NotAssessable && outcome == Omitted
    case _ =>
      match o.accuracy
      case Accurate => outcome == Correct || outcome == PromptedCorrect
      case Inaccurate => outcome == Incorrect
      case PartlyAccurate => outcome == PartiallyCorrect
      case NotAssessable => true
  }

  predicate ObservationEvidenceSound(r: Session, o: ObservationEvidence) {
    var actual := FindObservation(AllObservations(r), o.observationNo);
    !Blank(o.provenance) && (actual.Some? ==> AccuracyFits(o, actual.value.outcome))
  }

  predicate CorrectionExplained(e: Evidence, a: AttemptEvidence) {
    a.kind == SelfCorrection ==>
      exists i :: 0 <= i < |e.interventions| && a.originalNo.Some? && a.originalNo.value <= e.interventions[i].afterNo
                  && e.interventions[i].beforeNo == Some(a.attemptNo)
  }

  predicate VariationSound(r: Session, v: Variation) {
    && !Blank(v.rationale)
    && forall k :: 0 <= k < |v.observationNos| ==> NamesUse(AllObservations(r), v.observationNos[k], v.weakness)
  }

  predicate NamesUse(observations: seq<Observation>, no: nat, weakness: string) {
    exists i :: 0 <= i < |observations| && observations[i].no == no && observations[i].weakness == weakness
  }

  // What the evidence says of the learner, beyond its links.
  predicate EvidenceSound(r: Session, e: Evidence) {
    && (forall i :: 0 <= i < |e.attempts| ==> !Blank(e.attempts[i].provenance))
    && (forall i :: 0 <= i < |e.observations| ==> ObservationEvidenceSound(r, e.observations[i]))
    && (forall i :: 0 <= i < |e.attempts| ==> CorrectionExplained(e, e.attempts[i]))
    && (forall i :: 0 <= i < |e.variations| ==> VariationSound(r, e.variations[i]))
  }

  predicate EvidenceValid(r: Session) {
    r.evidence.Some? ==> EvidenceLinked(r, r.evidence.value) && EvidenceSound(r, r.evidence.value)
  }

  predicate AttemptRecordOk(r: Session, e: Evidence, i: nat)
    requires i < |e.attempts|
  {
    && AttemptEvidenceLinked(r, e.attempts[i]) && !Blank(e.attempts[i].provenance)
    && forall j :: 0 <= j < i ==> e.attempts[j].attemptNo != e.attempts[i].attemptNo
  }

  predicate ObservationRecordOk(r: Session, e: Evidence, i: nat)
    requires i < |e.observations|
  {
    && ObservationEvidenceLinked(r, e.observations[i]) && ObservationEvidenceSound(r, e.observations[i])
    && forall j :: 0 <= j < i ==> e.observations[j].observationNo != e.observations[i].observationNo
  }

  predicate InterventionRecordOk(r: Session, e: Evidence, i: nat)
    requires i < |e.interventions|
  {
    InterventionLinked(r, e.interventions[i]) && forall j :: 0 <= j < i ==>
        e.interventions[j].no != e.interventions[i].no
  }

  method ValidateAttempts(r: Session, e: Evidence) returns (ok: bool)
    ensures ok <==> (forall i :: 0 <= i < |e.attempts| ==> AttemptRecordOk(r, e, i)) && |e.attempts| == |r.attempts|
  {
    var seen: set<nat> := {};
    var i := 0;
    while i < |e.attempts|
      invariant 0 <= i <= |e.attempts| && |seen| == i
      invariant forall n :: n in seen <==> exists k :: 0 <= k < i && e.attempts[k].attemptNo == n
      invariant forall k :: 0 <= k < i ==> AttemptRecordOk(r, e, k)
    {
      var a := e.attempts[i];
      if a.attemptNo in seen || !AttemptEvidenceLinked(r, a) || Blank(a.provenance) {
        assert !AttemptRecordOk(r, e, i);
        return false;
      }
      seen := seen + {a.attemptNo};
      i := i + 1;
    }
    ok := |seen| == |r.attempts|;
  }

  method ValidateObservations(r: Session, e: Evidence) returns (ok: bool)
    ensures ok <==>
            (forall i :: 0 <= i < |e.observations| ==> ObservationRecordOk(r, e, i)) &&
              |e.observations| == |AllObservations(r)|
  {
    var seen: set<nat> := {};
    var i := 0;
    while i < |e.observations|
      invariant 0 <= i <= |e.observations| && |seen| == i
      invariant forall n :: n in seen <==> exists k :: 0 <= k < i && e.observations[k].observationNo == n
      invariant forall k :: 0 <= k < i ==> ObservationRecordOk(r, e, k)
    {
      var o := e.observations[i];
      if o.observationNo in seen || !ObservationEvidenceLinked(r, o) || !ObservationEvidenceSound(r, o) {
        assert !ObservationRecordOk(r, e, i);
        return false;
      }
      seen := seen + {o.observationNo};
      i := i + 1;
    }
    ok := |seen| == |AllObservations(r)|;
  }

  lemma AttemptRecords(r: Session, e: Evidence)
    ensures (forall i :: 0 <= i < |e.attempts| ==> AttemptRecordOk(r, e, i)) <==>
            (forall i :: 0 <= i < |e.attempts| ==>
               AttemptEvidenceLinked(r, e.attempts[i]) && forall j :: 0 <= j < i ==>
                   e.attempts[j].attemptNo != e.attempts[i].attemptNo)
            && (forall i :: 0 <= i < |e.attempts| ==> !Blank(e.attempts[i].provenance))
  {
    if forall i :: 0 <= i < |e.attempts| ==> AttemptRecordOk(r, e, i) {
      forall i | 0 <= i < |e.attempts|
        ensures AttemptEvidenceLinked(r, e.attempts[i]) && forall j :: 0 <= j < i ==>
                  e.attempts[j].attemptNo != e.attempts[i].attemptNo
        ensures !Blank(e.attempts[i].provenance)
      {
        assert AttemptRecordOk(r, e, i);
      }
    }
  }

  lemma ObservationRecords(r: Session, e: Evidence)
    ensures (forall i :: 0 <= i < |e.observations| ==> ObservationRecordOk(r, e, i)) <==>
            (forall i :: 0 <= i < |e.observations| ==>
               ObservationEvidenceLinked(r, e.observations[i])
               && forall j :: 0 <= j < i ==> e.observations[j].observationNo != e.observations[i].observationNo)
            && (forall i :: 0 <= i < |e.observations| ==> ObservationEvidenceSound(r, e.observations[i]))
  {
    if forall i :: 0 <= i < |e.observations| ==> ObservationRecordOk(r, e, i) {
      forall i | 0 <= i < |e.observations|
        ensures ObservationEvidenceLinked(r, e.observations[i])
        ensures forall j :: 0 <= j < i ==> e.observations[j].observationNo != e.observations[i].observationNo
        ensures ObservationEvidenceSound(r, e.observations[i])
      {
        assert ObservationRecordOk(r, e, i);
      }
    }
  }

  lemma InterventionRecords(r: Session, e: Evidence)
    ensures (forall i :: 0 <= i < |e.interventions| ==> InterventionRecordOk(r, e, i)) <==>
            forall i :: 0 <= i < |e.interventions| ==>
              InterventionLinked(r, e.interventions[i]) && forall j :: 0 <= j < i ==>
                  e.interventions[j].no != e.interventions[i].no
  {
    if forall i :: 0 <= i < |e.interventions| ==> InterventionRecordOk(r, e, i) {
      forall i | 0 <= i < |e.interventions|
        ensures InterventionLinked(r, e.interventions[i])
        ensures forall j :: 0 <= j < i ==> e.interventions[j].no != e.interventions[i].no
      {
        assert InterventionRecordOk(r, e, i);
      }
    }
  }

  lemma RecordsDecideEvidence(r: Session, e: Evidence)
    ensures EvidenceLinked(r, e) && EvidenceSound(r, e) <==>
            && (forall i :: 0 <= i < |e.attempts| ==> AttemptRecordOk(r, e, i)) && |e.attempts| == |r.attempts|
            && (forall i :: 0 <= i < |e.observations| ==> ObservationRecordOk(r, e, i)) &&
               |e.observations| == |AllObservations(r)|
            && (forall i :: 0 <= i < |e.interventions| ==> InterventionRecordOk(r, e, i))
            && (forall i :: 0 <= i < |e.attempts| ==> CorrectionExplained(e, e.attempts[i]))
            && (forall i :: 0 <= i < |e.variations| ==> VariationSound(r, e.variations[i]))
  {
    AttemptRecords(r, e);
    ObservationRecords(r, e);
    InterventionRecords(r, e);
  }

  method ValidateInterventions(r: Session, e: Evidence) returns (ok: bool)
    ensures ok <==> forall i :: 0 <= i < |e.interventions| ==> InterventionRecordOk(r, e, i)
  {
    var seen: set<nat> := {};
    var i := 0;
    while i < |e.interventions|
      invariant 0 <= i <= |e.interventions|
      invariant forall n :: n in seen <==> exists k :: 0 <= k < i && e.interventions[k].no == n
      invariant forall k :: 0 <= k < i ==> InterventionRecordOk(r, e, k)
    {
      if e.interventions[i].no in seen || !InterventionLinked(r, e.interventions[i]) {
        assert !InterventionRecordOk(r, e, i);
        return false;
      }
      seen := seen + {e.interventions[i].no};
      i := i + 1;
    }
    ok := true;
  }

  method ValidateConclusions(r: Session, e: Evidence) returns (ok: bool)
    ensures ok <==>
            && (forall i :: 0 <= i < |e.attempts| ==> CorrectionExplained(e, e.attempts[i]))
            && (forall i :: 0 <= i < |e.variations| ==> VariationSound(r, e.variations[i]))
  {
    var i := 0;
    while i < |e.attempts|
      invariant 0 <= i <= |e.attempts|
      invariant forall k :: 0 <= k < i ==> CorrectionExplained(e, e.attempts[k])
    {
      if !CorrectionExplained(e, e.attempts[i]) {
        return false;
      }
      i := i + 1;
    }
    i := 0;
    while i < |e.variations|
      invariant 0 <= i <= |e.variations|
      invariant forall k :: 0 <= k < i ==> VariationSound(r, e.variations[k])
    {
      if !VariationSound(r, e.variations[i]) {
        return false;
      }
      i := i + 1;
    }
    ok := true;
  }

  // validate_evidence accepts exactly the requests EvidenceValid describes.
  method ValidateEvidence(r: Session) returns (ok: bool)
    ensures ok <==> EvidenceValid(r)
  {
    if r.evidence.None? {
      return true;
    }
    var e := r.evidence.value;
    RecordsDecideEvidence(r, e);
    ok := ValidateAttempts(r, e);
    if ok {
      ok := ValidateObservations(r, e);
    }
    if ok {
      ok := ValidateInterventions(r, e);
    }
    if ok {
      ok := ValidateConclusions(r, e);
    }
  }
}
