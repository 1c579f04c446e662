// What a valid recording request is, by its numbers as sets: every link names one
// thing, and the evidence matches the attempts and observations one to one
// (src/db.rs, validate_record_practice_request; src/production.rs,
// validate_evidence).
module SessionFacts {
  import opened Outcomes
  import opened Sets
  import opened Texts
  import opened SessionModel
  import opened CanonicalChecks

  // ----- numbers as sets

  function ItemNos(items: seq<Item>): set<nat> {
    set i | 0 <= i < |items| :: items[i].no
  }

  function AttemptNos(attempts: seq<Attempt>): set<nat> {
    set i | 0 <= i < |attempts| :: attempts[i].no
  }

  function ObservationNos(observations: seq<Observation>): set<nat> {
    set i | 0 <= i < |observations| :: observations[i].no
  }

  // As many numbers as entries, none of them zero: each number names one entry.
  predicate EachNumbered(nos: set<nat>, count: nat) {
    |nos| == count && 0 !in nos
  }

  predicate ResolvesItem(r: Session, no: Option<nat>) {
    match no case Some(n) => n in ItemNos(r.items) case None => true
  }

  // Attempts, findings, assessments and citations name what is there; a finding on
  // an attempt and an item names an attempt of that item.
  ghost predicate LinksHold(r: Session) {
    && EachNumbered(ItemNos(r.items), |r.items|) && EachNumbered(AttemptNos(r.attempts), |r.attempts|)
    && EachNumbered(ObservationNos(AllObservations(r)), |AllObservations(r)|) && |AllObservations(r)| <= 300
    && (forall a :: a in r.attempts ==> ResolvesItem(r, a.itemNo))
    && (forall s :: s in r.assessments ==> s.attemptNo in AttemptNos(r.attempts))
    && (forall f :: f in r.findings ==> ResolvesItem(r, f.itemNo) && FindingHolds(r, f))
    && forall v, n :: v in r.reviews && n in v.citations ==> n in ObservationNos(AllObservations(r))
  }

  ghost predicate FindingHolds(r: Session, f: Finding) {
    match f.attemptNo
    case None => true
    case Some(n) => exists a :: a in r.attempts && a.no == n && (f.itemNo != None ==> a.itemNo == f.itemNo)
  }

  function Firsts(nos: seq<nat>, n: nat): set<nat>
    requires n <= |nos|
  {
    set i | 0 <= i < n :: nos[i]
  }

  lemma {:induction false} CountsApart(nos: seq<nat>, n: nat)
    requires n <= |nos|
    ensures |Firsts(nos, n)| <= n
    ensures |Firsts(nos, n)| == n <==> forall i, j :: 0 <= i < j < n ==> nos[i] != nos[j]
  {
    if n > 0 {
      CountsApart(nos, n - 1);
      var earlier := Firsts(nos, n - 1);
      assert Firsts(nos, n) == earlier + {nos[n - 1]};
      if nos[n - 1] in earlier {
        var i :| 0 <= i < n - 1 && nos[i] == nos[n - 1];
        assert Firsts(nos, n) == earlier;
      }
    } else {
      assert Firsts(nos, 0) == {};
    }
  }

  // Counting the distinct numbers decides whether each names one entry.
  lemma EachIff(nos: seq<nat>)
    ensures EachNumbered(Firsts(nos, |nos|), |nos|) <==>
            forall i :: 0 <= i < |nos| ==> nos[i] > 0 && forall j :: 0 <= j < i ==> nos[j] != nos[i]
  {
    CountsApart(nos, |nos|);
  }

  lemma ItemsIff(items: seq<Item>)
    ensures ItemsNumbered(items) <==> EachNumbered(ItemNos(items), |items|)
  {
    var nos := seq(|items|, i requires 0 <= i < |items| => items[i].no);
    EachIff(nos);
    assert forall i :: 0 <= i < |items| ==> nos[i] == items[i].no;
    assert ItemNos(items) == Firsts(nos, |nos|);
    assert (forall i :: 0 <= i < |nos| ==> nos[i] > 0 && forall j :: 0 <= j < i ==> nos[j] != nos[i]) <==>
           forall i :: 0 <= i < |items| ==> items[i].no > 0 && forall j :: 0 <= j < i ==> items[j].no != items[i].no;
  }

  lemma AttemptsIff(attempts: seq<Attempt>)
    ensures AttemptsNumbered(attempts) <==> EachNumbered(AttemptNos(attempts), |attempts|)
  {
    var nos := seq(|attempts|, i requires 0 <= i < |attempts| => attempts[i].no);
    EachIff(nos);
    assert forall i :: 0 <= i < |attempts| ==> nos[i] == attempts[i].no;
    assert AttemptNos(attempts) == Firsts(nos, |nos|);
    assert (forall i :: 0 <= i < |nos| ==> nos[i] > 0 && forall j :: 0 <= j < i ==> nos[j] != nos[i]) <==>
           forall i :: 0 <= i < |attempts| ==>
             attempts[i].no > 0 && forall j :: 0 <= j < i ==> attempts[j].no != attempts[i].no;
  }

  lemma ObservationsIff(observations: seq<Observation>)
    ensures ObservationsNumbered(observations) <==> EachNumbered(ObservationNos(observations), |observations|)
  {
    var nos := seq(|observations|, i requires 0 <= i < |observations| => observations[i].no);
    EachIff(nos);
    assert forall i :: 0 <= i < |observations| ==> nos[i] == observations[i].no;
    assert ObservationNos(observations) == Firsts(nos, |nos|);
    assert (forall i :: 0 <= i < |nos| ==> nos[i] > 0 && forall j :: 0 <= j < i ==> nos[j] != nos[i]) <==>
           forall i :: 0 <= i < |observations| ==>
             observations[i].no > 0 && forall j :: 0 <= j < i ==> observations[j].no != observations[i].no;
  }

  lemma {:induction false} FindMeans(attempts: seq<Attempt>, no: nat)
    requires AttemptsNumbered(attempts)
    ensures FindAttempt(attempts, no).Some? <==> no in AttemptNos(attempts)
    ensures forall a :: a in attempts && a.no == no ==> FindAttempt(attempts, no) == Some(a)
    ensures FindAttempt(attempts, no).Some? ==>
              FindAttempt(attempts, no).value in attempts && FindAttempt(attempts, no).value.no == no
  {
    if attempts != [] {
      var rest := attempts[1..];
      assert attempts == [attempts[0]] + rest;
      assert forall i :: 0 <= i < |rest| ==> rest[i] == attempts[i + 1];
      FindMeans(rest, no);
      assert AttemptNos(attempts) == {attempts[0].no} + AttemptNos(rest) by {
        forall n | n in AttemptNos(attempts)
          ensures n in {attempts[0].no} + AttemptNos(rest)
        {
          var i :| 0 <= i < |attempts| && attempts[i].no == n;
          assert i > 0 ==> rest[i - 1].no == n;
        }
      }
    }
  }

  lemma FindingIff(r: Session, f: Finding)
    requires AttemptsNumbered(r.attempts)
    ensures FindingLinked(r, f) <==> ResolvesItem(r, f.itemNo) && FindingHolds(r, f)
  {
    if f.attemptNo.Some? {
      FindMeans(r.attempts, f.attemptNo.value);
    }
  }

  // The checks on numbers and links, in terms of sets.
  lemma LinksIff(r: Session)
    ensures NumbersAndLinks(r) <==> LinksHold(r)
  {
    ItemsIff(r.items);
    AttemptsIff(r.attempts);
    ObservationsIff(AllObservations(r));
    if NumbersAndLinks(r) {
      LinksFollow(r);
    }
    if LinksHold(r) {
      LinksSuffice(r);
    }
  }

  lemma LinksFollow(r: Session)
    requires NumbersAndLinks(r)
    ensures (forall a :: a in r.attempts ==> ResolvesItem(r, a.itemNo))
    ensures (forall s :: s in r.assessments ==> s.attemptNo in AttemptNos(r.attempts))
    ensures (forall f :: f in r.findings ==> ResolvesItem(r, f.itemNo) && FindingHolds(r, f))
    ensures forall v, n :: v in r.reviews && n in v.citations ==> n in ObservationNos(AllObservations(r))
  {
    forall f | f in r.findings
      ensures ResolvesItem(r, f.itemNo) && FindingHolds(r, f)
    {
      var i :| 0 <= i < |r.findings| && r.findings[i] == f;
      FindingIff(r, f);
    }
    forall v, n | v in r.reviews && n in v.citations
      ensures n in ObservationNos(AllObservations(r))
    {
      var i :| 0 <= i < |r.reviews| && r.reviews[i] == v;
      assert CitationsExist(r, r.reviews[i]);
      var k :| 0 <= k < |v.citations| && v.citations[k] == n;
    }
  }

  lemma LinksSuffice(r: Session)
    requires LinksHold(r) && ItemsNumbered(r.items) && AttemptsNumbered(r.attempts)
    requires ObservationsNumbered(AllObservations(r))
    ensures NumbersAndLinks(r)
  {
    forall i | 0 <= i < |r.attempts| && r.attempts[i].itemNo.Some?
      ensures HasItem(r.items, r.attempts[i].itemNo)
    {
      assert r.attempts[i] in r.attempts && ResolvesItem(r, r.attempts[i].itemNo);
    }
    forall i | 0 <= i < |r.findings|
      ensures FindingLinked(r, r.findings[i])
    {
      assert r.findings[i] in r.findings;
      FindingIff(r, r.findings[i]);
    }
    forall i | 0 <= i < |r.reviews|
      ensures CitationsExist(r, r.reviews[i])
    {
      forall k | 0 <= k < |r.reviews[i].citations|
        ensures r.reviews[i].citations[k] > 0 && HasObservation(AllObservations(r), r.reviews[i].citations[k])
      {
        var n := r.reviews[i].citations[k];
        assert r.reviews[i] in r.reviews && n in r.reviews[i].citations;
        assert n in ObservationNos(AllObservations(r));
        var j :| 0 <= j < |AllObservations(r)| && AllObservations(r)[j].no == n;
      }
    }
    forall i | 0 <= i < |r.assessments|
      ensures r.assessments[i].attemptNo > 0 && HasAttempt(r.attempts, r.assessments[i].attemptNo)
    {
      assert r.assessments[i] in r.assessments;
    }
  }

  // ----- production evidence

  function RecordNos(records: seq<AttemptEvidence>): set<nat> {
    set i | 0 <= i < |records| :: records[i].attemptNo
  }

  function VerdictNos(verdicts: seq<ObservationEvidence>): set<nat> {
    set i | 0 <= i < |verdicts| :: verdicts[i].observationNo
  }

  function HelpNos(help: seq<Intervention>): set<nat> {
    set i | 0 <= i < |help| :: help[i].no
  }

  // A record is on an attempt of some item, with words in it; only a first attempt
  // has no original, a self-correction always has one, and originals are earlier.
  ghost predicate RecordHolds(r: Session, a: AttemptEvidence) {
    && !Blank(a.provenance)
    && (exists x :: x in r.attempts && x.no == a.attemptNo && !Blank(x.transcript) && x.itemNo != None
                    && ResolvesItem(r, x.itemNo))
    && (a.kind == Initial ==> a.originalNo == None) && (a.kind == SelfCorrection ==> a.originalNo != None)
    && match a.originalNo case Some(n) => n < a.attemptNo && n in AttemptNos(r.attempts) case None => true
  }

  // What was realised and how accurately goes with the recorded outcome.
  predicate OutcomeGoesWith(v: ObservationEvidence, outcome: ObservationOutcome) {
    if v.realization == NotObserved || v.realization == Ambiguous then
      v.accuracy == NotAssessable && outcome == Omitted
    else
      && (v.accuracy == Accurate ==> outcome == Correct || outcome == PromptedCorrect)
      && (v.accuracy == Inaccurate ==> outcome == Incorrect)
      && (v.accuracy == PartlyAccurate ==> outcome == PartiallyCorrect)
  }

  // A verdict is on an observation nested in the attempt it names.
  ghost predicate VerdictHolds(r: Session, v: ObservationEvidence) {
    && !Blank(v.provenance)
    && (exists x :: x in r.attempts && x.no == v.attemptNo && v.observationNo in ObservationNos(x.observations))
    && forall o :: o in AllObservations(r) && o.no == v.observationNo ==> OutcomeGoesWith(v, o.outcome)
  }

  // Help comes after one attempt and, if before another, before a later one.
  ghost predicate HelpHolds(r: Session, i: Intervention) {
    && !Blank(i.text) && i.afterNo in AttemptNos(r.attempts)
    && match i.beforeNo case Some(n) => n > i.afterNo && n in AttemptNos(r.attempts) case None => true
  }

  // Some help between the original and a self-correction led to it.
  ghost predicate CorrectionHolds(e: Evidence, a: AttemptEvidence) {
    a.kind == SelfCorrection ==>
      match a.originalNo
      case Some(n) => exists i :: i in e.interventions && n <= i.afterNo && i.beforeNo == Some(a.attemptNo)
      case None => false
  }

  ghost predicate VariationHolds(r: Session, v: Variation) {
    && !Blank(v.rationale)
    && forall n :: n in v.observationNos ==>
         exists o :: o in AllObservations(r) && o.no == n && o.weakness == v.weakness
  }

  // One record for each attempt and one verdict for each observation, and no other.
  ghost predicate EvidenceHolds(r: Session, e: Evidence) {
    && RecordNos(e.attempts) == AttemptNos(r.attempts) && |e.attempts| == |r.attempts|
    && VerdictNos(e.observations) == ObservationNos(AllObservations(r)) &&
       |e.observations| == |AllObservations(r)|
    && EachNumbered(HelpNos(e.interventions), |e.interventions|)
    && (forall a :: a in e.attempts ==> RecordHolds(r, a) && CorrectionHolds(e, a))
    && (forall v :: v in e.observations ==> VerdictHolds(r, v))
    && (forall i :: i in e.interventions ==> HelpHolds(r, i))
    && forall v :: v in e.variations ==> VariationHolds(r, v)
  }

  lemma SameSizeSubset(a: set<nat>, b: set<nat>)
    requires a <= b && |a| == |b|
    ensures a == b
  {
    if n :| n in b && n !in a {
      assert a <= b - {n};
      SubsetSize(a, b - {n});
    }
  }

  lemma RecordsIff(records: seq<AttemptEvidence>)
    ensures |RecordNos(records)| == |records| <==>
            forall i, j :: 0 <= j < i < |records| ==> records[j].attemptNo != records[i].attemptNo
  {
    var nos := seq(|records|, i requires 0 <= i < |records| => records[i].attemptNo);
    CountsApart(nos, |nos|);
    assert forall i :: 0 <= i < |records| ==> nos[i] == records[i].attemptNo;
    assert RecordNos(records) == Firsts(nos, |nos|);
    assert (forall i, j :: 0 <= i < j < |nos| ==> nos[i] != nos[j]) <==>
           forall i, j :: 0 <= j < i < |records| ==> records[j].attemptNo != records[i].attemptNo;
  }

  lemma VerdictsIff(verdicts: seq<ObservationEvidence>)
    ensures |VerdictNos(verdicts)| == |verdicts| <==>
            forall i, j :: 0 <= j < i < |verdicts| ==> verdicts[j].observationNo != verdicts[i].observationNo
  {
    var nos := seq(|verdicts|, i requires 0 <= i < |verdicts| => verdicts[i].observationNo);
    CountsApart(nos, |nos|);
    assert forall i :: 0 <= i < |verdicts| ==> nos[i] == verdicts[i].observationNo;
    assert VerdictNos(verdicts) == Firsts(nos, |nos|);
    assert (forall i, j :: 0 <= i < j < |nos| ==> nos[i] != nos[j]) <==>
           forall i, j :: 0 <= j < i < |verdicts| ==> verdicts[j].observationNo != verdicts[i].observationNo;
  }

  lemma HelpIff(help: seq<Intervention>)
    ensures EachNumbered(HelpNos(help), |help|) <==>
            forall i :: 0 <= i < |help| ==> help[i].no > 0 && forall j :: 0 <= j < i ==> help[j].no != help[i].no
  {
    var nos := seq(|help|, i requires 0 <= i < |help| => help[i].no);
    EachIff(nos);
    assert forall i :: 0 <= i < |help| ==> nos[i] == help[i].no;
    assert HelpNos(help) == Firsts(nos, |nos|);
    assert (forall i :: 0 <= i < |nos| ==> nos[i] > 0 && forall j :: 0 <= j < i ==> nos[j] != nos[i]) <==>
           forall i :: 0 <= i < |help| ==> help[i].no > 0 && forall j :: 0 <= j < i ==> help[j].no != help[i].no;
  }

  // ----- each record by itself

  lemma RecordIff(r: Session, a: AttemptEvidence)
    requires NumbersAndLinks(r)
    ensures AttemptEvidenceLinked(r, a) && !Blank(a.provenance) <==> RecordHolds(r, a)
    ensures AttemptEvidenceLinked(r, a) ==> a.attemptNo in AttemptNos(r.attempts)
  {
    FindMeans(r.attempts, a.attemptNo);
    if RecordHolds(r, a) {
      var x :| x in r.attempts && x.no == a.attemptNo && !Blank(x.transcript) && x.itemNo != None &&
          ResolvesItem(r, x.itemNo);
      var i :| 0 <= i < |r.items| && r.items[i].no == x.itemNo.value;
      assert HasItem(r.items, x.itemNo);
    }
  }

  lemma VerdictIff(r: Session, v: ObservationEvidence)
    requires NumbersAndLinks(r) && v.observationNo in ObservationNos(AllObservations(r))
    ensures ObservationEvidenceLinked(r, v) && ObservationEvidenceSound(r, v) <==> VerdictHolds(r, v)
  {
    FindMeans(r.attempts, v.attemptNo);
    FindObservationMeans(AllObservations(r), v.observationNo);
    if attempt :| attempt in r.attempts && attempt.no == v.attemptNo {
      assert HasObservation(attempt.observations, v.observationNo) <==>
             v.observationNo in ObservationNos(attempt.observations);
    }
  }

  lemma {:induction false} FindObservationMeans(observations: seq<Observation>, no: nat)
    requires ObservationsNumbered(observations)
    ensures FindObservation(observations, no).Some? <==> no in ObservationNos(observations)
    ensures forall o :: o in observations && o.no == no ==> FindObservation(observations, no) == Some(o)
    ensures var found := FindObservation(observations, no);
            found.Some? ==> found.value in observations && found.value.no == no
  {
    if observations != [] {
      var rest := observations[1..];
      assert observations == [observations[0]] + rest;
      assert forall i :: 0 <= i < |rest| ==> rest[i] == observations[i + 1];
      FindObservationMeans(rest, no);
      assert ObservationNos(observations) == {observations[0].no} + ObservationNos(rest) by {
        forall n | n in ObservationNos(observations)
          ensures n in {observations[0].no} + ObservationNos(rest)
        {
          var i :| 0 <= i < |observations| && observations[i].no == n;
          assert i > 0 ==> rest[i - 1].no == n;
        }
      }
    }
  }

  lemma HelpOneIff(r: Session, i: Intervention)
    ensures InterventionLinked(r, i) <==> i.no > 0 && HelpHolds(r, i)
  {
  }

  lemma CorrectionIff(e: Evidence, a: AttemptEvidence)
    ensures CorrectionExplained(e, a) <==> CorrectionHolds(e, a)
  {
    if a.kind == SelfCorrection && a.originalNo.Some? && CorrectionHolds(e, a) {
      var help :| help in e.interventions && a.originalNo.value <= help.afterNo && help.beforeNo == Some(a.attemptNo);
      var i :| 0 <= i < |e.interventions| && e.interventions[i] == help;
    }
  }

  lemma VariationIff(r: Session, v: Variation)
    ensures VariationSound(r, v) <==> VariationHolds(r, v)
  {
    if VariationSound(r, v) {
      forall n | n in v.observationNos
        ensures exists o :: o in AllObservations(r) && o.no == n && o.weakness == v.weakness
      {
        var k :| 0 <= k < |v.observationNos| && v.observationNos[k] == n;
        assert NamesUse(AllObservations(r), v.observationNos[k], v.weakness);
        var i :| 0 <= i < |AllObservations(r)| && AllObservations(r)[i].no == n &&
            AllObservations(r)[i].weakness == v.weakness;
        assert AllObservations(r)[i] in AllObservations(r);
      }
    }
    if VariationHolds(r, v) {
      forall k | 0 <= k < |v.observationNos|
        ensures NamesUse(AllObservations(r), v.observationNos[k], v.weakness)
      {
        assert v.observationNos[k] in v.observationNos;
        var o :| o in AllObservations(r) && o.no == v.observationNos[k] && o.weakness == v.weakness;
        var i :| 0 <= i < |AllObservations(r)| && AllObservations(r)[i] == o;
      }
    }
  }

  // ----- the evidence as a whole

  lemma EvidenceIff(r: Session, e: Evidence)
    requires NumbersAndLinks(r)
    ensures EvidenceLinked(r, e) && EvidenceSound(r, e) <==> EvidenceHolds(r, e)
  {
    HelpIff(e.interventions);
    RecordsIff(e.attempts);
    VerdictsIff(e.observations);
    AttemptsIff(r.attempts);
    ObservationsIff(AllObservations(r));
    if EvidenceLinked(r, e) && EvidenceSound(r, e) {
      EvidenceFollows(r, e);
    }
    if EvidenceHolds(r, e) {
      EvidenceSuffices(r, e);
    }
  }

  lemma EvidenceFollows(r: Session, e: Evidence)
    requires NumbersAndLinks(r) && EvidenceLinked(r, e) && EvidenceSound(r, e)
    ensures EvidenceHolds(r, e)
  {
    NumbersMatch(r, e);
    HelpIff(e.interventions);
    forall a | a in e.attempts
      ensures RecordHolds(r, a) && CorrectionHolds(e, a)
    {
      var i :| 0 <= i < |e.attempts| && e.attempts[i] == a;
      RecordIff(r, a);
      CorrectionIff(e, a);
    }
    forall v | v in e.observations
      ensures VerdictHolds(r, v)
    {
      var i :| 0 <= i < |e.observations| && e.observations[i] == v;
      assert v.observationNo in VerdictNos(e.observations);
      VerdictIff(r, v);
    }
    forall i | i in e.interventions
      ensures HelpHolds(r, i)
    {
      var k :| 0 <= k < |e.interventions| && e.interventions[k] == i;
      HelpOneIff(r, i);
    }
    forall v | v in e.variations
      ensures VariationHolds(r, v)
    {
      var k :| 0 <= k < |e.variations| && e.variations[k] == v;
      VariationIff(r, v);
    }
  }

  // As many distinct records as attempts, each on one of them: every attempt has
  // its record.
  lemma NumbersMatch(r: Session, e: Evidence)
    requires NumbersAndLinks(r) && EvidenceLinked(r, e)
    ensures RecordNos(e.attempts) == AttemptNos(r.attempts)
    ensures VerdictNos(e.observations) == ObservationNos(AllObservations(r))
  {
    RecordsIff(e.attempts);
    VerdictsIff(e.observations);
    AttemptsIff(r.attempts);
    ObservationsIff(AllObservations(r));
    forall n | n in RecordNos(e.attempts)
      ensures n in AttemptNos(r.attempts)
    {
      var i :| 0 <= i < |e.attempts| && e.attempts[i].attemptNo == n;
      RecordIff(r, e.attempts[i]);
    }
    SameSizeSubset(RecordNos(e.attempts), AttemptNos(r.attempts));
    forall n | n in VerdictNos(e.observations)
      ensures n in ObservationNos(AllObservations(r))
    {
      var i :| 0 <= i < |e.observations| && e.observations[i].observationNo == n;
      assert ObservationEvidenceLinked(r, e.observations[i]);
      FindObservationMeans(AllObservations(r), n);
    }
    SameSizeSubset(VerdictNos(e.observations), ObservationNos(AllObservations(r)));
  }

  lemma EvidenceSuffices(r: Session, e: Evidence)
    requires NumbersAndLinks(r) && EvidenceHolds(r, e)
    ensures EvidenceLinked(r, e) && EvidenceSound(r, e)
  {
    RecordsIff(e.attempts);
    VerdictsIff(e.observations);
    HelpIff(e.interventions);
    AttemptsIff(r.attempts);
    ObservationsIff(AllObservations(r));
    forall i | 0 <= i < |e.attempts|
      ensures AttemptEvidenceLinked(r, e.attempts[i]) && !Blank(e.attempts[i].provenance)
      ensures CorrectionExplained(e, e.attempts[i])
    {
      assert e.attempts[i] in e.attempts;
      RecordIff(r, e.attempts[i]);
      CorrectionIff(e, e.attempts[i]);
    }
    forall i | 0 <= i < |e.observations|
      ensures ObservationEvidenceLinked(r, e.observations[i]) && ObservationEvidenceSound(r, e.observations[i])
    {
      assert e.observations[i] in e.observations && e.observations[i].observationNo in VerdictNos(e.observations);
      VerdictIff(r, e.observations[i]);
    }
    forall i | 0 <= i < |e.interventions|
      ensures InterventionLinked(r, e.interventions[i])
    {
      assert e.interventions[i] in e.interventions;
      HelpOneIff(r, e.interventions[i]);
    }
    forall i | 0 <= i < |e.variations|
      ensures VariationSound(r, e.variations[i])
    {
      assert e.variations[i] in e.variations;
      VariationIff(r, e.variations[i]);
    }
  }

  // Which requests the recorder's validators let through.
  lemma ValidIff(r: Session)
    ensures NumbersAndLinks(r) && EvidenceValid(r) <==>
            LinksHold(r) && match r.evidence case Some(e) => EvidenceHolds(r, e) case None => true
  {
    LinksIff(r);
    if NumbersAndLinks(r) && r.evidence.Some? {
      EvidenceIff(r, r.evidence.value);
    }
  }
}
