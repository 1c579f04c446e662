// Every expansion passes the recorder's own number and link checks.
module ExpansionChecks {
  import opened Outcomes
  import opened SessionModel
  import opened Texts
  import opened CompactRequest
  import opened Expansion
  import opened CanonicalChecks

  // The attempt at index k of an expansion.
  lemma AttemptPlace(turns: seq<Turn>, attempts: seq<Attempt>, k: nat) returns (t: nat, a: nat)
    requires Filled(Attempts, turns, attempts, AttemptAt(turns), |turns|, 0) && k < |attempts|
    ensures Valid(turns, t, a) && AttemptNo(turns, t, a) == k + 1 && attempts[k] == AttemptAt(turns)(t, a, 0)
  {
    t, a := AttemptNumbersInOrder(turns, k + 1);
    assert Inside(Attempts, turns, t, a, 0) && Earlier(t, a, |turns|, 0);
  }

  lemma AttemptStands(turns: seq<Turn>, attempts: seq<Attempt>, t: nat, a: nat)
    requires Filled(Attempts, turns, attempts, AttemptAt(turns), |turns|, 0) && Valid(turns, t, a)
    ensures AttemptNo(turns, t, a) <= |attempts|
    ensures attempts[AttemptNo(turns, t, a) - 1] == AttemptAt(turns)(t, a, 0)
  {
    assert Inside(Attempts, turns, t, a, 0) && Earlier(t, a, |turns|, 0);
  }

  ghost predicate NumberedFromOne(attempts: seq<Attempt>) {
    forall k :: 0 <= k < |attempts| ==> attempts[k].no == k + 1
  }

  lemma AttemptsInOrder(turns: seq<Turn>, attempts: seq<Attempt>)
    requires Filled(Attempts, turns, attempts, AttemptAt(turns), |turns|, 0)
    ensures NumberedFromOne(attempts)
  {
    forall k | 0 <= k < |attempts|
      ensures attempts[k].no == k + 1
    {
      var t, a := AttemptPlace(turns, attempts, k);
    }
  }

  lemma {:induction false} FoundByNumber(attempts: seq<Attempt>, k: nat)
    requires k < |attempts| && forall j :: 0 <= j < k ==> attempts[j].no != attempts[k].no
    ensures FindAttempt(attempts, attempts[k].no) == Some(attempts[k])
  {
    if k > 0 {
      assert attempts[0].no != attempts[k].no;
      FoundByNumber(attempts[1..], k - 1);
    }
  }

  lemma {:induction false} FindsCanonicalAttempt(turns: seq<Turn>, attempts: seq<Attempt>, t: nat, a: nat)
    requires Filled(Attempts, turns, attempts, AttemptAt(turns), |turns|, 0) && Valid(turns, t, a)
    ensures FindAttempt(attempts, AttemptNo(turns, t, a)) == Some(AttemptAt(turns)(t, a, 0))
    ensures HasAttempt(attempts, AttemptNo(turns, t, a))
  {
    AttemptsInOrder(turns, attempts);
    AttemptStands(turns, attempts, t, a);
    FoundByNumber(attempts, AttemptNo(turns, t, a) - 1);
  }

  // ----- observation numbers of the whole request

  // Each attempt's observations carry on from the previous attempt's.
  ghost predicate Runs(attempts: seq<Attempt>, start: nat)
    decreases |attempts|
  {
    attempts == [] ||
    (&& (forall o :: 0 <= o < |attempts[0].observations| ==> attempts[0].observations[o].no == start + o + 1)
     && Runs(attempts[1..], start + |attempts[0].observations|))
  }

  lemma {:induction false} RunsAreNumbered(attempts: seq<Attempt>, start: nat)
    requires Runs(attempts, start)
    ensures forall k :: 0 <= k < |AttemptObservations(attempts)| ==>
              AttemptObservations(attempts)[k].no == start + k + 1
    decreases |attempts|
  {
    if attempts != [] {
      RunsAreNumbered(attempts[1..], start + |attempts[0].observations|);
    }
  }

  lemma {:induction false} EmptyTurnsAddNothing(part: Part, turns: seq<Turn>, m: nat, n: nat)
    requires m <= n <= |turns| && InTurns(Attempts, turns, m) == InTurns(Attempts, turns, n)
    ensures InTurns(part, turns, m) == InTurns(part, turns, n)
  {
    if m < n {
      InTurnsGrows(Attempts, turns, m, n - 1);
      assert InAttempts(Attempts, turns[n - 1].attempts, |turns[n - 1].attempts|) == 0;
      AttemptsCountThemselves(turns[n - 1].attempts, |turns[n - 1].attempts|);
      EmptyTurnsAddNothing(part, turns, m, n - 1);
    }
  }

  lemma {:induction false} AttemptsCountThemselves(ats: seq<CompactAttempt>, n: nat)
    requires n <= |ats|
    ensures InAttempts(Attempts, ats, n) == n
  {
    if n > 0 {
      AttemptsCountThemselves(ats, n - 1);
    }
  }

  lemma NextAttemptFollows(part: Part, turns: seq<Turn>, t: nat, a: nat, u: nat, b: nat)
    requires Valid(turns, t, a) && Valid(turns, u, b) && AttemptNo(turns, u, b) == AttemptNo(turns, t, a) + 1
    ensures Offset(part, turns, u, b) == Offset(part, turns, t, a) + Weight(part, turns[t].attempts[a])
  {
    AttemptNoInjective(turns, t, a, u, b);
    AttemptsCountThemselves(turns[t].attempts, |turns[t].attempts|);
    AttemptsCountThemselves(turns[t].attempts, a);
    AttemptsCountThemselves(turns[u].attempts, b);
    if t == u {
      assert b == a + 1;
    } else {
      InTurnsGrows(Attempts, turns, t + 1, u);
      assert a + 1 == |turns[t].attempts| && b == 0;
      EmptyTurnsAddNothing(part, turns, t + 1, u);
    }
  }

  lemma LastAttemptEnds(part: Part, turns: seq<Turn>, t: nat, a: nat)
    requires Valid(turns, t, a) && AttemptNo(turns, t, a) == Total(Attempts, turns)
    ensures Offset(part, turns, t, a) + Weight(part, turns[t].attempts[a]) == Total(part, turns)
  {
    AttemptsCountThemselves(turns[t].attempts, |turns[t].attempts|);
    AttemptsCountThemselves(turns[t].attempts, a);
    InTurnsGrows(Attempts, turns, t + 1, |turns|);
    EmptyTurnsAddNothing(part, turns, t + 1, |turns|);
  }

  // From attempt number k + 1 on, the observations run on from that attempt's offset.
  lemma {:induction false} ExpansionRuns(turns: seq<Turn>, attempts: seq<Attempt>, k: nat, t: nat, a: nat)
    requires Filled(Attempts, turns, attempts, AttemptAt(turns), |turns|, 0)
    requires k < |attempts| && Valid(turns, t, a) && AttemptNo(turns, t, a) == k + 1
    ensures Runs(attempts[k..], Offset(Observations, turns, t, a))
    ensures |AttemptObservations(attempts[k..])| == Total(Observations, turns) - Offset(Observations, turns, t, a)
    decreases |attempts| - k
  {
    AttemptStands(turns, attempts, t, a);
    assert attempts[k..][1..] == attempts[k + 1..];
    if k + 1 < |attempts| {
      var u, b := AttemptPlace(turns, attempts, k + 1);
      NextAttemptFollows(Observations, turns, t, a, u, b);
      ExpansionRuns(turns, attempts, k + 1, u, b);
    } else {
      LastAttemptEnds(Observations, turns, t, a);
    }
  }

  lemma {:induction false} NoItemObservations(items: seq<Item>)
    requires forall i :: 0 <= i < |items| ==> items[i].observations == []
    ensures ItemObservations(items) == []
  {
    if items != [] {
      NoItemObservations(items[1..]);
    }
  }

  // The observations of the request, read in the validator's order, are 1..O.
  lemma ObservationsInOrder(req: Compact, out: Session)
    requires IsExpansion(req, out)
    ensures |AllObservations(out)| == Total(Observations, req.turns)
    ensures forall k :: 0 <= k < |AllObservations(out)| ==> AllObservations(out)[k].no == k + 1
  {
    NoItemObservations(out.items);
    var turns := req.turns;
    assert AllObservations(out) == AttemptObservations(out.attempts);
    if |out.attempts| > 0 {
      var t, a := AttemptPlace(turns, out.attempts, 0);
      InTurnsGrows(Attempts, turns, 0, t);
      AttemptsCountThemselves(turns[t].attempts, a);
      EmptyTurnsAddNothing(Observations, turns, 0, t);
      assert Offset(Observations, turns, t, a) == 0;
      ExpansionRuns(turns, out.attempts, 0, t, a);
      assert out.attempts[0..] == out.attempts;
      RunsAreNumbered(out.attempts, 0);
    } else {
      EmptyTurnsAddNothing(Observations, turns, 0, |turns|);
    }
  }

  lemma {:induction false} FindsObservation(observations: seq<Observation>, no: nat)
    requires HasObservation(observations, no)
    ensures FindObservation(observations, no).Some?
  {
    if observations[0].no != no {
      var i :| 0 <= i < |observations| && observations[i].no == no;
      assert observations[1..][i - 1] == observations[i];
      FindsObservation(observations[1..], no);
    }
  }

  // ----- the request's own checks

  lemma FindingsLinked(req: Compact, out: Session)
    requires IsExpansion(req, out)
    ensures forall k :: 0 <= k < |out.findings| ==> FindingLinked(out, out.findings[k])
  {
    var turns := req.turns;
    forall k | 0 <= k < |out.findings|
      ensures FindingLinked(out, out.findings[k])
    {
      var t, a := LocateInTurns(Findings, turns, |turns|, k);
      var i := k - Offset(Findings, turns, t, a);
      assert Inside(Findings, turns, t, a, i) && Earlier(t, a, |turns|, 0);
      assert out.findings[k] == FindingAt(turns)(t, a, i);
      FindsCanonicalAttempt(turns, out.attempts, t, a);
      assert out.items[t].no == t + 1;
    }
  }

  lemma AttemptsLinked(turns: seq<Turn>, out: Session)
    requires Filled(Attempts, turns, out.attempts, AttemptAt(turns), |turns|, 0)
    requires |out.items| == |turns| && forall t :: 0 <= t < |turns| ==> out.items[t].no == t + 1
    ensures forall i :: 0 <= i < |out.attempts| && out.attempts[i].itemNo.Some? ==>
              HasItem(out.items, out.attempts[i].itemNo)
  {
    forall i | 0 <= i < |out.attempts|
      ensures HasItem(out.items, out.attempts[i].itemNo)
    {
      var t, a := AttemptPlace(turns, out.attempts, i);
      assert out.items[t].no == t + 1;
    }
  }

  lemma AssessmentsLinked(req: Compact, out: Session)
    requires IsExpansion(req, out)
    ensures forall i :: 0 <= i < |out.assessments| ==>
              out.assessments[i].attemptNo > 0 && HasAttempt(out.attempts, out.assessments[i].attemptNo)
  {
    forall i | 0 <= i < |out.assessments|
      ensures out.assessments[i].attemptNo > 0 && HasAttempt(out.attempts, out.assessments[i].attemptNo)
    {
      var r := req.assessments[i].attempt;
      FindsCanonicalAttempt(req.turns, out.attempts, r.turn - 1, r.attempt - 1);
    }
  }

  ghost predicate OneToN(observations: seq<Observation>, n: nat) {
    |observations| == n && forall k :: 0 <= k < n ==> observations[k].no == k + 1
  }

  lemma CitationInRange(turns: seq<Turn>, observations: seq<Observation>, r: ObservationRef)
    requires OneToN(observations, Total(Observations, turns)) && ObservationRefOk(turns, r)
    ensures CitedObservation(turns, r) > 0 && HasObservation(observations, CitedObservation(turns, r))
  {
    OffsetsAscend(Observations, turns, r.turn - 1, r.attempt - 1, r.turn - 1, r.attempt - 1);
    var no := CitedObservation(turns, r);
    assert observations[no - 1].no == no;
  }

  lemma ReviewCitations(turns: seq<Turn>, observations: seq<Observation>, refs: seq<ObservationRef>)
    requires OneToN(observations, Total(Observations, turns))
    requires forall k :: 0 <= k < |refs| ==> ObservationRefOk(turns, refs[k])
    ensures forall k :: 0 <= k < |refs| ==> Nos(turns, refs)[k] > 0 && HasObservation(observations, Nos(turns, refs)[k])
  {
    forall k | 0 <= k < |refs|
      ensures Nos(turns, refs)[k] > 0 && HasObservation(observations, Nos(turns, refs)[k])
    {
      CitationInRange(turns, observations, refs[k]);
    }
  }

  lemma CitationsResolve(req: Compact, out: Session)
    requires IsExpansion(req, out)
    ensures forall i :: 0 <= i < |out.reviews| ==> CitationsExist(out, out.reviews[i])
  {
    ObservationsInOrder(req, out);
    forall i | 0 <= i < |out.reviews|
      ensures CitationsExist(out, out.reviews[i])
    {
      ReviewCitations(req.turns, AllObservations(out), req.reviews[i].refs);
    }
  }

  lemma ExpansionNumbersAndLinks(req: Compact, out: Session)
    requires Expandable(req) && IsExpansion(req, out)
    ensures NumbersAndLinks(out)
  {
    AttemptsInOrder(req.turns, out.attempts);
    ObservationsInOrder(req, out);
    FindingsLinked(req, out);
    AttemptsLinked(req.turns, out);
    AssessmentsLinked(req, out);
    CitationsResolve(req, out);
    NumberedFromOneIsUnique(out);
  }

  lemma NumberedFromOneIsUnique(out: Session)
    requires NumberedFromOne(out.attempts) && OneToN(AllObservations(out), |AllObservations(out)|)
    requires forall t :: 0 <= t < |out.items| ==> out.items[t].no == t + 1
    ensures ItemsNumbered(out.items) && AttemptsNumbered(out.attempts) && ObservationsNumbered(AllObservations(out))
  {
  }

  // ----- production evidence

  lemma AcceptedAttempt(req: Compact, t: nat, a: nat)
    requires Expandable(req) && Valid(req.turns, t, a)
    ensures AttemptOk(req.turns, req.turns[t].attempts[a]) && InterventionsOk(req.turns[t].attempts[a])
    ensures ProductionPresent(req) ==> EvidenceOk(req.turns, t, a)
  {
  }

  lemma AttemptRecordIs(req: Compact, out: Session, k: nat) returns (t: nat, a: nat)
    requires Expandable(req) && IsExpansion(req, out) && ProductionPresent(req) && k < |out.evidence.value.attempts|
    ensures Valid(req.turns, t, a) && AttemptNo(req.turns, t, a) == k + 1
    ensures EvidenceAt(req.turns).requires(t, a, 0) && out.evidence.value.attempts[k] == EvidenceAt(req.turns)(t, a, 0)
  {
    t, a := AttemptNumbersInOrder(req.turns, k + 1);
    assert Inside(Attempts, req.turns, t, a, 0) && Earlier(t, a, |req.turns|, 0);
  }

  lemma RecordLinked(turns: seq<Turn>, out: Session, t: nat, a: nat)
    requires Filled(Attempts, turns, out.attempts, AttemptAt(turns), |turns|, 0) && Valid(turns, t, a)
    requires |out.items| == |turns| && out.items[t].no == t + 1
    requires AttemptOk(turns, turns[t].attempts[a]) && EvidenceOk(turns, t, a)
    ensures AttemptEvidenceLinked(out, EvidenceAt(turns)(t, a, 0))
  {
    FindsCanonicalAttempt(turns, out.attempts, t, a);
    var original := Original(turns[t].attempts[a]);
    if original.Some? {
      FindsCanonicalAttempt(turns, out.attempts, original.value.turn - 1, original.value.attempt - 1);
    }
  }

  lemma AttemptRecordsLinked(req: Compact, out: Session, k: nat)
    requires Expandable(req) && IsExpansion(req, out) && ProductionPresent(req) && k < |out.evidence.value.attempts|
    ensures out.evidence.value.attempts[k].attemptNo == k + 1 &&
            AttemptEvidenceLinked(out, out.evidence.value.attempts[k])
  {
    var t, a := AttemptRecordIs(req, out, k);
    AcceptedAttempt(req, t, a);
    RecordLinked(req.turns, out, t, a);
  }

  lemma ObservationRecordIs(req: Compact, out: Session, k: nat) returns (t: nat, a: nat, o: nat)
    requires IsExpansion(req, out) && ProductionPresent(req) && k < |out.evidence.value.observations|
    ensures Inside(Observations, req.turns, t, a, o) && ObservationNo(req.turns, t, a, o) == k + 1
    ensures AssessmentAt(req.turns).requires(t, a, o) &&
            out.evidence.value.observations[k] == AssessmentAt(req.turns)(t, a, o)
  {
    t, a, o := ObservationNumbersInOrder(req.turns, k + 1);
    assert Inside(Observations, req.turns, t, a, o) && Earlier(t, a, |req.turns|, 0);
  }

  lemma NestedObservation(turns: seq<Turn>, t: nat, a: nat, o: nat)
    requires Inside(Observations, turns, t, a, o)
    ensures Inside(Attempts, turns, t, a, 0) &&
            HasObservation(AttemptAt(turns)(t, a, 0).observations, ObservationNo(turns, t, a, o))
  {
    assert Inside(Attempts, turns, t, a, 0);
    var at := AttemptAt(turns)(t, a, 0);
    assert |at.observations| == |turns[t].attempts[a].observations|;
    assert at.observations[o].no == ObservationNo(turns, t, a, o);
  }

  lemma ObservationRecordsLinked(req: Compact, out: Session, k: nat)
    requires IsExpansion(req, out) && ProductionPresent(req) && k < |out.evidence.value.observations|
    requires OneToN(AllObservations(out), |out.evidence.value.observations|)
    ensures out.evidence.value.observations[k].observationNo == k + 1
    ensures ObservationEvidenceLinked(out, out.evidence.value.observations[k])
  {
    var t, a, o := ObservationRecordIs(req, out, k);
    FindsCanonicalAttempt(req.turns, out.attempts, t, a);
    NestedObservation(req.turns, t, a, o);
    assert AllObservations(out)[k].no == k + 1;
    FindsObservation(AllObservations(out), k + 1);
  }

  lemma PlacedInterventionAt(turns: seq<Turn>, list: seq<Intervention>, k: nat) returns (t: nat, a: nat, i: nat)
    requires InterventionsPlaced(turns, list) && k < |list|
    ensures Inside(Interventions, turns, t, a, i)
    ensures list[k].no == k + 1 && list[k].afterNo == AttemptNo(turns, t, a)
    ensures list[k].text == turns[t].attempts[a].after[i].text && Precedes(turns, t, a, list[k].beforeNo)
  {
    t, a := LocateInTurns(Interventions, turns, |turns|, k);
    i := k - Offset(Interventions, turns, t, a);
    assert Inside(Interventions, turns, t, a, i);
  }

  lemma InterventionRecordIs(req: Compact, out: Session, k: nat) returns (t: nat, a: nat, i: nat)
    requires Expandable(req) && IsExpansion(req, out) && ProductionPresent(req) &&
             k < |out.evidence.value.interventions|
    ensures Inside(Interventions, req.turns, t, a, i)
    ensures var x := out.evidence.value.interventions[k];
            && x.no == k + 1 && x.afterNo == AttemptNo(req.turns, t, a) &&
               x.text == req.turns[t].attempts[a].after[i].text
            && Precedes(req.turns, t, a, x.beforeNo)
  {
    t, a, i := PlacedInterventionAt(req.turns, out.evidence.value.interventions, k);
  }

  // An intervention precedes an attempt that exists and is later than its own.
  lemma PrecedesLater(req: Compact, out: Session, t: nat, a: nat, before: Option<nat>)
    requires Expandable(req) && ProductionPresent(req) && Valid(req.turns, t, a) && Precedes(req.turns, t, a, before)
    requires Filled(Attempts, req.turns, out.attempts, AttemptAt(req.turns), |req.turns|, 0)
    ensures before.Some? ==> before.value > AttemptNo(req.turns, t, a) && HasAttempt(out.attempts, before.value)
  {
    var turns := req.turns;
    if a + 1 < |turns[t].attempts| {
      AttemptNoInjective(turns, t, a, t, a + 1);
      FindsCanonicalAttempt(turns, out.attempts, t, a + 1);
    } else if before.Some? {
      var u, b :| 0 <= u < |turns| && 0 <= b < |turns[u].attempts|
                  && Original(turns[u].attempts[b]) == Some(AttemptRef(t + 1, a + 1)) &&
                     AttemptNo(turns, u, b) == before.value;
      AcceptedAttempt(req, u, b);
      FindsCanonicalAttempt(turns, out.attempts, u, b);
    }
  }

  lemma InterventionRecordsLinked(req: Compact, out: Session, k: nat)
    requires Expandable(req) && IsExpansion(req, out) && ProductionPresent(req) &&
             k < |out.evidence.value.interventions|
    ensures out.evidence.value.interventions[k].no == k + 1 &&
            InterventionLinked(out, out.evidence.value.interventions[k])
  {
    var t, a, i := InterventionRecordIs(req, out, k);
    InterventionTextOk(req, t, a, i);
    FindsCanonicalAttempt(req.turns, out.attempts, t, a);
    PrecedesLater(req, out, t, a, out.evidence.value.interventions[k].beforeNo);
  }

  lemma InterventionTextOk(req: Compact, t: nat, a: nat, i: nat)
    requires Expandable(req) && ProductionPresent(req) && Inside(Interventions, req.turns, t, a, i)
    ensures !Blank(req.turns[t].attempts[a].after[i].text)
  {
    AcceptedAttempt(req, t, a);
  }

  lemma ExpansionEvidenceLinked(req: Compact, out: Session)
    requires Expandable(req) && IsExpansion(req, out) && ProductionPresent(req)
    ensures EvidenceLinked(out, out.evidence.value)
  {
    ObservationsInOrder(req, out);
    AllAttemptRecords(req, out);
    AllObservationRecords(req, out);
    AllInterventionRecords(req, out);
  }

  lemma AllAttemptRecords(req: Compact, out: Session)
    requires Expandable(req) && IsExpansion(req, out) && ProductionPresent(req)
    ensures var e := out.evidence.value;
            forall k :: 0 <= k < |e.attempts| ==>
              AttemptEvidenceLinked(out, e.attempts[k]) && e.attempts[k].attemptNo == k + 1
  {
    var e := out.evidence.value;
    forall k | 0 <= k < |e.attempts|
      ensures AttemptEvidenceLinked(out, e.attempts[k]) && e.attempts[k].attemptNo == k + 1
    {
      AttemptRecordsLinked(req, out, k);
    }
  }

  lemma AllObservationRecords(req: Compact, out: Session)
    requires IsExpansion(req, out) && ProductionPresent(req)
    requires OneToN(AllObservations(out), |out.evidence.value.observations|)
    ensures var e := out.evidence.value;
            forall k :: 0 <= k < |e.observations| ==>
              ObservationEvidenceLinked(out, e.observations[k]) && e.observations[k].observationNo == k + 1
  {
    var e := out.evidence.value;
    forall k | 0 <= k < |e.observations|
      ensures ObservationEvidenceLinked(out, e.observations[k]) && e.observations[k].observationNo == k + 1
    {
      ObservationRecordsLinked(req, out, k);
    }
  }

  lemma AllInterventionRecords(req: Compact, out: Session)
    requires Expandable(req) && IsExpansion(req, out) && ProductionPresent(req)
    ensures var e := out.evidence.value;
            forall k :: 0 <= k < |e.interventions| ==>
              InterventionLinked(out, e.interventions[k]) && e.interventions[k].no == k + 1
  {
    var e := out.evidence.value;
    forall k | 0 <= k < |e.interventions|
      ensures InterventionLinked(out, e.interventions[k]) && e.interventions[k].no == k + 1
    {
      InterventionRecordsLinked(req, out, k);
    }
  }

  // Whatever the compiler produces passes the recorder's number and link checks,
  // and its production evidence the evidence link checks.
  lemma ExpansionPassesChecks(req: Compact, out: Session)
    requires Expandable(req) && IsExpansion(req, out)
    ensures NumbersAndLinks(out)
    ensures out.evidence.Some? ==> EvidenceLinked(out, out.evidence.value)
  {
    ExpansionNumbersAndLinks(req, out);
    if ProductionPresent(req) {
      ExpansionEvidenceLinked(req, out);
    }
  }
}
