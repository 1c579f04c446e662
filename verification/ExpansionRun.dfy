// The traversal itself: counters, lookup tables and pushed lists
// (src/tutoring.rs, expand).
module ExpansionRun {
  import opened Outcomes
  import opened Texts
  import opened SessionModel
  import opened CompactRequest
  import opened Expansion

  datatype ExpandError =
    | BadHeader | BadTurn | BadAttempt | TooMany | MissingPolicy | BadFeedback | BadEvidence | BadReview | BadAssessment

  datatype Meta = Meta(itemNo: nat, attemptNo: nat, original: Option<AttemptRef>)

  type Metas = map<(nat, nat), Meta>

  type ObservationNumbers = map<(nat, nat, nat), nat>

  ghost predicate MetasUpTo(turns: seq<Turn>, metas: Metas, t: nat, a: nat) {
    && (forall k :: k in metas ==> Valid(turns, k.0, k.1))
    && (forall u: nat, b: nat {:trigger Earlier(u, b, t, a)} :: Valid(turns, u, b) && Earlier(u, b, t, a) ==>
         HasMeta(turns, metas, u, b))
  }

  ghost predicate HasMeta(turns: seq<Turn>, metas: Metas, t: nat, a: nat)
    requires Valid(turns, t, a)
  {
    (t, a) in metas && metas[(t, a)] == Meta(t + 1, AttemptNo(turns, t, a), Original(turns[t].attempts[a]))
  }

  ghost predicate MetasComplete(turns: seq<Turn>, metas: Metas) {
    MetasUpTo(turns, metas, |turns|, 0)
  }

  lemma MetaFor(turns: seq<Turn>, metas: Metas, t: nat, a: nat)
    requires MetasComplete(turns, metas) && Valid(turns, t, a)
    ensures HasMeta(turns, metas, t, a)
  {
    assert Earlier(t, a, |turns|, 0);
  }

  lemma AddMeta(turns: seq<Turn>, metas: Metas, t: nat, a: nat)
    requires Valid(turns, t, a) && MetasUpTo(turns, metas, t, a)
    ensures MetasUpTo(turns, metas[(t, a) := Meta(t + 1, AttemptNo(turns, t, a), Original(turns[t].attempts[a]))], t,
            a + 1)
  {
    var next := metas[(t, a) := Meta(t + 1, AttemptNo(turns, t, a), Original(turns[t].attempts[a]))];
    forall u: nat, b: nat | Valid(turns, u, b) && Earlier(u, b, t, a + 1)
      ensures HasMeta(turns, next, u, b)
    {
      if u != t || b != a {
        assert Earlier(u, b, t, a);
      }
    }
  }

  lemma MetasNextTurn(turns: seq<Turn>, metas: Metas, t: nat)
    requires t < |turns| && MetasUpTo(turns, metas, t, |turns[t].attempts|)
    ensures MetasUpTo(turns, metas, t + 1, 0)
  {
    forall u: nat, b: nat | Valid(turns, u, b) && Earlier(u, b, t + 1, 0)
      ensures HasMeta(turns, metas, u, b)
    {
      assert Earlier(u, b, t, |turns[t].attempts|);
    }
  }

  datatype Counts = Counts(attempts: nat, observations: nat, findings: nat, interventions: nat)

  ghost predicate Counted(turns: seq<Turn>, n: Counts, t: nat, a: nat)
    requires t < |turns| && a <= |turns[t].attempts|
  {
    && n.attempts == Offset(Attempts, turns, t, a) && n.observations == Offset(Observations, turns, t, a)
    && n.findings == Offset(Findings, turns, t, a) && n.interventions == Offset(Interventions, turns, t, a)
  }

  predicate CountsOk(n: Counts) {
    n.attempts <= 100 && n.observations <= 300 && n.findings <= 300 && n.interventions <= 300
  }

  // Counting one attempt; a limit passed here is passed by the whole request.
  method CountAttempt(turns: seq<Turn>, t: nat, a: nat, n0: Counts) returns (n: Counts)
    requires Valid(turns, t, a) && Counted(turns, n0, t, a)
    ensures Counted(turns, n, t, a + 1)
    ensures !CountsOk(n) ==> !WithinLimits(turns)
  {
    var at := turns[t].attempts[a];
    n := Counts(n0.attempts + 1, n0.observations + |at.observations|, n0.findings + |at.findings|,
      n0.interventions + |at.after|);
    OffsetsAscend(Attempts, turns, t, a, t, a);
    OffsetsAscend(Observations, turns, t, a, t, a);
    OffsetsAscend(Findings, turns, t, a, t, a);
    OffsetsAscend(Interventions, turns, t, a, t, a);
  }

  // The attempts of one turn.
  method NumberTurn(turns: seq<Turn>, t: nat, metas0: Metas, n0: Counts) returns (ok: bool, metas: Metas, n: Counts)
    requires t < |turns| && Counted(turns, n0, t, 0) && CountsOk(n0) && MetasUpTo(turns, metas0, t, 0)
    ensures ok ==> Counted(turns, n, t, |turns[t].attempts|) && CountsOk(n)
    ensures ok ==> MetasUpTo(turns, metas, t + 1, 0)
    ensures ok ==> forall b :: 0 <= b < |turns[t].attempts| ==> AttemptOk(turns, turns[t].attempts[b])
    ensures !ok ==> !ShapeOk(turns)
  {
    metas, n := metas0, n0;
    var a := 0;
    while a < |turns[t].attempts|
      invariant 0 <= a <= |turns[t].attempts|
      invariant Counted(turns, n, t, a) && CountsOk(n)
      invariant forall b :: 0 <= b < a ==> AttemptOk(turns, turns[t].attempts[b])
      invariant MetasUpTo(turns, metas, t, a)
    {
      n := CountAttempt(turns, t, a, n);
      if !CountsOk(n) || !AttemptOk(turns, turns[t].attempts[a]) {
        return false, metas, n;
      }
      AddMeta(turns, metas, t, a);
      metas := metas[(t, a) := Meta(t + 1, n.attempts, Original(turns[t].attempts[a]))];
      a := a + 1;
    }
    MetasNextTurn(turns, metas, t);
    ok := true;
  }

  // The first pass: check the shape of everything and number the attempts.
  method NumberAttempts(turns: seq<Turn>) returns (ok: bool, metas: Metas)
    ensures ok <==> ShapeOk(turns)
    ensures ok ==> MetasComplete(turns, metas)
  {
    metas := map[];
    var n := Counts(0, 0, 0, 0);
    var t := 0;
    while t < |turns|
      invariant 0 <= t <= |turns| && CountsOk(n)
      invariant n == Counts(InTurns(Attempts, turns, t), InTurns(Observations, turns, t), InTurns(Findings, turns, t),
                InTurns(Interventions, turns, t))
      invariant forall u :: 0 <= u < t ==> TurnOk(turns[u])
      invariant forall u, b :: 0 <= u < t && 0 <= b < |turns[u].attempts| ==> AttemptOk(turns, turns[u].attempts[b])
      invariant MetasUpTo(turns, metas, t, 0)
    {
      if !TurnOk(turns[t]) {
        return false, metas;
      }
      ok, metas, n := NumberTurn(turns, t, metas, n);
      if !ok {
        return;
      }
      t := t + 1;
    }
    ok := true;
  }

  ghost predicate NumbersComplete(turns: seq<Turn>, numbers: ObservationNumbers) {
    forall t: nat, a: nat, o: nat :: Inside(Observations, turns, t, a, o) ==>
      (t, a, o) in numbers && numbers[(t, a, o)] == ObservationNo(turns, t, a, o)
  }

  ghost predicate NumbersUpTo(turns: seq<Turn>, numbers: ObservationNumbers, t: nat, a: nat, o: nat) {
    forall u: nat, b: nat, p: nat ::
        Inside(Observations, turns, u, b, p) && (Earlier(u, b, t, a) || (u == t && b == a && p < o)) ==>
      (u, b, p) in numbers && numbers[(u, b, p)] == ObservationNo(turns, u, b, p)
  }

  // The second pass numbers the observations.
  method NumberObservations(turns: seq<Turn>) returns (numbers: ObservationNumbers)
    ensures NumbersComplete(turns, numbers)
  {
    numbers := map[];
    var next := 0;
    var t := 0;
    while t < |turns|
      invariant 0 <= t <= |turns| && next == InTurns(Observations, turns, t)
      invariant NumbersUpTo(turns, numbers, t, 0, 0)
    {
      var a := 0;
      while a < |turns[t].attempts|
        invariant 0 <= a <= |turns[t].attempts| && next == Offset(Observations, turns, t, a)
        invariant NumbersUpTo(turns, numbers, t, a, 0)
      {
        var o := 0;
        while o < |turns[t].attempts[a].observations|
          invariant 0 <= o <= |turns[t].attempts[a].observations| && next == Offset(Observations, turns, t, a) + o
          invariant NumbersUpTo(turns, numbers, t, a, o)
        {
          next := next + 1;
          numbers := numbers[(t, a, o) := next];
          o := o + 1;
        }
        a := a + 1;
      }
      t := t + 1;
    }
  }

  // The least attempt number among the retries of r, over the whole table.
  method LeastRetry(turns: seq<Turn>, metas: Metas, r: AttemptRef) returns (first: Option<nat>)
    requires MetasComplete(turns, metas)
    ensures FirstRetry(turns, r, first)
  {
    first := None;
    var left := metas.Keys;
    while left != {}
      invariant left <= metas.Keys
      invariant forall k :: k in metas && k !in left && metas[k].original == Some(r) ==>
                  first.Some? && first.value <= metas[k].attemptNo
      invariant first.Some? ==> exists k ::
                  k in metas && metas[k].original == Some(r) && metas[k].attemptNo == first.value
    {
      var k :| k in left;
      left := left - {k};
      var meta := metas[k];
      if meta.original == Some(r) && (first.None? || meta.attemptNo < first.value) {
        first := Some(meta.attemptNo);
      }
    }
    RetryFromTable(turns, metas, r, first);
  }

  lemma RetryFromTable(turns: seq<Turn>, metas: Metas, r: AttemptRef, first: Option<nat>)
    requires MetasComplete(turns, metas)
    requires forall k :: k in metas && metas[k].original == Some(r) ==> first.Some? && first.value <= metas[k].attemptNo
    requires first.Some? ==> exists k :: k in metas && metas[k].original == Some(r) && metas[k].attemptNo == first.value
    ensures FirstRetry(turns, r, first)
  {
    forall u, b | 0 <= u < |turns| && 0 <= b < |turns[u].attempts| && Original(turns[u].attempts[b]) == Some(r)
      ensures first.Some? && first.value <= AttemptNo(turns, u, b)
    {
      MetaFor(turns, metas, u, b);
      assert metas[(u, b)].original == Some(r);
    }
    if first.Some? {
      var k :| k in metas && metas[k].original == Some(r) && metas[k].attemptNo == first.value;
      var u, b := k.0, k.1;
      assert k == (u, b);
      MetaFor(turns, metas, u, b);
      assert Original(turns[u].attempts[b]) == Some(r) && AttemptNo(turns, u, b) == first.value;
    }
  }

  // The flat lists as the third pass grows them.
  datatype Lists = Lists(
    attempts: seq<Attempt>, findings: seq<Finding>, evidence: seq<AttemptEvidence>,
    assessments: seq<ObservationEvidence>, interventions: seq<Intervention>)

  ghost predicate Placed(turns: seq<Turn>, list: seq<Intervention>, t: nat, a: nat, i: nat)
    requires Inside(Interventions, turns, t, a, i)
  {
    var k := Offset(Interventions, turns, t, a) + i;
    && k < |list| && list[k].no == k + 1 && list[k].afterNo == AttemptNo(turns, t, a)
    && list[k].text == turns[t].attempts[a].after[i].text && list[k].targets == turns[t].attempts[a].after[i].targets
    && Precedes(turns, t, a, list[k].beforeNo)
  }

  ghost predicate InterventionsUpTo(turns: seq<Turn>, list: seq<Intervention>, t: nat, a: nat, i: nat) {
    && t <= |turns| && (t < |turns| ==> a <= |turns[t].attempts|) && (t == |turns| ==> a == 0)
    && |list| == Reach(Interventions, turns, t, a) + i
    && (forall u: nat, b: nat, j: nat {:trigger Before(u, b, j, t, a, i)} ::
          Inside(Interventions, turns, u, b, j) && Before(u, b, j, t, a, i) ==> Placed(turns, list, u, b, j))
  }

  predicate Before(u: nat, b: nat, j: nat, t: nat, a: nat, i: nat) {
    Earlier(u, b, t, a) || (u == t && b == a && j < i)
  }

  lemma AddIntervention(turns: seq<Turn>, list: seq<Intervention>, t: nat, a: nat, i: nat, x: Intervention)
    requires Inside(Interventions, turns, t, a, i) && InterventionsUpTo(turns, list, t, a, i)
    requires Placed(turns, list + [x], t, a, i)
    ensures InterventionsUpTo(turns, list + [x], t, a, i + 1)
  {
    forall u: nat, b: nat, j: nat | Inside(Interventions, turns, u, b, j) && Before(u, b, j, t, a, i + 1)
      ensures Placed(turns, list + [x], u, b, j)
    {
      if u != t || b != a || j != i {
        assert Before(u, b, j, t, a, i);
      }
    }
  }

  lemma InterventionsNextAttempt(turns: seq<Turn>, list: seq<Intervention>, t: nat, a: nat)
    requires Valid(turns, t, a) && InterventionsUpTo(turns, list, t, a, |turns[t].attempts[a].after|)
    ensures InterventionsUpTo(turns, list, t, a + 1, 0)
  {
    forall u: nat, b: nat, j: nat | Inside(Interventions, turns, u, b, j) && Before(u, b, j, t, a + 1, 0)
      ensures Placed(turns, list, u, b, j)
    {
      assert Before(u, b, j, t, a, |turns[t].attempts[a].after|);
    }
  }

  lemma InterventionsNextTurn(turns: seq<Turn>, list: seq<Intervention>, t: nat)
    requires t < |turns| && InterventionsUpTo(turns, list, t, |turns[t].attempts|, 0)
    ensures InterventionsUpTo(turns, list, t + 1, 0, 0)
  {
    forall u: nat, b: nat, j: nat | Inside(Interventions, turns, u, b, j) && Before(u, b, j, t + 1, 0, 0)
      ensures Placed(turns, list, u, b, j)
    {
      assert Before(u, b, j, t, |turns[t].attempts|, 0);
    }
  }

  lemma InterventionsDone(turns: seq<Turn>, list: seq<Intervention>)
    requires InterventionsUpTo(turns, list, |turns|, 0, 0)
    ensures InterventionsPlaced(turns, list)
  {
    forall t: nat, a: nat, i: nat | Inside(Interventions, turns, t, a, i)
      ensures Placed(turns, list, t, a, i)
    {
      assert Before(t, a, i, |turns|, 0, 0);
    }
  }

  ghost predicate ListsUpTo(turns: seq<Turn>, lists: Lists, production: bool, t: nat, a: nat) {
    && Filled(Attempts, turns, lists.attempts, AttemptAt(turns), t, a)
    && Filled(Findings, turns, lists.findings, FindingAt(turns), t, a)
    && (production ==> Filled(Attempts, turns, lists.evidence, EvidenceAt(turns), t, a))
    && (production ==> Filled(Observations, turns, lists.assessments, AssessmentAt(turns), t, a))
    && (production ==> InterventionsUpTo(turns, lists.interventions, t, a, 0))
  }

  // An attempt's observations, numbered from the table.
  method ExpandObservations(turns: seq<Turn>, t: nat, a: nat, attemptNo: nat, numbers: ObservationNumbers,
                            production: bool)
    returns (ok: bool, observations: seq<Observation>, assessments: seq<ObservationEvidence>)
    requires Valid(turns, t, a) && NumbersComplete(turns, numbers) && attemptNo == AttemptNo(turns, t, a)
    ensures ok <==> (production ==> forall o :: 0 <= o < |turns[t].attempts[a].observations| ==>
              turns[t].attempts[a].observations[o].assessment.Some?)
    ensures ok ==> observations == AttemptAt(turns)(t, a, 0).observations
    ensures ok && production ==> |assessments| == |observations| && forall o :: 0 <= o < |assessments| ==>
              AssessmentAt(turns).requires(t, a, o) && assessments[o] == AssessmentAt(turns)(t, a, o)
  {
    observations, assessments := [], [];
    var at := turns[t].attempts[a];
    var o := 0;
    while o < |at.observations|
      invariant 0 <= o <= |at.observations| && |observations| == o
      invariant production ==> forall p :: 0 <= p < o ==> at.observations[p].assessment.Some?
      invariant forall p :: 0 <= p < o ==>
                  observations[p] == Canonical(at.observations[p], ObservationNo(turns, t, a, p))
      invariant production ==> |assessments| == o && forall p :: 0 <= p < o ==>
                  AssessmentAt(turns).requires(t, a, p) && assessments[p] == AssessmentAt(turns)(t, a, p)
    {
      assert Inside(Observations, turns, t, a, o);
      var no := numbers[(t, a, o)];
      observations := observations + [Canonical(at.observations[o], no)];
      if production {
        if at.observations[o].assessment.None? {
          return false, observations, assessments;
        }
        var s := at.observations[o].assessment.value;
        assessments := assessments + [ObservationEvidence(no, attemptNo, s.realization, s.accuracy, s.provenance)];
      }
      o := o + 1;
    }
    ok := true;
  }

  method ExpandFindings(turns: seq<Turn>, t: nat, a: nat, meta: Meta) returns (findings: seq<Finding>)
    requires Valid(turns, t, a) && meta.itemNo == t + 1 && meta.attemptNo == AttemptNo(turns, t, a)
    ensures |findings| == |turns[t].attempts[a].findings|
    ensures forall i :: 0 <= i < |findings| ==>
              FindingAt(turns).requires(t, a, i) && findings[i] == FindingAt(turns)(t, a, i)
  {
    findings := [];
    var at := turns[t].attempts[a];
    var i := 0;
    while i < |at.findings|
      invariant 0 <= i <= |at.findings| && |findings| == i
      invariant forall j :: 0 <= j < i ==>
                  FindingAt(turns).requires(t, a, j) && findings[j] == FindingAt(turns)(t, a, j)
    {
      findings := findings + [Finding(Some(meta.itemNo), Some(meta.attemptNo), at.findings[i].body,
        at.findings[i].original)];
      i := i + 1;
    }
  }

  method ExpandInterventions(turns: seq<Turn>, t: nat, a: nat, metas: Metas, production: bool,
                             list0: seq<Intervention>, no0: nat)
    returns (ok: bool, list: seq<Intervention>, no: nat)
    requires Valid(turns, t, a) && MetasComplete(turns, metas)
    requires no0 == Offset(Interventions, turns, t, a)
    requires production ==> InterventionsUpTo(turns, list0, t, a, 0)
    ensures ok <==> InterventionsOk(turns[t].attempts[a])
    ensures ok && production ==> InterventionsUpTo(turns, list, t, a + 1, 0)
    ensures ok ==> no == Offset(Interventions, turns, t, a + 1)
  {
    list, no := list0, no0;
    var at := turns[t].attempts[a];
    MetaFor(turns, metas, t, a);
    var i := 0;
    while i < |at.after|
      invariant 0 <= i <= |at.after| && no == no0 + i
      invariant forall j :: 0 <= j < i ==> TextOk(at.after[j].text, 4000)
      invariant production ==> InterventionsUpTo(turns, list, t, a, i)
    {
      if !TextOk(at.after[i].text, 4000) {
        return false, list, no;
      }
      no := no + 1;
      if production {
        var before: Option<nat>;
        if a + 1 < |turns[t].attempts| {
          MetaFor(turns, metas, t, a + 1);
          before := Some(metas[(t, a + 1)].attemptNo);
        } else {
          before := LeastRetry(turns, metas, AttemptRef(t + 1, a + 1));
        }
        var x := Intervention(no, at.after[i].text, at.after[i].targets, metas[(t, a)].attemptNo, before);
        AddIntervention(turns, list, t, a, i, x);
        list := list + [x];
      }
      i := i + 1;
    }
    if production {
      InterventionsNextAttempt(turns, list, t, a);
    }
    ok := true;
  }

  method ExpandEvidence(turns: seq<Turn>, t: nat, a: nat, metas: Metas) returns (ok: bool, e: AttemptEvidence)
    requires Valid(turns, t, a) && MetasComplete(turns, metas) && ShapeOk(turns)
    requires forall o :: 0 <= o < |turns[t].attempts[a].observations| ==>
               turns[t].attempts[a].observations[o].assessment.Some?
    ensures ok <==> EvidenceOk(turns, t, a)
    ensures ok ==> EvidenceAt(turns).requires(t, a, 0) && e == EvidenceAt(turns)(t, a, 0)
  {
    e := AttemptEvidence(0, Initial, None, NoneDetected, NoneKnown, "", "", "", Details(map[]));
    var at := turns[t].attempts[a];
    assert AttemptOk(turns, at);
    MetaFor(turns, metas, t, a);
    if at.evidence.None? {
      return false, e;
    }
    var given := at.evidence.value;
    var meta := metas[(t, a)];
    var originalNo: Option<nat> := None;
    if meta.original.Some? {
      var r := meta.original.value;
      MetaFor(turns, metas, r.turn - 1, r.attempt - 1);
      originalNo := Some(metas[(r.turn - 1, r.attempt - 1)].attemptNo);
    }
    if given.kind == Initial && originalNo.Some? {
      return false, e;
    }
    if given.kind == SelfCorrection && originalNo.None? {
      return false, e;
    }
    if originalNo.Some? && originalNo.value >= meta.attemptNo {
      return false, e;
    }
    if !TextOk(given.scenario, 160) || !TextOk(given.topic, 160) {
      return false, e;
    }
    assert originalNo == if given.original.Some? then Some(CitedAttempt(turns, given.original.value)) else None;
    e := AttemptEvidence(meta.attemptNo, given.kind, originalNo, given.cueing, given.exposure, given.provenance,
      given.scenario, given.topic, given.details);
    ok := true;
  }

  ghost predicate AttemptExpandable(turns: seq<Turn>, production: bool, t: nat, a: nat)
    requires Valid(turns, t, a)
  {
    InterventionsOk(turns[t].attempts[a]) && (production ==> EvidenceOk(turns, t, a))
  }

  // One attempt of the third pass.
  method ExpandAttempt(turns: seq<Turn>, t: nat, a: nat, metas: Metas, numbers: ObservationNumbers, production: bool,
                       lists0: Lists, no0: nat)
    returns (ok: bool, lists: Lists, no: nat)
    requires Valid(turns, t, a) && ShapeOk(turns) && MetasComplete(turns, metas) && NumbersComplete(turns, numbers)
    requires ListsUpTo(turns, lists0, production, t, a) && no0 == Offset(Interventions, turns, t, a)
    ensures ok <==> AttemptExpandable(turns, production, t, a)
    ensures ok ==> ListsUpTo(turns, lists, production, t, a + 1) && no == Offset(Interventions, turns, t, a + 1)
  {
    lists, no := lists0, no0;
    var at := turns[t].attempts[a];
    MetaFor(turns, metas, t, a);
    var meta := metas[(t, a)];
    var observations, assessments;
    ok, observations, assessments := ExpandObservations(turns, t, a, meta.attemptNo, numbers, production);
    if !ok {
      return;
    }
    var findings := ExpandFindings(turns, t, a, meta);
    var interventions;
    ok, interventions, no := ExpandInterventions(turns, t, a, metas, production, lists.interventions, no);
    if !ok {
      return;
    }
    var attempt := Attempt(meta.attemptNo, Some(meta.itemNo), at.transcript, at.timing,
                           if at.evidence.Some? then at.evidence.value.effort else None, observations);
    lists := lists.(interventions := interventions);
    FillAttempt(Attempts, turns, lists.attempts, [attempt], AttemptAt(turns), t, a);
    FillAttempt(Findings, turns, lists.findings, findings, FindingAt(turns), t, a);
    lists := lists.(attempts := lists.attempts + [attempt], findings := lists.findings + findings);
    if production {
      var e;
      ok, e := ExpandEvidence(turns, t, a, metas);
      if !ok {
        return;
      }
      FillAttempt(Attempts, turns, lists.evidence, [e], EvidenceAt(turns), t, a);
      FillAttempt(Observations, turns, lists.assessments, assessments, AssessmentAt(turns), t, a);
      lists := lists.(evidence := lists.evidence + [e], assessments := lists.assessments + assessments);
    }
  }

  ghost predicate TurnExpandable(turns: seq<Turn>, production: bool, t: nat)
    requires t < |turns|
  {
    forall a :: 0 <= a < |turns[t].attempts| ==> AttemptExpandable(turns, production, t, a)
  }

  method ExpandTurn(turns: seq<Turn>, t: nat, metas: Metas, numbers: ObservationNumbers, production: bool,
                    lists0: Lists, no0: nat)
    returns (ok: bool, lists: Lists, no: nat)
    requires t < |turns| && ShapeOk(turns) && MetasComplete(turns, metas) && NumbersComplete(turns, numbers)
    requires ListsUpTo(turns, lists0, production, t, 0) && no0 == InTurns(Interventions, turns, t)
    ensures ok <==> TurnExpandable(turns, production, t)
    ensures ok ==> ListsUpTo(turns, lists, production, t + 1, 0) && no == InTurns(Interventions, turns, t + 1)
  {
    lists, no := lists0, no0;
    var a := 0;
    while a < |turns[t].attempts|
      invariant 0 <= a <= |turns[t].attempts| && no == Offset(Interventions, turns, t, a)
      invariant ListsUpTo(turns, lists, production, t, a)
      invariant forall b :: 0 <= b < a ==> AttemptExpandable(turns, production, t, b)
    {
      ok, lists, no := ExpandAttempt(turns, t, a, metas, numbers, production, lists, no);
      if !ok {
        return;
      }
      a := a + 1;
    }
    ListsNextTurn(turns, lists, production, t);
    ok := true;
  }

  // The third pass builds every flat list in array order.
  method ExpandAttempts(turns: seq<Turn>, metas: Metas, numbers: ObservationNumbers, production: bool)
    returns (ok: bool, lists: Lists)
    requires ShapeOk(turns) && MetasComplete(turns, metas) && NumbersComplete(turns, numbers)
    ensures ok <==> forall t :: 0 <= t < |turns| ==> TurnExpandable(turns, production, t)
    ensures ok ==> ListsUpTo(turns, lists, production, |turns|, 0)
  {
    lists := Lists([], [], [], [], []);
    var no := 0;
    var t := 0;
    NothingYet(turns, production);
    while t < |turns|
      invariant 0 <= t <= |turns| && no == InTurns(Interventions, turns, t)
      invariant ListsUpTo(turns, lists, production, t, 0)
      invariant forall u :: 0 <= u < t ==> TurnExpandable(turns, production, u)
    {
      ok, lists, no := ExpandTurn(turns, t, metas, numbers, production, lists, no);
      if !ok {
        return;
      }
      t := t + 1;
    }
    ok := true;
  }

  lemma NothingYet(turns: seq<Turn>, production: bool)
    ensures ListsUpTo(turns, Lists([], [], [], [], []), production, 0, 0)
  {
  }

  lemma ListsNextTurn(turns: seq<Turn>, lists: Lists, production: bool, t: nat)
    requires t < |turns| && ListsUpTo(turns, lists, production, t, |turns[t].attempts|)
    ensures ListsUpTo(turns, lists, production, t + 1, 0)
  {
    FillTurn(Attempts, turns, lists.attempts, AttemptAt(turns), t);
    FillTurn(Findings, turns, lists.findings, FindingAt(turns), t);
    if production {
      FillTurn(Attempts, turns, lists.evidence, EvidenceAt(turns), t);
      FillTurn(Observations, turns, lists.assessments, AssessmentAt(turns), t);
      InterventionsNextTurn(turns, lists.interventions, t);
    }
  }

  method ResolveAll(turns: seq<Turn>, numbers: ObservationNumbers, refs: seq<ObservationRef>)
      returns (ok: bool, nos: seq<nat>)
    requires NumbersComplete(turns, numbers)
    ensures ok <==> forall k :: 0 <= k < |refs| ==> ObservationRefOk(turns, refs[k])
    ensures ok ==> nos == Nos(turns, refs)
  {
    nos := [];
    var k := 0;
    while k < |refs|
      invariant 0 <= k <= |refs| && |nos| == k
      invariant forall j :: 0 <= j < k ==>
                  ObservationRefOk(turns, refs[j]) && nos[j] == CitedObservation(turns, refs[j])
    {
      if !ObservationRefOk(turns, refs[k]) {
        return false, nos;
      }
      var r := refs[k];
      assert Inside(Observations, turns, r.turn - 1, r.attempt - 1, r.observation - 1);
      nos := nos + [numbers[(r.turn - 1, r.attempt - 1, r.observation - 1)]];
      k := k + 1;
    }
    ok := true;
  }

  ghost predicate ReviewsExpanded(turns: seq<Turn>, given: seq<CompactReview>, reviews: seq<Review>) {
    && |reviews| == |given|
    && forall k :: 0 <= k < |given| ==>
         && (forall j :: 0 <= j < |given[k].refs| ==> ObservationRefOk(turns, given[k].refs[j]))
         && reviews[k] == Review(given[k].target, given[k].rating, Nos(turns, given[k].refs), given[k].rationale,
            given[k].details)
  }

  method ExpandReviews(turns: seq<Turn>, numbers: ObservationNumbers, given: seq<CompactReview>, production: bool)
    returns (ok: bool, reviews: seq<Review>, variations: seq<Variation>)
    requires NumbersComplete(turns, numbers)
    ensures ok <==> forall k :: 0 <= k < |given| ==> ReviewOk(turns, production, given[k])
    ensures ok ==> ReviewsExpanded(turns, given, reviews)
    ensures ok && production ==> variations == Variations(turns, given)
  {
    reviews, variations := [], [];
    var k := 0;
    while k < |given|
      invariant 0 <= k <= |given|
      invariant forall j :: 0 <= j < k ==> ReviewOk(turns, production, given[j])
      invariant ReviewsExpanded(turns, given[..k], reviews)
      invariant production ==> variations == Variations(turns, given[..k])
    {
      var r := given[k];
      if !TextOk(r.target, 160) {
        return false, reviews, variations;
      }
      var nos;
      ok, nos := ResolveAll(turns, numbers, r.refs);
      if !ok {
        return;
      }
      assert given[..k + 1][..k] == given[..k] && given[..k + 1][k] == r;
      if production && r.variation.Some? {
        if r.variation.value.refs == [] {
          return false, reviews, variations;
        }
        var varied;
        ok, varied := ResolveAll(turns, numbers, r.variation.value.refs);
        if !ok {
          return;
        }
        if !TextOk(r.variation.value.rationale, 2000) {
          return false, reviews, variations;
        }
        variations := variations + [Variation(r.target, varied, r.variation.value.rationale)];
      }
      assert ReviewOk(turns, production, r);
      reviews := reviews + [Review(r.target, r.rating, nos, r.rationale, r.details)];
      k := k + 1;
    }
    assert given[..|given|] == given;
    ok := true;
  }

  method ExpandAssessments(turns: seq<Turn>, metas: Metas, given: seq<TaskAssessment>)
      returns (ok: bool, list: seq<PointAssessment>)
    requires MetasComplete(turns, metas)
    ensures ok <==> forall k :: 0 <= k < |given| ==> AttemptRefOk(turns, given[k].attempt)
    ensures ok ==> |list| == |given| && forall k :: 0 <= k < |given| ==>
              list[k] == PointAssessment(CitedAttempt(turns, given[k].attempt), given[k].point, given[k].details)
  {
    list := [];
    var k := 0;
    while k < |given|
      invariant 0 <= k <= |given| && |list| == k
      invariant forall j :: 0 <= j < k ==> AttemptRefOk(turns, given[j].attempt)
      invariant forall j :: 0 <= j < k ==>
                  list[j] == PointAssessment(CitedAttempt(turns, given[j].attempt), given[j].point, given[j].details)
    {
      var r := given[k].attempt;
      if !AttemptRefOk(turns, r) {
        return false, list;
      }
      MetaFor(turns, metas, r.turn - 1, r.attempt - 1);
      list := list + [PointAssessment(metas[(r.turn - 1, r.attempt - 1)].attemptNo, given[k].point, given[k].details)];
      k := k + 1;
    }
    ok := true;
  }

  method ExpandItems(turns: seq<Turn>, production: bool) returns (ok: bool, items: seq<Item>)
    ensures ok <==> (!production ==> forall t :: 0 <= t < |turns| ==> FeedbackOk(turns[t]))
    ensures ok ==> |items| == |turns| && forall t :: 0 <= t < |turns| ==> items[t] == ItemAt(turns, production, t)
  {
    items := [];
    var t := 0;
    while t < |turns|
      invariant 0 <= t <= |turns| && |items| == t
      invariant !production ==> forall u :: 0 <= u < t ==> FeedbackOk(turns[u])
      invariant forall u :: 0 <= u < t ==> items[u] == ItemAt(turns, production, u)
    {
      if !production && !FeedbackOk(turns[t]) {
        return false, items;
      }
      var feedback := if production then None else FeedbackFor(turns[t]);
      items := items + [Item(t + 1, turns[t].drill, turns[t].prompt, feedback, turns[t].targets, [])];
      t := t + 1;
    }
    ok := true;
  }

  method CollectOpportunities(turns: seq<Turn>) returns (list: seq<Opportunity>)
    ensures list == Opportunities(turns)
  {
    list := [];
    var t := 0;
    while t < |turns|
      invariant 0 <= t <= |turns| && list == Opportunities(turns[..t])
    {
      assert turns[..t + 1][..t] == turns[..t];
      list := list + TurnOpportunities(turns[t]);
      t := t + 1;
    }
    assert turns[..|turns|] == turns;
  }

  // expand: it succeeds exactly on the expandable requests, and its result is
  // then the expansion of the request.
  method Expand(req: Compact) returns (r: Result<Session, ExpandError>)
    ensures r.Success? <==> Expandable(req)
    ensures r.Success? ==> IsExpansion(req, r.value)
  {
    if !TextOk(req.key, 128) || |req.turns| > 100 || |req.reviews| > 100 {
      return Failure(BadHeader);
    }
    var turns := req.turns;
    var shaped, metas := NumberAttempts(turns);
    if !shaped {
      return Failure(BadTurn);
    }
    var numbers := NumberObservations(turns);
    var production := ProductionPresent(req);
    if production && req.policyVersion.None? {
      return Failure(MissingPolicy);
    }
    var fed, items := ExpandItems(turns, production);
    if !fed {
      return Failure(BadFeedback);
    }
    var ok, lists := ExpandAttempts(turns, metas, numbers, production);
    TurnVerdicts(req);
    if !ok {
      return Failure(BadEvidence);
    }
    var resolved, reviews, variations := ExpandReviews(turns, numbers, req.reviews, production);
    if !resolved {
      return Failure(BadReview);
    }
    var assessed, assessments := ExpandAssessments(turns, metas, req.assessments);
    if !assessed {
      return Failure(BadAssessment);
    }
    var evidence: Option<Evidence> := None;
    if production {
      var opportunities := CollectOpportunities(turns);
      evidence := Some(Evidence(req.policyVersion.value, opportunities, lists.evidence, lists.assessments,
        lists.interventions, variations));
      EvidenceComplete(req, evidence.value, lists);
    }
    r := Success(Session(req.key, items, lists.attempts, [], lists.findings, reviews, assessments, evidence));
    ExpansionComplete(req, lists, r.value);
  }

  lemma EvidenceComplete(req: Compact, e: Evidence, lists: Lists)
    requires ListsUpTo(req.turns, lists, true, |req.turns|, 0)
    requires req.policyVersion == Some(e.policyVersion) && e.opportunities == Opportunities(req.turns)
    requires e.attempts == lists.evidence && e.observations == lists.assessments &&
             e.interventions == lists.interventions
    requires forall k :: 0 <= k < |req.reviews| ==> ReviewOk(req.turns, true, req.reviews[k])
    requires e.variations == Variations(req.turns, req.reviews)
    ensures EvidenceExpanded(req, e)
  {
    InterventionsDone(req.turns, lists.interventions);
  }

  lemma ExpansionComplete(req: Compact, lists: Lists, out: Session)
    requires out.key == req.key && out.observations == []
    requires |out.items| == |req.turns| && forall t :: 0 <= t < |req.turns| ==>
               out.items[t] == ItemAt(req.turns, ProductionPresent(req), t)
    requires ListsUpTo(req.turns, lists, ProductionPresent(req), |req.turns|, 0)
    requires out.attempts == lists.attempts && out.findings == lists.findings
    requires ReviewsExpanded(req.turns, req.reviews, out.reviews)
    requires |out.assessments| == |req.assessments|
    requires forall k :: 0 <= k < |req.assessments| ==> AttemptRefOk(req.turns, req.assessments[k].attempt)
    requires forall k :: 0 <= k < |req.assessments| ==>
               out.assessments[k] ==
               PointAssessment(CitedAttempt(req.turns, req.assessments[k].attempt), req.assessments[k].point,
                 req.assessments[k].details)
    requires out.evidence.Some? <==> ProductionPresent(req)
    requires ProductionPresent(req) ==> EvidenceExpanded(req, out.evidence.value)
    ensures IsExpansion(req, out)
  {
  }

  // The attempt-by-attempt verdicts are the request's.
  lemma TurnVerdicts(req: Compact)
    ensures (forall t :: 0 <= t < |req.turns| ==> TurnExpandable(req.turns, ProductionPresent(req), t)) <==>
            && (forall t, a :: 0 <= t < |req.turns| && 0 <= a < |req.turns[t].attempts| ==>
                 InterventionsOk(req.turns[t].attempts[a]))
            && (ProductionPresent(req) ==>
                  forall t, a :: 0 <= t < |req.turns| && 0 <= a < |req.turns[t].attempts| ==>
                      EvidenceOk(req.turns, t, a))
  {
    var production := ProductionPresent(req);
    if forall t :: 0 <= t < |req.turns| ==> TurnExpandable(req.turns, production, t) {
      forall t, a | 0 <= t < |req.turns| && 0 <= a < |req.turns[t].attempts|
        ensures InterventionsOk(req.turns[t].attempts[a]) && (production ==> EvidenceOk(req.turns, t, a))
      {
        assert TurnExpandable(req.turns, production, t);
        assert AttemptExpandable(req.turns, production, t, a);
      }
    } else {
      var t :| 0 <= t < |req.turns| && !TurnExpandable(req.turns, production, t);
      var a :| 0 <= a < |req.turns[t].attempts| && !AttemptExpandable(req.turns, production, t, a);
      assert !(InterventionsOk(req.turns[t].attempts[a]) && (production ==> EvidenceOk(req.turns, t, a)));
    }
  }
}
