// Which compact requests are expanded, told of their turns, attempts and references
// (src/tutoring.rs, expand and its validators).
module ExpansionAcceptance {
  import opened Outcomes
  import opened Texts
  import opened Sums
  import opened SessionModel
  import opened CompactRequest
  import opened Expansion
  import opened ExpansionEvidence

  // ----- how much there is

  function AllAttempts(turns: seq<Turn>): seq<CompactAttempt> {
    if turns == [] then [] else AllAttempts(turns[..|turns| - 1]) + turns[|turns| - 1].attempts
  }

  function Sizes(part: Part, ats: seq<CompactAttempt>): seq<nat> {
    seq(|ats|, k requires 0 <= k < |ats| => SizeOf(part, ats[k]))
  }

  function SizeOf(part: Part, at: CompactAttempt): nat {
    if part.Attempts? then 1
    else if part.Observations? then |at.observations|
    else if part.Findings? then |at.findings|
    else |at.after|
  }

  predicate NotTooMuch(turns: seq<Turn>) {
    var ats := AllAttempts(turns);
    && |ats| <= 100 && Sum(Sizes(Observations, ats)) <= 300
    && Sum(Sizes(Findings, ats)) <= 300 && Sum(Sizes(Interventions, ats)) <= 300
  }

  lemma {:induction false} SumOfAttempts(part: Part, ats: seq<CompactAttempt>, n: nat)
    requires n <= |ats|
    ensures Sum(Sizes(part, ats[..n])) == InAttempts(part, ats, n)
  {
    if n > 0 {
      SumOfAttempts(part, ats, n - 1);
      assert Sizes(part, ats[..n])[..n - 1] == Sizes(part, ats[..n - 1]);
    }
  }

  lemma {:induction false} SumOfBoth(s: seq<nat>, t: seq<nat>)
    ensures Sum(s + t) == Sum(s) + Sum(t)
  {
    if t == [] {
      assert s + t == s;
    } else {
      SumOfBoth(s, t[..|t| - 1]);
      assert (s + t)[..|s + t| - 1] == s + t[..|t| - 1];
    }
  }

  lemma {:induction false} SumOfTurns(part: Part, turns: seq<Turn>, n: nat)
    requires n <= |turns|
    ensures Sum(Sizes(part, AllAttempts(turns[..n]))) == InTurns(part, turns, n)
  {
    if n > 0 {
      SumOfTurns(part, turns, n - 1);
      assert turns[..n][..n - 1] == turns[..n - 1];
      OneMoreTurn(part, AllAttempts(turns[..n - 1]), turns[n - 1].attempts);
    }
  }

  lemma SizesOfBoth(part: Part, xs: seq<CompactAttempt>, ys: seq<CompactAttempt>)
    ensures Sizes(part, xs + ys) == Sizes(part, xs) + Sizes(part, ys)
  {
  }

  lemma {:induction false} OneMoreTurn(part: Part, earlier: seq<CompactAttempt>, ats: seq<CompactAttempt>)
    ensures Sum(Sizes(part, earlier + ats)) == Sum(Sizes(part, earlier)) + InAttempts(part, ats, |ats|)
  {
    SizesOfBoth(part, earlier, ats);
    SumOfBoth(Sizes(part, earlier), Sizes(part, ats));
    SumOfAttempts(part, ats, |ats|);
    assert ats[..|ats|] == ats;
  }

  lemma {:induction false} OneEach(ats: seq<CompactAttempt>)
    ensures Sum(Sizes(Attempts, ats)) == |ats|
  {
    if ats != [] {
      OneEach(ats[..|ats| - 1]);
      assert Sizes(Attempts, ats)[..|ats| - 1] == Sizes(Attempts, ats[..|ats| - 1]);
    }
  }

  lemma LimitsIff(turns: seq<Turn>)
    ensures WithinLimits(turns) <==> NotTooMuch(turns)
  {
    assert turns[..|turns|] == turns;
    OneEach(AllAttempts(turns));
    SumOfTurns(Attempts, turns, |turns|);
    SumOfTurns(Observations, turns, |turns|);
    SumOfTurns(Findings, turns, |turns|);
    SumOfTurns(Interventions, turns, |turns|);
  }

  // ----- turns and attempts

  predicate Says(text: string, max: nat) {
    !Blank(text) && |text| <= max
  }

  // The reference names an attempt of some turn, both counted from one.
  predicate IsThere(turns: seq<Turn>, r: AttemptRef) {
    1 <= r.turn <= |turns| && 1 <= r.attempt <= |turns[r.turn - 1].attempts|
  }

  predicate IsObserved(turns: seq<Turn>, r: ObservationRef) {
    && IsThere(turns, AttemptRef(r.turn, r.attempt))
    && 1 <= r.observation <= |turns[r.turn - 1].attempts[r.attempt - 1].observations|
  }

  predicate TurnStands(turns: seq<Turn>, turn: Turn) {
    && Says(turn.prompt, 4000) && |turn.targets| <= 20 && (forall t :: t in turn.targets ==> Says(t, 160))
    && (match turn.purpose case Some(p) => Says(p, 1000) case None => true)
    && |turn.attempts| <= 20 && forall at :: at in turn.attempts ==> AttemptStandsUp(turns, at)
  }

  predicate AttemptStandsUp(turns: seq<Turn>, at: CompactAttempt) {
    && Says(at.transcript, 8000)
    && (at.timing.source == None ==> at.timing.actual == None && at.timing.latency == None)
    && (forall o :: o in at.observations ==> Says(o.weakness, 160))
    && (forall f :: f in at.findings ==> Says(f.original, 4000))
    && |at.after| <= 20 && (forall i :: i in at.after ==> Says(i.text, 4000))
    && match at.evidence
       case Some(e) => (match e.original case Some(r) => IsThere(turns, r) case None => true)
       case None => true
  }

  // The feedback of a turn, one line for each intervention, is not too long.
  predicate FeedbackFits(turn: Turn) {
    var texts := InterventionTexts(turn.attempts);
    texts != [] ==> Sum(Lengths(texts)) + |texts| - 1 <= 4000
  }

  function Lengths(texts: seq<string>): seq<nat> {
    seq(|texts|, k requires 0 <= k < |texts| => |texts[k]|)
  }

  // ----- production evidence

  // An attempt of production evidence: everything in it is assessed, a correction
  // names an earlier attempt as its original and a first try names none.
  predicate Assessed(turns: seq<Turn>, t: nat, a: nat)
    requires t < |turns| && a < |turns[t].attempts|
  {
    var at := turns[t].attempts[a];
    && (forall o :: o in at.observations ==> o.assessment != None)
    && match at.evidence
       case None => false
       case Some(e) =>
         && Says(e.scenario, 160) && Says(e.topic, 160)
         && match e.original
            case None => e.kind != SelfCorrection
            case Some(r) => e.kind != Initial && ComesBefore(r, AttemptRef(t + 1, a + 1))
  }

  predicate ComesBefore(r: AttemptRef, s: AttemptRef) {
    r.turn < s.turn || (r.turn == s.turn && r.attempt < s.attempt)
  }

  predicate ReviewStands(turns: seq<Turn>, production: bool, r: CompactReview) {
    && Says(r.target, 160) && (forall x :: x in r.refs ==> IsObserved(turns, x))
    && (production ==>
          match r.variation
          case None => true
          case Some(v) => v.refs != [] && (forall x :: x in v.refs ==> IsObserved(turns, x)) && Says(v.rationale, 2000))
  }

  // ----- the request as a whole

  predicate RequestStands(req: Compact) {
    var turns := req.turns;
    && Says(req.key, 128) && |turns| <= 100 && |req.reviews| <= 100 && NotTooMuch(turns)
    && (forall turn :: turn in turns ==> TurnStands(turns, turn))
    && (forall r :: r in req.reviews ==> ReviewStands(turns, SaysAnything(req), r))
    && (forall s :: s in req.assessments ==> IsThere(turns, s.attempt))
    && if SaysAnything(req)
       then req.policyVersion != None && forall t, a :: 0 <= t < |turns| && 0 <= a < |turns[t].attempts| ==>
                                           Assessed(turns, t, a)
       else forall turn :: turn in turns ==> FeedbackFits(turn)
  }

  lemma TurnIff(turns: seq<Turn>, turn: Turn)
    ensures TurnStands(turns, turn) <==>
            && TurnOk(turn)
            && forall a :: 0 <= a < |turn.attempts| ==>
                 AttemptOk(turns, turn.attempts[a]) && InterventionsOk(turn.attempts[a])
  {
    forall a | 0 <= a < |turn.attempts|
      ensures AttemptStandsUp(turns, turn.attempts[a]) <==>
              AttemptOk(turns, turn.attempts[a]) && InterventionsOk(turn.attempts[a])
    {
      AttemptIff(turns, turn.attempts[a]);
    }
    if TurnStands(turns, turn) {
      assert forall a :: 0 <= a < |turn.attempts| ==> turn.attempts[a] in turn.attempts;
      assert forall k :: 0 <= k < |turn.targets| ==> turn.targets[k] in turn.targets;
    }
  }

  lemma AttemptIff(turns: seq<Turn>, at: CompactAttempt)
    ensures AttemptStandsUp(turns, at) <==> AttemptOk(turns, at) && InterventionsOk(at)
  {
    if AttemptStandsUp(turns, at) {
      assert forall k :: 0 <= k < |at.observations| ==> at.observations[k] in at.observations;
      assert forall k :: 0 <= k < |at.findings| ==> at.findings[k] in at.findings;
      assert forall k :: 0 <= k < |at.after| ==> at.after[k] in at.after;
    }
  }

  lemma ReviewIff(turns: seq<Turn>, production: bool, r: CompactReview)
    ensures ReviewStands(turns, production, r) <==> ReviewOk(turns, production, r)
  {
    if ReviewStands(turns, production, r) {
      assert forall k :: 0 <= k < |r.refs| ==> r.refs[k] in r.refs;
      if r.variation.Some? {
        var refs := r.variation.value.refs;
        assert forall k :: 0 <= k < |refs| ==> refs[k] in refs;
      }
    }
  }

  lemma AssessedIff(turns: seq<Turn>, t: nat, a: nat)
    requires Valid(turns, t, a) && AttemptOk(turns, turns[t].attempts[a])
    ensures Assessed(turns, t, a) <==> EvidenceOk(turns, t, a)
  {
    var at := turns[t].attempts[a];
    if Original(at).Some? {
      var r := Original(at).value;
      AttemptNoInjective(turns, r.turn - 1, r.attempt - 1, t, a);
    }
    if Assessed(turns, t, a) {
      assert forall o :: 0 <= o < |at.observations| ==> at.observations[o] in at.observations;
    }
  }

  // ----- feedback

  lemma {:induction false} JoinedLength(parts: seq<string>)
    requires parts != []
    ensures |Joined(parts)| == Sum(Lengths(parts)) + |parts| - 1
    ensures !Blank(parts[0]) ==> !Blank(Joined(parts))
  {
    assert parts == [parts[0]] + parts[1..];
    assert Lengths(parts) == [|parts[0]|] + Lengths(parts[1..]);
    SumOfBoth([|parts[0]|], Lengths(parts[1..]));
    assert Sum([|parts[0]|]) == |parts[0]|;
    if |parts| > 1 {
      JoinedLength(parts[1..]);
      StartsWith(parts[0], "\n" + Joined(parts[1..]));
      assert Joined(parts) == parts[0] + ("\n" + Joined(parts[1..]));
    }
  }

  lemma StartsWith(s: string, t: string)
    ensures !Blank(s) ==> !Blank(s + t)
  {
    if i :| 0 <= i < |s| && !(s[i] == ' ' || s[i] == '\t' || s[i] == '\n' || s[i] == '\r') {
      assert (s + t)[i] == s[i];
    }
  }

  lemma {:induction false} TextsComeFrom(ats: seq<CompactAttempt>)
    requires forall a :: 0 <= a < |ats| ==> InterventionsOk(ats[a])
    ensures forall k :: 0 <= k < |InterventionTexts(ats)| ==> TextOk(InterventionTexts(ats)[k], 4000)
  {
    if ats != [] {
      TextsComeFrom(ats[1..]);
      assert InterventionsOk(ats[0]);
    }
  }

  lemma FeedbackIff(turn: Turn)
    requires forall a :: 0 <= a < |turn.attempts| ==> InterventionsOk(turn.attempts[a])
    ensures FeedbackFits(turn) <==> FeedbackOk(turn)
  {
    TextsComeFrom(turn.attempts);
    var texts := InterventionTexts(turn.attempts);
    if texts != [] {
      JoinedLength(texts);
    }
  }

  // ----- all together

  ghost predicate TurnsOk(turns: seq<Turn>) {
    forall t :: 0 <= t < |turns| ==> TurnOk(turns[t]) && AttemptsFit(turns, turns[t])
  }

  ghost predicate AttemptsFit(turns: seq<Turn>, turn: Turn) {
    forall a :: 0 <= a < |turn.attempts| ==> AttemptOk(turns, turn.attempts[a]) && InterventionsOk(turn.attempts[a])
  }

  lemma TurnsIff(turns: seq<Turn>)
    ensures (forall turn :: turn in turns ==> TurnStands(turns, turn)) <==> TurnsOk(turns)
  {
    forall t | 0 <= t < |turns|
      ensures TurnStands(turns, turns[t]) <==> TurnOk(turns[t]) && AttemptsFit(turns, turns[t])
    {
      TurnIff(turns, turns[t]);
    }
    if forall turn :: turn in turns ==> TurnStands(turns, turn) {
      assert forall t :: 0 <= t < |turns| ==> turns[t] in turns;
    }
  }

  lemma EvidenceIff(turns: seq<Turn>)
    requires TurnsOk(turns)
    ensures (forall t, a :: 0 <= t < |turns| && 0 <= a < |turns[t].attempts| ==> Assessed(turns, t, a)) <==>
            forall t, a :: 0 <= t < |turns| && 0 <= a < |turns[t].attempts| ==> EvidenceOk(turns, t, a)
    ensures (forall turn :: turn in turns ==> FeedbackFits(turn)) <==>
            forall t :: 0 <= t < |turns| ==> FeedbackOk(turns[t])
  {
    forall t, a | 0 <= t < |turns| && 0 <= a < |turns[t].attempts|
      ensures Assessed(turns, t, a) <==> EvidenceOk(turns, t, a)
    {
      assert AttemptsFit(turns, turns[t]);
      AssessedIff(turns, t, a);
    }
    forall t | 0 <= t < |turns|
      ensures FeedbackFits(turns[t]) <==> FeedbackOk(turns[t])
    {
      assert AttemptsFit(turns, turns[t]);
      FeedbackIff(turns[t]);
    }
    if forall turn :: turn in turns ==> FeedbackFits(turn) {
      assert forall t :: 0 <= t < |turns| ==> turns[t] in turns;
    }
  }

  lemma ReviewsIff(req: Compact)
    ensures (forall r :: r in req.reviews ==> ReviewStands(req.turns, ProductionPresent(req), r)) <==>
            forall k :: 0 <= k < |req.reviews| ==> ReviewOk(req.turns, ProductionPresent(req), req.reviews[k])
    ensures (forall s :: s in req.assessments ==> IsThere(req.turns, s.attempt)) <==>
            forall k :: 0 <= k < |req.assessments| ==> AttemptRefOk(req.turns, req.assessments[k].attempt)
  {
    forall k | 0 <= k < |req.reviews|
      ensures ReviewStands(req.turns, ProductionPresent(req), req.reviews[k]) <==>
              ReviewOk(req.turns, ProductionPresent(req), req.reviews[k])
    {
      ReviewIff(req.turns, ProductionPresent(req), req.reviews[k]);
    }
    if forall r :: r in req.reviews ==> ReviewStands(req.turns, ProductionPresent(req), r) {
      assert forall k :: 0 <= k < |req.reviews| ==> req.reviews[k] in req.reviews;
    }
    if forall s :: s in req.assessments ==> IsThere(req.turns, s.attempt) {
      assert forall k :: 0 <= k < |req.assessments| ==> req.assessments[k] in req.assessments;
    }
  }

  lemma ProductionIff(req: Compact)
    ensures ProductionPresent(req) <==> SaysAnything(req)
  {
    forall at: CompactAttempt
      ensures AssessesAttempt(at) == AttemptSays(at)
    {
    }
  }

  lemma ShapeIff(req: Compact)
    ensures && ShapeOk(req.turns)
            && (forall t, a :: 0 <= t < |req.turns| && 0 <= a < |req.turns[t].attempts| ==>
                  InterventionsOk(req.turns[t].attempts[a])) <==>
            WithinLimits(req.turns) && TurnsOk(req.turns)
  {
    if TurnsOk(req.turns) {
      forall t, a | 0 <= t < |req.turns| && 0 <= a < |req.turns[t].attempts|
        ensures AttemptOk(req.turns, req.turns[t].attempts[a]) && InterventionsOk(req.turns[t].attempts[a])
      {
        assert AttemptsFit(req.turns, req.turns[t]);
      }
    }
  }

  // The conditions of an expansion, turn by turn.
  ghost predicate Fits(req: Compact) {
    && TextOk(req.key, 128) && |req.turns| <= 100 && |req.reviews| <= 100
    && WithinLimits(req.turns) && TurnsOk(req.turns)
    && (forall k :: 0 <= k < |req.reviews| ==> ReviewOk(req.turns, ProductionPresent(req), req.reviews[k]))
    && (forall k :: 0 <= k < |req.assessments| ==> AttemptRefOk(req.turns, req.assessments[k].attempt))
    && if ProductionPresent(req)
       then req.policyVersion.Some? && forall t, a :: 0 <= t < |req.turns| && 0 <= a < |req.turns[t].attempts| ==>
                                         EvidenceOk(req.turns, t, a)
       else forall t :: 0 <= t < |req.turns| ==> FeedbackOk(req.turns[t])
  }

  lemma FitsIff(req: Compact)
    ensures Expandable(req) <==> Fits(req)
  {
    ShapeIff(req);
  }

  // A request is expanded exactly when it stands.
  lemma ExpandableIff(req: Compact)
    ensures Expandable(req) <==> RequestStands(req)
  {
    FitsIff(req);
    ProductionIff(req);
    LimitsIff(req.turns);
    TurnsIff(req.turns);
    ReviewsIff(req);
    if TurnsOk(req.turns) {
      EvidenceIff(req.turns);
    }
  }
}
