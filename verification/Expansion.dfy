// The compiler from compact tutoring requests to canonical ones: what it must
// produce, and the traversal that produces it (src/tutoring.rs, expand).
module Expansion {
  import opened Outcomes
  import opened Texts
  import opened SessionModel
  import opened CompactRequest

  // ----- which requests are accepted

  predicate OptionalTextOk(s: Option<string>, max: nat) {
    s.Some? ==> TextOk(s.value, max)
  }

  predicate TurnOk(turn: Turn) {
    && TextOk(turn.prompt, 4000)
    && |turn.targets| <= 20 && (forall k :: 0 <= k < |turn.targets| ==> TextOk(turn.targets[k], 160))
    && OptionalTextOk(turn.purpose, 1000)
    && |turn.attempts| <= 20
  }

  // checked_index, twice: both positions are one-based and in range.
  predicate AttemptRefOk(turns: seq<Turn>, r: AttemptRef) {
    1 <= r.turn <= |turns| && 1 <= r.attempt <= |turns[r.turn - 1].attempts|
  }

  predicate ObservationRefOk(turns: seq<Turn>, r: ObservationRef) {
    && AttemptRefOk(turns, AttemptRef(r.turn, r.attempt))
    && 1 <= r.observation <= |turns[r.turn - 1].attempts[r.attempt - 1].observations|
  }

  function Original(at: CompactAttempt): Option<AttemptRef> {
    if at.evidence.Some? then at.evidence.value.original else None
  }

  predicate AttemptOk(turns: seq<Turn>, at: CompactAttempt) {
    && TextOk(at.transcript, 8000)
    && (at.timing.actual.Some? || at.timing.latency.Some? ==> at.timing.source.Some?)
    && (forall k :: 0 <= k < |at.observations| ==> TextOk(at.observations[k].weakness, 160))
    && (forall k :: 0 <= k < |at.findings| ==> TextOk(at.findings[k].original, 4000))
    && |at.after| <= 20
    && (Original(at).Some? ==> AttemptRefOk(turns, Original(at).value))
  }

  predicate WithinLimits(turns: seq<Turn>) {
    && Total(Attempts, turns) <= 100 && Total(Observations, turns) <= 300
    && Total(Findings, turns) <= 300 && Total(Interventions, turns) <= 300
  }

  predicate ShapeOk(turns: seq<Turn>) {
    && WithinLimits(turns)
    && (forall t :: 0 <= t < |turns| ==> TurnOk(turns[t]))
    && (forall t, a :: 0 <= t < |turns| && 0 <= a < |turns[t].attempts| ==> AttemptOk(turns, turns[t].attempts[a]))
  }

  predicate AssessesAttempt(at: CompactAttempt) {
    at.evidence.Some? || exists o :: 0 <= o < |at.observations| && at.observations[o].assessment.Some?
  }

  // Production evidence is present as soon as any part of it is supplied.
  predicate ProductionPresent(req: Compact) {
    || (exists t, a ::
          0 <= t < |req.turns| && 0 <= a < |req.turns[t].attempts| && AssessesAttempt(req.turns[t].attempts[a]))
    || (exists k :: 0 <= k < |req.reviews| && req.reviews[k].variation.Some?)
  }

  function InterventionTexts(ats: seq<CompactAttempt>): seq<string> {
    if ats == [] then []
    else seq(|ats[0].after|, i requires 0 <= i < |ats[0].after| => ats[0].after[i].text) + InterventionTexts(ats[1..])
  }

  function Joined(parts: seq<string>): string {
    if parts == [] then "" else if |parts| == 1 then parts[0] else parts[0] + "\n" + Joined(parts[1..])
  }

  predicate FeedbackOk(turn: Turn) {
    var parts := InterventionTexts(turn.attempts);
    && (forall k :: 0 <= k < |parts| ==> TextOk(parts[k], 4000))
    && (parts != [] ==> TextOk(Joined(parts), 4000))
  }

  function FeedbackFor(turn: Turn): Option<string> {
    var parts := InterventionTexts(turn.attempts);
    if parts == [] then None else Some(Joined(parts))
  }

  predicate InterventionsOk(at: CompactAttempt) {
    forall k :: 0 <= k < |at.after| ==> TextOk(at.after[k].text, 4000)
  }

  predicate EvidenceOk(turns: seq<Turn>, t: nat, a: nat)
    requires Valid(turns, t, a)
  {
    var at := turns[t].attempts[a];
    && (forall o :: 0 <= o < |at.observations| ==> at.observations[o].assessment.Some?)
    && at.evidence.Some?
    && (at.evidence.value.kind == Initial ==> Original(at).None?)
    && (at.evidence.value.kind == SelfCorrection ==> Original(at).Some?)
    && (Original(at).Some? && AttemptRefOk(turns, Original(at).value) ==>
          AttemptNo(turns, Original(at).value.turn - 1, Original(at).value.attempt - 1) < AttemptNo(turns, t, a))
    && TextOk(at.evidence.value.scenario, 160) && TextOk(at.evidence.value.topic, 160)
  }

  predicate ReviewOk(turns: seq<Turn>, production: bool, r: CompactReview) {
    && TextOk(r.target, 160)
    && (forall k :: 0 <= k < |r.refs| ==> ObservationRefOk(turns, r.refs[k]))
    && (production && r.variation.Some? ==>
          && r.variation.value.refs != []
          && (forall k :: 0 <= k < |r.variation.value.refs| ==> ObservationRefOk(turns, r.variation.value.refs[k]))
          && TextOk(r.variation.value.rationale, 2000))
  }

  predicate Expandable(req: Compact) {
    && TextOk(req.key, 128) && |req.turns| <= 100 && |req.reviews| <= 100
    && ShapeOk(req.turns)
    && (ProductionPresent(req) ==> req.policyVersion.Some?)
    && (!ProductionPresent(req) ==> forall t :: 0 <= t < |req.turns| ==> FeedbackOk(req.turns[t]))
    && (forall t, a :: 0 <= t < |req.turns| && 0 <= a < |req.turns[t].attempts| ==>
         InterventionsOk(req.turns[t].attempts[a]))
    && (ProductionPresent(req) ==>
          forall t, a :: 0 <= t < |req.turns| && 0 <= a < |req.turns[t].attempts| ==> EvidenceOk(req.turns, t, a))
    && (forall k :: 0 <= k < |req.reviews| ==> ReviewOk(req.turns, ProductionPresent(req), req.reviews[k]))
    && (forall k :: 0 <= k < |req.assessments| ==> AttemptRefOk(req.turns, req.assessments[k].attempt))
  }

  // ----- what an accepted request becomes

  // The number a reference names.
  function CitedAttempt(turns: seq<Turn>, r: AttemptRef): nat
    requires AttemptRefOk(turns, r)
  {
    AttemptNo(turns, r.turn - 1, r.attempt - 1)
  }

  function CitedObservation(turns: seq<Turn>, r: ObservationRef): nat
    requires ObservationRefOk(turns, r)
  {
    ObservationNo(turns, r.turn - 1, r.attempt - 1, r.observation - 1)
  }

  function Canonical(c: CompactObservation, no: nat): Observation {
    var role := if c.role.Some? then c.role.value else Incidental;
    Observation(no, c.weakness, c.outcome, role, c.phase, c.hint, c.effort, c.details)
  }

  predicate Inside(part: Part, turns: seq<Turn>, t: nat, a: nat, i: nat) {
    Valid(turns, t, a) && i < Weight(part, turns[t].attempts[a])
  }

  type Place<!T> = (nat, nat, nat) --> T

  function AttemptAt(turns: seq<Turn>): Place<Attempt> {
    (t: nat, a: nat, i: nat) requires Inside(Attempts, turns, t, a, i) =>
      var at := turns[t].attempts[a];
      Attempt(AttemptNo(turns, t, a), Some(t + 1), at.transcript, at.timing,
              if at.evidence.Some? then at.evidence.value.effort else None,
              seq(|at.observations|, o requires 0 <= o < |at.observations| => Canonical(at.observations[o],
                ObservationNo(turns, t, a, o))))
  }

  function FindingAt(turns: seq<Turn>): Place<Finding> {
    (t: nat, a: nat, i: nat) requires Inside(Findings, turns, t, a, i) =>
      var f := turns[t].attempts[a].findings[i];
      Finding(Some(t + 1), Some(AttemptNo(turns, t, a)), f.body, f.original)
  }

  function EvidenceAt(turns: seq<Turn>): Place<AttemptEvidence> {
    (t: nat, a: nat, i: nat)
      requires Inside(Attempts, turns, t, a, i) && turns[t].attempts[a].evidence.Some?
      requires Original(turns[t].attempts[a]).Some? ==> AttemptRefOk(turns, Original(turns[t].attempts[a]).value)
      =>
      var e := turns[t].attempts[a].evidence.value;
      AttemptEvidence(AttemptNo(turns, t, a), e.kind,
                      if e.original.Some? then Some(CitedAttempt(turns, e.original.value)) else None,
                      e.cueing, e.exposure, e.provenance, e.scenario, e.topic, e.details)
  }

  function AssessmentAt(turns: seq<Turn>): Place<ObservationEvidence> {
    (t: nat, a: nat, i: nat)
      requires Inside(Observations, turns, t, a, i) && turns[t].attempts[a].observations[i].assessment.Some?
      =>
      var s := turns[t].attempts[a].observations[i].assessment.value;
      ObservationEvidence(ObservationNo(turns, t, a, i), AttemptNo(turns, t, a), s.realization, s.accuracy,
        s.provenance)
  }

  // The attempt an intervention precedes: the next of its turn, else the first
  // retry of its attempt, else none.
  predicate Precedes(turns: seq<Turn>, t: nat, a: nat, before: Option<nat>)
    requires Valid(turns, t, a)
  {
    if a + 1 < |turns[t].attempts| then before == Some(AttemptNo(turns, t, a + 1))
    else FirstRetry(turns, AttemptRef(t + 1, a + 1), before)
  }

  predicate FirstRetry(turns: seq<Turn>, r: AttemptRef, first: Option<nat>) {
    && (forall u, b :: 0 <= u < |turns| && 0 <= b < |turns[u].attempts| && Original(turns[u].attempts[b]) == Some(r) ==>
          first.Some? && first.value <= AttemptNo(turns, u, b))
    && (first.Some? ==>
          exists u, b :: 0 <= u < |turns| && 0 <= b < |turns[u].attempts| && Original(turns[u].attempts[b]) == Some(r)
                         && AttemptNo(turns, u, b) == first.value)
  }

  // A list built from the attempts before (t, a) in array order.
  ghost predicate Filled<T>(part: Part, turns: seq<Turn>, list: seq<T>, f: Place<T>, t: nat, a: nat) {
    && (t < |turns| ==> a <= |turns[t].attempts|) && t <= |turns| && (t == |turns| ==> a == 0)
    && |list| == Reach(part, turns, t, a)
    && (forall u: nat, b: nat, i: nat :: Inside(part, turns, u, b, i) && Earlier(u, b, t, a) ==>
          && Offset(part, turns, u, b) + i < |list| && f.requires(u, b, i)
          && list[Offset(part, turns, u, b) + i] == f(u, b, i))
  }

  function Reach(part: Part, turns: seq<Turn>, t: nat, a: nat): nat
    requires t <= |turns| && (t < |turns| ==> a <= |turns[t].attempts|)
  {
    if t < |turns| then Offset(part, turns, t, a) else Total(part, turns)
  }

  lemma FillAttempt<T>(part: Part, turns: seq<Turn>, list: seq<T>, chunk: seq<T>, f: Place<T>, t: nat, a: nat)
    requires Valid(turns, t, a) && Filled(part, turns, list, f, t, a)
    requires |chunk| == Weight(part, turns[t].attempts[a])
    requires forall i :: 0 <= i < |chunk| ==> f.requires(t, a, i) && chunk[i] == f(t, a, i)
    ensures Filled(part, turns, list + chunk, f, t, a + 1)
  {
    forall u: nat, b: nat, i: nat | Inside(part, turns, u, b, i) && Earlier(u, b, t, a + 1)
      ensures Offset(part, turns, u, b) + i < |list + chunk| && f.requires(u, b, i)
      ensures (list + chunk)[Offset(part, turns, u, b) + i] == f(u, b, i)
    {
      if u == t && b == a {
        assert (list + chunk)[Offset(part, turns, t, a) + i] == chunk[i];
      } else {
        assert Earlier(u, b, t, a);
      }
    }
  }

  lemma FillTurn<T>(part: Part, turns: seq<Turn>, list: seq<T>, f: Place<T>, t: nat)
    requires t < |turns| && Filled(part, turns, list, f, t, |turns[t].attempts|)
    ensures Filled(part, turns, list, f, t + 1, 0)
  {
  }

  function Nos(turns: seq<Turn>, refs: seq<ObservationRef>): (nos: seq<nat>)
    requires forall k :: 0 <= k < |refs| ==> ObservationRefOk(turns, refs[k])
    ensures |nos| == |refs| && forall k :: 0 <= k < |refs| ==> nos[k] == CitedObservation(turns, refs[k])
  {
    seq(|refs|, k requires 0 <= k < |refs| => CitedObservation(turns, refs[k]))
  }

  function Variations(turns: seq<Turn>, reviews: seq<CompactReview>): seq<Variation>
    requires forall k :: 0 <= k < |reviews| ==> ReviewOk(turns, true, reviews[k])
  {
    if reviews == [] then []
    else
      var last := reviews[|reviews| - 1];
      assert ReviewOk(turns, true, last);
      var earlier := Variations(turns, reviews[..|reviews| - 1]);
      if last.variation.None? then earlier
      else earlier + [Variation(last.target, Nos(turns, last.variation.value.refs), last.variation.value.rationale)]
  }

  function TurnOpportunities(turn: Turn): seq<Opportunity> {
    if turn.purpose.None? then []
    else seq(|turn.targets|, k requires 0 <= k < |turn.targets| => Opportunity(turn.targets[k], turn.purpose.value))
  }

  function Opportunities(turns: seq<Turn>): seq<Opportunity> {
    if turns == [] then []
    else Opportunities(turns[..|turns| - 1]) + TurnOpportunities(turns[|turns| - 1])
  }

  function ItemAt(turns: seq<Turn>, production: bool, t: nat): Item
    requires t < |turns|
  {
    var feedback := if production then None else FeedbackFor(turns[t]);
    Item(t + 1, turns[t].drill, turns[t].prompt, feedback, turns[t].targets, [])
  }

  ghost predicate InterventionsPlaced(turns: seq<Turn>, list: seq<Intervention>) {
    && |list| == Total(Interventions, turns)
    && forall t: nat, a: nat, i: nat :: Inside(Interventions, turns, t, a, i) ==>
         var k := Offset(Interventions, turns, t, a) + i;
         && k < |list| && list[k].no == k + 1 && list[k].afterNo == AttemptNo(turns, t, a)
         && list[k].text == turns[t].attempts[a].after[i].text &&
            list[k].targets == turns[t].attempts[a].after[i].targets
         && Precedes(turns, t, a, list[k].beforeNo)
  }

  ghost predicate EvidenceExpanded(req: Compact, e: Evidence) {
    var turns := req.turns;
    && req.policyVersion == Some(e.policyVersion)
    && e.opportunities == Opportunities(turns)
    && Filled(Attempts, turns, e.attempts, EvidenceAt(turns), |turns|, 0)
    && Filled(Observations, turns, e.observations, AssessmentAt(turns), |turns|, 0)
    && InterventionsPlaced(turns, e.interventions)
    && (forall k :: 0 <= k < |req.reviews| ==> ReviewOk(turns, true, req.reviews[k]))
    && e.variations == Variations(turns, req.reviews)
  }

  // Nothing lost, nothing duplicated, nothing moved: every nested element stands
  // at the place its position gives it, and every reference became the number
  // of the element it names.
  ghost predicate IsExpansion(req: Compact, out: Session) {
    var turns, production := req.turns, ProductionPresent(req);
    && out.key == req.key
    && |out.items| == |turns| && (forall t :: 0 <= t < |turns| ==> out.items[t] == ItemAt(turns, production, t))
    && Filled(Attempts, turns, out.attempts, AttemptAt(turns), |turns|, 0)
    && out.observations == []
    && Filled(Findings, turns, out.findings, FindingAt(turns), |turns|, 0)
    && |out.reviews| == |req.reviews|
    && (forall k :: 0 <= k < |req.reviews| ==>
          && (forall j :: 0 <= j < |req.reviews[k].refs| ==> ObservationRefOk(turns, req.reviews[k].refs[j]))
          && var r := req.reviews[k];
             out.reviews[k] == Review(r.target, r.rating, Nos(turns, r.refs), r.rationale, r.details))
    && |out.assessments| == |req.assessments|
    && (forall k :: 0 <= k < |req.assessments| ==>
          && AttemptRefOk(turns, req.assessments[k].attempt)
          && var s := req.assessments[k];
             out.assessments[k] == PointAssessment(CitedAttempt(turns, s.attempt), s.point, s.details))
    && (out.evidence.Some? <==> production)
    && (production ==> EvidenceExpanded(req, out.evidence.value))
  }
}
