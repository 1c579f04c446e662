// The compact tutoring request: turns hold attempts, attempts hold their
// observations, findings and interventions, and references are one-based array
// positions (src/tutoring.rs).
module CompactRequest {
  import opened Outcomes
  import opened SessionModel

  datatype AttemptRef = AttemptRef(turn: nat, attempt: nat)

  datatype ObservationRef = ObservationRef(turn: nat, attempt: nat, observation: nat)

  datatype Assessment = Assessment(realization: Realization, accuracy: Accuracy, provenance: string)

  datatype CompactObservation = CompactObservation(
    weakness: string, outcome: ObservationOutcome, role: Option<Role>, phase: Option<Phase>,
    hint: Option<Hint>, effort: Option<Effort>, details: Details, assessment: Option<Assessment>)

  datatype CompactFinding = CompactFinding(body: Details, original: string)

  datatype CompactIntervention = CompactIntervention(text: string, targets: seq<string>)

  datatype CompactEvidence = CompactEvidence(
    kind: AttemptKind, original: Option<AttemptRef>, cueing: Cueing, exposure: Exposure,
    provenance: string, scenario: string, topic: string, details: Details, effort: Option<Effort>)

  datatype CompactAttempt = CompactAttempt(
    transcript: string, timing: Timing, evidence: Option<CompactEvidence>,
    observations: seq<CompactObservation>, findings: seq<CompactFinding>, after: seq<CompactIntervention>)

  datatype Turn = Turn(
    drill: DrillType, prompt: string, targets: seq<string>, purpose: Option<string>, attempts: seq<CompactAttempt>)

  datatype CompactVariation = CompactVariation(refs: seq<ObservationRef>, rationale: string)

  datatype CompactReview = CompactReview(
    target: string, rating: Rating, refs: seq<ObservationRef>, rationale: Option<string>, details: Details,
    variation: Option<CompactVariation>)

  datatype TaskAssessment = TaskAssessment(attempt: AttemptRef, point: string, details: Details)

  datatype Compact = Compact(
    key: string, policyVersion: Option<nat>, turns: seq<Turn>, reviews: seq<CompactReview>,
    assessments: seq<TaskAssessment>)

  // What an attempt contributes to each flat list of the canonical request.
  datatype Part = Attempts | Observations | Findings | Interventions

  function Weight(part: Part, at: CompactAttempt): nat {
    match part
    case Attempts => 1
    case Observations => |at.observations|
    case Findings => |at.findings|
    case Interventions => |at.after|
  }

  function InAttempts(part: Part, ats: seq<CompactAttempt>, n: nat): nat
    requires n <= |ats|
  {
    if n == 0 then 0 else InAttempts(part, ats, n - 1) + Weight(part, ats[n - 1])
  }

  function InTurns(part: Part, turns: seq<Turn>, n: nat): nat
    requires n <= |turns|
  {
    if n == 0 then 0 else InTurns(part, turns, n - 1) + InAttempts(part, turns[n - 1].attempts, |turns[n - 1].attempts|)
  }

  function Total(part: Part, turns: seq<Turn>): nat {
    InTurns(part, turns, |turns|)
  }

  predicate Valid(turns: seq<Turn>, t: nat, a: nat) {
    t < |turns| && a < |turns[t].attempts|
  }

  // How much of a list comes from attempts before (t, a), in array order.
  function Offset(part: Part, turns: seq<Turn>, t: nat, a: nat): nat
    requires t < |turns| && a <= |turns[t].attempts|
  {
    InTurns(part, turns, t) + InAttempts(part, turns[t].attempts, a)
  }

  function AttemptNo(turns: seq<Turn>, t: nat, a: nat): nat
    requires Valid(turns, t, a)
  {
    Offset(Attempts, turns, t, a) + 1
  }

  function ObservationNo(turns: seq<Turn>, t: nat, a: nat, o: nat): nat
    requires Valid(turns, t, a) && o < |turns[t].attempts[a].observations|
  {
    Offset(Observations, turns, t, a) + o + 1
  }

  predicate Earlier(t: nat, a: nat, u: nat, b: nat) {
    t < u || (t == u && a < b)
  }

  lemma {:induction false} InAttemptsGrows(part: Part, ats: seq<CompactAttempt>, m: nat, n: nat)
    requires m <= n <= |ats|
    ensures InAttempts(part, ats, m) <= InAttempts(part, ats, n)
    ensures m < n ==> InAttempts(part, ats, m) + Weight(part, ats[m]) <= InAttempts(part, ats, n)
  {
    if m < n {
      InAttemptsGrows(part, ats, m, n - 1);
    }
  }

  lemma {:induction false} InTurnsGrows(part: Part, turns: seq<Turn>, m: nat, n: nat)
    requires m <= n <= |turns|
    ensures InTurns(part, turns, m) <= InTurns(part, turns, n)
    ensures m < n ==>
              InTurns(part, turns, m) + InAttempts(part, turns[m].attempts, |turns[m].attempts|)
              <= InTurns(part, turns, n)
  {
    if m < n {
      InTurnsGrows(part, turns, m, n - 1);
    }
  }

  // Offsets follow array order: what (t, a) contributes ends before what a later
  // attempt contributes begins, and before the total.
  lemma OffsetsAscend(part: Part, turns: seq<Turn>, t: nat, a: nat, u: nat, b: nat)
    requires Valid(turns, t, a)
    ensures Valid(turns, u, b) && Earlier(t, a, u, b) ==>
              Offset(part, turns, t, a) + Weight(part, turns[t].attempts[a]) <= Offset(part, turns, u, b)
    ensures Offset(part, turns, t, a) + Weight(part, turns[t].attempts[a]) <= Total(part, turns)
  {
    InAttemptsGrows(part, turns[t].attempts, a, |turns[t].attempts|);
    InTurnsGrows(part, turns, t, |turns|);
    if Valid(turns, u, b) && Earlier(t, a, u, b) {
      if t < u {
        InTurnsGrows(part, turns, t, u);
      } else {
        InAttemptsGrows(part, turns[t].attempts, a, b);
      }
    }
  }

  lemma {:induction false} LocateInAttempts(part: Part, ats: seq<CompactAttempt>, n: nat, k: nat) returns (a: nat)
    requires n <= |ats| && k < InAttempts(part, ats, n)
    ensures a < n && InAttempts(part, ats, a) <= k < InAttempts(part, ats, a) + Weight(part, ats[a])
  {
    if k >= InAttempts(part, ats, n - 1) {
      a := n - 1;
    } else {
      a := LocateInAttempts(part, ats, n - 1, k);
    }
  }

  lemma {:induction false} LocateInTurns(part: Part, turns: seq<Turn>, n: nat, k: nat) returns (t: nat, a: nat)
    requires n <= |turns| && k < InTurns(part, turns, n)
    ensures t < n && Valid(turns, t, a)
    ensures Offset(part, turns, t, a) <= k < Offset(part, turns, t, a) + Weight(part, turns[t].attempts[a])
  {
    if k >= InTurns(part, turns, n - 1) {
      t := n - 1;
      a := LocateInAttempts(part, turns[t].attempts, |turns[t].attempts|, k - InTurns(part, turns, t));
    } else {
      t, a := LocateInTurns(part, turns, n - 1, k);
    }
  }

  // Attempt numbers are a bijection from the nested positions onto 1..A that
  // follows array order.
  lemma AttemptNumbersInOrder(turns: seq<Turn>, n: nat) returns (t: nat, a: nat)
    requires 1 <= n <= Total(Attempts, turns)
    ensures Valid(turns, t, a) && AttemptNo(turns, t, a) == n
    ensures forall u: nat, b: nat :: Valid(turns, u, b) ==>
              (AttemptNo(turns, u, b) < n <==> Earlier(u, b, t, a)) &&
                (AttemptNo(turns, u, b) == n <==> u == t && b == a)
  {
    t, a := LocateInTurns(Attempts, turns, |turns|, n - 1);
    forall u: nat, b: nat | Valid(turns, u, b)
      ensures (AttemptNo(turns, u, b) < n <==> Earlier(u, b, t, a)) &&
              (AttemptNo(turns, u, b) == n <==> u == t && b == a)
    {
      OffsetsAscend(Attempts, turns, u, b, t, a);
      OffsetsAscend(Attempts, turns, t, a, u, b);
    }
  }

  // The same for observations: 1..O, in the order turn, attempt, observation.
  lemma ObservationNumbersInOrder(turns: seq<Turn>, n: nat) returns (t: nat, a: nat, o: nat)
    requires 1 <= n <= Total(Observations, turns)
    ensures Valid(turns, t, a) && o < |turns[t].attempts[a].observations| && ObservationNo(turns, t, a, o) == n
    ensures forall u: nat, b: nat, p: nat :: Valid(turns, u, b) && p < |turns[u].attempts[b].observations| ==>
              && (ObservationNo(turns, u, b, p) < n <==> Earlier(u, b, t, a) || (u == t && b == a && p < o))
              && (ObservationNo(turns, u, b, p) == n <==> u == t && b == a && p == o)
  {
    t, a := LocateInTurns(Observations, turns, |turns|, n - 1);
    o := n - 1 - Offset(Observations, turns, t, a);
    forall u: nat, b: nat, p: nat | Valid(turns, u, b) && p < |turns[u].attempts[b].observations|
      ensures ObservationNo(turns, u, b, p) < n <==> Earlier(u, b, t, a) || (u == t && b == a && p < o)
      ensures ObservationNo(turns, u, b, p) == n <==> u == t && b == a && p == o
    {
      OffsetsAscend(Observations, turns, u, b, t, a);
      OffsetsAscend(Observations, turns, t, a, u, b);
    }
  }

  lemma AttemptNoInjective(turns: seq<Turn>, t: nat, a: nat, u: nat, b: nat)
    requires Valid(turns, t, a) && Valid(turns, u, b)
    ensures AttemptNo(turns, t, a) < AttemptNo(turns, u, b) <==> Earlier(t, a, u, b)
    ensures AttemptNo(turns, t, a) == AttemptNo(turns, u, b) <==> t == u && a == b
    ensures 1 <= AttemptNo(turns, t, a) <= Total(Attempts, turns)
  {
    OffsetsAscend(Attempts, turns, t, a, u, b);
    OffsetsAscend(Attempts, turns, u, b, t, a);
  }
}
