// The canonical recording request, as far as its numbers, links and evidence
// go (src/model.rs, src/production.rs).
module SessionModel {
  import opened Outcomes

  datatype ObservationOutcome = Incorrect | PartiallyCorrect | Correct | PromptedCorrect | Omitted

  datatype Role = Targeted | Incidental

  datatype Phase = Historical | ColdRetrieval | GuidedPractice | ImmediateRetry | Transfer | IncidentalPhase

  datatype Hint = NoHint | IndirectHint | DirectHint | AnswerShown

  datatype Effort = Effortless | SomeEffort | SubstantialEffort | UnknownEffort

  datatype Rating = Again | Hard | Good | Easy

  datatype DrillType =
    | Translation | SituationalResponse | SentenceTransformation | QuestionAnswer | SentenceCompletion
    | SentenceCombining | ErrorCorrection | MinimalPairChoice | DialogueCompletion | MicroStory | Retell | Fluency432

  function DrillName(d: DrillType): string {
    match d
    case Translation => "translation"
    case SituationalResponse => "situational_response"
    case SentenceTransformation => "sentence_transformation"
    case QuestionAnswer => "question_answer"
    case SentenceCompletion => "sentence_completion"
    case SentenceCombining => "sentence_combining"
    case ErrorCorrection => "error_correction"
    case MinimalPairChoice => "minimal_pair_choice"
    case DialogueCompletion => "dialogue_completion"
    case MicroStory => "micro_story"
    case Retell => "retell"
    case Fluency432 => "fluency_4_3_2"
  }

  datatype AttemptKind = Initial | SelfCorrection | FreshTransfer | LaterReview

  datatype Cueing = NoneDetected | Indirect | TargetFormSupplied | ModelSupplied | UnknownCueing

  datatype Exposure = NoneKnown | RelevantWording | Model | UnknownExposure

  datatype Realization = Used | Attempted | NotObserved | Ambiguous

  datatype Accuracy = Accurate | PartlyAccurate | Inaccurate | NotAssessable

  // Fields that no rule of this model reads travel together.
  datatype Details = Details(text: map<string, string>)

  datatype Observation = Observation(
    no: nat, weakness: string, outcome: ObservationOutcome, role: Role, phase: Option<Phase>,
    hint: Option<Hint>, effort: Option<Effort>, details: Details)

  datatype Item = Item(
    no: nat, drill: DrillType, prompt: string, feedback: Option<string>, targets: seq<string>,
    observations: seq<Observation>)

  datatype Timing = Timing(target: Option<nat>, actual: Option<nat>, latency: Option<nat>, source: Option<string>)

  datatype Attempt = Attempt(
    no: nat, itemNo: Option<nat>, transcript: string, timing: Timing, reportedEffort: Option<Effort>,
    observations: seq<Observation>)

  datatype Finding = Finding(itemNo: Option<nat>, attemptNo: Option<nat>, body: Details, original: string)

  datatype Review = Review(
    weakness: string, rating: Rating, citations: seq<nat>, rationale: Option<string>, details: Details)

  datatype PointAssessment = PointAssessment(attemptNo: nat, point: string, details: Details)

  datatype AttemptEvidence = AttemptEvidence(
    attemptNo: nat, kind: AttemptKind, originalNo: Option<nat>, cueing: Cueing, exposure: Exposure,
    provenance: string, scenario: string, topic: string, details: Details)

  datatype ObservationEvidence = ObservationEvidence(
    observationNo: nat, attemptNo: nat, realization: Realization, accuracy: Accuracy, provenance: string)

  datatype Intervention = Intervention(
    no: nat, text: string, targets: seq<string>, afterNo: nat, beforeNo: Option<nat>)

  datatype Variation = Variation(weakness: string, observationNos: seq<nat>, rationale: string)

  datatype Opportunity = Opportunity(weakness: string, purpose: string)

  datatype Evidence = Evidence(
    policyVersion: nat, opportunities: seq<Opportunity>, attempts: seq<AttemptEvidence>,
    observations: seq<ObservationEvidence>, interventions: seq<Intervention>, variations: seq<Variation>)

  datatype Session = Session(
    key: string, items: seq<Item>, attempts: seq<Attempt>, observations: seq<Observation>, findings: seq<Finding>,
    reviews: seq<Review>, assessments: seq<PointAssessment>, evidence: Option<Evidence>)

  function ItemObservations(items: seq<Item>): seq<Observation> {
    if items == [] then [] else items[0].observations + ItemObservations(items[1..])
  }

  function AttemptObservations(attempts: seq<Attempt>): seq<Observation> {
    if attempts == [] then [] else attempts[0].observations + AttemptObservations(attempts[1..])
  }

  // Every observation of the request: its own, then the items', then the attempts'.
  function AllObservations(r: Session): seq<Observation> {
    r.observations + ItemObservations(r.items) + AttemptObservations(r.attempts)
  }
}
