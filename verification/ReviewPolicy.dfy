// Which proposed reviews may move the schedule: the class of an attempt, the
// verdict on each observation of the target, and the decision itself
// (src/production.rs, attempt_class and review_decision).
module ReviewPolicy {
  import opened Outcomes
  import opened Texts
  import opened SessionModel
  import opened CanonicalChecks

  // Reason codes, listed in the alphabetical order of their wire names, which
  // is the order the decision sorts them in.
  datatype Code =
    | AssistedOrCued | AssistedRetry | FailureNotCited | FailureRequiresAgain | InsufficientRating | InsufficientVaried
    | InvalidAttempt | InvalidObservation | NotIndependentPhase | PromptSupplied | RatingConflicts | TargetNotObserved
    | UnknownAssistance

  function Rank(c: Code): nat {
    match c
    case AssistedOrCued => 0
    case AssistedRetry => 1
    case FailureNotCited => 2
    case FailureRequiresAgain => 3
    case InsufficientRating => 4
    case InsufficientVaried => 5
    case InvalidAttempt => 6
    case InvalidObservation => 7
    case NotIndependentPhase => 8
    case PromptSupplied => 9
    case RatingConflicts => 10
    case TargetNotObserved => 11
    case UnknownAssistance => 12
  }

  predicate Blocking(c: Code) {
    c == InsufficientVaried || c == FailureRequiresAgain || c == FailureNotCited || c == RatingConflicts ||
      c == InsufficientRating
  }

  // ----- prompts that hand over the target

  function LowerChar(c: char): char {
    if 'A' <= c <= 'Z' || ('\U{C0}' <= c <= '\U{DE}' && c != '\U{D7}') then (c as int + 32) as char else c
  }

  function Lower(s: string): string {
    seq(|s|, i requires 0 <= i < |s| => LowerChar(s[i]))
  }

  const MANIPULATIONS: seq<string> :=
    ["exprésalo con", "expresalo con", "usando ", "utiliza ", "usa la estructura", "une las", "completa la frase",
     "transforma ", "rellena ", "___"]

  const LLEVAR_FORMS: seq<string> := ["llevas", "llevo", "lleva ", "llevamos", "llevar +"]

  predicate AnyContained(text: string, markers: seq<string>) {
    exists k :: 0 <= k < |markers| && Contains(text, markers[k])
  }

  predicate AnyNames(targets: seq<string>, part: string) {
    exists k :: 0 <= k < |targets| && Contains(targets[k], part)
  }

  // prompt_findings reports something.
  predicate PromptSupplies(prompt: string, targets: seq<string>) {
    var lower := Lower(prompt);
    || AnyContained(lower, MANIPULATIONS)
    || ((AnyNames(targets, "llevar") || AnyNames(targets, "duration_llevar")) && AnyContained(lower, LLEVAR_FORMS))
    || (AnyNames(targets, "para_que") && Contains(lower, "para que"))
  }

  // ----- the class of an attempt

  datatype Class = Assisted | CuedControlled | UnknownClass | IndependentClass

  function FindItem(items: seq<Item>, no: Option<nat>): Option<Item> {
    if items == [] then None
    else if Some(items[0].no) == no then Some(items[0])
    else FindItem(items[1..], no)
  }

  function FindEvidence(attempts: seq<AttemptEvidence>, no: nat): Option<AttemptEvidence> {
    if attempts == [] then None
    else if attempts[0].attemptNo == no then Some(attempts[0])
    else FindEvidence(attempts[1..], no)
  }

  function Weaknesses(observations: seq<Observation>): seq<string> {
    seq(|observations|, i requires 0 <= i < |observations| => observations[i].weakness)
  }

  // Everything the attempt was practising: its item's targets and what was observed.
  function Practised(item: Item, attempt: Attempt): seq<string> {
    item.targets + Weaknesses(attempt.observations)
  }

  predicate Touches(i: Intervention, attemptNo: nat, practised: seq<string>) {
    i.afterNo < attemptNo && (i.targets == [] || exists k :: 0 <= k < |i.targets| && i.targets[k] in practised)
  }

  predicate Exposed(e: Evidence, attemptNo: nat, practised: seq<string>) {
    exists i :: 0 <= i < |e.interventions| && Touches(e.interventions[i], attemptNo, practised)
  }

  predicate Hinted(attempt: Attempt) {
    exists o :: 0 <= o < |attempt.observations| && attempt.observations[o].hint.Some? &&
      attempt.observations[o].hint.value != NoHint
  }

  predicate Controlled(drill: DrillType) {
    match drill
    case Translation | SentenceTransformation | SentenceCompletion | SentenceCombining | ErrorCorrection
       | MinimalPairChoice | DialogueCompletion => true
    case _ => false
  }

  function Classify(e: Evidence, item: Item, attempt: Attempt, a: AttemptEvidence, supplied: bool): Class {
    if Hinted(attempt) || a.kind == SelfCorrection || Exposed(e, a.attemptNo, Practised(item, attempt))
       || a.exposure == Exposure.Model || a.exposure == RelevantWording
    then Assisted
    else if supplied || a.cueing == Cueing.Indirect || a.cueing == TargetFormSupplied || a.cueing == ModelSupplied ||
        Controlled(item.drill)
    then CuedControlled
    else if a.cueing == UnknownCueing || a.exposure == UnknownExposure
    then UnknownClass
    else IndependentClass
  }

  datatype Attribution = Attribution(class_: Class, findings: bool)

  // attempt_class: the class, and whether it came with findings.
  function AttemptClass(r: Session, e: Evidence, a: AttemptEvidence): Attribution {
    var attempt := FindAttempt(r.attempts, a.attemptNo);
    if attempt.None? then Attribution(UnknownClass, true)
    else
      var item := FindItem(r.items, attempt.value.itemNo);
      if item.None? then Attribution(UnknownClass, true)
      else
        var supplied := PromptSupplies(item.value.prompt, Practised(item.value, attempt.value));
        Attribution(Classify(e, item.value, attempt.value, a, supplied), supplied)
  }

  // ----- the verdict on one observation record

  datatype Verdict = Irrelevant | Invalid(code: Code) | Excluded(code: Code) | Counted(failed: bool)

  predicate ConcernsTarget(r: Session, target: string, no: nat) {
    exists i :: 0 <= i < |AllObservations(r)| && AllObservations(r)[i].no == no &&
      AllObservations(r)[i].weakness == target
  }

  function Weigh(o: ObservationEvidence, a: AttemptEvidence, actual: Observation, c: Attribution): Verdict {
    if o.realization == NotObserved || o.realization == Ambiguous then Excluded(TargetNotObserved)
    else if c.findings then Excluded(PromptSupplied)
    else if a.kind == SelfCorrection then Excluded(AssistedRetry)
    else if c.class_ == UnknownClass || actual.hint.None? then Excluded(UnknownAssistance)
    else if c.class_ != IndependentClass || actual.hint != Some(NoHint) then Excluded(AssistedOrCued)
    else if actual.phase != Some(ColdRetrieval) && actual.phase != Some(Transfer) then Excluded(NotIndependentPhase)
    else if o.accuracy == NotAssessable then Excluded(InsufficientRating)
    else Counted(o.accuracy == Inaccurate || o.accuracy == PartlyAccurate)
  }

  // Citations play no part in the verdict.
  function VerdictOn(r: Session, e: Evidence, target: string, o: ObservationEvidence): Verdict {
    if !ConcernsTarget(r, target, o.observationNo) then Irrelevant
    else
      var a := FindEvidence(e.attempts, o.attemptNo);
      if a.None? then Invalid(InvalidAttempt)
      else
        var actual := FindObservation(AllObservations(r), o.observationNo);
        if actual.None? then Invalid(InvalidObservation)
        else Weigh(o, a.value, actual.value, AttemptClass(r, e, a.value))
  }

  // One observation record as a proposed review sees it.
  datatype Judged = Judged(no: nat, cited: bool, verdict: Verdict, scenario: string) {
    predicate Supports() {
      verdict.Counted? && cited
    }

    predicate Fails() {
      verdict == Counted(true)
    }
  }

  function ScenarioOf(e: Evidence, o: ObservationEvidence): string {
    var a := FindEvidence(e.attempts, o.attemptNo);
    if a.Some? then a.value.scenario else ""
  }

  function Judge(r: Session, e: Evidence, review: Review, o: ObservationEvidence): Judged {
    Judged(o.observationNo, o.observationNo in review.citations, VerdictOn(r, e, review.weakness, o), ScenarioOf(e, o))
  }

  function JudgeAll(r: Session, e: Evidence, review: Review, observations: seq<ObservationEvidence>): (js: seq<Judged>)
    ensures |js| == |observations|
  {
    seq(|observations|, k requires 0 <= k < |observations| => Judge(r, e, review, observations[k]))
  }

  // Every observation record is judged, cited or not.
  function Judgements(r: Session, e: Evidence, review: Review): seq<Judged> {
    JudgeAll(r, e, review, e.observations)
  }
}
