// Activities: what each one allows, how its configuration is completed, and the
// recorder's check of what was done (src/activities.rs).
module Activities {
  import opened Outcomes
  import opened Texts
  import opened SessionModel

  datatype Activity =
    | Situational | PictureNarration | QuestionSprint | RetellReconstruction | CorrectiveConversation
    | TransformationSprint | Dictogloss | VoiceDiary | ReadCloseExplain | RolePlay

  datatype ItemPhase = InitialPhase | FollowUp | Complication

  datatype StimulusKind =
    | SituationText | SourceText | ImageDescription | ImageSequence | ArticleReference | MediaTranscript
    | ComplicationText

  datatype Delivery = Read | Viewed | HeardReported | Conversation

  datatype Stimulus = Stimulus(no: nat, kind: StimulusKind, delivery: Delivery, text: Option<string>,
    uri: Option<string>)

  datatype Config = Config(
    preparation: Option<nat>, response: Option<nat>, questions: Option<nat>, exposures: Option<nat>,
    hidden: Option<bool>, followups: Option<bool>, complications: Option<nat>)

  const NO_CONFIG: Config := Config(None, None, None, None, None, None, None)

  function CompatibleDrills(a: Activity): seq<DrillType> {
    match a
    case Situational => [SituationalResponse]
    case PictureNarration => [MicroStory, Retell]
    case QuestionSprint => [QuestionAnswer]
    case RetellReconstruction => [Retell]
    case CorrectiveConversation => [QuestionAnswer, SituationalResponse, DialogueCompletion]
    case TransformationSprint => [SentenceTransformation]
    case Dictogloss => [Retell]
    case VoiceDiary => [SituationalResponse, MicroStory]
    case ReadCloseExplain => [Retell]
    case RolePlay => [SituationalResponse, DialogueCompletion, QuestionAnswer]
  }

  function DefaultConfig(a: Activity): Config {
    match a
    case Situational => Config(Some(3), Some(45), None, None, None, None, None)
    case PictureNarration => Config(Some(30), Some(120), None, None, None, None, None)
    case QuestionSprint => Config(Some(3), Some(30), Some(6), None, None, None, None)
    case RetellReconstruction => Config(None, Some(120), None, Some(1), Some(true), None, None)
    case CorrectiveConversation => Config(None, None, None, None, None, Some(true), None)
    case TransformationSprint => NO_CONFIG
    case Dictogloss => Config(None, Some(180), None, Some(2), Some(true), None, None)
    case VoiceDiary => Config(None, Some(180), None, None, None, None, None)
    case ReadCloseExplain => Config(None, Some(120), None, None, Some(true), None, None)
    case RolePlay => Config(None, None, None, None, None, Some(true), Some(1))
  }

  function DefaultCount(a: Activity): nat {
    match a
    case Situational | RolePlay => 4
    case QuestionSprint | CorrectiveConversation | TransformationSprint => 6
    case _ => 1
  }

  function DefaultDuration(a: Activity): Option<nat> {
    if a == CorrectiveConversation then Some(1200) else None
  }

  predicate SingleResponse(a: Activity) {
    a == PictureNarration || a == RetellReconstruction || a == Dictogloss || a == VoiceDiary || a == ReadCloseExplain
  }

  // ----- configuration

  predicate FieldsFit(a: Activity, c: Config) {
    && (c.preparation.Some? ==> a == Situational || a == PictureNarration || a == QuestionSprint)
    && (c.response.Some? ==> SingleResponse(a) || a == Situational || a == QuestionSprint)
    && (c.questions.Some? ==> a == QuestionSprint)
    && (c.exposures.Some? ==> a == RetellReconstruction || a == Dictogloss)
    && (c.hidden.Some? ==> a == RetellReconstruction || a == Dictogloss || a == ReadCloseExplain)
    && (c.followups.Some? ==> a == CorrectiveConversation || a == RolePlay)
    && (c.complications.Some? ==> a == RolePlay)
    && (c.hidden == Some(false) ==> a != Dictogloss && a != ReadCloseExplain)
  }

  predicate Within(value: Option<nat>, low: nat, high: nat) {
    value.Some? ==> low <= value.value <= high
  }

  predicate InBounds(c: Config) {
    && Within(c.preparation, 1, 3600) && Within(c.response, 1, 3600) && Within(c.questions, 1, 20)
    && Within(c.exposures, 1, 10) && Within(c.complications, 0, 10)
  }

  function Or<T>(chosen: Option<T>, otherwise: Option<T>): Option<T> {
    if chosen.Some? then chosen else otherwise
  }

  function Merged(c: Config, d: Config): Config {
    Config(Or(c.preparation, d.preparation), Or(c.response, d.response), Or(c.questions, d.questions),
      Or(c.exposures, d.exposures),
           Or(c.hidden, d.hidden), Or(c.followups, d.followups), Or(c.complications, d.complications))
  }

  function MergedConfig(a: Activity, override: Option<Config>): Option<Config> {
    if override.None? then Some(DefaultConfig(a))
    else if !FieldsFit(a, override.value) || override.value == NO_CONFIG then None
    else Some(Merged(override.value, DefaultConfig(a)))
  }

  // Completing an override keeps it fitting, in bounds if it was, and leaves
  // only the transformation sprint without any field.
  lemma MergedConfigFits(a: Activity, override: Option<Config>)
    requires MergedConfig(a, override).Some?
    ensures var c := MergedConfig(a, override).value;
            && FieldsFit(a, c)
            && (InBounds(c) <==> (override.Some? ==> InBounds(override.value)))
            && (c == NO_CONFIG <==> a == TransformationSprint)
            && (a == Dictogloss ==> c.exposures.Some? && c.hidden == Some(true))
            && (a == ReadCloseExplain ==> c.hidden == Some(true))
            && (a == RolePlay <==> c.complications.Some?) && (a == QuestionSprint <==> c.questions.Some?)
  {
    var hidden := MergedConfig(a, override).value.hidden;
    if hidden.Some? {
      if hidden.value {
        assert hidden == Some(true);
      } else {
        assert hidden == Some(false);
      }
    }
  }

  // ----- stimuli

  datatype Alternative = Alternative(kind: StimulusKind, deliveries: seq<Delivery>, textRequired: bool,
    uriAllowed: bool)

  // Each requirement lists its alternatives; one stimulus must meet one of them.
  function Requirements(a: Activity): seq<seq<Alternative>> {
    match a
    case PictureNarration => [[Alternative(ImageDescription, [Viewed], true, false),
      Alternative(ImageSequence, [Viewed], true, false)]]
    case RetellReconstruction | Dictogloss =>
      [[Alternative(SourceText, [Read], true, false),
        Alternative(MediaTranscript, [HeardReported, Viewed], true, false)]]
    case ReadCloseExplain => [[Alternative(SourceText, [Read], true, false),
      Alternative(ArticleReference, [Read], false, true)]]
    case RolePlay => [[Alternative(SituationText, [Read, Conversation], true, false)]]
    case _ => []
  }

  predicate HasText(s: Option<string>) {
    s.Some? && !Blank(s.value)
  }

  predicate Meets(s: Stimulus, alternative: Alternative) {
    && s.kind == alternative.kind && s.delivery in alternative.deliveries
    && (alternative.textRequired ==> HasText(s.text)) && (alternative.uriAllowed || s.uri.None?)
  }

  predicate RequirementMet(alternatives: seq<Alternative>, stimuli: seq<Stimulus>) {
    exists k, s :: 0 <= k < |alternatives| && 0 <= s < |stimuli| && Meets(stimuli[s], alternatives[k])
  }

  predicate StimuliSatisfy(a: Activity, stimuli: seq<Stimulus>) {
    forall q :: 0 <= q < |Requirements(a)| ==> RequirementMet(Requirements(a)[q], stimuli)
  }

  function Deliveries(kind: StimulusKind): seq<Delivery> {
    match kind
    case SituationText => [Read, Conversation]
    case SourceText | ArticleReference => [Read]
    case ImageDescription | ImageSequence => [Viewed]
    case MediaTranscript => [HeardReported, Viewed]
    case ComplicationText => [Conversation]
  }

  predicate FilledText(s: Option<string>, max: nat) {
    s.Some? ==> TextOk(s.value, max)
  }

  predicate StimulusOk(s: Stimulus) {
    && s.no > 0 && FilledText(s.text, 8000) && FilledText(s.uri, 2000)
    && s.delivery in Deliveries(s.kind)
    && (HasText(s.text) || HasText(s.uri))
    && (s.kind != ArticleReference ==> !HasText(s.uri) && HasText(s.text))
  }

  // ----- what was done

  datatype ActivityRun = ActivityRun(
    no: nat, activity: Activity, planned: Option<nat>, actual: Option<nat>, timed: bool, config: Option<Config>,
    notes: Option<string>, stimuli: seq<Stimulus>)

  datatype ActivityItem = ActivityItem(no: nat, runNo: Option<nat>, drill: DrillType, targets: seq<string>,
    phase: Option<ItemPhase>)

  // attempts holds the item each attempt answers.
  datatype ActivityRecord = ActivityRecord(runs: seq<ActivityRun>, items: seq<ActivityItem>, attempts: seq<Option<nat>>)

  predicate RunDetailsOk(run: ActivityRun) {
    && run.no > 0 && Within(run.planned, 1, 7200) && Within(run.actual, 1, 86400000) &&
       (run.actual.Some? <==> run.timed)
    && FilledText(run.notes, 4000)
    && |run.stimuli| <= 20
    && forall s :: 0 <= s < |run.stimuli| ==>
         StimulusOk(run.stimuli[s]) && forall r :: 0 <= r < s ==> run.stimuli[r].no != run.stimuli[s].no
  }

  predicate RunConfigOk(run: ActivityRun) {
    run.config.Some? ==>
      FieldsFit(run.activity, run.config.value) && InBounds(run.config.value) && run.config.value != NO_CONFIG
  }

  function FindRun(runs: seq<ActivityRun>, no: nat): Option<ActivityRun> {
    if runs == [] then None else if runs[0].no == no then Some(runs[0]) else FindRun(runs[1..], no)
  }

  function PhaseOf(item: ActivityItem): ItemPhase {
    if item.phase.Some? then item.phase.value else InitialPhase
  }

  predicate ItemOk(runs: seq<ActivityRun>, item: ActivityItem) {
    && item.runNo.Some?
    && var run := FindRun(runs, item.runNo.value);
       && run.Some? && |item.targets| == 1 && item.drill in CompatibleDrills(run.value.activity)
       && (PhaseOf(item) == Complication ==>
            run.value.activity == RolePlay || run.value.activity == CorrectiveConversation)
  }

  datatype Link = Link(run: nat, phase: ItemPhase)

  type ItemRuns = map<nat, Link>

  function LinkedItems(items: seq<ActivityItem>): ItemRuns
    requires forall i :: 0 <= i < |items| ==> items[i].runNo.Some?
  {
    if items == [] then map[]
    else
      var last := items[|items| - 1];
      LinkedItems(items[..|items| - 1])[last.no := Link(last.runNo.value, PhaseOf(last))]
  }

  function InRun(linked: ItemRuns, runNo: nat): set<nat> {
    set no | no in linked && linked[no].run == runNo
  }

  function ComplicationsIn(linked: ItemRuns, runNo: nat): set<nat> {
    set no | no in linked && linked[no] == Link(runNo, Complication)
  }

  predicate RunLinksOk(run: ActivityRun, linked: ItemRuns) {
    var count := |InRun(linked, run.no)|;
    && (if SingleResponse(run.activity) then count == 1 else count >= 1)
    && StimuliSatisfy(run.activity, run.stimuli)
    && (run.activity == Dictogloss ==>
         run.config.Some? && run.config.value.exposures.Some? && run.config.value.hidden == Some(true))
    && (run.activity == ReadCloseExplain ==> run.config.Some? && run.config.value.hidden == Some(true))
    && (run.config.Some? && run.config.value.questions.Some? ==> run.config.value.questions.value == count)
    && (run.config.Some? && run.config.value.complications.Some? ==>
          |ComplicationsIn(linked, run.no)| == run.config.value.complications.value < count)
  }

  predicate RunsOk(runs: seq<ActivityRun>) {
    && |runs| <= 10
    && forall i :: 0 <= i < |runs| ==>
         RunDetailsOk(runs[i]) && RunConfigOk(runs[i]) && forall j :: 0 <= j < i ==> runs[j].no != runs[i].no
  }

  predicate ItemsOk(runs: seq<ActivityRun>, items: seq<ActivityItem>) {
    forall i :: 0 <= i < |items| ==> ItemOk(runs, items[i])
  }

  predicate AttemptsOk(items: seq<ActivityItem>, attempts: seq<Option<nat>>) {
    forall k :: 0 <= k < |attempts| ==>
        attempts[k].Some? && exists i :: 0 <= i < |items| && items[i].no == attempts[k].value
  }

  predicate RecordingOk(r: ActivityRecord) {
    && RunsOk(r.runs)
    && (if r.runs == [] then forall i :: 0 <= i < |r.items| ==> r.items[i].runNo.None? && r.items[i].phase.None?
        else
          && ItemsOk(r.runs, r.items) && AttemptsOk(r.items, r.attempts)
          && forall i :: 0 <= i < |r.runs| ==> RunLinksOk(r.runs[i], LinkedItems(r.items)))
  }

  // ----- the recorder's check

  method CheckRuns(runs: seq<ActivityRun>) returns (ok: bool)
    ensures ok <==> RunsOk(runs)
  {
    if |runs| > 10 {
      return false;
    }
    var seen: set<nat> := {};
    var i := 0;
    while i < |runs|
      invariant 0 <= i <= |runs|
      invariant forall n :: n in seen <==> exists k :: 0 <= k < i && runs[k].no == n
      invariant RunsOk(runs[..i])
    {
      if runs[i].no in seen || !RunDetailsOk(runs[i]) || !RunConfigOk(runs[i]) {
        return false;
      }
      seen := seen + {runs[i].no};
      i := i + 1;
      assert runs[..i][..i - 1] == runs[..i - 1];
    }
    assert runs[..i] == runs;
    ok := true;
  }

  function Numbers(items: seq<ActivityItem>): (numbers: set<nat>)
    ensures forall n :: n in numbers <==> exists k :: 0 <= k < |items| && items[k].no == n
  {
    set k | 0 <= k < |items| :: items[k].no
  }

  lemma OneMoreNumber(items: seq<ActivityItem>, i: nat)
    requires i < |items|
    ensures Numbers(items[..i + 1]) == Numbers(items[..i]) + {items[i].no}
  {
    assert items[..i + 1] == items[..i] + [items[i]];
    assert forall k :: 0 <= k < i ==> items[..i + 1][k] == items[..i][k];
    assert items[..i + 1][i] == items[i];
  }

  lemma OneMoreLink(items: seq<ActivityItem>, i: nat)
    requires i < |items| && forall k :: 0 <= k <= i ==> items[k].runNo.Some?
    ensures LinkedItems(items[..i + 1]) ==
            LinkedItems(items[..i])[items[i].no := Link(items[i].runNo.value, PhaseOf(items[i]))]
  {
    assert items[..i + 1][..i] == items[..i];
  }

  method LinkItems(runs: seq<ActivityRun>, items: seq<ActivityItem>)
      returns (ok: bool, linked: ItemRuns, numbers: set<nat>)
    ensures ok <==> ItemsOk(runs, items)
    ensures ok ==> linked == LinkedItems(items) && numbers == Numbers(items)
  {
    linked, numbers := map[], {};
    var i := 0;
    while i < |items|
      invariant 0 <= i <= |items|
      invariant forall k :: 0 <= k < i ==> ItemOk(runs, items[k])
      invariant forall k :: 0 <= k < i ==> items[k].runNo.Some?
      invariant linked == LinkedItems(items[..i])
      invariant numbers == Numbers(items[..i])
    {
      if !ItemOk(runs, items[i]) {
        return false, linked, numbers;
      }
      assert items[i].runNo.Some?;
      OneMoreNumber(items, i);
      OneMoreLink(items, i);
      numbers := numbers + {items[i].no};
      linked := linked[items[i].no := Link(items[i].runNo.value, PhaseOf(items[i]))];
      i := i + 1;
    }
    assert items[..i] == items;
    ok := true;
  }

  method CheckLinks(runs: seq<ActivityRun>, linked: ItemRuns) returns (ok: bool)
    ensures ok <==> forall i :: 0 <= i < |runs| ==> RunLinksOk(runs[i], linked)
  {
    var i := 0;
    while i < |runs|
      invariant 0 <= i <= |runs|
      invariant forall k :: 0 <= k < i ==> RunLinksOk(runs[k], linked)
    {
      if !RunLinksOk(runs[i], linked) {
        return false;
      }
      i := i + 1;
    }
    ok := true;
  }

  // validate_activity_recording accepts exactly the recordings RecordingOk describes.
  method ValidateActivityRecording(r: ActivityRecord) returns (ok: bool)
    ensures ok <==> RecordingOk(r)
  {
    ok := CheckRuns(r.runs);
    if !ok {
      return;
    }
    if r.runs == [] {
      ok := forall i :: 0 <= i < |r.items| ==> r.items[i].runNo.None? && r.items[i].phase.None?;
      return;
    }
    var linked, numbers;
    ok, linked, numbers := LinkItems(r.runs, r.items);
    if !ok {
      return;
    }
    if exists k :: 0 <= k < |r.attempts| && (r.attempts[k].None? || r.attempts[k].value !in numbers) {
      return false;
    }
    ok := CheckLinks(r.runs, linked);
  }
}
