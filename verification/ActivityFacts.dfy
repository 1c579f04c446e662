// Which practice requests fit and which activity recordings are accepted, told
// activity by activity (src/activities.rs, validate_activity_recording; src/db.rs,
// practice_brief).
module ActivityFacts {
  import opened Outcomes
  import opened Texts
  import opened SessionModel
  import opened Activities
  import opened BriefPlanner
  import opened BriefChoices

  // ----- configurations

  function Prepares(): set<Activity> { {Situational, PictureNarration, QuestionSprint} }

  function Responds(): set<Activity> {
    {Situational, PictureNarration, QuestionSprint, RetellReconstruction, Dictogloss, VoiceDiary, ReadCloseExplain}
  }

  function OneItem(): set<Activity> {
    {PictureNarration, RetellReconstruction, Dictogloss, VoiceDiary, ReadCloseExplain}
  }

  // Each field belongs to some activities; where the source must be hidden, it
  // cannot be configured to be shown.
  predicate FieldsBelong(a: Activity, c: Config) {
    && (c.preparation != None ==> a in Prepares()) && (c.response != None ==> a in Responds())
    && (c.questions != None ==> a == QuestionSprint) && (c.complications != None ==> a == RolePlay)
    && (c.exposures != None ==> a in {RetellReconstruction, Dictogloss})
    && (c.hidden != None ==> a in {RetellReconstruction, Dictogloss, ReadCloseExplain})
    && (c.followups != None ==> a in {CorrectiveConversation, RolePlay})
    && (a in {Dictogloss, ReadCloseExplain} ==> c.hidden != Some(false))
  }

  predicate HasAnyField(c: Config) {
    || c.preparation != None || c.response != None || c.questions != None || c.exposures != None || c.hidden != None
    || c.followups != None || c.complications != None
  }

  predicate Between(value: Option<nat>, low: nat, high: nat) {
    match value case Some(n) => low <= n <= high case None => true
  }

  lemma FieldsIff(a: Activity, c: Config)
    ensures FieldsFit(a, c) <==> FieldsBelong(a, c)
    ensures c == NO_CONFIG <==> !HasAnyField(c)
  {
  }

  // The activities a drill goes with.
  function WithDrill(d: DrillType): set<Activity> {
    match d
    case SituationalResponse => {Situational, CorrectiveConversation, VoiceDiary, RolePlay}
    case MicroStory => {PictureNarration, VoiceDiary}
    case Retell => {PictureNarration, RetellReconstruction, Dictogloss, ReadCloseExplain}
    case QuestionAnswer => {QuestionSprint, CorrectiveConversation, RolePlay}
    case DialogueCompletion => {CorrectiveConversation, RolePlay}
    case SentenceTransformation => {TransformationSprint}
    case _ => {}
  }

  lemma DrillsIff(a: Activity, d: DrillType)
    ensures d in CompatibleDrills(a) <==> a in WithDrill(d)
  {
  }

  // What is not configured: seconds to prepare and respond, questions, exposures,
  // whether the source is hidden and follow-ups come, complications, items.
  lemma DefaultsMean(a: Activity)
    ensures var c := DefaultConfig(a);
            && c.preparation == (if a in {Situational, QuestionSprint} then Some(3)
                                 else if a == PictureNarration then Some(30) else None)
            && c.response == (if a == Situational then Some(45) else if a == QuestionSprint then Some(30)
                              else if a in {Dictogloss, VoiceDiary} then Some(180)
                              else if a in OneItem() then Some(120) else None)
            && c.questions == (if a == QuestionSprint then Some(6) else None)
            && c.exposures == (if a == RetellReconstruction then Some(1) else if a == Dictogloss then Some(2) else None)
            && (c.hidden == if a in {RetellReconstruction, Dictogloss, ReadCloseExplain} then Some(true) else None)
            && (c.followups == if a in {CorrectiveConversation, RolePlay} then Some(true) else None)
            && (c.complications == if a == RolePlay then Some(1) else None)
    ensures DefaultCount(a) == if a in OneItem() then 1 else if a in {Situational, RolePlay} then 4 else 6
  {
  }

  // ----- requests for a brief

  // What a request must satisfy before any target is looked at.
  predicate RequestInOrder(req: Request) {
    && req.mix in {Auto, ProductionFocused, Custom}
    && (req.mix == Custom ==> match req.allowed case Some(drills) => drills != [] case None => false)
    && (req.activity in OneItem() ==> (req.count == None || req.count == Some(1)))
    && 1 <= ItemCount(req) <= 20 && Between(req.planned, 1, 7200)
    && (match req.override case Some(c) => FieldsBelong(req.activity, c) && HasAnyField(c) case None => true)
    && (req.activity == QuestionSprint ==>
          match req.override
          case Some(c) => c.questions == None || c.questions == Some(ItemCount(req))
          case None => true)
    && (req.activity == RolePlay ==> ItemCount(req) > ComplicationsAsked(req))
    && match req.explicitKeys case Some(n) => n <= ItemCount(req) case None => true
  }

  function ComplicationsAsked(req: Request): nat {
    if req.override.Some? && req.override.value.complications.Some? then req.override.value.complications.value else 1
  }

  lemma RequestIff(req: Request)
    ensures RequestFits(req) <==> RequestInOrder(req)
  {
    CountIs(req);
    if req.override.Some? {
      FieldsIff(req.activity, req.override.value);
      if FieldsFit(req.activity, req.override.value) && req.override.value != NO_CONFIG {
        ConfigIff(req);
      }
    }
  }

  lemma CountIs(req: Request)
    ensures Count(req) == ItemCount(req)
  {
  }

  lemma ConfigIff(req: Request)
    requires req.override.Some? && FieldsFit(req.activity, req.override.value) && req.override.value != NO_CONFIG
    ensures PlanConfig(req).Some? <==>
            && (req.activity == QuestionSprint ==>
                  req.override.value.questions == None || req.override.value.questions == Some(Count(req)))
            && (req.activity == RolePlay ==> Count(req) > ComplicationsAsked(req))
  {
  }

  // ----- recordings

  // The last item of its number: later entries of a number replace earlier ones.
  predicate Counts(items: seq<ActivityItem>, i: nat) {
    i < |items| && forall j :: i < j < |items| ==> items[j].no != items[i].no
  }

  function ItemsIn(items: seq<ActivityItem>, runNo: nat): set<nat> {
    set i | 0 <= i < |items| && Counts(items, i) && items[i].runNo == Some(runNo) :: items[i].no
  }

  function ComplicatedIn(items: seq<ActivityItem>, runNo: nat): set<nat> {
    set i | 0 <= i < |items| && Counts(items, i) && items[i].runNo == Some(runNo) &&
            items[i].phase == Some(Complication) :: items[i].no
  }

  lemma {:induction false} LinkedMeans(items: seq<ActivityItem>, i: nat)
    requires forall k :: 0 <= k < |items| ==> items[k].runNo.Some?
    requires Counts(items, i)
    ensures items[i].no in LinkedItems(items)
    ensures LinkedItems(items)[items[i].no] == Link(items[i].runNo.value, PhaseOf(items[i]))
  {
    var init := items[..|items| - 1];
    if i < |init| {
      assert Counts(init, i) by {
        forall j | i < j < |init|
          ensures init[j].no != init[i].no
        {
          assert items[j].no != items[i].no;
        }
      }
      LinkedMeans(init, i);
      assert items[|items| - 1].no != items[i].no;
    }
  }

  lemma {:induction false} LinkedFrom(items: seq<ActivityItem>, no: nat) returns (i: nat)
    requires forall k :: 0 <= k < |items| ==> items[k].runNo.Some?
    requires no in LinkedItems(items)
    ensures Counts(items, i) && items[i].no == no
  {
    var init, last := items[..|items| - 1], items[|items| - 1];
    if last.no == no {
      i := |init|;
    } else {
      i := LinkedFrom(init, no);
      assert forall j :: i < j < |init| ==> init[j] == items[j];
    }
  }

  lemma {:induction false} InRunMeans(items: seq<ActivityItem>, runNo: nat)
    requires forall k :: 0 <= k < |items| ==> items[k].runNo.Some?
    ensures InRun(LinkedItems(items), runNo) == ItemsIn(items, runNo)
    ensures ComplicationsIn(LinkedItems(items), runNo) == ComplicatedIn(items, runNo)
  {
    var linked := LinkedItems(items);
    forall no
      ensures no in InRun(linked, runNo) ==> no in ItemsIn(items, runNo)
      ensures no in ComplicationsIn(linked, runNo) ==> no in ComplicatedIn(items, runNo)
    {
      if no in linked {
        var i := LinkedFrom(items, no);
        LinkedMeans(items, i);
      }
    }
    forall no
      ensures no in ItemsIn(items, runNo) ==> no in InRun(linked, runNo)
      ensures no in ComplicatedIn(items, runNo) ==> no in ComplicationsIn(linked, runNo)
    {
      if no in ItemsIn(items, runNo) {
        var i :| 0 <= i < |items| && Counts(items, i) && items[i].runNo == Some(runNo) && items[i].no == no;
        LinkedMeans(items, i);
      }
      if no in ComplicatedIn(items, runNo) {
        var i :| 0 <= i < |items| && Counts(items, i) && items[i].runNo == Some(runNo) &&
            items[i].phase == Some(Complication) && items[i].no == no;
        LinkedMeans(items, i);
      }
    }
  }

  // ----- stimuli

  // How a stimulus of the kind may reach the learner.
  predicate Reaches(s: Stimulus) {
    match s.kind
    case SituationText => s.delivery in {Read, Conversation}
    case SourceText | ArticleReference => s.delivery == Read
    case ImageDescription | ImageSequence => s.delivery == Viewed
    case MediaTranscript => s.delivery in {HeardReported, Viewed}
    case ComplicationText => s.delivery == Conversation
  }

  predicate IsFilled(s: Option<string>, max: nat) {
    match s case Some(text) => !Blank(text) && |text| <= max case None => true
  }

  // An article has a text or an address; everything else has a text and no address.
  predicate StimulusStands(s: Stimulus) {
    && s.no > 0 && IsFilled(s.text, 8000) && IsFilled(s.uri, 2000) && Reaches(s)
    && if s.kind == ArticleReference then s.text != None || s.uri != None else s.text != None && s.uri == None
  }

  lemma StimulusIff(s: Stimulus)
    ensures StimulusOk(s) <==> StimulusStands(s)
  {
  }

  // The stimulus an activity needs, among those of its run.
  predicate Needed(a: Activity, stimuli: seq<Stimulus>) {
    match a
    case PictureNarration => Present(stimuli, {ImageDescription, ImageSequence}, {Viewed})
    case RetellReconstruction | Dictogloss =>
      Present(stimuli, {SourceText}, {Read}) || Present(stimuli, {MediaTranscript}, {HeardReported, Viewed})
    case ReadCloseExplain =>
      || Present(stimuli, {SourceText}, {Read})
      || exists s :: s in stimuli && s.kind == ArticleReference && s.delivery == Read
    case RolePlay => Present(stimuli, {SituationText}, {Read, Conversation})
    case _ => true
  }

  predicate Present(stimuli: seq<Stimulus>, kinds: set<StimulusKind>, deliveries: set<Delivery>) {
    exists s :: s in stimuli && s.kind in kinds && s.delivery in deliveries && s.uri == None &&
      match s.text case Some(text) => !Blank(text) case None => false
  }

  lemma MetBy(alternatives: seq<Alternative>, stimuli: seq<Stimulus>)
    ensures RequirementMet(alternatives, stimuli) <==>
            exists k, s :: 0 <= k < |alternatives| && s in stimuli && Meets(s, alternatives[k])
  {
    if RequirementMet(alternatives, stimuli) {
      var k, i :| 0 <= k < |alternatives| && 0 <= i < |stimuli| && Meets(stimuli[i], alternatives[k]);
      assert stimuli[i] in stimuli;
    }
    if k, s :| 0 <= k < |alternatives| && s in stimuli && Meets(s, alternatives[k]) {
      var i :| 0 <= i < |stimuli| && stimuli[i] == s;
    }
  }

  lemma OneAlternative(x: Alternative, stimuli: seq<Stimulus>)
    ensures RequirementMet([x], stimuli) <==> exists s :: s in stimuli && Meets(s, x)
  {
    MetBy([x], stimuli);
    assert [x][0] == x;
  }

  lemma TwoAlternatives(x: Alternative, y: Alternative, stimuli: seq<Stimulus>)
    ensures RequirementMet([x, y], stimuli) <==> exists s :: s in stimuli && (Meets(s, x) || Meets(s, y))
  {
    MetBy([x, y], stimuli);
    assert [x, y][0] == x && [x, y][1] == y;
  }

  lemma NeededIff(a: Activity, stimuli: seq<Stimulus>)
    ensures StimuliSatisfy(a, stimuli) <==> Needed(a, stimuli)
  {
    match a
    case PictureNarration =>
      TwoAlternatives(Alternative(ImageDescription, [Viewed], true, false),
        Alternative(ImageSequence, [Viewed], true, false), stimuli);
      OneRequirement(a, stimuli);
    case RetellReconstruction | Dictogloss =>
      TwoAlternatives(Alternative(SourceText, [Read], true, false),
        Alternative(MediaTranscript, [HeardReported, Viewed], true, false), stimuli);
      OneRequirement(a, stimuli);
    case ReadCloseExplain =>
      TwoAlternatives(Alternative(SourceText, [Read], true, false),
        Alternative(ArticleReference, [Read], false, true), stimuli);
      OneRequirement(a, stimuli);
    case RolePlay =>
      OneAlternative(Alternative(SituationText, [Read, Conversation], true, false), stimuli);
      OneRequirement(a, stimuli);
    case _ =>
  }

  lemma OneRequirement(a: Activity, stimuli: seq<Stimulus>)
    requires |Requirements(a)| == 1
    ensures StimuliSatisfy(a, stimuli) <==> RequirementMet(Requirements(a)[0], stimuli)
  {
  }

  // ----- the recording as a whole

  predicate RunStands(run: ActivityRun) {
    && run.no > 0 && Between(run.planned, 1, 7200) && Between(run.actual, 1, 86400000)
    && (run.actual != None <==> run.timed) && IsFilled(run.notes, 4000)
    && |run.stimuli| <= 20 && (forall s :: s in run.stimuli ==> StimulusStands(s))
    && (forall i, j :: 0 <= i < j < |run.stimuli| ==> run.stimuli[i].no != run.stimuli[j].no)
    && match run.config
       case Some(c) => FieldsBelong(run.activity, c) && HasAnyField(c) && WithinBounds(c)
       case None => true
  }

  predicate WithinBounds(c: Config) {
    && Between(c.preparation, 1, 3600) && Between(c.response, 1, 3600) && Between(c.questions, 1, 20)
    && Between(c.exposures, 1, 10) && Between(c.complications, 0, 10)
  }

  // What the items of a run have to be.
  predicate RunFilled(run: ActivityRun, items: seq<ActivityItem>) {
    var n := |ItemsIn(items, run.no)|;
    && n >= 1 && (run.activity in OneItem() ==> n == 1) && Needed(run.activity, run.stimuli)
    && ConfigFilled(run.activity, run.config, n, |ComplicatedIn(items, run.no)|)
  }

  // As many items as questions, and as many complications as configured, but not all.
  predicate ConfigFilled(a: Activity, config: Option<Config>, n: nat, complicated: nat) {
    match config
    case None => a != Dictogloss && a != ReadCloseExplain
    case Some(c) =>
      && (a in {Dictogloss, ReadCloseExplain} ==> c.hidden == Some(true)) && (a == Dictogloss ==> c.exposures != None)
      && (c.questions == None || c.questions == Some(n))
      && (c.complications == None || c.complications == Some(complicated))
      && (c.complications != None ==> complicated < n)
  }

  // Every item belongs to a run, trains one target with a drill of its activity, and
  // is a complication only where there can be one.
  predicate ItemPlaced(runs: seq<ActivityRun>, item: ActivityItem) {
    exists run :: run in runs && item.runNo == Some(run.no) && |item.targets| == 1
                  && item.drill in CompatibleDrills(run.activity)
                  && (item.phase == Some(Complication) ==> run.activity in {RolePlay, CorrectiveConversation})
  }

  predicate RecordingStands(r: ActivityRecord) {
    && |r.runs| <= 10 && (forall run :: run in r.runs ==> RunStands(run))
    && (forall i, j :: 0 <= i < j < |r.runs| ==> r.runs[i].no != r.runs[j].no)
    && if r.runs == [] then forall item :: item in r.items ==> item.runNo == None && item.phase == None
       else
         && (forall item :: item in r.items ==> ItemPlaced(r.runs, item))
         && (forall a :: a in r.attempts ==> AnswersItem(r.items, a))
         && forall run :: run in r.runs ==> RunFilled(run, r.items)
  }

  predicate AnswersItem(items: seq<ActivityItem>, a: Option<nat>) {
    exists item :: item in items && a == Some(item.no)
  }

  lemma RunIff(run: ActivityRun)
    ensures RunDetailsOk(run) && RunConfigOk(run) <==> RunStands(run)
  {
    if run.config.Some? {
      FieldsIff(run.activity, run.config.value);
    }
    forall i | 0 <= i < |run.stimuli|
      ensures StimulusOk(run.stimuli[i]) <==> StimulusStands(run.stimuli[i])
    {
      StimulusIff(run.stimuli[i]);
    }
    if RunStands(run) {
      assert forall i :: 0 <= i < |run.stimuli| ==> run.stimuli[i] in run.stimuli;
    }
  }

  lemma {:induction false} FindRunMeans(runs: seq<ActivityRun>, no: nat)
    requires forall i, j :: 0 <= i < j < |runs| ==> runs[i].no != runs[j].no
    ensures forall run :: run in runs && run.no == no ==> FindRun(runs, no) == Some(run)
    ensures FindRun(runs, no).Some? ==> FindRun(runs, no).value in runs && FindRun(runs, no).value.no == no
  {
    if runs != [] {
      var rest := runs[1..];
      assert runs == [runs[0]] + rest && forall i :: 0 <= i < |rest| ==> rest[i] == runs[i + 1];
      FindRunMeans(rest, no);
    }
  }

  lemma ItemIff(runs: seq<ActivityRun>, item: ActivityItem)
    requires forall i, j :: 0 <= i < j < |runs| ==> runs[i].no != runs[j].no
    ensures ItemOk(runs, item) <==> ItemPlaced(runs, item)
  {
    if item.runNo.Some? {
      FindRunMeans(runs, item.runNo.value);
    }
  }

  lemma {:induction false} FilledIff(run: ActivityRun, items: seq<ActivityItem>)
    requires forall k :: 0 <= k < |items| ==> items[k].runNo.Some?
    ensures RunLinksOk(run, LinkedItems(items)) <==> RunFilled(run, items)
  {
    InRunMeans(items, run.no);
    NeededIff(run.activity, run.stimuli);
    OneItemIff(run.activity);
    ConfigFilledIff(run, LinkedItems(items));
  }

  lemma OneItemIff(a: Activity)
    ensures SingleResponse(a) <==> a in OneItem()
  {
  }

  lemma ConfigFilledIff(run: ActivityRun, linked: ItemRuns)
    ensures var count, complicated := |InRun(linked, run.no)|, |ComplicationsIn(linked, run.no)|;
            ConfigFilled(run.activity, run.config, count, complicated) <==>
            && (run.activity == Dictogloss ==>
                 run.config.Some? && run.config.value.exposures.Some? && run.config.value.hidden == Some(true))
            && (run.activity == ReadCloseExplain ==> run.config.Some? && run.config.value.hidden == Some(true))
            && (run.config.Some? && run.config.value.questions.Some? ==> run.config.value.questions.value == count)
            && (run.config.Some? && run.config.value.complications.Some? ==>
                  complicated == run.config.value.complications.value < count)
  {
  }

  // The recorder accepts exactly these recordings.
  lemma RecordingIff(r: ActivityRecord)
    ensures RecordingOk(r) <==> RecordingStands(r)
  {
    RunsIff(r.runs);
    if r.runs != [] && RunsOk(r.runs) {
      LinksIff(r);
    }
  }

  lemma RunsIff(runs: seq<ActivityRun>)
    ensures RunsOk(runs) <==>
            && |runs| <= 10 && (forall run :: run in runs ==> RunStands(run))
            && forall i, j :: 0 <= i < j < |runs| ==> runs[i].no != runs[j].no
  {
    forall i | 0 <= i < |runs|
      ensures RunDetailsOk(runs[i]) && RunConfigOk(runs[i]) <==> RunStands(runs[i])
    {
      RunIff(runs[i]);
    }
    if forall run :: run in runs ==> RunStands(run) {
      assert forall i :: 0 <= i < |runs| ==> runs[i] in runs;
    }
  }

  lemma LinksIff(r: ActivityRecord)
    requires RunsOk(r.runs)
    ensures ItemsOk(r.runs, r.items) <==> forall item :: item in r.items ==> ItemPlaced(r.runs, item)
    ensures AttemptsOk(r.items, r.attempts) <==> forall a :: a in r.attempts ==> AnswersItem(r.items, a)
    ensures ItemsOk(r.runs, r.items) ==>
              ((forall i :: 0 <= i < |r.runs| ==> RunLinksOk(r.runs[i], LinkedItems(r.items))) <==>
                 forall run :: run in r.runs ==> RunFilled(run, r.items))
  {
    ItemsIff(r.runs, r.items);
    AttemptsIff(r.items, r.attempts);
    if ItemsOk(r.runs, r.items) {
      assert forall k :: 0 <= k < |r.items| ==> ItemOk(r.runs, r.items[k]);
      forall i | 0 <= i < |r.runs|
        ensures RunLinksOk(r.runs[i], LinkedItems(r.items)) <==> RunFilled(r.runs[i], r.items)
      {
        FilledIff(r.runs[i], r.items);
      }
      assert forall i :: 0 <= i < |r.runs| ==> r.runs[i] in r.runs;
    }
  }

  lemma ItemsIff(runs: seq<ActivityRun>, items: seq<ActivityItem>)
    requires RunsOk(runs)
    ensures ItemsOk(runs, items) <==> forall item :: item in items ==> ItemPlaced(runs, item)
  {
    forall i | 0 <= i < |items|
      ensures ItemOk(runs, items[i]) <==> ItemPlaced(runs, items[i])
    {
      ItemIff(runs, items[i]);
    }
    if forall item :: item in items ==> ItemPlaced(runs, item) {
      assert forall i :: 0 <= i < |items| ==> items[i] in items;
    }
  }

  lemma AttemptsIff(items: seq<ActivityItem>, attempts: seq<Option<nat>>)
    ensures AttemptsOk(items, attempts) <==> forall a :: a in attempts ==> AnswersItem(items, a)
  {
    forall k | 0 <= k < |attempts|
      ensures (attempts[k].Some? && exists i :: 0 <= i < |items| && items[i].no == attempts[k].value) <==>
              AnswersItem(items, attempts[k])
    {
      if i :| 0 <= i < |items| && attempts[k] == Some(items[i].no) {
        assert items[i] in items;
      }
      if AnswersItem(items, attempts[k]) {
        var item :| item in items && attempts[k] == Some(item.no);
        var i :| 0 <= i < |items| && items[i] == item;
      }
    }
    if forall a :: a in attempts ==> AnswersItem(items, a) {
      assert forall k :: 0 <= k < |attempts| ==> attempts[k] in attempts;
    }
  }
}
