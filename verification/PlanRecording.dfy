// What is planned can be recorded: a run carried out from a brief passes the
// recorder's check.
module PlanRecording {
  import opened Outcomes
  import opened Sets
  import opened Texts
  import opened Activities
  import opened RoundRobin
  import opened BriefPlanner

  // ----- phases

  // A role-play ends in exactly the complications it was configured for; no
  // other activity has any.
  lemma ComplicationsPlanned(a: Activity, total: nat, complications: nat)
    requires a == RolePlay ==> complications < total
    ensures var planned := set k: nat | k < total && PhaseFor(a, k, total, complications) == Complication;
            && planned == (if a == RolePlay then Range(total - complications, total) else {})
            && |planned| == (if a == RolePlay then complications else 0)
  {
    var planned := set k: nat | k < total && PhaseFor(a, k, total, complications) == Complication;
    if a == RolePlay {
      assert planned == Range(total - complications, total);
    } else {
      assert planned == {};
    }
  }

  // ----- a run carried out from a plan

  function RecordedConfig(c: Config): Option<Config> {
    if c == NO_CONFIG then None else Some(c)
  }

  function RecordedItem(item: PlannedItem, runNo: nat): ActivityItem {
    ActivityItem(item.no, Some(runNo), item.drill, [item.target], Some(item.phase))
  }

  // One run of the plan: its items in order, its configuration unless that is
  // empty, the stimuli its activity requires, and attempts at its items.
  ghost predicate CarriedOut(plan: Plan, r: ActivityRecord) {
    && |r.runs| == 1
    && var run := r.runs[0];
       && run.activity == plan.activity && run.planned == plan.planned && run.config == RecordedConfig(plan.config)
       && RunDetailsOk(run) && StimuliSatisfy(run.activity, run.stimuli)
       && |r.items| == |plan.items|
       && (forall k :: 0 <= k < |r.items| ==> r.items[k] == RecordedItem(plan.items[k], run.no))
       && forall k :: 0 <= k < |r.attempts| ==> r.attempts[k].Some? && 1 <= r.attempts[k].value <= |r.items|
  }

  ghost predicate LinkedInOrder(linked: ItemRuns, items: seq<ActivityItem>, runNo: nat) {
    && (forall no: nat :: no in linked <==> 1 <= no <= |items|)
    && forall no: nat :: 1 <= no <= |items| ==> linked[no] == Link(runNo, PhaseOf(items[no - 1]))
  }

  lemma {:induction false} LinksOfPlan(items: seq<ActivityItem>, runNo: nat)
    requires forall k :: 0 <= k < |items| ==> items[k].no == k + 1 && items[k].runNo == Some(runNo)
    ensures LinkedInOrder(LinkedItems(items), items, runNo)
  {
    if items != [] {
      var init, last := items[..|items| - 1], items[|items| - 1];
      assert forall k :: 0 <= k < |init| ==> init[k] == items[k];
      LinksOfPlan(init, runNo);
      assert LinkedItems(items) == LinkedItems(init)[last.no := Link(runNo, PhaseOf(last))];
    }
  }

  lemma ShiftedSize(s: set<nat>, t: set<nat>)
    requires forall no :: no in t <==> no > 0 && no - 1 in s
    ensures |t| == |s|
  {
    if s == {} {
      assert t == {};
    } else {
      var k :| k in s;
      var rest := t - {k + 1};
      forall no
        ensures no in rest <==> no > 0 && no - 1 in s - {k}
      {
      }
      ShiftedSize(s - {k}, rest);
    }
  }

  lemma CountsOfMap(linked: ItemRuns, items: seq<ActivityItem>, runNo: nat, planned: set<nat>)
    requires LinkedInOrder(linked, items, runNo)
    requires forall k: nat :: k in planned <==> k < |items| && PhaseOf(items[k]) == Complication
    ensures |InRun(linked, runNo)| == |items| && |ComplicationsIn(linked, runNo)| == |planned|
  {
    forall no: nat | no in linked
      ensures linked[no].run == runNo && (linked[no] == Link(runNo, Complication) <==> no - 1 in planned)
    {
      assert linked[no] == Link(runNo, PhaseOf(items[no - 1]));
    }
    assert InRun(linked, runNo) == Range(1, |items| + 1);
    ShiftedSize(planned, ComplicationsIn(linked, runNo));
  }

  lemma {:induction false} CountsOfLinks(items: seq<ActivityItem>, runNo: nat, planned: set<nat>)
    requires forall k :: 0 <= k < |items| ==> items[k].no == k + 1 && items[k].runNo == Some(runNo)
    requires forall k: nat :: k in planned <==> k < |items| && PhaseOf(items[k]) == Complication
    ensures |InRun(LinkedItems(items), runNo)| == |items| && |ComplicationsIn(LinkedItems(items), runNo)| == |planned|
  {
    LinksOfPlan(items, runNo);
    CountsOfMap(LinkedItems(items), items, runNo, planned);
  }

  lemma CountsOfPlan(plan: Plan, r: ActivityRecord, complications: nat)
    requires CarriedOut(plan, r) && (plan.activity == RolePlay ==> complications < |plan.items|)
    requires forall k :: 0 <= k < |plan.items| ==>
               plan.items[k].no == k + 1 && plan.items[k].phase ==
                 PhaseFor(plan.activity, k, |plan.items|, complications)
    ensures (forall i :: 0 <= i < |r.items| ==> r.items[i].runNo.Some?)
    ensures var linked := LinkedItems(r.items);
            && |InRun(linked, r.runs[0].no)| == |plan.items|
            && |ComplicationsIn(linked, r.runs[0].no)| == (if plan.activity == RolePlay then complications else 0)
  {
    var runNo, total := r.runs[0].no, |plan.items|;
    forall k | 0 <= k < |r.items|
      ensures r.items[k].no == k + 1 && r.items[k].runNo == Some(runNo)
      ensures PhaseOf(r.items[k]) == PhaseFor(plan.activity, k, total, complications)
    {
      assert r.items[k] == RecordedItem(plan.items[k], runNo);
    }
    ComplicationsPlanned(plan.activity, total, complications);
    CountsOfLinks(r.items, runNo, set k: nat | k < total &&
      PhaseFor(plan.activity, k, total, complications) == Complication);
  }

  // ----- the configuration of a plan

  lemma PlanConfigFits(req: Request)
    requires RequestFits(req)
    ensures var c := PlanConfig(req).value;
            && FieldsFit(req.activity, c)
            && (InBounds(c) <==> (req.override.Some? ==> InBounds(req.override.value)))
            && (c == NO_CONFIG <==> req.activity == TransformationSprint)
            && (req.activity == Dictogloss ==> c.exposures.Some? && c.hidden == Some(true))
            && (req.activity == ReadCloseExplain ==> c.hidden == Some(true))
            && (c.questions.Some? ==> c.questions.value == Count(req))
            && (c.complications.Some? <==> req.activity == RolePlay)
            && (c.complications.Some? ==> c.complications.value < Count(req))
  {
    MergedConfigFits(req.activity, req.override);
  }

  lemma PlannedItemsFit(req: Request, candidates: seq<Candidate>, plan: Plan, k: nat)
    requires Planned(req, candidates, plan) && k < |plan.items|
    ensures plan.items[k].no == k + 1 && plan.items[k].drill in CompatibleDrills(plan.activity)
    ensures plan.items[k].phase == PhaseFor(plan.activity, k, |plan.items|, Complications(plan.config))
  {
    var n, lists := |plan.targets|, EligibleLists(req, Chosen(req, candidates));
    assert plan.items[k] == ItemFor(req, plan.targets, lists, plan.config, |plan.items|, k, k % n);
    var list := lists[k % n];
    assert list == EligibleOf(req, Chosen(req, candidates)[k % n]);
    assert Leading(list) in list;
  }

  lemma ItemsPass(plan: Plan, r: ActivityRecord, complications: nat)
    requires CarriedOut(plan, r)
    requires forall k :: 0 <= k < |plan.items| ==>
               && plan.items[k].no == k + 1 && plan.items[k].drill in CompatibleDrills(plan.activity)
               && plan.items[k].phase == PhaseFor(plan.activity, k, |plan.items|, complications)
    ensures ItemsOk(r.runs, r.items) && AttemptsOk(r.items, r.attempts)
  {
    forall k | 0 <= k < |r.items|
      ensures ItemOk(r.runs, r.items[k]) && r.items[k].no == k + 1
    {
      assert r.items[k] == RecordedItem(plan.items[k], r.runs[0].no);
      assert FindRun(r.runs, r.runs[0].no) == Some(r.runs[0]);
    }
    forall k | 0 <= k < |r.attempts|
      ensures r.attempts[k].Some? && exists i :: 0 <= i < |r.items| && r.items[i].no == r.attempts[k].value
    {
      var i: nat := r.attempts[k].value - 1;
      assert r.items[i].no == i + 1;
    }
  }

  lemma RunPasses(req: Request, candidates: seq<Candidate>, plan: Plan, r: ActivityRecord)
    requires Planned(req, candidates, plan) && CarriedOut(plan, r)
    ensures ItemsOk(r.runs, r.items) && AttemptsOk(r.items, r.attempts)
    ensures (forall i :: 0 <= i < |r.items| ==> r.items[i].runNo.Some?) && RunLinksOk(r.runs[0], LinkedItems(r.items))
  {
    PlanConfigFits(req);
    forall k | 0 <= k < |plan.items|
      ensures plan.items[k].no == k + 1 && plan.items[k].drill in CompatibleDrills(plan.activity)
      ensures plan.items[k].phase == PhaseFor(plan.activity, k, |plan.items|, Complications(plan.config))
    {
      PlannedItemsFit(req, candidates, plan, k);
    }
    ItemsPass(plan, r, Complications(plan.config));
    CountsOfPlan(plan, r, Complications(plan.config));
  }

  // The recorder accepts every run carried out from a plan exactly when the
  // override's values were in bounds, which the brief itself does not check.
  lemma PlansCanBeRecorded(req: Request, candidates: seq<Candidate>, plan: Plan, r: ActivityRecord)
    requires Planned(req, candidates, plan) && CarriedOut(plan, r)
    ensures RecordingOk(r) <==> (req.override.Some? ==> InBounds(req.override.value))
  {
    PlanConfigFits(req);
    RunPasses(req, candidates, plan, r);
    assert plan.config == NO_CONFIG ==> InBounds(plan.config);
    assert RunConfigOk(r.runs[0]) <==> InBounds(plan.config);
    OneRunRecorded(r);
  }

  lemma OneRunRecorded(r: ActivityRecord)
    requires |r.runs| == 1 && RunDetailsOk(r.runs[0]) && ItemsOk(r.runs, r.items) && AttemptsOk(r.items, r.attempts)
    requires (forall i :: 0 <= i < |r.items| ==> r.items[i].runNo.Some?) && RunLinksOk(r.runs[0], LinkedItems(r.items))
    ensures RecordingOk(r) <==> RunConfigOk(r.runs[0])
  {
  }

  // ----- plans and their runs exist

  // The plan the brief makes.
  lemma PlanExists(req: Request, candidates: seq<Candidate>) returns (plan: Plan)
    requires Plannable(req, candidates) && (req.explicitKeys.Some? ==> |candidates| <= req.explicitKeys.value)
    ensures Planned(req, candidates, plan)
  {
    TargetsFit(req, candidates);
    var total, targets := Count(req), Chosen(req, candidates);
    var n, lists, config := |targets|, EligibleLists(req, targets), PlanConfig(req).value;
    var items := seq(total, k requires 0 <= k < total => ItemFor(req, Keys(targets), lists, config, total, k, k % n));
    plan := Plan(req.activity, config, Or(req.planned, DefaultDuration(req.activity)), Keys(targets),
      Shares(total, n), items);
  }

  function SampleStimuli(a: Activity): seq<Stimulus> {
    match a
    case PictureNarration => [Stimulus(1, ImageDescription, Viewed, Some("x"), None)]
    case RetellReconstruction | Dictogloss | ReadCloseExplain => [Stimulus(1, SourceText, Read, Some("x"), None)]
    case RolePlay => [Stimulus(1, SituationText, Read, Some("x"), None)]
    case _ => []
  }

  lemma SampleStimuliFit(a: Activity)
    ensures StimuliSatisfy(a, SampleStimuli(a)) && |SampleStimuli(a)| <= 1
    ensures forall s :: 0 <= s < |SampleStimuli(a)| ==> StimulusOk(SampleStimuli(a)[s])
  {
    assert "x"[0] == 'x' && !Blank("x");
    forall q | 0 <= q < |Requirements(a)|
      ensures RequirementMet(Requirements(a)[q], SampleStimuli(a))
    {
      assert q == 0;
      assert Meets(SampleStimuli(a)[0], Requirements(a)[q][0]);
    }
  }

  // Every plan can be carried out.
  lemma RunExists(plan: Plan) returns (r: ActivityRecord)
    requires Within(plan.planned, 1, 7200)
    ensures CarriedOut(plan, r)
  {
    SampleStimuliFit(plan.activity);
    var run := ActivityRun(1, plan.activity, plan.planned, None, false, RecordedConfig(plan.config), None,
        SampleStimuli(plan.activity));
    var items := seq(|plan.items|, k requires 0 <= k < |plan.items| => RecordedItem(plan.items[k], 1));
    r := ActivityRecord([run], items, []);
  }

  // A zero response time is planned without complaint; the plan can be carried
  // out, and no recording of it is accepted.
  lemma ZeroSecondsArePlanned() returns (req: Request, candidates: seq<Candidate>, plan: Plan, r: ActivityRecord)
    ensures req.override.Some? && req.override.value.response == Some(0)
    ensures Planned(req, candidates, plan) && CarriedOut(plan, r)
    ensures forall p, x :: Planned(req, candidates, p) && CarriedOut(p, x) ==> !RecordingOk(x)
  {
    req := Request(Situational, Auto, None, None, Some(NO_CONFIG.(response := Some(0))), None, None);
    candidates := [Candidate("k", [])];
    var lists := EligibleLists(req, Chosen(req, candidates));
    assert Chosen(req, candidates) == candidates;
    assert Keep([], CompatibleDrills(Situational)) == [];
    assert |EligibleOf(req, candidates[0])| == 1;
    assert NoneEmpty(lists);
    plan := PlanExists(req, candidates);
    r := RunExists(plan);
    forall p, x | Planned(req, candidates, p) && CarriedOut(p, x)
      ensures !RecordingOk(x)
    {
      PlansCanBeRecorded(req, candidates, p, x);
    }
  }
}
