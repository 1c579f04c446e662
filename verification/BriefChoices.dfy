// What a practice brief contains, told from the request and the stored
// recommendations of its targets: which drill each item gets, and the rest of
// each item (src/db.rs, eligible_recommendations and practice_brief).
module BriefChoices {
  import opened Outcomes
  import opened Texts
  import opened SessionModel
  import opened Activities
  import opened RoundRobin
  import opened BriefPlanner

  // ----- the order of recommendations, by wire names

  function StageName(s: Stage): string {
    match s
    case Controlled => "controlled"
    case Fluency => "fluency"
    case Recognition => "recognition"
    case TransferStage => "transfer"
  }

  // Heavier first, then by the name of the drill, then by the name of the stage.
  predicate ComesBefore(a: Recommendation, b: Recommendation) {
    || a.weight > b.weight
    || (a.weight == b.weight && TextLess(DrillName(a.drill), DrillName(b.drill)))
    || (a.weight == b.weight && a.drill == b.drill && TextLess(StageName(a.stage), StageName(b.stage)))
  }

  const DRILL_NAMES: seq<string> :=
    ["dialogue_completion", "error_correction", "fluency_4_3_2", "micro_story", "minimal_pair_choice",
     "question_answer", "retell", "sentence_combining", "sentence_completion", "sentence_transformation",
     "situational_response", "translation"]

  const STAGE_NAMES: seq<string> := ["controlled", "fluency", "recognition", "transfer"]

  lemma DrillNamesAscend()
    ensures NextIsGreater(DRILL_NAMES)
  {
    forall i | 0 <= i < |DRILL_NAMES| - 1
      ensures TextLess(DRILL_NAMES[i], DRILL_NAMES[i + 1])
    {
      if i in {3, 7, 8, 9} {
        CloseNames(i);
      } else {
        FarNames(i);
      }
    }
  }

  // Names that start with different letters.
  lemma FarNames(i: nat)
    requires i < |DRILL_NAMES| - 1 && i !in {3, 7, 8, 9}
    ensures TextLess(DRILL_NAMES[i], DRILL_NAMES[i + 1])
  {
  }

  // Names that start alike.
  lemma CloseNames(i: nat)
    requires i in {3, 7, 8, 9}
    ensures TextLess(DRILL_NAMES[i], DRILL_NAMES[i + 1])
  {
    if i == 3 {
      MiNames();
      LessAfter("mi", "cro_story", "nimal_pair_choice");
    } else if i == 7 {
      CombiningName();
      CompletionName();
      LessAfter("sentence_com", "bining", "pletion");
    } else if i == 8 {
      CompletionName();
      TransformationName();
      LessAfter("sentence_", "completion", "transformation");
    } else {
      TransformationName();
      LessAfter("s", "entence_transformation", "ituational_response");
    }
  }

  lemma MiNames()
    ensures DRILL_NAMES[3] == "mi" + "cro_story" && DRILL_NAMES[4] == "mi" + "nimal_pair_choice"
  {
  }

  lemma CombiningName()
    ensures DRILL_NAMES[7] == "sentence_com" + "bining"
  {
  }

  lemma CompletionName()
    ensures DRILL_NAMES[8] == "sentence_com" + "pletion" == "sentence_" + "completion"
  {
  }

  lemma TransformationName()
    ensures DRILL_NAMES[9] == "sentence_" + "transformation" == "s" + "entence_transformation"
    ensures DRILL_NAMES[10] == "s" + "ituational_response"
  {
  }

  lemma StageNamesAscend()
    ensures NextIsGreater(STAGE_NAMES)
  {
  }

  lemma NamedByRank(d: DrillType, s: Stage)
    ensures DrillRank(d) < |DRILL_NAMES| && DrillName(d) == DRILL_NAMES[DrillRank(d)]
    ensures StageRank(s) < |STAGE_NAMES| && StageName(s) == STAGE_NAMES[StageRank(s)]
  {
  }

  // The order of the eligible list is the order by weight and wire names.
  lemma PrecedesByName(a: Recommendation, b: Recommendation)
    ensures Precedes(a, b) <==> ComesBefore(a, b)
  {
    DrillNamesAscend();
    StageNamesAscend();
    NamedByRank(a.drill, a.stage);
    NamedByRank(b.drill, b.stage);
    RankedByName(DRILL_NAMES, DrillRank(a.drill), DrillRank(b.drill));
    RankedByName(STAGE_NAMES, StageRank(a.stage), StageRank(b.stage));
  }

  // ----- which recommendations may be chosen

  // A target's own recommendation, or the fallback when none of its own fits the activity.
  predicate Offered(a: Activity, stored: seq<Recommendation>, x: Recommendation) {
    x.drill in CompatibleDrills(a) &&
    if exists s :: s in stored && s.drill in CompatibleDrills(a) then x in stored else IsFallback(x)
  }

  predicate IsFallback(x: Recommendation) {
    && x.weight == 1.0 && x.distance == 0x7FFF_FFFF_FFFF_FFFF && x.source == "activity_fallback"
    && x.stage ==
       if x.drill == SentenceTransformation || x.drill == DialogueCompletion then Controlled else TransferStage
  }

  predicate Permitted(req: Request, stored: seq<Recommendation>, x: Recommendation) {
    && Offered(req.activity, stored, x)
    && (match req.allowed case Some(drills) => x.drill in drills case None => true)
    && (req.mix == ProductionFocused ==>
          x.drill in {SituationalResponse, SentenceTransformation, QuestionAnswer, DialogueCompletion, MicroStory,
                      Retell, SentenceCombining, SentenceCompletion})
  }

  lemma {:induction false} OfferedIff(a: Activity, stored: seq<Recommendation>, x: Recommendation)
    ensures var kept := Keep(stored, CompatibleDrills(a));
            Offered(a, stored, x) <==> x in (if kept == [] then Fallback(CompatibleDrills(a)) else kept)
  {
    var drills := CompatibleDrills(a);
    var kept := Keep(stored, drills);
    if kept == [] {
      forall s | s in stored
        ensures s.drill !in drills
      {
        assert s !in kept;
      }
      FallbackIff(drills, x);
    } else {
      assert kept[0] in kept;
    }
  }

  lemma FallbackIff(drills: seq<DrillType>, x: Recommendation)
    ensures x in Fallback(drills) <==> x.drill in drills && IsFallback(x)
  {
    if x.drill in drills && IsFallback(x) {
      var k :| 0 <= k < |drills| && drills[k] == x.drill;
      assert Fallback(drills)[k] == x;
    }
  }

  lemma PermittedIff(req: Request, c: Candidate, x: Recommendation)
    ensures x in EligibleOf(req, c) <==> Permitted(req, c.recommendations, x)
  {
    OfferedIff(req.activity, c.recommendations, x);
    assert PRODUCTION == [SituationalResponse, SentenceTransformation, QuestionAnswer, DialogueCompletion, MicroStory,
                          Retell, SentenceCombining, SentenceCompletion];
  }

  // How many targets a brief takes: those asked for by key, else at most one for
  // two items.
  function TargetsTaken(req: Request, candidates: nat): nat {
    var limit := if req.explicitKeys.Some? then candidates else (ItemCount(req) + 1) / 2;
    if candidates < limit then candidates else limit
  }

  function ItemCount(req: Request): nat {
    match req.activity
    case PictureNarration | RetellReconstruction | Dictogloss | VoiceDiary | ReadCloseExplain => 1
    case _ => match req.count case Some(n) => n case None => DefaultCount(req.activity)
  }

  lemma CountsAgree(req: Request, candidates: nat)
    requires RequestFits(req)
    ensures Count(req) == ItemCount(req) && TargetCount(req, candidates) == TargetsTaken(req, candidates)
  {
  }

  // ----- the choice of drills

  // Every item has the drill of the permitted recommendation of its target that
  // comes first.
  lemma PlanChooses(req: Request, candidates: seq<Candidate>, plan: Plan, k: nat) returns (x: Recommendation)
    requires Planned(req, candidates, plan) && k < |plan.items|
    ensures var n := TargetsTaken(req, |candidates|);
            && 0 < n <= |candidates| && plan.items[k].target == candidates[k % n].key
            && plan.items[k].drill == x.drill && Permitted(req, candidates[k % n].recommendations, x)
            && forall y :: Permitted(req, candidates[k % n].recommendations, y) ==> !ComesBefore(y, x)
  {
    CountsAgree(req, |candidates|);
    var targets := Chosen(req, candidates);
    var n := |targets|;
    var list := EligibleOf(req, targets[k % n]);
    assert EligibleLists(req, targets)[k % n] == list;
    x := Leading(list);
    PermittedIff(req, candidates[k % n], x);
    forall y | Permitted(req, candidates[k % n].recommendations, y)
      ensures !ComesBefore(y, x)
    {
      PermittedIff(req, candidates[k % n], y);
      PrecedesByName(y, x);
    }
  }

  ghost predicate HasPermitted(req: Request, stored: seq<Recommendation>) {
    exists x :: Permitted(req, stored, x)
  }

  lemma EligibleIff(req: Request, c: Candidate)
    ensures EligibleOf(req, c) != [] <==> HasPermitted(req, c.recommendations)
  {
    if EligibleOf(req, c) != [] {
      PermittedIff(req, c, EligibleOf(req, c)[0]);
    }
    if x :| Permitted(req, c.recommendations, x) {
      PermittedIff(req, c, x);
    }
  }

  // A fitting request with a target is refused exactly when one of its targets
  // has no permitted recommendation.
  lemma RefusedForWantOfDrills(req: Request, candidates: seq<Candidate>)
    requires RequestFits(req) && candidates != []
    ensures TargetsTaken(req, |candidates|) <= |candidates|
    ensures Plannable(req, candidates) <==>
            forall i :: 0 <= i < TargetsTaken(req, |candidates|) ==> HasPermitted(req, candidates[i].recommendations)
  {
    CountsAgree(req, |candidates|);
    var targets := Chosen(req, candidates);
    var lists := EligibleLists(req, targets);
    forall i | 0 <= i < |targets|
      ensures lists[i] != [] <==> HasPermitted(req, candidates[i].recommendations)
    {
      EligibleIff(req, candidates[i]);
      assert lists[i] == EligibleOf(req, targets[i]);
    }
  }

  // ----- the rest of a plan

  // The phase of item k of total, with the configured number of complications.
  predicate InPhase(a: Activity, k: nat, total: nat, complications: Option<nat>, phase: ItemPhase) {
    match a
    case CorrectiveConversation => phase == if k == 0 then InitialPhase else FollowUp
    case RolePlay =>
      var last := match complications case Some(n) => n case None => 0;
      phase == if k == 0 then InitialPhase else if k >= total - last then Complication else FollowUp
    case _ => phase == InitialPhase
  }

  function OwnOr<T>(own: Option<T>, otherwise: Option<T>): Option<T> {
    match own case Some(v) => Some(v) case None => otherwise
  }

  // Each field of the configuration is the request's, or else the activity's; a
  // sprint asks as many questions as it has items.
  predicate ConfigSays(req: Request, c: Config) {
    var own := match req.override case Some(o) => o case None => NO_CONFIG;
    var usual := DefaultConfig(req.activity);
    && c.preparation == OwnOr(own.preparation, usual.preparation)
    && c.response == OwnOr(own.response, usual.response)
    && c.exposures == OwnOr(own.exposures, usual.exposures)
    && c.hidden == OwnOr(own.hidden, usual.hidden)
    && c.followups == OwnOr(own.followups, usual.followups)
    && c.complications == OwnOr(own.complications, usual.complications)
    && c.questions == (if req.activity == QuestionSprint then Some(ItemCount(req))
                       else OwnOr(own.questions, usual.questions))
  }

  // The items of a plan in order: as many as asked for, each for its target in
  // turn, in its phase, with the time to respond.
  lemma PlanSays(req: Request, candidates: seq<Candidate>, plan: Plan)
    requires Planned(req, candidates, plan)
    ensures var n := TargetsTaken(req, |candidates|);
            && plan.activity == req.activity && ConfigSays(req, plan.config)
            && plan.planned == (match req.planned
                                case Some(seconds) => Some(seconds)
                                case None => if req.activity == CorrectiveConversation then Some(1200) else None)
            && |plan.targets| == n <= |candidates| && (forall i :: 0 <= i < n ==> plan.targets[i] == candidates[i].key)
            && |plan.items| == ItemCount(req) && |plan.allocations| == n > 0
            && (forall k :: 0 <= k < |plan.items| ==> ItemSays(req, plan, k))
            && forall i :: 0 <= i < n ==>
                 plan.allocations[i] == |set k: nat | k < |plan.items| && k % n == i|
  {
    CountsAgree(req, |candidates|);
    var n := TargetCount(req, |candidates|);
    forall i | 0 <= i < n
      ensures plan.allocations[i] == |set k: nat | k < |plan.items| && k % n == i|
    {
      VisitsCount(|plan.items|, n, i);
    }
    forall k | 0 <= k < |plan.items|
      ensures ItemSays(req, plan, k)
    {
      ItemIs(req, candidates, plan, k);
    }
  }

  predicate ItemSays(req: Request, plan: Plan, k: nat)
    requires k < |plan.items| && |plan.targets| > 0
  {
    var item := plan.items[k];
    && item.no == k + 1 && item.target == plan.targets[k % |plan.targets|] && item.seconds == plan.config.response
    && InPhase(req.activity, k, |plan.items|, plan.config.complications, item.phase)
  }

  lemma ItemIs(req: Request, candidates: seq<Candidate>, plan: Plan, k: nat)
    requires Planned(req, candidates, plan) && k < |plan.items|
    ensures |plan.targets| > 0 && ItemSays(req, plan, k)
  {
  }
}
