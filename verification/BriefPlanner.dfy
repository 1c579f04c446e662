// The practice brief for an activity: how many items, which targets take which
// turns, with which drill and in which phase (src/db.rs, practice_brief and
// eligible_recommendations; src/activities.rs, phase_for_item).
module BriefPlanner {
  import opened Outcomes
  import opened SessionModel
  import opened Activities
  import opened RoundRobin

  datatype Stage = Controlled | Fluency | Recognition | TransferStage

  datatype Recommendation = Recommendation(drill: DrillType, stage: Stage, weight: real, distance: int, source: string)

  // Alphabetical positions of the wire names.
  function DrillRank(d: DrillType): nat {
    match d
    case DialogueCompletion => 0
    case ErrorCorrection => 1
    case Fluency432 => 2
    case MicroStory => 3
    case MinimalPairChoice => 4
    case QuestionAnswer => 5
    case Retell => 6
    case SentenceCombining => 7
    case SentenceCompletion => 8
    case SentenceTransformation => 9
    case SituationalResponse => 10
    case Translation => 11
  }

  function StageRank(s: Stage): nat {
    match s
    case Controlled => 0
    case Fluency => 1
    case Recognition => 2
    case TransferStage => 3
  }

  // The order of the eligible list: heavier first, then by drill and stage name.
  predicate Precedes(a: Recommendation, b: Recommendation) {
    || a.weight > b.weight
    || (a.weight == b.weight && DrillRank(a.drill) < DrillRank(b.drill))
    || (a.weight == b.weight && a.drill == b.drill && StageRank(a.stage) < StageRank(b.stage))
  }

  // What a stable sort by that order puts first.
  function Leading(recs: seq<Recommendation>): (r: Recommendation)
    requires recs != []
    ensures r in recs && forall k :: 0 <= k < |recs| ==> !Precedes(recs[k], r)
  {
    if |recs| == 1 then recs[0]
    else
      var rest := Leading(recs[1..]);
      assert forall k :: 0 < k < |recs| ==> recs[k] == recs[1..][k - 1];
      if Precedes(rest, recs[0]) then rest else recs[0]
  }

  predicate DistinctKinds(recs: seq<Recommendation>) {
    forall i, j :: 0 <= i < j < |recs| ==> recs[i].drill != recs[j].drill || recs[i].stage != recs[j].stage
  }

  lemma RanksTellApart(a: Recommendation, b: Recommendation)
    ensures DrillRank(a.drill) == DrillRank(b.drill) ==> a.drill == b.drill
    ensures StageRank(a.stage) == StageRank(b.stage) ==> a.stage == b.stage
  {
  }

  // Recommendations of different kinds never tie.
  lemma KindsNeverTie(a: Recommendation, b: Recommendation)
    requires a.drill != b.drill || a.stage != b.stage
    ensures Precedes(a, b) || Precedes(b, a)
    ensures !(Precedes(a, b) && Precedes(b, a))
  {
    RanksTellApart(a, b);
  }

  // Two listings of the same recommendations.
  predicate Alike(xs: seq<Recommendation>, ys: seq<Recommendation>) {
    || xs == ys
    || (&& DistinctKinds(xs) && DistinctKinds(ys)
        && (forall r :: r in xs ==> r in ys) && forall r :: r in ys ==> r in xs)
  }

  lemma {:induction false} LeadingIgnoresOrder(xs: seq<Recommendation>, ys: seq<Recommendation>)
    requires Alike(xs, ys) && xs != [] && ys != []
    ensures Leading(xs) == Leading(ys)
  {
    var a, b := Leading(xs), Leading(ys);
    if a != b {
      assert a in ys && b in xs;
      var i :| 0 <= i < |xs| && xs[i] == a;
      var j :| 0 <= j < |xs| && xs[j] == b;
      KindsNeverTie(a, b);
    }
  }

  datatype Mix = Auto | ProductionFocused | TranslationOnly | RecognitionToProduction | FluencyMix | Custom

  datatype Request = Request(
    activity: Activity, mix: Mix, count: Option<nat>, planned: Option<nat>, override: Option<Config>,
    allowed: Option<seq<DrillType>>, explicitKeys: Option<nat>)

  // A candidate target with its stored recommendations.
  datatype Candidate = Candidate(key: string, recommendations: seq<Recommendation>)

  datatype PlannedItem = PlannedItem(no: nat, drill: DrillType, target: string, phase: ItemPhase, seconds: Option<nat>)

  datatype Plan = Plan(
    activity: Activity, config: Config, planned: Option<nat>, targets: seq<string>, allocations: seq<nat>,
      items: seq<PlannedItem>)

  datatype PlanError = BadRequest | NoTarget | NoCompatibleDrill | CouldNotCover

  // ----- eligible drills

  function Keep(recs: seq<Recommendation>, drills: seq<DrillType>): (r: seq<Recommendation>)
    ensures forall x :: x in r <==> x in recs && x.drill in drills
  {
    if recs == [] then []
    else
      var rest := Keep(recs[1..], drills);
      assert recs == [recs[0]] + recs[1..];
      if recs[0].drill in drills then [recs[0]] + rest else rest
  }

  function Fallback(drills: seq<DrillType>): (r: seq<Recommendation>)
    ensures |r| == |drills| && forall k :: 0 <= k < |r| ==> r[k].drill == drills[k]
  {
    seq(|drills|, k requires 0 <= k < |drills| =>
      Recommendation(drills[k],
                     if drills[k] == SentenceTransformation || drills[k] == DialogueCompletion then Controlled
                     else TransferStage,
                     1.0, 0x7FFF_FFFF_FFFF_FFFF, "activity_fallback"))
  }

  const PRODUCTION: seq<DrillType> :=
    [SituationalResponse, SentenceTransformation, QuestionAnswer, DialogueCompletion, MicroStory, Retell,
      SentenceCombining,
     SentenceCompletion]

  predicate MixFits(mix: Mix, allowed: Option<seq<DrillType>>) {
    && mix != TranslationOnly && mix != RecognitionToProduction && mix != FluencyMix
    && (mix == Custom ==> allowed.Some? && allowed.value != [])
  }

  function EligibleFor(a: Activity, mix: Mix, allowed: Option<seq<DrillType>>,
                       database: seq<Recommendation>): (r: seq<Recommendation>)
    ensures forall x :: x in r ==> x.drill in CompatibleDrills(a)
  {
    var stored := Keep(database, CompatibleDrills(a));
    var compatible := if stored == [] then Fallback(CompatibleDrills(a)) else stored;
    var permitted := if allowed.Some? then Keep(compatible, allowed.value) else compatible;
    if mix == ProductionFocused then Keep(permitted, PRODUCTION) else permitted
  }

  lemma {:induction false} KeepsKindsDistinct(recs: seq<Recommendation>, drills: seq<DrillType>)
    requires DistinctKinds(recs)
    ensures DistinctKinds(Keep(recs, drills))
  {
    if recs != [] {
      KeepsKindsDistinct(recs[1..], drills);
      var rest := Keep(recs[1..], drills);
      forall k | 0 <= k < |rest|
        ensures rest[k].drill != recs[0].drill || rest[k].stage != recs[0].stage
      {
        assert rest[k] in recs[1..];
      }
    }
  }

  lemma {:induction false} KeepAlike(xs: seq<Recommendation>, ys: seq<Recommendation>, drills: seq<DrillType>)
    requires Alike(xs, ys)
    ensures Alike(Keep(xs, drills), Keep(ys, drills)) && (Keep(xs, drills) == [] <==> Keep(ys, drills) == [])
  {
    if xs != ys {
      KeepsKindsDistinct(xs, drills);
      KeepsKindsDistinct(ys, drills);
    }
    if Keep(xs, drills) != [] {
      assert Keep(xs, drills)[0] in Keep(ys, drills);
    }
    if Keep(ys, drills) != [] {
      assert Keep(ys, drills)[0] in Keep(xs, drills);
    }
  }

  lemma PermittedAlike(mix: Mix, allowed: Option<seq<DrillType>>, xs: seq<Recommendation>, ys: seq<Recommendation>)
    requires Alike(xs, ys) && (xs == [] <==> ys == [])
    ensures var permittedX := if allowed.Some? then Keep(xs, allowed.value) else xs;
            var permittedY := if allowed.Some? then Keep(ys, allowed.value) else ys;
            var x := if mix == ProductionFocused then Keep(permittedX, PRODUCTION) else permittedX;
            var y := if mix == ProductionFocused then Keep(permittedY, PRODUCTION) else permittedY;
            Alike(x, y) && (x == [] <==> y == [])
  {
    if allowed.Some? {
      KeepAlike(xs, ys, allowed.value);
    }
    var permittedX := if allowed.Some? then Keep(xs, allowed.value) else xs;
    var permittedY := if allowed.Some? then Keep(ys, allowed.value) else ys;
    KeepAlike(permittedX, permittedY, PRODUCTION);
  }

  lemma EligibleAlike(a: Activity, mix: Mix, allowed: Option<seq<DrillType>>, xs: seq<Recommendation>,
                      ys: seq<Recommendation>)
    requires Alike(xs, ys)
    ensures Alike(EligibleFor(a, mix, allowed, xs), EligibleFor(a, mix, allowed, ys))
    ensures EligibleFor(a, mix, allowed, xs) == [] <==> EligibleFor(a, mix, allowed, ys) == []
  {
    KeepAlike(xs, ys, CompatibleDrills(a));
    var storedX, storedY := Keep(xs, CompatibleDrills(a)), Keep(ys, CompatibleDrills(a));
    var fallback := Fallback(CompatibleDrills(a));
    PermittedAlike(mix, allowed, if storedX == [] then fallback else storedX,
      if storedY == [] then fallback else storedY);
  }

  // ----- counts

  function Count(req: Request): nat {
    if SingleResponse(req.activity) then 1 else if req.count.Some? then req.count.value else DefaultCount(req.activity)
  }

  function TargetLimit(req: Request, candidates: nat): nat {
    if req.explicitKeys.Some? then candidates
    else
      var half := (Count(req) + 1) / 2;
      if half < 1 then 1 else half
  }

  function TargetCount(req: Request, candidates: nat): nat {
    if candidates < TargetLimit(req, candidates) then candidates else TargetLimit(req, candidates)
  }

  // The configuration the plan carries, once completed and accepted.
  function PlanConfig(req: Request): Option<Config> {
    var merged := MergedConfig(req.activity, req.override);
    if merged.None? then None
    else
      var c := if req.activity == QuestionSprint && (req.override.None? || req.override.value.questions.None?)
               then merged.value.(questions := Some(Count(req))) else merged.value;
      if req.activity == QuestionSprint && c.questions != Some(Count(req)) then None
      else if req.activity == RolePlay && c.complications.Some? && c.complications.value >= Count(req) then None
      else Some(c)
  }

  predicate RequestFits(req: Request) {
    && MixFits(req.mix, req.allowed)
    && (SingleResponse(req.activity) && req.count.Some? ==> req.count.value == 1)
    && 1 <= Count(req) <= 20 && Within(req.planned, 1, 7200)
    && PlanConfig(req).Some?
    && (req.explicitKeys.Some? ==> req.explicitKeys.value <= Count(req))
  }

  function EligibleOf(req: Request, c: Candidate): seq<Recommendation> {
    EligibleFor(req.activity, req.mix, req.allowed, c.recommendations)
  }

  function Chosen(req: Request, candidates: seq<Candidate>): seq<Candidate> {
    candidates[..TargetCount(req, |candidates|)]
  }

  type DrillLists = seq<seq<Recommendation>>

  function EligibleLists(req: Request, targets: seq<Candidate>): (lists: DrillLists)
    ensures |lists| == |targets|
  {
    seq(|targets|, i requires 0 <= i < |targets| => EligibleOf(req, targets[i]))
  }

  predicate NoneEmpty(lists: DrillLists) {
    forall i :: 0 <= i < |lists| ==> lists[i] != []
  }

  predicate Plannable(req: Request, candidates: seq<Candidate>) {
    RequestFits(req) && candidates != [] && NoneEmpty(EligibleLists(req, Chosen(req, candidates)))
  }

  // ----- the plan

  function PhaseFor(a: Activity, index: nat, total: nat, complications: nat): ItemPhase {
    match a
    case CorrectiveConversation => if index == 0 then InitialPhase else FollowUp
    case RolePlay =>
      if index == 0 then InitialPhase
      else if complications > 0 && index >= total - complications then Complication
      else FollowUp
    case _ => InitialPhase
  }

  function Complications(c: Config): nat {
    if c.complications.Some? then c.complications.value else 0
  }

  function ItemFor(req: Request, keys: seq<string>, lists: DrillLists, config: Config, total: nat, k: nat,
                   turn: nat): PlannedItem
    requires turn < |keys| == |lists| && lists[turn] != []
  {
    PlannedItem(k + 1, Leading(lists[turn]).drill, keys[turn],
                PhaseFor(req.activity, k, total, Complications(config)), config.response)
  }

  function ItemsFor(req: Request, keys: seq<string>, lists: DrillLists, config: Config,
                    turns: seq<nat>): (items: seq<PlannedItem>)
    requires |keys| == |lists| && NoneEmpty(lists) && forall k :: 0 <= k < |turns| ==> turns[k] < |keys|
    ensures |items| == |turns|
    ensures forall k :: 0 <= k < |turns| ==> items[k] == ItemFor(req, keys, lists, config, |turns|, k, turns[k])
  {
    seq(|turns|, k requires 0 <= k < |turns| => ItemFor(req, keys, lists, config, |turns|, k, turns[k]))
  }

  function Keys(targets: seq<Candidate>): (keys: seq<string>)
    ensures |keys| == |targets|
  {
    seq(|targets|, i requires 0 <= i < |targets| => targets[i].key)
  }

  // Item k goes to target k mod n, every target gets exactly its allocation,
  // and each item has its target's leading eligible drill.
  ghost predicate Planned(req: Request, candidates: seq<Candidate>, plan: Plan) {
    var total, targets := Count(req), Chosen(req, candidates);
    var n, lists := |targets|, EligibleLists(req, targets);
    && Plannable(req, candidates) && 1 <= n <= total
    && plan.activity == req.activity && PlanConfig(req) == Some(plan.config)
    && plan.planned == Or(req.planned, DefaultDuration(req.activity))
    && plan.targets == Keys(targets) && plan.allocations == Shares(total, n)
    && |plan.items| == total
    && forall k :: 0 <= k < total ==> plan.items[k] == ItemFor(req, plan.targets, lists, plan.config, total, k, k % n)
  }

  lemma TargetsFit(req: Request, candidates: seq<Candidate>)
    requires RequestFits(req) && candidates != [] && (req.explicitKeys.Some? ==> |candidates| <= req.explicitKeys.value)
    ensures 1 <= TargetCount(req, |candidates|) <= |candidates| && TargetCount(req, |candidates|) <= Count(req)
  {
  }

  method AllEligible(lists: DrillLists) returns (ok: bool)
    ensures ok <==> NoneEmpty(lists)
  {
    var i := 0;
    while i < |lists|
      invariant 0 <= i <= |lists|
      invariant forall j :: 0 <= j < i ==> lists[j] != []
    {
      if lists[i] == [] {
        return false;
      }
      i := i + 1;
    }
    ok := true;
  }

  // Counting, allocating and taking turns, once the lists are known.
  method Arrange(req: Request, keys: seq<string>, lists: DrillLists, config: Config, total: nat)
      returns (r: Result<Plan, PlanError>)
    requires 1 <= |keys| == |lists| <= total && NoneEmpty(lists)
    ensures r.Success?
    ensures var plan := r.value;
            && plan.activity == req.activity && plan.config == config &&
               plan.planned == Or(req.planned, DefaultDuration(req.activity))
            && plan.targets == keys && plan.allocations == Shares(total, |keys|) && |plan.items| == total
            && forall k :: 0 <= k < total ==> plan.items[k] == ItemFor(req, keys, lists, config, total, k, k % |keys|)
  {
    var allocations := Allocate(total, |keys|);
    var covered, turns := TakeTurns(total, allocations);
    if !covered {
      return Failure(CouldNotCover);
    }
    var items := ItemsFor(req, keys, lists, config, turns);
    r := Success(Plan(req.activity, config, Or(req.planned, DefaultDuration(req.activity)), keys, allocations, items));
  }

  // candidates are the loaded targets in their final order; with explicit keys
  // these are the rows of those keys.
  method PracticeBrief(req: Request, candidates: seq<Candidate>) returns (r: Result<Plan, PlanError>)
    requires req.explicitKeys.Some? ==> |candidates| <= req.explicitKeys.value
    ensures r.Success? <==> Plannable(req, candidates)
    ensures r.Success? ==> Planned(req, candidates, r.value)
    ensures r.Failure? ==> r.error != CouldNotCover
  {
    if !RequestFits(req) {
      return Failure(BadRequest);
    }
    if candidates == [] {
      return Failure(NoTarget);
    }
    TargetsFit(req, candidates);
    var targets := Chosen(req, candidates);
    var lists := EligibleLists(req, targets);
    var eligible := AllEligible(lists);
    if !eligible {
      return Failure(NoCompatibleDrill);
    }
    r := Arrange(req, Keys(targets), lists, PlanConfig(req).value, Count(req));
  }

  // ----- the order of a candidate's stored recommendations

  // The same candidates, whose recommendations may be listed in another order.
  predicate CandidatesAlike(cs: seq<Candidate>, ds: seq<Candidate>) {
    && |cs| == |ds|
    && forall i :: 0 <= i < |cs| ==> cs[i].key == ds[i].key && Alike(cs[i].recommendations, ds[i].recommendations)
  }

  lemma ListsAlike(req: Request, cs: seq<Candidate>, ds: seq<Candidate>, i: nat)
    requires CandidatesAlike(cs, ds) && i < |Chosen(req, cs)|
    ensures |Chosen(req, cs)| == |Chosen(req, ds)| && Keys(Chosen(req, cs)) == Keys(Chosen(req, ds))
    ensures var xs, ys := EligibleLists(req, Chosen(req, cs))[i], EligibleLists(req, Chosen(req, ds))[i];
            Alike(xs, ys) && (xs == [] <==> ys == []) && (xs != [] ==> Leading(xs) == Leading(ys))
  {
    EligibleAlike(req.activity, req.mix, req.allowed, cs[i].recommendations, ds[i].recommendations);
    var xs, ys := EligibleOf(req, cs[i]), EligibleOf(req, ds[i]);
    if xs != [] {
      LeadingIgnoresOrder(xs, ys);
    }
  }

  lemma PlannableAlike(req: Request, cs: seq<Candidate>, ds: seq<Candidate>)
    requires CandidatesAlike(cs, ds) && Plannable(req, cs)
    ensures Plannable(req, ds)
  {
    var xs, ys := EligibleLists(req, Chosen(req, cs)), EligibleLists(req, Chosen(req, ds));
    forall i | 0 <= i < |ys|
      ensures ys[i] != []
    {
      ListsAlike(req, cs, ds, i);
      assert xs[i] != [];
    }
  }

  // A brief does not depend on the order in which the stored recommendations
  // come out of their hash table.
  lemma PlanIgnoresListOrder(req: Request, cs: seq<Candidate>, ds: seq<Candidate>, plan: Plan)
    requires CandidatesAlike(cs, ds) && Planned(req, cs, plan)
    ensures Planned(req, ds, plan)
  {
    PlannableAlike(req, cs, ds);
    var n, total := |Chosen(req, cs)|, Count(req);
    var xs, ys := EligibleLists(req, Chosen(req, cs)), EligibleLists(req, Chosen(req, ds));
    ListsAlike(req, cs, ds, 0);
    forall k | 0 <= k < total
      ensures plan.items[k] == ItemFor(req, plan.targets, ys, plan.config, total, k, k % n)
    {
      ListsAlike(req, cs, ds, k % n);
      assert plan.items[k] == ItemFor(req, plan.targets, xs, plan.config, total, k, k % n);
      assert xs[k % n] != [];
    }
  }
}
