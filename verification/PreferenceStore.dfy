// Versioned preferences: a patch is computed from the version it was read at
// and stored only if that version still stands (src/production.rs, update).
module PreferenceStore {
  import opened Outcomes
  import opened Texts
  import opened PreferenceMerge

  // ----- what may be stored

  predicate NumberIn(v: Json, low: int, high: int) {
    v.Number? && low <= v.n <= high
  }

  predicate HasFields(v: Json, names: set<string>) {
    v.Object? && v.fields.Keys == names
  }

  predicate AllBools(v: Json, names: set<string>) {
    HasFields(v, names) && forall k :: k in v.fields ==> v.fields[k].Bool?
  }

  const MODES: set<string> := {"spontaneous", "controlled", "mixed"}
  const SKILLS: set<string> := {"writing", "speaking", "reading", "listening"}
  const PROMPT_RULES: set<string> :=
    {"allow_required_constructions", "allow_sentence_starters", "allow_model_answer_before_attempt",
     "prefer_actual_recent_experiences", "one_turn_at_a_time", "adaptive_followups"}
  const CORRECTION_RULES: set<string> :=
    {"after_round", "allow_communication_breakdown_exception", "quote_original_on_hint",
      "show_original_with_model_correction"}

  const DRILL_NAMES: set<string> :=
    {"translation", "situational_response", "sentence_transformation", "question_answer", "sentence_completion",
     "sentence_combining", "error_correction", "minimal_pair_choice", "dialogue_completion", "micro_story", "retell",
     "fluency_4_3_2"}

  predicate SkillsOk(v: Json) {
    v.List? && 1 <= |v.items| <= 4
    && forall i :: 0 <= i < |v.items| ==>
         v.items[i].Text? && v.items[i].s in SKILLS && forall j :: 0 <= j < i ==> v.items[j] != v.items[i]
  }

  predicate FocusOk(v: Json) {
    && HasFields(v, {"skills", "daily_minutes", "exam_practice_percent"})
    && SkillsOk(v.fields["skills"])
    && (v.fields["daily_minutes"].Null? || NumberIn(v.fields["daily_minutes"], 1, 240))
    && NumberIn(v.fields["exam_practice_percent"], 0, 100)
  }

  predicate BudgetOk(v: Json) {
    && HasFields(v, {"minimum", "maximum"})
    && NumberIn(v.fields["minimum"], 1, 50) && NumberIn(v.fields["maximum"], v.fields["minimum"].n, 50)
  }

  predicate CorrectionOk(v: Json) {
    && HasFields(v, CORRECTION_RULES + {"self_correction_attempts_before_model"})
    && NumberIn(v.fields["self_correction_attempts_before_model"], 0, 5)
    && forall k :: k in CORRECTION_RULES ==> v.fields[k].Bool?
  }

  predicate DrillsOk(v: Json) {
    v.List? && forall i :: 0 <= i < |v.items| ==> v.items[i].Text? && v.items[i].s in DRILL_NAMES
  }

  // The document reads back as preferences and passes the checks on them.
  predicate Valid(v: Json) {
    && HasFields(v, {"learning_focus", "default_practice_mode", "excluded_drill_types", "prompt_policy",
       "written_round_budget",
                     "correction_policy"})
    && FocusOk(v.fields["learning_focus"])
    && v.fields["default_practice_mode"].Text? && v.fields["default_practice_mode"].s in MODES
    && DrillsOk(v.fields["excluded_drill_types"])
    && AllBools(v.fields["prompt_policy"], PROMPT_RULES)
    && BudgetOk(v.fields["written_round_budget"])
    && CorrectionOk(v.fields["correction_policy"])
  }

  function Patched(prefs: Json, patch: Json): Option<Json> {
    var v := Merged(prefs, patch);
    if Valid(v) then Some(v) else None
  }

  // ----- the table and the calls in flight

  datatype Row = Row(version: nat, prefs: Json, source: string)

  datatype Request = Request(patch: Json, expected: nat, source: string)

  // A call between its read and its write.
  datatype Pending = Pending(request: Request, prefs: Json)

  datatype Accepted = Accepted(patch: Json, prefs: Json)

  // history records every accepted update, oldest first; the program keeps only the row.
  datatype Table = Table(row: Option<Row>, pending: map<nat, Pending>, history: seq<Accepted>)

  function Version(t: Table): nat {
    if t.row.Some? then t.row.value.version else 0
  }

  function Current(defaults: Json, t: Table): Json {
    if t.row.Some? then t.row.value.prefs else defaults
  }

  // update up to the write: checks the source and the version, computes the result.
  function Begin(defaults: Json, t: Table, call: nat, r: Request): Table {
    if !TextOk(r.source, 1000) || !r.patch.Object? || r.expected != Version(t) then t
    else
      var p := Patched(Current(defaults, t), r.patch);
      if p.None? then t else t.(pending := t.pending[call := Pending(r, p.value)])
  }

  // The conditional upsert: inserts when there is no row, else overwrites only
  // the version that was read.
  predicate WriteLands(t: Table, p: Pending) {
    t.row.None? || t.row.value.version == p.request.expected
  }

  function Commit(t: Table, call: nat): Table {
    if call !in t.pending then t
    else
      var p := t.pending[call];
      var rest := t.(pending := t.pending - {call});
      if WriteLands(t, p)
      then rest.(row := Some(Row(p.request.expected + 1, p.prefs, p.request.source)),
                 history := t.history + [Accepted(p.request.patch, p.prefs)])
      else rest
  }

  datatype Step = BeginStep(call: nat, request: Request) | CommitStep(call: nat)

  function Next(defaults: Json, t: Table, step: Step): Table {
    match step
    case BeginStep(call, r) => Begin(defaults, t, call, r)
    case CommitStep(call) => Commit(t, call)
  }

  function Run(defaults: Json, t: Table, steps: seq<Step>): Table
    decreases |steps|
  {
    if steps == [] then t else Run(defaults, Next(defaults, t, steps[0]), steps[1..])
  }

  // ----- what every interleaving keeps

  function At(defaults: Json, history: seq<Accepted>, version: nat): Json
    requires version <= |history|
  {
    if version == 0 then defaults else history[version - 1].prefs
  }

  ghost predicate Follows(defaults: Json, history: seq<Accepted>, i: nat)
    requires i < |history|
  {
    && history[i].patch.Object?
    && Patched(At(defaults, history, i), history[i].patch) == Some(history[i].prefs)
  }

  ghost predicate PendingOk(defaults: Json, history: seq<Accepted>, p: Pending) {
    && p.request.expected <= |history| && p.request.patch.Object?
    && Patched(At(defaults, history, p.request.expected), p.request.patch) == Some(p.prefs)
  }

  // The version counts the accepted updates, the row holds the last of them,
  // and each was computed from the one before it.
  ghost predicate Inv(defaults: Json, t: Table) {
    && Version(t) == |t.history| && Current(defaults, t) == At(defaults, t.history, |t.history|)
    && (t.row.Some? <==> t.history != [])
    && (forall i :: 0 <= i < |t.history| ==> Follows(defaults, t.history, i))
    && forall call :: call in t.pending ==> PendingOk(defaults, t.history, t.pending[call])
  }

  lemma HistoryGrows(defaults: Json, history: seq<Accepted>, a: Accepted)
    requires forall i :: 0 <= i < |history| ==> Follows(defaults, history, i)
    requires a.patch.Object? && Patched(At(defaults, history, |history|), a.patch) == Some(a.prefs)
    ensures forall i :: 0 <= i < |history + [a]| ==> Follows(defaults, history + [a], i)
    ensures forall v :: 0 <= v <= |history| ==> At(defaults, history + [a], v) == At(defaults, history, v)
  {
    var all := history + [a];
    forall i | 0 <= i < |all|
      ensures Follows(defaults, all, i)
    {
      assert At(defaults, all, i) == At(defaults, history, i);
      assert i < |history| ==> all[i] == history[i] && Follows(defaults, history, i);
    }
  }

  lemma BeginKeepsInv(defaults: Json, t: Table, call: nat, r: Request)
    requires Inv(defaults, t)
    ensures Inv(defaults, Begin(defaults, t, call, r))
  {
    var next := Begin(defaults, t, call, r);
    if next != t {
      forall c | c in next.pending
        ensures PendingOk(defaults, next.history, next.pending[c])
      {
        assert c != call ==> PendingOk(defaults, t.history, t.pending[c]);
      }
    }
  }

  lemma PendingKept(defaults: Json, t: Table, a: Accepted)
    requires Inv(defaults, t) && a.patch.Object? &&
             Patched(At(defaults, t.history, |t.history|), a.patch) == Some(a.prefs)
    ensures forall c :: c in t.pending ==> PendingOk(defaults, t.history + [a], t.pending[c])
  {
    HistoryGrows(defaults, t.history, a);
    forall c | c in t.pending
      ensures PendingOk(defaults, t.history + [a], t.pending[c])
    {
      assert PendingOk(defaults, t.history, t.pending[c]);
    }
  }

  lemma CommitKeepsInv(defaults: Json, t: Table, call: nat)
    requires Inv(defaults, t)
    ensures Inv(defaults, Commit(t, call))
  {
    if call in t.pending && WriteLands(t, t.pending[call]) {
      var p := t.pending[call];
      assert PendingOk(defaults, t.history, p);
      assert p.request.expected == |t.history|;
      var a := Accepted(p.request.patch, p.prefs);
      HistoryGrows(defaults, t.history, a);
      PendingKept(defaults, t, a);
    }
  }

  lemma StepKeepsInv(defaults: Json, t: Table, step: Step)
    requires Inv(defaults, t)
    ensures Inv(defaults, Next(defaults, t, step))
  {
    match step
    case BeginStep(call, r) => BeginKeepsInv(defaults, t, call, r);
    case CommitStep(call) => CommitKeepsInv(defaults, t, call);
  }

  // However reads and writes interleave, no accepted update is computed from a
  // version other than the one it replaces.
  lemma {:induction false} RunKeepsInv(defaults: Json, t: Table, steps: seq<Step>)
    requires Inv(defaults, t)
    ensures Inv(defaults, Run(defaults, t, steps))
    decreases |steps|
  {
    if steps != [] {
      StepKeepsInv(defaults, t, steps[0]);
      RunKeepsInv(defaults, Next(defaults, t, steps[0]), steps[1..]);
    }
  }

  // A step raises the version by one exactly when it accepts an update, and
  // then exactly the call that read the standing version is accepted.
  lemma VersionsRiseByOne(defaults: Json, t: Table, step: Step)
    requires Inv(defaults, t)
    ensures var next := Next(defaults, t, step);
            && Version(next) == Version(t) + |next.history| - |t.history| && t.history <= next.history
            && (next.history != t.history <==>
                  step.CommitStep? && step.call in t.pending && t.pending[step.call].request.expected == Version(t))
            && (next.history != t.history ==> Version(next) == Version(t) + 1)
  {
    StepKeepsInv(defaults, t, step);
    if step.CommitStep? && step.call in t.pending {
      assert PendingOk(defaults, t.history, t.pending[step.call]);
    }
  }

  // An accepted update leaves its own result, under the next version and the source
  // it named, and takes the call out of flight; a rejected one leaves the row alone.
  lemma CommitLeaves(defaults: Json, t: Table, call: nat)
    requires Inv(defaults, t) && call in t.pending
    ensures var next, r := Next(defaults, t, CommitStep(call)), t.pending[call].request;
            && next.pending == t.pending - {call}
            && (if r.expected == |t.history|
               then next.row == Some(Row(|t.history| + 1, t.pending[call].prefs, r.source))
               else next.row == t.row)
  {
    ReadEarlier(defaults, t, call);
    CommitOutcome(t, call);
  }

  lemma ReadEarlier(defaults: Json, t: Table, call: nat)
    requires Inv(defaults, t) && call in t.pending
    ensures t.pending[call].request.expected <= |t.history| == Version(t) && (t.row.Some? <==> t.history != [])
  {
    assert PendingOk(defaults, t.history, t.pending[call]);
  }

  lemma CommitOutcome(t: Table, call: nat)
    requires call in t.pending && t.pending[call].request.expected <= |t.history| == Version(t)
    requires t.row.Some? <==> t.history != []
    ensures var next, r := Commit(t, call), t.pending[call].request;
            && next.pending == t.pending - {call}
            && (if r.expected == |t.history|
               then next.row == Some(Row(|t.history| + 1, t.pending[call].prefs, r.source))
               else next.row == t.row)
  {
  }

  // Accepted updates are never taken back.
  lemma {:induction false} HistoryStays(defaults: Json, t: Table, steps: seq<Step>)
    requires Inv(defaults, t)
    ensures t.history <= Run(defaults, t, steps).history
    decreases |steps|
  {
    if steps != [] {
      VersionsRiseByOne(defaults, t, steps[0]);
      StepKeepsInv(defaults, t, steps[0]);
      HistoryStays(defaults, Next(defaults, t, steps[0]), steps[1..]);
    }
  }

  // Of two calls that read the same version at most one is accepted: once the
  // first is, the other is turned away, however much later it writes and
  // whatever happens in between.
  lemma {:induction false} LostUpdateImpossible(defaults: Json, t: Table, a: nat, b: nat, steps: seq<Step>)
    requires Inv(defaults, t) && a in t.pending && b in t.pending
    requires t.pending[a].request.expected == t.pending[b].request.expected && Commit(t, a).history != t.history
    requires var later := Run(defaults, Commit(t, a), steps); b in later.pending && later.pending[b] == t.pending[b]
    ensures var later := Run(defaults, Commit(t, a), steps);
            Commit(later, b).history == later.history && Commit(later, b).row == later.row
  {
    StepKeepsInv(defaults, t, CommitStep(a));
    VersionsRiseByOne(defaults, t, CommitStep(a));
    HistoryStays(defaults, Commit(t, a), steps);
    RunKeepsInv(defaults, Commit(t, a), steps);
    VersionsRiseByOne(defaults, Run(defaults, Commit(t, a), steps), CommitStep(b));
  }

  lemma AcceptedIsValid(defaults: Json, t: Table)
    requires Inv(defaults, t) && t.row.Some?
    ensures Valid(t.row.value.prefs) && BudgetOk(t.row.value.prefs.fields["written_round_budget"])
  {
    assert Follows(defaults, t.history, |t.history| - 1);
  }

  // ----- the run as one patch

  function Composed(history: seq<Accepted>): Json {
    if history == [] then EMPTY else Merged(Composed(history[..|history| - 1]), history[|history| - 1].patch)
  }

  lemma {:induction false} HistoryIsOnePatch(defaults: Json, history: seq<Accepted>)
    requires forall i :: 0 <= i < |history| ==> Follows(defaults, history, i)
    ensures Composed(history).Object? && At(defaults, history, |history|) == Merged(defaults, Composed(history))
  {
    if history == [] {
      MergeNothing(defaults);
    } else {
      var init, last := history[..|history| - 1], history[|history| - 1];
      forall i | 0 <= i < |init|
        ensures Follows(defaults, init, i)
      {
        assert Follows(defaults, history, i);
        assert At(defaults, init, i) == At(defaults, history, i);
      }
      HistoryIsOnePatch(defaults, init);
      assert Follows(defaults, history, |history| - 1);
      assert At(defaults, history, |init|) == At(defaults, init, |init|);
      MergeIsAssociative(defaults, Composed(init), last.patch);
    }
  }

  // In every reachable table the stored preferences are valid and are the
  // defaults with all accepted patches merged into one.
  lemma {:induction false} StoredIsDefaultsPatched(defaults: Json, steps: seq<Step>)
    ensures var t := Run(defaults, Table(None, map[], []), steps);
            && Current(defaults, t) == Merged(defaults, Composed(t.history)) && Version(t) == |t.history|
            && (t.row.Some? ==> Valid(t.row.value.prefs) && BudgetOk(t.row.value.prefs.fields["written_round_budget"]))
  {
    RunKeepsInv(defaults, Table(None, map[], []), steps);
    var t := Run(defaults, Table(None, map[], []), steps);
    HistoryIsOnePatch(defaults, t.history);
    if t.row.Some? {
      AcceptedIsValid(defaults, t);
    }
  }

  // ----- the table

  function Uninterrupted(defaults: Json, row: Option<Row>, r: Request): Table {
    Commit(Begin(defaults, Table(row, map[], []), 0, r), 0)
  }

  lemma UninterruptedOutcome(defaults: Json, row: Option<Row>, r: Request)
    requires TextOk(r.source, 1000) && r.patch.Object? && r.expected == Version(Table(row, map[], []))
    ensures var p := Patched(Current(defaults, Table(row, map[], [])), r.patch);
            var t := Uninterrupted(defaults, row, r);
            if p.Some? then t.row == Some(Row(r.expected + 1, p.value, r.source)) && |t.history| == 1
            else t.row == row && |t.history| == 0
  {
  }

  class Store {
    var row: Option<Row>

    constructor ()
      ensures row == None
    {
      row := None;
    }

    // A call that nothing interrupts.
    method Update(defaults: Json, r: Request) returns (ok: bool)
      modifies this
      ensures row == Uninterrupted(defaults, old(row), r).row
      ensures ok <==> |Uninterrupted(defaults, old(row), r).history| == 1
    {
      var version := if row.Some? then row.value.version else 0;
      if !TextOk(r.source, 1000) || !r.patch.Object? || r.expected != version {
        return false;
      }
      UninterruptedOutcome(defaults, row, r);
      var merged := Merge(if row.Some? then row.value.prefs else defaults, r.patch);
      if !Valid(merged) {
        return false;
      }
      row := Some(Row(r.expected + 1, merged, r.source));
      ok := true;
    }
  }
}
