// Preferences as a record with typed fields: the documents that may be stored are
// exactly what such records are written as (src/production.rs, Preferences and
// patched).
module PreferenceFacts {
  import opened Outcomes
  import opened Texts
  import opened SessionModel
  import opened PreferenceMerge
  import opened PreferenceStore

  datatype Mode = Spontaneous | ControlledMode | Mixed

  datatype Skill = Writing | Speaking | Reading | Listening

  datatype Focus = Focus(skills: seq<Skill>, minutes: Option<int>, exam: int)

  datatype Prompts = Prompts(constructions: bool, starters: bool, model: bool, recent: bool, turns: bool,
    followups: bool)

  datatype Corrections = Corrections(afterRound: bool, breakdown: bool, attempts: int, quote: bool, show: bool)

  datatype Preferences = Preferences(focus: Focus, mode: Mode, excluded: seq<DrillType>, prompts: Prompts,
    minimum: int, maximum: int, corrections: Corrections)

  // ----- how a record is written

  function ModeName(m: Mode): string {
    match m
    case Spontaneous => "spontaneous"
    case ControlledMode => "controlled"
    case Mixed => "mixed"
  }

  function SkillName(s: Skill): string {
    match s
    case Writing => "writing"
    case Speaking => "speaking"
    case Reading => "reading"
    case Listening => "listening"
  }

  function SkillList(skills: seq<Skill>): Json {
    List(seq(|skills|, k requires 0 <= k < |skills| => Text(SkillName(skills[k]))))
  }

  function DrillList(drills: seq<DrillType>): Json {
    List(seq(|drills|, k requires 0 <= k < |drills| => Text(DrillName(drills[k]))))
  }

  function FocusJson(f: Focus): Json {
    Object(map["skills" := SkillList(f.skills), "daily_minutes" := if f.minutes.Some? then Number(f.minutes.value)
      else Null, "exam_practice_percent" := Number(f.exam)])
  }

  function PromptsJson(p: Prompts): Json {
    Object(map["allow_required_constructions" := Bool(p.constructions), "allow_sentence_starters" := Bool(p.starters),
               "allow_model_answer_before_attempt" := Bool(p.model), "one_turn_at_a_time" := Bool(p.turns),
               "prefer_actual_recent_experiences" := Bool(p.recent), "adaptive_followups" := Bool(p.followups)])
  }

  function BudgetJson(minimum: int, maximum: int): Json {
    Object(map["minimum" := Number(minimum), "maximum" := Number(maximum)])
  }

  function CorrectionsJson(c: Corrections): Json {
    Object(map["after_round" := Bool(c.afterRound), "allow_communication_breakdown_exception" := Bool(c.breakdown),
               "self_correction_attempts_before_model" := Number(c.attempts),
               "quote_original_on_hint" := Bool(c.quote), "show_original_with_model_correction" := Bool(c.show)])
  }

  function Written(p: Preferences): Json {
    Object(map["learning_focus" := FocusJson(p.focus), "default_practice_mode" := Text(ModeName(p.mode)),
               "excluded_drill_types" := DrillList(p.excluded), "prompt_policy" := PromptsJson(p.prompts),
               "written_round_budget" := BudgetJson(p.minimum, p.maximum),
               "correction_policy" := CorrectionsJson(p.corrections)])
  }

  // ----- which records are allowed

  predicate FocusFits(f: Focus) {
    && 1 <= |f.skills| <= 4 && (forall i, j :: 0 <= i < j < |f.skills| ==> f.skills[i] != f.skills[j])
    && (match f.minutes case Some(m) => 0 < m <= 240 case None => true) && 0 <= f.exam <= 100
  }

  predicate Allowed(p: Preferences) {
    FocusFits(p.focus) && 1 <= p.minimum <= p.maximum <= 50 && 0 <= p.corrections.attempts <= 5
  }

  // ----- names

  lemma SkillNames(v: Json)
    requires v.Text? && v.s in SKILLS
    ensures exists s :: Text(SkillName(s)) == v
  {
    assert v.s == SkillName(Writing) || v.s == SkillName(Speaking) || v.s == SkillName(Reading) ||
           v.s == SkillName(Listening);
  }

  lemma SkillNamesDiffer(s: Skill, t: Skill)
    requires SkillName(s) == SkillName(t)
    ensures s == t && SkillName(s) in SKILLS
  {
    assert SkillName(s)[0] == SkillName(t)[0];
  }

  lemma DrillNames(v: Json)
    requires v.Text? && v.s in DRILL_NAMES
    ensures exists d :: Text(DrillName(d)) == v
  {
    assert || v.s == DrillName(Translation) || v.s == DrillName(SituationalResponse)
           || v.s == DrillName(SentenceTransformation) || v.s == DrillName(QuestionAnswer)
           || v.s == DrillName(SentenceCompletion) || v.s == DrillName(SentenceCombining)
           || v.s == DrillName(ErrorCorrection) || v.s == DrillName(MinimalPairChoice)
           || v.s == DrillName(DialogueCompletion) || v.s == DrillName(MicroStory) || v.s == DrillName(Retell)
           || v.s == DrillName(Fluency432);
  }

  lemma ModeNames(v: Json)
    requires v.Text? && v.s in MODES
    ensures exists m :: Text(ModeName(m)) == v
  {
    assert v.s == ModeName(Spontaneous) || v.s == ModeName(ControlledMode) || v.s == ModeName(Mixed);
  }

  // ----- lists

  lemma {:induction false} SkillsRead(items: seq<Json>) returns (skills: seq<Skill>)
    requires forall i :: 0 <= i < |items| ==> items[i].Text? && items[i].s in SKILLS
    ensures SkillList(skills) == List(items)
  {
    if items == [] {
      skills := [];
    } else {
      var init := SkillsRead(items[..|items| - 1]);
      SkillNames(items[|items| - 1]);
      var s :| Text(SkillName(s)) == items[|items| - 1];
      skills := init + [s];
      assert SkillList(skills).items == SkillList(init).items + [items[|items| - 1]];
    }
  }

  lemma {:induction false} DrillsRead(items: seq<Json>) returns (drills: seq<DrillType>)
    requires forall i :: 0 <= i < |items| ==> items[i].Text? && items[i].s in DRILL_NAMES
    ensures DrillList(drills) == List(items)
  {
    if items == [] {
      drills := [];
    } else {
      var init := DrillsRead(items[..|items| - 1]);
      DrillNames(items[|items| - 1]);
      var d :| Text(DrillName(d)) == items[|items| - 1];
      drills := init + [d];
      assert DrillList(drills).items == DrillList(init).items + [items[|items| - 1]];
    }
  }

  lemma SkillListOk(skills: seq<Skill>)
    ensures SkillsOk(SkillList(skills)) <==>
            1 <= |skills| <= 4 && forall i, j :: 0 <= i < j < |skills| ==> skills[i] != skills[j]
  {
    forall i | 0 <= i < |skills|
      ensures SkillList(skills).items[i].s in SKILLS
    {
      SkillNamesDiffer(skills[i], skills[i]);
    }
    forall i, j | 0 <= i < j < |skills|
      ensures SkillList(skills).items[i] == SkillList(skills).items[j] <==> skills[i] == skills[j]
    {
      if SkillName(skills[i]) == SkillName(skills[j]) {
        SkillNamesDiffer(skills[i], skills[j]);
      }
    }
  }

  lemma DrillListOk(drills: seq<DrillType>)
    ensures DrillsOk(DrillList(drills))
  {
  }

  // ----- parts

  lemma FocusRead(v: Json) returns (f: Focus)
    requires FocusOk(v)
    ensures FocusJson(f) == v && FocusFits(f)
  {
    var skills := SkillsRead(v.fields["skills"].items);
    var minutes := v.fields["daily_minutes"];
    f := Focus(skills, if minutes.Null? then None else Some(minutes.n), v.fields["exam_practice_percent"].n);
    SkillListOk(skills);
    assert FocusJson(f).fields == v.fields;
  }

  lemma FocusWritten(f: Focus)
    requires FocusFits(f)
    ensures FocusOk(FocusJson(f))
  {
    SkillListOk(f.skills);
  }

  lemma PromptsRead(v: Json) returns (p: Prompts)
    requires AllBools(v, PROMPT_RULES)
    ensures PromptsJson(p) == v
  {
    var m := v.fields;
    p := Prompts(m["allow_required_constructions"].b, m["allow_sentence_starters"].b,
                 m["allow_model_answer_before_attempt"].b, m["prefer_actual_recent_experiences"].b,
                 m["one_turn_at_a_time"].b, m["adaptive_followups"].b);
    assert PromptsJson(p).fields == m;
  }

  lemma CorrectionsRead(v: Json) returns (c: Corrections)
    requires CorrectionOk(v)
    ensures CorrectionsJson(c) == v && 0 <= c.attempts <= 5
  {
    var m := v.fields;
    c := Corrections(m["after_round"].b, m["allow_communication_breakdown_exception"].b,
                     m["self_correction_attempts_before_model"].n, m["quote_original_on_hint"].b,
                     m["show_original_with_model_correction"].b);
    assert CorrectionsJson(c).fields == m;
  }

  lemma PromptsWritten(p: Prompts)
    ensures AllBools(PromptsJson(p), PROMPT_RULES)
  {
  }

  lemma BudgetWritten(minimum: int, maximum: int)
    requires 1 <= minimum <= maximum <= 50
    ensures BudgetOk(BudgetJson(minimum, maximum))
  {
  }

  lemma CorrectionsWritten(c: Corrections)
    requires 0 <= c.attempts <= 5
    ensures CorrectionOk(CorrectionsJson(c))
  {
  }

  // ----- the whole document

  // A document may be stored exactly when an allowed record is written so.
  lemma StorableIff(v: Json)
    ensures Valid(v) <==> exists p :: Allowed(p) && Written(p) == v
  {
    if Valid(v) {
      var p := PreferencesRead(v);
    }
    if p :| Allowed(p) && Written(p) == v {
      WrittenIsValid(p);
    }
  }

  lemma PreferencesRead(v: Json) returns (p: Preferences)
    requires Valid(v)
    ensures Allowed(p) && Written(p) == v
  {
    var m := v.fields;
    var focus := FocusRead(m["learning_focus"]);
    ModeNames(m["default_practice_mode"]);
    var mode :| Text(ModeName(mode)) == m["default_practice_mode"];
    var excluded := DrillsRead(m["excluded_drill_types"].items);
    var prompts := PromptsRead(m["prompt_policy"]);
    var corrections := CorrectionsRead(m["correction_policy"]);
    var budget := m["written_round_budget"].fields;
    p := Preferences(focus, mode, excluded, prompts, budget["minimum"].n, budget["maximum"].n, corrections);
    assert BudgetJson(p.minimum, p.maximum).fields == budget;
    assert Written(p).fields == m;
  }

  lemma WrittenIsValid(p: Preferences)
    requires Allowed(p)
    ensures Valid(Written(p))
  {
    FocusWritten(p.focus);
    DrillListOk(p.excluded);
    PromptsWritten(p.prompts);
    BudgetWritten(p.minimum, p.maximum);
    CorrectionsWritten(p.corrections);
  }

  // A call gets to its write exactly with a source, an object for a patch, the
  // standing version and a result that may be stored; otherwise nothing changes.
  lemma BeginIff(defaults: Json, t: Table, call: nat, r: Request)
    requires Inv(defaults, t)
    ensures var next, result := Next(defaults, t, BeginStep(call, r)), Merged(Current(defaults, t), r.patch);
            var begins := && !Blank(r.source) && |r.source| <= 1000 && r.patch.Object? && r.expected == |t.history|
                          && exists p :: Allowed(p) && Written(p) == result;
            next == if begins then t.(pending := t.pending[call := Pending(r, result)]) else t
  {
    StorableIff(Merged(Current(defaults, t), r.patch));
  }

  // Whatever calls interleave, what is stored is an allowed record, written.
  lemma StoredIsARecord(defaults: Json, steps: seq<Step>) returns (p: Preferences)
    requires Run(defaults, Table(None, map[], []), steps).row.Some?
    ensures Allowed(p) && Written(p) == Run(defaults, Table(None, map[], []), steps).row.value.prefs
  {
    StoredIsDefaultsPatched(defaults, steps);
    p := PreferencesRead(Run(defaults, Table(None, map[], []), steps).row.value.prefs);
  }
}
