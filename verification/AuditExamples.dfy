// Small databases on which a revert is refused or does not restore what was there.
module AuditExamples {
  import opened Outcomes
  import opened Texts
  import opened AuditModel
  import opened AuditCommit
  import opened AuditRevert
  import opened AuditRestoration
  import opened AuditOrder

  function Zeros(n: nat): (s: string)
    ensures |s| == n && forall i :: 0 <= i < n ==> s[i] == '0'
  {
    if n == 0 then "" else Zeros(n - 1) + ['0']
  }

  function Single(ref: Ref, row: Row, summaries: Summaries): Db {
    Db(map[ref := row], summaries, [], map[], 10, {}, {})
  }

  // One disputed amendment of the entity, built from what it shows.
  function One(db: Db, run: string, ref: Ref, op: Operation, after: Row, sources: seq<SourceRef>): Batch
    requires ref in db.rows && ref.kind != Unsupported
  {
    var shown := EntityValue(db, ref).value;
    Batch(run, "b", Zeros(64), "v",
          [Proposal(run, "a", SCHEMA_VERSION, ref, Rev(db.rows[ref]), Sha256(shown), op, Fields(shown), Fields(after),
            sources,
                    "c", "i", Disputed, "w", "v", [])])
  }

  function Ask(): Request {
    Request("r", "s", "n", Zeros(64))
  }

  lemma WordsAreNotBlank()
    ensures !Blank("r") && !Blank("a") && !Blank("b") && !Blank("c") && !Blank("i") && !Blank("n") && !Blank("v") &&
            !Blank("w")
  {
    assert "r"[0] == 'r' && "a"[0] == 'a' && "b"[0] == 'b' && "c"[0] == 'c' && "i"[0] == 'i' && "n"[0] == 'n' &&
           "v"[0] == 'v' && "w"[0] == 'w';
  }

  ghost predicate Ready(db: Db, run: string, ref: Ref, op: Operation, after: Row, sources: seq<SourceRef>) {
    && ref in db.rows && WellTyped(db) && !Blank(run) && Find(db.ledger, run, "a").None?
    && ref.kind != Unsupported && op != AddRecoveredFinding && op != ReassignTarget
    && OperationFits(One(db, run, ref, op, after, sources).proposals[0], after)
    && WriteAllowed(db.rows, ref, Amend(ref.kind, op, after, db.rows[ref]))
    && forall k :: 0 <= k < |sources| ==> SourceValid(db, sources[k])
  }

  lemma OneIsOperation(db: Db, run: string, ref: Ref, op: Operation, after: Row, sources: seq<SourceRef>)
    requires Ready(db, run, ref, op, after, sources)
    ensures OperationValid(One(db, run, ref, op, after, sources).proposals[0])
  {
    WordsAreNotBlank();
  }

  lemma OneIsValid(db: Db, run: string, ref: Ref, op: Operation, after: Row, sources: seq<SourceRef>)
    requires Ready(db, run, ref, op, after, sources)
    ensures ProposalValid(db, One(db, run, ref, op, after, sources), 0)
  {
    var batch := One(db, run, ref, op, after, sources);
    OneIsOperation(db, run, ref, op, after, sources);
    assert FreshValid(db, batch, 0);
  }

  lemma OneApplies(db: Db, run: string, ref: Ref, op: Operation, after: Row, sources: seq<SourceRef>)
    requires Ready(db, run, ref, op, after, sources)
    ensures ApplyTransaction(db, One(db, run, ref, op, after, sources)).Success?
  {
    OneIsOperation(db, run, ref, op, after, sources);
    SoleApplies(db, One(db, run, ref, op, after, sources));
  }

  lemma SoleApplies(db: Db, batch: Batch)
    requires |batch.proposals| == 1 && OperationValid(batch.proposals[0]) && Amends(db, batch.proposals[0])
    requires var p := batch.proposals[0];
             && p.operation != ReassignTarget && EntityValue(db, p.entity) == Some(p.before.m) && Honest(p)
             && p.entity in db.rows && Get(db.rows[p.entity], Revision) == Number(p.expectedRevision)
             && WriteAllowed(db.rows, p.entity, Amend(p.entity.kind, p.operation, p.after.m, db.rows[p.entity]))
    ensures ApplyTransaction(db, batch).Success?
  {
    var g := Progress(OpenRun(db, batch), 0, 0);
    Runs(g, batch.proposals[0], batch.proposals[0].before.m);
    FirstAndOnly(g, batch.proposals);
  }

  lemma {:induction false} FirstAndOnly(g: Progress, ps: seq<Proposal>)
    requires |ps| == 1 && ApplyOne(g, ps[0]).Success?
    ensures ApplyAll(g, ps) == ApplyOne(g, ps[0])
  {
    assert ps[1..] == [];
  }

  lemma OneCommits(db: Db, run: string, ref: Ref, op: Operation, after: Row, sources: seq<SourceRef>)
    requires Ready(db, run, ref, op, after, sources)
    ensures Apply(db, One(db, run, ref, op, after, sources)).Success?
  {
    OneIsValid(db, run, ref, op, after, sources);
    OneApplies(db, run, ref, op, after, sources);
    OneIsComplete(db, run, ref, op, after, sources);
    SoleIsAccepted(db, One(db, run, ref, op, after, sources));
  }

  lemma OneIsComplete(db: Db, run: string, ref: Ref, op: Operation, after: Row, sources: seq<SourceRef>)
    requires Ready(db, run, ref, op, after, sources)
    ensures MetadataComplete(One(db, run, ref, op, after, sources))
  {
    WordsAreNotBlank();
  }

  lemma SoleIsAccepted(db: Db, batch: Batch)
    requires MetadataComplete(batch) && |batch.proposals| == 1 && batch.proposals[0].dependencies == []
    requires ProposalValid(db, batch, 0) && ApplyTransaction(db, batch).Success?
    ensures Apply(db, batch).Success?
  {
    IndependentIsAcyclic(batch);
    assert BatchValid(db, batch);
  }

  lemma OneIsScenario(db: Db, run: string, ref: Ref, op: Operation, after: Row, sources: seq<SourceRef>)
    requires Ready(db, run, ref, op, after, sources) && run == "r" && db.ledger == []
    ensures Scenario(db, One(db, run, ref, op, after, sources), Ask())
  {
    OneCommits(db, run, ref, op, after, sources);
    WordsAreNotBlank();
  }

  lemma SingleIsTyped(ref: Ref, row: Row, summaries: Summaries)
    requires RowTyped(ref.kind, row, {}) && ref.id < 10 && (forall k :: k in summaries ==> Ref(Session, k.0) == ref)
    ensures WellTyped(Single(ref, row, summaries))
  {
  }

  // ----- an outcome that was null

  const ITEM: Ref := Ref(PracticeItem, 1)

  function Unassessed(): Row {
    map[Outcome := Null, EffectiveStatus := Text("active"), Revision := Number(1)]
  }

  function MarkedCorrect(): Row {
    map[Outcome := Text("correct")]
  }

  lemma ItemReady()
    ensures Ready(Single(ITEM, Unassessed(), map[]), "r", ITEM, AmendAssessment, MarkedCorrect(), [])
  {
    WordsAreNotBlank();
    assert CONTENT_STATUSES[0] == "active" && ITEM_OUTCOMES[2] == "correct";
    SingleIsTyped(ITEM, Unassessed(), map[]);
  }

  lemma Uncited(db: Db, batch: Batch)
    requires |batch.proposals| == 1 && batch.proposals[0].sources == [] && Compensable(batch.proposals[0])
    ensures CanRevert(db, batch.proposals, Ask())
  {
  }

  // An item without an outcome is marked correct; the revert cannot take the
  // outcome away again.
  lemma NullOutcomeIsLost() returns (db: Db, batch: Batch, end: Progress)
    ensures Scenario(db, batch, Ask()) && Revert(Apply(db, batch).value.db, Ask()) == Success(end)
    ensures ITEM in db.rows && Get(db.rows[ITEM], Outcome) == Null
    ensures ITEM in end.db.rows && Get(end.db.rows[ITEM], Outcome) == Text("correct")
    ensures !Restored(db, batch.proposals, end.db)
  {
    db := Single(ITEM, Unassessed(), map[]);
    batch := One(db, "r", ITEM, AmendAssessment, MarkedCorrect(), []);
    ItemReady();
    OneIsScenario(db, "r", ITEM, AmendAssessment, MarkedCorrect(), []);
    Uncited(db, batch);
    end := NullIsLost(db, batch);
  }

  lemma NullIsLost(db: Db, batch: Batch) returns (end: Progress)
    requires Scenario(db, batch, Ask()) && |batch.proposals| == 1 && CanRevert(db, batch.proposals, Ask())
    requires var p := batch.proposals[0]; p.entity in db.rows && !RowReversible(db.rows[p.entity], p)
    ensures Revert(Apply(db, batch).value.db, Ask()) == Success(end)
    ensures var p := batch.proposals[0];
            p.entity in end.db.rows && Get(end.db.rows[p.entity], Outcome) == Get(p.after.m, Outcome)
    ensures !Restored(db, batch.proposals, end.db)
  {
    RevertSucceedsIff(db, batch, Ask());
    end := NullOutcomeKept(db, batch, Ask(), 0);
    OutcomeDiffers(db, batch.proposals, batch.proposals[0].entity, end.db);
  }

  lemma OutcomeDiffers(db: Db, ps: seq<Proposal>, ref: Ref, end: Db)
    requires ref in db.rows && ref in end.rows
    requires Get(db.rows[ref], Outcome) == Null && IsString(Get(end.rows[ref], Outcome))
    ensures !Restored(db, ps, end)
  {
    assert Get(TwoRevisionsOn(db.rows[ref]), Outcome) == Null;
  }

  // ----- a finding marked as a duplicate

  const FINDING: Ref := Ref(Finding, 1)

  function Reported(): Row {
    map[AssessmentKind := Text("error"), EffectiveStatus := Text("active"), Revision := Number(1)]
  }

  function Retraction(): Row {
    map[EffectiveStatus := RETRACTED]
  }

  lemma FindingTyped()
    ensures WellTyped(Single(FINDING, Reported(), map[]))
    ensures WriteAllowed(map[FINDING := Reported()], FINDING, Amend(Finding, MarkDuplicate, Retraction(), Reported()))
  {
    assert CONTENT_STATUSES[0] == "active" && CONTENT_STATUSES[1] == "retracted" && FINDING_KINDS[0] == "error";
    SingleIsTyped(FINDING, Reported(), map[]);
  }

  lemma FindingReady()
    ensures Ready(Single(FINDING, Reported(), map[]), "r", FINDING, MarkDuplicate, Retraction(), [])
  {
    WordsAreNotBlank();
    FindingTyped();
    FindingFits();
  }

  lemma FindingFits()
    ensures OperationFits(One(Single(FINDING, Reported(), map[]), "r", FINDING, MarkDuplicate, Retraction(),
            []).proposals[0], Retraction())
  {
  }

  // A finding marked as a duplicate stays marked: the revert is refused.
  lemma DuplicateFindingStays() returns (db: Db, batch: Batch)
    ensures Scenario(db, batch, Ask()) && |batch.proposals| == 1
    ensures batch.proposals[0].operation == MarkDuplicate && batch.proposals[0].entity.kind == Finding
    ensures Revert(Apply(db, batch).value.db, Ask()).Failure?
  {
    db := Single(FINDING, Reported(), map[]);
    batch := One(db, "r", FINDING, MarkDuplicate, Retraction(), []);
    FindingReady();
    OneIsScenario(db, "r", FINDING, MarkDuplicate, Retraction(), []);
    NotReverted(db, batch);
  }

  lemma NotReverted(db: Db, batch: Batch)
    requires Scenario(db, batch, Ask()) && |batch.proposals| == 1 && !Compensable(batch.proposals[0])
    ensures Revert(Apply(db, batch).value.db, Ask()).Failure?
  {
    RevertSucceedsIff(db, batch, Ask());
  }

  // ----- a status that the batch quotes

  const OBSERVATION: Ref := Ref(Observation, 1)

  function Observed(): Row {
    map[Outcome := Text("correct"), EffectiveStatus := Text("active"), WeaknessKey := Text("k"), Revision := Number(1)]
  }

  function Known(): Db {
    Single(OBSERVATION, Observed(), map[]).(weaknesses := {"k"})
  }

  function ItsStatus(): SourceRef {
    SourceRef(Field(OBSERVATION, EffectiveStatus), Some("active"), None)
  }

  lemma ActiveIsQuoted()
    ensures Contains("active", "active") && !Contains("retracted", "active")
  {
    assert StandsAt("active", "active", 0);
    forall i | 0 <= i <= |"retracted"|
      ensures !StandsAt("retracted", "active", i)
    {
      if i <= 3 {
        assert "retracted"[i..i + 6][0] == "retracted"[i] != 'a';
      }
    }
  }

  lemma ObservationTyped()
    ensures RowTyped(Observation, Observed(), {"k"}) && WellTyped(Known())
    ensures ChecksHold(Observation, Observed()[EffectiveStatus := RETRACTED])
  {
    assert CONTENT_STATUSES[0] == "active" && CONTENT_STATUSES[1] == "retracted" &&
           OBSERVATION_OUTCOMES[2] == "correct";
  }

  lemma StatusIsQuoted()
    ensures SourceValid(Known(), ItsStatus())
  {
    ActiveIsQuoted();
  }

  lemma ObservationReady()
    ensures Ready(Known(), "r", OBSERVATION, RetractObservation, Retraction(), [ItsStatus()])
  {
    WordsAreNotBlank();
    ObservationTyped();
    StatusIsQuoted();
    RetractionFits();
  }

  lemma RetractionFits()
    ensures OperationFits(One(Known(), "r", OBSERVATION, RetractObservation, Retraction(), [ItsStatus()]).proposals[0],
                          Retraction())
  {
  }

  // A retraction that quotes the status it retracts: every amendment has an
  // inverse, but the revert is refused, because the quotation no longer stands.
  lemma QuotedStatusBlocksRevert() returns (db: Db, batch: Batch)
    ensures Scenario(db, batch, Ask()) && |batch.proposals| == 1
    ensures batch.proposals[0].operation == RetractObservation && batch.proposals[0].sources == [ItsStatus()]
    ensures Compensable(batch.proposals[0]) && Revert(Apply(db, batch).value.db, Ask()).Failure?
  {
    db := Known();
    batch := One(db, "r", OBSERVATION, RetractObservation, Retraction(), [ItsStatus()]);
    ObservationReady();
    OneIsScenario(db, "r", OBSERVATION, RetractObservation, Retraction(), [ItsStatus()]);
    StatusLost(db, batch);
    QuotationBlocks(db, batch);
  }

  lemma StatusLost(db: Db, batch: Batch)
    requires db == Known() && batch == One(db, "r", OBSERVATION, RetractObservation, Retraction(), [ItsStatus()])
    ensures !QuotationStands(db, batch.proposals, ItsStatus())
  {
    ActiveIsQuoted();
    assert batch.proposals[0].entity == OBSERVATION;
  }

  lemma QuotationBlocks(db: Db, batch: Batch)
    requires Scenario(db, batch, Ask()) && |batch.proposals| == 1 && |batch.proposals[0].sources| == 1
    requires !QuotationStands(db, batch.proposals, batch.proposals[0].sources[0])
    ensures Revert(Apply(db, batch).value.db, Ask()).Failure?
  {
    assert !QuotedBy(db, batch.proposals, 0);
    RevertSucceedsIff(db, batch, Ask());
  }

  // ----- a session

  const SITTING: Ref := Ref(Session, 1)

  function Unlinked(): Row {
    map[ExerciseInstance := Null, StimulusIdentity := Null, SourceEvent := Null, Revision := Number(1)]
  }

  // ----- a recovered finding

  function Recovered(): Row {
    map[PracticeItemId := Null, AttemptId := Null, AssessmentKind := Text("error"), Original := Text("x")]
  }

  lemma RecoveredInserts()
    ensures FindingInsertable(Single(SITTING, Unlinked(), map[]), 1, Recovered())
    ensures WellTyped(Single(SITTING, Unlinked(), map[]))
  {
    assert FINDING_KINDS[0] == "error";
    SingleIsTyped(SITTING, Unlinked(), map[]);
  }

  lemma RecoveredIsValid()
    ensures var db := Single(SITTING, Unlinked(), map[]);
            ProposalValid(db, One(db, "r", SITTING, AddRecoveredFinding, Recovered(), []), 0)
  {
    var db := Single(SITTING, Unlinked(), map[]);
    var batch := One(db, "r", SITTING, AddRecoveredFinding, Recovered(), []);
    WordsAreNotBlank();
    assert OperationValid(batch.proposals[0]);
    assert FreshValid(db, batch, 0);
  }

  lemma RecoveredApplies()
    ensures var db := Single(SITTING, Unlinked(), map[]);
            ApplyTransaction(db, One(db, "r", SITTING, AddRecoveredFinding, Recovered(), [])).Success?
  {
    var db := Single(SITTING, Unlinked(), map[]);
    var batch := One(db, "r", SITTING, AddRecoveredFinding, Recovered(), []);
    RecoveredInserts();
    SoleInserts(db, batch);
  }

  lemma SoleInserts(db: Db, batch: Batch)
    requires |batch.proposals| == 1 && db.ledger == [] && batch.proposals[0].operation == AddRecoveredFinding
    requires var p := batch.proposals[0];
             EntityValue(db, p.entity).Some? && p.after.Fields? && FindingInsertable(db, p.entity.id, p.after.m)
    ensures ApplyTransaction(db, batch).Success?
  {
    FirstAndOnly(Progress(OpenRun(db, batch), 0, 0), batch.proposals);
  }

  lemma RecoveredCommits()
    ensures var db := Single(SITTING, Unlinked(), map[]);
            Apply(db, One(db, "r", SITTING, AddRecoveredFinding, Recovered(), [])).Success?
  {
    var db := Single(SITTING, Unlinked(), map[]);
    var batch := One(db, "r", SITTING, AddRecoveredFinding, Recovered(), []);
    WordsAreNotBlank();
    RecoveredIsValid();
    RecoveredApplies();
    IndependentIsAcyclic(batch);
    assert BatchValid(db, batch);
  }

  // A recovered finding stays: the revert of its run is refused.
  lemma RecoveredFindingStays() returns (db: Db, batch: Batch)
    ensures Scenario(db, batch, Ask()) && |batch.proposals| == 1 && batch.proposals[0].operation == AddRecoveredFinding
    ensures Revert(Apply(db, batch).value.db, Ask()).Failure?
  {
    db := Single(SITTING, Unlinked(), map[]);
    batch := One(db, "r", SITTING, AddRecoveredFinding, Recovered(), []);
    RecoveredIsScenario();
    NotReverted(db, batch);
  }

  lemma RecoveredIsScenario()
    ensures var db := Single(SITTING, Unlinked(), map[]);
            Scenario(db, One(db, "r", SITTING, AddRecoveredFinding, Recovered(), []), Ask())
  {
    WordsAreNotBlank();
    RecoveredInserts();
    RecoveredCommits();
  }

  // ----- a summary that was there

  function Fair(): Summaries {
    map[(1, AUDIT_QUALITY) := Summary(Text("fair"), 1)]
  }

  function SetGood(): Row {
    map[SummaryKey := AUDIT_QUALITY, SummaryValue := Text("good")]
  }

  lemma SessionTyped()
    ensures WellTyped(Single(SITTING, Unlinked(), Fair()))
  {
    SingleIsTyped(SITTING, Unlinked(), Fair());
  }

  lemma SessionWrite()
    ensures WriteAllowed(map[SITTING := Unlinked()], SITTING, Amend(SITTING.kind, AmendSummary, SetGood(), Unlinked()))
  {
  }

  lemma SessionReady(sources: seq<SourceRef>)
    requires forall k :: 0 <= k < |sources| ==> SourceValid(Single(SITTING, Unlinked(), Fair()), sources[k])
    ensures Ready(Single(SITTING, Unlinked(), Fair()), "r", SITTING, AmendSummary, SetGood(), sources)
  {
    WordsAreNotBlank();
    SessionTyped();
    SessionWrite();
    SessionFits(sources);
  }

  lemma SessionFits(sources: seq<SourceRef>)
    ensures OperationFits(One(Single(SITTING, Unlinked(), Fair()), "r", SITTING, AmendSummary, SetGood(),
            sources).proposals[0], SetGood())
  {
  }

  // A summary that was there comes back as the JSON text of itself.
  lemma SummaryComesBackEncoded() returns (db: Db, batch: Batch, end: Progress)
    ensures Scenario(db, batch, Ask()) && Revert(Apply(db, batch).value.db, Ask()) == Success(end)
    ensures (1, AUDIT_QUALITY) in db.summaries && db.summaries[(1, AUDIT_QUALITY)].content == Text("fair")
    ensures (1, AUDIT_QUALITY) in end.db.summaries &&
            end.db.summaries[(1, AUDIT_QUALITY)].content == Encoded(Text("fair"))
    ensures !Restored(db, batch.proposals, end.db)
  {
    db := Single(SITTING, Unlinked(), Fair());
    batch := One(db, "r", SITTING, AmendSummary, SetGood(), []);
    SessionReady([]);
    OneIsScenario(db, "r", SITTING, AmendSummary, SetGood(), []);
    Uncited(db, batch);
    RevertSucceedsIff(db, batch, Ask());
    end := SummaryEncodedAgain(db, batch, Ask(), 0);
    SummaryDiffers(db, batch.proposals, end.db);
  }

  lemma SummaryDiffers(db: Db, ps: seq<Proposal>, end: Db)
    requires (1, AUDIT_QUALITY) in db.summaries && (1, AUDIT_QUALITY) in end.summaries
    requires end.summaries[(1, AUDIT_QUALITY)].content != db.summaries[(1, AUDIT_QUALITY)].content
    ensures !Restored(db, ps, end)
  {
    assert end.summaries != db.summaries;
  }

  // ----- a summary that the batch quotes

  function ItsSummary(): SourceRef {
    SourceRef(Field(SITTING, EffectiveSummary), Some("fair"), None)
  }

  lemma SummaryText(word: string)
    requires |word| == 4 && forall i :: 0 <= i < 4 ==> Escaped(word[i]) == [word[i]]
    ensures JsonText(Text(word)) == ['"', word[0], word[1], word[2], word[3], '"']
  {
    assert word[1..][1..] == word[2..] && word[2..][1..] == word[3..] && word[3..][1..] == [];
    assert EscapedAll(word[3..]) == [word[3]];
    assert EscapedAll(word[2..]) == [word[2], word[3]];
    assert EscapedAll(word[1..]) == [word[1], word[2], word[3]];
    assert EscapedAll(word) == [word[0], word[1], word[2], word[3]];
  }

  lemma FairIsQuoted()
    ensures Quotes(Encoded(Text("fair")), "fair") && !Quotes(Encoded(Text("good")), "fair")
  {
    SummaryText("fair");
    SummaryText("good");
    assert StandsAt(JsonText(Text("fair")), "fair", 1);
    NotStandingIn(JsonText(Text("good")), "fair");
  }

  lemma NotStandingIn(text: string, part: string)
    requires part != [] && part[0] !in text
    ensures !Contains(text, part)
  {
    forall i | 0 <= i <= |text|
      ensures !StandsAt(text, part, i)
    {
      if i + |part| <= |text| {
        assert text[i..i + |part|][0] == text[i];
      }
    }
  }

  lemma SummaryIsQuoted()
    ensures SourceValid(Single(SITTING, Unlinked(), Fair()), ItsSummary())
  {
    FairIsQuoted();
  }

  // An amendment that quotes the summary it replaces cannot be reverted either.
  lemma QuotedSummaryBlocksRevert() returns (db: Db, batch: Batch)
    ensures Scenario(db, batch, Ask()) && |batch.proposals| == 1
    ensures batch.proposals[0].operation == AmendSummary && batch.proposals[0].sources == [ItsSummary()]
    ensures Compensable(batch.proposals[0]) && Revert(Apply(db, batch).value.db, Ask()).Failure?
  {
    db := Single(SITTING, Unlinked(), Fair());
    batch := One(db, "r", SITTING, AmendSummary, SetGood(), [ItsSummary()]);
    SummaryIsQuoted();
    SessionReady([ItsSummary()]);
    OneIsScenario(db, "r", SITTING, AmendSummary, SetGood(), [ItsSummary()]);
    SummaryLost(db, batch);
    QuotationBlocks(db, batch);
  }

  lemma SummaryLost(db: Db, batch: Batch)
    requires db == Single(SITTING, Unlinked(), Fair())
    requires batch == One(db, "r", SITTING, AmendSummary, SetGood(), [ItsSummary()])
    ensures !QuotationStands(db, batch.proposals, ItsSummary())
  {
    FairIsQuoted();
    var p := batch.proposals[0];
    assert p.entity == SITTING;
    assert Shown(AmendedRow(db.rows[SITTING], p), AmendedSummaries(db.summaries, p), SITTING, EffectiveSummary) ==
           Encoded(Text("good"));
  }

  // ----- a dependency that points forward

  const OTHER: Ref := Ref(PracticeItem, 2)

  function TwoItems(): Db {
    Db(map[ITEM := Unassessed(), OTHER := Unassessed()], map[], [], map[], 10, {}, {})
  }

  function Marked(ref: Ref, id: string, dependencies: seq<string>): Proposal {
    Proposal("r", id, SCHEMA_VERSION, ref, 1, Sha256(Unassessed()), AmendAssessment, Fields(Unassessed()),
      Fields(MarkedCorrect()), [],
             "c", "i", Disputed, "w", "v", dependencies)
  }

  // The first proposal depends on the second.
  function Forward(): Batch {
    Batch("r", "b", Zeros(64), "v", [Marked(ITEM, "a", ["r:b"]), Marked(OTHER, "b", [])])
  }

  lemma MarkedIsValid(i: nat)
    requires i < 2
    ensures ProposalValid(TwoItems(), Forward(), i)
  {
    WordsAreNotBlank();
    var p := Forward().proposals[i];
    assert OperationValid(p);
    assert EntityValue(TwoItems(), p.entity) == Some(Unassessed());
    assert Forward().proposals[1].runId + ":" + Forward().proposals[1].id == "r:b";
    assert i == 0 ==> DependencyKnown(Forward(), i, "r:b");
    assert FreshValid(TwoItems(), Forward(), i);
  }

  lemma ForwardIsAcyclic()
    ensures DependencyGraph.Acyclic(Dependencies(Forward()))
  {
    var ps, keys := Forward().proposals, Keys(Forward().proposals);
    var g := Dependencies(Forward());
    GraphAt("r", keys, ps, 0);
    GraphAt("r", keys, ps, 1);
    assert ["r:b"][1..] == [] && "r:b"[|"r" + ":"|..] == "b";
    assert keys == {"a", "b"} by {
      assert ps[0].id in keys && ps[1].id in keys;
    }
    assert g.Keys == {"a", "b"} && g["b"] == [] && g["a"] == ["b"];
    BeforeIsAcyclic(g);
  }

  lemma BeforeIsAcyclic(g: DependencyGraph.Graph)
    requires g.Keys == {"a", "b"} && g["b"] == [] && g["a"] == ["b"]
    ensures DependencyGraph.Acyclic(g)
  {
    var order := ["b", "a"];
    assert order[..1] == ["b"] && order[0] == "b" && order[1] == "a" && "a" != "b";
    DependencyGraph.TopologicalOrderIsAcyclic(g, order);
  }

  lemma MarkedRuns(g: Progress, p: Proposal)
    requires p.entity in g.db.rows && g.db.rows[p.entity] == Unassessed() && p.entity.kind == PracticeItem
    requires p == Marked(p.entity, p.id, p.dependencies) && !Blank(p.id) && Fresh(g.db, p)
    ensures ApplyOne(g, p).Success?
    ensures ApplyOne(g, p).value.db.rows == g.db.rows[p.entity := AmendedRow(g.db.rows[p.entity], p)]
    ensures ApplyOne(g, p).value.db.ledger == g.db.ledger + [Amended(p, Applied)]
  {
    WordsAreNotBlank();
    assert CONTENT_STATUSES[0] == "active" && ITEM_OUTCOMES[2] == "correct";
    assert OperationValid(p);
    Runs(g, p, Unassessed());
  }

  lemma ForwardApplies()
    ensures ApplyTransaction(TwoItems(), Forward()).Success?
  {
    WordsAreNotBlank();
    var ps := Forward().proposals;
    var g := Progress(OpenRun(TwoItems(), Forward()), 0, 0);
    MarkedRuns(g, ps[0]);
    var mid := ApplyOne(g, ps[0]).value;
    assert Fresh(mid.db, ps[1]);
    MarkedRuns(mid, ps[1]);
    assert ps[1..] == [ps[1]] && ps[1..][1..] == [];
    FirstAndOnly(mid, ps[1..]);
  }

  // A valid batch whose first proposal is applied before the one it depends on.
  lemma ForwardDependencyIsAppliedFirst() returns (db: Db, batch: Batch)
    ensures WellTyped(db) && db.ledger == [] && Apply(db, batch).Success?
    ensures |batch.proposals| == 2 && batch.proposals[0].dependencies == [batch.runId + ":" + batch.proposals[1].id]
    ensures var ledger := Apply(db, batch).value.db.ledger;
            && |ledger| == 2 && ledger[0].proposal == batch.proposals[0] && ledger[1].proposal == batch.proposals[1]
            && !DependenciesFirst(ledger, batch.runId)
  {
    db, batch := ForwardCase();
    ForwardRecorded(db, batch);
  }

  lemma ForwardCase() returns (db: Db, batch: Batch)
    ensures WellTyped(db) && db.ledger == [] && Apply(db, batch).Success?
    ensures |batch.proposals| == 2 && batch.proposals[0].dependencies == [batch.runId + ":" + batch.proposals[1].id]
  {
    db, batch := TwoItems(), Forward();
    TwoItemsTyped();
    ForwardCommits();
    ForwardNames();
  }

  lemma ForwardNames()
    ensures Forward().proposals[0].dependencies == [Forward().runId + ":" + Forward().proposals[1].id]
  {
    assert "r" + ":" + "b" == "r:b";
  }

  lemma TwoItemsTyped()
    ensures WellTyped(TwoItems())
  {
    assert CONTENT_STATUSES[0] == "active";
    assert RowTyped(PracticeItem, Unassessed(), {});
  }

  lemma ForwardCommits()
    ensures Apply(TwoItems(), Forward()).Success?
  {
    MarkedIsValid(0);
    MarkedIsValid(1);
    ForwardIsAcyclic();
    ForwardApplies();
    WordsAreNotBlank();
    assert BatchValid(TwoItems(), Forward());
  }

  lemma ForwardRecorded(db: Db, batch: Batch)
    requires WellTyped(db) && db.ledger == [] && Apply(db, batch).Success? && |batch.proposals| == 2
    requires batch.proposals[0].dependencies == [batch.runId + ":" + batch.proposals[1].id]
    ensures var ledger := Apply(db, batch).value.db.ledger;
            && |ledger| == 2 && ledger[0].proposal == batch.proposals[0] && ledger[1].proposal == batch.proposals[1]
            && !DependenciesFirst(ledger, batch.runId)
  {
    CommitEffects(db, batch);
    AllUnrecorded(db, batch.proposals);
    assert PointsForward(batch.runId, batch.proposals) by {
      assert batch.proposals[0].dependencies[0] == batch.runId + ":" + batch.proposals[1].id;
    }
    DependenciesFirstIff(db, batch);
  }
}
