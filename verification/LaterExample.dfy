// An amendment made after a run and lost when the run is reverted.
module LaterExample {
  import opened Texts
  import opened AuditModel
  import opened AuditCommit
  import opened AuditRevert
  import opened AuditRestoration
  import opened AuditExamples
  import opened LaterAmendments
  import opened LaterReverts

  function MarkedWrong(): Row {
    Unassessed()[Outcome := Text("incorrect")]
  }

  function SetOutcome(outcome: string): Row {
    map[Outcome := Text(outcome)]
  }

  function ItemAmendment(db: Db, run: string, outcome: string): Batch
    requires ITEM in db.rows
  {
    One(db, run, ITEM, AmendAssessment, SetOutcome(outcome), [])
  }

  // p sets an item's outcome, and was built from what the item showed.
  ghost predicate SetsOutcome(p: Proposal, run: string, shown: Row, outcome: string) {
    && p.runId == run && p.entity == ITEM && p.operation == AmendAssessment && p.sources == [] && OperationValid(p)
    && p.before == Fields(shown) && p.after == Fields(SetOutcome(outcome))
  }

  // done is db after the one amendment p.
  ghost predicate AmendedOnce(db: Db, p: Proposal, done: Db) {
    && WellTyped(done) && p.entity in db.rows && p.entity in done.rows
    && done.rows[p.entity] == AmendedRow(db.rows[p.entity], p) && done.ledger == db.ledger + [Amended(p, Applied)]
  }

  lemma SingleCommit(db: Db, batch: Batch)
    requires WellTyped(db) && Apply(db, batch).Success? && |batch.proposals| == 1 && Amends(db, batch.proposals[0])
    ensures AmendedOnce(db, batch.proposals[0], Apply(db, batch).value.db)
  {
    SingleEntry(db, batch);
    CommitRows(db, batch);
    RowWritten(Progress(db, 0, 0), batch.proposals, Progress(Apply(db, batch).value.db.(runs := db.runs), 0, 0), 0);
  }

  lemma SingleEntry(db: Db, batch: Batch)
    requires WellTyped(db) && Apply(db, batch).Success? && |batch.proposals| == 1 && Fresh(db, batch.proposals[0])
    ensures WellTyped(Apply(db, batch).value.db)
    ensures Apply(db, batch).value.db.ledger == db.ledger + [Amended(batch.proposals[0], Applied)]
  {
    CommitLedger(db, batch);
    AllUnrecorded(db, batch.proposals);
    assert Entries(batch.proposals) == [Amended(batch.proposals[0], Applied)];
  }

  lemma OutcomeAllowed(row: Row, outcome: string)
    requires ChecksHold(PracticeItem, row) && outcome in ITEM_OUTCOMES
    ensures ChecksHold(PracticeItem, Amend(PracticeItem, AmendAssessment, SetOutcome(outcome), row))
  {
  }

  lemma {:induction false} OutcomeReady(db: Db, run: string, outcome: string)
    requires ITEM in db.rows && WellTyped(db) && !Blank(run) && Find(db.ledger, run, "a").None? &&
             outcome in ITEM_OUTCOMES
    ensures Ready(db, run, ITEM, AmendAssessment, SetOutcome(outcome), [])
  {
    OutcomeAllowed(db.rows[ITEM], outcome);
  }

  lemma OutcomeAmends(db: Db, run: string, outcome: string)
    requires Ready(db, run, ITEM, AmendAssessment, SetOutcome(outcome), [])
    ensures var ps := ItemAmendment(db, run, outcome).proposals;
            |ps| == 1 && Amends(db, ps[0]) && SetsOutcome(ps[0], run, db.rows[ITEM], outcome)
  {
    OneIsValid(db, run, ITEM, AmendAssessment, SetOutcome(outcome), []);
  }

  lemma OutcomeSet(db: Db, run: string, outcome: string) returns (p: Proposal)
    requires ITEM in db.rows && WellTyped(db) && !Blank(run) && Find(db.ledger, run, "a").None? &&
             outcome in ITEM_OUTCOMES
    ensures Apply(db, ItemAmendment(db, run, outcome)).Success?
    ensures SetsOutcome(p, run, db.rows[ITEM], outcome)
    ensures AmendedOnce(db, p, Apply(db, ItemAmendment(db, run, outcome)).value.db)
  {
    OutcomeReady(db, run, outcome);
    OneCommits(db, run, ITEM, AmendAssessment, SetOutcome(outcome), []);
    OutcomeAmends(db, run, outcome);
    p := ItemAmendment(db, run, outcome).proposals[0];
    SingleCommit(db, ItemAmendment(db, run, outcome));
  }

  lemma OutcomeShown(row: Row, p: Proposal, run: string, shown: Row, outcome: string)
    requires SetsOutcome(p, run, shown, outcome)
    ensures Get(AmendedRow(row, p), Outcome) == Text(outcome)
    ensures Get(AmendedRow(row, p), EffectiveStatus) == Get(row, EffectiveStatus)
  {
  }

  lemma RunsApart(a: Proposal, b: Proposal)
    requires a.runId == "r" && b.runId == "z"
    ensures var ledger := [Amended(a, Applied)] + [Amended(b, Applied)];
            && AppliedIn(ledger, "r") == [a] && NoRun(ledger, RunName("r", "s"))
            && Find([Amended(a, Applied)], "z", "a").None?
  {
    var first, second := [Amended(a, Applied)], [Amended(b, Applied)];
    assert "r"[0] == 'r' && "z"[0] == 'z' && RunName("r", "s")[0] == 'r';
    assert first[1..] == [] && second[1..] == [] && (first + second)[1..] == second;
    assert AppliedIn(second, "r") == [];
    RunNameFresh(Ask());
  }

  // Reverting a run whose one amendment set an outcome writes the old outcome
  // back, whatever the item shows by now.
  lemma OldOutcomeWritten(now: Db, p: Proposal, outcome: string)
    requires WellTyped(now) && AppliedIn(now.ledger, "r") == [p] && NoRun(now.ledger, RunName("r", "s"))
    requires SetsOutcome(p, "r", MarkedWrong(), outcome) && ITEM in now.rows
    ensures Revert(now, Ask()).Success? && ITEM in Revert(now, Ask()).value.db.rows
    ensures Get(Revert(now, Ask()).value.db.rows[ITEM], Outcome) == Text("incorrect")
  {
    WordsAreNotBlank();
    WrongRewritten(p);
    WrongAllowed(now, p);
    OneCanRevert(now, p);
    LaterRevertIff(now, Ask(), [p]);
    OutcomeOverwritten(now, p);
  }

  lemma OneCanRevert(now: Db, p: Proposal)
    requires p.entity in now.rows && WriteBackAllowed(now.rows, now.weaknesses, p) && HasInverse(p) && p.sources == []
    ensures CanRevertLater(now, [p], Ask())
  {
    assert [p][..0] == [];
    WordsAreNotBlank();
  }

  lemma WrongRewritten(p: Proposal)
    requires p.entity == ITEM && p.operation == AmendAssessment && p.before == Fields(MarkedWrong())
    ensures Rewritten(p) == map[Outcome := Text("incorrect"), EffectiveStatus := Text("active")]
  {
  }

  lemma WrongAllowed(now: Db, p: Proposal)
    requires p.entity == ITEM && ITEM in now.rows && p.operation == AmendAssessment
    requires Rewritten(p) == map[Outcome := Text("incorrect"), EffectiveStatus := Text("active")]
    ensures WriteBackAllowed(now.rows, now.weaknesses, p)
  {
    assert CONTENT_STATUSES[0] == "active" && ITEM_OUTCOMES[0] == "incorrect";
  }

  lemma OutcomeOverwritten(now: Db, p: Proposal)
    requires Later(now, Ask(), [p]) && p.entity == ITEM && Outcome in Rewritten(p)
    ensures ITEM in Revert(now, Ask()).value.db.rows
    ensures Get(Revert(now, Ask()).value.db.rows[ITEM], Outcome) == Rewritten(p)[Outcome]
  {
    var end := RevertOverwrites(now, Ask(), [p]);
    assert Overwritten(now, [p][0], end);
  }

  lemma WrongIsTyped()
    ensures WellTyped(Single(ITEM, MarkedWrong(), map[]))
  {
    assert CONTENT_STATUSES[0] == "active" && ITEM_OUTCOMES[0] == "incorrect";
    SingleIsTyped(ITEM, MarkedWrong(), map[]);
  }

  lemma OutcomesAreKnown()
    ensures "correct" in ITEM_OUTCOMES && "omitted" in ITEM_OUTCOMES
  {
    assert ITEM_OUTCOMES[2] == "correct" && ITEM_OUTCOMES[3] == "omitted";
  }

  lemma AgainAmended(done: Db, p: Proposal)
    requires WellTyped(done) && ITEM in done.rows && done.ledger == [Amended(p, Applied)]
    requires SetsOutcome(p, "r", MarkedWrong(), "correct")
    ensures Apply(done, ItemAmendment(done, "z", "omitted")).Success?
    ensures var now := Apply(done, ItemAmendment(done, "z", "omitted")).value.db;
            && ITEM in now.rows && Get(now.rows[ITEM], Outcome) == Text("omitted")
            && Revert(now, Ask()).Success? && ITEM in Revert(now, Ask()).value.db.rows
            && Get(Revert(now, Ask()).value.db.rows[ITEM], Outcome) == Text("incorrect")
  {
    RunsApart(p, p.(runId := "z"));
    OutcomesAreKnown();
    assert "z"[0] == 'z';
    var next := OutcomeSet(done, "z", "omitted");
    OutcomeShown(done.rows[ITEM], next, "z", done.rows[ITEM], "omitted");
    RunsApart(p, next);
    OldOutcomeWritten(Apply(done, ItemAmendment(done, "z", "omitted")).value.db, p, "correct");
  }

  // An outcome amended again after the run goes back to what it was before the
  // run: the later amendment is written over without a word.
  lemma LaterOutcomeIsOverwritten() returns (db: Db, first: Batch, second: Batch)
    ensures WellTyped(db) && Apply(db, first).Success? && Apply(Apply(db, first).value.db, second).Success?
    ensures first.runId == Ask().batchId == "r" && second.runId == "z"
    ensures var now := Apply(Apply(db, first).value.db, second).value.db;
            && ITEM in now.rows && Get(now.rows[ITEM], Outcome) == Text("omitted")
            && Revert(now, Ask()).Success? && ITEM in Revert(now, Ask()).value.db.rows
            && Get(Revert(now, Ask()).value.db.rows[ITEM], Outcome) == Text("incorrect")
  {
    db := Single(ITEM, MarkedWrong(), map[]);
    WrongIsTyped();
    WordsAreNotBlank();
    OutcomesAreKnown();
    first := ItemAmendment(db, "r", "correct");
    var p := OutcomeSet(db, "r", "correct");
    var done := Apply(db, first).value.db;
    second := ItemAmendment(done, "z", "omitted");
    AgainAmended(done, p);
  }
}
