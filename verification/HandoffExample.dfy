// A handoff whose source goes stale between a repair and its retry.
module HandoffExample {
  import opened Outcomes
  import opened Texts
  import opened Handoffs
  import opened HandoffRuns

  function Rows(topic: string): map<int, SessionRows> {
    map[1 := SessionRows(topic, [AttemptRow(SourceAttempt(1, 1, "a", "d"), true)], [], 1)]
  }

  function Frozen(): Snapshot {
    Snapshot(1, "t", [SourceAttempt(1, 1, "a", "d")], [])
  }

  function Assessment(): TutorFeedback {
    TutorFeedback("h", "f", "s", [TutorRepair(1, "a", "b", "c", "d")], [], 1)
  }

  function Mended(): RepairAttempt {
    RepairAttempt("h", 1, "a", "r")
  }

  // A session handed off, assessed and repaired, then amended by an audit.
  function Story(): seq<Step> {
    [CreateStep("w", 1, "h"), FeedbackStep(Assessment()), RepairStep(Mended()), AuditStep(Rows("u"))]
  }

  function Start(): Desk {
    Desk([], [], [], Rows("t"))
  }

  function Opened(): Desk {
    Desk([Handoff("h", "w", 1, Frozen())], [], [], Rows("t"))
  }

  lemma LettersFit()
    ensures forall s :: s in ["a", "b", "c", "d", "f", "h", "r", "s", "w"] ==>
              TextOk(s, 160) && TextOk(s, 2000) && TextOk(s, 4000)
    ensures Contains("a", "a")
  {
    assert StandsAt("a", "a", 0);
    forall s | s in ["a", "b", "c", "d", "f", "h", "r", "s", "w"]
      ensures !Blank(s) && |s| == 1
    {
      assert s[0] in "abcdfhrsw";
    }
  }

  lemma SnapshotOf(topic: string)
    ensures TakeSnapshot(Rows(topic), 1) == Success(Frozen().(topic := topic))
  {
    var rows := Rows(topic)[1].attempts;
    assert rows[1..] == [];
    assert ActiveAttempts(rows) == [rows[0].attempt];
  }

  lemma CreateOpens()
    ensures Next(Start(), Story()[0]) == Opened()
  {
    LettersFit();
    SnapshotOf("t");
    assert TextOk("w", 160) && TextOk("h", 160);
  }

  lemma AssessmentFits()
    ensures AssessmentOk(Frozen(), Assessment())
  {
    LettersFit();
    assert TextOk("a", 2000) && TextOk("b", 2000) && TextOk("c", 2000) && TextOk("d", 2000);
  }

  lemma FeedbackStored()
    ensures GiveFeedback(Opened(), Assessment()).desk == Opened().(feedback := [Assessment()])
    ensures GiveFeedback(Opened(), Assessment()).reply.Success?
  {
    LettersFit();
    SnapshotOf("t");
    AssessmentFits();
    assert TextOk("h", 160) && TextOk("f", 160) && TextOk("s", 4000);
  }

  lemma RepairStored()
    ensures var desk := Opened().(feedback := [Assessment()]);
            && SaveRepair(desk, Mended()).reply.Success? &&
               SaveRepair(desk, Mended()).desk == desk.(repairs := [Mended()])
  {
    LettersFit();
    SnapshotOf("t");
    assert TextOk("h", 160) && TextOk("r", 160) && TextOk("a", 4000);
  }

  lemma SourceIsStale()
    ensures var desk := Opened().(feedback := [Assessment()], repairs := [Mended()], sessions := Rows("u"));
            Get(desk, "h").Success? && !Get(desk, "h").value.current
  {
    LettersFit();
    SnapshotOf("u");
    assert TextOk("h", 160) && "t"[0] != "u"[0];
  }

  function Assessed(): Desk {
    Opened().(feedback := [Assessment()])
  }

  function Stale(): Desk {
    Assessed().(repairs := [Mended()], sessions := Rows("u"))
  }

  lemma StoryUnfolds()
    ensures Run(Start(), Story()[..2]) == Assessed() && Run(Start(), Story()) == Stale()
  {
    var story := Story();
    CreateOpens();
    FeedbackStored();
    RepairStored();
    assert story[..2] == [story[0], story[1]] && story[..2][1..] == [story[1]] && [story[1]][1..] == [];
    assert Run(Start(), story[..2]) == Run(Opened(), [story[1]]) == Run(Assessed(), []);
    assert story[1..][1..] == [story[2], story[3]] && [story[2], story[3]][1..] == [story[3]] && [story[3]][1..] == [];
    assert Run(Start(), story) == Run(Opened(), story[1..]) == Run(Assessed(), [story[2], story[3]]);
    assert Run(Assessed(), [story[2], story[3]]) == Run(Assessed().(repairs := [Mended()]), [story[3]]) ==
           Run(Stale(), []);
  }

  lemma StartIsSound()
    ensures Inv(Start()) && Inv(Assessed())
  {
    assert forall id: string :: |Matching(Start().repairs, RepairOn(id))| == 0;
    assert RepairsBounded(Start());
    StoryUnfolds();
    RunKeepsInv(Start(), Story()[..2]);
  }

  // One desk, one audit: the retry of the repair is turned away, the retry of the
  // feedback is answered, and neither changes anything.
  lemma StaleSourceRefusesRepairRetry() returns (start: Desk, story: seq<Step>, f: TutorFeedback, x: RepairAttempt)
    ensures Inv(start) && |story| == 4 && story[1] == FeedbackStep(f) && story[2] == RepairStep(x) &&
            story[3].AuditStep?
    ensures SaveRepair(Run(start, story[..2]), x).reply.Success?
    ensures var stale := Run(start, story);
            && SaveRepair(stale, x).reply.Failure? && SaveRepair(stale, x).desk == stale
            && GiveFeedback(stale, f).reply.Success? && GiveFeedback(stale, f).desk == stale
  {
    start, story, f, x := Start(), Story(), Assessment(), Mended();
    StoryUnfolds();
    StartIsSound();
    RepairStored();
    RepairAfterAudit();
    FeedbackAfterAudit();
  }

  lemma RepairAfterAudit()
    ensures SaveRepair(Stale(), Mended()).reply.Failure? && SaveRepair(Stale(), Mended()).desk == Stale()
  {
    StartIsSound();
    RepairStored();
    SourceIsStale();
    var steps := [AuditStep(Rows("u"))];
    assert steps[1..] == [];
    assert Run(Assessed().(repairs := [Mended()]), steps) == Stale();
    RepairRetry(Assessed(), Mended(), steps);
  }

  lemma FeedbackAfterAudit()
    ensures GiveFeedback(Stale(), Assessment()).reply.Success? && GiveFeedback(Stale(), Assessment()).desk == Stale()
  {
    LettersFit();
    SourceIsStale();
    assert TextOk("f", 160) && TextOk("h", 160);
  }
}
