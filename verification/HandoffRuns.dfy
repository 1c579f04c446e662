// What every interleaving of handoff calls and audits keeps.
module HandoffRuns {
  import opened Outcomes
  import opened Texts
  import opened Handoffs

  // ----- the invariant

  predicate HandoffsOk(desk: Desk) {
    forall i :: 0 <= i < |desk.handoffs| ==>
      && TextOk(desk.handoffs[i].id, 160) && 1 <= |desk.handoffs[i].source.attempts| <= 64
      && desk.handoffs[i].source.sessionId == desk.handoffs[i].sessionId
      && forall j :: 0 <= j < i ==>
           desk.handoffs[j].id != desk.handoffs[i].id && desk.handoffs[j].workspace != desk.handoffs[i].workspace
  }

  predicate FeedbackOk(desk: Desk, f: TutorFeedback) {
    var h := Find(desk.handoffs, HandoffId(f.handoffId));
    h.Some? && AssessmentOk(h.value.source, f) && |f.repairs| <= 2 && |f.points| <= 40
  }

  predicate AllFeedbackOk(desk: Desk) {
    forall i :: 0 <= i < |desk.feedback| ==>
      && FeedbackOk(desk, desk.feedback[i])
      && forall j :: 0 <= j < i ==>
           desk.feedback[j].key != desk.feedback[i].key && desk.feedback[j].handoffId != desk.feedback[i].handoffId
  }

  predicate RepairAttemptOk(desk: Desk, x: RepairAttempt) {
    var f := Find(desk.feedback, FeedbackOn(x.handoffId));
    f.Some? && 1 <= x.no <= |f.value.repairs| && TextOk(x.response, 4000)
  }

  predicate AllRepairsOk(desk: Desk) {
    forall i :: 0 <= i < |desk.repairs| ==>
      RepairAttemptOk(desk, desk.repairs[i]) && forall j :: 0 <= j < i ==> desk.repairs[j].key != desk.repairs[i].key
  }

  ghost predicate RepairsBounded(desk: Desk) {
    forall id: string :: |Matching(desk.repairs, RepairOn(id))| <= 64
  }

  // Handoffs are distinct in identifier and workspace; each has at most one
  // assessment, whose excerpts stand in the frozen attempts they cite; repairs
  // name a repair of that assessment and number at most 64 per handoff.
  ghost predicate Inv(desk: Desk) {
    HandoffsOk(desk) && AllFeedbackOk(desk) && AllRepairsOk(desk) && RepairsBounded(desk)
  }

  // Rows are only ever appended.
  ghost predicate Extends(before: Desk, after: Desk) {
    before.handoffs <= after.handoffs && before.feedback <= after.feedback && before.repairs <= after.repairs
  }

  lemma {:induction false} FoundStays<T>(rows: seq<T>, longer: seq<T>, p: T -> bool)
    requires rows <= longer && Find(rows, p).Some?
    ensures Find(longer, p) == Find(rows, p)
  {
    assert longer == rows + longer[|rows|..];
    FindKeeps(rows, longer[|rows|..], p);
  }

  // Tables that lose no handoff and no feedback keep their links.
  lemma LinksKept(desk: Desk, next: Desk)
    requires AllFeedbackOk(desk) && AllRepairsOk(desk) && Extends(desk, next)
    ensures forall i :: 0 <= i < |desk.feedback| ==> FeedbackOk(next, desk.feedback[i])
    ensures forall i :: 0 <= i < |desk.repairs| ==> RepairAttemptOk(next, desk.repairs[i])
  {
    forall i | 0 <= i < |desk.feedback|
      ensures FeedbackOk(next, desk.feedback[i])
    {
      FoundStays(desk.handoffs, next.handoffs, HandoffId(desk.feedback[i].handoffId));
    }
    forall i | 0 <= i < |desk.repairs|
      ensures RepairAttemptOk(next, desk.repairs[i])
    {
      FoundStays(desk.feedback, next.feedback, FeedbackOn(desk.repairs[i].handoffId));
    }
  }

  lemma NewHandoff(desk: Desk, h: Handoff)
    requires Inv(desk) && TextOk(h.id, 160) && 1 <= |h.source.attempts| <= 64 && h.source.sessionId == h.sessionId
    requires Find(desk.handoffs, HandoffId(h.id)).None? && Find(desk.handoffs, Workspace(h.workspace)).None?
    ensures Inv(desk.(handoffs := desk.handoffs + [h]))
  {
    var next := desk.(handoffs := desk.handoffs + [h]);
    forall j | 0 <= j < |desk.handoffs|
      ensures desk.handoffs[j].id != h.id && desk.handoffs[j].workspace != h.workspace
    {
      assert !HandoffId(h.id)(desk.handoffs[j]) && !Workspace(h.workspace)(desk.handoffs[j]);
    }
    LinksKept(desk, next);
    assert RepairsBounded(next) by { assert next.repairs == desk.repairs; }
  }

  lemma NewFeedback(desk: Desk, f: TutorFeedback)
    requires Inv(desk) && FeedbackOk(desk, f)
    requires Find(desk.feedback, FeedbackKey(f.key)).None? && Find(desk.feedback, FeedbackOn(f.handoffId)).None?
    ensures Inv(desk.(feedback := desk.feedback + [f]))
  {
    var next := desk.(feedback := desk.feedback + [f]);
    forall j | 0 <= j < |desk.feedback|
      ensures desk.feedback[j].key != f.key && desk.feedback[j].handoffId != f.handoffId
    {
      assert !FeedbackKey(f.key)(desk.feedback[j]) && !FeedbackOn(f.handoffId)(desk.feedback[j]);
    }
    LinksKept(desk, next);
    assert FeedbackOk(next, f);
    assert RepairsBounded(next) by { assert next.repairs == desk.repairs; }
  }

  lemma {:induction false} OneMore(rows: seq<RepairAttempt>, x: RepairAttempt, id: string)
    ensures Matching(rows + [x], RepairOn(id)) == Matching(rows, RepairOn(id)) + (if x.handoffId == id then [x] else [])
  {
    assert (rows + [x])[..|rows|] == rows;
  }

  lemma StillBounded(desk: Desk, x: RepairAttempt)
    requires RepairsBounded(desk) && |Matching(desk.repairs, RepairOn(x.handoffId))| < 64
    ensures RepairsBounded(desk.(repairs := desk.repairs + [x]))
  {
    forall id: string
      ensures |Matching(desk.repairs + [x], RepairOn(id))| <= 64
    {
      OneMore(desk.repairs, x, id);
      assert |Matching(desk.repairs, RepairOn(id))| <= 64;
    }
  }

  lemma RepairFits(desk: Desk, next: Desk, x: RepairAttempt)
    requires AllRepairsOk(desk) && RepairAttemptOk(desk, x) && Find(desk.repairs, RepairKey(x.key)).None?
    requires next == desk.(repairs := desk.repairs + [x])
    ensures AllRepairsOk(next)
  {
    RepairKeyNew(desk, x);
    forall i | 0 <= i < |next.repairs|
      ensures RepairAttemptOk(next, next.repairs[i])
    {
      SameFeedback(desk, next, next.repairs[i]);
      assert i < |desk.repairs| ==> next.repairs[i] == desk.repairs[i];
    }
  }

  lemma SameFeedback(desk: Desk, next: Desk, x: RepairAttempt)
    requires next.feedback == desk.feedback
    ensures RepairAttemptOk(next, x) == RepairAttemptOk(desk, x)
  {
  }

  lemma RepairKeyNew(desk: Desk, x: RepairAttempt)
    requires Find(desk.repairs, RepairKey(x.key)).None?
    ensures forall j :: 0 <= j < |desk.repairs| ==> desk.repairs[j].key != x.key
  {
    forall j | 0 <= j < |desk.repairs|
      ensures desk.repairs[j].key != x.key
    {
      assert !RepairKey(x.key)(desk.repairs[j]);
    }
  }

  lemma NewRepair(desk: Desk, x: RepairAttempt)
    requires Inv(desk) && RepairAttemptOk(desk, x) && Find(desk.repairs, RepairKey(x.key)).None?
    requires |Matching(desk.repairs, RepairOn(x.handoffId))| < 64
    ensures Inv(desk.(repairs := desk.repairs + [x]))
  {
    var next := desk.(repairs := desk.repairs + [x]);
    RepairFits(desk, next, x);
    LinksKept(desk, next);
    assert AllFeedbackOk(next);
    StillBounded(desk, x);
  }

  // ----- the steps

  lemma CreateKeepsInv(desk: Desk, workspace: string, sessionId: int, freshId: string)
    requires Inv(desk) && TextOk(freshId, 160)
    ensures Inv(Create(desk, workspace, sessionId, freshId).desk)
    ensures Extends(desk, Create(desk, workspace, sessionId, freshId).desk)
  {
    if Create(desk, workspace, sessionId, freshId).desk != desk {
      NewHandoff(desk, Handoff(freshId, workspace, sessionId, TakeSnapshot(desk.sessions, sessionId).value));
    }
  }

  lemma FeedbackKeepsInv(desk: Desk, f: TutorFeedback)
    requires Inv(desk)
    ensures Inv(GiveFeedback(desk, f).desk)
    ensures Extends(desk, GiveFeedback(desk, f).desk)
  {
    if GiveFeedback(desk, f).desk != desk {
      NewFeedback(desk, f);
    }
  }

  lemma RepairKeepsInv(desk: Desk, x: RepairAttempt)
    requires Inv(desk)
    ensures Inv(SaveRepair(desk, x).desk)
    ensures Extends(desk, SaveRepair(desk, x).desk)
  {
    if SaveRepair(desk, x).desk != desk {
      NewRepair(desk, x);
    }
  }

  lemma StepKeepsInv(desk: Desk, step: Step)
    requires Inv(desk)
    ensures Inv(Next(desk, step)) && Extends(desk, Next(desk, step))
  {
    match step
    case CreateStep(w, sid, id) =>
      if TextOk(id, 160) {
        CreateKeepsInv(desk, w, sid, id);
      }
    case FeedbackStep(f) => FeedbackKeepsInv(desk, f);
    case RepairStep(x) => RepairKeepsInv(desk, x);
    case AuditStep(sessions) => AuditKeepsInv(desk, sessions);
  }

  lemma AuditKeepsInv(desk: Desk, sessions: map<int, SessionRows>)
    requires Inv(desk)
    ensures Inv(desk.(sessions := sessions)) && Extends(desk, desk.(sessions := sessions))
  {
    var next := desk.(sessions := sessions);
    LinksKept(desk, next);
    assert RepairsBounded(next) by { assert next.repairs == desk.repairs; }
  }

  // Whatever the interleaving, the invariant holds and nothing stored is
  // changed or removed.
  lemma {:induction false} RunKeepsInv(desk: Desk, steps: seq<Step>)
    requires Inv(desk)
    ensures Inv(Run(desk, steps)) && Extends(desk, Run(desk, steps))
    decreases |steps|
  {
    if steps != [] {
      StepKeepsInv(desk, steps[0]);
      RunKeepsInv(Next(desk, steps[0]), steps[1..]);
    }
  }

  // ----- frozen snapshots

  lemma {:induction false} SnapshotFrozen(desk: Desk, steps: seq<Step>, id: string)
    requires Inv(desk) && Get(desk, id).Success?
    ensures Get(Run(desk, steps), id).Success?
    ensures Get(Run(desk, steps), id).value.handoff == Get(desk, id).value.handoff
    ensures Get(desk, id).value.feedback.Some? ==>
              Get(Run(desk, steps), id).value.feedback == Get(desk, id).value.feedback
  {
    RunKeepsInv(desk, steps);
    FoundStays(desk.handoffs, Run(desk, steps).handoffs, HandoffId(id));
    if Get(desk, id).value.feedback.Some? {
      FoundStays(desk.feedback, Run(desk, steps).feedback, FeedbackOn(id));
    }
  }

  // ----- retries

  lemma {:induction false} FindLast<T>(rows: seq<T>, x: T, p: T -> bool)
    requires Find(rows, p).None? && p(x)
    ensures Find(rows + [x], p) == Some(x)
  {
    if rows != [] {
      assert (rows + [x])[1..] == rows[1..] + [x];
      assert !p(rows[0]);
      FindLast(rows[1..], x, p);
    }
  }

  // An accepted assessment is stored under its key and on its handoff.
  lemma AcceptedFeedbackStands(desk: Desk, f: TutorFeedback)
    requires Inv(desk) && GiveFeedback(desk, f).reply.Success?
    ensures var next := GiveFeedback(desk, f).desk;
            && Find(next.feedback, FeedbackKey(f.key)) == Some(f) &&
               Find(next.feedback, FeedbackOn(f.handoffId)) == Some(f)
            && Get(next, f.handoffId).Success?
            && GiveFeedback(desk, f).reply.value.handoff == Get(next, f.handoffId).value.handoff
  {
    if Find(desk.feedback, FeedbackKey(f.key)).Some? {
      OnlyFeedbackOn(desk, f);
    } else {
      FirstFeedbackStands(desk, f);
    }
  }

  lemma FirstFeedbackStands(desk: Desk, f: TutorFeedback)
    requires FirstFeedback(desk, f).reply.Success? && Find(desk.feedback, FeedbackKey(f.key)).None?
    ensures var next := FirstFeedback(desk, f).desk;
            && Find(next.feedback, FeedbackKey(f.key)) == Some(f) &&
               Find(next.feedback, FeedbackOn(f.handoffId)) == Some(f)
            && Get(next, f.handoffId).Success?
            && FirstFeedback(desk, f).reply.value.handoff == Get(next, f.handoffId).value.handoff
  {
    FindLast(desk.feedback, f, FeedbackKey(f.key));
    FindLast(desk.feedback, f, FeedbackOn(f.handoffId));
  }

  lemma OnlyFeedbackOn(desk: Desk, f: TutorFeedback)
    requires AllFeedbackOk(desk) && f in desk.feedback
    ensures Find(desk.feedback, FeedbackOn(f.handoffId)) == Some(f)
  {
    var i :| 0 <= i < |desk.feedback| && desk.feedback[i] == f;
    assert FeedbackOn(f.handoffId)(desk.feedback[i]);
    var r := Find(desk.feedback, FeedbackOn(f.handoffId));
    var j :| 0 <= j < |desk.feedback| && desk.feedback[j] == r.value;
  }

  // A retry of accepted feedback changes nothing and answers with it, after any
  // further run, even when the source has become stale.
  lemma {:induction false} FeedbackRetryIsNoOp(desk: Desk, f: TutorFeedback, steps: seq<Step>)
    requires Inv(desk) && GiveFeedback(desk, f).reply.Success?
    ensures var later := Run(GiveFeedback(desk, f).desk, steps);
            var retry := GiveFeedback(later, f);
            && retry.desk == later && retry.reply.Success? && retry.reply.value.status == Replayed
            && retry.reply.value.feedback == Some(f)
            && retry.reply.value.handoff == GiveFeedback(desk, f).reply.value.handoff
  {
    var next := GiveFeedback(desk, f).desk;
    FeedbackKeepsInv(desk, f);
    AcceptedFeedbackStands(desk, f);
    RunKeepsInv(next, steps);
    var later := Run(next, steps);
    FoundStays(next.feedback, later.feedback, FeedbackKey(f.key));
    SnapshotFrozen(next, steps, f.handoffId);
  }

  lemma SecondFeedbackRefused(desk: Desk, f: TutorFeedback, other: TutorFeedback)
    requires Inv(desk) && other != f && (other.key == f.key || other.handoffId == f.handoffId)
    requires Find(desk.feedback, FeedbackKey(f.key)) == Some(f) &&
             Find(desk.feedback, FeedbackOn(f.handoffId)) == Some(f)
    ensures GiveFeedback(desk, other).reply.Failure? && GiveFeedback(desk, other).desk == desk
  {
    if other.handoffId == f.handoffId && Find(desk.feedback, FeedbackKey(other.key)) == Some(other) {
      OnlyFeedbackOn(desk, other);
    }
  }

  // Once a handoff has feedback, any other feedback for it, or under its key,
  // is refused for good.
  lemma {:induction false} FeedbackIsFinal(desk: Desk, f: TutorFeedback, steps: seq<Step>, other: TutorFeedback)
    requires Inv(desk) && GiveFeedback(desk, f).reply.Success?
    requires other != f && (other.key == f.key || other.handoffId == f.handoffId)
    ensures var later := Run(GiveFeedback(desk, f).desk, steps);
            GiveFeedback(later, other).reply.Failure? && GiveFeedback(later, other).desk == later
  {
    var next := GiveFeedback(desk, f).desk;
    FeedbackKeepsInv(desk, f);
    AcceptedFeedbackStands(desk, f);
    StandsForGood(next, f, steps);
    SecondFeedbackRefused(Run(next, steps), f, other);
  }

  lemma {:induction false} StandsForGood(desk: Desk, f: TutorFeedback, steps: seq<Step>)
    requires Inv(desk)
    requires Find(desk.feedback, FeedbackKey(f.key)) == Some(f) &&
             Find(desk.feedback, FeedbackOn(f.handoffId)) == Some(f)
    ensures Inv(Run(desk, steps))
    ensures Find(Run(desk, steps).feedback, FeedbackKey(f.key)) == Some(f)
    ensures Find(Run(desk, steps).feedback, FeedbackOn(f.handoffId)) == Some(f)
  {
    RunKeepsInv(desk, steps);
    FoundStays(desk.feedback, Run(desk, steps).feedback, FeedbackKey(f.key));
    FoundStays(desk.feedback, Run(desk, steps).feedback, FeedbackOn(f.handoffId));
  }

  lemma StoredRepairRetry(desk: Desk, x: RepairAttempt)
    requires Inv(desk) && x in desk.repairs
    requires TextOk(x.key, 160) && TextOk(x.handoffId, 160)
    ensures SaveRepair(desk, x).desk == desk
    ensures Get(desk, x.handoffId).Success?
    ensures SaveRepair(desk, x).reply.Success? <==> Get(desk, x.handoffId).value.current
  {
    StoredRepairShown(desk, x);
    OnlyRepair(desk, x);
  }

  lemma StoredRepairShown(desk: Desk, x: RepairAttempt)
    requires Inv(desk) && x in desk.repairs && TextOk(x.handoffId, 160)
    ensures TextOk(x.response, 4000) && Get(desk, x.handoffId).Success?
    ensures 1 <= x.no <= RepairCount(Get(desk, x.handoffId).value)
  {
    var i :| 0 <= i < |desk.repairs| && desk.repairs[i] == x;
    assert RepairAttemptOk(desk, desk.repairs[i]);
    var f := Find(desk.feedback, FeedbackOn(x.handoffId));
    assert FeedbackOk(desk, f.value);
  }

  // After an accepted repair, whatever follows, sending it again changes nothing
  // and succeeds exactly while the source is current: a stale source turns even
  // the identical retry away.
  lemma {:induction false} RepairRetry(desk: Desk, x: RepairAttempt, steps: seq<Step>)
    requires Inv(desk) && SaveRepair(desk, x).reply.Success?
    ensures var later := Run(SaveRepair(desk, x).desk, steps);
            && SaveRepair(later, x).desk == later && Get(later, x.handoffId).Success?
            && (SaveRepair(later, x).reply.Success? <==> Get(later, x.handoffId).value.current)
  {
    var next := SaveRepair(desk, x).desk;
    RepairKeepsInv(desk, x);
    AcceptedRepairStored(desk, x);
    RunKeepsInv(next, steps);
    MembersStay(next.repairs, Run(next, steps).repairs, x);
    StoredRepairRetry(Run(next, steps), x);
  }

  lemma AcceptedRepairStored(desk: Desk, x: RepairAttempt)
    requires SaveRepair(desk, x).reply.Success?
    ensures x in SaveRepair(desk, x).desk.repairs && TextOk(x.key, 160) && TextOk(x.handoffId, 160)
  {
    var next := SaveRepair(desk, x).desk;
    if Find(desk.repairs, RepairKey(x.key)).None? {
      assert next.repairs[|desk.repairs|] == x;
    }
  }

  lemma MembersStay<T>(rows: seq<T>, longer: seq<T>, x: T)
    requires rows <= longer && x in rows
    ensures x in longer
  {
    var i :| 0 <= i < |rows| && rows[i] == x;
    assert longer[i] == x;
  }

  lemma OnlyRepair(desk: Desk, x: RepairAttempt)
    requires AllRepairsOk(desk) && x in desk.repairs
    ensures Find(desk.repairs, RepairKey(x.key)) == Some(x)
  {
    var i :| 0 <= i < |desk.repairs| && desk.repairs[i] == x;
    assert RepairKey(x.key)(desk.repairs[i]);
    var prior := Find(desk.repairs, RepairKey(x.key));
    var j :| 0 <= j < |desk.repairs| && desk.repairs[j] == prior.value;
  }

  // ----- stale sources

  // Nothing new lands on a handoff whose source has changed, and no handoff
  // call touches the recorded sessions.
  lemma NewFeedbackIsCurrent(desk: Desk, f: TutorFeedback)
    requires GiveFeedback(desk, f).desk != desk
    ensures GiveFeedback(desk, f).desk == desk.(feedback := desk.feedback + [f]) && GiveFeedback(desk, f).reply.Success?
    ensures var view := Get(desk, f.handoffId);
            view.Success? && view.value.current && view.value.feedback.None? &&
              AssessmentOk(view.value.handoff.source, f)
  {
  }

  lemma NewRepairIsCurrent(desk: Desk, x: RepairAttempt)
    requires SaveRepair(desk, x).desk != desk
    ensures SaveRepair(desk, x).desk == desk.(repairs := desk.repairs + [x]) && SaveRepair(desk, x).reply.Success?
    ensures var view := Get(desk, x.handoffId);
            view.Success? && view.value.current && 1 <= x.no <= RepairCount(view.value) && |view.value.repairs| < 64
  {
  }

  lemma NewHandoffIsCurrent(desk: Desk, workspace: string, sessionId: int, freshId: string) returns (h: Handoff)
    requires Create(desk, workspace, sessionId, freshId).desk != desk
    ensures Create(desk, workspace, sessionId, freshId).desk == desk.(handoffs := desk.handoffs + [h])
    ensures h.id == freshId && h.workspace == workspace && h.sessionId == sessionId && MadeWhileCurrent(desk, h)
  {
    h := Handoff(freshId, workspace, sessionId, TakeSnapshot(desk.sessions, sessionId).value);
  }

  // The state in which f was given, x taken, h made.
  ghost predicate GivenWhileCurrent(before: Desk, f: TutorFeedback) {
    var view := Get(before, f.handoffId);
    && view.Success? && view.value.current && view.value.feedback.None? && AssessmentOk(view.value.handoff.source, f)
  }

  ghost predicate TakenWhileCurrent(before: Desk, x: RepairAttempt) {
    var view := Get(before, x.handoffId);
    && view.Success? && view.value.current && 1 <= x.no <= RepairCount(view.value) && |view.value.repairs| < 64
  }

  ghost predicate MadeWhileCurrent(before: Desk, h: Handoff) {
    Current(before, h) && Find(before.handoffs, Workspace(h.workspace)).None?
  }

  lemma {:induction false} FirstStep(desk: Desk, steps: seq<Step>, k: nat)
    requires steps != [] && k <= |steps[1..]|
    ensures Run(desk, steps[..k + 1]) == Run(Next(desk, steps[0]), steps[1..][..k])
  {
    assert steps[..k + 1][1..] == steps[1..][..k];
  }

  lemma StepGivesFeedback(desk: Desk, step: Step)
    requires |Next(desk, step).feedback| > |desk.feedback|
    ensures step.FeedbackStep? && Next(desk, step).feedback == desk.feedback + [step.feedback]
    ensures GivenWhileCurrent(desk, step.feedback)
  {
    if step.FeedbackStep? {
      NewFeedbackIsCurrent(desk, step.feedback);
    }
  }

  lemma StepTakesRepair(desk: Desk, step: Step)
    requires |Next(desk, step).repairs| > |desk.repairs|
    ensures step.RepairStep? && Next(desk, step).repairs == desk.repairs + [step.attempt]
    ensures TakenWhileCurrent(desk, step.attempt)
  {
    if step.RepairStep? {
      NewRepairIsCurrent(desk, step.attempt);
    }
  }

  lemma StepMakesHandoff(desk: Desk, step: Step) returns (h: Handoff)
    requires |Next(desk, step).handoffs| > |desk.handoffs|
    ensures step == CreateStep(h.workspace, h.sessionId, h.id) && Next(desk, step).handoffs == desk.handoffs + [h]
    ensures MadeWhileCurrent(desk, h)
  {
    h := NewHandoffIsCurrent(desk, step.workspace, step.sessionId, step.freshId);
  }

  // What a run leaves, taken apart at its first step.
  lemma {:induction false} FirstThenRest(desk: Desk, steps: seq<Step>)
    requires Inv(desk) && steps != []
    ensures var next := Next(desk, steps[0]);
            && Inv(next) && Extends(desk, next) && Extends(next, Run(desk, steps))
            && Run(desk, steps) == Run(next, steps[1..]) && Run(desk, steps[..0]) == desk
  {
    StepKeepsInv(desk, steps[0]);
    RunKeepsInv(Next(desk, steps[0]), steps[1..]);
  }

  // Every assessment in the table that was not there at the start was given by a
  // step of the run, at a moment when its source was current and the handoff had
  // no other.
  lemma {:induction false} FeedbackGivenWhileCurrent(desk: Desk, steps: seq<Step>, i: nat) returns (k: nat)
    requires Inv(desk) && |desk.feedback| <= i < |Run(desk, steps).feedback|
    ensures k < |steps| && steps[k] == FeedbackStep(Run(desk, steps).feedback[i])
    ensures GivenWhileCurrent(Run(desk, steps[..k]), Run(desk, steps).feedback[i])
    decreases |steps|
  {
    FirstThenRest(desk, steps);
    var next := Next(desk, steps[0]);
    if i < |next.feedback| {
      StepGivesFeedback(desk, steps[0]);
      k := 0;
    } else {
      var rest := FeedbackGivenWhileCurrent(next, steps[1..], i);
      FirstStep(desk, steps, rest);
      k := rest + 1;
    }
  }

  // So was every repair attempt, at one of at most sixty-four the handoff has.
  lemma {:induction false} RepairTakenWhileCurrent(desk: Desk, steps: seq<Step>, i: nat) returns (k: nat)
    requires Inv(desk) && |desk.repairs| <= i < |Run(desk, steps).repairs|
    ensures k < |steps| && steps[k] == RepairStep(Run(desk, steps).repairs[i])
    ensures TakenWhileCurrent(Run(desk, steps[..k]), Run(desk, steps).repairs[i])
    decreases |steps|
  {
    FirstThenRest(desk, steps);
    var next := Next(desk, steps[0]);
    if i < |next.repairs| {
      StepTakesRepair(desk, steps[0]);
      k := 0;
    } else {
      var rest := RepairTakenWhileCurrent(next, steps[1..], i);
      FirstStep(desk, steps, rest);
      k := rest + 1;
    }
  }

  // And every handoff froze the session as it stood then, for a workspace without one.
  lemma {:induction false} HandoffMadeWhileCurrent(desk: Desk, steps: seq<Step>, i: nat) returns (k: nat)
    requires Inv(desk) && |desk.handoffs| <= i < |Run(desk, steps).handoffs|
    ensures var h := Run(desk, steps).handoffs[i];
            k < |steps| && steps[k] == CreateStep(h.workspace, h.sessionId, h.id) &&
              MadeWhileCurrent(Run(desk, steps[..k]), h)
    decreases |steps|
  {
    FirstThenRest(desk, steps);
    var next := Next(desk, steps[0]);
    if i < |next.handoffs| {
      var h := StepMakesHandoff(desk, steps[0]);
      k := 0;
    } else {
      var rest := HandoffMadeWhileCurrent(next, steps[1..], i);
      FirstStep(desk, steps, rest);
      k := rest + 1;
    }
  }

  // ----- workspaces

  lemma CreatedHandoffStands(desk: Desk, workspace: string, sessionId: int, freshId: string) returns (h: Handoff)
    requires Inv(desk) && TextOk(freshId, 160) && Create(desk, workspace, sessionId, freshId).reply.Success?
    ensures Find(Create(desk, workspace, sessionId, freshId).desk.handoffs, Workspace(workspace)) == Some(h)
    ensures Create(desk, workspace, sessionId, freshId).reply.value.handoff == h && h.sessionId == sessionId
    ensures Find(Create(desk, workspace, sessionId, freshId).desk.handoffs, HandoffId(h.id)) == Some(h) &&
            TextOk(h.id, 160)
    ensures TextOk(workspace, 160) && sessionId > 0
  {
    var first := Create(desk, workspace, sessionId, freshId);
    if first.desk == desk {
      h := Find(desk.handoffs, Workspace(workspace)).value;
      OnlyHandoff(desk, h);
    } else {
      h := Handoff(freshId, workspace, sessionId, TakeSnapshot(desk.sessions, sessionId).value);
      FindLast(desk.handoffs, h, Workspace(workspace));
      FindLast(desk.handoffs, h, HandoffId(freshId));
    }
  }

  // A workspace keeps pointing at the handoff it was given: asking again, after
  // any run and with any fresh identifier, changes nothing and shows the same
  // frozen source, and asking for another session is a conflict.
  lemma {:induction false} WorkspaceKeepsHandoff(desk: Desk, workspace: string, sessionId: int, freshId: string,
    steps: seq<Step>, otherId: string)
    requires Inv(desk) && TextOk(freshId, 160) && Create(desk, workspace, sessionId, freshId).reply.Success?
    ensures var first := Create(desk, workspace, sessionId, freshId);
            var later := Run(first.desk, steps);
            var again := Create(later, workspace, sessionId, otherId);
            && again.desk == later && again.reply.Success? && again.reply.value.handoff == first.reply.value.handoff
            && forall other :: other != sessionId ==> Create(later, workspace, other, otherId).reply.Failure?
  {
    var first := Create(desk, workspace, sessionId, freshId);
    var h := CreatedHandoffStands(desk, workspace, sessionId, freshId);
    CreateKeepsInv(desk, workspace, sessionId, freshId);
    RunKeepsInv(first.desk, steps);
    var later := Run(first.desk, steps);
    FoundStays(first.desk.handoffs, later.handoffs, Workspace(workspace));
    FoundStays(first.desk.handoffs, later.handoffs, HandoffId(h.id));
  }

  lemma OnlyHandoff(desk: Desk, h: Handoff)
    requires HandoffsOk(desk) && h in desk.handoffs
    ensures Find(desk.handoffs, HandoffId(h.id)) == Some(h) && TextOk(h.id, 160)
  {
    var i :| 0 <= i < |desk.handoffs| && desk.handoffs[i] == h;
    assert HandoffId(h.id)(desk.handoffs[i]);
    var r := Find(desk.handoffs, HandoffId(h.id));
    var j :| 0 <= j < |desk.handoffs| && desk.handoffs[j] == r.value;
  }
}
