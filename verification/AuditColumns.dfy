// What a committed batch leaves in every column, told from the fields of its
// proposals alone (src/audit.rs, set_status).
module AuditColumns {
  import opened AuditModel
  import opened AuditCommit

  predicate HoldsText(fields: Row, c: Column) {
    c in fields && (fields[c].Text? || fields[c].Encoded?)
  }

  // The column takes the text of the field, and keeps its value without one.
  predicate Takes(before: Row, after: Row, fields: Row, c: Column) {
    Get(after, c) == if HoldsText(fields, c) then fields[c] else Get(before, c)
  }

  // The column shows the text of the field, and nothing without one.
  predicate Mirrors(after: Row, fields: Row, c: Column) {
    Get(after, c) == if HoldsText(fields, c) then fields[c] else Null
  }

  ghost predicate SameBut(before: Row, after: Row, changed: set<Column>) {
    forall c: Column :: c !in changed && c != Revision ==>
      (c in after <==> c in before) && (c in before ==> after[c] == before[c])
  }

  // The columns of an amended row.
  ghost predicate ColumnsWritten(p: Proposal, before: Row, after: Row)
    requires p.after.Fields?
  {
    && Get(before, Revision) == Number(p.expectedRevision)
    && Get(after, Revision) == Number(p.expectedRevision + 1)
    && match p.operation
       case RetractObservation =>
         Get(after, EffectiveStatus) == Text("retracted") && SameBut(before, after, {EffectiveStatus})
       case MarkDuplicate =>
         Get(after, EffectiveStatus) == Text("retracted") && SameBut(before, after, {EffectiveStatus})
       case InvalidateReview =>
         Get(after, EffectiveStatus) == Text("invalidated") && SameBut(before, after, {EffectiveStatus})
       case AmendAssessment =>
         && Takes(before, after, p.after.m, EffectiveStatus)
         && (p.entity.kind != Review ==> Takes(before, after, p.after.m, Outcome))
         && SameBut(before, after, if p.entity.kind == Review then {EffectiveStatus} else {Outcome, EffectiveStatus})
       case ReclassifyFinding =>
         && Takes(before, after, p.after.m, AssessmentKind) && Takes(before, after, p.after.m, EffectiveStatus)
         && SameBut(before, after, {AssessmentKind, EffectiveStatus})
       case LinkContinuation =>
         && Mirrors(after, p.after.m, ExerciseInstance) && Mirrors(after, p.after.m, StimulusIdentity)
         && Mirrors(after, p.after.m, SourceEvent)
         && SameBut(before, after, {ExerciseInstance, StimulusIdentity, SourceEvent})
       case ReassignTarget =>
         && WeaknessKey in p.after.m && Get(after, WeaknessKey) == p.after.m[WeaknessKey]
         && SameBut(before, after, {WeaknessKey})
       case AmendSummary => SameBut(before, after, {})
       case AddRecoveredFinding => false
  }

  // What amend_summary does to the summaries of its session.
  ghost predicate SummaryWritten(p: Proposal, before: Summaries, after: Summaries)
    requires p.after.Fields?
  {
    && SummaryKey in p.after.m && SummaryValue in p.after.m
    && var sid, key, value := p.entity.id, p.after.m[SummaryKey], p.after.m[SummaryValue];
       && (value == Null ==> (sid, key) !in after)
       && (value != Null ==> (sid, key) in after && after[(sid, key)] == Summary(value, p.expectedRevision + 1))
       && forall other: Value :: other != key ==>
            && ((sid, other) in after <==> (sid, other) in before)
            && ((sid, other) in before ==> after[(sid, other)] == before[(sid, other)])
  }

  predicate HoldsNumber(fields: Row, c: Column) {
    c in fields && fields[c].Number?
  }

  // The row a recovered finding adds.
  ghost predicate FindingWritten(p: Proposal, row: Row)
    requires p.after.Fields?
  {
    var fields := p.after.m;
    && row.Keys == {SessionId, PracticeItemId, AttemptId, AssessmentKind, Original, Suggestion, Note, EffectiveStatus,
                    Revision}
    && row[SessionId] == Number(p.entity.id)
    && row[PracticeItemId] == (if HoldsNumber(fields, PracticeItemId) then fields[PracticeItemId] else Null)
    && row[AttemptId] == (if HoldsNumber(fields, AttemptId) then fields[AttemptId] else Null)
    && HoldsText(fields, AssessmentKind) && row[AssessmentKind] == fields[AssessmentKind]
    && HoldsText(fields, Original) && row[Original] == fields[Original]
    && Mirrors(row, fields, Suggestion) && Mirrors(row, fields, Note)
    && row[EffectiveStatus] == Text("active") && row[Revision] == Number(1)
  }

  // ----- one row

  lemma AmendedColumns(row: Row, p: Proposal)
    requires OperationValid(p) && p.operation != AddRecoveredFinding
    requires Get(row, Revision) == Number(p.expectedRevision)
    requires p.operation == ReassignTarget ==> WeaknessKey in p.after.m
    ensures ColumnsWritten(p, row, AmendedRow(row, p))
  {
    if p.operation == LinkContinuation {
      LinkColumns(row, p);
    }
  }

  lemma LinkColumns(row: Row, p: Proposal)
    requires p.operation == LinkContinuation && p.after.Fields? && Get(row, Revision) == Number(p.expectedRevision)
    ensures ColumnsWritten(p, row, AmendedRow(row, p))
  {
  }

  lemma AmendedSession(p: Proposal, before: Summaries, after: Summaries)
    requires OperationValid(p) && p.operation == AmendSummary
    requires SameSession(after, AmendedSummaries(before, p), p.entity.id)
    ensures SummaryWritten(p, before, after)
  {
  }

  lemma InsertedColumns(p: Proposal)
    requires p.after.Fields? && IsString(Get(p.after.m, Original)) && IsString(Get(p.after.m, AssessmentKind))
    ensures FindingWritten(p, NewFinding(p.entity.id, p.after.m))
  {
  }

  // ----- a whole batch

  // Every amendment a commit takes leaves its row, and its session's summaries,
  // as the fields of the proposal say; nothing else in them moves.
  lemma CommitWritesColumns(db: Db, batch: Batch, i: nat)
    requires WellTyped(db) && Apply(db, batch).Success?
    requires i < |batch.proposals| && Fresh(db, batch.proposals[i])
    requires batch.proposals[i].operation != AddRecoveredFinding
    ensures var p, done := batch.proposals[i], Apply(db, batch).value.db;
            && p.after.Fields? && p.entity in db.rows && p.entity in done.rows
            && ColumnsWritten(p, db.rows[p.entity], done.rows[p.entity])
            && (p.operation == AmendSummary ==> SummaryWritten(p, db.summaries, done.summaries))
  {
    var p := batch.proposals[i];
    CommitRan(db, batch);
    ProposalHeld(db, batch, i);
    CommitEffects(db, batch);
    var done := Apply(db, batch).value;
    EffectsInColumns(db, batch.proposals, i, done.(db := done.db.(runs := db.runs)));
  }

  lemma EffectsInColumns(db: Db, ps: seq<Proposal>, i: nat, end: Progress)
    requires Effects(Progress(db, 0, 0), ps, end) && i < |ps| && Amends(db, ps[i]) && OperationValid(ps[i])
    requires ps[i].entity in db.rows && Get(db.rows[ps[i].entity], Revision) == Number(ps[i].expectedRevision)
    ensures ps[i].entity in end.db.rows && ColumnsWritten(ps[i], db.rows[ps[i].entity], end.db.rows[ps[i].entity])
    ensures ps[i].operation == AmendSummary ==> SummaryWritten(ps[i], db.summaries, end.db.summaries)
  {
    AmendedColumns(db.rows[ps[i].entity], ps[i]);
    if ps[i].operation == AmendSummary {
      AmendedSession(ps[i], db.summaries, end.db.summaries);
    }
  }

  // What validation saw of a proposal that is not yet recorded.
  lemma ProposalHeld(db: Db, batch: Batch, i: nat)
    requires BatchValid(db, batch) && i < |batch.proposals| && Fresh(db, batch.proposals[i])
    ensures OperationValid(batch.proposals[i])
    ensures batch.proposals[i].operation != AddRecoveredFinding ==>
              && batch.proposals[i].entity in db.rows
              && Get(db.rows[batch.proposals[i].entity], Revision) == Number(batch.proposals[i].expectedRevision)
  {
    assert ProposalValid(db, batch, i);
    if batch.proposals[i].operation != AddRecoveredFinding {
      EntityRevision(db, batch.proposals[i].entity);
    }
  }

  // The proposals that add a finding, in list order.
  function Recovering(ps: seq<Proposal>): seq<Proposal> {
    if ps == [] then []
    else (if ps[0].operation == AddRecoveredFinding then [ps[0]] else []) + Recovering(ps[1..])
  }

  // They take the next identifiers in list order, and no other row is added.
  ghost predicate FindingsWritten(db: Db, added: seq<Proposal>, end: Db) {
    && end.nextFinding == db.nextFinding + |added|
    && (forall k :: 0 <= k < |added| ==> AddedAt(db, added[k], k, end) && FindingFits(db, added[k]))
    && forall r :: r in end.rows && r !in db.rows ==>
         r.kind == Finding && db.nextFinding <= r.id < db.nextFinding + |added|
  }

  // A recovered finding is on a session that is there, names an item and an attempt
  // of that session if any, and is about something.
  predicate FindingFits(db: Db, p: Proposal) {
    && p.after.Fields? && Ref(Session, p.entity.id) in db.rows
    && var fields := p.after.m;
       && Says(fields, AssessmentKind, {"error", "awkward", "regional_variant", "stylistic_improvement", "accepted"})
       && HoldsText(fields, Original)
       && (HoldsNumber(fields, PracticeItemId) ==>
             var item := Ref(PracticeItem, fields[PracticeItemId].n);
             item in db.rows && Get(db.rows[item], SessionId) == Number(p.entity.id))
       && (HoldsNumber(fields, AttemptId) ==> (fields[AttemptId].n, p.entity.id) in db.attempts)
       && (HoldsNumber(fields, PracticeItemId) || HoldsNumber(fields, AttemptId) || fields[Original] != Text(""))
  }

  lemma InsertableIff(db: Db, p: Proposal)
    requires p.after.Fields?
    ensures FindingInsertable(db, p.entity.id, p.after.m) <==> FindingFits(db, p)
  {
    assert FINDING_KINDS == ["error", "awkward", "regional_variant", "stylistic_improvement", "accepted"];
  }

  // Nothing a finding's fitness depends on has moved.
  ghost predicate AnchorsKept(db: Db, next: Db) {
    && next.attempts == db.attempts
    && forall r :: r in next.rows && r.kind != Finding ==>
         r in db.rows && Get(next.rows[r], SessionId) == Get(db.rows[r], SessionId)
  }

  ghost predicate AddedAt(db: Db, p: Proposal, k: int, end: Db) {
    var ref := Ref(Finding, db.nextFinding + k);
    ref !in db.rows && ref in end.rows && p.after.Fields? && FindingWritten(p, end.rows[ref])
  }

  lemma {:induction false} RunAddsFindings(g: Progress, runId: string, ps: seq<Proposal>)
    requires WellTyped(g.db) && Runnable(g.db, runId, ps) && ApplyAll(g, ps).Success? && DistinctTargets(g.db, ps)
    ensures FindingsWritten(g.db, Recovering(Unrecorded(g.db, ps)), ApplyAll(g, ps).value.db)
    decreases |ps|
  {
    if ps != [] {
      var next := ApplyOne(g, ps[0]).value;
      RestRuns(g, runId, ps);
      RunAddsFindings(next, runId, ps[1..]);
      RunEffects(next, runId, ps[1..]);
      HeadAdds(g, runId, ps, ApplyAll(next, ps[1..]).value);
    }
  }

  lemma {:induction false} HeadAdds(g: Progress, runId: string, ps: seq<Proposal>, end: Progress)
    requires ps != [] && WellTyped(g.db) && Runnable(g.db, runId, ps) && DistinctTargets(g.db, ps)
    requires ApplyOne(g, ps[0]).Success? && RowEffects(ApplyOne(g, ps[0]).value, ps[1..], end)
    requires FindingsWritten(ApplyOne(g, ps[0]).value.db, Recovering(Unrecorded(g.db, ps[1..])), end.db)
    ensures FindingsWritten(g.db, Recovering(Unrecorded(g.db, ps)), end.db)
  {
    if ps[0].operation == AddRecoveredFinding && Fresh(g.db, ps[0]) {
      InsertedStays(g, runId, ps, end);
    }
    HeadKnown(g.db, runId, ps);
    StepAdds(g, ps[0], Unrecorded(g.db, ps[1..]), end.db);
  }

  lemma HeadKnown(db: Db, runId: string, ps: seq<Proposal>)
    requires ps != [] && Runnable(db, runId, ps)
    ensures OperationValid(ps[0])
    ensures Fresh(db, ps[0]) || Find(db.ledger, ps[0].runId, ps[0].id).value.status == Applied
  {
  }

  lemma {:induction false} StepAdds(g: Progress, p: Proposal, rest: seq<Proposal>, end: Db)
    requires WellTyped(g.db) && OperationValid(p) && ApplyOne(g, p).Success?
    requires Fresh(g.db, p) || Find(g.db.ledger, p.runId, p.id).value.status == Applied
    requires FindingsWritten(ApplyOne(g, p).value.db, Recovering(rest), end)
    requires Fresh(g.db, p) && p.operation == AddRecoveredFinding ==> AddedAt(g.db, p, 0, end)
    ensures FindingsWritten(g.db, Recovering((if Fresh(g.db, p) then [p] else []) + rest), end)
  {
    if Fresh(g.db, p) {
      RecoveringHead(p, rest);
      if p.operation == AddRecoveredFinding {
        InsertAdds(g, p, Recovering(rest), end);
      } else {
        AmendAdds(g, p, Recovering(rest), end);
      }
    } else {
      assert [] + rest == rest;
    }
  }

  lemma {:induction false} RecoveringHead(p: Proposal, rest: seq<Proposal>)
    ensures Recovering([p] + rest) == (if p.operation == AddRecoveredFinding then [p] else []) + Recovering(rest)
  {
    assert ([p] + rest)[1..] == rest;
  }

  lemma InsertAdds(g: Progress, p: Proposal, rest: seq<Proposal>, end: Db)
    requires WellTyped(g.db) && OperationValid(p) && Fresh(g.db, p) && p.operation == AddRecoveredFinding
    requires ApplyOne(g, p).Success? && FindingsWritten(ApplyOne(g, p).value.db, rest, end) && AddedAt(g.db, p, 0, end)
    ensures FindingsWritten(g.db, [p] + rest, end)
  {
    InsertStep(g, p);
    InsertableIff(g.db, p);
    OneAdded(g.db, p, ApplyOne(g, p).value.db, rest, end);
  }

  lemma AmendAdds(g: Progress, p: Proposal, rest: seq<Proposal>, end: Db)
    requires WellTyped(g.db) && OperationValid(p) && Amends(g.db, p)
    requires ApplyOne(g, p).Success? && FindingsWritten(ApplyOne(g, p).value.db, rest, end)
    ensures FindingsWritten(g.db, rest, end)
  {
    AmendStep(g, p);
    SessionKept(g.db.rows[p.entity], p);
    SameAdded(g.db, ApplyOne(g, p).value.db, rest, end);
  }

  // After the first proposal, the others run on from where it left the tables.
  lemma RestRuns(g: Progress, runId: string, ps: seq<Proposal>)
    requires ps != [] && WellTyped(g.db) && Runnable(g.db, runId, ps) && DistinctTargets(g.db, ps)
    requires ApplyOne(g, ps[0]).Success?
    ensures var next := ApplyOne(g, ps[0]).value;
            && WellTyped(next.db) && Runnable(next.db, runId, ps[1..]) && DistinctTargets(next.db, ps[1..])
            && Unrecorded(next.db, ps[1..]) == Unrecorded(g.db, ps[1..])
            && forall i :: 1 <= i < |ps| ==> (Amends(g.db, ps[i]) <==> Amends(next.db, ps[1..][i - 1]))
  {
    var next := ApplyOne(g, ps[0]).value;
    StepKeepsTypes(g, ps[0]);
    StepKeepsRunnable(g, runId, ps);
    StepMovesRows(g, ps[0]);
    forall i | 0 <= i < |ps[1..]|
      ensures ps[1..][i] == ps[i + 1] && (Fresh(g.db, ps[1..][i]) <==> Fresh(next.db, ps[1..][i]))
    {
    }
    SameUnrecorded(g.db, next.db, ps[1..]);
    RestDistinct(g.db, next.db, ps);
  }

  lemma RestDistinct(db: Db, next: Db, ps: seq<Proposal>)
    requires ps != [] && DistinctTargets(db, ps) && db.rows.Keys <= next.rows.Keys
    requires forall i :: 0 <= i < |ps[1..]| ==> (Fresh(db, ps[1..][i]) <==> Fresh(next, ps[1..][i]))
    ensures DistinctTargets(next, ps[1..])
  {
    assert forall i :: 0 <= i < |ps[1..]| ==> ps[1..][i] == ps[i + 1];
  }

  // No amendment of the run touches the finding it has just added.
  lemma InsertedStays(g: Progress, runId: string, ps: seq<Proposal>, end: Progress)
    requires ps != [] && WellTyped(g.db) && Runnable(g.db, runId, ps) && DistinctTargets(g.db, ps)
    requires Fresh(g.db, ps[0]) && ps[0].operation == AddRecoveredFinding && ApplyOne(g, ps[0]).Success?
    requires RowEffects(ApplyOne(g, ps[0]).value, ps[1..], end)
    ensures AddedAt(g.db, ps[0], 0, end.db)
  {
    var next, ref := ApplyOne(g, ps[0]).value, Ref(Finding, g.db.nextFinding);
    InsertStep(g, ps[0]);
    RestRuns(g, runId, ps);
    InsertedColumns(ps[0]);
    assert !Targeted(next.db, ps[1..], ref) by {
      forall i | 0 <= i < |ps[1..]| && Amends(next.db, ps[1..][i])
        ensures ps[1..][i].entity != ref
      {
        assert ps[1..][i] == ps[i + 1] && Amends(g.db, ps[i + 1]);
      }
    }
  }

  // No amendment moves a row to another session.
  lemma SessionKept(row: Row, p: Proposal)
    ensures Get(AmendedRow(row, p), SessionId) == Get(row, SessionId)
  {
  }

  lemma FitsBefore(db: Db, next: Db, p: Proposal)
    requires AnchorsKept(db, next) && FindingFits(next, p)
    ensures FindingFits(db, p)
  {
  }

  lemma OneAdded(db: Db, p: Proposal, next: Db, rest: seq<Proposal>, end: Db)
    requires AddedAt(db, p, 0, end) && FindingFits(db, p) && FindingsWritten(next, rest, end) && AnchorsKept(db, next)
    requires next.nextFinding == db.nextFinding + 1 && next.rows.Keys == db.rows.Keys + {Ref(Finding, db.nextFinding)}
    ensures FindingsWritten(db, [p] + rest, end)
  {
    forall k | 0 <= k < |[p] + rest|
      ensures AddedAt(db, ([p] + rest)[k], k, end) && FindingFits(db, ([p] + rest)[k])
    {
      if k > 0 {
        assert AddedAt(next, rest[k - 1], k - 1, end);
        FitsBefore(db, next, rest[k - 1]);
      }
    }
  }

  lemma SameAdded(db: Db, next: Db, rest: seq<Proposal>, end: Db)
    requires FindingsWritten(next, rest, end) && AnchorsKept(db, next)
    requires next.nextFinding == db.nextFinding && next.rows.Keys == db.rows.Keys
    ensures FindingsWritten(db, rest, end)
  {
    forall k | 0 <= k < |rest|
      ensures AddedAt(db, rest[k], k, end) && FindingFits(db, rest[k])
    {
      assert AddedAt(next, rest[k], k, end);
      FitsBefore(db, next, rest[k]);
    }
  }

  // Every recovered finding a commit takes adds one row, under the next free
  // identifier, with the fields of its proposal; a commit adds no other row.
  lemma {:induction false} CommitAddsFindings(db: Db, batch: Batch)
    requires WellTyped(db) && Apply(db, batch).Success?
    ensures FindingsWritten(db, Recovering(Unrecorded(db, batch.proposals)), Apply(db, batch).value.db)
  {
    var open := OpenRun(db, batch);
    CommitRan(db, batch);
    ValidIsRunnable(db, batch);
    ValidTargetsDistinct(db, batch);
    OpenRunTyped(db, batch);
    RunAddsFindings(Progress(open, 0, 0), batch.runId, batch.proposals);
    OpenRunKeepsTables(db, batch);
    var end := ApplyAll(Progress(open, 0, 0), batch.proposals).value;
    TablesDecideFindings(open, end.db, db, CloseRun(end.db, batch, end.applied),
                         Recovering(Unrecorded(db, batch.proposals)));
  }

  lemma {:induction false} OpenRunKeepsTables(db: Db, batch: Batch)
    ensures OpenRun(db, batch).rows == db.rows && OpenRun(db, batch).nextFinding == db.nextFinding
    ensures OpenRun(db, batch).attempts == db.attempts
    ensures Unrecorded(OpenRun(db, batch), batch.proposals) == Unrecorded(db, batch.proposals)
  {
    SameUnrecorded(OpenRun(db, batch), db, batch.proposals);
  }

  lemma TablesDecideFindings(a: Db, end: Db, b: Db, done: Db, added: seq<Proposal>)
    requires FindingsWritten(a, added, end)
    requires b.rows == a.rows && done.rows == end.rows && b.attempts == a.attempts
    requires b.nextFinding == a.nextFinding && done.nextFinding == end.nextFinding
    ensures FindingsWritten(b, added, done)
  {
    forall k | 0 <= k < |added|
      ensures AddedAt(b, added[k], k, done) && FindingFits(b, added[k])
    {
      assert AddedAt(a, added[k], k, end);
    }
  }

  // ----- what the tables take

  predicate Says(row: Row, c: Column, words: set<string>) {
    c in row && row[c].Text? && row[c].s in words
  }

  // The words the columns of a table may hold.
  predicate Constrained(kind: Kind, row: Row) {
    match kind
    case Observation =>
      && Says(row, Outcome, {"incorrect", "partially_correct", "correct", "prompted_correct", "omitted"})
      && Says(row, EffectiveStatus, {"active", "retracted", "disputed"})
    case PracticeItem =>
      && (Get(row, Outcome) == Null || Says(row, Outcome, {"incorrect", "partially_correct", "correct", "omitted"}))
      && Says(row, EffectiveStatus, {"active", "retracted", "disputed"})
    case Finding =>
      && Says(row, AssessmentKind, {"error", "awkward", "regional_variant", "stylistic_improvement", "accepted"})
      && Says(row, EffectiveStatus, {"active", "retracted", "disputed"})
    case Review => Says(row, EffectiveStatus, {"active", "invalidated", "disputed"})
    case Session => true
    case Unsupported => false
  }

  lemma WordsIff(v: Value, words: seq<string>)
    ensures IsOneOf(v, words) <==> v.Text? && v.s in words
  {
  }

  lemma ConstraintsIff(kind: Kind, row: Row)
    ensures ChecksHold(kind, row) <==> Constrained(kind, row)
  {
    assert OBSERVATION_OUTCOMES == ["incorrect", "partially_correct", "correct", "prompted_correct", "omitted"];
    assert ITEM_OUTCOMES == ["incorrect", "partially_correct", "correct", "omitted"];
    assert FINDING_KINDS == ["error", "awkward", "regional_variant", "stylistic_improvement", "accepted"];
    assert CONTENT_STATUSES == ["active", "retracted", "disputed"];
    assert REVIEW_STATUSES == ["active", "invalidated", "disputed"];
  }

  // The two rows are sessions of one source event.
  predicate ShareEvent(rows: map<Ref, Row>, r: Ref, s: Ref) {
    && r in rows && s in rows && r != s && r.kind == Session && s.kind == Session
    && HoldsText(rows[r], SourceEvent) && Get(rows[s], SourceEvent) == rows[r][SourceEvent]
  }

  // After any commit every row holds the words of its table, and no two sessions
  // share a source event.
  lemma CommitStaysConstrained(db: Db, batch: Batch)
    requires WellTyped(db) && Apply(db, batch).Success?
    ensures var rows := Apply(db, batch).value.db.rows;
            && (forall r :: r in rows ==> Constrained(r.kind, rows[r]))
            && forall r, s :: !ShareEvent(rows, r, s)
  {
    CommitEffects(db, batch);
    TypedIsConstrained(Apply(db, batch).value.db);
  }

  lemma TypedIsConstrained(db: Db)
    requires WellTyped(db)
    ensures forall r :: r in db.rows ==> Constrained(r.kind, db.rows[r])
    ensures forall r, s :: !ShareEvent(db.rows, r, s)
  {
    forall r | r in db.rows
      ensures Constrained(r.kind, db.rows[r])
    {
      ConstraintsIff(r.kind, db.rows[r]);
    }
    forall r, s | r in db.rows
      ensures !ShareEvent(db.rows, r, s)
    {
      if r.kind == Session {
        assert EventFree(db.rows, r, Get(db.rows[r], SourceEvent));
      }
    }
  }
}
