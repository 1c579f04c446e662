// Reverting a run after its entities have been amended again: the compensation
// is built on the current revision, so it goes through and writes the columns
// of the reverted run over whatever stands in them.
module LaterAmendments {
  import opened AuditModel
  import opened AuditCommit
  import opened AuditRevert
  import opened AuditRestoration

  // A column the compensation writes only when it has a text to write.
  function TextColumn(original: Row, c: Column): Row {
    if IsString(Get(original, c)) then map[c := original[c]] else map[]
  }

  // The columns that undoing p rewrites, with their values.
  function Rewritten(p: Proposal): Row {
    var original := if p.before.Fields? then p.before.m else map[];
    match RevertOperation(p.operation)
    case AmendAssessment =>
      (if p.entity.kind == Review then map[] else TextColumn(original, Outcome)) + TextColumn(original, EffectiveStatus)
    case ReclassifyFinding => TextColumn(original, AssessmentKind) + TextColumn(original, EffectiveStatus)
    case LinkContinuation =>
      map[ExerciseInstance := StringOrNull(original, ExerciseInstance),
          StimulusIdentity := StringOrNull(original, StimulusIdentity),
            SourceEvent := StringOrNull(original, SourceEvent)]
    case ReassignTarget => map[WeaknessKey := Get(original, WeaknessKey)]
    case MarkDuplicate => map[EffectiveStatus := RETRACTED]
    case AmendSummary => map[]
    case RetractObservation => map[]
    case InvalidateReview => map[]
    case AddRecoveredFinding => map[]
  }

  lemma UndoRewrites(row: Row, p: Proposal)
    ensures var original := if p.before.Fields? then p.before.m else map[];
            Amend(p.entity.kind, RevertOperation(p.operation), RevertFields(p.operation, original), row) ==
              row + Rewritten(p)
  {
    var original := if p.before.Fields? then p.before.m else map[];
    var fields := RevertFields(p.operation, original);
    match RevertOperation(p.operation)
    case AmendAssessment =>
      if p.entity.kind == Review {
        CoalesceRewrites(row, fields, original, EffectiveStatus);
      } else {
        CoalesceBoth(row, fields, original, Outcome, EffectiveStatus);
      }
    case ReclassifyFinding => CoalesceBoth(row, fields, original, AssessmentKind, EffectiveStatus);
    case LinkContinuation =>
    case ReassignTarget =>
    case MarkDuplicate =>
    case AmendSummary =>
  }

  lemma CoalesceBoth(row: Row, fields: Row, original: Row, a: Column, b: Column)
    requires Get(fields, a) == Get(original, a) && Get(fields, b) == Get(original, b)
    ensures Coalesce(Coalesce(row, fields, a), fields, b) == row + (TextColumn(original, a) + TextColumn(original, b))
  {
    CoalesceRewrites(row, fields, original, a);
    CoalesceRewrites(Coalesce(row, fields, a), fields, original, b);
  }

  lemma CoalesceRewrites(row: Row, fields: Row, original: Row, c: Column)
    requires Get(fields, c) == Get(original, c)
    ensures Coalesce(row, fields, c) == row + TextColumn(original, c)
  {
  }

  // The run as the ledger of the current database has it.
  ghost predicate Later(now: Db, q: Request, ps: seq<Proposal>) {
    && WellTyped(now) && AppliedIn(now.ledger, q.batchId) == ps && NoRun(now.ledger, RunName(q.batchId, q.stamp))
    && Revert(now, q).Success?
  }

  ghost predicate Overwritten(now: Db, p: Proposal, end: Db) {
    && p.entity in now.rows && p.entity in end.rows
    && end.rows[p.entity] == (now.rows[p.entity] + Rewritten(p))[Revision := Number(Rev(now.rows[p.entity]) + 1)]
  }

  lemma BackBatch(now: Db, q: Request, ps: seq<Proposal>) returns (back: Batch)
    requires Later(now, q, ps)
    ensures Undone(now, ps, back, q) && Apply(now, back).Success? && Revert(now, q) == Apply(now, back)
    ensures back == RevertBatchOf(q, back.proposals)
  {
    BuiltFromEntities(now, ps, 0, q);
    BuiltIsUndone(now, ps, q);
    back := RevertBatchOf(q, Compensations(now, ps, 0, q).value);
  }

  lemma BackAmends(now: Db, ps: seq<Proposal>, back: Batch, q: Request, i: nat)
    requires Undone(now, ps, back, q) && NoRun(now.ledger, RunName(q.batchId, q.stamp)) && i < |ps|
    ensures Amends(now, back.proposals[i]) && back.proposals[i].entity == ps[|ps| - 1 - i].entity
  {
    assert back.proposals[i] == Undo(now, ps[|ps| - 1 - i], i, q);
    NoRunFindsNone(now.ledger, back.runId, back.proposals[i].id);
  }

  // Every entity of the run ends with the old columns written over what it
  // showed, one revision on, and every other row is untouched.
  lemma RevertOverwrites(now: Db, q: Request, ps: seq<Proposal>) returns (end: Db)
    requires Later(now, q, ps)
    ensures Revert(now, q).value.db == end
    ensures forall i :: 0 <= i < |ps| ==> Overwritten(now, ps[i], end)
    ensures end.rows.Keys >= now.rows.Keys
    ensures forall r :: r in now.rows && (forall i :: 0 <= i < |ps| ==> ps[i].entity != r) ==>
              end.rows[r] == now.rows[r]
  {
    var back := BackBatch(now, q, ps);
    end := Apply(now, back).value.db;
    CommitRows(now, back);
    EveryRow(now, ps, back, q, Progress(end.(runs := now.runs), 0, 0));
  }

  lemma EveryRow(now: Db, ps: seq<Proposal>, back: Batch, q: Request, end: Progress)
    requires WellTyped(now) && Undone(now, ps, back, q) && NoRun(now.ledger, RunName(q.batchId, q.stamp))
    requires RowEffects(Progress(now, 0, 0), back.proposals, end)
    ensures forall i :: 0 <= i < |ps| ==> Overwritten(now, ps[i], end.db)
    ensures end.db.rows.Keys >= now.rows.Keys
    ensures forall r :: r in now.rows && (forall i :: 0 <= i < |ps| ==> ps[i].entity != r) ==>
              end.db.rows[r] == now.rows[r]
  {
    forall i | 0 <= i < |ps|
      ensures Overwritten(now, ps[i], end.db)
    {
      EachOverwritten(now, ps, back, q, i, end);
    }
    forall r | r in now.rows && (forall i :: 0 <= i < |ps| ==> ps[i].entity != r)
      ensures r in end.db.rows && end.db.rows[r] == now.rows[r]
    {
      NotTargeted(now, ps, back, q, r);
    }
  }

  // The entity of a recorded proposal shows a revision.
  lemma ShownRevision(now: Db, p: Proposal)
    requires WellTyped(now) && EntityValue(now, p.entity).Some?
    ensures p.entity in now.rows && Get(now.rows[p.entity], Revision).Number? && Rev(now.rows[p.entity]) >= 1
    ensures Get(EntityValue(now, p.entity).value, Revision) == Number(Rev(now.rows[p.entity]))
  {
    EntityRevision(now, p.entity);
    EntityShows(now, p.entity);
  }

  lemma BackRow(now: Db, ps: seq<Proposal>, back: Batch, q: Request, i: nat, end: Progress)
    requires Undone(now, ps, back, q) && NoRun(now.ledger, RunName(q.batchId, q.stamp)) && i < |ps|
    requires RowEffects(Progress(now, 0, 0), back.proposals, end)
    ensures ps[i].entity in now.rows && ps[i].entity in end.db.rows
    ensures end.db.rows[ps[i].entity] == AmendedRow(now.rows[ps[i].entity], back.proposals[|ps| - 1 - i])
  {
    BackAmends(now, ps, back, q, |ps| - 1 - i);
    RowWritten(Progress(now, 0, 0), back.proposals, end, |ps| - 1 - i);
  }

  lemma EachOverwritten(now: Db, ps: seq<Proposal>, back: Batch, q: Request, i: nat, end: Progress)
    requires WellTyped(now) && Undone(now, ps, back, q) && NoRun(now.ledger, RunName(q.batchId, q.stamp)) && i < |ps|
    requires RowEffects(Progress(now, 0, 0), back.proposals, end)
    ensures Overwritten(now, ps[i], end.db)
  {
    BackRow(now, ps, back, q, i, end);
    UndoneAt(now, ps, back, q, i);
    ShownRevision(now, ps[i]);
    RowOverwritten(now, ps[i], |ps| - 1 - i, q, end.db);
  }

  lemma NotTargeted(now: Db, ps: seq<Proposal>, back: Batch, q: Request, r: Ref)
    requires Undone(now, ps, back, q) && forall i :: 0 <= i < |ps| ==> ps[i].entity != r
    ensures !Targeted(now, back.proposals, r)
  {
    forall j | 0 <= j < |back.proposals|
      ensures back.proposals[j].entity != r
    {
      assert back.proposals[j] == Undo(now, ps[|ps| - 1 - j], j, q);
    }
  }

  lemma UndoRow(now: Db, p: Proposal, k: nat, q: Request)
    requires EntityValue(now, p.entity).Some? && p.entity in now.rows && Get(now.rows[p.entity], Revision).Number?
    ensures var row := now.rows[p.entity];
            AmendedRow(row, Undo(now, p, k, q)) == (row + Rewritten(p))[Revision := Number(Rev(row) + 1)]
  {
    EntityRevision(now, p.entity);
    UndoRewrites(now.rows[p.entity], p);
  }

  lemma RowOverwritten(now: Db, p: Proposal, k: nat, q: Request, end: Db)
    requires EntityValue(now, p.entity).Some? && p.entity in now.rows && Get(now.rows[p.entity], Revision).Number?
    requires p.entity in end.rows && end.rows[p.entity] == AmendedRow(now.rows[p.entity], Undo(now, p, k, q))
    ensures Overwritten(now, p, end)
  {
    UndoRow(now, p, k, q);
  }

  lemma UndoneAt(done: Db, ps: seq<Proposal>, back: Batch, q: Request, i: nat)
    requires Undone(done, ps, back, q) && i < |ps|
    ensures EntityValue(done, ps[i].entity).Some? && back.proposals[|ps| - 1 - i] == Undo(done, ps[i], |ps| - 1 - i, q)
  {
    assert back.proposals[|ps| - 1 - i] == Undo(done, ps[|ps| - 1 - (|ps| - 1 - i)], |ps| - 1 - i, q);
  }

  lemma RowWritten(g: Progress, ps: seq<Proposal>, end: Progress, i: nat)
    requires RowEffects(g, ps, end) && i < |ps| && Amends(g.db, ps[i])
    ensures ps[i].entity in g.db.rows && ps[i].entity in end.db.rows
    ensures end.db.rows[ps[i].entity] == AmendedRow(g.db.rows[ps[i].entity], ps[i])
  {
  }

  // What was written since the run survives its revert exactly in the columns
  // that the compensation leaves alone or writes the same value to.
  lemma LaterAmendmentsSurviveIff(now: Db, q: Request, ps: seq<Proposal>, i: nat, columns: set<Column>)
    requires Later(now, q, ps) && i < |ps| && Revision !in columns
    ensures ps[i].entity in now.rows && ps[i].entity in Revert(now, q).value.db.rows
    ensures var before, after := now.rows[ps[i].entity], Revert(now, q).value.db.rows[ps[i].entity];
            (forall c :: c in columns ==> Get(after, c) == Get(before, c)) <==>
            forall c :: c in columns && c in Rewritten(ps[i]) ==> Rewritten(ps[i])[c] == Get(before, c)
  {
    var end := RevertOverwrites(now, q, ps);
    assert Overwritten(now, ps[i], end);
  }
}
