// What a revert leaves in the ledger: one entry for each applied proposal of the
// run, newest first, told from the fields of that proposal (src/audit.rs,
// revert_batch).
module RevertRecords {
  import opened Outcomes
  import opened Texts
  import opened AuditModel
  import opened AuditCommit
  import opened AuditRevert
  import opened AuditRestoration
  import opened LaterAmendments
  import opened AuditValidity

  // ----- the applied proposals of a run

  function AppliedBefore(ledger: seq<Amended>, runId: string, n: nat): nat
    requires n <= |ledger|
  {
    if n == 0 then 0 else AppliedBefore(ledger, runId, n - 1) + (if IsApplied(ledger[n - 1], runId) then 1 else 0)
  }

  predicate IsApplied(x: Amended, runId: string) {
    x.proposal.runId == runId && x.status == Applied
  }

  // ps are the applied proposals of the run in ledger order.
  ghost predicate AppliedOf(ledger: seq<Amended>, runId: string, ps: seq<Proposal>) {
    && |ps| == AppliedBefore(ledger, runId, |ledger|)
    && forall i: nat :: i < |ledger| && IsApplied(ledger[i], runId) ==> AppliedAt(ledger, runId, ps, i)
  }

  predicate AppliedAt(ledger: seq<Amended>, runId: string, ps: seq<Proposal>, i: nat)
    requires i < |ledger|
  {
    AppliedBefore(ledger, runId, i) < |ps| && ps[AppliedBefore(ledger, runId, i)] == ledger[i].proposal
  }

  lemma {:induction false} OneEntryOn(ledger: seq<Amended>, runId: string, n: nat)
    requires 0 < n <= |ledger|
    ensures AppliedBefore(ledger, runId, n) ==
            (if IsApplied(ledger[0], runId) then 1 else 0) + AppliedBefore(ledger[1..], runId, n - 1)
  {
    if n > 1 {
      OneEntryOn(ledger, runId, n - 1);
    } else {
      assert AppliedBefore(ledger, runId, 0) == 0;
    }
  }

  lemma {:induction false} AppliedInIsAppliedOf(ledger: seq<Amended>, runId: string)
    ensures AppliedOf(ledger, runId, AppliedIn(ledger, runId))
  {
    if ledger != [] {
      var rest := ledger[1..];
      AppliedInIsAppliedOf(rest, runId);
      OneEntryOn(ledger, runId, |ledger|);
      forall i: nat | i < |ledger| && IsApplied(ledger[i], runId)
        ensures AppliedAt(ledger, runId, AppliedIn(ledger, runId), i)
      {
        if i > 0 {
          OneEntryOn(ledger, runId, i);
          assert rest[i - 1] == ledger[i] && AppliedAt(rest, runId, AppliedIn(rest, runId), i - 1);
        } else {
          assert AppliedBefore(ledger, runId, 0) == 0;
        }
      }
    }
  }

  // ----- one compensating entry

  // The fields that undoing p writes: the old columns it had touched.
  ghost predicate UndoFields(p: Proposal, after: Row) {
    var was := match p.before case Fields(m) => m case NotAnObject => map[];
    match p.operation
    case AmendAssessment | RetractObservation | MarkDuplicate | InvalidateReview =>
      CopiedFrom(was, after, {Outcome, EffectiveStatus})
    case ReclassifyFinding => CopiedFrom(was, after, {AssessmentKind, EffectiveStatus})
    case LinkContinuation =>
      && after.Keys == {ExerciseInstance, StimulusIdentity, SourceEvent}
      && forall c :: c in after ==> after[c] == if c in was then was[c] else Null
    case ReassignTarget =>
      after.Keys == {WeaknessKey} && after[WeaknessKey] == if WeaknessKey in was then was[WeaknessKey] else Null
    case AmendSummary =>
      && after.Keys == {SummaryKey, SummaryValue} && after[SummaryKey] == Text("audit_quality")
      && after[SummaryValue] == if EffectiveSummary in was then was[EffectiveSummary] else Null
    case AddRecoveredFinding => after == map[EffectiveStatus := Text("retracted")]
  }

  predicate CopiedFrom(was: Row, after: Row, columns: set<Column>) {
    after.Keys == was.Keys * columns && forall c :: c in after ==> after[c] == was[c]
  }

  function UndoneBy(op: Operation): Operation {
    match op
    case AmendAssessment | RetractObservation | MarkDuplicate | InvalidateReview => AmendAssessment
    case AddRecoveredFinding => MarkDuplicate
    case _ => op
  }

  // Entry number k of the revert undoes p.
  ghost predicate Undoes(now: Db, q: Request, p: Proposal, k: nat, c: Proposal) {
    && c.runId == q.batchId + "-revert-" + q.stamp && c.id == "revert-" + Decimal(k) + "-" + p.id
    && c.schemaVersion == 1 && c.entity == p.entity && c.operation == UndoneBy(p.operation)
    && p.entity in now.rows && Get(now.rows[p.entity], Revision) == Number(c.expectedRevision)
    && (match c.beforeHash case Sha256(shown) => ShownAs(now, p.entity, shown) case Hex(_) => false)
    && c.before == p.after && (match c.after case Fields(after) => UndoFields(p, after) case NotAnObject => false)
    && c.sources == p.sources +
       [SourceRef(Amendment("amendment:" + q.batchId + ":" + p.id), None, Some(q.snapshotHash))]
    && c.reason == "Compensating amendment for " + q.batchId + ": " + p.reason && c.certainty == Supported
    && c.issueClass == p.issueClass && c.reviewer == p.reviewer && c.promptVersion == p.promptVersion
    && c.dependencies == []
  }

  lemma FieldsUndo(p: Proposal)
    ensures UndoFields(p, RevertFields(p.operation, match p.before case Fields(m) => m case NotAnObject => map[]))
  {
  }

  lemma CompensationUndoes(now: Db, q: Request, p: Proposal, k: nat)
    requires WellTyped(now) && EntityValue(now, p.entity).Some?
    ensures Undoes(now, q, p, k, Undo(now, p, k, q))
  {
    FieldsUndo(p);
    ShownRevision(now, p);
  }

  // ----- the whole revert

  // A revert appends one applied entry for each applied proposal of the run, newest
  // first, and closes a run of its own with as many.
  lemma RevertRecordsAll(now: Db, q: Request) returns (ps: seq<Proposal>, entries: seq<Amended>)
    requires WellTyped(now) && NoRun(now.ledger, RunName(q.batchId, q.stamp)) && Revert(now, q).Success?
    ensures AppliedOf(now.ledger, q.batchId, ps) && |entries| == |ps| > 0
    ensures Revert(now, q).value.db.ledger == now.ledger + entries && Revert(now, q).value.applied == |ps|
    ensures forall k :: 0 <= k < |entries| ==>
              entries[k].status == Applied && Undoes(now, q, ps[|ps| - 1 - k], k, entries[k].proposal)
    ensures var name, runs := q.batchId + "-revert-" + q.stamp, Revert(now, q).value.db.runs;
            && (forall r :: r != name ==> (r in runs <==> r in now.runs) && (r in runs ==> runs[r] == now.runs[r]))
            && name in runs && runs[name].boundary == q.now && runs[name].completed
            && (name !in now.runs ==> runs[name].proposedCount == runs[name].appliedCount == |ps|)
  {
    ps := AppliedIn(now.ledger, q.batchId);
    AppliedInIsAppliedOf(now.ledger, q.batchId);
    var back := BackBatch(now, q, ps);
    entries := Entries(back.proposals);
    AllCount(now, q, ps, back);
    CommitLedger(now, back);
    forall k | 0 <= k < |entries|
      ensures entries[k].status == Applied && Undoes(now, q, ps[|ps| - 1 - k], k, entries[k].proposal)
    {
      UndoneAt(now, ps, back, q, |ps| - 1 - k);
      CompensationUndoes(now, q, ps[|ps| - 1 - k], k);
    }
    RevertClosesRun(now, q, ps, back);
  }

  lemma {:induction false} AllCount(now: Db, q: Request, ps: seq<Proposal>, back: Batch)
    requires Later(now, q, ps) && Undone(now, ps, back, q)
    requires Apply(now, back).Success? && Revert(now, q) == Apply(now, back)
    ensures Unrecorded(now, back.proposals) == back.proposals && Apply(now, back).value.applied == |ps|
  {
    forall i | 0 <= i < |back.proposals|
      ensures Fresh(now, back.proposals[i])
    {
      BackAmends(now, ps, back, q, i);
    }
    AllUnrecorded(now, back.proposals);
    CommitEffects(now, back);
  }

  lemma RevertClosesRun(now: Db, q: Request, ps: seq<Proposal>, back: Batch)
    requires Later(now, q, ps) && Undone(now, ps, back, q)
    requires Apply(now, back).Success? && Revert(now, q) == Apply(now, back)
    requires back == RevertBatchOf(q, back.proposals) && Apply(now, back).value.applied == |ps|
    ensures var name, runs := q.batchId + "-revert-" + q.stamp, Revert(now, q).value.db.runs;
            && (forall r :: r != name ==> (r in runs <==> r in now.runs) && (r in runs ==> runs[r] == now.runs[r]))
            && name in runs && runs[name].boundary == q.now && runs[name].completed
            && (name !in now.runs ==> runs[name].proposedCount == runs[name].appliedCount == |ps|)
  {
    CommitClosesRun(now, back);
  }
}
