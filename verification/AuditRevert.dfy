// The compensating batch that revert_batch builds, and exactly when it
// succeeds and what it restores (src/audit.rs, revert_batch).
module AuditRevert {
  import opened Outcomes
  import opened Texts
  import opened AuditModel
  import opened AuditCommit

  function RevertOperation(op: Operation): Operation {
    match op
    case RetractObservation => AmendAssessment
    case MarkDuplicate => AmendAssessment
    case ReclassifyFinding => ReclassifyFinding
    case LinkContinuation => LinkContinuation
    case ReassignTarget => ReassignTarget
    case InvalidateReview => AmendAssessment
    case AmendAssessment => AmendAssessment
    case AddRecoveredFinding => MarkDuplicate
    case AmendSummary => AmendSummary
  }

  function Keep(original: Row, c: Column, into: Row): Row {
    if c in original then into[c := original[c]] else into
  }

  function RevertFields(op: Operation, original: Row): Row {
    match RevertOperation(op)
    case AmendAssessment => Keep(original, EffectiveStatus, Keep(original, Outcome, map[]))
    case ReclassifyFinding => Keep(original, EffectiveStatus, Keep(original, AssessmentKind, map[]))
    case LinkContinuation =>
      map[ExerciseInstance := Get(original, ExerciseInstance), StimulusIdentity := Get(original, StimulusIdentity),
          SourceEvent := Get(original, SourceEvent)]
    case ReassignTarget => map[WeaknessKey := Get(original, WeaknessKey)]
    case MarkDuplicate => map[EffectiveStatus := RETRACTED]
    case AmendSummary => map[SummaryKey := AUDIT_QUALITY, SummaryValue := Get(original, EffectiveSummary)]
    case RetractObservation => map[]
    case InvalidateReview => map[]
    case AddRecoveredFinding => map[]
  }

  function RevertId(index: nat, id: string): string {
    "revert-" + Decimal(index) + "-" + id
  }

  function RunName(batchId: string, stamp: string): string {
    batchId + "-revert-" + stamp
  }

  // What one revert_batch call is given: the run, the clock, the snapshot hash.
  datatype Request = Request(batchId: string, stamp: string, now: string, snapshotHash: string)

  function Compensation(current: Row, p: Proposal, index: nat, q: Request): Proposal {
    Proposal(
      RunName(q.batchId, q.stamp), RevertId(index, p.id), SCHEMA_VERSION, p.entity,
      if Get(current, Revision).Number? then Get(current, Revision).n else 1,
      Sha256(current), RevertOperation(p.operation), p.after,
      Fields(RevertFields(p.operation, if p.before.Fields? then p.before.m else map[])),
      p.sources + [SourceRef(Amendment("amendment:" + q.batchId + ":" + p.id), None, Some(q.snapshotHash))],
      "Compensating amendment for " + q.batchId + ": " + p.reason, p.issueClass, Supported, p.reviewer,
        p.promptVersion, [])
  }

  // Newest amendment first, numbered from k.
  function Compensations(db: Db, ps: seq<Proposal>, k: nat, q: Request): Result<seq<Proposal>, AuditError>
    decreases |ps|
  {
    if ps == [] then Success([])
    else
      var p := ps[|ps| - 1];
      var current := EntityValue(db, p.entity);
      if current.None? then Failure(MissingEntity)
      else
        var rest :- Compensations(db, ps[..|ps| - 1], k + 1, q);
        Success([Compensation(current.value, p, k, q)] + rest)
  }

  function AppliedIn(ledger: seq<Amended>, runId: string): seq<Proposal> {
    if ledger == [] then []
    else
      var rest := AppliedIn(ledger[1..], runId);
      if ledger[0].proposal.runId == runId && ledger[0].status == Applied then [ledger[0].proposal] + rest else rest
  }

  function RevertBatchOf(q: Request, proposals: seq<Proposal>): Batch {
    Batch(RunName(q.batchId, q.stamp), q.now, q.snapshotHash, "compensating-revert-v1", proposals)
  }

  // revert_batch
  ghost function Revert(db: Db, q: Request): Result<Progress, AuditError> {
    if Blank(q.batchId) then Failure(InvalidBatch)
    else
      var applied := AppliedIn(db.ledger, q.batchId);
      if applied == [] then Failure(NothingApplied)
      else
        var proposals :- Compensations(db, applied, 0, q);
        Apply(db, RevertBatchOf(q, proposals))
  }

  // ----- names

  lemma {:induction false} DecimalInjective(m: nat, n: nat)
    requires Decimal(m) == Decimal(n)
    ensures m == n
  {
    if m >= 10 && n >= 10 {
      var a, b := Decimal(m / 10), Decimal(n / 10);
      assert a == (a + ['0' + (m % 10) as char])[..|Decimal(m)| - 1];
      assert b == (b + ['0' + (n % 10) as char])[..|Decimal(n)| - 1];
      DecimalInjective(m / 10, n / 10);
      assert Decimal(m)[|Decimal(m)| - 1] == Decimal(n)[|Decimal(n)| - 1];
    } else if m < 10 && n < 10 {
      assert Decimal(m)[0] == Decimal(n)[0];
    }
  }

  lemma RevertIdInjective(i: nat, a: string, j: nat, b: string)
    requires RevertId(i, a) == RevertId(j, b)
    ensures i == j
  {
    var s, x, y := RevertId(i, a), Decimal(i), Decimal(j);
    assert s[7..] == x + "-" + a by {
      assert s == "revert-" + (x + "-" + a);
    }
    assert s[7..] == y + "-" + b by {
      assert s == "revert-" + (y + "-" + b);
    }
    var t := s[7..];
    assert t[|x|] == '-' && t[|y|] == '-';
    assert forall k :: 0 <= k < |x| ==> t[k] == x[k];
    assert forall k :: 0 <= k < |y| ==> t[k] == y[k];
    assert |x| == |y|;
    assert x == t[..|x|] == y;
    DecimalInjective(i, j);
  }

  // ----- one compensating step

  // p was built by `proposal`: its digest is of the value it carries.
  predicate Honest(p: Proposal) {
    p.before.Fields? && p.beforeHash == Sha256(p.before.m)
  }

  // A recovered finding and a duplicate finding have no valid inverse.
  predicate Compensable(p: Proposal) {
    p.operation != AddRecoveredFinding && !(p.operation == MarkDuplicate && p.entity.kind == Finding)
  }

  // The row left after p and then its compensation.
  function RevertedRow(original: Row, p: Proposal): Row {
    Amend(p.entity.kind, RevertOperation(p.operation),
      RevertFields(p.operation, if p.before.Fields? then p.before.m else map[]),
          AmendedRow(original, p))[Revision := Number(p.expectedRevision + 2)]
  }

  // COALESCE cannot write a null back, so a null outcome is the one column value lost.
  predicate RowReversible(original: Row, p: Proposal) {
    !(&& p.operation == AmendAssessment && p.entity.kind == PracticeItem
      && Get(original, Outcome) == Null && p.after.Fields? && IsString(Get(p.after.m, Outcome)))
  }

  // `before` shows the row, and for a session its summary beside it.
  ghost predicate Shows(before: Row, row: Row) {
    && EffectiveSummary !in row
    && row.Keys <= before.Keys && before.Keys <= row.Keys + {EffectiveSummary}
    && forall c :: c in row ==> before[c] == row[c]
  }

  lemma EntityShows(db: Db, ref: Ref)
    requires WellTyped(db) && EntityValue(db, ref).Some?
    ensures ref in db.rows && RowTyped(ref.kind, db.rows[ref], db.weaknesses)
    ensures Shows(EntityValue(db, ref).value, db.rows[ref])
  {
  }

  lemma AssessmentUntouched(row: Row, p: Proposal, c: Column)
    requires RevertOperation(p.operation) == AmendAssessment && c in row && c !in {Outcome, EffectiveStatus, Revision}
    ensures c in RevertedRow(row, p) && RevertedRow(row, p)[c] == row[c]
  {
  }

  lemma StatusComesBack(row: Row, p: Proposal)
    requires RevertOperation(p.operation) == AmendAssessment && p.before.Fields?
    requires EffectiveStatus in row && IsString(row[EffectiveStatus]) &&
             Get(p.before.m, EffectiveStatus) == row[EffectiveStatus]
    ensures EffectiveStatus in RevertedRow(row, p) && RevertedRow(row, p)[EffectiveStatus] == row[EffectiveStatus]
  {
    var fields := RevertFields(p.operation, p.before.m);
    assert Get(fields, EffectiveStatus) == row[EffectiveStatus];
  }

  lemma OutcomeComesBack(row: Row, p: Proposal)
    requires RevertOperation(p.operation) == AmendAssessment && p.before.Fields? && p.entity.kind != Review
    requires Outcome in row && Get(p.before.m, Outcome) == row[Outcome]
    requires IsString(row[Outcome]) || AmendedRow(row, p)[Outcome] == row[Outcome] == Null
    ensures Outcome in RevertedRow(row, p) && RevertedRow(row, p)[Outcome] == row[Outcome]
  {
    var fields := RevertFields(p.operation, p.before.m);
    assert Get(fields, Outcome) == row[Outcome];
  }

  lemma AssessmentColumn(row: Row, p: Proposal, weaknesses: set<string>, c: Column)
    requires RowTyped(p.entity.kind, row, weaknesses) && OperationValid(p) && Compensable(p) && Shows(p.before.m, row)
    requires RevertOperation(p.operation) == AmendAssessment && RowReversible(row, p) && c in row && c != Revision
    ensures c in RevertedRow(row, p) && RevertedRow(row, p)[c] == row[c]
  {
    if c == EffectiveStatus {
      StatusComesBack(row, p);
    } else if c == Outcome && p.entity.kind != Review {
      OutcomeComesBack(row, p);
    } else if c != Outcome {
      AssessmentUntouched(row, p, c);
    }
  }

  lemma AssessmentLost(row: Row, p: Proposal, weaknesses: set<string>)
    requires RowTyped(p.entity.kind, row, weaknesses) && OperationValid(p) && Shows(p.before.m, row)
    requires RevertOperation(p.operation) == AmendAssessment && !RowReversible(row, p)
    ensures RevertedRow(row, p) != row[Revision := Number(p.expectedRevision + 2)]
  {
    assert Get(RevertFields(p.operation, p.before.m), Outcome) == Null;
    assert RevertedRow(row, p)[Outcome] == p.after.m[Outcome];
  }

  lemma AssessmentKeys(row: Row, p: Proposal, weaknesses: set<string>)
    requires RowTyped(p.entity.kind, row, weaknesses) && OperationValid(p) && Compensable(p) && Shows(p.before.m, row)
    requires RevertOperation(p.operation) == AmendAssessment
    ensures RevertedRow(row, p).Keys == row.Keys + {Revision}
    ensures RevertedRow(row, p)[Revision] == Number(p.expectedRevision + 2)
  {
  }

  lemma AssessmentRestored(row: Row, p: Proposal, weaknesses: set<string>)
    requires RowTyped(p.entity.kind, row, weaknesses) && OperationValid(p) && Compensable(p) && Shows(p.before.m, row)
    requires RevertOperation(p.operation) == AmendAssessment
    ensures RowReversible(row, p) <==> RevertedRow(row, p) == row[Revision := Number(p.expectedRevision + 2)]
  {
    if RowReversible(row, p) {
      AssessmentKeys(row, p, weaknesses);
      forall c | c in row && c != Revision
        ensures RevertedRow(row, p)[c] == row[c]
      {
        AssessmentColumn(row, p, weaknesses, c);
      }
      assert RevertedRow(row, p) == row[Revision := Number(p.expectedRevision + 2)];
    } else {
      AssessmentLost(row, p, weaknesses);
    }
  }

  lemma ColumnsRestored(row: Row, p: Proposal, weaknesses: set<string>)
    requires RowTyped(p.entity.kind, row, weaknesses) && OperationValid(p) && Compensable(p) && Shows(p.before.m, row)
    requires RevertOperation(p.operation) != AmendAssessment
    ensures RevertedRow(row, p) == row[Revision := Number(p.expectedRevision + 2)]
  {
    var back := RevertedRow(row, p);
    var fields := RevertFields(p.operation, p.before.m);
    assert back.Keys == row.Keys + {Revision};
    match p.operation
    case ReclassifyFinding =>
      assert AssessmentKind in row && EffectiveStatus in row;
      assert Get(fields, AssessmentKind) == row[AssessmentKind] && Get(fields, EffectiveStatus) == row[EffectiveStatus];
      assert back == row[Revision := Number(p.expectedRevision + 2)];
    case LinkContinuation =>
      assert forall c :: c in {ExerciseInstance, StimulusIdentity, SourceEvent} ==> Get(fields, c) == row[c];
      assert forall c :: c in {ExerciseInstance, StimulusIdentity, SourceEvent} ==> StringOrNull(fields, c) == row[c];
      assert back == row[Revision := Number(p.expectedRevision + 2)];
    case ReassignTarget =>
      assert WeaknessKey in row && Get(fields, WeaknessKey) == row[WeaknessKey];
      assert back == row[Revision := Number(p.expectedRevision + 2)];
    case AmendSummary =>
      assert back == row[Revision := Number(p.expectedRevision + 2)];
  }

  lemma RowRestored(db: Db, p: Proposal)
    requires WellTyped(db) && OperationValid(p) && Compensable(p) && Honest(p)
    requires EntityValue(db, p.entity) == Some(p.before.m)
    ensures p.entity in db.rows
    ensures RowReversible(db.rows[p.entity], p) <==>
            RevertedRow(db.rows[p.entity], p) == db.rows[p.entity][Revision := Number(p.expectedRevision + 2)]
  {
    EntityShows(db, p.entity);
    if RevertOperation(p.operation) == AmendAssessment {
      AssessmentRestored(db.rows[p.entity], p, db.weaknesses);
    } else {
      ColumnsRestored(db.rows[p.entity], p, db.weaknesses);
    }
  }

  // set_status goes through whenever its guards do.
  lemma StatusSucceeds(db: Db, p: Proposal)
    requires p.entity in db.rows && Get(db.rows[p.entity], Revision) == Number(p.expectedRevision)
    requires OperationValid(p) && p.operation != AddRecoveredFinding
    requires WriteAllowed(db.rows, p.entity, Amend(p.entity.kind, p.operation, p.after.m, db.rows[p.entity]))
    requires p.operation == ReassignTarget ==>
               Get(p.after.m, WeaknessKey).Text? && Get(p.after.m, WeaknessKey).s in db.weaknesses
    ensures SetStatus(db, p).Success?
  {
    var changed := Amend(p.entity.kind, p.operation, p.after.m, db.rows[p.entity]);
    var updated := UpdateWhere(db, p.entity, p.expectedRevision, changed);
    assert updated == Success(db.(rows := db.rows[p.entity := changed[Revision := Number(p.expectedRevision + 1)]]));
  }

  // The compensation of a compensable proposal is a valid operation.
  lemma CompensationFits(current: Row, p: Proposal, k: nat, q: Request)
    requires OperationValid(p) && !Blank(q.batchId) && Get(current, Revision).Number? && Get(current, Revision).n >= 1
    requires p.operation == ReassignTarget ==> IsString(Get(p.before.m, WeaknessKey))
    ensures OperationValid(Compensation(current, p, k, q)) <==> Compensable(p)
  {
    var c := Compensation(current, p, k, q);
    assert c.runId[|q.batchId|] == '-';
    assert c.id[0] == 'r';
    assert c.reason[0] == 'C';
  }

  // Rows and events of the two databases agree where the rest of the revert looks.
  predicate SameEvents(a: Db, b: Db) {
    && a.rows.Keys == b.rows.Keys
    && forall r :: r in a.rows && r.kind == Session ==> Get(a.rows[r], SourceEvent) == Get(b.rows[r], SourceEvent)
  }

  lemma CompensatedChecks(row: Row, p: Proposal, weaknesses: set<string>)
    requires RowTyped(p.entity.kind, row, weaknesses) && OperationValid(p) && Compensable(p) && Shows(p.before.m, row)
    requires ChecksHold(p.entity.kind, AmendedRow(row, p))
    ensures ChecksHold(p.entity.kind, RevertedRow(row, p))
    ensures p.entity.kind == Session ==>
              Get(RevertedRow(row, p), SourceEvent) == Get(row, SourceEvent)
  {
    if RevertOperation(p.operation) == AmendAssessment {
      AssessmentRestored(row, p, weaknesses);
      if !RowReversible(row, p) {
        assert Get(RevertedRow(row, p), Outcome) == Get(AmendedRow(row, p), Outcome);
      }
    } else {
      ColumnsRestored(row, p, weaknesses);
    }
  }

  // Compensating p on a database that still shows what p left behind.
  lemma CompensationAllowed(mid: Db, p: Proposal, x: Db)
    requires WellTyped(mid) && OperationValid(p) && Compensable(p) && Honest(p)
    requires EntityValue(mid, p.entity) == Some(p.before.m)
    requires p.entity in mid.rows && ChecksHold(p.entity.kind, AmendedRow(mid.rows[p.entity], p))
    requires p.entity in x.rows && x.rows[p.entity] == AmendedRow(mid.rows[p.entity], p)
    requires SameEvents(x, mid.(rows := mid.rows[p.entity := AmendedRow(mid.rows[p.entity], p)]))
    ensures WriteAllowed(x.rows, p.entity,
                         Amend(p.entity.kind, RevertOperation(p.operation), RevertFields(p.operation, p.before.m),
                           x.rows[p.entity]))
  {
    var row := mid.rows[p.entity];
    var back := Amend(p.entity.kind, RevertOperation(p.operation), RevertFields(p.operation, p.before.m),
        x.rows[p.entity]);
    EntityShows(mid, p.entity);
    CompensationChecks(row, p, mid.weaknesses);
    if p.entity.kind == Session {
      EventStaysFree(mid, p.entity, AmendedRow(row, p), x);
    }
  }

  lemma CompensationChecks(row: Row, p: Proposal, weaknesses: set<string>)
    requires RowTyped(p.entity.kind, row, weaknesses) && OperationValid(p) && Compensable(p) && Shows(p.before.m, row)
    requires ChecksHold(p.entity.kind, AmendedRow(row, p))
    ensures var back := Amend(p.entity.kind, RevertOperation(p.operation), RevertFields(p.operation, p.before.m),
                          AmendedRow(row, p));
            && ChecksHold(p.entity.kind, back)
            && (p.entity.kind == Session ==> Get(back, SourceEvent) == Get(row, SourceEvent))
  {
    CompensatedChecks(row, p, weaknesses);
    var back := Amend(p.entity.kind, RevertOperation(p.operation), RevertFields(p.operation, p.before.m),
        AmendedRow(row, p));
    assert RevertedRow(row, p) == back[Revision := Number(p.expectedRevision + 2)];
    RevisionUnchecked(p.entity.kind, back, Number(p.expectedRevision + 2));
  }

  // The event a session had is still free for it once its row alone has changed.
  lemma EventStaysFree(mid: Db, ref: Ref, changed: Row, x: Db)
    requires WellTyped(mid) && ref in mid.rows && ref.kind == Session
    requires SameEvents(x, mid.(rows := mid.rows[ref := changed]))
    ensures EventFree(x.rows, ref, Get(mid.rows[ref], SourceEvent))
  {
    assert EventFree(mid.rows, ref, Get(mid.rows[ref], SourceEvent));
  }

  lemma RevisionUnchecked(kind: Kind, row: Row, revision: Value)
    ensures ChecksHold(kind, row[Revision := revision]) == ChecksHold(kind, row)
    ensures Get(row[Revision := revision], SourceEvent) == Get(row, SourceEvent)
  {
  }

  // What a successful forward step tells of the row it found.
  ghost predicate Amendable(mid: Db, p: Proposal) {
    && p.before.Fields? && p.entity in mid.rows && Rev(mid.rows[p.entity]) == p.expectedRevision
    && EntityValue(mid, p.entity) == Some(p.before.m)
    && ChecksHold(p.entity.kind, AmendedRow(mid.rows[p.entity], p))
  }

  function AfterStep(mid: Db, p: Proposal): Db
    requires p.entity in mid.rows
  {
    mid.(rows := mid.rows[p.entity := AmendedRow(mid.rows[p.entity], p)])
  }

  lemma StepFound(mid: Progress, p: Proposal)
    requires WellTyped(mid.db) && OperationValid(p) && Amends(mid.db, p) && ApplyOne(mid, p).Success? && Honest(p)
    ensures Amendable(mid.db, p)
    ensures ApplyOne(mid, p).value.db.rows == AfterStep(mid.db, p).rows
    ensures ApplyOne(mid, p).value.db.summaries == AmendedSummaries(mid.db.summaries, p)
    ensures ApplyOne(mid, p).value.db.weaknesses == mid.db.weaknesses
  {
    AmendStep(mid, p);
    var changed := Amend(p.entity.kind, p.operation, p.after.m, mid.db.rows[p.entity]);
    RevisionUnchecked(p.entity.kind, changed, Number(p.expectedRevision + 1));
  }

  // The guards the compensation of p meets on x.
  lemma CompensationMeetsGuards(mid: Db, p: Proposal, x: Db, current: Row, k: nat, q: Request)
    requires WellTyped(mid) && OperationValid(p) && Amendable(mid, p)
    requires Honest(p) && Compensable(p) && WellTyped(x) && !Blank(q.batchId)
    requires p.entity in x.rows && x.rows[p.entity] == AmendedRow(mid.rows[p.entity], p)
    requires SameEvents(x, AfterStep(mid, p)) && x.weaknesses == mid.weaknesses
    requires EntityValue(x, p.entity) == Some(current)
    ensures var c := Compensation(current, p, k, q);
            && OperationValid(c) && c.expectedRevision == p.expectedRevision + 1
            && WriteAllowed(x.rows, c.entity, Amend(c.entity.kind, c.operation, c.after.m, x.rows[c.entity]))
            && (c.operation == ReassignTarget ==>
                 Get(c.after.m, WeaknessKey).Text? && Get(c.after.m, WeaknessKey).s in x.weaknesses)
            && Get(x.rows[c.entity], Revision) == Number(c.expectedRevision)
  {
    CompensationIsValid(mid, p, x, current, k, q);
    CompensationAllowed(mid, p, x);
  }

  lemma CompensationIsValid(mid: Db, p: Proposal, x: Db, current: Row, k: nat, q: Request)
    requires WellTyped(mid) && OperationValid(p) && Amendable(mid, p) && Compensable(p) && !Blank(q.batchId)
    requires p.entity in x.rows && x.rows[p.entity] == AmendedRow(mid.rows[p.entity], p)
    requires EntityValue(x, p.entity) == Some(current)
    ensures var c := Compensation(current, p, k, q);
            && OperationValid(c) && c.expectedRevision == p.expectedRevision + 1
            && (c.operation == ReassignTarget ==>
                  Get(c.after.m, WeaknessKey).Text? && Get(c.after.m, WeaknessKey).s in mid.weaknesses)
            && Get(x.rows[c.entity], Revision) == Number(c.expectedRevision)
  {
    EntityRevision(x, p.entity);
    assert Get(current, Revision) == Number(p.expectedRevision + 1);
    if p.operation == ReassignTarget {
      EntityShows(mid, p.entity);
      assert Get(p.before.m, WeaknessKey) == Get(mid.rows[p.entity], WeaknessKey);
    }
    CompensationFits(current, p, k, q);
  }

  lemma CompensationStep(mid: Db, p: Proposal, x: Progress, current: Row, k: nat, q: Request)
    requires WellTyped(mid) && OperationValid(p) && Amendable(mid, p)
    requires Honest(p) && Compensable(p) && WellTyped(x.db) && !Blank(q.batchId)
    requires p.entity in x.db.rows && x.db.rows[p.entity] == AmendedRow(mid.rows[p.entity], p)
    requires SameEvents(x.db, AfterStep(mid, p)) && x.db.weaknesses == mid.weaknesses
    requires EntityValue(x.db, p.entity) == Some(current)
    requires Find(x.db.ledger, RunName(q.batchId, q.stamp), RevertId(k, p.id)).None?
    ensures OperationValid(Compensation(current, p, k, q)) && Amends(x.db, Compensation(current, p, k, q))
    ensures Compensation(current, p, k, q).expectedRevision == p.expectedRevision + 1
    ensures ApplyOne(x, Compensation(current, p, k, q)) ==
            Success(Progress(x.db.(rows := x.db.rows[p.entity := RevertedRow(mid.rows[p.entity], p)],
                                   summaries := AmendedSummaries(x.db.summaries, Compensation(current, p, k, q)),
                                   ledger := x.db.ledger + [Amended(Compensation(current, p, k, q), Applied)]),
                             x.applied + 1, x.skipped))
  {
    CompensationMeetsGuards(mid, p, x.db, current, k, q);
    Runs(x, Compensation(current, p, k, q), current);
    CompensationRow(mid.rows[p.entity], p, current, k, q);
  }

  lemma CompensationRow(row: Row, p: Proposal, current: Row, k: nat, q: Request)
    requires p.before.Fields? && Compensation(current, p, k, q).expectedRevision == p.expectedRevision + 1
    ensures AmendedRow(AmendedRow(row, p), Compensation(current, p, k, q)) == RevertedRow(row, p)
  {
  }

  // A current, unrecorded amendment whose write is allowed is applied.
  lemma Runs(x: Progress, c: Proposal, current: Row)
    requires OperationValid(c) && Amends(x.db, c) && EntityValue(x.db, c.entity) == Some(current) &&
             c.beforeHash == Sha256(current)
    requires c.entity in x.db.rows && Get(x.db.rows[c.entity], Revision) == Number(c.expectedRevision)
    requires WriteAllowed(x.db.rows, c.entity, Amend(c.entity.kind, c.operation, c.after.m, x.db.rows[c.entity]))
    requires c.operation == ReassignTarget ==>
               Get(c.after.m, WeaknessKey).Text? && Get(c.after.m, WeaknessKey).s in x.db.weaknesses
    ensures ApplyOne(x, c) ==
            Success(Progress(x.db.(rows := x.db.rows[c.entity := AmendedRow(x.db.rows[c.entity], c)],
                                   summaries := AmendedSummaries(x.db.summaries, c),
                                   ledger := x.db.ledger + [Amended(c, Applied)]), x.applied + 1, x.skipped))
  {
    EntityRevision(x.db, c.entity);
    StatusSucceeds(x.db, c);
    StatusStep(x.db, c);
  }

  // x still shows, at p's entity, what the forward run m left there, and that is
  // also what was shown when the compensations were built.
  ghost predicate StillShows(m: Db, x: Db, built: Db, p: Proposal) {
    && p.entity in m.rows && p.entity in x.rows && x.rows[p.entity] == m.rows[p.entity]
    && EntityValue(built, p.entity) == EntityValue(x, p.entity)
    && (p.entity.kind == Session ==> SameSession(x.summaries, m.summaries, p.entity.id))
  }

  ghost predicate Unused(ledger: seq<Amended>, q: Request, k: nat) {
    forall i: nat, id :: k <= i ==> Find(ledger, RunName(q.batchId, q.stamp), RevertId(i, id)).None?
  }

  lemma StaysUnused(ledger: seq<Amended>, c: Proposal, k: nat, id: string, q: Request)
    requires Unused(ledger, q, k) && c.id == RevertId(k, id)
    ensures Unused(ledger + [Amended(c, Applied)], q, k + 1)
  {
    forall i: nat, other | k + 1 <= i
      ensures Find(ledger + [Amended(c, Applied)], RunName(q.batchId, q.stamp), RevertId(i, other)).None?
    {
      FindAppend(ledger, Amended(c, Applied), RunName(q.batchId, q.stamp), RevertId(i, other));
      if RevertId(i, other) == RevertId(k, id) {
        RevertIdInjective(i, other, k, id);
      }
    }
  }

  // The proposals of a revertible run.
  ghost predicate Revertible(db: Db, ps: seq<Proposal>) {
    forall i :: 0 <= i < |ps| ==> Amends(db, ps[i]) && OperationValid(ps[i]) && Honest(ps[i]) && Compensable(ps[i])
  }

  // The summaries of p's session after p and its compensation.
  function RevertedSummaries(s: Summaries, p: Proposal): Summaries {
    WriteSummary(AmendedSummaries(s, p), p.entity.id, AUDIT_QUALITY,
                 Get(if p.before.Fields? then p.before.m else map[], EffectiveSummary), p.expectedRevision + 2)
  }

  ghost predicate Unwound(g: Progress, ps: seq<Proposal>, x: Progress, y: Progress) {
    && y.applied == x.applied + |ps| && y.skipped == x.skipped
    && y.db.rows.Keys == x.db.rows.Keys
    && (forall i :: 0 <= i < |ps| ==>
          && ps[i].entity in g.db.rows && ps[i].entity in y.db.rows
          && y.db.rows[ps[i].entity] == RevertedRow(g.db.rows[ps[i].entity], ps[i]))
    && (forall r :: r in x.db.rows && (forall i :: 0 <= i < |ps| ==> ps[i].entity != r) ==>
         y.db.rows[r] == x.db.rows[r])
    && x.db.ledger <= y.db.ledger && |y.db.ledger| == |x.db.ledger| + |ps|
  }

  ghost predicate SummariesUnwound(g: Progress, ps: seq<Proposal>, x: Progress, y: Progress) {
    && (forall i :: 0 <= i < |ps| && ps[i].operation == AmendSummary ==>
          SameSession(y.db.summaries, RevertedSummaries(g.db.summaries, ps[i]), ps[i].entity.id))
    && (forall sid :: (forall i :: 0 <= i < |ps| && ps[i].operation == AmendSummary ==> ps[i].entity.id != sid) ==>
          SameSession(y.db.summaries, x.db.summaries, sid))
  }

  lemma StatusKeepsLedger(db: Db, p: Proposal)
    requires SetStatus(db, p).Success?
    ensures SetStatus(db, p).value.ledger == db.ledger
  {
  }

  // Recording other proposals leaves p unrecorded.
  lemma {:induction false} FreshSurvives(g: Progress, ps: seq<Proposal>, p: Proposal)
    requires ApplyAll(g, ps).Success? && Fresh(g.db, p)
    requires forall i :: 0 <= i < |ps| ==> ps[i].id != p.id
    ensures Fresh(ApplyAll(g, ps).value.db, p)
    decreases |ps|
  {
    if ps != [] {
      var next := ApplyOne(g, ps[0]).value;
      if next.db != g.db {
        StatusKeepsLedger(g.db, ps[0]);
        FindAppend(g.db.ledger, Amended(ps[0], Applied), p.runId, p.id);
      }
      assert forall i :: 0 <= i < |ps[1..]| ==> ps[1..][i] == ps[i + 1];
      FreshSurvives(next, ps[1..], p);
    }
  }

  lemma {:induction false} ApplySnoc(g: Progress, front: seq<Proposal>, last: Proposal)
    ensures ApplyAll(g, front + [last]) ==
            if ApplyAll(g, front).Success? then ApplyOne(ApplyAll(g, front).value, last) else ApplyAll(g, front)
    decreases |front|
  {
    if front == [] {
      assert [] + [last] == [last] && [last][1..] == [];
    } else {
      assert (front + [last])[1..] == front[1..] + [last];
      if ApplyOne(g, front[0]).Success? {
        ApplySnoc(ApplyOne(g, front[0]).value, front[1..], last);
      }
    }
  }

  lemma FrontRunnable(db: Db, runId: string, ps: seq<Proposal>)
    requires |ps| > 0 && Runnable(db, runId, ps) && DistinctTargets(db, ps)
    ensures Runnable(db, runId, ps[..|ps| - 1]) && DistinctTargets(db, ps[..|ps| - 1])
  {
  }

  // The last proposal of a run is still unrecorded and well placed.
  lemma {:induction false} LastIsFresh(g: Progress, runId: string, ps: seq<Proposal>, mid: Progress)
    requires |ps| > 0 && WellTyped(g.db) && Runnable(g.db, runId, ps)
    requires forall i :: 0 <= i < |ps| ==> Amends(g.db, ps[i])
    requires ApplyAll(g, ps[..|ps| - 1]) == Success(mid)
    requires Runnable(g.db, runId, ps[..|ps| - 1]) && DistinctTargets(g.db, ps[..|ps| - 1])
    ensures WellTyped(mid.db) && Amends(mid.db, ps[|ps| - 1]) && mid.db.weaknesses == g.db.weaknesses
    ensures Effects(g, ps[..|ps| - 1], mid)
  {
    var front, last := ps[..|ps| - 1], ps[|ps| - 1];
    RunEffects(g, runId, front);
    FreshSurvives(g, front, last);
  }

  lemma LastUntouched(g: Progress, ps: seq<Proposal>, mid: Progress)
    requires |ps| > 0 && DistinctTargets(g.db, ps) && Amends(g.db, ps[|ps| - 1])
    requires Effects(g, ps[..|ps| - 1], mid)
    ensures ps[|ps| - 1].entity in g.db.rows && ps[|ps| - 1].entity in mid.db.rows
    ensures mid.db.rows[ps[|ps| - 1].entity] == g.db.rows[ps[|ps| - 1].entity]
    ensures ps[|ps| - 1].entity.kind == Session ==>
              SameSession(mid.db.summaries, g.db.summaries, ps[|ps| - 1].entity.id)
  {
    NotInFront(g.db, ps);
    RowUntouched(g, ps[..|ps| - 1], mid, ps[|ps| - 1].entity);
    SummariesUntouched(g, ps[..|ps| - 1], mid, ps[|ps| - 1].entity);
  }

  // The last proposal of a run finds its entity as the run began.
  lemma {:induction false} LastStep(g: Progress, runId: string, ps: seq<Proposal>, mid: Progress)
    requires |ps| > 0 && WellTyped(g.db) && Runnable(g.db, runId, ps) && DistinctTargets(g.db, ps)
    requires forall i :: 0 <= i < |ps| ==> Amends(g.db, ps[i])
    requires ApplyAll(g, ps[..|ps| - 1]) == Success(mid)
    requires Runnable(g.db, runId, ps[..|ps| - 1]) && DistinctTargets(g.db, ps[..|ps| - 1])
    ensures WellTyped(mid.db) && Amends(mid.db, ps[|ps| - 1]) && mid.db.weaknesses == g.db.weaknesses
    ensures ps[|ps| - 1].entity in g.db.rows && ps[|ps| - 1].entity in mid.db.rows
    ensures mid.db.rows[ps[|ps| - 1].entity] == g.db.rows[ps[|ps| - 1].entity]
    ensures ps[|ps| - 1].entity.kind == Session ==>
              SameSession(mid.db.summaries, g.db.summaries, ps[|ps| - 1].entity.id)
  {
    LastIsFresh(g, runId, ps, mid);
    LastUntouched(g, ps, mid);
  }

  lemma NotInFront(db: Db, ps: seq<Proposal>)
    requires |ps| > 0 && DistinctTargets(db, ps) && Amends(db, ps[|ps| - 1])
    ensures ps[|ps| - 1].entity in db.rows && !Targeted(db, ps[..|ps| - 1], ps[|ps| - 1].entity)
  {
  }

  lemma RowUntouched(g: Progress, front: seq<Proposal>, mid: Progress, ref: Ref)
    requires Effects(g, front, mid) && ref in g.db.rows && !Targeted(g.db, front, ref)
    ensures ref in mid.db.rows && mid.db.rows[ref] == g.db.rows[ref] && mid.db.weaknesses == g.db.weaknesses
  {
  }

  lemma SummariesUntouched(g: Progress, front: seq<Proposal>, mid: Progress, ref: Ref)
    requires Effects(g, front, mid) && !Targeted(g.db, front, ref)
    ensures ref.kind == Session ==> SameSession(mid.db.summaries, g.db.summaries, ref.id)
  {
    if ref.kind == Session {
      assert !SummaryTargeted(g.db, front, ref.id);
    }
  }

  // The database after compensating `last` on x.
  ghost predicate Compensated(mid: Db, last: Proposal, x: Db, next: Db) {
    && last.before.Fields? && last.entity in mid.rows && last.entity in x.rows
    && next.rows == x.rows[last.entity := RevertedRow(mid.rows[last.entity], last)]
    && next.summaries ==
       (if last.operation == AmendSummary then
          WriteSummary(x.summaries, last.entity.id, AUDIT_QUALITY, Get(last.before.m, EffectiveSummary),
            last.expectedRevision + 2)
        else x.summaries)
  }

  lemma StillShowsNext(mid: Db, last: Proposal, m: Db, x: Db, next: Db, built: Db, p: Proposal)
    requires p.entity != last.entity && StillShows(m, x, built, p)
    requires OperationValid(last) && last.entity in mid.rows && m.rows == AfterStep(mid, last).rows
    requires m.summaries == AmendedSummaries(mid.summaries, last)
    requires Compensated(mid, last, x, next)
    ensures StillShows(mid, next, built, p)
  {
    if p.entity.kind == Session {
      assert last.operation == AmendSummary ==> last.entity.kind == Session && last.entity.id != p.entity.id;
      assert SameSession(m.summaries, mid.summaries, p.entity.id);
      assert SameSession(next.summaries, x.summaries, p.entity.id);
    }
  }

  lemma EventsNext(mid: Db, last: Proposal, m: Db, x: Db, next: Db)
    requires WellTyped(mid) && OperationValid(last) && Compensable(last) && Amendable(mid, last)
    requires m.rows == AfterStep(mid, last).rows && SameEvents(x, m) && Compensated(mid, last, x, next)
    ensures SameEvents(next, mid)
  {
    EntityShows(mid, last.entity);
    CompensatedChecks(mid.rows[last.entity], last, mid.weaknesses);
  }

  lemma BackRuns(g: Progress, ps: seq<Proposal>, mid: Db, x: Progress, next: Progress, y: Progress)
    requires |ps| > 0 && DistinctTargets(g.db, ps) && (forall i :: 0 <= i < |ps| ==> Amends(g.db, ps[i]))
    requires Compensated(mid, ps[|ps| - 1], x.db, next.db)
    requires mid.rows[ps[|ps| - 1].entity] == g.db.rows[ps[|ps| - 1].entity]
    requires next.applied == x.applied + 1 && next.skipped == x.skipped
    requires |next.db.ledger| == |x.db.ledger| + 1 && x.db.ledger <= next.db.ledger
    requires Unwound(g, ps[..|ps| - 1], next, y)
    ensures Unwound(g, ps, x, y)
  {
    var front, last := ps[..|ps| - 1], ps[|ps| - 1];
    assert last.entity in next.db.rows;
    assert y.db.rows[last.entity] == next.db.rows[last.entity] by {
      assert forall i :: 0 <= i < |front| ==> front[i].entity != last.entity;
    }
    assert forall i :: 0 <= i < |front| ==> front[i] == ps[i];
    forall i | 0 <= i < |ps|
      ensures ps[i].entity in g.db.rows && ps[i].entity in y.db.rows
      ensures y.db.rows[ps[i].entity] == RevertedRow(g.db.rows[ps[i].entity], ps[i])
    {
      if i < |front| {
        assert front[i] == ps[i];
      }
    }
    forall r | r in x.db.rows && (forall i :: 0 <= i < |ps| ==> ps[i].entity != r)
      ensures y.db.rows[r] == x.db.rows[r]
    {
      assert forall i :: 0 <= i < |front| ==> front[i].entity != r;
      assert last.entity != r;
    }
  }

  lemma BackOneMore(g: Progress, ps: seq<Proposal>, mid: Db, x: Progress, next: Progress, y: Progress)
    requires |ps| > 0 && DistinctTargets(g.db, ps) && Revertible(g.db, ps)
    requires var last := ps[|ps| - 1];
             && Compensated(mid, last, x.db, next.db)
             && mid.rows[last.entity] == g.db.rows[last.entity]
             && (last.operation == AmendSummary ==>
                   && SameSession(mid.summaries, g.db.summaries, last.entity.id)
                   && SameSession(x.db.summaries, AmendedSummaries(mid.summaries, last), last.entity.id))
    requires next.applied == x.applied + 1 && next.skipped == x.skipped
    requires |next.db.ledger| == |x.db.ledger| + 1 && x.db.ledger <= next.db.ledger
    requires Unwound(g, ps[..|ps| - 1], next, y) && SummariesUnwound(g, ps[..|ps| - 1], next, y)
    ensures Unwound(g, ps, x, y) && SummariesUnwound(g, ps, x, y)
  {
    BackRuns(g, ps, mid, x, next, y);
    BackSummaries(g, ps, mid, x, next, y);
  }

  lemma BackSummaries(g: Progress, ps: seq<Proposal>, mid: Db, x: Progress, next: Progress, y: Progress)
    requires |ps| > 0 && DistinctTargets(g.db, ps) &&
             (forall i :: 0 <= i < |ps| ==> Amends(g.db, ps[i]) && OperationValid(ps[i]))
    requires Compensated(mid, ps[|ps| - 1], x.db, next.db)
    requires var last := ps[|ps| - 1];
             last.operation == AmendSummary ==>
               && SameSession(mid.summaries, g.db.summaries, last.entity.id)
               && SameSession(x.db.summaries, AmendedSummaries(mid.summaries, last), last.entity.id)
    requires SummariesUnwound(g, ps[..|ps| - 1], next, y)
    ensures SummariesUnwound(g, ps, x, y)
  {
    var front, last := ps[..|ps| - 1], ps[|ps| - 1];
    assert forall j :: 0 <= j < |front| ==> front[j] == ps[j];
    if last.operation == AmendSummary {
      forall j | 0 <= j < |front| && front[j].operation == AmendSummary
        ensures front[j].entity.id != last.entity.id
      {
        assert ps[j].entity != last.entity && ps[j].entity.kind == last.entity.kind == Session;
      }
      assert SameSession(y.db.summaries, next.db.summaries, last.entity.id);
      SummaryThereAndBack(g.db.summaries, mid.summaries, x.db.summaries, last);
      SameSessionTransitive(y.db.summaries, next.db.summaries, RevertedSummaries(g.db.summaries, last), last.entity.id);
    }
    forall i | 0 <= i < |ps| && ps[i].operation == AmendSummary
      ensures SameSession(y.db.summaries, RevertedSummaries(g.db.summaries, ps[i]), ps[i].entity.id)
    {
      if i < |front| {
        assert front[i] == ps[i];
      }
    }
    forall sid | forall i :: 0 <= i < |ps| && ps[i].operation == AmendSummary ==> ps[i].entity.id != sid
      ensures SameSession(y.db.summaries, x.db.summaries, sid)
    {
      assert SameSession(y.db.summaries, next.db.summaries, sid);
      if last.operation == AmendSummary {
        WriteElsewhere(x.db.summaries, last.entity.id, AUDIT_QUALITY, Get(last.before.m, EffectiveSummary),
          last.expectedRevision + 2, sid);
      }
      SameSessionTransitive(y.db.summaries, next.db.summaries, x.db.summaries, sid);
    }
  }

  lemma SummaryThereAndBack(g: Summaries, mid: Summaries, x: Summaries, p: Proposal)
    requires p.operation == AmendSummary && OperationValid(p)
    requires SameSession(mid, g, p.entity.id) && SameSession(x, AmendedSummaries(mid, p), p.entity.id)
    ensures SameSession(WriteSummary(x, p.entity.id, AUDIT_QUALITY, Get(p.before.m, EffectiveSummary),
            p.expectedRevision + 2),
                        RevertedSummaries(g, p), p.entity.id)
  {
    var sid := p.entity.id;
    WriteRespects(mid, g, sid, Get(p.after.m, SummaryKey), Get(p.after.m, SummaryValue), p.expectedRevision + 1);
    SameSessionTransitive(x, AmendedSummaries(mid, p), AmendedSummaries(g, p), sid);
    WriteRespects(x, AmendedSummaries(g, p), sid, AUDIT_QUALITY, Get(p.before.m, EffectiveSummary),
      p.expectedRevision + 2);
  }

  lemma WriteElsewhere(a: Summaries, sid: int, key: Value, value: Value, revision: int, other: int)
    requires sid != other
    ensures SameSession(WriteSummary(a, sid, key, value, revision), a, other)
  {
  }

  // Undoing the amendments ps, newest first, on any database that still shows
  // what they left: every amended row and summary goes back, nothing else moves.
  lemma {:induction false} Unwind(g: Progress, runId: string, ps: seq<Proposal>, m: Progress, built: Db, x: Progress,
                                  k: nat, q: Request)
    requires WellTyped(g.db) && Runnable(g.db, runId, ps) && DistinctTargets(g.db, ps) && Revertible(g.db, ps)
    requires ApplyAll(g, ps) == Success(m)
    requires WellTyped(x.db) && !Blank(q.batchId) && Unused(x.db.ledger, q, k)
    requires forall i :: 0 <= i < |ps| ==> StillShows(m.db, x.db, built, ps[i])
    requires SameEvents(x.db, m.db) && x.db.weaknesses == g.db.weaknesses
    ensures Compensations(built, ps, k, q).Success?
    ensures ApplyAll(x, Compensations(built, ps, k, q).value).Success?
    ensures Unwound(g, ps, x, ApplyAll(x, Compensations(built, ps, k, q).value).value)
    ensures SummariesUnwound(g, ps, x, ApplyAll(x, Compensations(built, ps, k, q).value).value)
    decreases |ps|
  {
    if ps != [] {
      var front, last := ps[..|ps| - 1], ps[|ps| - 1];
      var mid := UnwindForward(g, runId, ps, m);
      assert StillShows(m.db, x.db, built, last);
      var c, next := UnwindStep(mid.db, last, m.db, built, x, k, q);
      forall i | 0 <= i < |front|
        ensures StillShows(mid.db, next.db, built, front[i])
      {
        assert front[i] == ps[i] && ps[i].entity != last.entity;
        StillShowsNext(mid.db, last, m.db, x.db, next.db, built, ps[i]);
      }
      Unwind(g, runId, front, mid, built, next, k + 1, q);
      var rest := Compensations(built, front, k + 1, q).value;
      ApplyHead(x, c, next, rest);
      BackOneMore(g, ps, mid.db, x, next, ApplyAll(next, rest).value);
    }
  }

  lemma {:induction false} ApplyHead(x: Progress, c: Proposal, next: Progress, rest: seq<Proposal>)
    requires ApplyOne(x, c) == Success(next)
    ensures ApplyAll(x, [c] + rest) == ApplyAll(next, rest)
  {
    assert ([c] + rest)[1..] == rest;
  }

  // The forward run up to its last proposal.
  lemma UnwindForward(g: Progress, runId: string, ps: seq<Proposal>, m: Progress) returns (mid: Progress)
    requires |ps| > 0 && WellTyped(g.db) && Runnable(g.db, runId, ps) && DistinctTargets(g.db, ps) &&
             Revertible(g.db, ps)
    requires ApplyAll(g, ps) == Success(m)
    ensures Runnable(g.db, runId, ps[..|ps| - 1]) && DistinctTargets(g.db, ps[..|ps| - 1]) &&
            Revertible(g.db, ps[..|ps| - 1])
    ensures ApplyAll(g, ps[..|ps| - 1]) == Success(mid)
    ensures WellTyped(mid.db) && Amendable(mid.db, ps[|ps| - 1]) && mid.db.weaknesses == g.db.weaknesses
    ensures m.db.rows == AfterStep(mid.db, ps[|ps| - 1]).rows
    ensures m.db.summaries == AmendedSummaries(mid.db.summaries, ps[|ps| - 1])
    ensures ps[|ps| - 1].entity in g.db.rows && mid.db.rows[ps[|ps| - 1].entity] == g.db.rows[ps[|ps| - 1].entity]
    ensures ps[|ps| - 1].entity.kind == Session ==>
              SameSession(mid.db.summaries, g.db.summaries, ps[|ps| - 1].entity.id)
  {
    mid := ForwardSplit(g, ps, m);
    FrontRunnable(g.db, runId, ps);
    LastStep(g, runId, ps, mid);
    LastFound(mid, ps[|ps| - 1], m);
  }

  lemma ForwardSplit(g: Progress, ps: seq<Proposal>, m: Progress) returns (mid: Progress)
    requires |ps| > 0 && ApplyAll(g, ps) == Success(m)
    ensures ApplyAll(g, ps[..|ps| - 1]) == Success(mid) && ApplyOne(mid, ps[|ps| - 1]) == Success(m)
  {
    var front, last := ps[..|ps| - 1], ps[|ps| - 1];
    assert ps == front + [last];
    ApplySnoc(g, front, last);
    mid := ApplyAll(g, front).value;
  }

  lemma LastFound(mid: Progress, last: Proposal, m: Progress)
    requires WellTyped(mid.db) && OperationValid(last) && Amends(mid.db, last) && Honest(last)
    requires ApplyOne(mid, last) == Success(m)
    ensures Amendable(mid.db, last) && m.db.rows == AfterStep(mid.db, last).rows
    ensures m.db.summaries == AmendedSummaries(mid.db.summaries, last)
  {
    StepFound(mid, last);
  }

  // One compensation on x, and what carries over to the rest.
  lemma UnwindStep(mid: Db, last: Proposal, m: Db, built: Db, x: Progress, k: nat, q: Request)
      returns (c: Proposal, next: Progress)
    requires WellTyped(mid) && OperationValid(last) && Amendable(mid, last) && Honest(last) && Compensable(last)
    requires m.rows == AfterStep(mid, last).rows && m.summaries == AmendedSummaries(mid.summaries, last)
    requires WellTyped(x.db) && !Blank(q.batchId) && Unused(x.db.ledger, q, k)
    requires StillShows(m, x.db, built, last) && SameEvents(x.db, m) && x.db.weaknesses == mid.weaknesses
    ensures EntityValue(built, last.entity).Some? &&
            c == Compensation(EntityValue(built, last.entity).value, last, k, q)
    ensures ApplyOne(x, c) == Success(next) && Compensated(mid, last, x.db, next.db)
    ensures WellTyped(next.db) && Unused(next.db.ledger, q, k + 1) && next.db.weaknesses == mid.weaknesses
    ensures SameEvents(next.db, mid)
    ensures next.applied == x.applied + 1 && next.skipped == x.skipped
    ensures |next.db.ledger| == |x.db.ledger| + 1 && x.db.ledger <= next.db.ledger
  {
    EntityKnown(x.db, last.entity);
    c := Compensation(EntityValue(built, last.entity).value, last, k, q);
    next := StepTaken(mid, last, x, EntityValue(built, last.entity).value, k, q);
    StaysUnused(x.db.ledger, c, k, last.id, q);
    EventsNext(mid, last, m, x.db, next.db);
  }

  lemma StepTaken(mid: Db, last: Proposal, x: Progress, current: Row, k: nat, q: Request) returns (next: Progress)
    requires WellTyped(mid) && OperationValid(last) && Amendable(mid, last)
    requires Honest(last) && Compensable(last) && WellTyped(x.db) && !Blank(q.batchId)
    requires last.entity in x.db.rows && x.db.rows[last.entity] == AmendedRow(mid.rows[last.entity], last)
    requires SameEvents(x.db, AfterStep(mid, last)) && x.db.weaknesses == mid.weaknesses
    requires EntityValue(x.db, last.entity) == Some(current) && Unused(x.db.ledger, q, k)
    ensures ApplyOne(x, Compensation(current, last, k, q)) == Success(next)
    ensures WellTyped(next.db) && Compensated(mid, last, x.db, next.db) && next.db.weaknesses == mid.weaknesses
    ensures next.applied == x.applied + 1 && next.skipped == x.skipped
    ensures next.db.ledger == x.db.ledger + [Amended(Compensation(current, last, k, q), Applied)]
  {
    var c := Compensation(current, last, k, q);
    next := Progress(x.db.(rows := x.db.rows[last.entity := RevertedRow(mid.rows[last.entity], last)],
                           summaries := AmendedSummaries(x.db.summaries, c),
                           ledger := x.db.ledger + [Amended(c, Applied)]), x.applied + 1, x.skipped);
    CompensationStep(mid, last, x, current, k, q);
    TypedAfter(x, c, next);
    CompensationSummary(x.db.summaries, last, current, k, q);
  }

  lemma TypedAfter(x: Progress, c: Proposal, next: Progress)
    requires WellTyped(x.db) && OperationValid(c) && Amends(x.db, c) && ApplyOne(x, c) == Success(next)
    ensures WellTyped(next.db)
  {
    StepKeepsTypes(x, c);
  }

  lemma CompensationSummary(s: Summaries, p: Proposal, current: Row, k: nat, q: Request)
    requires p.before.Fields? && Compensation(current, p, k, q).expectedRevision == p.expectedRevision + 1
    ensures AmendedSummaries(s, Compensation(current, p, k, q)) ==
            if p.operation == AmendSummary then
              WriteSummary(s, p.entity.id, AUDIT_QUALITY, Get(p.before.m, EffectiveSummary), p.expectedRevision + 2)
            else s
  {
  }

  lemma EntityKnown(db: Db, ref: Ref)
    requires WellTyped(db) && ref in db.rows
    ensures EntityValue(db, ref).Some?
  {
  }
}
