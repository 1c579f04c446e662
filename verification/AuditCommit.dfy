// What a committed batch does to the database, and that applying it again does
// nothing (src/audit.rs, apply_batch_tx and apply_batch).
module AuditCommit {
  import opened Outcomes
  import opened AuditModel

  // The row an UPDATE writes for p.
  function AmendedRow(row: Row, p: Proposal): Row {
    var after := if p.after.Fields? then p.after.m else map[];
    Amend(p.entity.kind, p.operation, after, row)[Revision := Number(p.expectedRevision + 1)]
  }

  function AmendedSummaries(s: Summaries, p: Proposal): Summaries {
    if p.operation == AmendSummary && p.after.Fields? then
      WriteSummary(s, p.entity.id, Get(p.after.m, SummaryKey), Get(p.after.m, SummaryValue), p.expectedRevision + 1)
    else s
  }

  ghost predicate Fresh(db: Db, p: Proposal) {
    Find(db.ledger, p.runId, p.id).None?
  }

  // p rewrites its entity when applied to db: it is not recorded yet, and it is
  // not an insertion of a recovered finding.
  ghost predicate Amends(db: Db, p: Proposal) {
    Fresh(db, p) && p.operation != AddRecoveredFinding
  }

  ghost predicate Runnable(db: Db, runId: string, ps: seq<Proposal>) {
    && (forall i :: 0 <= i < |ps| ==> ps[i].runId == runId && OperationValid(ps[i]))
    && (forall i, j :: 0 <= i < j < |ps| ==> ps[i].id != ps[j].id)
    && (forall i :: 0 <= i < |ps| ==>
          Fresh(db, ps[i]) || Find(db.ledger, ps[i].runId, ps[i].id).value.status == Applied)
  }

  lemma {:induction false} FindAppend(ledger: seq<Amended>, x: Amended, runId: string, id: string)
    ensures Find(ledger + [x], runId, id) ==
            if Find(ledger, runId, id).Some? then Find(ledger, runId, id)
            else if x.proposal.runId == runId && x.proposal.id == id then Some(x)
            else None
  {
    if ledger == [] {
      assert [x][1..] == [];
    } else {
      assert (ledger + [x])[1..] == ledger[1..] + [x];
      FindAppend(ledger[1..], x, runId, id);
    }
  }

  // set_status on a current entity: one row rewritten, and possibly one summary.
  lemma StatusStep(db: Db, p: Proposal)
    requires p.entity in db.rows && Get(db.rows[p.entity], Revision) == Number(p.expectedRevision)
    requires p.after.Fields? && p.operation != AddRecoveredFinding && SetStatus(db, p).Success?
    ensures WriteAllowed(db.rows, p.entity, Amend(p.entity.kind, p.operation, p.after.m, db.rows[p.entity]))
    ensures p.operation == ReassignTarget ==>
              Get(p.after.m, WeaknessKey).Text? && Get(p.after.m, WeaknessKey).s in db.weaknesses
    ensures SetStatus(db, p).value ==
            db.(rows := db.rows[p.entity := AmendedRow(db.rows[p.entity], p)],
              summaries := AmendedSummaries(db.summaries, p))
  {
    var changed := Amend(p.entity.kind, p.operation, p.after.m, db.rows[p.entity]);
    var updated := UpdateWhere(db, p.entity, p.expectedRevision, changed);
    assert updated.Success? ==> updated.value == db.(rows := db.rows[p.entity := AmendedRow(db.rows[p.entity], p)]);
  }

  // A successful step on an unrecorded amendment, in full.
  lemma AmendStep(g: Progress, p: Proposal)
    requires WellTyped(g.db) && OperationValid(p) && Amends(g.db, p)
    ensures ApplyOne(g, p).Success? ==> AmendedBy(g, p, ApplyOne(g, p).value)
  {
    if ApplyOne(g, p).Success? {
      EntityRevision(g.db, p.entity);
      StatusStep(g.db, p);
    }
  }

  // What the amendment found and what it left.
  ghost predicate AmendedBy(g: Progress, p: Proposal, next: Progress) {
    && p.after.Fields? && p.entity in g.db.rows && Rev(g.db.rows[p.entity]) == p.expectedRevision
    && p.beforeHash.Sha256? && EntityValue(g.db, p.entity) == Some(p.beforeHash.of)
    && WriteAllowed(g.db.rows, p.entity, Amend(p.entity.kind, p.operation, p.after.m, g.db.rows[p.entity]))
    && (p.operation == ReassignTarget ==>
          Get(p.after.m, WeaknessKey).Text? && Get(p.after.m, WeaknessKey).s in g.db.weaknesses)
    && next == Progress(g.db.(rows := g.db.rows[p.entity := AmendedRow(g.db.rows[p.entity], p)],
                              summaries := AmendedSummaries(g.db.summaries, p),
                              ledger := g.db.ledger + [Amended(p, Applied)]), g.applied + 1, g.skipped)
  }

  lemma EntityRevision(db: Db, ref: Ref)
    requires EntityValue(db, ref).Some?
    ensures ref in db.rows && Get(EntityValue(db, ref).value, Revision) == Get(db.rows[ref], Revision)
  {
  }

  lemma InsertStep(g: Progress, p: Proposal)
    requires WellTyped(g.db) && OperationValid(p) && Fresh(g.db, p) && p.operation == AddRecoveredFinding
    requires ApplyOne(g, p).Success?
    ensures Ref(Finding, g.db.nextFinding) !in g.db.rows
    ensures FindingInsertable(g.db, p.entity.id, p.after.m)
    ensures ApplyOne(g, p).value ==
            Progress(g.db.(rows := g.db.rows[Ref(Finding, g.db.nextFinding) := NewFinding(p.entity.id, p.after.m)],
                           nextFinding := g.db.nextFinding + 1,
                           ledger := g.db.ledger + [Amended(p, Applied)]), g.applied + 1, g.skipped)
  {
  }

  lemma AmendedRowTyped(row: Row, p: Proposal, weaknesses: set<string>)
    requires OperationValid(p) && RowTyped(p.entity.kind, row, weaknesses)
    requires p.operation != AddRecoveredFinding
    requires ChecksHold(p.entity.kind, Amend(p.entity.kind, p.operation, p.after.m, row))
    requires p.operation == ReassignTarget ==>
               Get(p.after.m, WeaknessKey).Text? && Get(p.after.m, WeaknessKey).s in weaknesses
    ensures RowTyped(p.entity.kind, AmendedRow(row, p), weaknesses)
  {
  }

  lemma StepKeepsTypes(g: Progress, p: Proposal)
    requires WellTyped(g.db) && OperationValid(p)
    requires Fresh(g.db, p) || Find(g.db.ledger, p.runId, p.id).value.status == Applied
    ensures ApplyOne(g, p).Success? ==> WellTyped(ApplyOne(g, p).value.db)
  {
    if Amends(g.db, p) {
      AmendStepTyped(g, p);
    } else if Fresh(g.db, p) && ApplyOne(g, p).Success? {
      InsertStep(g, p);
      InsertKeepsTypes(g.db, p, ApplyOne(g, p).value.db);
    }
  }

  lemma AmendStepTyped(g: Progress, p: Proposal)
    requires WellTyped(g.db) && OperationValid(p) && Amends(g.db, p)
    ensures ApplyOne(g, p).Success? ==> WellTyped(ApplyOne(g, p).value.db)
  {
    AmendStep(g, p);
    if ApplyOne(g, p).Success? {
      AmendedRowTyped(g.db.rows[p.entity], p, g.db.weaknesses);
      AmendKeepsTypes(g.db, p);
      LedgerUntyped(g.db.(rows := g.db.rows[p.entity := AmendedRow(g.db.rows[p.entity], p)],
                          summaries := AmendedSummaries(g.db.summaries, p)), ApplyOne(g, p).value.db);
    }
  }

  lemma LedgerUntyped(a: Db, b: Db)
    requires WellTyped(a) && b == a.(ledger := b.ledger)
    ensures WellTyped(b)
  {
  }

  lemma InsertKeepsTypes(db: Db, p: Proposal, next: Db)
    requires WellTyped(db) && p.after.Fields? && FindingInsertable(db, p.entity.id, p.after.m)
    requires Ref(Finding, db.nextFinding) !in db.rows
    requires next.rows == db.rows[Ref(Finding, db.nextFinding) := NewFinding(p.entity.id, p.after.m)]
    requires next.nextFinding == db.nextFinding + 1 && next.weaknesses == db.weaknesses &&
             next.summaries == db.summaries
    ensures WellTyped(next)
  {
    assert RowTyped(Finding, NewFinding(p.entity.id, p.after.m), db.weaknesses);
  }

  lemma AmendKeepsTypes(db: Db, p: Proposal)
    requires WellTyped(db) && OperationValid(p) && p.operation != AddRecoveredFinding && p.entity in db.rows
    requires WriteAllowed(db.rows, p.entity, Amend(p.entity.kind, p.operation, p.after.m, db.rows[p.entity]))
    requires RowTyped(p.entity.kind, AmendedRow(db.rows[p.entity], p), db.weaknesses)
    requires Rev(db.rows[p.entity]) == p.expectedRevision
    ensures WellTyped(db.(rows := db.rows[p.entity := AmendedRow(db.rows[p.entity], p)],
            summaries := AmendedSummaries(db.summaries, p)))
  {
    var row := AmendedRow(db.rows[p.entity], p);
    assert Get(row, SourceEvent) == Get(Amend(p.entity.kind, p.operation, p.after.m, db.rows[p.entity]), SourceEvent);
    EventsStayApart(db.rows, p.entity, row);
  }

  lemma EventsStayApart(rows: map<Ref, Row>, ref: Ref, row: Row)
    requires forall r :: r in rows && r.kind == Session ==> EventFree(rows, r, Get(rows[r], SourceEvent))
    requires ref in rows && (ref.kind == Session ==> EventFree(rows, ref, Get(row, SourceEvent)))
    ensures forall r :: r in rows && r.kind == Session ==>
              EventFree(rows[ref := row], r, Get(rows[ref := row][r], SourceEvent))
  {
    var next := rows[ref := row];
    forall r | r in rows && r.kind == Session
      ensures EventFree(next, r, Get(next[r], SourceEvent))
    {
      if r != ref {
        assert EventFree(rows, r, Get(rows[r], SourceEvent));
      }
    }
  }

  // Recording p leaves every other proposal of the run as fresh as it was.
  lemma {:induction false} StepKeepsRunnable(g: Progress, runId: string, ps: seq<Proposal>)
    requires WellTyped(g.db) && |ps| > 0 && Runnable(g.db, runId, ps)
    ensures ApplyOne(g, ps[0]).Success? ==>
              && Runnable(ApplyOne(g, ps[0]).value.db, runId, ps[1..])
              && forall i :: 1 <= i < |ps| ==>
                   Find(ApplyOne(g, ps[0]).value.db.ledger, runId, ps[i].id) == Find(g.db.ledger, runId, ps[i].id)
  {
    if ApplyOne(g, ps[0]).Failure? {
      return;
    }
    var next := ApplyOne(g, ps[0]).value;
    forall i | 1 <= i < |ps|
      ensures Find(next.db.ledger, runId, ps[i].id) == Find(g.db.ledger, runId, ps[i].id)
    {
      if Fresh(g.db, ps[0]) {
        FindAppend(g.db.ledger, Amended(ps[0], Applied), runId, ps[i].id);
        if Amends(g.db, ps[0]) {
          AmendStep(g, ps[0]);
        } else {
          InsertStep(g, ps[0]);
        }
      }
    }
    forall i | 0 <= i < |ps| - 1
      ensures Fresh(next.db, ps[1..][i]) || Find(next.db.ledger, runId, ps[1..][i].id).value.status == Applied
    {
      assert ps[1..][i] == ps[i + 1];
      assert Find(next.db.ledger, runId, ps[i + 1].id) == Find(g.db.ledger, runId, ps[i + 1].id);
    }
  }

  // Within one run the expected revisions of an entity strictly rise.
  lemma {:induction false} RevisionsRise(g: Progress, runId: string, ps: seq<Proposal>)
    requires WellTyped(g.db) && Runnable(g.db, runId, ps) && ApplyAll(g, ps).Success?
    ensures Rising(g.db, ps)
    decreases |ps|
  {
    if ps != [] {
      var next := ApplyOne(g, ps[0]).value;
      StepKeepsTypes(g, ps[0]);
      StepKeepsRunnable(g, runId, ps);
      StepMovesRows(g, ps[0]);
      RevisionsRise(next, runId, ps[1..]);
      forall i | 1 <= i < |ps|
        ensures Amends(g.db, ps[i]) <==> Amends(next.db, ps[1..][i - 1])
      {
        assert ps[1..][i - 1] == ps[i];
      }
      RiseFrom(g.db, ps, next.db);
    }
  }

  ghost predicate Rising(db: Db, ps: seq<Proposal>) {
    && (forall i :: 0 <= i < |ps| && Amends(db, ps[i]) && ps[i].entity in db.rows ==>
          Rev(db.rows[ps[i].entity]) <= ps[i].expectedRevision)
    && (forall i, j :: 0 <= i < j < |ps| && Amends(db, ps[i]) && Amends(db, ps[j]) && ps[i].entity == ps[j].entity ==>
          ps[i].expectedRevision < ps[j].expectedRevision)
  }

  lemma RiseFrom(db: Db, ps: seq<Proposal>, next: Db)
    requires |ps| > 0 && StepRows(db, ps[0], next) && Rising(next, ps[1..])
    requires forall i :: 1 <= i < |ps| ==> (Amends(db, ps[i]) <==> Amends(next, ps[1..][i - 1]))
    ensures Rising(db, ps)
  {
    forall i | 1 <= i < |ps| && Amends(db, ps[i]) && ps[i].entity in db.rows
      ensures Rev(next.rows[ps[i].entity]) <= ps[i].expectedRevision
      ensures Rev(db.rows[ps[i].entity]) <= ps[i].expectedRevision
    {
      assert ps[1..][i - 1] == ps[i];
      assert Amends(next, ps[1..][i - 1]);
    }
    forall i, j | 0 <= i < j < |ps| && Amends(db, ps[i]) && Amends(db, ps[j]) && ps[i].entity == ps[j].entity
      ensures ps[i].expectedRevision < ps[j].expectedRevision
    {
      assert ps[1..][j - 1] == ps[j];
      if i > 0 {
        assert ps[1..][i - 1] == ps[i];
      }
    }
  }

  // Each amendment has an entity of its own, already in the database.
  ghost predicate DistinctTargets(db: Db, ps: seq<Proposal>) {
    && (forall i :: 0 <= i < |ps| && Amends(db, ps[i]) ==> ps[i].entity in db.rows)
    && forall i, j :: 0 <= i < j < |ps| && Amends(db, ps[i]) && Amends(db, ps[j]) ==> ps[i].entity != ps[j].entity
  }

  ghost predicate Targeted(db: Db, ps: seq<Proposal>, ref: Ref) {
    exists i :: 0 <= i < |ps| && Amends(db, ps[i]) && ps[i].entity == ref
  }

  ghost predicate SummaryTargeted(db: Db, ps: seq<Proposal>, sid: int) {
    exists i :: 0 <= i < |ps| && Amends(db, ps[i]) && ps[i].operation == AmendSummary &&
      ps[i].entity == Ref(Session, sid)
  }

  // The exact effect of a run of applications on rows, summaries and ledger.
  ghost predicate Effects(g: Progress, ps: seq<Proposal>, end: Progress) {
    RowEffects(g, ps, end) && SummaryEffects(g, ps, end) && SummariesWritten(g, ps, end) && LedgerEffects(g, ps, end)
  }

  lemma {:induction false} FindStable(a: seq<Amended>, b: seq<Amended>, runId: string, id: string)
    requires a <= b && Find(a, runId, id).Some?
    ensures Find(b, runId, id) == Find(a, runId, id)
  {
    if !(a[0].proposal.runId == runId && a[0].proposal.id == id) {
      FindStable(a[1..], b[1..], runId, id);
    }
  }

  lemma {:induction false} RunEffects(g: Progress, runId: string, ps: seq<Proposal>)
    requires WellTyped(g.db) && Runnable(g.db, runId, ps) && ApplyAll(g, ps).Success?
    requires DistinctTargets(g.db, ps)
    ensures WellTyped(ApplyAll(g, ps).value.db)
    ensures Effects(g, ps, ApplyAll(g, ps).value)
    decreases |ps|
  {
    if ps != [] {
      var next := ApplyOne(g, ps[0]).value;
      StepKeepsTypes(g, ps[0]);
      StepKeepsRunnable(g, runId, ps);
      forall i | 1 <= i < |ps|
        ensures Amends(g.db, ps[i]) <==> Amends(next.db, ps[1..][i - 1])
        ensures Fresh(g.db, ps[i]) <==> Fresh(next.db, ps[1..][i - 1])
      {
        assert ps[1..][i - 1] == ps[i];
      }
      assert DistinctTargets(next.db, ps[1..]) by {
        if Amends(g.db, ps[0]) {
          AmendStep(g, ps[0]);
        } else if Fresh(g.db, ps[0]) {
          InsertStep(g, ps[0]);
        }
        forall i | 0 <= i < |ps[1..]| && Amends(next.db, ps[1..][i])
          ensures ps[1..][i].entity in next.db.rows
        {
          assert ps[1..][i] == ps[i + 1] && Amends(g.db, ps[i + 1]);
        }
        forall i, j | 0 <= i < j < |ps[1..]| && Amends(next.db, ps[1..][i]) && Amends(next.db, ps[1..][j])
          ensures ps[1..][i].entity != ps[1..][j].entity
        {
          assert ps[1..][i] == ps[i + 1] && ps[1..][j] == ps[j + 1];
          assert Amends(g.db, ps[i + 1]) && Amends(g.db, ps[j + 1]);
        }
      }
      RunEffects(next, runId, ps[1..]);
      var end := ApplyAll(next, ps[1..]).value;
      StepMovesRows(g, ps[0]);
      ExtendRows(g, ps, next, end);
      StepMovesSummaries(g, ps[0]);
      ExtendSummaries(g, ps, next, end);
      ExtendWritten(g, ps, next, end);
      ExtendLedger(g, runId, ps, next, end);
    }
  }

  ghost predicate RowEffects(g: Progress, ps: seq<Proposal>, end: Progress) {
    && (forall i :: 0 <= i < |ps| && Amends(g.db, ps[i]) ==>
          && ps[i].entity in g.db.rows && ps[i].entity in end.db.rows
          && Rev(g.db.rows[ps[i].entity]) == ps[i].expectedRevision
          && end.db.rows[ps[i].entity] == AmendedRow(g.db.rows[ps[i].entity], ps[i]))
    && (forall r :: r in g.db.rows && !Targeted(g.db, ps, r) ==> r in end.db.rows && end.db.rows[r] == g.db.rows[r])
    && (forall r :: r in end.db.rows && r !in g.db.rows ==> r.kind == Finding)
  }

  ghost predicate SummaryEffects(g: Progress, ps: seq<Proposal>, end: Progress) {
    forall k: (int, Value) :: !SummaryTargeted(g.db, ps, k.0) ==>
      (k in end.db.summaries <==> k in g.db.summaries) &&
      (k in g.db.summaries ==> end.db.summaries[k] == g.db.summaries[k])
  }

  // Each amended session shows exactly what its amend_summary writes.
  ghost predicate SummariesWritten(g: Progress, ps: seq<Proposal>, end: Progress) {
    forall i :: 0 <= i < |ps| && Amends(g.db, ps[i]) && ps[i].operation == AmendSummary ==>
      SameSession(end.db.summaries, AmendedSummaries(g.db.summaries, ps[i]), ps[i].entity.id)
  }

  ghost predicate SameSession(a: Summaries, b: Summaries, sid: int) {
    forall key: Value :: ((sid, key) in a <==> (sid, key) in b) && ((sid, key) in a ==> a[(sid, key)] == b[(sid, key)])
  }

  lemma WriteRespects(a: Summaries, b: Summaries, sid: int, key: Value, value: Value, revision: int)
    requires SameSession(a, b, sid)
    ensures SameSession(WriteSummary(a, sid, key, value, revision), WriteSummary(b, sid, key, value, revision), sid)
  {
  }

  lemma SameSessionTransitive(a: Summaries, b: Summaries, c: Summaries, sid: int)
    requires SameSession(a, b, sid) && SameSession(b, c, sid)
    ensures SameSession(a, c, sid)
  {
  }

  // The proposals the ledger has not seen, in list order.
  ghost function Unrecorded(db: Db, ps: seq<Proposal>): seq<Proposal> {
    if ps == [] then [] else (if Fresh(db, ps[0]) then [ps[0]] else []) + Unrecorded(db, ps[1..])
  }

  function Entries(ps: seq<Proposal>): seq<Amended> {
    seq(|ps|, i requires 0 <= i < |ps| => Amended(ps[i], Applied))
  }

  lemma {:induction false} SameUnrecorded(a: Db, b: Db, ps: seq<Proposal>)
    requires forall i :: 0 <= i < |ps| ==> (Fresh(a, ps[i]) <==> Fresh(b, ps[i]))
    ensures Unrecorded(a, ps) == Unrecorded(b, ps)
  {
    if ps != [] {
      assert forall i :: 0 <= i < |ps[1..]| ==> ps[1..][i] == ps[i + 1];
      SameUnrecorded(a, b, ps[1..]);
    }
  }

  ghost predicate LedgerEffects(g: Progress, ps: seq<Proposal>, end: Progress) {
    && end.db.weaknesses == g.db.weaknesses && end.db.attempts == g.db.attempts && end.db.runs == g.db.runs
    && end.applied + end.skipped == g.applied + g.skipped + |ps|
    && end.applied == g.applied + |Unrecorded(g.db, ps)|
    && end.db.ledger == g.db.ledger + Entries(Unrecorded(g.db, ps))
    && (forall i :: 0 <= i < |ps| ==>
          Find(end.db.ledger, ps[i].runId, ps[i].id) ==
          if Fresh(g.db, ps[i]) then Some(Amended(ps[i], Applied)) else Find(g.db.ledger, ps[i].runId, ps[i].id))
  }

  // How one step moves the rows.
  ghost predicate StepRows(db: Db, p: Proposal, next: Db) {
    if Amends(db, p) then
      && p.entity in db.rows && Rev(db.rows[p.entity]) == p.expectedRevision
      && next.rows == db.rows[p.entity := AmendedRow(db.rows[p.entity], p)]
    else
      && (forall r :: r in db.rows ==> r in next.rows && next.rows[r] == db.rows[r])
      && (forall r :: r in next.rows && r !in db.rows ==> r.kind == Finding)
  }

  lemma StepMovesRows(g: Progress, p: Proposal)
    requires WellTyped(g.db) && OperationValid(p)
    requires Fresh(g.db, p) || Find(g.db.ledger, p.runId, p.id).value.status == Applied
    ensures ApplyOne(g, p).Success? ==> StepRows(g.db, p, ApplyOne(g, p).value.db)
  {
    if Amends(g.db, p) {
      AmendStep(g, p);
    } else if Fresh(g.db, p) && ApplyOne(g, p).Success? {
      InsertStep(g, p);
    }
  }

  lemma ExtendRows(g: Progress, ps: seq<Proposal>, next: Progress, end: Progress)
    requires |ps| > 0 && DistinctTargets(g.db, ps)
    requires StepRows(g.db, ps[0], next.db) && RowEffects(next, ps[1..], end)
    requires forall i :: 1 <= i < |ps| ==> (Amends(g.db, ps[i]) <==> Amends(next.db, ps[1..][i - 1]))
    ensures RowEffects(g, ps, end)
  {
    var p := ps[0];
    TargetsShift(g, ps, next);
    forall i | 1 <= i < |ps| && Amends(g.db, ps[i])
      ensures ps[i].entity in g.db.rows && ps[i].entity in end.db.rows
      ensures Rev(g.db.rows[ps[i].entity]) == ps[i].expectedRevision
      ensures end.db.rows[ps[i].entity] == AmendedRow(g.db.rows[ps[i].entity], ps[i])
    {
      assert Amends(next.db, ps[1..][i - 1]) && ps[1..][i - 1] == ps[i];
      assert next.db.rows[ps[i].entity] == g.db.rows[ps[i].entity];
    }
    if Amends(g.db, p) {
      assert !Targeted(next.db, ps[1..], p.entity);
    }
    forall r | r in g.db.rows && !Targeted(g.db, ps, r)
      ensures r in end.db.rows && end.db.rows[r] == g.db.rows[r]
    {
      assert !Targeted(next.db, ps[1..], r);
      assert Amends(g.db, p) ==> r != p.entity;
    }
  }

  // Without recovered findings, no row is added.
  lemma {:induction false} NoRowAdded(g: Progress, runId: string, ps: seq<Proposal>)
    requires WellTyped(g.db) && Runnable(g.db, runId, ps) && ApplyAll(g, ps).Success?
    requires forall i :: 0 <= i < |ps| ==> Amends(g.db, ps[i])
    ensures ApplyAll(g, ps).value.db.rows.Keys == g.db.rows.Keys
    decreases |ps|
  {
    if ps != [] {
      StepKeepsTypes(g, ps[0]);
      StepKeepsRunnable(g, runId, ps);
      StepMovesRows(g, ps[0]);
      var next := ApplyOne(g, ps[0]).value;
      forall i | 0 <= i < |ps[1..]|
        ensures Amends(next.db, ps[1..][i])
      {
        assert ps[1..][i] == ps[i + 1];
      }
      NoRowAdded(next, runId, ps[1..]);
    }
  }

  lemma TargetsShift(g: Progress, ps: seq<Proposal>, next: Progress)
    requires |ps| > 0 && DistinctTargets(g.db, ps)
    requires forall i :: 1 <= i < |ps| ==> (Amends(g.db, ps[i]) <==> Amends(next.db, ps[1..][i - 1]))
    ensures forall r :: Targeted(next.db, ps[1..], r) ==> Targeted(g.db, ps, r)
    ensures Amends(g.db, ps[0]) ==> !Targeted(next.db, ps[1..], ps[0].entity)
    ensures forall sid :: SummaryTargeted(next.db, ps[1..], sid) ==> SummaryTargeted(g.db, ps, sid)
  {
    forall i | 0 <= i < |ps[1..]| && Amends(next.db, ps[1..][i])
      ensures Amends(g.db, ps[i + 1]) && ps[i + 1] == ps[1..][i]
    {
    }
  }

  lemma StepMovesSummaries(g: Progress, p: Proposal)
    requires WellTyped(g.db) && OperationValid(p)
    requires Fresh(g.db, p) || Find(g.db.ledger, p.runId, p.id).value.status == Applied
    ensures ApplyOne(g, p).Success? ==>
              ApplyOne(g, p).value.db.summaries ==
              if Amends(g.db, p) then AmendedSummaries(g.db.summaries, p) else g.db.summaries
  {
    if Amends(g.db, p) {
      AmendStep(g, p);
    } else if Fresh(g.db, p) && ApplyOne(g, p).Success? {
      InsertStep(g, p);
    }
  }

  lemma ExtendSummaries(g: Progress, ps: seq<Proposal>, next: Progress, end: Progress)
    requires |ps| > 0 && DistinctTargets(g.db, ps) && OperationValid(ps[0])
    requires next.db.summaries ==
             if Amends(g.db, ps[0]) then AmendedSummaries(g.db.summaries, ps[0]) else g.db.summaries
    requires SummaryEffects(next, ps[1..], end)
    requires forall i :: 1 <= i < |ps| ==> (Amends(g.db, ps[i]) <==> Amends(next.db, ps[1..][i - 1]))
    ensures SummaryEffects(g, ps, end)
  {
    var p := ps[0];
    TargetsShift(g, ps, next);
    forall k: (int, Value) | !SummaryTargeted(g.db, ps, k.0)
      ensures k in next.db.summaries <==> k in g.db.summaries
      ensures k in g.db.summaries ==> next.db.summaries[k] == g.db.summaries[k]
    {
      if Amends(g.db, p) && p.operation == AmendSummary {
        assert p.entity != Ref(Session, k.0);
      }
    }
  }

  lemma ExtendWritten(g: Progress, ps: seq<Proposal>, next: Progress, end: Progress)
    requires |ps| > 0 && DistinctTargets(g.db, ps)
    requires forall i :: 0 <= i < |ps| ==> OperationValid(ps[i])
    requires next.db.summaries ==
             if Amends(g.db, ps[0]) then AmendedSummaries(g.db.summaries, ps[0]) else g.db.summaries
    requires SummaryEffects(next, ps[1..], end) && SummariesWritten(next, ps[1..], end)
    requires forall i :: 1 <= i < |ps| ==> (Amends(g.db, ps[i]) <==> Amends(next.db, ps[1..][i - 1]))
    ensures SummariesWritten(g, ps, end)
  {
    TargetsShift(g, ps, next);
    forall i | 0 <= i < |ps| && Amends(g.db, ps[i]) && ps[i].operation == AmendSummary
      ensures SameSession(end.db.summaries, AmendedSummaries(g.db.summaries, ps[i]), ps[i].entity.id)
    {
      var p, sid := ps[i], ps[i].entity.id;
      if i == 0 {
        HeadSummaryStays(g, ps, next, end);
      } else {
        assert ps[1..][i - 1] == p && Amends(next.db, ps[1..][i - 1]);
        assert Amends(g.db, ps[0]) ==> ps[0].entity != p.entity;
        assert SameSession(next.db.summaries, g.db.summaries, sid);
        WriteRespects(next.db.summaries, g.db.summaries, sid, Get(p.after.m, SummaryKey), Get(p.after.m, SummaryValue),
                      p.expectedRevision + 1);
        SameSessionTransitive(end.db.summaries, AmendedSummaries(next.db.summaries, p),
                              AmendedSummaries(g.db.summaries, p), sid);
      }
    }
  }

  // No later amendment writes the summaries of the first one's session.
  lemma HeadSummaryStays(g: Progress, ps: seq<Proposal>, next: Progress, end: Progress)
    requires |ps| > 0 && DistinctTargets(g.db, ps) && OperationValid(ps[0])
    requires Amends(g.db, ps[0]) && ps[0].operation == AmendSummary
    requires SummaryEffects(next, ps[1..], end)
    requires forall i :: 1 <= i < |ps| ==> (Amends(g.db, ps[i]) <==> Amends(next.db, ps[1..][i - 1]))
    ensures SameSession(end.db.summaries, next.db.summaries, ps[0].entity.id)
  {
    var sid := ps[0].entity.id;
    assert ps[0].entity == Ref(Session, sid);
    assert !SummaryTargeted(next.db, ps[1..], sid) by {
      forall i | 0 <= i < |ps[1..]| && Amends(next.db, ps[1..][i])
        ensures ps[1..][i].entity != ps[0].entity
      {
        assert ps[1..][i] == ps[i + 1];
      }
    }
    forall key: Value
      ensures (sid, key) in end.db.summaries <==> (sid, key) in next.db.summaries
      ensures (sid, key) in end.db.summaries ==> end.db.summaries[(sid, key)] == next.db.summaries[(sid, key)]
    {
      assert (sid, key).0 == sid;
    }
  }

  lemma {:induction false} ExtendLedger(g: Progress, runId: string, ps: seq<Proposal>, next: Progress, end: Progress)
    requires |ps| > 0 && WellTyped(g.db) && Runnable(g.db, runId, ps)
    requires ApplyOne(g, ps[0]) == Success(next) && LedgerEffects(next, ps[1..], end)
    requires forall i :: 1 <= i < |ps| ==> Find(next.db.ledger, runId, ps[i].id) == Find(g.db.ledger, runId, ps[i].id)
    ensures LedgerEffects(g, ps, end)
  {
    var p := ps[0];
    if Amends(g.db, p) {
      AmendStep(g, p);
    } else if Fresh(g.db, p) {
      InsertStep(g, p);
    }
    FindAppend(g.db.ledger, Amended(p, Applied), runId, p.id);
    FindStable(next.db.ledger, end.db.ledger, runId, p.id);
    forall i | 0 <= i < |ps[1..]|
      ensures Fresh(g.db, ps[1..][i]) <==> Fresh(next.db, ps[1..][i])
    {
      assert ps[1..][i] == ps[i + 1];
    }
    SameUnrecorded(g.db, next.db, ps[1..]);
    LedgerGoesOn(g.db.ledger, next.db.ledger, end.db.ledger, p, Fresh(g.db, p), Unrecorded(g.db, ps[1..]));
    forall i | 1 <= i < |ps|
      ensures Find(end.db.ledger, ps[i].runId, ps[i].id) ==
              if Fresh(g.db, ps[i]) then Some(Amended(ps[i], Applied)) else Find(g.db.ledger, ps[i].runId, ps[i].id)
    {
      assert ps[1..][i - 1] == ps[i];
    }
  }

  lemma LedgerGoesOn(before: seq<Amended>, next: seq<Amended>, end: seq<Amended>, p: Proposal, unseen: bool,
                     rest: seq<Proposal>)
    requires next == before + (if unseen then [Amended(p, Applied)] else []) && end == next + Entries(rest)
    ensures end == before + Entries((if unseen then [p] else []) + rest)
  {
    assert Entries([p] + rest) == [Amended(p, Applied)] + Entries(rest);
    assert [] + rest == rest;
  }

  lemma ValidIsRunnable(db: Db, batch: Batch)
    requires BatchValid(db, batch)
    ensures Runnable(db, batch.runId, batch.proposals)
    ensures Runnable(OpenRun(db, batch), batch.runId, batch.proposals)
  {
    forall i | 0 <= i < |batch.proposals|
      ensures batch.proposals[i].runId == batch.runId && OperationValid(batch.proposals[i])
      ensures Fresh(db, batch.proposals[i]) ||
              Find(db.ledger, batch.proposals[i].runId, batch.proposals[i].id).value.status == Applied
      ensures forall j :: 0 <= j < i ==> batch.proposals[j].id != batch.proposals[i].id
    {
      assert ProposalValid(db, batch, i);
    }
  }

  // A committed batch never amends one entity twice.
  lemma ValidTargetsDistinct(db: Db, batch: Batch)
    requires WellTyped(db) && Apply(db, batch).Success?
    ensures DistinctTargets(OpenRun(db, batch), batch.proposals)
  {
    var ps := batch.proposals;
    var open := OpenRun(db, batch);
    CommitRan(db, batch);
    ValidIsRunnable(db, batch);
    OpenRunTyped(db, batch);
    RevisionsRise(Progress(open, 0, 0), batch.runId, ps);
    forall i | 0 <= i < |ps| && Amends(open, ps[i])
      ensures ps[i].entity in open.rows && Rev(open.rows[ps[i].entity]) == ps[i].expectedRevision
    {
      TargetCurrent(db, batch, i);
    }
    RisingIsDistinct(open, ps);
  }

  lemma TargetCurrent(db: Db, batch: Batch, i: nat)
    requires BatchValid(db, batch) && i < |batch.proposals| && Amends(db, batch.proposals[i])
    ensures batch.proposals[i].entity in db.rows
    ensures Rev(db.rows[batch.proposals[i].entity]) == batch.proposals[i].expectedRevision
  {
    assert ProposalValid(db, batch, i);
    EntityRevision(db, batch.proposals[i].entity);
  }

  lemma RisingIsDistinct(db: Db, ps: seq<Proposal>)
    requires Rising(db, ps)
    requires forall i :: 0 <= i < |ps| && Amends(db, ps[i]) ==>
               ps[i].entity in db.rows && Rev(db.rows[ps[i].entity]) == ps[i].expectedRevision
    ensures DistinctTargets(db, ps)
  {
  }

  // The commit theorem.  Every amendment not yet recorded raises its entity from
  // the expected revision to the next with exactly the columns of its operation;
  // each has an entity of its own; every other row is untouched, and new rows are
  // recovered findings; an amended session's summaries are what its amend_summary
  // writes, all others are untouched; and the ledger grows by the unrecorded
  // proposals in list order.
  lemma CommitEffects(db: Db, batch: Batch)
    requires WellTyped(db) && Apply(db, batch).Success?
    ensures WellTyped(Apply(db, batch).value.db)
    ensures DistinctTargets(db, batch.proposals)
    ensures Effects(Progress(db, 0, 0), batch.proposals,
                    Apply(db, batch).value.(db := Apply(db, batch).value.db.(runs := db.runs)))
  {
    var end := TransactionEffects(db, batch);
    ChangeRuns(db, batch, end);
  }

  // A commit, opened up.
  lemma CommitRan(db: Db, batch: Batch)
    requires Apply(db, batch).Success?
    ensures BatchValid(db, batch)
    ensures ApplyAll(Progress(OpenRun(db, batch), 0, 0), batch.proposals).Success?
    ensures var end := ApplyAll(Progress(OpenRun(db, batch), 0, 0), batch.proposals).value;
            Apply(db, batch).value == end.(db := CloseRun(end.db, batch, end.applied))
  {
  }

  lemma TransactionEffects(db: Db, batch: Batch) returns (end: Progress)
    requires WellTyped(db) && Apply(db, batch).Success?
    ensures WellTyped(end.db) && Effects(Progress(OpenRun(db, batch), 0, 0), batch.proposals, end)
    ensures DistinctTargets(OpenRun(db, batch), batch.proposals)
    ensures Apply(db, batch).value == end.(db := CloseRun(end.db, batch, end.applied))
  {
    CommitRan(db, batch);
    ValidIsRunnable(db, batch);
    ValidTargetsDistinct(db, batch);
    OpenRunTyped(db, batch);
    end := ApplyAll(Progress(OpenRun(db, batch), 0, 0), batch.proposals).value;
    RunEffects(Progress(OpenRun(db, batch), 0, 0), batch.runId, batch.proposals);
  }

  lemma OpenRunTyped(db: Db, batch: Batch)
    requires WellTyped(db)
    ensures WellTyped(OpenRun(db, batch))
  {
    var open := OpenRun(db, batch);
    assert open.rows == db.rows && open.summaries == db.summaries;
  }

  // The run record: opened once, closed with the batch's boundary and a running count.
  lemma CommitClosesRun(db: Db, batch: Batch)
    requires WellTyped(db) && Apply(db, batch).Success?
    ensures var counted :=
              if batch.runId in db.runs then db.runs[batch.runId] else Run("", false, |batch.proposals|, 0);
            Apply(db, batch).value.db.runs ==
            db.runs[batch.runId := Run(batch.boundary, true, counted.proposedCount,
              counted.appliedCount + Apply(db, batch).value.applied)]
  {
    var end := TransactionEffects(db, batch);
    RunsUntouched(Progress(OpenRun(db, batch), 0, 0), batch.proposals, end);
    CloseRunShape(db, end.db, batch, end.applied);
  }

  lemma RunsUntouched(g: Progress, ps: seq<Proposal>, end: Progress)
    requires Effects(g, ps, end)
    ensures end.db.runs == g.db.runs
  {
  }

  lemma CloseRunShape(db: Db, mid: Db, batch: Batch, applied: nat)
    requires mid.runs == OpenRun(db, batch).runs
    ensures var counted :=
              if batch.runId in db.runs then db.runs[batch.runId] else Run("", false, |batch.proposals|, 0);
            CloseRun(mid, batch, applied).runs ==
            db.runs[batch.runId := Run(batch.boundary, true, counted.proposedCount, counted.appliedCount + applied)]
  {
  }

  // Effects do not depend on the run table.
  lemma ChangeRuns(db: Db, batch: Batch, end: Progress)
    requires Effects(Progress(OpenRun(db, batch), 0, 0), batch.proposals, end)
    requires DistinctTargets(OpenRun(db, batch), batch.proposals)
    ensures DistinctTargets(db, batch.proposals)
    ensures Effects(Progress(db, 0, 0), batch.proposals, end.(db := end.db.(runs := db.runs)))
  {
    var open := OpenRun(db, batch);
    var ps := batch.proposals;
    assert forall p :: Amends(open, p) <==> Amends(db, p);
    assert forall r :: Targeted(open, ps, r) <==> Targeted(db, ps, r);
    assert forall sid :: SummaryTargeted(open, ps, sid) <==> SummaryTargeted(db, ps, sid);
    SameUnrecorded(open, db, ps);
  }

  lemma {:induction false} RecordedAreSkipped(g: Progress, ps: seq<Proposal>)
    requires forall i :: 0 <= i < |ps| ==> Recorded(g.db, ps[i])
    ensures ApplyAll(g, ps) == Success(Progress(g.db, g.applied, g.skipped + |ps|))
    decreases |ps|
  {
    if ps != [] {
      assert forall i :: 0 <= i < |ps[1..]| ==> ps[1..][i] == ps[i + 1];
      RecordedAreSkipped(g.(skipped := g.skipped + 1), ps[1..]);
    }
  }

  // Applying a committed batch again succeeds, applies nothing, skips every
  // proposal, and leaves the whole database as it is.
  lemma ReplayIsNoOp(db: Db, batch: Batch)
    requires WellTyped(db) && Apply(db, batch).Success?
    ensures var done := Apply(db, batch).value.db;
            Apply(done, batch) == Success(Progress(done, 0, |batch.proposals|))
  {
    var done := Apply(db, batch).value.db;
    var ps := batch.proposals;
    CommitEffects(db, batch);
    CommitClosesRun(db, batch);
    CommitRan(db, batch);
    forall i | 0 <= i < |ps|
      ensures Recorded(done, ps[i])
    {
      assert ProposalValid(db, batch, i);
      assert Find(done.ledger, ps[i].runId, ps[i].id) ==
             if Fresh(db, ps[i]) then Some(Amended(ps[i], Applied)) else Find(db.ledger, ps[i].runId, ps[i].id);
    }
    StillValid(db, done, batch);
    assert CloseRun(done, batch, 0) == done by {
      assert done.runs[batch.runId := done.runs[batch.runId]] == done.runs;
    }
    RecordedAreSkipped(Progress(done, 0, 0), ps);
  }

  // p is in the ledger, applied, with the operation and the value it asks for.
  predicate Recorded(db: Db, p: Proposal) {
    var r := Find(db.ledger, p.runId, p.id);
    && r.Some? && r.value.status == Applied
    && r.value.proposal.operation == p.operation && r.value.proposal.after == p.after
  }

  lemma StillValid(db: Db, done: Db, batch: Batch)
    requires BatchValid(db, batch)
    requires forall i :: 0 <= i < |batch.proposals| ==> Recorded(done, batch.proposals[i])
    ensures BatchValid(done, batch)
  {
    forall i | 0 <= i < |batch.proposals|
      ensures ProposalValid(done, batch, i)
    {
      assert ProposalValid(db, batch, i) && Recorded(done, batch.proposals[i]);
    }
  }

  // Summaries stay no newer than their sessions.
  lemma StepKeepsDates(g: Progress, p: Proposal)
    requires WellTyped(g.db) && SummariesDated(g.db) && OperationValid(p)
    requires Fresh(g.db, p) || Find(g.db.ledger, p.runId, p.id).value.status == Applied
    ensures ApplyOne(g, p).Success? ==> SummariesDated(ApplyOne(g, p).value.db)
  {
    if ApplyOne(g, p).Failure? {
      return;
    }
    var next := ApplyOne(g, p).value.db;
    StepMovesRows(g, p);
    StepMovesSummaries(g, p);
    forall k | k in next.summaries
      ensures Ref(Session, k.0) in next.rows && next.summaries[k].revision <= Rev(next.rows[Ref(Session, k.0)])
    {
      DateKept(g.db, p, next, k);
    }
  }

  lemma DateKept(db: Db, p: Proposal, next: Db, k: (int, Value))
    requires SummariesDated(db) && OperationValid(p) && StepRows(db, p, next) && k in next.summaries
    requires next.summaries == if Amends(db, p) then AmendedSummaries(db.summaries, p) else db.summaries
    ensures Ref(Session, k.0) in next.rows && next.summaries[k].revision <= Rev(next.rows[Ref(Session, k.0)])
  {
    var s := Ref(Session, k.0);
    if k in db.summaries {
      assert s in db.rows && db.summaries[k].revision <= Rev(db.rows[s]);
    }
  }

  // The invariants of the audit tables hold in every state that commits reach.
  lemma {:induction false} RunKeepsInvariants(g: Progress, runId: string, ps: seq<Proposal>)
    requires WellTyped(g.db) && SummariesDated(g.db) && Runnable(g.db, runId, ps) && ApplyAll(g, ps).Success?
    ensures WellTyped(ApplyAll(g, ps).value.db) && SummariesDated(ApplyAll(g, ps).value.db)
    decreases |ps|
  {
    if ps != [] {
      StepKeepsTypes(g, ps[0]);
      StepKeepsDates(g, ps[0]);
      StepKeepsRunnable(g, runId, ps);
      RunKeepsInvariants(ApplyOne(g, ps[0]).value, runId, ps[1..]);
    }
  }

  lemma CommitKeepsInvariants(db: Db, batch: Batch)
    requires WellTyped(db) && SummariesDated(db) && Apply(db, batch).Success?
    ensures WellTyped(Apply(db, batch).value.db) && SummariesDated(Apply(db, batch).value.db)
  {
    CommitRan(db, batch);
    ValidIsRunnable(db, batch);
    OpenRunTyped(db, batch);
    RunKeepsInvariants(Progress(OpenRun(db, batch), 0, 0), batch.runId, batch.proposals);
    InvariantsIgnoreRuns(ApplyAll(Progress(OpenRun(db, batch), 0, 0), batch.proposals).value.db,
      Apply(db, batch).value.db);
  }

  lemma InvariantsIgnoreRuns(a: Db, b: Db)
    requires WellTyped(a) && SummariesDated(a) && b == a.(runs := b.runs)
    ensures WellTyped(b) && SummariesDated(b)
  {
  }
}
