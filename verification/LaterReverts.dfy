// Exactly when a run can be reverted, however much has happened since.
module LaterReverts {
  import opened Outcomes
  import opened Texts
  import opened AuditModel
  import opened AuditCommit
  import opened AuditRevert
  import opened AuditRestoration
  import opened LaterAmendments

  // The generated operation is one that validation lets through.
  predicate HasInverse(p: Proposal) {
    && Compensable(p)
    && (p.operation == ReassignTarget ==> p.before.Fields? && IsString(Get(p.before.m, WeaknessKey)))
  }

  // The tables take the old columns of p's entity.
  predicate WriteBackAllowed(rows: map<Ref, Row>, weaknesses: set<string>, p: Proposal)
    requires p.entity in rows
  {
    && WriteAllowed(rows, p.entity, rows[p.entity] + Rewritten(p))
    && (p.operation == ReassignTarget ==>
          var key := Get(if p.before.Fields? then p.before.m else map[], WeaknessKey);
          key.Text? && key.s in weaknesses)
  }

  function RowsBack(rows: map<Ref, Row>, p: Proposal): map<Ref, Row>
    requires p.entity in rows
  {
    rows[p.entity := (rows[p.entity] + Rewritten(p))[Revision := Number(Rev(rows[p.entity]) + 1)]]
  }

  // One after the other, newest first, they take the old columns of each.
  predicate WritesBack(rows: map<Ref, Row>, weaknesses: set<string>, ps: seq<Proposal>)
    decreases |ps|
  {
    ps == [] ||
    var p := ps[|ps| - 1];
    && p.entity in rows && WriteBackAllowed(rows, weaknesses, p)
    && WritesBack(RowsBack(rows, p), weaknesses, ps[..|ps| - 1])
  }

  predicate DistinctEntities(ps: seq<Proposal>) {
    forall i, j :: 0 <= i < j < |ps| ==> ps[i].entity != ps[j].entity
  }

  predicate CanRevertLater(now: Db, ps: seq<Proposal>, q: Request) {
    && !Blank(q.batchId) && ps != [] && HexDigest(q.snapshotHash)
    && (forall i :: 0 <= i < |ps| ==> HasInverse(ps[i]) && SourcesValid(now, ps[i]))
    && DistinctEntities(ps) && WritesBack(now.rows, now.weaknesses, ps)
  }

  // ----- the generated batch

  lemma InverseFits(current: Row, p: Proposal, k: nat, q: Request)
    requires OperationValid(p) && !Blank(q.batchId) && Get(current, Revision).Number? && Get(current, Revision).n >= 1
    ensures OperationValid(Compensation(current, p, k, q)) <==> HasInverse(p)
  {
    if p.operation == ReassignTarget && !IsString(Get(p.before.m, WeaknessKey)) {
      assert Get(Compensation(current, p, k, q).after.m, WeaknessKey) == Get(p.before.m, WeaknessKey);
    } else {
      CompensationFits(current, p, k, q);
    }
  }

  lemma EachBack(now: Db, ps: seq<Proposal>, back: Batch, q: Request, i: nat)
    requires WellTyped(now) && Undone(now, ps, back, q) && !Blank(q.batchId) && i < |ps|
    requires forall j :: 0 <= j < |ps| ==> OperationValid(ps[j])
    ensures OperationValid(back.proposals[i]) <==> HasInverse(ps[|ps| - 1 - i])
    ensures FreshValid(now, back, i) <==> HexDigest(q.snapshotHash) && SourcesValid(now, ps[|ps| - 1 - i])
  {
    var p := ps[|ps| - 1 - i];
    assert back.proposals[i] == Undo(now, p, i, q);
    ShownRevision(now, p);
    InverseFits(EntityValue(now, p.entity).value, p, i, q);
    FreshWhenSourcesHold(now, back, i, p, q);
  }

  lemma BackValidIff(now: Db, ps: seq<Proposal>, back: Batch, q: Request)
    requires WellTyped(now) && Undone(now, ps, back, q) && back == RevertBatchOf(q, back.proposals) && ps != []
    requires !Blank(q.batchId) && !Blank(q.now) && NoRun(now.ledger, back.runId)
    requires forall j :: 0 <= j < |ps| ==> OperationValid(ps[j])
    ensures BatchValid(now, back) <==>
            HexDigest(q.snapshotHash) && forall i :: 0 <= i < |ps| ==> HasInverse(ps[i]) && SourcesValid(now, ps[i])
  {
    assert back.runId[|q.batchId|] == '-' && back.promptVersion[0] == 'c';
    forall i | 0 <= i < |ps|
      ensures OperationValid(back.proposals[i]) <==> HasInverse(ps[|ps| - 1 - i])
      ensures FreshValid(now, back, i) <==> HexDigest(q.snapshotHash) && SourcesValid(now, ps[|ps| - 1 - i])
    {
      EachBack(now, ps, back, q, i);
    }
    if i :| 0 <= i < |ps| && !HasInverse(ps[i]) {
      assert !OperationValid(back.proposals[|ps| - 1 - i]);
      assert !ProposalValid(now, back, |ps| - 1 - i);
    } else {
      BackValid(now, ps, back, q);
      FreshTogether(now, ps, back, q);
    }
  }

  lemma FreshTogether(now: Db, ps: seq<Proposal>, back: Batch, q: Request)
    requires ps != [] && |back.proposals| == |ps|
    requires forall i :: 0 <= i < |ps| ==>
               (FreshValid(now, back, i) <==> HexDigest(q.snapshotHash) && SourcesValid(now, ps[|ps| - 1 - i]))
    ensures (forall i :: 0 <= i < |ps| ==> FreshValid(now, back, i)) <==>
            HexDigest(q.snapshotHash) && forall i :: 0 <= i < |ps| ==> SourcesValid(now, ps[i])
  {
    if forall i :: 0 <= i < |ps| ==> FreshValid(now, back, i) {
      assert FreshValid(now, back, 0);
      forall i | 0 <= i < |ps|
        ensures SourcesValid(now, ps[i])
      {
        assert FreshValid(now, back, |ps| - 1 - i);
      }
    }
  }

  // ----- applying it step by step

  // c is the compensation of p on what x shows.
  ghost predicate Undoes(x: Db, p: Proposal, c: Proposal) {
    && p.entity in x.rows && c.entity == p.entity && OperationValid(c) && Amends(x, c)
    && c.expectedRevision == Rev(x.rows[p.entity]) && Get(x.rows[p.entity], Revision).Number?
    && EntityValue(x, p.entity).Some? && c.beforeHash == Sha256(EntityValue(x, p.entity).value)
    && c.operation == RevertOperation(p.operation)
    && Amend(p.entity.kind, c.operation, c.after.m, x.rows[p.entity]) == x.rows[p.entity] + Rewritten(p)
    && (c.operation == ReassignTarget ==>
          p.before.Fields? && Get(c.after.m, WeaknessKey) == Get(p.before.m, WeaknessKey))
  }

  lemma CompensationUndoes(x: Db, p: Proposal, current: Row, k: nat, q: Request)
    requires WellTyped(x) && OperationValid(p) && HasInverse(p) && !Blank(q.batchId)
    requires EntityValue(x, p.entity) == Some(current) && Unused(x.ledger, q, k)
    ensures Undoes(x, p, Compensation(current, p, k, q))
  {
    ShownRevision(x, p);
    InverseFits(current, p, k, q);
    UndoRewrites(x.rows[p.entity], p);
  }

  lemma UndoneIff(x: Progress, p: Proposal, c: Proposal)
    requires WellTyped(x.db) && Undoes(x.db, p, c)
    ensures ApplyOne(x, c).Success? <==> WriteBackAllowed(x.db.rows, x.db.weaknesses, p)
    ensures ApplyOne(x, c).Success? ==> AmendedBy(x, c, ApplyOne(x, c).value) && WellTyped(ApplyOne(x, c).value.db)
  {
    assert c.operation == ReassignTarget <==> p.operation == ReassignTarget;
    if WriteBackAllowed(x.db.rows, x.db.weaknesses, p) {
      Runs(x, c, EntityValue(x.db, p.entity).value);
    }
    AmendStep(x, c);
    AmendStepTyped(x, c);
  }

  // next is x with p's old columns written back by c.
  ghost predicate SteppedBack(x: Progress, p: Proposal, c: Proposal, next: Progress) {
    && WellTyped(next.db) && next.db.weaknesses == x.db.weaknesses && p.entity in x.db.rows
    && next.db.rows == RowsBack(x.db.rows, p) && next.db.ledger == x.db.ledger + [Amended(c, Applied)]
    && forall r: Ref :: r != p.entity ==> EntityValue(next.db, r) == EntityValue(x.db, r)
  }

  lemma OtherEntityStays(a: Db, b: Db, c: Proposal, row: Row, r: Ref)
    requires b.rows == a.rows[c.entity := row] && b.summaries == AmendedSummaries(a.summaries, c)
    requires (c.operation == AmendSummary ==> c.entity.kind == Session) && r != c.entity
    ensures EntityValue(b, r) == EntityValue(a, r)
  {
    if r.kind == Session && c.operation == AmendSummary {
      assert c.entity == Ref(Session, c.entity.id) && r == Ref(Session, r.id);
    }
  }

  lemma WrittenBackRow(row: Row, p: Proposal, c: Proposal)
    requires c.after.Fields? && c.entity == p.entity && c.expectedRevision == Rev(row)
    requires Amend(p.entity.kind, c.operation, c.after.m, row) == row + Rewritten(p)
    ensures AmendedRow(row, c) == (row + Rewritten(p))[Revision := Number(Rev(row) + 1)]
  {
  }

  lemma StepLeaves(x: Progress, p: Proposal, c: Proposal, next: Progress)
    requires p.entity in x.db.rows && c.entity == p.entity && c.after.Fields? && WellTyped(next.db)
    requires c.expectedRevision == Rev(x.db.rows[p.entity])
    requires c.operation == AmendSummary ==> c.entity.kind == Session
    requires Amend(p.entity.kind, c.operation, c.after.m, x.db.rows[p.entity]) == x.db.rows[p.entity] + Rewritten(p)
    requires next.db.rows == x.db.rows[p.entity := AmendedRow(x.db.rows[p.entity], c)]
    requires next.db.summaries == AmendedSummaries(x.db.summaries, c) && next.db.weaknesses == x.db.weaknesses
    requires next.db.ledger == x.db.ledger + [Amended(c, Applied)]
    ensures SteppedBack(x, p, c, next)
  {
    WrittenBackRow(x.db.rows[p.entity], p, c);
    forall r: Ref | r != p.entity
      ensures EntityValue(next.db, r) == EntityValue(x.db, r)
    {
      OtherEntityStays(x.db, next.db, c, AmendedRow(x.db.rows[p.entity], c), r);
    }
  }

  lemma UndoStep(x: Progress, p: Proposal, current: Row, k: nat, q: Request)
    requires WellTyped(x.db) && OperationValid(p) && HasInverse(p) && !Blank(q.batchId)
    requires EntityValue(x.db, p.entity) == Some(current) && Unused(x.db.ledger, q, k)
    ensures p.entity in x.db.rows
    ensures var c := Compensation(current, p, k, q);
            && (ApplyOne(x, c).Success? <==> WriteBackAllowed(x.db.rows, x.db.weaknesses, p))
            && (ApplyOne(x, c).Success? ==> SteppedBack(x, p, c, ApplyOne(x, c).value))
  {
    var c := Compensation(current, p, k, q);
    CompensationUndoes(x.db, p, current, k, q);
    UndoneIff(x, p, c);
    if ApplyOne(x, c).Success? {
      StepLeaves(x, p, c, ApplyOne(x, c).value);
    }
  }

  // What the compensations of ps were built on is still what x shows.
  ghost predicate StillBuilt(now: Db, x: Db, ps: seq<Proposal>) {
    forall i :: 0 <= i < |ps| ==>
      EntityValue(now, ps[i].entity).Some? && EntityValue(x, ps[i].entity) == EntityValue(now, ps[i].entity)
  }

  ghost predicate AllInvertible(ps: seq<Proposal>) {
    forall i :: 0 <= i < |ps| ==> OperationValid(ps[i]) && HasInverse(ps[i])
  }

  lemma StillBuiltNext(now: Db, x: Progress, ps: seq<Proposal>, c: Proposal, next: Progress)
    requires ps != [] && DistinctEntities(ps) && StillBuilt(now, x.db, ps)
    requires SteppedBack(x, ps[|ps| - 1], c, next)
    ensures StillBuilt(now, next.db, ps[..|ps| - 1]) && DistinctEntities(ps[..|ps| - 1])
  {
    var front := ps[..|ps| - 1];
    forall i | 0 <= i < |front|
      ensures EntityValue(now, front[i].entity).Some? &&
              EntityValue(next.db, front[i].entity) == EntityValue(now, front[i].entity)
    {
      assert front[i] == ps[i] && ps[i].entity != ps[|ps| - 1].entity;
    }
  }

  lemma {:induction false} ApplyCons(x: Progress, c: Proposal, rest: seq<Proposal>)
    ensures ApplyAll(x, [c] + rest).Success? <==>
            ApplyOne(x, c).Success? && ApplyAll(ApplyOne(x, c).value, rest).Success?
  {
    assert ([c] + rest)[1..] == rest;
  }

  // What the walk through the compensations of ps has to keep.
  ghost predicate Walking(now: Db, x: Db, ps: seq<Proposal>, k: nat, q: Request) {
    && WellTyped(x) && !Blank(q.batchId) && Unused(x.ledger, q, k)
    && DistinctEntities(ps) && AllInvertible(ps) && StillBuilt(now, x, ps)
  }

  lemma WalksOn(now: Db, x: Progress, ps: seq<Proposal>, k: nat, q: Request, c: Proposal, next: Progress)
    requires ps != [] && Walking(now, x.db, ps, k, q)
    requires SteppedBack(x, ps[|ps| - 1], c, next) && c.id == RevertId(k, ps[|ps| - 1].id)
    ensures Walking(now, next.db, ps[..|ps| - 1], k + 1, q)
  {
    StillBuiltNext(now, x, ps, c, next);
    StaysUnused(x.db.ledger, c, k, ps[|ps| - 1].id, q);
    FrontInvertible(ps);
  }

  lemma FrontInvertible(ps: seq<Proposal>)
    requires ps != [] && AllInvertible(ps)
    ensures AllInvertible(ps[..|ps| - 1])
  {
    var front := ps[..|ps| - 1];
    assert forall i :: 0 <= i < |front| ==> front[i] == ps[i];
  }

  lemma HeadThrough(now: Db, x: Progress, ps: seq<Proposal>, k: nat, q: Request)
    requires ps != [] && Walking(now, x.db, ps, k, q)
    ensures var p := ps[|ps| - 1];
            && EntityValue(now, p.entity).Some? && p.entity in x.db.rows
            && var c := Compensation(EntityValue(now, p.entity).value, p, k, q);
               && (ApplyOne(x, c).Success? <==> WriteBackAllowed(x.db.rows, x.db.weaknesses, p))
               && (ApplyOne(x, c).Success? ==>
                     && SteppedBack(x, p, c, ApplyOne(x, c).value)
                     && Walking(now, ApplyOne(x, c).value.db, ps[..|ps| - 1], k + 1, q))
  {
    var p := ps[|ps| - 1];
    var current := EntityValue(now, p.entity).value;
    var c := Compensation(current, p, k, q);
    UndoStep(x, p, current, k, q);
    if ApplyOne(x, c).Success? {
      WalksOn(now, x, ps, k, q, c, ApplyOne(x, c).value);
    }
  }

  lemma CompensationsOf(now: Db, ps: seq<Proposal>, k: nat, q: Request)
    requires ps != [] && forall i :: 0 <= i < |ps| ==> EntityValue(now, ps[i].entity).Some?
    ensures var p, front := ps[|ps| - 1], Compensations(now, ps[..|ps| - 1], k + 1, q);
            && front.Success?
            && Compensations(now, ps, k, q) ==
               Success([Compensation(EntityValue(now, p.entity).value, p, k, q)] + front.value)
  {
    CompensationsAt(now, ps[..|ps| - 1], k + 1, q);
  }

  // The compensations go through exactly when the tables take them one by one.
  lemma {:induction false} StepThrough(now: Db, x: Progress, ps: seq<Proposal>, k: nat, q: Request)
    requires Walking(now, x.db, ps, k, q)
    ensures Compensations(now, ps, k, q).Success?
    ensures ApplyAll(x, Compensations(now, ps, k, q).value).Success? <==> WritesBack(x.db.rows, x.db.weaknesses, ps)
    decreases |ps|
  {
    if ps != [] {
      var front, p := ps[..|ps| - 1], ps[|ps| - 1];
      HeadThrough(now, x, ps, k, q);
      CompensationsOf(now, ps, k, q);
      var c := Compensation(EntityValue(now, p.entity).value, p, k, q);
      ApplyCons(x, c, Compensations(now, front, k + 1, q).value);
      if ApplyOne(x, c).Success? {
        StepThrough(now, ApplyOne(x, c).value, front, k + 1, q);
      }
    }
  }

  // ----- the theorem

  lemma StartStillBuilt(now: Db, ps: seq<Proposal>, back: Batch, q: Request)
    requires WellTyped(now) && Undone(now, ps, back, q) && NoRun(now.ledger, RunName(q.batchId, q.stamp))
    ensures var x := OpenRun(now, back);
            WellTyped(x) && StillBuilt(now, x, ps) && Unused(x.ledger, q, 0) && x.rows == now.rows &&
            x.weaknesses == now.weaknesses
  {
    OpenRunTyped(now, back);
    forall i: nat, id | 0 <= i
      ensures Find(now.ledger, RunName(q.batchId, q.stamp), RevertId(i, id)).None?
    {
      NoRunFindsNone(now.ledger, RunName(q.batchId, q.stamp), RevertId(i, id));
    }
  }

  // A revert that goes through undoes no entity twice.
  lemma RevertedAreDistinct(now: Db, ps: seq<Proposal>, back: Batch, q: Request)
    requires WellTyped(now) && Undone(now, ps, back, q) && NoRun(now.ledger, RunName(q.batchId, q.stamp))
    requires Apply(now, back).Success?
    ensures DistinctEntities(ps)
  {
    CommitRows(now, back);
    forall i, j | 0 <= i < j < |ps|
      ensures ps[i].entity != ps[j].entity
    {
      TwoApart(now, ps, back, q, i, j);
    }
  }

  lemma TwoApart(now: Db, ps: seq<Proposal>, back: Batch, q: Request, i: nat, j: nat)
    requires Undone(now, ps, back, q) && NoRun(now.ledger, RunName(q.batchId, q.stamp))
    requires DistinctTargets(now, back.proposals) && i < j < |ps|
    ensures ps[i].entity != ps[j].entity
  {
    var a, b := |ps| - 1 - j, |ps| - 1 - i;
    BackAmends(now, ps, back, q, a);
    BackAmends(now, ps, back, q, b);
    assert back.proposals[a].entity != back.proposals[b].entity;
  }

  lemma {:induction false} BackAppliesIff(now: Db, ps: seq<Proposal>, back: Batch, q: Request)
    requires WellTyped(now) && Undone(now, ps, back, q) && NoRun(now.ledger, RunName(q.batchId, q.stamp))
    requires Compensations(now, ps, 0, q) == Success(back.proposals) && !Blank(q.batchId)
    requires DistinctEntities(ps) && AllInvertible(ps)
    ensures ApplyTransaction(now, back).Success? <==> WritesBack(now.rows, now.weaknesses, ps)
  {
    StartStillBuilt(now, ps, back, q);
    StepThrough(now, Progress(OpenRun(now, back), 0, 0), ps, 0, q);
  }

  lemma EntitiesBuilt(now: Db, ps: seq<Proposal>, q: Request) returns (back: Batch)
    requires AppliedIn(now.ledger, q.batchId) == ps && ps != [] && !Blank(q.batchId)
    requires forall i :: 0 <= i < |ps| ==> EntityValue(now, ps[i].entity).Some?
    ensures Undone(now, ps, back, q) && back == RevertBatchOf(q, back.proposals)
    ensures Compensations(now, ps, 0, q) == Success(back.proposals) && Revert(now, q) == Apply(now, back)
  {
    BuiltIsUndone(now, ps, q);
    back := RevertBatchOf(q, Compensations(now, ps, 0, q).value);
  }

  lemma RevertFoundAll(now: Db, ps: seq<Proposal>, q: Request)
    requires AppliedIn(now.ledger, q.batchId) == ps && Revert(now, q).Success?
    ensures !Blank(q.batchId) && ps != [] && forall i :: 0 <= i < |ps| ==> EntityValue(now, ps[i].entity).Some?
  {
    BuiltFromEntities(now, ps, 0, q);
  }

  lemma {:induction false} WrittenAreThere(rows: map<Ref, Row>, weaknesses: set<string>, ps: seq<Proposal>, i: nat)
    requires WritesBack(rows, weaknesses, ps) && i < |ps|
    ensures ps[i].entity in rows || exists j :: i < j < |ps| && ps[j].entity == ps[i].entity
    decreases |ps|
  {
    if i < |ps| - 1 {
      var front, p := ps[..|ps| - 1], ps[|ps| - 1];
      WrittenAreThere(RowsBack(rows, p), weaknesses, front, i);
      if j :| i < j < |front| && front[j].entity == front[i].entity {
        assert ps[j].entity == ps[i].entity;
      }
    }
  }

  // At any later time, in any state the entities have come to, a run can be
  // reverted exactly when every amendment has an inverse and what it cites still
  // stands, no entity was amended twice, and newest first the tables take the old
  // columns back; the snapshot hash must be one.
  lemma LaterRevertIff(now: Db, q: Request, ps: seq<Proposal>)
    requires WellTyped(now) && AppliedIn(now.ledger, q.batchId) == ps && NoRun(now.ledger, RunName(q.batchId, q.stamp))
    requires !Blank(q.now) && forall i :: 0 <= i < |ps| ==> OperationValid(ps[i])
    ensures Revert(now, q).Success? <==> CanRevertLater(now, ps, q)
  {
    if Revert(now, q).Success? {
      RevertedLater(now, q, ps);
    }
    if CanRevertLater(now, ps, q) {
      RevertableLater(now, q, ps);
    }
  }

  lemma RevertedLater(now: Db, q: Request, ps: seq<Proposal>)
    requires WellTyped(now) && AppliedIn(now.ledger, q.batchId) == ps && NoRun(now.ledger, RunName(q.batchId, q.stamp))
    requires !Blank(q.now) && forall i :: 0 <= i < |ps| ==> OperationValid(ps[i])
    requires Revert(now, q).Success?
    ensures CanRevertLater(now, ps, q)
  {
    RevertFoundAll(now, ps, q);
    var back := EntitiesBuilt(now, ps, q);
    BackValidIff(now, ps, back, q);
    RevertedAreDistinct(now, ps, back, q);
    BackAppliesIff(now, ps, back, q);
  }

  lemma RevertableLater(now: Db, q: Request, ps: seq<Proposal>)
    requires WellTyped(now) && AppliedIn(now.ledger, q.batchId) == ps && NoRun(now.ledger, RunName(q.batchId, q.stamp))
    requires !Blank(q.now) && forall i :: 0 <= i < |ps| ==> OperationValid(ps[i])
    requires CanRevertLater(now, ps, q)
    ensures Revert(now, q).Success?
  {
    forall i | 0 <= i < |ps|
      ensures EntityValue(now, ps[i].entity).Some?
    {
      WrittenAreThere(now.rows, now.weaknesses, ps, i);
      EntityKnown(now, ps[i].entity);
    }
    var back := EntitiesBuilt(now, ps, q);
    BackValidIff(now, ps, back, q);
    BackAppliesIff(now, ps, back, q);
  }
}
