// The audit database as the program uses it: tables updated statement by
// statement inside a transaction that is rolled back on any error.
module AuditStore {
  import opened Outcomes
  import opened Texts
  import opened AuditModel
  import opened AuditRevert

  function ErrorOf<T>(r: Result<T, AuditError>): Option<AuditError> {
    if r.Success? then None else Some(r.error)
  }

  function Prefixed(earlier: seq<Proposal>, r: Result<seq<Proposal>, AuditError>): Result<seq<Proposal>, AuditError> {
    if r.Success? then Success(earlier + r.value) else r
  }

  lemma {:induction false} NextCompensation(db: Db, ps: seq<Proposal>, q: Request, earlier: seq<Proposal>, current: Row)
    requires ps != [] && EntityValue(db, ps[|ps| - 1].entity) == Some(current)
    ensures var c := Compensation(current, ps[|ps| - 1], |earlier|, q);
            Prefixed(earlier, Compensations(db, ps, |earlier|, q)) ==
            Prefixed(earlier + [c], Compensations(db, ps[..|ps| - 1], |earlier| + 1, q))
  {
    var c := Compensation(current, ps[|ps| - 1], |earlier|, q);
    var rest := Compensations(db, ps[..|ps| - 1], |earlier| + 1, q);
    assert rest.Success? ==> earlier + ([c] + rest.value) == earlier + [c] + rest.value;
  }

  lemma {:induction false} MissingStops(db: Db, ps: seq<Proposal>, q: Request, earlier: seq<Proposal>)
    requires ps != [] && EntityValue(db, ps[|ps| - 1].entity).None?
    ensures Prefixed(earlier, Compensations(db, ps, |earlier|, q)) == Failure(MissingEntity)
  {
  }

  // The counters only add up.
  lemma CountersAdd(db: Db, applied: nat, skipped: nat, p: Proposal)
    ensures var turn := ApplyOne(Progress(db, 0, 0), p);
            ApplyOne(Progress(db, applied, skipped), p) ==
            if turn.Failure? then turn
            else Success(Progress(turn.value.db, applied + turn.value.applied, skipped + turn.value.skipped))
  {
  }

  class Store {
    var rows: map<Ref, Row>
    var summaries: Summaries
    var ledger: seq<Amended>
    var runs: map<string, Run>
    var nextFinding: int
    var weaknesses: set<string>
    var attempts: set<(int, int)>

    function State(): Db
      reads this
    {
      Db(rows, summaries, ledger, runs, nextFinding, weaknesses, attempts)
    }

    constructor (db: Db)
      ensures State() == db
    {
      rows, summaries, ledger, runs := db.rows, db.summaries, db.ledger, db.runs;
      nextFinding, weaknesses, attempts := db.nextFinding, db.weaknesses, db.attempts;
    }

    // The dependency graph of a batch, edge by edge.
    method BuildGraph(batch: Batch) returns (g: DependencyGraph.Graph)
      ensures g == Dependencies(batch)
    {
      var ps := batch.proposals;
      var keys := Keys(ps);
      g := map[];
      var i := 0;
      while i < |ps|
        invariant 0 <= i <= |ps|
        invariant g == GraphOf(batch.runId, keys, ps[..i])
      {
        assert ps[..i + 1][..i] == ps[..i];
        var deps := ps[i].dependencies;
        var edges: seq<string> := [];
        var k := |deps|;
        while k > 0
          invariant 0 <= k <= |deps|
          invariant edges == Edges(batch.runId, keys, deps[k..])
        {
          k := k - 1;
          var name := LocalName(batch.runId, deps[k]);
          assert deps[k..][1..] == deps[k + 1..];
          if name in keys {
            edges := [name] + edges;
          }
        }
        assert deps[0..] == deps;
        g := g[ps[i].id := edges];
        i := i + 1;
      }
      assert ps[..|ps|] == ps;
    }

    // One proposal against the tables and the ids seen before it.
    method ValidateProposal(batch: Batch, i: nat, seen: set<string>) returns (ok: bool)
      requires i < |batch.proposals|
      requires seen == set j | 0 <= j < i :: batch.proposals[j].id
      ensures ok <==> ProposalValid(State(), batch, i)
    {
      var p := batch.proposals[i];
      if p.runId != batch.runId || p.id in seen || !OperationValid(p) {
        return false;
      }
      var recorded := Find(ledger, p.runId, p.id);
      if recorded.Some? {
        var was := recorded.value;
        return was.status == Applied && was.proposal.operation == p.operation && was.proposal.after == p.after;
      }
      var current := EntityValue(State(), p.entity);
      if current.None? || (p.sources == [] && p.certainty == Supported) {
        return false;
      }
      var k := 0;
      while k < |p.sources|
        invariant 0 <= k <= |p.sources|
        invariant forall m :: 0 <= m < k ==> SourceValid(State(), p.sources[m])
      {
        if !SourceValid(State(), p.sources[k]) {
          return false;
        }
        k := k + 1;
      }
      if p.operation != AddRecoveredFinding &&
         (Get(current.value, Revision) != Number(p.expectedRevision) || p.beforeHash != Sha256(current.value)) {
        return false;
      }
      k := 0;
      while k < |p.dependencies|
        invariant 0 <= k <= |p.dependencies|
        invariant forall m :: 0 <= m < k ==> DependencyKnown(batch, i, p.dependencies[m])
      {
        if !DependencyKnown(batch, i, p.dependencies[k]) {
          return false;
        }
        k := k + 1;
      }
      ok := true;
    }

    // validate_batch: exactly the batches that BatchValid describes pass.
    method ValidateBatch(batch: Batch) returns (ok: bool)
      ensures ok <==> BatchValid(State(), batch)
    {
      if !MetadataComplete(batch) {
        return false;
      }
      var seen: set<string> := {};
      var i := 0;
      while i < |batch.proposals|
        invariant 0 <= i <= |batch.proposals|
        invariant seen == set j | 0 <= j < i :: batch.proposals[j].id
        invariant forall j :: 0 <= j < i ==> ProposalValid(State(), batch, j)
      {
        var valid := ValidateProposal(batch, i, seen);
        if !valid {
          return false;
        }
        seen := seen + {batch.proposals[i].id};
        i := i + 1;
      }
      var g := BuildGraph(batch);
      var verdict, _, _ := DependencyGraph.EnsureAcyclic(g);
      ok := verdict.Ordered?;
    }

    // The guarded UPDATE: no row matches, or one is rewritten.
    method Update(p: Proposal, after: Row) returns (error: Option<AuditError>)
      modifies this`rows
      ensures var row := if p.entity in old(rows) then old(rows)[p.entity] else map[];
              var done := UpdateWhere(old(State()), p.entity, p.expectedRevision,
                  Amend(p.entity.kind, p.operation, after, row));
              error == ErrorOf(done) && (done.Success? ==> State() == done.value)
    {
      if p.entity in rows && Get(rows[p.entity], Revision) == Number(p.expectedRevision) {
        var changed := Amend(p.entity.kind, p.operation, after, rows[p.entity]);
        if !WriteAllowed(rows, p.entity, changed) {
          return Some(WriteRefused);
        }
        rows := rows[p.entity := changed[Revision := Number(p.expectedRevision + 1)]];
      }
      error := None;
    }

    // The INSERT of a recovered finding under the next identifier.
    method InsertFinding(sid: int, after: Row) returns (error: Option<AuditError>)
      modifies this`rows, this`nextFinding
      ensures error == if FindingInsertable(old(State()), sid, after) then None else Some(WriteRefused)
      ensures error.None? ==>
                State() == old(State()).(rows := old(rows)[Ref(Finding, old(nextFinding)) := NewFinding(sid, after)],
                                         nextFinding := old(nextFinding) + 1)
    {
      if !FindingInsertable(State(), sid, after) {
        return Some(WriteRefused);
      }
      rows := rows[Ref(Finding, nextFinding) := NewFinding(sid, after)];
      nextFinding := nextFinding + 1;
      error := None;
    }

    // set_status.  On an error the tables may be half written; the caller rolls back.
    method SetStatus(p: Proposal) returns (error: Option<AuditError>)
      modifies this
      ensures error == ErrorOf(AuditModel.SetStatus(old(State()), p))
      ensures error.None? ==> State() == AuditModel.SetStatus(old(State()), p).value
    {
      var after := if p.after.Fields? then p.after.m else map[];
      if p.operation == AddRecoveredFinding {
        error := InsertFinding(p.entity.id, after);
        return;
      }
      if !HasTable(p.operation, p.entity.kind) {
        return Some(WriteRefused);
      }
      var known := true;
      if p.operation == ReassignTarget {
        var key := Get(after, WeaknessKey);
        known := key.Text? && key.s in weaknesses;
      }
      if known {
        error := Update(p, after);
        if error.Some? {
          return;
        }
      }
      if p.operation == AmendSummary {
        if p.entity !in rows {
          return Some(WriteRefused);
        }
        summaries := WriteSummary(summaries, p.entity.id, Get(after, SummaryKey), Get(after, SummaryValue),
          p.expectedRevision + 1);
      }
      if p.entity !in rows {
        return Some(MissingEntity);
      }
      if Get(rows[p.entity], Revision) != Number(p.expectedRevision + 1) {
        return Some(StaleProposal);
      }
      return None;
    }

    // One turn of the loop: a proposal is skipped, refused, or applied and recorded.
    method ApplyProposal(p: Proposal) returns (error: Option<AuditError>, took: bool)
      modifies this
      ensures var turn := ApplyOne(Progress(old(State()), 0, 0), p);
              && error == ErrorOf(turn)
              && (turn.Success? ==> turn.value == Progress(State(), if took then 1 else 0, if took then 0 else 1))
    {
      var recorded := Find(ledger, p.runId, p.id);
      if recorded.Some? && recorded.value.status == Applied {
        return None, false;
      }
      var current := EntityValue(State(), p.entity);
      if current.None? {
        return Some(MissingEntity), false;
      }
      if p.operation != AddRecoveredFinding &&
         (Get(current.value, Revision) != Number(p.expectedRevision) || p.beforeHash != Sha256(current.value)) {
        return Some(StaleProposal), false;
      }
      error := SetStatus(p);
      if error.Some? {
        return error, false;
      }
      if recorded.Some? {
        return Some(LedgerConflict), false;
      }
      ledger := ledger + [Amended(p, Applied)];
      took := true;
    }

    // apply_batch_tx: the loop over the proposals, with its two counters.
    method ApplyBatchTx(batch: Batch) returns (error: Option<AuditError>, applied: nat, skipped: nat)
      modifies this
      ensures error == ErrorOf(ApplyTransaction(old(State()), batch))
      ensures error.None? ==> ApplyTransaction(old(State()), batch).value == Progress(State(), applied, skipped)
    {
      if batch.runId !in runs {
        runs := runs[batch.runId := Run("", false, |batch.proposals|, 0)];
      }
      ghost var start := Progress(State(), 0, 0);
      error, applied, skipped := None, 0, 0;
      var i := 0;
      while i < |batch.proposals|
        invariant 0 <= i <= |batch.proposals|
        invariant error.None?
        invariant start.db == OpenRun(old(State()), batch) && start.applied == start.skipped == 0
        invariant ApplyAll(start, batch.proposals) ==
                  ApplyAll(Progress(State(), applied, skipped), batch.proposals[i..])
      {
        var p := batch.proposals[i];
        assert batch.proposals[i..][1..] == batch.proposals[i + 1..];
        CountersAdd(State(), applied, skipped, p);
        var took;
        error, took := ApplyProposal(p);
        if error.Some? {
          return;
        }
        if took {
          applied := applied + 1;
        } else {
          skipped := skipped + 1;
        }
        i := i + 1;
      }
      if batch.runId in runs {
        var run := runs[batch.runId];
        runs := runs[batch.runId := Run(batch.boundary, true, run.proposedCount, run.appliedCount + applied)];
      }
    }

    // apply_batch: all of the batch, or nothing at all.
    method ApplyBatch(batch: Batch) returns (error: Option<AuditError>, applied: nat, skipped: nat)
      modifies this
      ensures error == ErrorOf(Apply(old(State()), batch))
      ensures error.None? ==> Apply(old(State()), batch).value == Progress(State(), applied, skipped)
      ensures error.Some? ==> State() == old(State())
    {
      var valid := ValidateBatch(batch);
      if !valid {
        return Some(InvalidBatch), 0, 0;
      }
      var rows0, summaries0, ledger0, runs0, next0 := rows, summaries, ledger, runs, nextFinding;
      var weaknesses0, attempts0 := weaknesses, attempts;
      error, applied, skipped := ApplyBatchTx(batch);
      if error.Some? {
        rows, summaries, ledger, runs, nextFinding := rows0, summaries0, ledger0, runs0, next0;
        weaknesses, attempts := weaknesses0, attempts0;
      }
    }

    // One compensation per applied amendment, newest first.
    method BuildCompensations(applied: seq<Proposal>, q: Request) returns (built: Result<seq<Proposal>, AuditError>)
      ensures built == Compensations(State(), applied, 0, q)
    {
      var proposals: seq<Proposal> := [];
      var n := |applied|;
      ghost var all := Compensations(State(), applied, 0, q);
      assert applied[..n] == applied;
      assert all.Success? ==> [] + all.value == all.value;
      while n > 0
        invariant 0 <= n <= |applied|
        invariant |proposals| == |applied| - n
        invariant all == Prefixed(proposals, Compensations(State(), applied[..n], |proposals|, q))
      {
        var p := applied[n - 1];
        var current := EntityValue(State(), p.entity);
        if current.None? {
          MissingStops(State(), applied[..n], q, proposals);
          return Failure(MissingEntity);
        }
        assert applied[..n][..n - 1] == applied[..n - 1];
        NextCompensation(State(), applied[..n], q, proposals, current.value);
        proposals := proposals + [Compensation(current.value, p, |proposals|, q)];
        n := n - 1;
      }
      assert proposals + [] == proposals;
      built := Success(proposals);
    }

    // revert_batch: the compensations are applied as a batch of their own.
    method RevertBatch(q: Request) returns (error: Option<AuditError>, count: nat)
      modifies this
      ensures error == ErrorOf(Revert(old(State()), q))
      ensures error.None? ==>
                Revert(old(State()), q).value.db == State() && Revert(old(State()), q).value.applied == count
      ensures error.Some? ==> State() == old(State())
    {
      if Blank(q.batchId) {
        return Some(InvalidBatch), 0;
      }
      var applied := AppliedIn(ledger, q.batchId);
      if applied == [] {
        return Some(NothingApplied), 0;
      }
      var built := BuildCompensations(applied, q);
      if built.Failure? {
        return Some(built.error), 0;
      }
      var skipped;
      error, count, skipped := ApplyBatch(RevertBatchOf(q, built.value));
    }
  }
}
