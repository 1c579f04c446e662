// Apply a batch, then revert its run: when that succeeds, and what it restores.
module AuditRestoration {
  import opened Outcomes
  import opened Texts
  import opened AuditModel
  import opened AuditCommit
  import opened AuditRevert

  predicate NoRun(ledger: seq<Amended>, runId: string) {
    forall i :: 0 <= i < |ledger| ==> ledger[i].proposal.runId != runId
  }

  // A batch committed under a new run id, whose proposals were built from the
  // entities they amend, and a request to revert that run.
  ghost predicate Scenario(db: Db, batch: Batch, q: Request) {
    && WellTyped(db) && Apply(db, batch).Success?
    && q.batchId == batch.runId && batch.proposals != []
    && NoRun(db.ledger, batch.runId) && NoRun(db.ledger, RunName(q.batchId, q.stamp))
    && !Blank(q.now)
    && (forall i {:trigger Honest(batch.proposals[i])} :: 0 <= i < |batch.proposals| ==> Honest(batch.proposals[i]))
  }

  lemma {:induction false} NoRunFindsNone(ledger: seq<Amended>, runId: string, id: string)
    requires NoRun(ledger, runId)
    ensures Find(ledger, runId, id).None?
  {
    if ledger != [] {
      assert ledger[0].proposal.runId != runId;
      NoRunFindsNone(ledger[1..], runId, id);
    }
  }

  lemma {:induction false} AllUnrecorded(db: Db, ps: seq<Proposal>)
    requires forall i :: 0 <= i < |ps| ==> Fresh(db, ps[i])
    ensures Unrecorded(db, ps) == ps
  {
    if ps != [] {
      assert forall i :: 0 <= i < |ps[1..]| ==> ps[1..][i] == ps[i + 1];
      AllUnrecorded(db, ps[1..]);
      assert ps == [ps[0]] + ps[1..];
    }
  }

  lemma {:induction false} AppliedInNoRun(a: seq<Amended>, b: seq<Amended>, runId: string)
    requires NoRun(a, runId)
    ensures AppliedIn(a + b, runId) == AppliedIn(b, runId)
  {
    if a == [] {
      assert a + b == b;
    } else {
      assert (a + b)[1..] == a[1..] + b && a[0].proposal.runId != runId;
      AppliedInNoRun(a[1..], b, runId);
    }
  }

  lemma {:induction false} AppliedInEntries(ps: seq<Proposal>, runId: string)
    requires forall i :: 0 <= i < |ps| ==> ps[i].runId == runId
    ensures AppliedIn(Entries(ps), runId) == ps
  {
    if ps != [] {
      assert Entries(ps)[1..] == Entries(ps[1..]);
      AppliedInEntries(ps[1..], runId);
    }
  }

  // ----- the state right after the commit

  lemma FreshBatch(db: Db, batch: Batch, q: Request)
    requires Scenario(db, batch, q)
    ensures Runnable(OpenRun(db, batch), batch.runId, batch.proposals)
    ensures DistinctTargets(OpenRun(db, batch), batch.proposals)
    ensures forall i :: 0 <= i < |batch.proposals| ==>
              Fresh(OpenRun(db, batch), batch.proposals[i]) && Fresh(db, batch.proposals[i])
  {
    CommitRan(db, batch);
    ValidIsRunnable(db, batch);
    ValidTargetsDistinct(db, batch);
    forall i | 0 <= i < |batch.proposals|
      ensures Fresh(OpenRun(db, batch), batch.proposals[i]) && Fresh(db, batch.proposals[i])
    {
      FreshlyValid(db, batch, q, i);
    }
  }

  lemma FreshlyValid(db: Db, batch: Batch, q: Request, i: nat)
    requires Scenario(db, batch, q) && i < |batch.proposals|
    ensures Fresh(db, batch.proposals[i]) && FreshValid(db, batch, i)
    ensures OperationValid(batch.proposals[i]) && Honest(batch.proposals[i])
  {
    CommitRan(db, batch);
    assert ProposalValid(db, batch, i);
    NoRunFindsNone(db.ledger, batch.runId, batch.proposals[i].id);
  }

  // Each amendment found its entity as the operator saw it.
  lemma FoundBefore(db: Db, batch: Batch, q: Request, i: nat)
    requires Scenario(db, batch, q) && i < |batch.proposals| && batch.proposals[i].operation != AddRecoveredFinding
    ensures var p := batch.proposals[i];
            && Amends(db, p) && OperationValid(p) && Honest(p) && p.entity in db.rows
            && EntityValue(db, p.entity) == Some(p.before.m) && Rev(db.rows[p.entity]) == p.expectedRevision
  {
    FreshlyValid(db, batch, q, i);
    EntityRevision(db, batch.proposals[i].entity);
  }

  lemma RunNameFresh(q: Request)
    ensures RunName(q.batchId, q.stamp) != q.batchId && !Blank(RunName(q.batchId, q.stamp))
  {
    assert RunName(q.batchId, q.stamp)[|q.batchId|] == '-';
    assert |RunName(q.batchId, q.stamp)| > |q.batchId|;
  }

  lemma RevertSees(db: Db, batch: Batch, q: Request)
    requires Scenario(db, batch, q)
    ensures AppliedIn(Apply(db, batch).value.db.ledger, q.batchId) == batch.proposals
    ensures Apply(db, batch).value.db.ledger == db.ledger + Entries(batch.proposals)
    ensures NoRun(Apply(db, batch).value.db.ledger, RunName(q.batchId, q.stamp))
    ensures !Blank(q.batchId) && !Blank(RunName(q.batchId, q.stamp))
  {
    assert Unrecorded(db, batch.proposals) == batch.proposals && Runnable(db, batch.runId, batch.proposals) by {
      FreshBatch(db, batch, q);
      AllUnrecorded(db, batch.proposals);
    }
    CommitLedger(db, batch);
    AppliedInNoRun(db.ledger, Entries(batch.proposals), batch.runId);
    AppliedInEntries(batch.proposals, batch.runId);
    RunNameFresh(q);
    NoRunAdded(db.ledger, batch.proposals, batch.runId, RunName(q.batchId, q.stamp));
  }

  lemma NoRunAdded(ledger: seq<Amended>, ps: seq<Proposal>, runId: string, other: string)
    requires NoRun(ledger, other) && other != runId && forall i :: 0 <= i < |ps| ==> ps[i].runId == runId
    ensures NoRun(ledger + Entries(ps), other)
  {
    forall i | 0 <= i < |ledger + Entries(ps)|
      ensures (ledger + Entries(ps))[i].proposal.runId != other
    {
      if i >= |ledger| {
        assert (ledger + Entries(ps))[i] == Entries(ps)[i - |ledger|];
      }
    }
  }

  // ----- the compensating batch is valid

  // The compensation that stands at position j when p is undone j-th.
  function Undo(db: Db, p: Proposal, j: nat, q: Request): Proposal
    requires EntityValue(db, p.entity).Some?
  {
    Compensation(EntityValue(db, p.entity).value, p, j, q)
  }

  lemma {:induction false} CompensationsAt(db: Db, ps: seq<Proposal>, k: nat, q: Request)
    requires forall i :: 0 <= i < |ps| ==> EntityValue(db, ps[i].entity).Some?
    ensures Compensations(db, ps, k, q).Success?
    ensures |Compensations(db, ps, k, q).value| == |ps|
    ensures forall i :: 0 <= i < |ps| ==>
              Compensations(db, ps, k, q).value[i] == Undo(db, ps[|ps| - 1 - i], k + i, q)
    decreases |ps|
  {
    if ps != [] {
      var front := ps[..|ps| - 1];
      CompensationsAt(db, front, k + 1, q);
      var rest := Compensations(db, front, k + 1, q).value;
      var all := Compensations(db, ps, k, q).value;
      assert all == [Undo(db, ps[|ps| - 1], k, q)] + rest;
      forall i | 0 <= i < |ps|
        ensures all[i] == Undo(db, ps[|ps| - 1 - i], k + i, q)
      {
        if i > 0 {
          assert all[i] == rest[i - 1] == Undo(db, front[|front| - i], k + 1 + (i - 1), q);
        }
      }
    }
  }

  lemma {:induction false} NoEdges(runId: string, keys: set<string>, ps: seq<Proposal>)
    requires forall i :: 0 <= i < |ps| ==> ps[i].dependencies == []
    ensures forall n :: n in GraphOf(runId, keys, ps) ==> GraphOf(runId, keys, ps)[n] == []
    decreases |ps|
  {
    if ps != [] {
      NoEdges(runId, keys, ps[..|ps| - 1]);
    }
  }

  lemma IndependentIsAcyclic(batch: Batch)
    requires forall i :: 0 <= i < |batch.proposals| ==> batch.proposals[i].dependencies == []
    ensures DependencyGraph.Acyclic(Dependencies(batch))
  {
    NoEdges(batch.runId, Keys(batch.proposals), batch.proposals);
    EdgelessIsAcyclic(Dependencies(batch));
  }

  lemma EdgelessIsAcyclic(g: DependencyGraph.Graph)
    requires forall n :: n in g ==> g[n] == []
    ensures DependencyGraph.Acyclic(g)
  {
    assert forall p :: DependencyGraph.IsPath(g, p) && |p| > 1 ==> p[0] in g && p[0 + 1] in g[p[0]];
  }

  // What an entity with that row shows in a column.
  function Shown(row: Row, s: Summaries, ref: Ref, c: Column): Value {
    if ref.kind != Session || c != EffectiveSummary then Get(row, c)
    else if (ref.id, AUDIT_QUALITY) in s then Encoded(s[(ref.id, AUDIT_QUALITY)].content)
    else Null
  }

  // What s quotes still stands in the row, or the summary, that the batch leaves.
  predicate QuotationStands(db: Db, ps: seq<Proposal>, s: SourceRef) {
    s.target.Field? && s.target.ref in db.rows && s.excerpt.Some? && s.excerpt.value != "" ==>
      forall j :: 0 <= j < |ps| && ps[j].entity == s.target.ref ==>
        Quotes(Shown(AmendedRow(db.rows[s.target.ref], ps[j]), AmendedSummaries(db.summaries, ps[j]), s.target.ref,
                     s.target.column), s.excerpt.value)
  }

  // The quotations of one proposal stand.
  predicate QuotedBy(db: Db, ps: seq<Proposal>, i: nat)
    requires i < |ps|
  {
    forall k :: 0 <= k < |ps[i].sources| ==> QuotationStands(db, ps, ps[i].sources[k])
  }

  predicate QuotationsStand(db: Db, ps: seq<Proposal>) {
    forall i :: 0 <= i < |ps| ==> QuotedBy(db, ps, i)
  }

  // A source that was valid is valid after the batch exactly when its quotation stands.
  lemma SourceSurvivesIff(db: Db, end: Db, ps: seq<Proposal>, s: SourceRef)
    requires SourceValid(db, s) && Settled(db, ps, end)
    ensures SourceValid(end, s) <==> QuotationStands(db, ps, s)
  {
    if s.target.Field? {
      var ref, c := s.target.ref, s.target.column;
      EntityShows(db, ref);
      RowLeft(db, end, ps, ref);
      ColumnShown(db, ref, c);
      ColumnShown(end, ref, c);
      ShownLeft(db, end, ps, ref, c);
    }
  }

  // What the entity shows afterwards.
  lemma ShownLeft(db: Db, end: Db, ps: seq<Proposal>, ref: Ref, c: Column)
    requires ref in db.rows && Settled(db, ps, end)
    ensures ref in end.rows
    ensures forall j :: 0 <= j < |ps| && ps[j].entity == ref ==>
              Shown(end.rows[ref], end.summaries, ref, c) ==
              Shown(AmendedRow(db.rows[ref], ps[j]), AmendedSummaries(db.summaries, ps[j]), ref, c)
    ensures (forall j :: 0 <= j < |ps| ==> ps[j].entity != ref) ==>
              Shown(end.rows[ref], end.summaries, ref, c) == Shown(db.rows[ref], db.summaries, ref, c)
  {
    RowLeft(db, end, ps, ref);
    if ref.kind == Session {
      SummaryLeft(db, end, ps, ref);
      forall j | 0 <= j < |ps| && ps[j].entity == ref
        ensures Shown(end.rows[ref], end.summaries, ref, c) ==
                Shown(AmendedRow(db.rows[ref], ps[j]), AmendedSummaries(db.summaries, ps[j]), ref, c)
      {
        ShownAlike(end.rows[ref], end.summaries, AmendedSummaries(db.summaries, ps[j]), ref, c);
      }
      if forall j :: 0 <= j < |ps| ==> ps[j].entity != ref {
        ShownAlike(end.rows[ref], end.summaries, db.summaries, ref, c);
      }
    }
  }

  lemma ShownAlike(row: Row, s: Summaries, t: Summaries, ref: Ref, c: Column)
    requires SameSession(s, t, ref.id)
    ensures Shown(row, s, ref, c) == Shown(row, t, ref, c)
  {
    assert (ref.id, AUDIT_QUALITY) in s <==> (ref.id, AUDIT_QUALITY) in t;
  }

  lemma SummaryLeft(db: Db, end: Db, ps: seq<Proposal>, ref: Ref)
    requires ref.kind == Session && Settled(db, ps, end)
    ensures forall j :: 0 <= j < |ps| && ps[j].entity == ref ==>
              SameSession(end.summaries, AmendedSummaries(db.summaries, ps[j]), ref.id)
    ensures (forall j :: 0 <= j < |ps| ==> ps[j].entity != ref) ==> SameSession(end.summaries, db.summaries, ref.id)
  {
    assert ref == Ref(Session, ref.id);
    if !SummaryTargeted(db, ps, ref.id) {
      UnwrittenSummary(db, end, ps, ref.id);
    }
    forall j | 0 <= j < |ps| && ps[j].entity == ref
      ensures SameSession(end.summaries, AmendedSummaries(db.summaries, ps[j]), ref.id)
    {
      if SummaryTargeted(db, ps, ref.id) {
        var i :| 0 <= i < |ps| && Amends(db, ps[i]) && ps[i].operation == AmendSummary &&
            ps[i].entity == Ref(Session, ref.id);
        assert i == j;
      }
    }
  }

  lemma UnwrittenSummary(db: Db, end: Db, ps: seq<Proposal>, sid: int)
    requires SummaryEffects(Progress(db, 0, 0), ps, Progress(end, 0, 0)) && !SummaryTargeted(db, ps, sid)
    ensures SameSession(end.summaries, db.summaries, sid)
  {
    forall key: Value
      ensures (sid, key) in end.summaries <==> (sid, key) in db.summaries
      ensures (sid, key) in end.summaries ==> end.summaries[(sid, key)] == db.summaries[(sid, key)]
    {
      assert (sid, key).0 == sid;
    }
  }

  lemma RowLeft(db: Db, end: Db, ps: seq<Proposal>, ref: Ref)
    requires ref in db.rows && Settled(db, ps, end)
    ensures ref in end.rows
    ensures forall j :: 0 <= j < |ps| && ps[j].entity == ref ==> end.rows[ref] == AmendedRow(db.rows[ref], ps[j])
    ensures (forall j :: 0 <= j < |ps| ==> ps[j].entity != ref) ==> end.rows[ref] == db.rows[ref]
  {
    if forall j :: 0 <= j < |ps| ==> ps[j].entity != ref {
      assert !Targeted(db, ps, ref);
    }
  }

  lemma ColumnShown(db: Db, ref: Ref, c: Column)
    requires ref in db.rows && ref.kind != Unsupported
    ensures EntityValue(db, ref).Some?
    ensures Get(EntityValue(db, ref).value, c) == Shown(db.rows[ref], db.summaries, ref, c)
  {
  }

  // A run can be reverted: its amendments have inverses, and the generated batch
  // can go on quoting the sources it takes over.
  predicate CanRevert(db: Db, ps: seq<Proposal>, q: Request) {
    HexDigest(q.snapshotHash) && (forall i :: 0 <= i < |ps| ==> Compensable(ps[i])) && QuotationsStand(db, ps)
  }

  lemma {:induction false} CompensationsValid(db: Db, batch: Batch, q: Request)
    requires Scenario(db, batch, q)
    requires forall i :: 0 <= i < |batch.proposals| ==> Compensable(batch.proposals[i])
    ensures var done := Apply(db, batch).value.db;
            && Compensations(done, batch.proposals, 0, q).Success?
            && (BatchValid(done, RevertBatchOf(q, Compensations(done, batch.proposals, 0, q).value)) <==>
                 CanRevert(db, batch.proposals, q))
  {
    var done, ps := Apply(db, batch).value.db, batch.proposals;
    CompensationsBuilt(db, batch, q);
    var back := RevertBatchOf(q, Compensations(done, ps, 0, q).value);
    RevertSees(db, batch, q);
    ScenarioClock(db, batch, q);
    EachPasses(db, batch, q, back);
    ValidIff(db, ps, done, back, q);
  }

  lemma EachPasses(db: Db, batch: Batch, q: Request, back: Batch)
    requires Scenario(db, batch, q) && Undone(Apply(db, batch).value.db, batch.proposals, back, q)
    requires forall i :: 0 <= i < |batch.proposals| ==> Compensable(batch.proposals[i])
    ensures forall i :: 0 <= i < |batch.proposals| ==>
              Passes(db, batch.proposals, Apply(db, batch).value.db, back, q, i)
  {
    forall i | 0 <= i < |batch.proposals|
      ensures Passes(db, batch.proposals, Apply(db, batch).value.db, back, q, i)
    {
      EachCompensationValid(db, batch, q, back, i);
    }
  }

  // What validation finds of compensation i.
  ghost predicate Passes(db: Db, ps: seq<Proposal>, done: Db, back: Batch, q: Request, i: nat)
    requires i < |ps| == |back.proposals|
  {
    && OperationValid(back.proposals[i])
    && (FreshValid(done, back, i) <==> HexDigest(q.snapshotHash) && QuotedBy(db, ps, |ps| - 1 - i))
  }

  lemma ValidIff(db: Db, ps: seq<Proposal>, done: Db, back: Batch, q: Request)
    requires ps != [] && Undone(done, ps, back, q) && back == RevertBatchOf(q, back.proposals)
    requires NoRun(done.ledger, back.runId) && !Blank(q.batchId) && !Blank(back.runId) && !Blank(q.now)
    requires forall i :: 0 <= i < |ps| ==> Passes(db, ps, done, back, q, i)
    ensures BatchValid(done, back) <==> HexDigest(q.snapshotHash) && QuotationsStand(db, ps)
  {
    assert back.promptVersion[0] == 'c';
    assert forall i :: 0 <= i < |ps| && Passes(db, ps, done, back, q, i) ==> OperationValid(back.proposals[i]);
    BackValid(done, ps, back, q);
    AllQuoted(db, ps, done, back, q);
  }

  lemma AllQuoted(db: Db, ps: seq<Proposal>, done: Db, back: Batch, q: Request)
    requires ps != [] && |back.proposals| == |ps|
    requires forall i :: 0 <= i < |ps| ==> Passes(db, ps, done, back, q, i)
    ensures (forall i :: 0 <= i < |ps| ==> FreshValid(done, back, i)) <==>
              HexDigest(q.snapshotHash) && QuotationsStand(db, ps)
  {
    if forall i :: 0 <= i < |ps| ==> FreshValid(done, back, i) {
      assert Passes(db, ps, done, back, q, 0) && FreshValid(done, back, 0);
      forall i | 0 <= i < |ps|
        ensures QuotedBy(db, ps, i)
      {
        assert Passes(db, ps, done, back, q, |ps| - 1 - i) && FreshValid(done, back, |ps| - 1 - i);
      }
    } else if HexDigest(q.snapshotHash) && QuotationsStand(db, ps) {
      forall i | 0 <= i < |ps|
        ensures FreshValid(done, back, i)
      {
        assert Passes(db, ps, done, back, q, i) && QuotedBy(db, ps, |ps| - 1 - i);
      }
    }
  }

  lemma ScenarioClock(db: Db, batch: Batch, q: Request)
    requires Scenario(db, batch, q)
    ensures !Blank(q.now)
  {
  }

  lemma {:induction false} CompensationsBuilt(db: Db, batch: Batch, q: Request)
    requires Scenario(db, batch, q)
    requires forall i :: 0 <= i < |batch.proposals| ==> Compensable(batch.proposals[i])
    ensures var done := Apply(db, batch).value.db;
            && Compensations(done, batch.proposals, 0, q).Success?
            && Undone(done, batch.proposals, RevertBatchOf(q, Compensations(done, batch.proposals, 0, q).value), q)
  {
    EntitiesStay(db, batch, q);
    BuiltIsUndone(Apply(db, batch).value.db, batch.proposals, q);
  }

  lemma {:induction false} BuiltIsUndone(done: Db, ps: seq<Proposal>, q: Request)
    requires forall i :: 0 <= i < |ps| ==> EntityValue(done, ps[i].entity).Some?
    ensures Compensations(done, ps, 0, q).Success?
    ensures Undone(done, ps, RevertBatchOf(q, Compensations(done, ps, 0, q).value), q)
  {
    CompensationsAt(done, ps, 0, q);
  }

  lemma EachCompensationValid(db: Db, batch: Batch, q: Request, back: Batch, i: nat)
    requires Scenario(db, batch, q) && i < |batch.proposals|
    requires forall j :: 0 <= j < |batch.proposals| ==> Compensable(batch.proposals[j])
    requires Undone(Apply(db, batch).value.db, batch.proposals, back, q)
    ensures Passes(db, batch.proposals, Apply(db, batch).value.db, back, q, i)
  {
    var k := |batch.proposals| - 1 - i;
    CompensationOperation(db, batch, q, k, i);
    SourcesIff(db, batch, q, k);
    OnePasses(db, batch.proposals, Apply(db, batch).value.db, back, q, i);
  }

  lemma OnePasses(db: Db, ps: seq<Proposal>, done: Db, back: Batch, q: Request, i: nat)
    requires i < |ps| == |back.proposals| && Undone(done, ps, back, q)
    requires var p := ps[|ps| - 1 - i];
             var current := EntityValue(done, p.entity).value;
             var c := Compensation(current, p, i, q);
             && Compensable(p) && (OperationValid(c) <==> Compensable(p)) &&
                Get(current, Revision) == Number(c.expectedRevision)
    requires SourcesValid(done, ps[|ps| - 1 - i]) <==> QuotedBy(db, ps, |ps| - 1 - i)
    ensures Passes(db, ps, done, back, q, i)
  {
    FreshWhenSourcesHold(done, back, i, ps[|ps| - 1 - i], q);
  }

  predicate SourcesValid(db: Db, p: Proposal) {
    forall k :: 0 <= k < |p.sources| ==> SourceValid(db, p.sources[k])
  }

  // Valid compensations with distinct names make a valid batch exactly when each
  // passes the checks on new proposals.
  lemma BackValid(done: Db, ps: seq<Proposal>, back: Batch, q: Request)
    requires Undone(done, ps, back, q) && NoRun(done.ledger, back.runId)
    requires !Blank(q.batchId) && !Blank(back.runId) && !Blank(back.boundary) && !Blank(back.promptVersion)
    requires back.snapshotHash == q.snapshotHash
    requires forall i :: 0 <= i < |ps| ==> OperationValid(back.proposals[i])
    ensures BatchValid(done, back) <==>
              |q.snapshotHash| == 64 && forall i :: 0 <= i < |ps| ==> FreshValid(done, back, i)
  {
    forall i | 0 <= i < |ps|
      ensures ProposalValid(done, back, i) <==> FreshValid(done, back, i)
    {
      NoRunFindsNone(done.ledger, back.runId, back.proposals[i].id);
      NamesDistinct(done, ps, back, q, i);
    }
    IndependentIsAcyclic(back);
  }

  lemma NamesDistinct(done: Db, ps: seq<Proposal>, back: Batch, q: Request, i: nat)
    requires Undone(done, ps, back, q) && i < |ps|
    ensures forall j :: 0 <= j < i ==> back.proposals[j].id != back.proposals[i].id
  {
    forall j | 0 <= j < i
      ensures back.proposals[j].id != back.proposals[i].id
    {
      if back.proposals[j].id == back.proposals[i].id {
        RevertIdInjective(j, ps[|ps| - 1 - j].id, i, ps[|ps| - 1 - i].id);
      }
    }
  }

  lemma EntitiesStay(db: Db, batch: Batch, q: Request)
    requires Scenario(db, batch, q)
    ensures WellTyped(Apply(db, batch).value.db)
    ensures forall i :: 0 <= i < |batch.proposals| && batch.proposals[i].operation != AddRecoveredFinding ==>
              EntityValue(Apply(db, batch).value.db, batch.proposals[i].entity).Some?
  {
    CommitEffects(db, batch);
    var done := Apply(db, batch).value.db;
    forall i | 0 <= i < |batch.proposals| && batch.proposals[i].operation != AddRecoveredFinding
      ensures EntityValue(done, batch.proposals[i].entity).Some?
    {
      FoundBefore(db, batch, q, i);
      EntityKnown(done, batch.proposals[i].entity);
    }
  }

  ghost predicate Undone(done: Db, ps: seq<Proposal>, back: Batch, q: Request) {
    && back.runId == RunName(q.batchId, q.stamp) && |back.proposals| == |ps|
    && (forall i :: 0 <= i < |ps| ==> EntityValue(done, ps[i].entity).Some?)
    && (forall j :: 0 <= j < |ps| ==> back.proposals[j] == Undo(done, ps[|ps| - 1 - j], j, q))
  }

  lemma SourcesIff(db: Db, batch: Batch, q: Request, i: nat)
    requires Scenario(db, batch, q) && i < |batch.proposals|
    requires forall j :: 0 <= j < |batch.proposals| ==> Compensable(batch.proposals[j])
    ensures SourcesValid(Apply(db, batch).value.db, batch.proposals[i]) <==> QuotedBy(db, batch.proposals, i)
  {
    forall k | 0 <= k < |batch.proposals[i].sources|
      ensures SourceValid(Apply(db, batch).value.db, batch.proposals[i].sources[k]) <==>
              QuotationStands(db, batch.proposals, batch.proposals[i].sources[k])
    {
      StoredSourceIff(db, batch, q, i, k);
    }
  }

  // A compensation passes as a new proposal exactly when what it cites is there.
  lemma FreshWhenSourcesHold(done: Db, back: Batch, i: nat, p: Proposal, q: Request)
    requires i < |back.proposals| && EntityValue(done, p.entity).Some? && back.proposals[i] == Undo(done, p, i, q)
    requires Get(EntityValue(done, p.entity).value, Revision) == Number(back.proposals[i].expectedRevision)
    ensures FreshValid(done, back, i) <==>
            HexDigest(q.snapshotHash) && SourcesValid(done, p)
  {
    var c := back.proposals[i];
    var own := c.sources[|p.sources|];
    assert own.target.name[0] == 'a';
    assert SourceValid(done, own) <==> HexDigest(q.snapshotHash);
    assert forall k :: 0 <= k < |p.sources| ==> c.sources[k] == p.sources[k];
  }

  lemma StoredSourceIff(db: Db, batch: Batch, q: Request, i: nat, k: nat)
    requires Scenario(db, batch, q) && i < |batch.proposals| && k < |batch.proposals[i].sources|
    requires forall j :: 0 <= j < |batch.proposals| ==> Compensable(batch.proposals[j])
    ensures SourceValid(Apply(db, batch).value.db, batch.proposals[i].sources[k]) <==>
            QuotationStands(db, batch.proposals, batch.proposals[i].sources[k])
  {
    SourceWasValid(db, batch, q, i, k);
    Settles(db, batch, q);
    SourceSurvivesIff(db, Apply(db, batch).value.db.(runs := db.runs), batch.proposals, batch.proposals[i].sources[k]);
    SourceIgnoresRuns(Apply(db, batch).value.db, db.runs, batch.proposals[i].sources[k]);
  }

  lemma SourceWasValid(db: Db, batch: Batch, q: Request, i: nat, k: nat)
    requires Scenario(db, batch, q) && i < |batch.proposals| && k < |batch.proposals[i].sources|
    ensures SourceValid(db, batch.proposals[i].sources[k])
  {
    FreshlyValid(db, batch, q, i);
  }

  lemma Settles(db: Db, batch: Batch, q: Request)
    requires Scenario(db, batch, q)
    requires forall j :: 0 <= j < |batch.proposals| ==> Compensable(batch.proposals[j])
    ensures Settled(db, batch.proposals, Apply(db, batch).value.db.(runs := db.runs))
  {
    ScenarioTyped(db, batch, q);
    CommitRows(db, batch);
    CommitSummaries(db, batch);
    AllAmend(db, batch, q);
  }

  lemma CommitRows(db: Db, batch: Batch)
    requires WellTyped(db) && Apply(db, batch).Success?
    ensures DistinctTargets(db, batch.proposals)
    ensures RowEffects(Progress(db, 0, 0), batch.proposals, Progress(Apply(db, batch).value.db.(runs := db.runs), 0, 0))
  {
    CommitEffects(db, batch);
    var end := Apply(db, batch).value;
    SameRows(Progress(db, 0, 0), batch.proposals, end.(db := end.db.(runs := db.runs)),
      Progress(end.db.(runs := db.runs), 0, 0));
  }

  lemma CommitSummaries(db: Db, batch: Batch)
    requires WellTyped(db) && Apply(db, batch).Success?
    ensures var end := Progress(Apply(db, batch).value.db.(runs := db.runs), 0, 0);
            SummaryEffects(Progress(db, 0, 0), batch.proposals, end) &&
            SummariesWritten(Progress(db, 0, 0), batch.proposals, end)
  {
    CommitEffects(db, batch);
    var end := Apply(db, batch).value;
    SameSummaries(Progress(db, 0, 0), batch.proposals, end.(db := end.db.(runs := db.runs)),
                  Progress(end.db.(runs := db.runs), 0, 0));
  }

  lemma SameSummaries(g: Progress, ps: seq<Proposal>, a: Progress, b: Progress)
    requires SummaryEffects(g, ps, a) && SummariesWritten(g, ps, a) && a.db == b.db
    ensures SummaryEffects(g, ps, b) && SummariesWritten(g, ps, b)
  {
  }

  lemma {:induction false} CommitLedger(db: Db, batch: Batch)
    requires WellTyped(db) && Apply(db, batch).Success?
    ensures WellTyped(Apply(db, batch).value.db)
    ensures Apply(db, batch).value.db.ledger == db.ledger + Entries(Unrecorded(db, batch.proposals))
  {
    CommitEffects(db, batch);
  }

  lemma SameRows(g: Progress, ps: seq<Proposal>, a: Progress, b: Progress)
    requires RowEffects(g, ps, a) && a.db == b.db
    ensures RowEffects(g, ps, b)
  {
  }

  lemma AllAmend(db: Db, batch: Batch, q: Request)
    requires Scenario(db, batch, q)
    requires forall j :: 0 <= j < |batch.proposals| ==> Compensable(batch.proposals[j])
    ensures forall i :: 0 <= i < |batch.proposals| ==> Amends(db, batch.proposals[i])
  {
    forall i | 0 <= i < |batch.proposals|
      ensures Amends(db, batch.proposals[i])
    {
      FoundBefore(db, batch, q, i);
    }
  }

  // Each proposal of the run has rewritten an entity of its own.
  ghost predicate Settled(db: Db, ps: seq<Proposal>, end: Db) {
    && WellTyped(db) && DistinctTargets(db, ps) && (forall i :: 0 <= i < |ps| ==> Amends(db, ps[i]))
    && RowEffects(Progress(db, 0, 0), ps, Progress(end, 0, 0))
    && SummaryEffects(Progress(db, 0, 0), ps, Progress(end, 0, 0))
    && SummariesWritten(Progress(db, 0, 0), ps, Progress(end, 0, 0))
  }

  lemma SourceIgnoresRuns(db: Db, runs: map<string, Run>, s: SourceRef)
    ensures SourceValid(db.(runs := runs), s) == SourceValid(db, s)
  {
  }

  lemma CompensationOperation(db: Db, batch: Batch, q: Request, i: nat, k: nat)
    requires Scenario(db, batch, q) && i < |batch.proposals|
    requires EntityValue(Apply(db, batch).value.db, batch.proposals[i].entity).Some?
    ensures var current := EntityValue(Apply(db, batch).value.db, batch.proposals[i].entity).value;
            && (OperationValid(Compensation(current, batch.proposals[i], k, q)) <==> Compensable(batch.proposals[i]))
            && Get(current, Revision) == Number(Compensation(current, batch.proposals[i], k, q).expectedRevision)
  {
    var p := batch.proposals[i];
    var done := Apply(db, batch).value.db;
    FreshlyValid(db, batch, q, i);
    RevertSees(db, batch, q);
    EntitiesStay(db, batch, q);
    EntityShows(done, p.entity);
    if p.operation == ReassignTarget {
      FoundBefore(db, batch, q, i);
      EntityShows(db, p.entity);
      assert Get(p.before.m, WeaknessKey) == Get(db.rows[p.entity], WeaknessKey);
    }
    CompensationFits(EntityValue(done, p.entity).value, p, k, q);
  }

  // ----- the two theorems

  // Some compensation is not a valid operation, so the whole revert is refused.
  lemma IncompensableRefused(db: Db, batch: Batch, q: Request, i: nat)
    requires Scenario(db, batch, q) && i < |batch.proposals| && !Compensable(batch.proposals[i])
    ensures Revert(Apply(db, batch).value.db, q).Failure?
  {
    var done, ps := Apply(db, batch).value.db, batch.proposals;
    RevertSees(db, batch, q);
    var built := Compensations(done, ps, 0, q);
    if built.Success? {
      BuiltFromEntities(done, ps, 0, q);
      CompensationsAt(done, ps, 0, q);
      var back := RevertBatchOf(q, built.value);
      CompensationOperation(db, batch, q, i, |ps| - 1 - i);
      assert built.value[|ps| - 1 - i] == Undo(done, ps[i], |ps| - 1 - i, q);
      InvalidOperationRefused(done, back, |ps| - 1 - i);
    }
  }

  lemma InvalidOperationRefused(db: Db, batch: Batch, i: nat)
    requires i < |batch.proposals| && !OperationValid(batch.proposals[i])
    ensures Apply(db, batch).Failure?
  {
    assert !ProposalValid(db, batch, i);
  }

  lemma {:induction false} BuiltFromEntities(db: Db, ps: seq<Proposal>, k: nat, q: Request)
    requires Compensations(db, ps, k, q).Success?
    ensures forall i :: 0 <= i < |ps| ==> EntityValue(db, ps[i].entity).Some?
    decreases |ps|
  {
    if ps != [] {
      var front := ps[..|ps| - 1];
      BuiltFromEntities(db, front, k + 1, q);
      assert forall i :: 0 <= i < |front| ==> front[i] == ps[i];
    }
  }

  lemma UnwindStarts(db: Db, batch: Batch, q: Request) returns (m: Progress, x: Progress, cs: seq<Proposal>)
    requires Scenario(db, batch, q)
    requires forall i :: 0 <= i < |batch.proposals| ==> Compensable(batch.proposals[i])
    ensures var done := Apply(db, batch).value.db;
            && Compensations(done, batch.proposals, 0, q) == Success(cs)
            && x == Progress(OpenRun(done, RevertBatchOf(q, cs)), 0, 0)
            && WellTyped(x.db) && Unused(x.db.ledger, q, 0)
            && TablesOf(m.db) == TablesOf(x.db) && TablesOf(done) == TablesOf(x.db)
            && m.db.weaknesses == db.weaknesses && x.db.weaknesses == db.weaknesses && x.db.ledger == done.ledger
    ensures ApplyAll(Progress(OpenRun(db, batch), 0, 0), batch.proposals) == Success(m)
    ensures !Blank(q.batchId)
  {
    var done := Apply(db, batch).value.db;
    CompensationsBuilt(db, batch, q);
    CommitRan(db, batch);
    m := ApplyAll(Progress(OpenRun(db, batch), 0, 0), batch.proposals).value;
    cs := Compensations(done, batch.proposals, 0, q).value;
    x := Progress(OpenRun(done, RevertBatchOf(q, cs)), 0, 0);
    RevertSees(db, batch, q);
    EntitiesStay(db, batch, q);
    OpenRunTyped(done, RevertBatchOf(q, cs));
    CommitEffects(db, batch);
    forall i: nat, id | 0 <= i
      ensures Find(x.db.ledger, RunName(q.batchId, q.stamp), RevertId(i, id)).None?
    {
      NoRunFindsNone(x.db.ledger, RunName(q.batchId, q.stamp), RevertId(i, id));
    }
  }

  lemma RevertRuns(db: Db, batch: Batch, q: Request) returns (x: Progress, y: Progress, end: Progress)
    requires Scenario(db, batch, q) && CanRevert(db, batch.proposals, q)
    ensures x.applied == 0 && x.skipped == 0
    ensures TablesOf(x.db) == TablesOf(Apply(db, batch).value.db)
    ensures x.db.ledger == Apply(db, batch).value.db.ledger
    ensures Revert(Apply(db, batch).value.db, q) == Success(end)
    ensures TablesOf(end.db) == TablesOf(y.db) && end.db.ledger == y.db.ledger
    ensures end.applied == y.applied && end.skipped == y.skipped
    ensures Unwound(Progress(OpenRun(db, batch), 0, 0), batch.proposals, x, y)
    ensures SummariesUnwound(Progress(OpenRun(db, batch), 0, 0), batch.proposals, x, y)
  {
    var cs;
    x, y, cs := RevertUnwinds(db, batch, q);
    CompensationsValid(db, batch, q);
    RevertSees(db, batch, q);
    end := RevertIs(Apply(db, batch).value.db, batch.proposals, q, cs, x, y);
  }

  lemma RevertUnwinds(db: Db, batch: Batch, q: Request) returns (x: Progress, y: Progress, cs: seq<Proposal>)
    requires Scenario(db, batch, q)
    requires forall i :: 0 <= i < |batch.proposals| ==> Compensable(batch.proposals[i])
    ensures var done := Apply(db, batch).value.db;
            && TablesOf(x.db) == TablesOf(done) && x.db.ledger == done.ledger
            && Compensations(done, batch.proposals, 0, q) == Success(cs)
            && x == Progress(OpenRun(done, RevertBatchOf(q, cs)), 0, 0)
    ensures ApplyAll(x, cs) == Success(y)
    ensures Unwound(Progress(OpenRun(db, batch), 0, 0), batch.proposals, x, y)
    ensures SummariesUnwound(Progress(OpenRun(db, batch), 0, 0), batch.proposals, x, y)
  {
    var m;
    m, x, cs := UnwindStarts(db, batch, q);
    ReadyToUnwind(db, batch, q);
    forall i | 0 <= i < |batch.proposals|
      ensures StillShows(m.db, x.db, Apply(db, batch).value.db, batch.proposals[i])
    {
      ShownAfterCommit(db, batch, q, m.db, x.db, i);
    }
    Unwind(Progress(OpenRun(db, batch), 0, 0), batch.runId, batch.proposals, m, Apply(db, batch).value.db, x, 0, q);
    y := ApplyAll(x, cs).value;
  }

  lemma RevertIs(done: Db, ps: seq<Proposal>, q: Request, cs: seq<Proposal>, x: Progress, y: Progress)
      returns (end: Progress)
    requires AppliedIn(done.ledger, q.batchId) == ps && ps != [] && !Blank(q.batchId)
    requires Compensations(done, ps, 0, q) == Success(cs) && BatchValid(done, RevertBatchOf(q, cs))
    requires x == Progress(OpenRun(done, RevertBatchOf(q, cs)), 0, 0) && ApplyAll(x, cs) == Success(y)
    ensures Revert(done, q) == Success(end)
    ensures TablesOf(end.db) == TablesOf(y.db) && end.db.ledger == y.db.ledger
    ensures end.applied == y.applied && end.skipped == y.skipped
  {
    end := y.(db := CloseRun(y.db, RevertBatchOf(q, cs), y.applied));
  }

  lemma ReadyToUnwind(db: Db, batch: Batch, q: Request)
    requires Scenario(db, batch, q)
    requires forall i :: 0 <= i < |batch.proposals| ==> Compensable(batch.proposals[i])
    ensures WellTyped(OpenRun(db, batch)) && Runnable(OpenRun(db, batch), batch.runId, batch.proposals)
    ensures DistinctTargets(OpenRun(db, batch), batch.proposals) && Revertible(OpenRun(db, batch), batch.proposals)
  {
    FreshBatch(db, batch, q);
    OpenRunTyped(db, batch);
    forall i | 0 <= i < |batch.proposals|
      ensures Amends(OpenRun(db, batch), batch.proposals[i]) && OperationValid(batch.proposals[i]) &&
              Honest(batch.proposals[i])
    {
      FoundBefore(db, batch, q, i);
    }
  }

  lemma ShownAfterCommit(db: Db, batch: Batch, q: Request, m: Db, x: Db, i: nat)
    requires Scenario(db, batch, q) && i < |batch.proposals|
    requires forall j :: 0 <= j < |batch.proposals| ==> Compensable(batch.proposals[j])
    requires var done := Apply(db, batch).value.db;
             TablesOf(m) == TablesOf(x) && TablesOf(done) == TablesOf(x)
    ensures StillShows(m, x, Apply(db, batch).value.db, batch.proposals[i])
  {
    EntitiesStay(db, batch, q);
    ShownInTables(m, x, Apply(db, batch).value.db, batch.proposals[i]);
  }

  lemma ShownInTables(m: Db, x: Db, done: Db, p: Proposal)
    requires TablesOf(m) == TablesOf(x) && TablesOf(done) == TablesOf(x) && EntityValue(done, p.entity).Some?
    ensures StillShows(m, x, done, p)
  {
    EntityRevision(done, p.entity);
  }

  // ----- what is restored

  predicate SummaryReversible(s: Summaries, p: Proposal) {
    p.operation == AmendSummary && p.after.Fields? ==>
      var sid, key := p.entity.id, Get(p.after.m, SummaryKey);
      && (sid, AUDIT_QUALITY) !in s
      && (key == AUDIT_QUALITY || (Get(p.after.m, SummaryValue) == Null && (sid, key) !in s))
  }

  predicate Reversible(db: Db, p: Proposal) {
    p.entity in db.rows && RowReversible(db.rows[p.entity], p) && SummaryReversible(db.summaries, p)
  }

  function TwoRevisionsOn(row: Row): Row {
    row[Revision := Number(Rev(row) + 2)]
  }

  ghost predicate RowsRestored(db: Db, ps: seq<Proposal>, end: map<Ref, Row>) {
    && end.Keys == db.rows.Keys
    && (forall r :: r in db.rows ==> end[r] == if Targeted(db, ps, r) then TwoRevisionsOn(db.rows[r]) else db.rows[r])
  }

  // Every amended row is as it was but two revisions on; everything else, and
  // every summary, is as it was.
  ghost predicate Restored(db: Db, ps: seq<Proposal>, end: Db) {
    RowsRestored(db, ps, end.rows) && end.summaries == db.summaries
  }

  // A proposal that found its entity in db as it says.
  ghost predicate FoundIn(db: Db, p: Proposal) {
    && Amends(db, p) && OperationValid(p) && Honest(p) && p.entity in db.rows
    && EntityValue(db, p.entity) == Some(p.before.m) && Rev(db.rows[p.entity]) == p.expectedRevision
  }

  // What `before` says of the audit summary.
  lemma SummaryShown(db: Db, p: Proposal)
    requires WellTyped(db) && OperationValid(p) && p.operation == AmendSummary &&
             EntityValue(db, p.entity) == Some(p.before.m)
    ensures p.entity == Ref(Session, p.entity.id)
    ensures Get(p.before.m, EffectiveSummary) != Null <==> (p.entity.id, AUDIT_QUALITY) in db.summaries
  {
  }

  lemma SummaryLost(s: Summaries, p: Proposal)
    requires p.before.Fields? && Get(p.before.m, EffectiveSummary) != Null && (p.entity.id, AUDIT_QUALITY) in s
    requires s[(p.entity.id, AUDIT_QUALITY)].revision <= p.expectedRevision
    ensures !SameSession(RevertedSummaries(s, p), s, p.entity.id)
  {
    assert RevertedSummaries(s, p)[(p.entity.id, AUDIT_QUALITY)].revision == p.expectedRevision + 2;
  }

  lemma SummaryKept(s: Summaries, p: Proposal)
    requires p.operation == AmendSummary && p.before.Fields? && p.after.Fields?
    requires Get(p.before.m, EffectiveSummary) == Null && (p.entity.id, AUDIT_QUALITY) !in s
    requires forall key :: (p.entity.id, key) in s ==> s[(p.entity.id, key)].revision <= p.expectedRevision
    ensures SameSession(RevertedSummaries(s, p), s, p.entity.id) <==> SummaryReversible(s, p)
  {
    var sid, key, value := p.entity.id, Get(p.after.m, SummaryKey), Get(p.after.m, SummaryValue);
    var back := RevertedSummaries(s, p);
    assert back == AmendedSummaries(s, p) - {(sid, AUDIT_QUALITY)};
    if key != AUDIT_QUALITY && value != Null {
      assert (sid, key) in back && back[(sid, key)].revision == p.expectedRevision + 1;
    }
    if key != AUDIT_QUALITY && value == Null && (sid, key) in s {
      assert (sid, key) !in back;
    }
  }

  lemma SummaryRestored(db: Db, p: Proposal)
    requires WellTyped(db) && SummariesDated(db) && OperationValid(p) && p.operation == AmendSummary && Honest(p)
    requires EntityValue(db, p.entity) == Some(p.before.m) && Rev(db.rows[p.entity]) == p.expectedRevision
    ensures SameSession(RevertedSummaries(db.summaries, p), db.summaries, p.entity.id) <==>
              SummaryReversible(db.summaries, p)
  {
    SummaryShown(db, p);
    if (p.entity.id, AUDIT_QUALITY) in db.summaries {
      SummaryLost(db.summaries, p);
    } else {
      SummaryKept(db.summaries, p);
    }
  }

  // Rows after the revert, given the unwinding.
  lemma RowsComeBack(db: Db, ps: seq<Proposal>, g: Progress, x: Progress, y: Progress, done: Progress)
    requires WellTyped(db) && TablesOf(g.db) == TablesOf(db) && TablesOf(x.db) == TablesOf(done.db)
    requires forall i :: 0 <= i < |ps| ==> FoundIn(db, ps[i]) && Compensable(ps[i])
    requires RowEffects(Progress(db, 0, 0), ps, done) && done.db.rows.Keys == db.rows.Keys
    requires Unwound(g, ps, x, y)
    ensures RowsRestored(db, ps, y.db.rows) <==>
              (forall i :: 0 <= i < |ps| ==> RowReversible(db.rows[ps[i].entity], ps[i]))
  {
    forall i | 0 <= i < |ps|
      ensures Targeted(db, ps, ps[i].entity)
      ensures y.db.rows[ps[i].entity] == TwoRevisionsOn(db.rows[ps[i].entity]) <==>
                RowReversible(db.rows[ps[i].entity], ps[i])
    {
      OneRowBack(db, ps[i], y.db.rows[ps[i].entity]);
    }
    forall r | r in db.rows && !Targeted(db, ps, r)
      ensures y.db.rows[r] == db.rows[r]
    {
      UntargetedStays(db, ps, g, x, y, done, r);
    }
    RowsCollect(db, ps, y.db.rows);
  }

  lemma OneRowBack(db: Db, p: Proposal, back: Row)
    requires WellTyped(db) && FoundIn(db, p) && Compensable(p) && back == RevertedRow(db.rows[p.entity], p)
    ensures back == TwoRevisionsOn(db.rows[p.entity]) <==> RowReversible(db.rows[p.entity], p)
  {
    RowRestored(db, p);
  }

  lemma UntargetedStays(db: Db, ps: seq<Proposal>, g: Progress, x: Progress, y: Progress, done: Progress, r: Ref)
    requires TablesOf(x.db) == TablesOf(done.db) && r in db.rows && !Targeted(db, ps, r)
    requires forall i :: 0 <= i < |ps| ==> Amends(db, ps[i])
    requires RowEffects(Progress(db, 0, 0), ps, done) && Unwound(g, ps, x, y)
    ensures r in y.db.rows && y.db.rows[r] == db.rows[r]
  {
    assert forall i :: 0 <= i < |ps| ==> ps[i].entity != r;
    assert done.db.rows[r] == db.rows[r];
  }

  lemma RowsCollect(db: Db, ps: seq<Proposal>, rows: map<Ref, Row>)
    requires rows.Keys == db.rows.Keys
    requires forall i :: 0 <= i < |ps| ==> ps[i].entity in db.rows && Targeted(db, ps, ps[i].entity)
    requires forall i :: 0 <= i < |ps| ==>
               (rows[ps[i].entity] == TwoRevisionsOn(db.rows[ps[i].entity]) <==>
                   RowReversible(db.rows[ps[i].entity], ps[i]))
    requires forall r :: r in db.rows && !Targeted(db, ps, r) ==> rows[r] == db.rows[r]
    ensures RowsRestored(db, ps, rows) <==> (forall i :: 0 <= i < |ps| ==> RowReversible(db.rows[ps[i].entity], ps[i]))
  {
  }

  // Summaries after the revert, given the unwinding.
  lemma SummariesComeBack(db: Db, ps: seq<Proposal>, g: Progress, x: Progress, y: Progress, done: Progress)
    requires WellTyped(db) && SummariesDated(db) && TablesOf(g.db) == TablesOf(db) &&
             TablesOf(x.db) == TablesOf(done.db)
    requires forall i :: 0 <= i < |ps| ==> FoundIn(db, ps[i])
    requires SummaryEffects(Progress(db, 0, 0), ps, done)
    requires SummariesUnwound(g, ps, x, y)
    ensures y.db.summaries == db.summaries <==> (forall i :: 0 <= i < |ps| ==> SummaryReversible(db.summaries, ps[i]))
  {
    forall i | 0 <= i < |ps| && ps[i].operation == AmendSummary
      ensures SameSession(y.db.summaries, db.summaries, ps[i].entity.id) <==> SummaryReversible(db.summaries, ps[i])
    {
      SummaryRestored(db, ps[i]);
      var back, sid := RevertedSummaries(db.summaries, ps[i]), ps[i].entity.id;
      assert SameSession(y.db.summaries, back, sid);
      if SameSession(y.db.summaries, db.summaries, sid) {
        SameSessionTransitive(back, y.db.summaries, db.summaries, sid);
      } else if SameSession(back, db.summaries, sid) {
        SameSessionTransitive(y.db.summaries, back, db.summaries, sid);
      }
    }
    if forall i :: 0 <= i < |ps| ==> SummaryReversible(db.summaries, ps[i]) {
      forall sid
        ensures SameSession(y.db.summaries, db.summaries, sid)
      {
        SessionComesBack(db, ps, x, y, done, sid);
      }
      EveryWhereSame(y.db.summaries, db.summaries);
    }
  }

  lemma SessionComesBack(db: Db, ps: seq<Proposal>, x: Progress, y: Progress, done: Progress, sid: int)
    requires TablesOf(x.db) == TablesOf(done.db) && SummaryEffects(Progress(db, 0, 0), ps, done)
    requires forall i :: 0 <= i < |ps| ==> OperationValid(ps[i])
    requires forall i :: 0 <= i < |ps| && ps[i].operation == AmendSummary ==>
               SameSession(y.db.summaries, db.summaries, ps[i].entity.id)
    requires (forall i :: 0 <= i < |ps| && ps[i].operation == AmendSummary ==> ps[i].entity.id != sid) ==>
               SameSession(y.db.summaries, x.db.summaries, sid)
    ensures SameSession(y.db.summaries, db.summaries, sid)
  {
    if forall i :: 0 <= i < |ps| && ps[i].operation == AmendSummary ==> ps[i].entity.id != sid {
      assert !SummaryTargeted(db, ps, sid);
      assert SameSession(x.db.summaries, db.summaries, sid);
      SameSessionTransitive(y.db.summaries, x.db.summaries, db.summaries, sid);
    }
  }

  lemma EveryWhereSame(a: Summaries, b: Summaries)
    requires forall sid :: SameSession(a, b, sid)
    ensures a == b
  {
    forall k | k in a || k in b
      ensures k in a && k in b && a[k] == b[k]
    {
      assert SameSession(a, b, k.0);
      assert k == (k.0, k.1);
    }
  }

  lemma NoRowAddedByCommit(db: Db, batch: Batch, q: Request)
    requires Scenario(db, batch, q)
    requires forall i :: 0 <= i < |batch.proposals| ==> Compensable(batch.proposals[i])
    ensures Apply(db, batch).value.db.rows.Keys == db.rows.Keys
  {
    FreshBatch(db, batch, q);
    CommitRan(db, batch);
    OpenRunTyped(db, batch);
    NoRowAdded(Progress(OpenRun(db, batch), 0, 0), batch.runId, batch.proposals);
  }

  lemma AmendmentsFound(db: Db, batch: Batch, q: Request)
    requires Scenario(db, batch, q)
    requires forall i :: 0 <= i < |batch.proposals| ==> Compensable(batch.proposals[i])
    ensures forall i :: 0 <= i < |batch.proposals| ==> FoundIn(db, batch.proposals[i])
  {
    forall i | 0 <= i < |batch.proposals|
      ensures FoundIn(db, batch.proposals[i])
    {
      FoundBefore(db, batch, q, i);
    }
  }

  // The compensating batch is accepted exactly when the run added no recovered
  // finding, marked no finding as a duplicate and rewrote nothing it quotes, and
  // the snapshot hash is one.
  lemma RevertSucceedsIff(db: Db, batch: Batch, q: Request)
    requires Scenario(db, batch, q)
    ensures Revert(Apply(db, batch).value.db, q).Success? <==> CanRevert(db, batch.proposals, q)
  {
    if CanRevert(db, batch.proposals, q) {
      var _, _, _ := RevertRuns(db, batch, q);
    } else if forall i :: 0 <= i < |batch.proposals| ==> Compensable(batch.proposals[i]) {
      CompensationsValid(db, batch, q);
      RevertSees(db, batch, q);
      InvalidBackRefused(Apply(db, batch).value.db, batch.proposals, q);
    } else {
      var i :| 0 <= i < |batch.proposals| && !Compensable(batch.proposals[i]);
      IncompensableRefused(db, batch, q, i);
    }
  }

  lemma {:induction false} InvalidBackRefused(done: Db, ps: seq<Proposal>, q: Request)
    requires AppliedIn(done.ledger, q.batchId) == ps && Compensations(done, ps, 0, q).Success?
    requires !BatchValid(done, RevertBatchOf(q, Compensations(done, ps, 0, q).value))
    ensures Revert(done, q).Failure?
  {
  }

  // Reverting a committed run applies one compensation per amendment, only
  // appends to the ledger, and restores the database, two revisions on, exactly
  // when every amendment is reversible: no null outcome was overwritten, and any
  // summary write was to a session without an audit summary, under the audit
  // key (or was the deletion of a summary that did not exist).
  lemma RevertRestoresIff(db: Db, batch: Batch, q: Request) returns (end: Progress)
    requires Scenario(db, batch, q) && SummariesDated(db) && Revert(Apply(db, batch).value.db, q).Success?
    ensures Revert(Apply(db, batch).value.db, q) == Success(end)
    ensures end.applied == |batch.proposals| && end.skipped == 0
    ensures Apply(db, batch).value.db.ledger <= end.db.ledger
    ensures |end.db.ledger| == |Apply(db, batch).value.db.ledger| + |batch.proposals|
    ensures Restored(db, batch.proposals, end.db) <==>
              forall i :: 0 <= i < |batch.proposals| ==> Reversible(db, batch.proposals[i])
  {
    RevertSucceedsIff(db, batch, q);
    var x, y;
    x, y, end := RevertRuns(db, batch, q);
    RevertRestores(db, batch, q, x, y, end.db);
    RevertCounts(db, batch, q, x, y, end);
  }

  lemma RevertCounts(db: Db, batch: Batch, q: Request, x: Progress, y: Progress, end: Progress)
    requires Apply(db, batch).Success? && x.db.ledger == Apply(db, batch).value.db.ledger && x.applied == x.skipped == 0
    requires end.db.ledger == y.db.ledger && end.applied == y.applied && end.skipped == y.skipped
    requires Unwound(Progress(OpenRun(db, batch), 0, 0), batch.proposals, x, y)
    ensures end.applied == |batch.proposals| && end.skipped == 0
    ensures Apply(db, batch).value.db.ledger <= end.db.ledger
    ensures |end.db.ledger| == |Apply(db, batch).value.db.ledger| + |batch.proposals|
  {
    UnwoundCounts(Progress(OpenRun(db, batch), 0, 0), batch.proposals, x, y);
  }

  lemma UnwoundCounts(g: Progress, ps: seq<Proposal>, x: Progress, y: Progress)
    requires Unwound(g, ps, x, y)
    ensures y.applied == x.applied + |ps| && y.skipped == x.skipped
    ensures x.db.ledger <= y.db.ledger && |y.db.ledger| == |x.db.ledger| + |ps|
  {
  }

  lemma RevertRestores(db: Db, batch: Batch, q: Request, x: Progress, y: Progress, end: Db)
    requires Scenario(db, batch, q) && SummariesDated(db)
    requires forall i :: 0 <= i < |batch.proposals| ==> Compensable(batch.proposals[i])
    requires TablesOf(x.db) == TablesOf(Apply(db, batch).value.db)
    requires Unwound(Progress(OpenRun(db, batch), 0, 0), batch.proposals, x, y)
    requires SummariesUnwound(Progress(OpenRun(db, batch), 0, 0), batch.proposals, x, y)
    requires TablesOf(end) == TablesOf(y.db)
    ensures Restored(db, batch.proposals, end) <==>
              forall i :: 0 <= i < |batch.proposals| ==> Reversible(db, batch.proposals[i])
  {
    var quiet := CommitSummary(db, batch, q);
    AmendmentsFound(db, batch, q);
    ScenarioTyped(db, batch, q);
    ComesBack(db, batch.proposals, Progress(OpenRun(db, batch), 0, 0), x, y, quiet, end);
  }

  lemma ScenarioTyped(db: Db, batch: Batch, q: Request)
    requires Scenario(db, batch, q)
    ensures WellTyped(db)
  {
  }

  lemma CommitSummary(db: Db, batch: Batch, q: Request) returns (quiet: Progress)
    requires Scenario(db, batch, q)
    requires forall i :: 0 <= i < |batch.proposals| ==> Compensable(batch.proposals[i])
    ensures TablesOf(quiet.db) == TablesOf(Apply(db, batch).value.db)
    ensures RowEffects(Progress(db, 0, 0), batch.proposals, quiet) &&
            SummaryEffects(Progress(db, 0, 0), batch.proposals, quiet)
    ensures quiet.db.rows.Keys == db.rows.Keys
  {
    CommitEffects(db, batch);
    NoRowAddedByCommit(db, batch, q);
    var done := Apply(db, batch).value;
    quiet := done.(db := done.db.(runs := db.runs));
  }

  lemma ComesBack(db: Db, ps: seq<Proposal>, g: Progress, x: Progress, y: Progress, quiet: Progress, end: Db)
    requires WellTyped(db) && SummariesDated(db) && TablesOf(g.db) == TablesOf(db)
    requires TablesOf(x.db) == TablesOf(quiet.db) && quiet.db.rows.Keys == db.rows.Keys
    requires forall i :: 0 <= i < |ps| ==> FoundIn(db, ps[i]) && Compensable(ps[i])
    requires RowEffects(Progress(db, 0, 0), ps, quiet) && SummaryEffects(Progress(db, 0, 0), ps, quiet)
    requires Unwound(g, ps, x, y) && SummariesUnwound(g, ps, x, y)
    requires TablesOf(end) == TablesOf(y.db)
    ensures Restored(db, ps, end) <==> forall i :: 0 <= i < |ps| ==> Reversible(db, ps[i])
  {
    RowsComeBack(db, ps, g, x, y, quiet);
    SummariesComeBack(db, ps, g, x, y, quiet);
    ReversibleParts(db, ps);
  }

  lemma ReversibleParts(db: Db, ps: seq<Proposal>)
    requires forall i :: 0 <= i < |ps| ==> ps[i].entity in db.rows
    ensures (forall i :: 0 <= i < |ps| ==> Reversible(db, ps[i])) <==>
            && (forall i :: 0 <= i < |ps| ==> RowReversible(db.rows[ps[i].entity], ps[i]))
            && (forall i :: 0 <= i < |ps| ==> SummaryReversible(db.summaries, ps[i]))
  {
  }

  // ----- what a revert leaves

  ghost predicate RevertLeft(db: Db, p: Proposal, end: Db) {
    && p.entity in db.rows && p.entity in end.rows && end.rows[p.entity] == RevertedRow(db.rows[p.entity], p)
    && (p.operation == AmendSummary ==> SameSession(end.summaries, RevertedSummaries(db.summaries, p), p.entity.id))
  }

  lemma UnwoundLeft(db: Db, g: Progress, ps: seq<Proposal>, x: Progress, y: Progress, end: Db, i: nat)
    requires TablesOf(g.db) == TablesOf(db) && TablesOf(end) == TablesOf(y.db) && i < |ps|
    requires Unwound(g, ps, x, y) && SummariesUnwound(g, ps, x, y)
    ensures RevertLeft(db, ps[i], end)
  {
  }

  // Amendment i of a reverted run leaves its entity as it and its inverse make it.
  lemma RevertLeaves(db: Db, batch: Batch, q: Request, i: nat) returns (end: Progress)
    requires Scenario(db, batch, q) && Revert(Apply(db, batch).value.db, q).Success? && i < |batch.proposals|
    ensures Revert(Apply(db, batch).value.db, q) == Success(end) && RevertLeft(db, batch.proposals[i], end.db)
  {
    RevertSucceedsIff(db, batch, q);
    var x, y;
    x, y, end := RevertRuns(db, batch, q);
    UnwoundLeft(db, Progress(OpenRun(db, batch), 0, 0), batch.proposals, x, y, end.db, i);
  }

  // An outcome that was null keeps the amended value.
  lemma NullOutcomeKept(db: Db, batch: Batch, q: Request, i: nat) returns (end: Progress)
    requires Scenario(db, batch, q) && Revert(Apply(db, batch).value.db, q).Success? && i < |batch.proposals|
    requires var p := batch.proposals[i]; p.entity in db.rows && !RowReversible(db.rows[p.entity], p)
    ensures Revert(Apply(db, batch).value.db, q) == Success(end)
    ensures var p := batch.proposals[i];
            && Get(db.rows[p.entity], Outcome) == Null && p.after.Fields? && IsString(Get(p.after.m, Outcome))
            && p.entity in end.db.rows && Get(end.db.rows[p.entity], Outcome) == Get(p.after.m, Outcome)
  {
    end := RevertLeaves(db, batch, q, i);
    FoundBefore(db, batch, q, i);
    NullStays(db, batch.proposals[i]);
  }

  lemma NullStays(db: Db, p: Proposal)
    requires p.entity in db.rows && !RowReversible(db.rows[p.entity], p) && p.before.Fields?
    requires EntityValue(db, p.entity) == Some(p.before.m)
    ensures Get(RevertedRow(db.rows[p.entity], p), Outcome) == Get(p.after.m, Outcome)
  {
    assert Get(p.before.m, Outcome) == Null;
    assert Get(RevertFields(p.operation, p.before.m), Outcome) == Null;
  }

  // An audit summary that was there comes back as the JSON text of itself.
  lemma SummaryEncodedAgain(db: Db, batch: Batch, q: Request, i: nat) returns (end: Progress)
    requires Scenario(db, batch, q) && Revert(Apply(db, batch).value.db, q).Success? && i < |batch.proposals|
    requires batch.proposals[i].operation == AmendSummary &&
             (batch.proposals[i].entity.id, AUDIT_QUALITY) in db.summaries
    ensures Revert(Apply(db, batch).value.db, q) == Success(end)
    ensures var key := (batch.proposals[i].entity.id, AUDIT_QUALITY);
            key in end.db.summaries && end.db.summaries[key].content == Encoded(db.summaries[key].content)
  {
    end := RevertLeaves(db, batch, q, i);
    FoundBefore(db, batch, q, i);
    SummaryEncodes(db, batch.proposals[i]);
  }

  lemma SummaryEncodes(db: Db, p: Proposal)
    requires OperationValid(p) && p.operation == AmendSummary && (p.entity.id, AUDIT_QUALITY) in db.summaries
    requires EntityValue(db, p.entity) == Some(p.before.m)
    ensures var key := (p.entity.id, AUDIT_QUALITY);
            key in RevertedSummaries(db.summaries, p) &&
              RevertedSummaries(db.summaries, p)[key].content == Encoded(db.summaries[key].content)
  {
    assert Get(p.before.m, EffectiveSummary) == Encoded(db.summaries[(p.entity.id, AUDIT_QUALITY)].content);
  }
}
