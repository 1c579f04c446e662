// Exactly which batches validation lets through, proposal by proposal, told from
// the fields of the batch and the rows of the database (src/audit.rs,
// validate_operation, validate_source_refs and validate_batch).
module AuditValidity {
  import opened Outcomes
  import opened Texts
  import opened AuditModel
  import opened AuditCommit
  import opened AuditOrder

  // ----- operations, as a table

  function TargetsOf(op: Operation): set<Kind> {
    match op
    case AmendAssessment => {Observation, PracticeItem, Review}
    case MarkDuplicate => {Observation, PracticeItem, Finding}
    case RetractObservation | ReassignTarget => {Observation}
    case ReclassifyFinding => {Finding}
    case InvalidateReview => {Review}
    case LinkContinuation | AmendSummary | AddRecoveredFinding => {Session}
  }

  // The fields a proposal may carry; a recovered finding may carry any.
  function FieldsOf(op: Operation): Option<set<Column>> {
    match op
    case AmendAssessment => Some({Outcome, EffectiveStatus})
    case RetractObservation | MarkDuplicate | InvalidateReview => Some({EffectiveStatus})
    case ReclassifyFinding => Some({AssessmentKind, EffectiveStatus})
    case LinkContinuation => Some({ExerciseInstance, StimulusIdentity, SourceEvent})
    case ReassignTarget => Some({WeaknessKey})
    case AmendSummary => Some({SummaryKey, SummaryValue})
    case AddRecoveredFinding => None
  }

  // The fields it must carry.
  function NeedsOf(op: Operation): set<Column> {
    match op
    case RetractObservation | MarkDuplicate | InvalidateReview => {EffectiveStatus}
    case ReassignTarget => {WeaknessKey}
    case AmendSummary => {SummaryKey, SummaryValue}
    case AddRecoveredFinding => {PracticeItemId, AttemptId, AssessmentKind, Original}
    case _ => {}
  }

  predicate ByTable(p: Proposal)
    requires p.after.Fields?
  {
    var after := p.after.m;
    && p.entity.kind in TargetsOf(p.operation) && NeedsOf(p.operation) <= after.Keys
    && (match FieldsOf(p.operation) case Some(allowed) => after.Keys <= allowed case None => true)
    && (p.operation == RetractObservation || p.operation == MarkDuplicate ==>
          after[EffectiveStatus] == Text("retracted"))
    && (p.operation == InvalidateReview ==> after[EffectiveStatus] == Text("invalidated"))
    && (p.operation == ReassignTarget ==> after[WeaknessKey].Text? || after[WeaknessKey].Encoded?)
    && (p.operation == AmendSummary ==> after[SummaryKey].Text? || after[SummaryKey].Encoded?)
  }

  predicate IsSixtyFourHex(s: string) {
    |s| == 64 && forall i :: 0 <= i < 64 ==> '0' <= s[i] <= '9' || 'a' <= s[i] <= 'f' || 'A' <= s[i] <= 'F'
  }

  ghost predicate OperationStands(p: Proposal) {
    && p.schemaVersion == 1 && p.expectedRevision >= 1
    && (forall s :: s in {p.runId, p.id, p.reason, p.issueClass, p.reviewer, p.promptVersion} ==> !Blank(s))
    && (match p.beforeHash case Hex(text) => IsSixtyFourHex(text) case Sha256(_) => true)
    && p.before.Fields? && p.after.Fields? && ByTable(p)
  }

  lemma TableIff(p: Proposal)
    requires p.after.Fields?
    ensures OperationFits(p, p.after.m) <==> ByTable(p)
  {
  }

  lemma OperationIff(p: Proposal)
    ensures OperationValid(p) <==> OperationStands(p)
  {
    if p.after.Fields? {
      TableIff(p);
    }
  }

  // ----- sources

  // The text an entity shows in a field: its own, or for the summary field of a
  // session the stored JSON of its audit summary.
  function TextShown(db: Db, ref: Ref, c: Column): Option<string> {
    if ref !in db.rows || ref.kind == Unsupported then None
    else if ref.kind == Session && c == EffectiveSummary then
      if (ref.id, AUDIT_QUALITY) in db.summaries
      then Some(JsonText(db.summaries[(ref.id, AUDIT_QUALITY)].content)) else None
    else if c !in db.rows[ref] then None
    else match db.rows[ref][c]
      case Text(s) => Some(s)
      case Encoded(of) => Some(JsonText(of))
      case _ => None
  }

  // A source names an entity that is there, and what it quotes occurs in the text
  // the entity shows; or it names an earlier amendment and quotes nothing.
  ghost predicate SourceStands(db: Db, s: SourceRef) {
    && (match s.sourceHash case Some(hash) => IsSixtyFourHex(hash) case None => true)
    && match s.target
       case Malformed(_) => false
       case Amendment(name) => !Blank(name) && s.excerpt == None
       case Field(ref, c) =>
         && ref in db.rows && ref.kind != Unsupported
         && (s.excerpt == None || s.excerpt == Some("") || ShowsQuoted(db, ref, c, s.excerpt.value))
  }

  predicate ShowsQuoted(db: Db, ref: Ref, c: Column, quoted: string) {
    match TextShown(db, ref, c) case Some(text) => Contains(text, quoted) case None => false
  }

  lemma ShowsIff(db: Db, ref: Ref, c: Column, quoted: string)
    requires EntityValue(db, ref).Some? && EffectiveSummary !in db.rows[ref]
    ensures Quotes(Get(EntityValue(db, ref).value, c), quoted) <==> ShowsQuoted(db, ref, c, quoted)
  {
  }

  lemma SourceIff(db: Db, s: SourceRef)
    requires forall r :: r in db.rows ==> EffectiveSummary !in db.rows[r]
    ensures SourceValid(db, s) <==> SourceStands(db, s)
  {
    if s.target.Field? && s.excerpt.Some? && EntityValue(db, s.target.ref).Some? {
      ShowsIff(db, s.target.ref, s.target.column, s.excerpt.value);
    }
  }

  // ----- dependencies

  // The dependency names the proposal, with or without the run's prefix.
  predicate NamesProposal(runId: string, d: string, id: string) {
    if runId + ":" <= d then d == runId + ":" + id else d == id
  }

  predicate Needs(batch: Batch, i: nat, j: nat) {
    && i < |batch.proposals| && j < |batch.proposals|
    && exists d :: d in batch.proposals[i].dependencies && NamesProposal(batch.runId, d, batch.proposals[j].id)
  }

  // Proposals that need one another in a ring.
  ghost predicate Ring(batch: Batch, ring: seq<nat>) {
    |ring| > 1 && ring[0] == ring[|ring| - 1] && forall k :: 0 <= k < |ring| - 1 ==> Needs(batch, ring[k], ring[k + 1])
  }

  lemma NamesMeans(runId: string, d: string, id: string)
    ensures LocalName(runId, d) == id <==> NamesProposal(runId, d, id)
  {
    var prefix := runId + ":";
    if prefix <= d {
      assert d == prefix + d[|prefix|..];
      assert (prefix + id)[|prefix|..] == id;
    }
  }

  lemma {:induction false} EdgeMeans(runId: string, keys: set<string>, deps: seq<string>, id: string)
    ensures id in Edges(runId, keys, deps) <==> id in keys && exists d :: d in deps && LocalName(runId, d) == id
  {
    if deps != [] {
      EdgeMeans(runId, keys, deps[1..], id);
      assert deps == [deps[0]] + deps[1..];
    }
  }

  lemma NeedsIff(batch: Batch, i: nat, j: nat)
    requires DistinctIds(batch.proposals) && i < |batch.proposals| && j < |batch.proposals|
    ensures var g, ps := Dependencies(batch), batch.proposals;
            && ps[i].id in g && (ps[j].id in g[ps[i].id] <==> Needs(batch, i, j))
  {
    var ps := batch.proposals;
    GraphAt(batch.runId, Keys(ps), ps, i);
    EdgeMeans(batch.runId, Keys(ps), ps[i].dependencies, ps[j].id);
    assert ps[j].id in Keys(ps);
    forall d | d in ps[i].dependencies
      ensures LocalName(batch.runId, d) == ps[j].id <==> NamesProposal(batch.runId, d, ps[j].id)
    {
      NamesMeans(batch.runId, d, ps[j].id);
    }
  }

  lemma RingIsCycle(batch: Batch, ring: seq<nat>)
    requires DistinctIds(batch.proposals) && Ring(batch, ring)
    ensures !DependencyGraph.Acyclic(Dependencies(batch))
  {
    var g, ps := Dependencies(batch), batch.proposals;
    forall k | 0 <= k < |ring|
      ensures ring[k] < |ps|
    {
      if k < |ring| - 1 {
        assert Needs(batch, ring[k], ring[k + 1]);
      } else {
        assert Needs(batch, ring[k - 1], ring[k - 1 + 1]);
      }
    }
    var names := seq(|ring|, k requires 0 <= k < |ring| => ps[ring[k]].id);
    forall k | 0 <= k < |names| - 1
      ensures names[k] in g && names[k + 1] in g[names[k]]
    {
      assert Needs(batch, ring[k], ring[k + 1]);
      NeedsIff(batch, ring[k], ring[k + 1]);
    }
    assert DependencyGraph.IsCycle(g, names);
  }

  lemma CycleIsRing(batch: Batch, names: seq<string>) returns (ring: seq<nat>)
    requires DistinctIds(batch.proposals) && DependencyGraph.IsCycle(Dependencies(batch), names)
    ensures Ring(batch, ring)
  {
    var g, ps := Dependencies(batch), batch.proposals;
    forall k | 0 <= k < |names|
      ensures names[k] in Keys(ps)
    {
      NameInGraph(g, names, k);
    }
    ring := seq(|names|, k requires 0 <= k < |names| => IndexOf(ps, names[k]));
    forall k | 0 <= k < |ring| - 1
      ensures Needs(batch, ring[k], ring[k + 1])
    {
      NeedsIff(batch, ring[k], ring[k + 1]);
      assert names[k + 1] in g[names[k]];
    }
  }

  lemma NameInGraph(g: DependencyGraph.Graph, names: seq<string>, k: nat)
    requires DependencyGraph.Closed(g) && DependencyGraph.IsCycle(g, names) && k < |names|
    ensures names[k] in g
  {
  }

  function IndexOf(ps: seq<Proposal>, id: string): (i: nat)
    requires id in Keys(ps)
    ensures i < |ps| && ps[i].id == id
  {
    if ps[0].id == id then 0
    else
      assert id in Keys(ps[1..]) by {
        var j :| 0 <= j < |ps| && ps[j].id == id;
        assert ps[1..][j - 1].id == id;
      }
      IndexOf(ps[1..], id) + 1
  }

  // The declared dependencies are free of cycles exactly when no proposals need
  // one another in a ring.
  lemma AcyclicIff(batch: Batch)
    requires DistinctIds(batch.proposals)
    ensures DependencyGraph.Acyclic(Dependencies(batch)) <==> forall ring :: !Ring(batch, ring)
  {
    if ring :| Ring(batch, ring) {
      RingIsCycle(batch, ring);
    }
    if !DependencyGraph.Acyclic(Dependencies(batch)) {
      var names :| DependencyGraph.IsCycle(Dependencies(batch), names);
      var ring := CycleIsRing(batch, names);
    }
  }

  // ----- proposals and batches

  predicate LedgerHolds(ledger: seq<Amended>, p: Proposal) {
    exists k :: 0 <= k < |ledger| && ledger[k].proposal.runId == p.runId && ledger[k].proposal.id == p.id
  }

  // The first entry of the ledger under the proposal's name is applied and asked for
  // the same change.
  predicate RecordedAlike(ledger: seq<Amended>, p: Proposal) {
    exists k :: 0 <= k < |ledger| && FirstNamed(ledger, p, k) && ledger[k].status == Applied
                && ledger[k].proposal.operation == p.operation && ledger[k].proposal.after == p.after
  }

  predicate FirstNamed(ledger: seq<Amended>, p: Proposal, k: nat)
    requires k < |ledger|
  {
    && ledger[k].proposal.runId == p.runId && ledger[k].proposal.id == p.id
    && forall j :: 0 <= j < k ==> !(ledger[j].proposal.runId == p.runId && ledger[j].proposal.id == p.id)
  }

  // What an entity shows: its row, and for a session its audit summary beside it.
  predicate ShownAs(db: Db, ref: Ref, shown: Row) {
    && ref in db.rows && ref.kind != Unsupported
    && shown == if ref.kind != Session then db.rows[ref]
                else if (ref.id, AUDIT_QUALITY) in db.summaries then
                  db.rows[ref][EffectiveSummary := Encoded(db.summaries[(ref.id, AUDIT_QUALITY)].content)]
                else db.rows[ref][EffectiveSummary := Null]
  }

  // A dependency names a proposal no later in the list by its id, or any proposal of
  // the batch by run and id.
  predicate DependencyStands(batch: Batch, i: nat, d: string)
    requires i < |batch.proposals|
  {
    || (exists j :: 0 <= j <= i && batch.proposals[j].id == d)
    || (exists q :: q in batch.proposals && q.runId + ":" + q.id == d)
  }

  // A proposal the ledger does not hold was built from its entity as it stands, and
  // is supported by sources if it says so.
  ghost predicate FreshStands(db: Db, batch: Batch, i: nat)
    requires i < |batch.proposals|
  {
    var p := batch.proposals[i];
    && p.entity in db.rows && p.entity.kind != Unsupported
    && (p.certainty == Supported ==> p.sources != []) && (forall s :: s in p.sources ==> SourceStands(db, s))
    && (p.operation != AddRecoveredFinding ==>
          && Get(db.rows[p.entity], Revision) == Number(p.expectedRevision)
          && match p.beforeHash case Sha256(shown) => ShownAs(db, p.entity, shown) case Hex(_) => false)
    && forall d :: d in p.dependencies ==> DependencyStands(batch, i, d)
  }

  ghost predicate ProposalStands(db: Db, batch: Batch, i: nat)
    requires i < |batch.proposals|
  {
    var p := batch.proposals[i];
    && p.runId == batch.runId && OperationStands(p)
    && (forall j :: 0 <= j < i ==> batch.proposals[j].id != p.id)
    && if LedgerHolds(db.ledger, p) then RecordedAlike(db.ledger, p) else FreshStands(db, batch, i)
  }

  ghost predicate BatchStands(db: Db, batch: Batch) {
    && (forall s :: s in {batch.runId, batch.boundary, batch.promptVersion} ==> !Blank(s)) && |batch.snapshotHash| == 64
    && (forall i: nat {:trigger ProposalStands(db, batch, i)} :: i < |batch.proposals| ==> ProposalStands(db, batch, i))
    && forall ring :: !Ring(batch, ring)
  }

  lemma {:induction false} FindNamed(ledger: seq<Amended>, p: Proposal) returns (k: nat)
    ensures var found := Find(ledger, p.runId, p.id);
            && (found.Some? <==> LedgerHolds(ledger, p))
            && (found.Some? ==> k < |ledger| && FirstNamed(ledger, p, k) && ledger[k] == found.value)
  {
    if ledger == [] {
      k := 0;
    } else if ledger[0].proposal.runId == p.runId && ledger[0].proposal.id == p.id {
      k := 0;
    } else {
      var rest := ledger[1..];
      var j := FindNamed(rest, p);
      k := j + 1;
      assert forall i :: 0 < i < |ledger| ==> ledger[i] == rest[i - 1];
      if LedgerHolds(ledger, p) {
        var i :| 0 <= i < |ledger| && ledger[i].proposal.runId == p.runId && ledger[i].proposal.id == p.id;
        assert rest[i - 1] == ledger[i];
      }
    }
  }

  lemma {:induction false} RecordedIff(ledger: seq<Amended>, p: Proposal)
    ensures var found := Find(ledger, p.runId, p.id);
            && (found.Some? <==> LedgerHolds(ledger, p))
            && (found.Some? ==>
                  (RecordedAlike(ledger, p) <==>
                   && found.value.status == Applied && found.value.proposal.operation == p.operation
                   && found.value.proposal.after == p.after))
  {
    var k := FindNamed(ledger, p);
    if RecordedAlike(ledger, p) {
      var j :| 0 <= j < |ledger| && FirstNamed(ledger, p, j) && ledger[j].status == Applied
               && ledger[j].proposal.operation == p.operation && ledger[j].proposal.after == p.after;
      assert j == k;
    }
  }

  lemma FreshIff(db: Db, batch: Batch, i: nat)
    requires i < |batch.proposals| && forall r :: r in db.rows ==> EffectiveSummary !in db.rows[r]
    ensures FreshValid(db, batch, i) <==> FreshStands(db, batch, i)
  {
    var p := batch.proposals[i];
    SourcesIff(db, p.sources);
    DependenciesIff(batch, i);
    if p.entity in db.rows && p.entity.kind != Unsupported {
      EntityRevision(db, p.entity);
      assert forall shown :: ShownAs(db, p.entity, shown) <==> EntityValue(db, p.entity) == Some(shown);
    }
  }

  lemma SourcesIff(db: Db, sources: seq<SourceRef>)
    requires forall r :: r in db.rows ==> EffectiveSummary !in db.rows[r]
    ensures (forall k :: 0 <= k < |sources| ==> SourceValid(db, sources[k])) <==>
            forall s :: s in sources ==> SourceStands(db, s)
  {
    forall k | 0 <= k < |sources|
      ensures SourceValid(db, sources[k]) <==> SourceStands(db, sources[k])
    {
      SourceIff(db, sources[k]);
    }
    if forall s :: s in sources ==> SourceStands(db, s) {
      assert forall k :: 0 <= k < |sources| ==> sources[k] in sources;
    }
  }

  lemma DependenciesIff(batch: Batch, i: nat)
    requires i < |batch.proposals|
    ensures var deps := batch.proposals[i].dependencies;
            (forall k :: 0 <= k < |deps| ==> DependencyKnown(batch, i, deps[k])) <==>
            forall d :: d in deps ==> DependencyStands(batch, i, d)
  {
    var deps := batch.proposals[i].dependencies;
    forall k | 0 <= k < |deps|
      ensures DependencyKnown(batch, i, deps[k]) <==> DependencyStands(batch, i, deps[k])
    {
      if q :| q in batch.proposals && q.runId + ":" + q.id == deps[k] {
        var j :| 0 <= j < |batch.proposals| && batch.proposals[j] == q;
      }
      if j :| 0 <= j < |batch.proposals| && batch.proposals[j].runId + ":" + batch.proposals[j].id == deps[k] {
        assert batch.proposals[j] in batch.proposals;
      }
    }
    if forall d :: d in deps ==> DependencyStands(batch, i, d) {
      assert forall k :: 0 <= k < |deps| ==> deps[k] in deps;
    }
  }

  lemma ProposalIff(db: Db, batch: Batch, i: nat)
    requires i < |batch.proposals| && forall r :: r in db.rows ==> EffectiveSummary !in db.rows[r]
    ensures ProposalValid(db, batch, i) <==> ProposalStands(db, batch, i)
  {
    OperationIff(batch.proposals[i]);
    RecordedIff(db.ledger, batch.proposals[i]);
    FreshIff(db, batch, i);
  }

  // The batches validation accepts.
  lemma BatchIff(db: Db, batch: Batch)
    requires WellTyped(db)
    ensures BatchValid(db, batch) <==> BatchStands(db, batch)
  {
    RowsShowNoSummary(db);
    forall i: nat | i < |batch.proposals|
      ensures ProposalValid(db, batch, i) <==> ProposalStands(db, batch, i)
    {
      ProposalIff(db, batch, i);
    }
    if forall i: nat {:trigger ProposalStands(db, batch, i)} :: i < |batch.proposals| ==> ProposalStands(db, batch, i) {
      forall i, j | 0 <= i < j < |batch.proposals|
        ensures batch.proposals[i].id != batch.proposals[j].id
      {
        assert ProposalStands(db, batch, j);
      }
      AcyclicIff(batch);
    }
  }

  lemma RowsShowNoSummary(db: Db)
    requires WellTyped(db)
    ensures forall r :: r in db.rows ==> EffectiveSummary !in db.rows[r]
  {
  }
}
