// The order in which a batch is applied, against the dependencies it declares:
// validation asks for an acyclic graph, application goes by the list.
module AuditOrder {
  import opened AuditModel
  import opened AuditCommit
  import opened AuditRestoration

  predicate DependsOn(runId: string, p: Proposal, id: string) {
    exists k :: 0 <= k < |p.dependencies| && LocalName(runId, p.dependencies[k]) == id
  }

  predicate RecordedIn(ledger: seq<Amended>, runId: string, a: nat) {
    a < |ledger| && ledger[a].proposal.runId == runId
  }

  // Whatever a recorded proposal of the run depends on is recorded before it.
  ghost predicate DependenciesFirst(ledger: seq<Amended>, runId: string) {
    forall a: nat, b: nat | RecordedIn(ledger, runId, a) && RecordedIn(ledger, runId, b) ::
      DependsOn(runId, ledger[b].proposal, ledger[a].proposal.id) ==> a < b
  }

  // A dependency written with the run's prefix names a later proposal.
  predicate PointsForward(runId: string, ps: seq<Proposal>) {
    exists i, j, k :: 0 <= i < j < |ps| && 0 <= k < |ps[i].dependencies| &&
      ps[i].dependencies[k] == runId + ":" + ps[j].id
  }

  predicate ListOrdered(runId: string, ps: seq<Proposal>) {
    forall i, j :: 0 <= i < |ps| && 0 <= j < |ps| && DependsOn(runId, ps[i], ps[j].id) ==> j < i
  }

  predicate DistinctIds(ps: seq<Proposal>) {
    forall i, j :: 0 <= i < j < |ps| ==> ps[i].id != ps[j].id
  }

  // ----- the graph has the edges the proposals declare

  lemma {:induction false} EdgeKept(runId: string, keys: set<string>, deps: seq<string>, k: nat)
    requires k < |deps| && LocalName(runId, deps[k]) in keys
    ensures LocalName(runId, deps[k]) in Edges(runId, keys, deps)
  {
    if k > 0 {
      EdgeKept(runId, keys, deps[1..], k - 1);
    }
  }

  lemma {:induction false} GraphAt(runId: string, keys: set<string>, ps: seq<Proposal>, i: nat)
    requires i < |ps| && DistinctIds(ps)
    ensures ps[i].id in GraphOf(runId, keys, ps)
    ensures GraphOf(runId, keys, ps)[ps[i].id] == Edges(runId, keys, ps[i].dependencies)
  {
    if i < |ps| - 1 {
      GraphAt(runId, keys, ps[..|ps| - 1], i);
    }
  }

  lemma NoSelfDependency(batch: Batch, i: nat, k: nat)
    requires DependencyGraph.Acyclic(Dependencies(batch)) && DistinctIds(batch.proposals)
    requires i < |batch.proposals| && k < |batch.proposals[i].dependencies|
    ensures LocalName(batch.runId, batch.proposals[i].dependencies[k]) != batch.proposals[i].id
  {
    var ps, n := batch.proposals, batch.proposals[i].id;
    if LocalName(batch.runId, ps[i].dependencies[k]) == n {
      GraphAt(batch.runId, Keys(ps), ps, i);
      EdgeKept(batch.runId, Keys(ps), ps[i].dependencies, k);
      assert DependencyGraph.IsCycle(Dependencies(batch), [n, n]);
      assert false;
    }
  }

  // ----- list order

  // A short name reaches back; only a prefixed one can reach forward.
  lemma ShortNamesReachBack(batch: Batch, i: nat, j: nat, k: nat)
    requires DistinctIds(batch.proposals) && i < |batch.proposals| && j < |batch.proposals|
    requires k < |batch.proposals[i].dependencies| && DependencyKnown(batch, i, batch.proposals[i].dependencies[k])
    requires forall m :: 0 <= m < |batch.proposals| ==> batch.proposals[m].runId == batch.runId
    requires batch.proposals[j].id == LocalName(batch.runId, batch.proposals[i].dependencies[k]) && i < j
    ensures batch.proposals[i].dependencies[k] == batch.runId + ":" + batch.proposals[j].id
  {
    var d, prefix := batch.proposals[i].dependencies[k], batch.runId + ":";
    if prefix <= d {
      assert d == prefix + d[|prefix|..];
    }
  }

  // Where an unrecorded proposal stands in the list.
  lemma {:induction false} UnrecordedAt(db: Db, ps: seq<Proposal>, u: nat) returns (i: nat)
    requires u < |Unrecorded(db, ps)|
    ensures i < |ps| && ps[i] == Unrecorded(db, ps)[u] && Fresh(db, ps[i])
  {
    if Fresh(db, ps[0]) && u == 0 {
      i := 0;
    } else {
      var rest := UnrecordedAt(db, ps[1..], if Fresh(db, ps[0]) then u - 1 else u);
      i := rest + 1;
    }
  }

  lemma {:induction false} UnrecordedInOrder(db: Db, ps: seq<Proposal>, u: nat, v: nat) returns (i: nat, j: nat)
    requires u < v < |Unrecorded(db, ps)|
    ensures i < j < |ps| && ps[i] == Unrecorded(db, ps)[u] && ps[j] == Unrecorded(db, ps)[v] && Fresh(db, ps[i])
  {
    if Fresh(db, ps[0]) && u == 0 {
      var rest := UnrecordedAt(db, ps[1..], v - 1);
      i, j := 0, rest + 1;
    } else {
      var less := if Fresh(db, ps[0]) then 1 else 0;
      var a, b := UnrecordedInOrder(db, ps[1..], u - less, v - less);
      i, j := a + 1, b + 1;
    }
  }

  // What validation guarantees of the names and dependencies of a batch.
  ghost predicate Named(db: Db, batch: Batch) {
    && DistinctIds(batch.proposals) && DependencyGraph.Acyclic(Dependencies(batch))
    && (forall m :: 0 <= m < |batch.proposals| ==> batch.proposals[m].runId == batch.runId)
    && forall i, k :: 0 <= i < |batch.proposals| && 0 <= k < |batch.proposals[i].dependencies| ==>
         Fresh(db, batch.proposals[i]) ==> DependencyKnown(batch, i, batch.proposals[i].dependencies[k])
  }

  lemma {:induction false} ForwardIsPrefixed(db: Db, batch: Batch, u: nat, v: nat)
    requires Named(db, batch) && u <= v < |Unrecorded(db, batch.proposals)|
    requires DependsOn(batch.runId, Unrecorded(db, batch.proposals)[u], Unrecorded(db, batch.proposals)[v].id)
    ensures PointsForward(batch.runId, Unrecorded(db, batch.proposals))
  {
    var ps, unseen := batch.proposals, Unrecorded(db, batch.proposals);
    var k :| 0 <= k < |unseen[u].dependencies| && LocalName(batch.runId, unseen[u].dependencies[k]) == unseen[v].id;
    if u == v {
      var i := UnrecordedAt(db, ps, u);
      NoSelfDependency(batch, i, k);
    } else {
      var i, j := UnrecordedInOrder(db, ps, u, v);
      ShortNamesReachBack(batch, i, j, k);
    }
  }

  lemma {:induction false} OrderedIff(db: Db, batch: Batch)
    requires Named(db, batch)
    ensures var unseen := Unrecorded(db, batch.proposals);
            ListOrdered(batch.runId, unseen) <==> !PointsForward(batch.runId, unseen)
  {
    var unseen := Unrecorded(db, batch.proposals);
    if PointsForward(batch.runId, unseen) {
      var i, j, k :| 0 <= i < j < |unseen| && 0 <= k < |unseen[i].dependencies| &&
          unseen[i].dependencies[k] == batch.runId + ":" + unseen[j].id;
      assert LocalName(batch.runId, unseen[i].dependencies[k]) == unseen[j].id;
      assert DependsOn(batch.runId, unseen[i], unseen[j].id);
    } else {
      forall u, v | 0 <= u < |unseen| && 0 <= v < |unseen| && DependsOn(batch.runId, unseen[u], unseen[v].id)
        ensures v < u
      {
        if u <= v {
          ForwardIsPrefixed(db, batch, u, v);
        }
      }
    }
  }

  // Something recorded earlier depends on a proposal that is still to come.
  ghost predicate Awaited(ledger: seq<Amended>, runId: string, ps: seq<Proposal>) {
    exists b: nat, j: nat ::
      RecordedIn(ledger, runId, b) && j < |ps| && DependsOn(runId, ledger[b].proposal, ps[j].id)
  }

  lemma OrderTakenApart(before: seq<Amended>, runId: string, ps: seq<Proposal>)
    requires forall i :: 0 <= i < |ps| ==> ps[i].runId == runId
    requires DependenciesFirst(before + Entries(ps), runId)
    ensures DependenciesFirst(before, runId) && !Awaited(before, runId, ps) && ListOrdered(runId, ps)
  {
    var all := before + Entries(ps);
    assert forall a: nat :: RecordedIn(before, runId, a) ==> RecordedIn(all, runId, a) && all[a] == before[a];
    assert forall i :: 0 <= i < |ps| ==> RecordedIn(all, runId, |before| + i) && all[|before| + i].proposal == ps[i];
    forall i, j | 0 <= i < |ps| && 0 <= j < |ps| && DependsOn(runId, ps[i], ps[j].id)
      ensures j < i
    {
      assert RecordedIn(all, runId, |before| + j) && RecordedIn(all, runId, |before| + i);
    }
  }

  lemma OrderPutTogether(before: seq<Amended>, runId: string, ps: seq<Proposal>)
    requires forall i :: 0 <= i < |ps| ==> ps[i].runId == runId
    requires DependenciesFirst(before, runId) && !Awaited(before, runId, ps) && ListOrdered(runId, ps)
    ensures DependenciesFirst(before + Entries(ps), runId)
  {
    var all := before + Entries(ps);
    forall a: nat, b: nat | RecordedIn(all, runId, a) && RecordedIn(all, runId, b)
      && DependsOn(runId, all[b].proposal, all[a].proposal.id)
      ensures a < b
    {
      if b < |before| {
        assert RecordedIn(before, runId, b) && all[b] == before[b];
        if a < |before| {
          assert RecordedIn(before, runId, a) && all[a] == before[a];
        }
      } else if a >= |before| {
        assert all[a].proposal == ps[a - |before|] && all[b].proposal == ps[b - |before|];
      }
    }
  }

  // ----- the theorem

  lemma CommittedIsNamed(db: Db, batch: Batch)
    requires Apply(db, batch).Success?
    ensures Named(db, batch)
  {
    CommitRan(db, batch);
    forall i | 0 <= i < |batch.proposals|
      ensures batch.proposals[i].runId == batch.runId
      ensures Fresh(db, batch.proposals[i]) ==> FreshValid(db, batch, i)
      ensures forall j :: 0 <= j < i ==> batch.proposals[j].id != batch.proposals[i].id
    {
      assert ProposalValid(db, batch, i);
    }
  }

  lemma {:induction false} UnrecordedRun(db: Db, ps: seq<Proposal>, runId: string)
    requires forall i :: 0 <= i < |ps| ==> ps[i].runId == runId
    ensures forall u :: 0 <= u < |Unrecorded(db, ps)| ==> Unrecorded(db, ps)[u].runId == runId
  {
    forall u | 0 <= u < |Unrecorded(db, ps)|
      ensures Unrecorded(db, ps)[u].runId == runId
    {
      var i := UnrecordedAt(db, ps, u);
    }
  }

  // After a commit, first or resumed, every recorded proposal of the run stands
  // after those it depends on exactly when that was so before, nothing recorded
  // earlier waits for a new proposal, and no prefixed dependency of a new one
  // names a later one.
  lemma {:induction false} DependenciesFirstIff(db: Db, batch: Batch)
    requires WellTyped(db) && Apply(db, batch).Success?
    ensures var unseen := Unrecorded(db, batch.proposals);
            DependenciesFirst(Apply(db, batch).value.db.ledger, batch.runId) <==>
            && DependenciesFirst(db.ledger, batch.runId) && !Awaited(db.ledger, batch.runId, unseen)
            && !PointsForward(batch.runId, unseen)
  {
    var unseen := Unrecorded(db, batch.proposals);
    CommittedIsNamed(db, batch);
    CommitLedger(db, batch);
    UnrecordedRun(db, batch.proposals, batch.runId);
    OrderedIff(db, batch);
    if DependenciesFirst(db.ledger + Entries(unseen), batch.runId) {
      OrderTakenApart(db.ledger, batch.runId, unseen);
    }
    if DependenciesFirst(db.ledger, batch.runId) && !Awaited(db.ledger, batch.runId, unseen) {
      if !PointsForward(batch.runId, unseen) {
        OrderPutTogether(db.ledger, batch.runId, unseen);
      }
    }
  }
}
