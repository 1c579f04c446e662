// The decision does not depend on the order of the evidence records, and
// records that do not count do not change it.
module ReviewOrder {
  import opened Outcomes
  import opened SessionModel
  import opened CanonicalChecks
  import opened ReviewPolicy
  import opened ReviewDecisions
  import opened ReviewFairness

  // ----- what a sequence contributes, whatever its order

  ghost function Bag<T, U>(f: T -> multiset<U>, s: seq<T>): multiset<U> {
    if s == [] then multiset{} else Bag(f, s[..|s| - 1]) + f(s[|s| - 1])
  }

  lemma {:induction false} BagOfParts<T, U>(f: T -> multiset<U>, a: seq<T>, b: seq<T>)
    ensures Bag(f, a + b) == Bag(f, a) + Bag(f, b)
  {
    if b == [] {
      assert a + b == a;
    } else {
      var b0 := b[..|b| - 1];
      assert (a + b)[..|a + b| - 1] == a + b0;
      BagOfParts(f, a, b0);
    }
  }

  lemma TakeOut<T>(s: seq<T>, t: seq<T>) returns (before: seq<T>, after: seq<T>)
    requires s != [] && multiset(s) == multiset(t)
    ensures t == before + [s[|s| - 1]] + after && multiset(s[..|s| - 1]) == multiset(before + after)
  {
    var x := s[|s| - 1];
    assert s == s[..|s| - 1] + [x];
    assert x in multiset(t);
    var i :| 0 <= i < |t| && t[i] == x;
    before, after := t[..i], t[i + 1..];
    assert t == before + [x] + after;
    assert multiset(s[..|s| - 1]) == multiset(s) - multiset{x};
    assert multiset(before + after) == multiset(t) - multiset{x};
  }

  lemma {:induction false} BagPermutes<T, U>(f: T -> multiset<U>, s: seq<T>, t: seq<T>)
    requires multiset(s) == multiset(t)
    ensures Bag(f, s) == Bag(f, t)
  {
    if s == [] {
      assert |multiset(t)| == 0;
    } else {
      var x := s[|s| - 1];
      var before, after := TakeOut(s, t);
      BagPermutes(f, s[..|s| - 1], before + after);
      BagOfParts(f, before, after);
      BagOfParts(f, before + [x], after);
      BagOfParts(f, before, [x]);
      assert Bag(f, [x]) == f(x);
    }
  }

  function JudgedOne(r: Session, e: Evidence, review: Review): ObservationEvidence -> multiset<Judged> {
    o => multiset{Judge(r, e, review, o)}
  }

  lemma {:induction false} JudgementsAsBag(r: Session, e: Evidence, review: Review,
                                           observations: seq<ObservationEvidence>)
    ensures multiset(JudgeAll(r, e, review, observations)) == Bag(JudgedOne(r, e, review), observations)
  {
    if observations != [] {
      var init := observations[..|observations| - 1];
      var js := JudgeAll(r, e, review, observations);
      assert js == JudgeAll(r, e, review, init) + [js[|js| - 1]];
      JudgementsAsBag(r, e, review, init);
    }
  }

  function SupportOf(j: Judged): multiset<nat> {
    if j.Supports() then multiset{j.no} else multiset{}
  }

  function ExclusionOf(j: Judged): multiset<nat> {
    if j.verdict.Excluded? && j.cited then multiset{j.no} else multiset{}
  }

  lemma {:induction false} ListsAsBags(js: seq<Judged>)
    ensures multiset(Supporting(js)) == Bag(SupportOf, js) && multiset(ExcludedNos(js)) == Bag(ExclusionOf, js)
  {
    if js != [] {
      ListsAsBags(js[..|js| - 1]);
    }
  }

  lemma InitOfAscending(a: seq<Code>)
    requires a != [] && Ascending(a)
    ensures var last := a[|a| - 1];
            forall c :: (c in a ==> Rank(c) <= Rank(last)) && (c in a[..|a| - 1] <==> c in a && c != last)
  {
    assert a == a[..|a| - 1] + [a[|a| - 1]];
  }

  lemma Inhabited(a: seq<Code>, b: seq<Code>)
    requires a != [] && forall c :: c in a ==> c in b
    ensures b != []
  {
    assert a[0] in b;
  }

  lemma {:induction false} AscendingUnique(a: seq<Code>, b: seq<Code>)
    requires Ascending(a) && Ascending(b) && forall c :: c in a <==> c in b
    ensures a == b
  {
    if b != [] {
      Inhabited(b, a);
    }
    if a != [] {
      Inhabited(a, b);
      InitOfAscending(a);
      InitOfAscending(b);
      assert a[|a| - 1] in b && b[|b| - 1] in a;
      assert a[|a| - 1] == b[|b| - 1];
      AscendingUnique(a[..|a| - 1], b[..|b| - 1]);
      assert a == a[..|a| - 1] + [a[|a| - 1]] && b == b[..|b| - 1] + [b[|b| - 1]];
    }
  }

  lemma SameMultisetSameMembers<T>(s: seq<T>, t: seq<T>)
    requires multiset(s) == multiset(t)
    ensures |s| == |t| && forall x :: x in s <==> x in t
  {
    assert |multiset(s)| == |s| && |multiset(t)| == |t|;
    forall x
      ensures x in s <==> x in t
    {
      assert x in s <==> x in multiset(s);
      assert x in t <==> x in multiset(t);
    }
  }

  // ----- the decision from reordered verdicts

  lemma {:induction false} SameCodes(x: Context, y: Context, js: seq<Judged>, ks: seq<Judged>, c: Code)
    requires x.review == y.review && x.observations == y.observations
    requires forall v :: v in x.variations <==> v in y.variations
    requires forall j :: j in js <==> j in ks
    requires |Supporting(js)| == |Supporting(ks)| && forall n :: n in Supporting(js) <==> n in Supporting(ks)
    ensures Raised(x, js, c) ==> Raised(y, ks, c)
  {
    if k :| 0 <= k < |js| && Raises(js[k], c) {
      assert js[k] in ks;
    }
    CarryFailure(js, ks);
    CarryFailure(ks, js);
    if Varied(y, ks) {
      CarryVariety(y, x, ks, js);
    }
  }

  lemma CarryFailure(js: seq<Judged>, ks: seq<Judged>)
    requires forall j :: j in js ==> j in ks
    ensures Failed(js) ==> Failed(ks)
  {
    if k :| 0 <= k < |js| && js[k].Fails() {
      assert js[k] in ks;
    }
  }

  lemma CarryScenarios(js: seq<Judged>, ks: seq<Judged>)
    requires forall j :: j in js ==> j in ks
    ensures TwoScenarios(js) ==> TwoScenarios(ks)
  {
    if TwoScenarios(js) {
      var i, j :| 0 <= i < |js| && 0 <= j < |js| && js[i].Supports() && js[j].Supports() &&
          js[i].scenario != js[j].scenario;
      assert js[i] in ks && js[j] in ks;
      var k :| 0 <= k < |ks| && ks[k] == js[i];
      var l :| 0 <= l < |ks| && ks[l] == js[j];
    }
  }

  lemma CarryCover(vs: seq<Variation>, ws: seq<Variation>, weakness: string, nos: seq<nat>, mos: seq<nat>)
    requires forall v :: v in vs ==> v in ws
    requires forall n :: n in mos ==> n in nos
    ensures Covered(vs, weakness, nos) ==> Covered(ws, weakness, mos)
  {
    if n :| 0 <= n < |vs| && Covers(vs[n], weakness, nos) {
      assert vs[n] in ws;
      var m :| 0 <= m < |ws| && ws[m] == vs[n];
      forall k | 0 <= k < |mos|
        ensures mos[k] in ws[m].observationNos
      {
        assert mos[k] in nos;
      }
    }
  }

  lemma {:induction false} CarryVariety(x: Context, y: Context, js: seq<Judged>, ks: seq<Judged>)
    requires x.review == y.review && forall v :: v in x.variations ==> v in y.variations
    requires forall j :: j in js ==> j in ks
    requires |Supporting(js)| == |Supporting(ks)| && forall n :: n in Supporting(ks) ==> n in Supporting(js)
    ensures Varied(x, js) ==> Varied(y, ks)
  {
    CarryScenarios(js, ks);
    CarryCover(x.variations, y.variations, x.review.weakness, Supporting(js), Supporting(ks));
  }

  lemma ReorderedVerdicts(x: Context, y: Context, js: seq<Judged>, ks: seq<Judged>, d: Decision, d': Decision)
    requires x.review == y.review && x.observations == y.observations
    requires forall v :: v in x.variations <==> v in y.variations
    requires multiset(js) == multiset(ks) && Decides(x, js, d) && Decides(y, ks, d')
    ensures d.eligible == d'.eligible && d.codes == d'.codes
    ensures multiset(d.supporting) == multiset(d'.supporting) && multiset(d.excluded) == multiset(d'.excluded)
  {
    ListsAsBags(js);
    ListsAsBags(ks);
    BagPermutes(SupportOf, js, ks);
    BagPermutes(ExclusionOf, js, ks);
    SameMultisetSameMembers(Supporting(js), Supporting(ks));
    SameMultisetSameMembers(js, ks);
    forall c
      ensures c in d.codes <==> c in d'.codes
    {
      SameCodes(x, y, js, ks, c);
      SameCodes(y, x, ks, js, c);
    }
    AscendingUnique(d.codes, d'.codes);
  }

  // ----- reordered evidence

  predicate OneRecordPerAttempt(attempts: seq<AttemptEvidence>) {
    forall i, j :: 0 <= i < j < |attempts| ==> attempts[i].attemptNo != attempts[j].attemptNo
  }

  lemma {:induction false} EvidenceFound(attempts: seq<AttemptEvidence>, no: nat)
    ensures FindEvidence(attempts, no).Some? <==> exists k :: 0 <= k < |attempts| && attempts[k].attemptNo == no
    ensures FindEvidence(attempts, no).Some? ==>
              FindEvidence(attempts, no).value in attempts && FindEvidence(attempts, no).value.attemptNo == no
  {
    if attempts != [] && attempts[0].attemptNo != no {
      EvidenceFound(attempts[1..], no);
      if k :| 0 <= k < |attempts| && attempts[k].attemptNo == no {
        assert attempts[1..][k - 1] == attempts[k];
      }
    }
  }

  lemma {:induction false} FindIgnoresOrder(s: seq<AttemptEvidence>, t: seq<AttemptEvidence>, no: nat)
    requires OneRecordPerAttempt(s) && forall a :: a in s <==> a in t
    ensures FindEvidence(s, no) == FindEvidence(t, no)
  {
    EvidenceFound(s, no);
    EvidenceFound(t, no);
    if k :| 0 <= k < |s| && s[k].attemptNo == no {
      assert s[k] in t;
    }
    if k :| 0 <= k < |t| && t[k].attemptNo == no {
      assert t[k] in s;
    }
  }

  lemma JudgeIgnoresOrder(r: Session, e: Evidence, e': Evidence, review: Review, o: ObservationEvidence)
    requires OneRecordPerAttempt(e.attempts)
    requires forall a :: a in e.attempts <==> a in e'.attempts
    requires forall i :: i in e.interventions <==> i in e'.interventions
    ensures Judge(r, e, review, o) == Judge(r, e', review, o)
  {
    FindIgnoresOrder(e.attempts, e'.attempts, o.attemptNo);
    var a := FindEvidence(e.attempts, o.attemptNo);
    if a.Some? {
      ClassIgnoresOrder(r, e, e', a.value);
    }
  }

  lemma ClassIgnoresOrder(r: Session, e: Evidence, e': Evidence, a: AttemptEvidence)
    requires forall i :: i in e.interventions <==> i in e'.interventions
    ensures AttemptClass(r, e, a) == AttemptClass(r, e', a)
  {
    var attempt := FindAttempt(r.attempts, a.attemptNo);
    if attempt.Some? {
      var item := FindItem(r.items, attempt.value.itemNo);
      if item.Some? {
        ExposureCarries(e, e', a.attemptNo, Practised(item.value, attempt.value));
        ExposureCarries(e', e, a.attemptNo, Practised(item.value, attempt.value));
      }
    }
  }

  lemma ExposureCarries(e: Evidence, e': Evidence, attemptNo: nat, practised: seq<string>)
    requires forall i :: i in e.interventions ==> i in e'.interventions
    ensures Exposed(e, attemptNo, practised) ==> Exposed(e', attemptNo, practised)
  {
    if k :| 0 <= k < |e.interventions| && Touches(e.interventions[k], attemptNo, practised) {
      assert e.interventions[k] in e'.interventions;
    }
  }

  predicate Reordered(e: Evidence, e': Evidence) {
    && multiset(e.attempts) == multiset(e'.attempts) && multiset(e.observations) == multiset(e'.observations)
    && multiset(e.interventions) == multiset(e'.interventions) && multiset(e.variations) == multiset(e'.variations)
  }

  lemma ReorderedJudgements(r: Session, r': Session, e: Evidence, e': Evidence, review: Review)
    requires r' == r.(evidence := r'.evidence) && OneRecordPerAttempt(e.attempts) && Reordered(e, e')
    ensures multiset(Judgements(r, e, review)) == multiset(Judgements(r', e', review))
  {
    SameMultisetSameMembers(e.attempts, e'.attempts);
    SameMultisetSameMembers(e.interventions, e'.interventions);
    var ks := JudgeAll(r, e, review, e'.observations);
    forall k | 0 <= k < |ks|
      ensures Judgements(r', e', review)[k] == ks[k]
    {
      JudgeIgnoresOrder(r, e, e', review, e'.observations[k]);
      SameVerdictWithoutEvidenceField(r, r', e', review.weakness, e'.observations[k]);
    }
    assert Judgements(r', e', review) == ks;
    JudgementsAsBag(r, e, review, e.observations);
    JudgementsAsBag(r, e, review, e'.observations);
    BagPermutes(JudgedOne(r, e, review), e.observations, e'.observations);
  }

  // Reordering the evidence records in any way leaves the eligibility, the
  // sorted reason codes and the sets of observations unchanged.
  lemma OrderDoesNotMatter(r: Session, r': Session, e: Evidence, e': Evidence, review: Review, version: nat,
                           d: Decision, d': Decision)
    requires r.evidence == Some(e) && r' == r.(evidence := Some(e'))
    requires OneRecordPerAttempt(e.attempts) && Reordered(e, e')
    requires IsDecision(r, review, version, d) && IsDecision(r', review, version, d')
    ensures d.eligible == d'.eligible && d.codes == d'.codes
    ensures multiset(d.supporting) == multiset(d'.supporting) && multiset(d.excluded) == multiset(d'.excluded)
  {
    SameMultisetSameMembers(e.variations, e'.variations);
    ReorderedJudgements(r, r', e, e', review);
    assert AllObservations(r) == AllObservations(r');
    ReorderedVerdicts(Context(review, AllObservations(r), e.variations),
      Context(review, AllObservations(r), e'.variations),
                      Judgements(r, e, review), Judgements(r', e', review), d, d');
  }
}
