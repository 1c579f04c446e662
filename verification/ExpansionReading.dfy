// An expansion read back: from the numbers and lists of the canonical request
// alone, every nested element of the compact one is found again where it stood.
module ExpansionReading {
  import opened Outcomes
  import opened SessionModel
  import opened CompactRequest
  import opened Expansion
  import opened ExpansionChecks

  // ----- reading the canonical lists

  function Having<T>(list: seq<T>, p: T -> bool): seq<T> {
    if list == [] then []
    else Having(list[..|list| - 1], p) + (if p(list[|list| - 1]) then [list[|list| - 1]] else [])
  }

  lemma {:induction false} HavingNone<T>(list: seq<T>, p: T -> bool)
    requires forall i :: 0 <= i < |list| ==> !p(list[i])
    ensures Having(list, p) == []
  {
    if list != [] {
      HavingNone(list[..|list| - 1], p);
    }
  }

  lemma {:induction false} HavingAll<T>(list: seq<T>, p: T -> bool)
    requires forall i :: 0 <= i < |list| ==> p(list[i])
    ensures Having(list, p) == list
  {
    if list != [] {
      HavingAll(list[..|list| - 1], p);
    }
  }

  lemma {:induction false} HavingBoth<T>(xs: seq<T>, ys: seq<T>, p: T -> bool)
    ensures Having(xs + ys, p) == Having(xs, p) + Having(ys, p)
  {
    if ys == [] {
      assert xs + ys == xs;
    } else {
      assert (xs + ys)[..|xs + ys| - 1] == xs + ys[..|ys| - 1];
      HavingBoth(xs, ys[..|ys| - 1], p);
    }
  }

  lemma HavingParts<T>(before: seq<T>, block: seq<T>, after: seq<T>, p: T -> bool)
    requires (forall i :: 0 <= i < |before| ==> !p(before[i])) && forall i :: 0 <= i < |block| ==> p(block[i])
    requires forall i :: 0 <= i < |after| ==> !p(after[i])
    ensures Having(before + block + after, p) == block
  {
    HavingNone(before, p);
    HavingAll(block, p);
    HavingNone(after, p);
    HavingBoth(before, block, p);
    HavingBoth(before + block, after, p);
  }

  lemma HavingBlock<T>(list: seq<T>, p: T -> bool, lo: nat, hi: nat)
    requires lo <= hi <= |list| && forall i :: 0 <= i < |list| ==> (p(list[i]) <==> lo <= i < hi)
    ensures Having(list, p) == list[lo..hi]
  {
    OutsideBlock(list, p, lo, hi);
    HavingParts(list[..lo], list[lo..hi], list[hi..], p);
    assert list[..lo] + list[lo..hi] + list[hi..] == list;
  }

  lemma OutsideBlock<T>(list: seq<T>, p: T -> bool, lo: nat, hi: nat)
    requires lo <= hi <= |list| && forall i :: 0 <= i < |list| ==> (p(list[i]) <==> lo <= i < hi)
    ensures (forall i :: 0 <= i < lo ==> !p(list[..lo][i])) && forall i :: 0 <= i < hi - lo ==> p(list[lo..hi][i])
    ensures forall i :: 0 <= i < |list| - hi ==> !p(list[hi..][i])
  {
  }

  function OfItem(no: nat): Attempt -> bool {
    (x: Attempt) => x.itemNo == Some(no)
  }

  function OfAttempt(no: nat): Finding -> bool {
    (f: Finding) => f.attemptNo == Some(no)
  }

  function After(no: nat): Intervention -> bool {
    (i: Intervention) => i.afterNo == no
  }

  // Attempt number no is attempt a of item t: it names that item, and a attempts
  // up to it do.
  predicate Stands(attempts: seq<Attempt>, no: nat, r: AttemptRef) {
    && 1 <= no <= |attempts| && attempts[no - 1].itemNo == Some(r.turn)
    && |Having(attempts[..no], OfItem(r.turn))| == r.attempt
  }

  // Observation number no is observation o of that attempt.
  ghost predicate Names(attempts: seq<Attempt>, no: nat, r: ObservationRef) {
    exists m: nat :: Stands(attempts, m, AttemptRef(r.turn, r.attempt)) && NamedIn(attempts[m - 1], no, r.observation)
  }

  predicate NamedIn(x: Attempt, no: nat, o: nat) {
    1 <= o <= |x.observations| && x.observations[o - 1].no == no
  }

  lemma {:induction false} HavingGrows<T>(list: seq<T>, p: T -> bool, m: nat, n: nat)
    requires m <= n <= |list|
    ensures |Having(list[..m], p)| <= |Having(list[..n], p)|
    ensures m < n && p(list[n - 1]) ==> |Having(list[..m], p)| < |Having(list[..n], p)|
  {
    if m < n {
      assert list[..n][..n - 1] == list[..n - 1];
      HavingGrows(list, p, m, n - 1);
    }
  }

  // No two attempts stand in one place.
  lemma OnePlaceEach(attempts: seq<Attempt>, m: nat, n: nat, r: AttemptRef)
    requires Stands(attempts, m, r) && Stands(attempts, n, r)
    ensures m == n
  {
    if m < n {
      HavingGrows(attempts, OfItem(r.turn), m, n);
    } else if n < m {
      HavingGrows(attempts, OfItem(r.turn), n, m);
    }
  }

  // ----- what is read

  predicate ObservationRead(x: Observation, c: CompactObservation) {
    && x.weakness == c.weakness && x.outcome == c.outcome
    && x.role == (match c.role case Some(role) => role case None => Incidental)
    && x.phase == c.phase && x.hint == c.hint && x.effort == c.effort && x.details == c.details
  }

  predicate AttemptRead(x: Attempt, at: CompactAttempt) {
    && x.transcript == at.transcript && x.timing == at.timing
    && x.reportedEffort == (match at.evidence case Some(e) => e.effort case None => None)
    && |x.observations| == |at.observations|
    && forall o :: 0 <= o < |at.observations| ==> ObservationRead(x.observations[o], at.observations[o])
  }

  predicate FindingsRead(found: seq<Finding>, t: nat, at: CompactAttempt) {
    && |found| == |at.findings|
    && forall i :: 0 <= i < |found| ==>
         found[i].itemNo == Some(t + 1) && found[i].body == at.findings[i].body &&
           found[i].original == at.findings[i].original
  }

  // x is attempt a of turn t.
  ghost predicate OwnRead(out: Session, turn: Turn, t: nat, x: Attempt, a: nat) {
    && a < |turn.attempts| && AttemptRead(x, turn.attempts[a])
    && Stands(out.attempts, x.no, AttemptRef(t + 1, a + 1)) && out.attempts[x.no - 1] == x
    && FindingsRead(Having(out.findings, OfAttempt(x.no)), t, turn.attempts[a])
  }

  ghost predicate TurnRead(out: Session, turn: Turn, t: nat) {
    && t < |out.items| && out.items[t].no == t + 1 && out.items[t].drill == turn.drill
    && out.items[t].prompt == turn.prompt && out.items[t].targets == turn.targets && out.items[t].observations == []
    && var own := Having(out.attempts, OfItem(t + 1));
       |own| == |turn.attempts| && forall a :: 0 <= a < |own| ==> OwnRead(out, turn, t, own[a], a)
  }

  // ----- attempts

  lemma ItemBlock(turns: seq<Turn>, attempts: seq<Attempt>, t: nat, n: nat)
    requires Filled(Attempts, turns, attempts, AttemptAt(turns), |turns|, 0) && t < |turns|
    requires InTurns(Attempts, turns, t) <= n <= InTurns(Attempts, turns, t + 1) <= |attempts|
    ensures Having(attempts[..n], OfItem(t + 1)) == attempts[InTurns(Attempts, turns, t)..n]
  {
    var list := attempts[..n];
    forall i | 0 <= i < |list|
      ensures OfItem(t + 1)(list[i]) <==> InTurns(Attempts, turns, t) <= i < n
    {
      var u, b := AttemptPlace(turns, attempts, i);
      AttemptsCountThemselves(turns[u].attempts, b);
      AttemptsCountThemselves(turns[u].attempts, |turns[u].attempts|);
      if u < t {
        InTurnsGrows(Attempts, turns, u + 1, t);
      } else if u > t {
        InTurnsGrows(Attempts, turns, t + 1, u);
      }
    }
    HavingBlock(list, OfItem(t + 1), InTurns(Attempts, turns, t), n);
    assert list[InTurns(Attempts, turns, t)..n] == attempts[InTurns(Attempts, turns, t)..n];
  }

  lemma TurnSpan(turns: seq<Turn>, t: nat)
    requires t < |turns|
    ensures InTurns(Attempts, turns, t + 1) == InTurns(Attempts, turns, t) + |turns[t].attempts|
    ensures InTurns(Attempts, turns, t + 1) <= Total(Attempts, turns)
    ensures forall a: nat :: a < |turns[t].attempts| ==> AttemptNo(turns, t, a) == InTurns(Attempts, turns, t) + a + 1
  {
    AttemptsCountThemselves(turns[t].attempts, |turns[t].attempts|);
    InTurnsGrows(Attempts, turns, t + 1, |turns|);
    forall a: nat | a < |turns[t].attempts|
      ensures AttemptNo(turns, t, a) == InTurns(Attempts, turns, t) + a + 1
    {
      AttemptsCountThemselves(turns[t].attempts, a);
    }
  }

  // The number given to an attempt stands where the attempt stood.
  lemma NumberStands(turns: seq<Turn>, attempts: seq<Attempt>, t: nat, a: nat)
    requires Filled(Attempts, turns, attempts, AttemptAt(turns), |turns|, 0) && Valid(turns, t, a)
    ensures Stands(attempts, AttemptNo(turns, t, a), AttemptRef(t + 1, a + 1))
    ensures attempts[AttemptNo(turns, t, a) - 1] == AttemptAt(turns)(t, a, 0)
  {
    AttemptStands(turns, attempts, t, a);
    TurnSpan(turns, t);
    ItemBlock(turns, attempts, t, AttemptNo(turns, t, a));
  }

  lemma AttemptIsRead(turns: seq<Turn>, t: nat, a: nat)
    requires Valid(turns, t, a)
    ensures Inside(Attempts, turns, t, a, 0) && AttemptRead(AttemptAt(turns)(t, a, 0), turns[t].attempts[a])
  {
    assert Inside(Attempts, turns, t, a, 0);
  }

  // ----- findings

  lemma {:induction false} FindingsOfAttempt(turns: seq<Turn>, findings: seq<Finding>, t: nat, a: nat)
    requires Filled(Findings, turns, findings, FindingAt(turns), |turns|, 0) && Valid(turns, t, a)
    ensures FindingsRead(Having(findings, OfAttempt(AttemptNo(turns, t, a))), t, turns[t].attempts[a])
  {
    var lo, no := Offset(Findings, turns, t, a), AttemptNo(turns, t, a);
    var hi := lo + |turns[t].attempts[a].findings|;
    OffsetsAscend(Findings, turns, t, a, t, a);
    forall i | 0 <= i < |findings|
      ensures OfAttempt(no)(findings[i]) <==> lo <= i < hi
    {
      FindingOwner(turns, findings, i, t, a);
    }
    HavingBlock(findings, OfAttempt(no), lo, hi);
    forall i | 0 <= i < hi - lo
      ensures findings[lo..hi][i] == FindingAt(turns)(t, a, i)
    {
      assert Inside(Findings, turns, t, a, i) && Earlier(t, a, |turns|, 0);
    }
  }

  lemma FindingOwner(turns: seq<Turn>, findings: seq<Finding>, i: nat, t: nat, a: nat)
    requires Filled(Findings, turns, findings, FindingAt(turns), |turns|, 0) && Valid(turns, t, a) && i < |findings|
    ensures findings[i].attemptNo == Some(AttemptNo(turns, t, a)) <==>
            Offset(Findings, turns, t, a) <= i < Offset(Findings, turns, t, a) + |turns[t].attempts[a].findings|
  {
    var u, b := LocateInTurns(Findings, turns, |turns|, i);
    assert Inside(Findings, turns, u, b, i - Offset(Findings, turns, u, b)) && Earlier(u, b, |turns|, 0);
    assert findings[i].attemptNo == Some(AttemptNo(turns, u, b));
    AttemptNoInjective(turns, u, b, t, a);
    OffsetsAscend(Findings, turns, u, b, t, a);
    OffsetsAscend(Findings, turns, t, a, u, b);
  }

  // Every turn is read back whole: its item, its attempts in order with their
  // observations, and the findings on each.
  lemma TurnsAreRead(req: Compact, out: Session, t: nat)
    requires IsExpansion(req, out) && t < |req.turns|
    ensures out.key == req.key && |out.items| == |req.turns| && |out.observations| == 0
    ensures TurnRead(out, req.turns[t], t)
  {
    var turns := req.turns;
    WholeItem(turns, out.attempts, t);
    TurnSpan(turns, t);
    var own := Having(out.attempts, OfItem(t + 1));
    forall a | 0 <= a < |own|
      ensures OwnRead(out, turns[t], t, own[a], a)
    {
      OwnIsRead(turns, out, t, a);
    }
  }

  lemma OwnIsRead(turns: seq<Turn>, out: Session, t: nat, a: nat)
    requires Filled(Attempts, turns, out.attempts, AttemptAt(turns), |turns|, 0) && Valid(turns, t, a)
    requires Filled(Findings, turns, out.findings, FindingAt(turns), |turns|, 0)
    ensures a < |Having(out.attempts, OfItem(t + 1))|
    ensures OwnRead(out, turns[t], t, Having(out.attempts, OfItem(t + 1))[a], a)
  {
    TurnSpan(turns, t);
    WholeItem(turns, out.attempts, t);
    NumberStands(turns, out.attempts, t, a);
    AttemptIsRead(turns, t, a);
    FindingsOfAttempt(turns, out.findings, t, a);
  }

  lemma WholeItem(turns: seq<Turn>, attempts: seq<Attempt>, t: nat)
    requires Filled(Attempts, turns, attempts, AttemptAt(turns), |turns|, 0) && t < |turns|
    ensures InTurns(Attempts, turns, t) <= InTurns(Attempts, turns, t + 1) <= |attempts|
    ensures Having(attempts, OfItem(t + 1)) ==
            attempts[InTurns(Attempts, turns, t)..InTurns(Attempts, turns, t + 1)]
  {
    var lo, hi := InTurns(Attempts, turns, t), InTurns(Attempts, turns, t + 1);
    TurnSpan(turns, t);
    forall i | 0 <= i < |attempts|
      ensures OfItem(t + 1)(attempts[i]) <==> lo <= i < hi
    {
      var u, b := AttemptPlace(turns, attempts, i);
      TurnSpan(turns, u);
      if u < t {
        InTurnsGrows(Attempts, turns, u + 1, t);
      } else if u > t {
        InTurnsGrows(Attempts, turns, t + 1, u);
      }
    }
    HavingBlock(attempts, OfItem(t + 1), lo, hi);
  }

  // ----- references

  // What a list of references became names, one by one, what they named.
  ghost predicate Cites(req: Compact, out: Session, nos: seq<nat>, refs: seq<ObservationRef>) {
    && |nos| == |refs|
    && forall j :: 0 <= j < |refs| ==> CitesOne(req, out, nos[j], refs[j])
  }

  ghost predicate CitesOne(req: Compact, out: Session, no: nat, r: ObservationRef) {
    && Names(out.attempts, no, r) && 1 <= no <= |AllObservations(out)| && AllObservations(out)[no - 1].no == no
    && 1 <= r.turn <= |req.turns| && 1 <= r.attempt <= |req.turns[r.turn - 1].attempts|
    && 1 <= r.observation <= |req.turns[r.turn - 1].attempts[r.attempt - 1].observations|
    && ObservationRead(AllObservations(out)[no - 1],
                       req.turns[r.turn - 1].attempts[r.attempt - 1].observations[r.observation - 1])
  }

  // A reference is read back from the number it became, in full.
  lemma ReferenceIsRead(req: Compact, out: Session, r: ObservationRef)
    requires IsExpansion(req, out) && ObservationRefOk(req.turns, r)
    ensures CitesOne(req, out, CitedObservation(req.turns, r), r)
  {
    NumberNames(req.turns, out.attempts, r);
    StandsByNumber(req, out, AttemptNo(req.turns, r.turn - 1, r.attempt - 1) - 1, r.observation - 1);
  }

  lemma StandsByNumber(req: Compact, out: Session, m: nat, o: nat)
    requires IsExpansion(req, out) && m < |out.attempts| && o < |out.attempts[m].observations|
    ensures var x := out.attempts[m].observations[o];
            1 <= x.no <= |AllObservations(out)| && AllObservations(out)[x.no - 1] == x
  {
    ObservationsInOrder(req, out);
    NoItemObservations(out.items);
    var i := NestedStands(out.attempts, m, o);
    assert AllObservations(out)[i].no == i + 1;
  }

  lemma NumberNames(turns: seq<Turn>, attempts: seq<Attempt>, r: ObservationRef)
    requires Filled(Attempts, turns, attempts, AttemptAt(turns), |turns|, 0) && ObservationRefOk(turns, r)
    ensures Names(attempts, CitedObservation(turns, r), r)
    ensures var m := AttemptNo(turns, r.turn - 1, r.attempt - 1);
            && 1 <= m <= |attempts| && NamedIn(attempts[m - 1], CitedObservation(turns, r), r.observation)
            && ObservationRead(attempts[m - 1].observations[r.observation - 1],
                               turns[r.turn - 1].attempts[r.attempt - 1].observations[r.observation - 1])
  {
    var t, a := r.turn - 1, r.attempt - 1;
    NumberStands(turns, attempts, t, a);
    AttemptIsRead(turns, t, a);
    assert NamedIn(attempts[AttemptNo(turns, t, a) - 1], CitedObservation(turns, r), r.observation);
  }

  lemma {:induction false} NestedStands(attempts: seq<Attempt>, m: nat, o: nat) returns (i: nat)
    requires m < |attempts| && o < |attempts[m].observations|
    ensures i < |AttemptObservations(attempts)| && AttemptObservations(attempts)[i] == attempts[m].observations[o]
  {
    if m == 0 {
      i := o;
    } else {
      var j := NestedStands(attempts[1..], m - 1, o);
      i := |attempts[0].observations| + j;
    }
  }

  lemma NosCite(req: Compact, out: Session, refs: seq<ObservationRef>)
    requires IsExpansion(req, out) && forall j :: 0 <= j < |refs| ==> ObservationRefOk(req.turns, refs[j])
    ensures Cites(req, out, Nos(req.turns, refs), refs)
  {
    forall j | 0 <= j < |refs|
      ensures CitesOne(req, out, Nos(req.turns, refs)[j], refs[j])
    {
      ReferenceIsRead(req, out, refs[j]);
    }
  }

  // Distinct references have distinct numbers: a number names one observation.
  lemma NumbersTellApart(req: Compact, out: Session, no: nat, r: ObservationRef, s: ObservationRef)
    requires IsExpansion(req, out) && CitesOne(req, out, no, r) && CitesOne(req, out, no, s)
    ensures r == s
  {
    NamedNumber(req.turns, out.attempts, no, r);
    NamedNumber(req.turns, out.attempts, no, s);
    var t, a, o := ObservationNumbersInOrder(req.turns, no);
  }

  lemma NamedNumber(turns: seq<Turn>, attempts: seq<Attempt>, no: nat, r: ObservationRef)
    requires Filled(Attempts, turns, attempts, AttemptAt(turns), |turns|, 0)
    requires ObservationRefOk(turns, r) && Names(attempts, no, r)
    ensures no == ObservationNo(turns, r.turn - 1, r.attempt - 1, r.observation - 1) <= Total(Observations, turns)
  {
    var t, a := r.turn - 1, r.attempt - 1;
    var m: nat :| Stands(attempts, m, AttemptRef(r.turn, r.attempt)) && NamedIn(attempts[m - 1], no, r.observation);
    NumberStands(turns, attempts, t, a);
    OnePlaceEach(attempts, m, AttemptNo(turns, t, a), AttemptRef(r.turn, r.attempt));
    OffsetsAscend(Observations, turns, t, a, t, a);
  }

  // Every review is carried over, its citations naming the observations its
  // references named.
  lemma ReviewsAreRead(req: Compact, out: Session, k: nat)
    requires IsExpansion(req, out) && k < |req.reviews|
    ensures |out.reviews| == |req.reviews|
    ensures var r, x := req.reviews[k], out.reviews[k];
            && x.weakness == r.target && x.rating == r.rating && x.rationale == r.rationale && x.details == r.details
            && Cites(req, out, x.citations, r.refs)
  {
    NosCite(req, out, req.reviews[k].refs);
  }

  // Every task assessment is carried over, for the attempt its reference named.
  lemma AssessmentsAreRead(req: Compact, out: Session, k: nat)
    requires IsExpansion(req, out) && k < |req.assessments|
    ensures |out.assessments| == |req.assessments|
    ensures var s, x := req.assessments[k], out.assessments[k];
            x.point == s.point && x.details == s.details && Stands(out.attempts, x.attemptNo, s.attempt)
  {
    var r := req.assessments[k].attempt;
    NumberStands(req.turns, out.attempts, r.turn - 1, r.attempt - 1);
  }
}
