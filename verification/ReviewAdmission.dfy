// What a recording leaves behind: a row exactly for the reviews that both the
// eligibility rule and the rating policy let through, and what each row says
// (src/db.rs, record_practice).
module ReviewAdmission {
  import opened Outcomes
  import opened SessionModel
  import opened ReviewPolicy
  import opened ReviewDecisions
  import opened ReviewFairness
  import opened ReviewLedger
  import opened ReviewChain

  // ----- every proposed review has its decision

  const EVERY_CODE: seq<Code> :=
    [AssistedOrCued, AssistedRetry, FailureNotCited, FailureRequiresAgain, InsufficientRating, InsufficientVaried,
     InvalidAttempt, InvalidObservation, NotIndependentPhase, PromptSupplied, RatingConflicts, TargetNotObserved,
     UnknownAssistance]

  function RaisedAmong(x: Context, js: seq<Judged>, codes: seq<Code>): (r: seq<Code>)
    ensures forall c :: c in r <==> c in codes && Raised(x, js, c)
  {
    if codes == [] then []
    else
      var init, last := codes[..|codes| - 1], codes[|codes| - 1];
      assert codes == init + [last];
      RaisedAmong(x, js, init) + (if Raised(x, js, last) then [last] else [])
  }

  lemma {:induction false} RaisedAscend(x: Context, js: seq<Judged>, codes: seq<Code>)
    requires Ascending(codes)
    ensures Ascending(RaisedAmong(x, js, codes))
  {
    if codes != [] {
      var init, last := codes[..|codes| - 1], codes[|codes| - 1];
      RaisedAscend(x, js, init);
      forall i | 0 <= i < |RaisedAmong(x, js, init)|
        ensures Rank(RaisedAmong(x, js, init)[i]) < Rank(last)
      {
        assert RaisedAmong(x, js, init)[i] in init;
      }
    }
  }

  lemma EveryCodeIsListed()
    ensures Ascending(EVERY_CODE) && forall c :: c in EVERY_CODE
  {
    forall c
      ensures c in EVERY_CODE
    {
      assert EVERY_CODE[Rank(c)] == c;
    }
  }

  lemma DecisionExists(x: Context, js: seq<Judged>, version: nat) returns (d: Decision)
    ensures Decides(x, js, d) && d.weakness == x.review.weakness && d.policyVersion == version
  {
    var codes := RaisedAmong(x, js, EVERY_CODE);
    EveryCodeIsListed();
    RaisedAscend(x, js, EVERY_CODE);
    var eligible := |Supporting(js)| >= 2 && forall c :: c in codes ==> !Blocking(c);
    d := Decision(x.review.weakness, eligible, codes, Supporting(js), ExcludedNos(js), version);
  }

  // The reviews that may move the schedule are those whose decision is eligible
  // and whose supporting uses the rating policy accepts for the rating.
  lemma AdmittedMeans(rules: Rules, r: Session, review: Review, version: nat) returns (d: Decision)
    ensures IsDecision(r, review, version, d)
    ensures Admitted(rules, r, review) <==> d.eligible && rules.policy(r, review.(citations := d.supporting))
  {
    match r.evidence
    case None => d := Decision(review.weakness, false, [UnknownAssistance], [], review.citations, version);
    case Some(e) =>
      d := DecisionExists(Context(review, AllObservations(r), e.variations), Judgements(r, e, review), version);
      EligibleIff(Context(review, AllObservations(r), e.variations), Judgements(r, e, review), d);
  }

  lemma OneDecision(r: Session, review: Review, version: nat, d: Decision, d': Decision)
    requires IsDecision(r, review, version, d) && IsDecision(r, review, version, d')
    ensures d.eligible == d'.eligible && d.supporting == d'.supporting
  {
  }

  // The decision lets the review move the schedule.
  ghost predicate LetThrough(rules: Rules, x: Recording, m: Moment, review: Review, d: Decision) {
    && IsDecision(x.session, review, m.preferenceVersion, d) && d.eligible
    && rules.policy(x.session, review.(citations := d.supporting))
  }

  lemma AdmissionIsDecided(rules: Rules, x: Recording, m: Moment, k: nat, d: Decision)
    requires k < |x.session.reviews| && IsDecision(x.session, x.session.reviews[k], m.preferenceVersion, d)
    ensures Admissions(rules, x.session)[k] <==> LetThrough(rules, x, m, x.session.reviews[k], d)
  {
    var other := AdmittedMeans(rules, x.session, x.session.reviews[k], m.preferenceVersion);
    OneDecision(x.session, x.session.reviews[k], m.preferenceVersion, d, other);
  }

  // ----- the reviews of one request

  function AdmittedBefore(admits: seq<bool>, n: nat): nat
    requires n <= |admits|
  {
    if n == 0 then 0 else AdmittedBefore(admits, n - 1) + (if admits[n - 1] then 1 else 0)
  }

  lemma {:induction false} AdmittedAt(admits: seq<bool>, n: nat, i: nat) returns (k: nat)
    requires n <= |admits| && i < AdmittedBefore(admits, n)
    ensures k < n && admits[k] && AdmittedBefore(admits, k) == i
  {
    if i < AdmittedBefore(admits, n - 1) {
      k := AdmittedAt(admits, n - 1, i);
    } else {
      k := n - 1;
    }
  }

  // What an item shows before the request.
  function ItemBefore(book: Book, weakness: string): SchedulerItem {
    if weakness in book.items then book.items[weakness] else Uninitialised
  }

  // What taking review k left in p, which started from items.
  ghost predicate ReviewTaken(rules: Rules, r: Session, admits: seq<bool>, items: map<string, SchedulerItem>, sid: nat,
                              at: int, p: Progress, k: nat)
    requires k < |r.reviews| == |admits|
  {
    var w, i := r.reviews[k].weakness, AdmittedBefore(admits, k);
    && w in items && w in p.items && (forall j :: 0 <= j < k ==> r.reviews[j].weakness != w)
    && (if admits[k] then
          && i < |p.rows| && RowFor(rules, items[w], sid, at, r.reviews[k]) == Success(p.rows[i])
          && p.items[w] == Scheduled(p.rows[i].after, p.rows[i].due, p.rows[i].reviewedAt)
       else p.items[w] == items[w])
  }

  ghost predicate AllTaken(rules: Rules, r: Session, admits: seq<bool>, items: map<string, SchedulerItem>, sid: nat,
                           at: int, p: Progress, n: nat)
    requires n <= |r.reviews| == |admits|
  {
    && |p.rows| == AdmittedBefore(admits, n) && p.items.Keys == items.Keys
    && (forall k: nat :: k < n ==> ReviewTaken(rules, r, admits, items, sid, at, p, k))
    && forall w :: w in items && (forall k :: 0 <= k < n ==> r.reviews[k].weakness != w) ==> p.items[w] == items[w]
  }

  lemma {:induction false} ReviewsAreTaken(rules: Rules, r: Session, admits: seq<bool>,
                                           items: map<string, SchedulerItem>, sid: nat, at: int, n: nat)
    requires n <= |r.reviews| == |admits| && ApplyReviews(rules, r, admits, items, sid, at, n).Success?
    ensures AllTaken(rules, r, admits, items, sid, at, ApplyReviews(rules, r, admits, items, sid, at, n).value, n)
  {
    if n > 0 {
      ReviewsAreTaken(rules, r, admits, items, sid, at, n - 1);
      var p := ApplyReviews(rules, r, admits, items, sid, at, n - 1).value;
      var next := ApplyReviews(rules, r, admits, items, sid, at, n).value;
      LastTaken(rules, r, admits, items, sid, at, p, next, n);
    }
  }

  lemma LastTaken(rules: Rules, r: Session, admits: seq<bool>, items: map<string, SchedulerItem>, sid: nat, at: int,
                  p: Progress, next: Progress, n: nat)
    requires 0 < n <= |r.reviews| == |admits| && AllTaken(rules, r, admits, items, sid, at, p, n - 1)
    requires var review := r.reviews[n - 1];
             && (forall k :: 0 <= k < n - 1 ==> r.reviews[k].weakness != review.weakness) && review.weakness in p.items
             && (if admits[n - 1] then
                   var row := RowFor(rules, p.items[review.weakness], sid, at, review);
                   row.Success? && next == Moved(p, row.value)
                else next == p)
    ensures AllTaken(rules, r, admits, items, sid, at, next, n)
  {
    forall k: nat | k < n
      ensures ReviewTaken(rules, r, admits, items, sid, at, next, k)
    {
      if k < n - 1 {
        assert ReviewTaken(rules, r, admits, items, sid, at, p, k);
        EarlierFewer(admits, k, n - 1);
      }
    }
  }

  lemma {:induction false} EarlierFewer(admits: seq<bool>, k: nat, n: nat)
    requires k < n <= |admits|
    ensures AdmittedBefore(admits, k) + (if admits[k] then 1 else 0) <= AdmittedBefore(admits, n)
  {
    if k < n - 1 {
      EarlierFewer(admits, k, n - 1);
    }
  }

  // ----- a recording

  // The outcome of recording x as a new session.
  ghost predicate Recorded(rules: Rules, book: Book, x: Recording, m: Moment, next: Book, reply: Response) {
    x.session.key !in book.ledger && Record(rules, book, x, m) == (next, Success(reply))
  }

  ghost function TakenBy(rules: Rules, book: Book, x: Recording, m: Moment): Result<Progress, Error> {
    ApplyReviews(rules, x.session, Admissions(rules, x.session), WithNew(book.items, x.newWeaknesses), |book.sessions|,
      ReviewedAt(x, m), |x.session.reviews|)
  }

  lemma RecordingTakes(rules: Rules, book: Book, x: Recording, m: Moment, next: Book, reply: Response)
    requires Recorded(rules, book, x, m, next, reply)
    ensures TakenBy(rules, book, x, m).Success?
    ensures var p := TakenBy(rules, book, x, m).value;
            && next.items == p.items && next.reviews == book.reviews + p.rows
            && reply == Response(|book.sessions|, false, p.rows)
            && AllTaken(rules, x.session, Admissions(rules, x.session), WithNew(book.items, x.newWeaknesses),
                        |book.sessions|, ReviewedAt(x, m), p, |x.session.reviews|)
  {
    ReviewsAreTaken(rules, x.session, Admissions(rules, x.session), WithNew(book.items, x.newWeaknesses),
                    |book.sessions|, ReviewedAt(x, m), |x.session.reviews|);
  }

  // What a recording adds besides rows: one session, dated by its learning day,
  // the entry that replays it, and the new targets.
  lemma RecordingAdds(rules: Rules, book: Book, x: Recording, m: Moment, next: Book, reply: Response)
    requires Recorded(rules, book, x, m, next, reply) && rules.cutoff <= 24
    ensures var at := if x.reviewedAt.Some? then x.reviewedAt.value else m.now;
            next.sessions == book.sessions + [(rules.local(at) - 60 * rules.cutoff) / 1440]
    ensures next.ledger == book.ledger[x.session.key := Entry(x, reply)]
    ensures next.reviews == book.reviews + reply.updates && reply.session == |book.sessions| && !reply.replayed
    ensures forall w :: w in next.items <==> w in book.items || w in x.newWeaknesses
  {
    RecordingTakes(rules, book, x, m, next, reply);
    LearningDayIsShifted(rules, ReviewedAt(x, m));
  }

  // What a row says of its review: the item's state before, the days since its
  // last review, and the step and due day that follow from them.
  ghost predicate RowSays(rules: Rules, book: Book, x: Recording, m: Moment, review: Review, row: ReviewRow) {
    var item := ItemBefore(book, review.weakness);
    && row.weakness == review.weakness && row.rating == review.rating && row.session == |book.sessions|
    && row.reviewedAt == (match x.reviewedAt case Some(t) => t case None => m.now)
    && row.day == (rules.local(row.reviewedAt) - 60 * rules.cutoff) / 1440
    && (match item
        case Uninitialised => row.before == None && row.elapsed == 0
        case Scheduled(memory, _, last) =>
          row.before == Some(memory) && row.elapsed == row.day - (rules.local(last) - 60 * rules.cutoff) / 1440)
    && exists days: int ::
         && rules.next(row.before, row.elapsed, row.rating) == Success((row.after, days))
         && row.interval == (if days < 1 then 1 else days) && row.due == row.day + row.interval
  }

  lemma RowForSays(rules: Rules, book: Book, x: Recording, m: Moment, review: Review, row: ReviewRow)
    requires rules.cutoff <= 24
    requires RowFor(rules, ItemBefore(book, review.weakness), |book.sessions|, ReviewedAt(x, m), review) == Success(row)
    ensures RowSays(rules, book, x, m, review, row)
  {
    var item := ItemBefore(book, review.weakness);
    LearningDayIsShifted(rules, ReviewedAt(x, m));
    if item.Scheduled? {
      LearningDayIsShifted(rules, item.lastReview);
    }
    var days := rules.next(row.before, row.elapsed, row.rating).value.1;
    assert rules.next(row.before, row.elapsed, row.rating) == Success((row.after, days));
  }

  // Every row a recording adds comes from a review that was let through.
  lemma RowsWereLetThrough(rules: Rules, book: Book, x: Recording, m: Moment, next: Book, reply: Response, i: nat)
      returns (k: nat, d: Decision)
    requires Recorded(rules, book, x, m, next, reply) && rules.cutoff <= 24 && i < |reply.updates|
    ensures k < |x.session.reviews| && LetThrough(rules, x, m, x.session.reviews[k], d)
    ensures RowSays(rules, book, x, m, x.session.reviews[k], reply.updates[i])
  {
    RecordingTakes(rules, book, x, m, next, reply);
    var r, admits := x.session, Admissions(rules, x.session);
    var items, p := WithNew(book.items, x.newWeaknesses), TakenBy(rules, book, x, m).value;
    k := AdmittedAt(admits, |r.reviews|, i);
    d := AdmittedMeans(rules, r, r.reviews[k], m.preferenceVersion);
    assert ReviewTaken(rules, r, admits, items, |book.sessions|, ReviewedAt(x, m), p, k);
    RowForSays(rules, book, x, m, r.reviews[k], reply.updates[i]);
  }

  // Every review that is let through leaves exactly one row, and its item shows
  // the state of that row.
  lemma LetThroughLeavesRow(rules: Rules, book: Book, x: Recording, m: Moment, next: Book, reply: Response, k: nat,
                            d: Decision) returns (i: nat)
    requires Recorded(rules, book, x, m, next, reply) && rules.cutoff <= 24
    requires k < |x.session.reviews| && LetThrough(rules, x, m, x.session.reviews[k], d)
    ensures i < |reply.updates| && RowSays(rules, book, x, m, x.session.reviews[k], reply.updates[i])
    ensures forall j :: 0 <= j < |reply.updates| && reply.updates[j].weakness == x.session.reviews[k].weakness ==>
              j == i
    ensures var w, row := x.session.reviews[k].weakness, reply.updates[i];
            w in next.items && next.items[w] == Scheduled(row.after, row.due, row.reviewedAt)
  {
    RecordingTakes(rules, book, x, m, next, reply);
    AdmissionIsDecided(rules, x, m, k, d);
    var r, admits := x.session, Admissions(rules, x.session);
    var items, p := WithNew(book.items, x.newWeaknesses), TakenBy(rules, book, x, m).value;
    i := AdmittedBefore(admits, k);
    assert ReviewTaken(rules, r, admits, items, |book.sessions|, ReviewedAt(x, m), p, k);
    RowForSays(rules, book, x, m, r.reviews[k], reply.updates[i]);
    OneRowOf(rules, r, admits, items, |book.sessions|, ReviewedAt(x, m), p, k);
  }

  lemma {:induction false} OneRowOf(rules: Rules, r: Session, admits: seq<bool>, items: map<string, SchedulerItem>,
    sid: nat, at: int, p: Progress, k: nat)
    requires k < |r.reviews| == |admits| && AllTaken(rules, r, admits, items, sid, at, p, |r.reviews|)
    ensures forall j :: 0 <= j < |p.rows| && p.rows[j].weakness == r.reviews[k].weakness ==>
              admits[k] && j == AdmittedBefore(admits, k)
  {
    forall j | 0 <= j < |p.rows| && p.rows[j].weakness == r.reviews[k].weakness
      ensures admits[k] && j == AdmittedBefore(admits, k)
    {
      var l := AdmittedAt(admits, |r.reviews|, j);
      assert ReviewTaken(rules, r, admits, items, sid, at, p, l) && ReviewTaken(rules, r, admits, items, sid, at, p, k);
    }
  }

  // A review that is refused, by the rule or by the policy, leaves no row and its
  // item as it was.
  lemma RefusedLeavesItem(rules: Rules, book: Book, x: Recording, m: Moment, next: Book, reply: Response, k: nat,
                          d: Decision)
    requires Recorded(rules, book, x, m, next, reply) && k < |x.session.reviews|
    requires IsDecision(x.session, x.session.reviews[k], m.preferenceVersion, d)
    requires !d.eligible || !rules.policy(x.session, x.session.reviews[k].(citations := d.supporting))
    ensures var w := x.session.reviews[k].weakness;
            && w in next.items && next.items[w] == (if w in book.items then book.items[w] else Uninitialised)
            && forall j :: 0 <= j < |reply.updates| ==> reply.updates[j].weakness != w
  {
    RecordingTakes(rules, book, x, m, next, reply);
    AdmissionIsDecided(rules, x, m, k, d);
    var r, admits := x.session, Admissions(rules, x.session);
    var items, p := WithNew(book.items, x.newWeaknesses), TakenBy(rules, book, x, m).value;
    assert ReviewTaken(rules, r, admits, items, |book.sessions|, ReviewedAt(x, m), p, k);
    OneRowOf(rules, r, admits, items, |book.sessions|, ReviewedAt(x, m), p, k);
  }

  // A target without a review is not moved.
  lemma UnreviewedStays(rules: Rules, book: Book, x: Recording, m: Moment, next: Book, reply: Response, w: string)
    requires Recorded(rules, book, x, m, next, reply) && w in next.items
    requires forall k :: 0 <= k < |x.session.reviews| ==> x.session.reviews[k].weakness != w
    ensures next.items[w] == if w in book.items then book.items[w] else Uninitialised
  {
    RecordingTakes(rules, book, x, m, next, reply);
  }
}
