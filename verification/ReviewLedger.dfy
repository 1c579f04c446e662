// Recording a practice session: the idempotency ledger and the review rows that
// drive the scheduler (src/db.rs, record_practice).
module ReviewLedger {
  import opened Outcomes
  import opened SessionModel
  import opened CanonicalChecks
  import opened ReviewPolicy
  import opened ReviewDecisions
  import opened ReviewFairness

  datatype Memory = Memory(stability: real, difficulty: real)

  // The parts of the program that are fixed configuration or another crate: the
  // spaced-repetition step with its unrounded-down interval, the rating policy,
  // the time zone as a map from UTC to local minutes, and the cut-off hour.
  datatype Rules = Rules(
    next: (Option<Memory>, nat, Rating) -> Result<(Memory, int), string>,
    policy: (Session, Review) -> bool,
    local: int -> int,
    cutoff: nat)

  // Late evening practice belongs to the day before the cut-off hour.
  function LearningDay(rules: Rules, t: int): int {
    var local := rules.local(t);
    if (local % 1440) / 60 < rules.cutoff then local / 1440 - 1 else local / 1440
  }

  // schedule: never less than a day.
  function Schedule(rules: Rules, before: Option<Memory>, elapsed: nat, rating: Rating): (r: Result<(Memory, nat),
                    string>)
    ensures r.Success? ==> r.value.1 >= 1
  {
    var next := rules.next(before, elapsed, rating);
    if next.Failure? then Failure(next.error)
    else Success((next.value.0, if next.value.1 < 1 then 1 else next.value.1))
  }

  datatype Recording = Recording(
    session: Session, newWeaknesses: seq<string>, reviewedAt: Option<int>, sessionDay: Option<int>, bytes: nat,
      other: Details)

  datatype ReviewRow = ReviewRow(
    weakness: string, session: nat, reviewedAt: int, day: int, rating: Rating, elapsed: nat,
    before: Option<Memory>, after: Memory, interval: nat, due: int)

  datatype SchedulerItem = Uninitialised | Scheduled(memory: Memory, due: int, lastReview: int)

  datatype Response = Response(session: nat, replayed: bool, updates: seq<ReviewRow>)

  // The stored request stands for its hash.
  datatype Entry = Entry(request: Recording, response: Response)

  // A learner's book; a session's identifier is its position.
  datatype Book = Book(
    ledger: map<string, Entry>, sessions: seq<int>, items: map<string, SchedulerItem>, reviews: seq<ReviewRow>)

  datatype Error = InvalidRequest | UnknownKey | IdempotencyConflict | Internal

  // The clock and the stored preference version at the time of a call.
  datatype Moment = Moment(now: int, preferenceVersion: nat)

  // ----- preconditions of a recording

  predicate Known(items: map<string, SchedulerItem>, added: seq<string>, key: string) {
    key in items || key in added
  }

  predicate KeysKnown(items: map<string, SchedulerItem>, x: Recording) {
    var r, added := x.session, x.newWeaknesses;
    && (forall i, k :: 0 <= i < |r.items| && 0 <= k < |r.items[i].targets| ==>
         Known(items, added, r.items[i].targets[k]))
    && (forall o :: 0 <= o < |AllObservations(r)| ==> Known(items, added, AllObservations(r)[o].weakness))
    && (forall k :: 0 <= k < |r.reviews| ==> Known(items, added, r.reviews[k].weakness))
    && (r.evidence.Some? ==>
          && (forall k :: 0 <= k < |r.evidence.value.opportunities| ==>
               Known(items, added, r.evidence.value.opportunities[k].weakness))
          && (forall i, k ::
                0 <= i < |r.evidence.value.interventions| && 0 <= k < |r.evidence.value.interventions[i].targets| ==>
                  Known(items, added, r.evidence.value.interventions[i].targets[k])))
  }

  predicate Distinct(keys: seq<string>) {
    forall i, j :: 0 <= i < j < |keys| ==> keys[i] != keys[j]
  }

  function ReviewedAt(x: Recording, m: Moment): int {
    if x.reviewedAt.Some? then x.reviewedAt.value else m.now
  }

  predicate DaysAgree(rules: Rules, x: Recording, m: Moment) {
    var reviewDay := LearningDay(rules, ReviewedAt(x, m));
    var day := if x.sessionDay.Some? then x.sessionDay.value else reviewDay;
    if x.reviewedAt.None? then day == LearningDay(rules, m.now) else day == reviewDay
  }

  predicate VersionAgrees(x: Recording, m: Moment) {
    x.session.evidence.Some? ==> x.session.evidence.value.policyVersion == m.preferenceVersion
  }

  predicate Acceptable(rules: Rules, items: map<string, SchedulerItem>, x: Recording, m: Moment) {
    VersionAgrees(x, m) && DaysAgree(rules, x, m) && KeysKnown(items, x) && Distinct(x.newWeaknesses)
  }

  function WithNew(items: map<string, SchedulerItem>, added: seq<string>): map<string, SchedulerItem> {
    map key | key in items.Keys + (set key | key in added) :: if key in items then items[key] else Uninitialised
  }

  // ----- reviews

  // review_decision calls the review eligible.
  ghost predicate Eligible(r: Session, review: Review) {
    r.evidence.Some?
    && Deserves(Context(review, AllObservations(r), r.evidence.value.variations),
       Judgements(r, r.evidence.value, review))
  }

  // Both the eligibility rule and the rating policy let the review through.
  ghost predicate Admitted(rules: Rules, r: Session, review: Review) {
    Eligible(r, review) && rules.policy(r, review.(citations := SupportingOf(r, review)))
  }

  function SupportingOf(r: Session, review: Review): seq<nat> {
    if r.evidence.None? then [] else Supporting(Judgements(r, r.evidence.value, review))
  }

  // The reviews that may move the schedule.
  ghost function Admissions(rules: Rules, r: Session): seq<bool> {
    seq(|r.reviews|, k requires 0 <= k < |r.reviews| => Admitted(rules, r, r.reviews[k]))
  }

  predicate TargetsDeclared(r: Session, weakness: string) {
    exists i :: 0 <= i < |r.items| && weakness in r.items[i].targets
  }

  function ElapsedSince(rules: Rules, item: SchedulerItem, reviewedAt: int): int {
    if item.Uninitialised? then 0 else LearningDay(rules, reviewedAt) - LearningDay(rules, item.lastReview)
  }

  function MemoryOf(item: SchedulerItem): Option<Memory> {
    if item.Uninitialised? then None else Some(item.memory)
  }

  function RowFor(rules: Rules, item: SchedulerItem, sid: nat, reviewedAt: int,
                  review: Review): Result<ReviewRow, Error> {
    var elapsed := ElapsedSince(rules, item, reviewedAt);
    if elapsed < 0 then Failure(InvalidRequest)
    else
      var next := Schedule(rules, MemoryOf(item), elapsed, review.rating);
      if next.Failure? then Failure(Internal)
      else
        var day := LearningDay(rules, reviewedAt);
        Success(ReviewRow(review.weakness, sid, reviewedAt, day, review.rating, elapsed, MemoryOf(item),
                          next.value.0, next.value.1, day + next.value.1))
  }

  datatype Progress = Progress(items: map<string, SchedulerItem>, rows: seq<ReviewRow>)

  function Moved(p: Progress, row: ReviewRow): Progress {
    Progress(p.items[row.weakness := Scheduled(row.after, row.due, row.reviewedAt)], p.rows + [row])
  }

  // The first n reviews of a request, in order.
  function ApplyReviews(rules: Rules, r: Session, admits: seq<bool>, items: map<string, SchedulerItem>, sid: nat,
                        reviewedAt: int, n: nat)
    : Result<Progress, Error>
    requires n <= |r.reviews| == |admits|
  {
    if n == 0 then Success(Progress(items, []))
    else
      var earlier := ApplyReviews(rules, r, admits, items, sid, reviewedAt, n - 1);
      var review := r.reviews[n - 1];
      if earlier.Failure? then earlier
      else if exists k :: 0 <= k < n - 1 && r.reviews[k].weakness == review.weakness then Failure(InvalidRequest)
      else if review.weakness !in earlier.value.items then Failure(UnknownKey)
      else if !TargetsDeclared(r, review.weakness) then Failure(InvalidRequest)
      else if !admits[n - 1] then earlier
      else
        var row := RowFor(rules, earlier.value.items[review.weakness], sid, reviewedAt, review);
        if row.Failure? then Failure(row.error) else Success(Moved(earlier.value, row.value))
  }

  // ----- recording

  ghost function Commit(rules: Rules, book: Book, x: Recording, m: Moment): Result<(Book, Response), Error> {
    if !Acceptable(rules, book.items, x, m) then Failure(InvalidRequest)
    else
      var sid := |book.sessions|;
      var done := ApplyReviews(rules, x.session, Admissions(rules, x.session), WithNew(book.items, x.newWeaknesses),
          sid,
                               ReviewedAt(x, m), |x.session.reviews|);
      if done.Failure? then Failure(done.error)
      else
        var response := Response(sid, false, done.value.rows);
        Success((Book(book.ledger[x.session.key := Entry(x, response)],
                      book.sessions + [LearningDay(rules, ReviewedAt(x, m))],
                      done.value.items, book.reviews + done.value.rows), response))
  }

  predicate RequestOk(x: Recording) {
    NumbersAndLinks(x.session) && EvidenceValid(x.session) && x.bytes <= 65536
  }

  // A known key replays or conflicts; anything else is recorded whole or not at all.
  ghost function Record(rules: Rules, book: Book, x: Recording, m: Moment): (Book, Result<Response, Error>) {
    if !RequestOk(x) then (book, Failure(InvalidRequest))
    else if x.session.key in book.ledger then
      var entry := book.ledger[x.session.key];
      (book, if entry.request != x then Failure(IdempotencyConflict) else Success(entry.response.(replayed := true)))
    else
      var c := Commit(rules, book, x, m);
      if c.Failure? then (book, Failure(c.error)) else (c.value.0, Success(c.value.1))
  }

  datatype Call = Call(x: Recording, m: Moment)

  ghost function Run(rules: Rules, book: Book, calls: seq<Call>): Book
    decreases |calls|
  {
    if calls == [] then book else Run(rules, Record(rules, book, calls[0].x, calls[0].m).0, calls[1..])
  }
}
