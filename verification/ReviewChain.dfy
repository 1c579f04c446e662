// Over any run of recordings: one session per idempotency key, replays that
// change nothing, and an unbroken chain of review states per scheduler item.
module ReviewChain {
  import opened Outcomes
  import opened SessionModel
  import opened ReviewFairness
  import opened ReviewLedger

  // ----- the learning day

  // The branch on the hour is a shift of the day boundary by the cut-off.
  lemma LearningDayIsShifted(rules: Rules, t: int)
    requires rules.cutoff <= 24
    ensures LearningDay(rules, t) == (rules.local(t) - 60 * rules.cutoff) / 1440
  {
    var local, c := rules.local(t), 60 * rules.cutoff;
    var d, m := local / 1440, local % 1440;
    assert m / 60 < rules.cutoff <==> m < c;
    if m < c {
      assert local - c == 1440 * (d - 1) + (m - c + 1440);
    } else {
      assert local - c == 1440 * d + (m - c);
    }
  }

  // ----- the chain of one item

  function History(rows: seq<ReviewRow>, weakness: string): seq<ReviewRow> {
    if rows == [] then []
    else
      var last := rows[|rows| - 1];
      History(rows[..|rows| - 1], weakness) + (if last.weakness == weakness then [last] else [])
  }

  ghost predicate Linked(rules: Rules, before: Option<ReviewRow>, row: ReviewRow) {
    && row.day == LearningDay(rules, row.reviewedAt)
    && row.before == (if before.Some? then Some(before.value.after) else None)
    && row.elapsed == (if before.Some? then row.day - before.value.day else 0)
    && Schedule(rules, row.before, row.elapsed, row.rating) == Success((row.after, row.interval))
    && row.due == row.day + row.interval
  }

  function Previous(h: seq<ReviewRow>, i: nat): Option<ReviewRow>
    requires i <= |h|
  {
    if i == 0 then None else Some(h[i - 1])
  }

  // Each review takes up the state the previous one left.
  ghost predicate Chain(rules: Rules, h: seq<ReviewRow>) {
    h == [] || (Chain(rules, h[..|h| - 1]) && Linked(rules, Previous(h, |h| - 1), h[|h| - 1]))
  }

  predicate CachedItem(item: SchedulerItem, h: seq<ReviewRow>) {
    if h == [] then item.Uninitialised?
    else item == Scheduled(h[|h| - 1].after, h[|h| - 1].due, h[|h| - 1].reviewedAt)
  }

  ghost predicate ItemOk(rules: Rules, items: map<string, SchedulerItem>, rows: seq<ReviewRow>, weakness: string) {
    && Chain(rules, History(rows, weakness))
    && (if weakness in items then CachedItem(items[weakness], History(rows, weakness))
       else History(rows, weakness) == [])
  }

  ghost predicate Chained(rules: Rules, items: map<string, SchedulerItem>, rows: seq<ReviewRow>) {
    forall w: string :: ItemOk(rules, items, rows, w)
  }

  lemma {:induction false} HistoryGrows(rows: seq<ReviewRow>, row: ReviewRow, weakness: string)
    ensures History(rows + [row], weakness)
         == if row.weakness == weakness then History(rows, weakness) + [row] else History(rows, weakness)
  {
    assert (rows + [row])[..|rows|] == rows;
  }

  lemma {:induction false} ChainGrows(rules: Rules, h: seq<ReviewRow>, row: ReviewRow)
    requires Chain(rules, h) && Linked(rules, Previous(h, |h|), row)
    ensures Chain(rules, h + [row])
  {
    assert (h + [row])[..|h|] == h && Previous(h + [row], |h|) == Previous(h, |h|);
  }

  lemma {:induction false} RowLinks(rules: Rules, item: SchedulerItem, h: seq<ReviewRow>, sid: nat, reviewedAt: int,
    review: Review)
    requires Chain(rules, h) && CachedItem(item, h)
    requires RowFor(rules, item, sid, reviewedAt, review).Success?
    ensures Linked(rules, Previous(h, |h|), RowFor(rules, item, sid, reviewedAt, review).value)
  {
  }

  lemma MoveKeepsChains(rules: Rules, p: Progress, rows: seq<ReviewRow>, sid: nat, reviewedAt: int, review: Review)
    requires review.weakness in p.items && Chained(rules, p.items, rows)
    requires RowFor(rules, p.items[review.weakness], sid, reviewedAt, review).Success?
    ensures var row := RowFor(rules, p.items[review.weakness], sid, reviewedAt, review).value;
            Chained(rules, Moved(p, row).items, rows + [row])
  {
    var row := RowFor(rules, p.items[review.weakness], sid, reviewedAt, review).value;
    forall w: string
      ensures ItemOk(rules, Moved(p, row).items, rows + [row], w)
    {
      assert ItemOk(rules, p.items, rows, w);
      HistoryGrows(rows, row, w);
      if w == review.weakness {
        RowLinks(rules, p.items[w], History(rows, w), sid, reviewedAt, review);
        ChainGrows(rules, History(rows, w), row);
      }
    }
  }

  lemma {:induction false} ReviewsKeepChains(rules: Rules, r: Session, admits: seq<bool>, items: map<string,
                                             SchedulerItem>, rows: seq<ReviewRow>,
                                             sid: nat, reviewedAt: int, n: nat)
    requires n <= |r.reviews| == |admits| && Chained(rules, items, rows)
    requires ApplyReviews(rules, r, admits, items, sid, reviewedAt, n).Success?
    ensures var p := ApplyReviews(rules, r, admits, items, sid, reviewedAt, n).value;
            Chained(rules, p.items, rows + p.rows)
  {
    if n == 0 {
      assert rows + [] == rows;
    } else {
      ReviewsKeepChains(rules, r, admits, items, rows, sid, reviewedAt, n - 1);
      var earlier := ApplyReviews(rules, r, admits, items, sid, reviewedAt, n - 1).value;
      var review := r.reviews[n - 1];
      if admits[n - 1] {
        MoveKeepsChains(rules, earlier, rows + earlier.rows, sid, reviewedAt, review);
        var row := RowFor(rules, earlier.items[review.weakness], sid, reviewedAt, review).value;
        assert rows + earlier.rows + [row] == rows + (earlier.rows + [row]);
      }
    }
  }

  lemma NewItemsKeepChains(rules: Rules, items: map<string, SchedulerItem>, rows: seq<ReviewRow>, added: seq<string>)
    requires Chained(rules, items, rows)
    ensures Chained(rules, WithNew(items, added), rows)
  {
    forall w: string
      ensures ItemOk(rules, WithNew(items, added), rows, w)
    {
      assert ItemOk(rules, items, rows, w);
    }
  }

  // ----- the ledger

  // Keys and sessions correspond one to one.
  ghost predicate LedgerOk(book: Book) {
    && (forall key :: key in book.ledger ==>
          book.ledger[key].request.session.key == key && book.ledger[key].response.session < |book.sessions| &&
            !book.ledger[key].response.replayed)
    && (forall a, b :: a in book.ledger && b in book.ledger && a != b ==>
         book.ledger[a].response.session != book.ledger[b].response.session)
    && (forall sid: nat :: sid < |book.sessions| ==> Owned(book, sid))
  }

  ghost predicate Owned(book: Book, sid: nat) {
    exists key :: key in book.ledger && book.ledger[key].response.session == sid
  }

  ghost predicate Inv(rules: Rules, book: Book) {
    LedgerOk(book) && Chained(rules, book.items, book.reviews)
  }

  ghost predicate Grows(before: Book, after: Book) {
    && (forall key :: key in before.ledger ==> key in after.ledger && after.ledger[key] == before.ledger[key])
    && before.sessions <= after.sessions && before.reviews <= after.reviews
  }

  lemma CommitKeepsInv(rules: Rules, book: Book, x: Recording, m: Moment)
    requires Inv(rules, book) && x.session.key !in book.ledger && Commit(rules, book, x, m).Success?
    ensures Inv(rules, Commit(rules, book, x, m).value.0) && Grows(book, Commit(rules, book, x, m).value.0)
  {
    var sid, next := |book.sessions|, Commit(rules, book, x, m).value.0;
    NewItemsKeepChains(rules, book.items, book.reviews, x.newWeaknesses);
    ReviewsKeepChains(rules, x.session, Admissions(rules, x.session), WithNew(book.items, x.newWeaknesses),
      book.reviews, sid,
                      ReviewedAt(x, m), |x.session.reviews|);
    CommitKeepsLedger(book, next, x.session.key, next.ledger[x.session.key]);
  }

  lemma CommitKeepsLedger(book: Book, next: Book, key: string, entry: Entry)
    requires LedgerOk(book) && key !in book.ledger && |next.sessions| == |book.sessions| + 1
    requires next.ledger == book.ledger[key := entry] && entry.request.session.key == key
    requires entry.response.session == |book.sessions| && !entry.response.replayed
    ensures LedgerOk(next)
  {
    forall s: nat | s < |next.sessions|
      ensures Owned(next, s)
    {
      if s < |book.sessions| {
        assert Owned(book, s);
        var k :| k in book.ledger && book.ledger[k].response.session == s;
        assert next.ledger[k].response.session == s;
      } else {
        assert next.ledger[key].response.session == s;
      }
    }
  }

  lemma RecordKeepsInv(rules: Rules, book: Book, x: Recording, m: Moment)
    requires Inv(rules, book)
    ensures Inv(rules, Record(rules, book, x, m).0) && Grows(book, Record(rules, book, x, m).0)
  {
    if RequestOk(x) && x.session.key !in book.ledger && Commit(rules, book, x, m).Success? {
      CommitKeepsInv(rules, book, x, m);
    }
  }

  // Every run keeps the ledger one to one and every chain unbroken.
  lemma {:induction false} RunKeepsInv(rules: Rules, book: Book, calls: seq<Call>)
    requires Inv(rules, book)
    ensures Inv(rules, Run(rules, book, calls)) && Grows(book, Run(rules, book, calls))
    decreases |calls|
  {
    if calls != [] {
      RecordKeepsInv(rules, book, calls[0].x, calls[0].m);
      RunKeepsInv(rules, Record(rules, book, calls[0].x, calls[0].m).0, calls[1..]);
    }
  }

  // After a recording, whatever follows, the same request replays its response
  // and any other request under its key is refused; neither changes anything.
  lemma {:induction false} ReplaysForGood(rules: Rules, book: Book, x: Recording, m: Moment, calls: seq<Call>,
    y: Recording, later: Moment)
    requires Inv(rules, book) && Record(rules, book, x, m).1.Success? && y.session.key == x.session.key
    ensures var response := Record(rules, book, x, m).1.value;
            var now := Run(rules, Record(rules, book, x, m).0, calls);
            && Record(rules, now, y, later).0 == now
            && Record(rules, now, x, later).1 == Success(response.(replayed := true))
            && (y != x ==> Record(rules, now, y, later).1.Failure?)
  {
    RecordKeepsInv(rules, book, x, m);
    RunKeepsInv(rules, Record(rules, book, x, m).0, calls);
  }

  // ----- what a chain says

  function Elapsed(h: seq<ReviewRow>): nat {
    if h == [] then 0 else Elapsed(h[..|h| - 1]) + h[|h| - 1].elapsed
  }

  // Days never go back, and the elapsed days telescope.
  lemma {:induction false} ElapsedTelescopes(rules: Rules, h: seq<ReviewRow>)
    requires Chain(rules, h) && h != []
    ensures Elapsed(h) == h[|h| - 1].day - h[0].day
    ensures forall i :: 0 <= i < |h| ==> h[i].day <= h[|h| - 1].day
    ensures h[|h| - 1].due > h[|h| - 1].day
  {
    var init := h[..|h| - 1];
    if init != [] {
      ElapsedTelescopes(rules, init);
      assert forall i :: 0 <= i < |init| ==> h[i] == init[i];
    }
  }

  // The memory state the ratings lead to when they are replayed from scratch.
  function Replay(rules: Rules, h: seq<ReviewRow>): Option<Memory> {
    if h == [] then None
    else
      var next := Schedule(rules, Replay(rules, h[..|h| - 1]), h[|h| - 1].elapsed, h[|h| - 1].rating);
      if next.Failure? then None else Some(next.value.0)
  }

  lemma {:induction false} ChainReplays(rules: Rules, h: seq<ReviewRow>)
    requires Chain(rules, h)
    ensures Replay(rules, h) == if h == [] then None else Some(h[|h| - 1].after)
  {
    if h != [] {
      ChainReplays(rules, h[..|h| - 1]);
    }
  }

  // In every reachable book the cached memory is what replaying the item's own
  // ratings and intervals yields, and it is due after its last review.
  lemma {:induction false} CacheIsReplay(rules: Rules, book: Book, calls: seq<Call>, weakness: string)
    requires Inv(rules, book) && weakness in Run(rules, book, calls).items
    ensures var now := Run(rules, book, calls);
            var h := History(now.reviews, weakness);
            && MemoryOf(now.items[weakness]) == Replay(rules, h)
            && (h != [] ==>
                  var last := h[|h| - 1];
                  && now.items[weakness] == Scheduled(last.after, last.day + last.interval, last.reviewedAt) &&
                     last.interval >= 1
                  && Elapsed(h) == last.day - h[0].day)
  {
    RunKeepsInv(rules, book, calls);
    var now := Run(rules, book, calls);
    var h := History(now.reviews, weakness);
    assert ItemOk(rules, now.items, now.reviews, weakness);
    ChainReplays(rules, h);
    if h != [] {
      ElapsedTelescopes(rules, h);
    }
  }

  // ----- which reviews move the schedule

  function AdmittedReviews(r: Session, admits: seq<bool>, n: nat): seq<Review>
    requires n <= |r.reviews| == |admits|
  {
    if n == 0 then []
    else AdmittedReviews(r, admits, n - 1) + (if admits[n - 1] then [r.reviews[n - 1]] else [])
  }

  ghost predicate RowsFollow(rows: seq<ReviewRow>, reviews: seq<Review>, sid: nat) {
    && |rows| == |reviews|
    && forall i :: 0 <= i < |rows| ==>
         rows[i].weakness == reviews[i].weakness && rows[i].rating == reviews[i].rating && rows[i].session == sid
  }

  ghost predicate Untouched(before: map<string, SchedulerItem>, after: map<string, SchedulerItem>,
                            rows: seq<ReviewRow>) {
    && before.Keys == after.Keys
    && forall w :: w in before && History(rows, w) == [] ==> after[w] == before[w]
  }

  lemma MovesOneItem(items: map<string, SchedulerItem>, p: Progress, row: ReviewRow)
    requires Untouched(items, p.items, p.rows) && row.weakness in p.items
    ensures Untouched(items, Moved(p, row).items, p.rows + [row])
  {
    forall w | w in items && History(p.rows + [row], w) == []
      ensures Moved(p, row).items[w] == items[w]
    {
      HistoryGrows(p.rows, row, w);
    }
  }

  lemma {:induction false} OnlyMovedItemsChange(rules: Rules, r: Session, admits: seq<bool>, items: map<string,
                                                SchedulerItem>, sid: nat, reviewedAt: int, n: nat)
    requires n <= |r.reviews| == |admits| && ApplyReviews(rules, r, admits, items, sid, reviewedAt, n).Success?
    ensures var p := ApplyReviews(rules, r, admits, items, sid, reviewedAt, n).value;
            Untouched(items, p.items, p.rows)
  {
    if n > 0 {
      OnlyMovedItemsChange(rules, r, admits, items, sid, reviewedAt, n - 1);
      var review := r.reviews[n - 1];
      var before := ApplyReviews(rules, r, admits, items, sid, reviewedAt, n - 1).value;
      if admits[n - 1] {
        MovesOneItem(items, before, RowFor(rules, before.items[review.weakness], sid, reviewedAt, review).value);
      }
    }
  }

  // Exactly the admitted reviews leave a row, in order, and only the items
  // those rows name change.
  lemma {:induction false} OnlyAdmittedReviewsMove(rules: Rules, r: Session, admits: seq<bool>,
    items: map<string, SchedulerItem>, sid: nat, reviewedAt: int, n: nat)
    requires n <= |r.reviews| == |admits| && ApplyReviews(rules, r, admits, items, sid, reviewedAt, n).Success?
    ensures var p := ApplyReviews(rules, r, admits, items, sid, reviewedAt, n).value;
            RowsFollow(p.rows, AdmittedReviews(r, admits, n), sid) && Untouched(items, p.items, p.rows)
  {
    OnlyMovedItemsChange(rules, r, admits, items, sid, reviewedAt, n);
    AdmittedLeaveRows(rules, r, admits, items, sid, reviewedAt, n);
  }

  lemma {:induction false} AdmittedLeaveRows(rules: Rules, r: Session, admits: seq<bool>,
                                             items: map<string, SchedulerItem>, sid: nat, reviewedAt: int, n: nat)
    requires n <= |r.reviews| == |admits| && ApplyReviews(rules, r, admits, items, sid, reviewedAt, n).Success?
    ensures RowsFollow(ApplyReviews(rules, r, admits, items, sid, reviewedAt, n).value.rows,
                       AdmittedReviews(r, admits, n), sid)
  {
    if n > 0 {
      AdmittedLeaveRows(rules, r, admits, items, sid, reviewedAt, n - 1);
    }
  }

  lemma {:induction false} AdmittedCameFrom(r: Session, admits: seq<bool>, n: nat, i: nat) returns (k: nat)
    requires n <= |r.reviews| == |admits| && i < |AdmittedReviews(r, admits, n)|
    ensures k < n && admits[k] && AdmittedReviews(r, admits, n)[i] == r.reviews[k]
  {
    if i < |AdmittedReviews(r, admits, n - 1)| {
      k := AdmittedCameFrom(r, admits, n - 1, i);
    } else {
      k := n - 1;
    }
  }

  lemma EligibleIsHonest(r: Session, review: Review)
    requires Eligible(r, review)
    ensures review.rating == Again <==> AnyFailure(r, r.evidence.value, review.weakness)
  {
    FailedIff(r, r.evidence.value, review);
  }

  // Whatever is recorded, every row it adds says Again exactly when the session
  // holds an independent failure of that target.
  lemma EveryMoveIsHonest(rules: Rules, book: Book, x: Recording, m: Moment, i: nat)
    requires |book.reviews| <= i < |Record(rules, book, x, m).0.reviews|
    ensures var row := Record(rules, book, x, m).0.reviews[i];
            x.session.evidence.Some? && (row.rating == Again <==>
                AnyFailure(x.session, x.session.evidence.value, row.weakness))
  {
    var r, sid := x.session, |book.sessions|;
    var admits, items := Admissions(rules, r), WithNew(book.items, x.newWeaknesses);
    OnlyAdmittedReviewsMove(rules, r, admits, items, sid, ReviewedAt(x, m), |r.reviews|);
    var rows := ApplyReviews(rules, r, admits, items, sid, ReviewedAt(x, m), |r.reviews|).value.rows;
    assert Record(rules, book, x, m).0.reviews[i] == rows[i - |book.reviews|];
    var k := AdmittedCameFrom(r, admits, |r.reviews|, i - |book.reviews|);
    EligibleIsHonest(r, r.reviews[k]);
  }
}
