// Timestamps of reviews against learning days: only the days may not go back.
module ReviewTimes {
  import opened Outcomes
  import opened Texts
  import opened SessionModel
  import opened CanonicalChecks
  import opened ReviewPolicy
  import opened ReviewDecisions
  import opened ReviewFairness
  import opened ReviewLedger
  import opened ReviewChain

  // The local clock never runs backwards between two instants.
  predicate ClockKeepsOrder(rules: Rules, earlier: int, later: int) {
    rules.local(earlier) <= rules.local(later)
  }

  lemma DaysKeepOrder(rules: Rules, earlier: int, later: int)
    requires rules.cutoff <= 24 && ClockKeepsOrder(rules, earlier, later)
    ensures LearningDay(rules, earlier) <= LearningDay(rules, later)
  {
    LearningDayIsShifted(rules, earlier);
    LearningDayIsShifted(rules, later);
    DivisionKeepsOrder(rules.local(earlier) - 60 * rules.cutoff, rules.local(later) - 60 * rules.cutoff);
  }

  lemma DivisionKeepsOrder(a: int, b: int)
    requires a <= b
    ensures a / 1440 <= b / 1440
  {
  }

  // A review dated before the last one is turned away exactly when it falls on an
  // earlier learning day; otherwise, on a clock that runs forwards, it counts as
  // a review of that same day.
  lemma EarlierRefusedIff(rules: Rules, item: SchedulerItem, sid: nat, reviewedAt: int, review: Review)
    requires rules.cutoff <= 24 && item.Scheduled? && reviewedAt < item.lastReview
    ensures RowFor(rules, item, sid, reviewedAt, review) == Failure(InvalidRequest) <==>
            LearningDay(rules, reviewedAt) < LearningDay(rules, item.lastReview)
    ensures ClockKeepsOrder(rules, reviewedAt, item.lastReview) &&
            RowFor(rules, item, sid, reviewedAt, review).Success? ==>
              var row := RowFor(rules, item, sid, reviewedAt, review).value;
              row.elapsed == 0 && row.day == LearningDay(rules, item.lastReview)
  {
    if ClockKeepsOrder(rules, reviewedAt, item.lastReview) {
      DaysKeepOrder(rules, reviewedAt, item.lastReview);
    }
  }

  // Review k can be taken: the first for its target, which is known and declared,
  // and not on an earlier learning day than the target's last review.
  predicate Takeable(rules: Rules, r: Session, admits: seq<bool>, items: map<string, SchedulerItem>, at: int, k: nat)
    requires k < |r.reviews| == |admits|
  {
    var w := r.reviews[k].weakness;
    && (forall j :: 0 <= j < k ==> r.reviews[j].weakness != w)
    && w in items && TargetsDeclared(r, w)
    && (admits[k] && items[w].Scheduled? ==> LearningDay(rules, at) >= LearningDay(rules, items[w].lastReview))
  }

  predicate AllTakeable(rules: Rules, r: Session, admits: seq<bool>, items: map<string, SchedulerItem>, at: int,
                        n: nat)
    requires n <= |r.reviews| == |admits|
  {
    forall k :: 0 <= k < n ==> Takeable(rules, r, admits, items, at, k)
  }

  ghost predicate StepNeverFails(rules: Rules) {
    forall before, elapsed, rating :: rules.next(before, elapsed, rating).Success?
  }

  ghost predicate OthersUntouched(r: Session, items: map<string, SchedulerItem>,
                                  later: map<string, SchedulerItem>, n: nat)
    requires n <= |r.reviews|
  {
    && later.Keys == items.Keys
    && forall w :: w in items && (forall k :: 0 <= k < n ==> r.reviews[k].weakness != w) ==> later[w] == items[w]
  }

  // The reviews of a request go through together exactly when each can be taken
  // in the book as it was before any of them.
  lemma {:induction false} ReviewsTakenIff(rules: Rules, r: Session, admits: seq<bool>,
                                           items: map<string, SchedulerItem>, sid: nat, at: int, n: nat)
    requires n <= |r.reviews| == |admits| && StepNeverFails(rules)
    ensures var done := ApplyReviews(rules, r, admits, items, sid, at, n);
            && (done.Success? <==> AllTakeable(rules, r, admits, items, at, n))
            && (done.Success? ==> OthersUntouched(r, items, done.value.items, n))
  {
    if n > 0 {
      OneMoreTakeable(rules, r, admits, items, at, n);
      ReviewsTakenIff(rules, r, admits, items, sid, at, n - 1);
      var earlier := ApplyReviews(rules, r, admits, items, sid, at, n - 1);
      if earlier.Success? {
        LastTakenIff(rules, r, admits, items, sid, at, n, earlier.value);
      } else {
        RefusedStaysRefused(rules, r, admits, items, sid, at, n);
      }
    }
  }

  lemma OneMoreTakeable(rules: Rules, r: Session, admits: seq<bool>, items: map<string, SchedulerItem>, at: int,
                        n: nat)
    requires 0 < n <= |r.reviews| == |admits|
    ensures AllTakeable(rules, r, admits, items, at, n) <==>
            AllTakeable(rules, r, admits, items, at, n - 1) && Takeable(rules, r, admits, items, at, n - 1)
  {
  }

  lemma RefusedStaysRefused(rules: Rules, r: Session, admits: seq<bool>, items: map<string, SchedulerItem>, sid: nat,
                            at: int, n: nat)
    requires 0 < n <= |r.reviews| == |admits| && ApplyReviews(rules, r, admits, items, sid, at, n - 1).Failure?
    ensures ApplyReviews(rules, r, admits, items, sid, at, n).Failure?
  {
  }

  lemma LastTakenIff(rules: Rules, r: Session, admits: seq<bool>, items: map<string, SchedulerItem>, sid: nat, at: int,
                     n: nat, earlier: Progress)
    requires 0 < n <= |r.reviews| == |admits| && StepNeverFails(rules)
    requires ApplyReviews(rules, r, admits, items, sid, at, n - 1) == Success(earlier)
    requires OthersUntouched(r, items, earlier.items, n - 1)
    ensures var done := ApplyReviews(rules, r, admits, items, sid, at, n);
            && (done.Success? <==> Takeable(rules, r, admits, items, at, n - 1))
            && (done.Success? ==> OthersUntouched(r, items, done.value.items, n))
  {
    var review := r.reviews[n - 1];
    if (forall j :: 0 <= j < n - 1 ==> r.reviews[j].weakness != review.weakness) && review.weakness in items {
      assert earlier.items[review.weakness] == items[review.weakness];
      RowTakenIff(rules, items[review.weakness], sid, at, review);
    }
  }

  lemma RowTakenIff(rules: Rules, item: SchedulerItem, sid: nat, at: int, review: Review)
    requires StepNeverFails(rules)
    ensures RowFor(rules, item, sid, at, review).Success? <==>
              (item.Scheduled? ==> LearningDay(rules, at) >= LearningDay(rules, item.lastReview))
  {
  }

  // When a request under a new key is recorded: timestamps play no part but for
  // the learning days they fall on.
  lemma RecordedIff(rules: Rules, book: Book, x: Recording, m: Moment)
    requires x.session.key !in book.ledger && StepNeverFails(rules)
    ensures var items, admits := WithNew(book.items, x.newWeaknesses), Admissions(rules, x.session);
            Record(rules, book, x, m).1.Success? <==>
            && RequestOk(x) && Acceptable(rules, book.items, x, m)
            && AllTakeable(rules, x.session, admits, items, ReviewedAt(x, m), |admits|)
  {
    ReviewsTakenIff(rules, x.session, Admissions(rules, x.session), WithNew(book.items, x.newWeaknesses),
                    |book.sessions|, ReviewedAt(x, m), |x.session.reviews|);
  }

  lemma {:induction false} LinkedFromStart(rules: Rules, h: seq<ReviewRow>, i: nat)
    requires Chain(rules, h) && i < |h|
    ensures Chain(rules, h[..i + 1]) && h[i].day == LearningDay(rules, h[i].reviewedAt)
  {
    if i == |h| - 1 {
      assert h[..i + 1] == h;
    } else {
      LinkedFromStart(rules, h[..|h| - 1], i);
      assert h[..|h| - 1][..i + 1] == h[..i + 1];
    }
  }

  lemma {:induction false} DaysAscend(rules: Rules, h: seq<ReviewRow>, i: nat, j: nat)
    requires Chain(rules, h) && i <= j < |h|
    ensures h[i].day <= h[j].day
  {
    LinkedFromStart(rules, h, j);
    ElapsedTelescopes(rules, h[..j + 1]);
    assert h[..j + 1][i] == h[i];
  }

  // In any reachable book, where an item's timestamps go back they stay within
  // one learning day, and so does every review between the two.
  lemma {:induction false} TimestampsFallWithinADay(rules: Rules, book: Book, calls: seq<Call>, weakness: string,
    i: nat, j: nat)
    requires rules.cutoff <= 24 && Inv(rules, book)
    requires i < j < |History(Run(rules, book, calls).reviews, weakness)|
    requires var h := History(Run(rules, book, calls).reviews, weakness);
             h[j].reviewedAt < h[i].reviewedAt && ClockKeepsOrder(rules, h[j].reviewedAt, h[i].reviewedAt)
    ensures var h := History(Run(rules, book, calls).reviews, weakness);
            forall k :: i <= k <= j ==> h[k].day == h[i].day && (k > i ==> h[k].elapsed == 0)
  {
    RunKeepsInv(rules, book, calls);
    var h := History(Run(rules, book, calls).reviews, weakness);
    assert ItemOk(rules, Run(rules, book, calls).items, Run(rules, book, calls).reviews, weakness);
    LinkedFromStart(rules, h, i);
    LinkedFromStart(rules, h, j);
    DaysKeepOrder(rules, h[j].reviewedAt, h[i].reviewedAt);
    forall k | i <= k <= j
      ensures h[k].day == h[i].day && (k > i ==> h[k].elapsed == 0)
    {
      DaysAscend(rules, h, i, k);
      DaysAscend(rules, h, k, j);
      if k > i {
        DaysAscend(rules, h, i, k - 1);
        LinkedFromStart(rules, h, k);
        StepOf(rules, h, k);
      }
    }
  }

  lemma StepOf(rules: Rules, h: seq<ReviewRow>, k: nat)
    requires 0 < k < |h| && Chain(rules, h[..k + 1])
    ensures h[k].elapsed == h[k].day - h[k - 1].day
  {
    var g := h[..k + 1];
    assert Linked(rules, Previous(g, k), g[k]) && g[k - 1] == h[k - 1];
  }

  // ----- two recordings whose timestamps go back

  const PLAIN: Details := Details(map[])

  function Heard(no: nat): Observation {
    Observation(no, "w", Correct, Targeted, Some(ColdRetrieval), Some(NoHint), Some(SomeEffort), PLAIN)
  }

  function Asked(no: nat): Item {
    Item(no, SituationalResponse, "x", None, ["w"], [])
  }

  function Tried(no: nat): Attempt {
    Attempt(no, Some(no), "t", Timing(None, None, None, None), None, [Heard(no)])
  }

  function Witness(no: nat, scenario: string): AttemptEvidence {
    AttemptEvidence(no, Initial, None, NoneDetected, NoneKnown, "p", scenario, "t", PLAIN)
  }

  function Proof(): Evidence {
    Evidence(1, [], [Witness(1, "a"), Witness(2, "b")],
             [ObservationEvidence(1, 1, Used, Accurate, "p"), ObservationEvidence(2, 2, Used, Accurate, "p")], [],
             [Variation("w", [1, 2], "r")])
  }

  function Rated(): Review {
    Review("w", Good, [1, 2], Some("r"), PLAIN)
  }

  function Sitting(key: string): Session {
    Session(key, [Asked(1), Asked(2)], [Tried(1), Tried(2)], [], [], [Rated()], [], Some(Proof()))
  }

  function Recorded(key: string, added: seq<string>, at: int): Recording {
    Recording(Sitting(key), added, Some(at), None, 1, PLAIN)
  }

  // A clock without a shift, a day that starts at four, and a step that always
  // answers one day.
  function Simple(): Rules {
    Rules((before: Option<Memory>, elapsed: nat, rating: Rating) => Success((Memory(1.0, 1.0), 1)),
          (r: Session, review: Review) => true, (t: int) => t, 4)
  }

  lemma SittingObservations(key: string)
    ensures AllObservations(Sitting(key)) == [Heard(1), Heard(2)]
  {
    var r := Sitting(key);
    assert r.items[1..] == [Asked(2)] && r.items[1..][1..] == [];
    assert ItemObservations([Asked(2)]) == [] && ItemObservations(r.items) == [];
    assert r.attempts[1..] == [Tried(2)] && r.attempts[1..][1..] == [];
    assert AttemptObservations([Tried(2)]) == [Heard(2)];
    assert AttemptObservations(r.attempts) == [Heard(1)] + [Heard(2)];
  }

  lemma {:induction false} SittingFound(key: string, no: nat)
    requires no == 1 || no == 2
    ensures FindAttempt(Sitting(key).attempts, no) == Some(Tried(no))
    ensures FindObservation([Heard(1), Heard(2)], no) == Some(Heard(no))
    ensures FindItem(Sitting(key).items, Some(no)) == Some(Asked(no))
    ensures FindEvidence(Proof().attempts, no) == Some(Witness(no, if no == 1 then "a" else "b"))
  {
    assert Sitting(key).attempts[1..] == [Tried(2)] && [Heard(1), Heard(2)][1..] == [Heard(2)];
    assert Sitting(key).items[1..] == [Asked(2)] && Proof().attempts[1..] == [Witness(2, "b")];
  }

  lemma LettersAreNotBlank()
    ensures !Blank("t") && !Blank("p") && !Blank("r")
  {
    assert "t"[0] == 't' && "p"[0] == 'p' && "r"[0] == 'r';
  }

  lemma SittingIsNumbered(key: string)
    ensures NumbersAndLinks(Sitting(key))
  {
    AskedNumbered(key);
    SittingObservations(key);
    HeardNumbered();
    RatedCites(key);
  }

  lemma AskedNumbered(key: string)
    ensures var r := Sitting(key);
            && ItemsNumbered(r.items) && AttemptsNumbered(r.attempts)
            && forall i :: 0 <= i < |r.attempts| && r.attempts[i].itemNo.Some? ==>
                 HasItem(r.items, r.attempts[i].itemNo)
  {
    var r := Sitting(key);
    assert r.items[0].no == 1 && r.items[1].no == 2 && r.attempts[0].no == 1 && r.attempts[1].no == 2;
    assert HasItem(r.items, Some(1)) && HasItem(r.items, Some(2));
  }

  lemma RatedCites(key: string)
    ensures CitationsExist(Sitting(key), Rated())
  {
    SittingObservations(key);
    HeardNumbered();
  }

  lemma HeardNumbered()
    ensures ObservationsNumbered([Heard(1), Heard(2)])
    ensures HasObservation([Heard(1), Heard(2)], 1) && HasObservation([Heard(1), Heard(2)], 2)
  {
    assert [Heard(1), Heard(2)][0].no == 1 && [Heard(1), Heard(2)][1].no == 2;
  }

  lemma SittingIsLinked(key: string)
    ensures EvidenceLinked(Sitting(key), Proof())
  {
    var r := Sitting(key);
    LettersAreNotBlank();
    SittingObservations(key);
    SittingFound(key, 1);
    SittingFound(key, 2);
    assert r.items[0].no == 1 && r.items[1].no == 2;
    assert Tried(1).observations[0].no == 1 && Tried(2).observations[0].no == 2;
    assert AttemptEvidenceLinked(r, Witness(1, "a")) && AttemptEvidenceLinked(r, Witness(2, "b"));
  }

  lemma SittingIsSound(key: string)
    ensures EvidenceSound(Sitting(key), Proof())
  {
    LettersAreNotBlank();
    SittingObservations(key);
    SittingFound(key, 1);
    SittingFound(key, 2);
    assert [Heard(1), Heard(2)][0].no == 1 && [Heard(1), Heard(2)][1].no == 2;
  }

  lemma SittingIsValid(key: string)
    ensures NumbersAndLinks(Sitting(key)) && EvidenceValid(Sitting(key))
  {
    SittingIsNumbered(key);
    SittingIsLinked(key);
    SittingIsSound(key);
  }

  lemma LongPartsAreMissing(text: string, part: string)
    requires |text| < |part|
    ensures !Contains(text, part)
  {
  }

  lemma NothingSupplied()
    ensures !PromptSupplies("x", ["w", "w"])
  {
    var lower := Lower("x");
    forall k | 0 <= k < |MANIPULATIONS|
      ensures !Contains(lower, MANIPULATIONS[k])
    {
      assert |MANIPULATIONS[k]| >= 3;
      LongPartsAreMissing(lower, MANIPULATIONS[k]);
    }
    LongPartsAreMissing("w", "llevar");
    LongPartsAreMissing("w", "duration_llevar");
    LongPartsAreMissing("w", "para_que");
  }

  lemma UseIsIndependent(key: string, no: nat)
    requires no == 1 || no == 2
    ensures IndependentUse(Sitting(key), Proof(), "w", ObservationEvidence(no, no, Used, Accurate, "p"))
  {
    SittingObservations(key);
    SittingFound(key, no);
    NothingSupplied();
    assert Practised(Asked(no), Tried(no)) == ["w", "w"];
    assert [Heard(1), Heard(2)][no - 1].no == no;
    assert Unassisted(Proof(), Asked(no), Tried(no), Witness(no, if no == 1 then "a" else "b"));
  }

  // Both uses count, and neither fails.
  lemma SittingJudged(key: string)
    ensures Judgements(Sitting(key), Proof(), Rated()) ==
            [Judged(1, true, Counted(false), "a"), Judged(2, true, Counted(false), "b")]
  {
    var r, js := Sitting(key), Judgements(Sitting(key), Proof(), Rated());
    SittingFound(key, 1);
    SittingFound(key, 2);
    forall k | 0 <= k < 2
      ensures js[k] == Judged(k + 1, true, Counted(false), if k == 0 then "a" else "b")
    {
      var o := Proof().observations[k];
      assert o == ObservationEvidence(k + 1, k + 1, Used, Accurate, "p");
      UseIsIndependent(key, k + 1);
      CountedIff(r, Proof(), "w", o);
      assert [1, 2][k] == k + 1 && k + 1 in Rated().citations;
    }
  }

  lemma {:induction false} BothSupport(js: seq<Judged>)
    requires js == [Judged(1, true, Counted(false), "a"), Judged(2, true, Counted(false), "b")]
    ensures Supporting(js) == [1, 2] && TwoScenarios(js) && !Failed(js)
    ensures forall k :: 0 <= k < |js| ==> !BlocksByItself(js[k])
  {
    assert js[..1] == [js[0]] && js[..1][..0] == [];
    assert Supporting(js[..1]) == [1];
    assert js[0].Supports() && js[1].Supports() && "a"[0] != "b"[0];
  }

  lemma BothAreEnough(x: Context, js: seq<Judged>)
    requires x == Context(Rated(), [Heard(1), Heard(2)], Proof().variations)
    requires js == [Judged(1, true, Counted(false), "a"), Judged(2, true, Counted(false), "b")]
    ensures Deserves(x, js)
  {
    BothSupport(js);
    LettersAreNotBlank();
    assert Covers(x.variations[0], "w", [1, 2]);
  }

  lemma SittingIsEligible(key: string)
    ensures Eligible(Sitting(key), Rated())
  {
    SittingJudged(key);
    SittingObservations(key);
    BothAreEnough(Context(Rated(), AllObservations(Sitting(key)), Proof().variations),
      Judgements(Sitting(key), Proof(), Rated()));
  }

  // ----- recording them

  lemma KeysAreKnown(items: map<string, SchedulerItem>, key: string, added: seq<string>, at: int)
    requires Known(items, added, "w")
    ensures KeysKnown(items, Recorded(key, added, at))
  {
    SittingObservations(key);
  }

  lemma RecordingIsOk(key: string, added: seq<string>, at: int)
    ensures RequestOk(Recorded(key, added, at)) && Admissions(Simple(), Sitting(key)) == [true]
  {
    SittingIsValid(key);
    SittingIsEligible(key);
    assert Admitted(Simple(), Sitting(key), Sitting(key).reviews[0]);
  }

  // What the recording of a sitting does to an item in the book.
  lemma SittingRecorded(book: Book, key: string, added: seq<string>, at: int, item: SchedulerItem)
    requires key !in book.ledger && Known(book.items, added, "w") && Distinct(added)
    requires WithNew(book.items, added)["w"] == item
    requires item.Scheduled? ==> LearningDay(Simple(), at) >= LearningDay(Simple(), item.lastReview)
    ensures var x, m := Recorded(key, added, at), Moment(at, 1);
            var out := Record(Simple(), book, x, m);
            && out.1.Success? && |out.0.reviews| == |book.reviews| + 1
            && "w" in out.0.items && out.0.items["w"].Scheduled? && out.0.items["w"].lastReview == at
            && key in out.0.ledger && (forall k :: k in out.0.ledger ==> k in book.ledger || k == key)
            && out.0.reviews[|book.reviews|].weakness == "w" && out.0.reviews[|book.reviews|].reviewedAt == at
            && out.0.reviews[|book.reviews|].elapsed == ElapsedSince(Simple(), item, at)
  {
    var x, m := Recorded(key, added, at), Moment(at, 1);
    RecordingIsOk(key, added, at);
    KeysAreKnown(book.items, key, added, at);
    assert Acceptable(Simple(), book.items, x, m);
    SittingReviewed(WithNew(book.items, added), key, |book.sessions|, at, item);
  }

  lemma {:induction false} SittingReviewed(items: map<string, SchedulerItem>, key: string, sid: nat, at: int,
    item: SchedulerItem)
    requires "w" in items && items["w"] == item
    requires item.Scheduled? ==> LearningDay(Simple(), at) >= LearningDay(Simple(), item.lastReview)
    ensures RowFor(Simple(), item, sid, at, Rated()).Success?
    ensures ApplyReviews(Simple(), Sitting(key), [true], items, sid, at, 1) ==
            Success(Moved(Progress(items, []), RowFor(Simple(), item, sid, at, Rated()).value))
  {
    var r := Sitting(key);
    assert r.items[0].targets[0] == "w" && TargetsDeclared(r, "w");
    assert ApplyReviews(Simple(), r, [true], items, sid, at, 0) == Success(Progress(items, []));
    assert r.reviews[0] == Rated();
  }

  lemma FirstRecorded(book: Book)
    requires book == Book(map[], [], map[], [])
    ensures var out := Record(Simple(), book, Recorded("a", ["w"], 900), Moment(900, 1));
            && out.1.Success? && |out.0.reviews| == 1 && "w" in out.0.items && "b" !in out.0.ledger
            && out.0.items["w"].Scheduled? && out.0.items["w"].lastReview == 900
            && out.0.reviews[0].weakness == "w" && out.0.reviews[0].reviewedAt == 900
  {
    SittingRecorded(book, "a", ["w"], 900, Uninitialised);
    assert "a"[0] != "b"[0];
  }

  lemma SecondRecorded(book: Book)
    requires |book.reviews| == 1 && "w" in book.items && "b" !in book.ledger
    requires book.items["w"].Scheduled? && book.items["w"].lastReview == 900
    ensures var out := Record(Simple(), book, Recorded("b", [], 840), Moment(840, 1));
            && out.1.Success? && |out.0.reviews| == 2 && out.0.reviews[1].weakness == "w"
            && out.0.reviews[1].reviewedAt == 840 && out.0.reviews[1].elapsed == 0
  {
    assert LearningDay(Simple(), 840) == LearningDay(Simple(), 900) == 0;
    SittingRecorded(book, "b", [], 840, book.items["w"]);
  }

  // Two recordings of one run: the second is dated an hour before the first, and
  // is taken as a review of the same day.
  lemma EarlierTimestampIsRecorded() returns (rules: Rules, first: Call, second: Call)
    ensures second.x.reviewedAt.Some? && first.x.reviewedAt.Some? &&
            second.x.reviewedAt.value < first.x.reviewedAt.value
    ensures var empty := Book(map[], [], map[], []);
            var book := Record(rules, empty, first.x, first.m).0;
            var again := Record(rules, book, second.x, second.m);
            && Record(rules, empty, first.x, first.m).1.Success? && again.1.Success?
            && |book.reviews| == 1 && |again.0.reviews| == 2
            && again.0.reviews[1].weakness == book.reviews[0].weakness
            && again.0.reviews[1].reviewedAt < book.reviews[0].reviewedAt && again.0.reviews[1].elapsed == 0
  {
    rules := Simple();
    first, second := Call(Recorded("a", ["w"], 900), Moment(900, 1)), Call(Recorded("b", [], 840), Moment(840, 1));
    var empty := Book(map[], [], map[], []);
    FirstRecorded(empty);
    SecondRecorded(Record(rules, empty, first.x, first.m).0);
  }
}
