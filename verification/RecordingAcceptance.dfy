// Exactly which recordings are accepted, told from the request, the book and the
// clock (src/db.rs, record_practice).
module RecordingAcceptance {
  import opened Outcomes
  import opened SessionModel
  import opened ReviewLedger
  import opened ReviewChain
  import opened ReviewTimes
  import opened SessionFacts
  import opened ReviewAdmission

  // ----- what the book has to know

  predicate Trains(items: seq<Item>, w: string) {
    exists i :: 0 <= i < |items| && w in items[i].targets
  }

  predicate Observes(observations: seq<Observation>, w: string) {
    exists i :: 0 <= i < |observations| && observations[i].weakness == w
  }

  predicate Rates(reviews: seq<Review>, w: string) {
    exists i :: 0 <= i < |reviews| && reviews[i].weakness == w
  }

  predicate Offers(opportunities: seq<Opportunity>, w: string) {
    exists i :: 0 <= i < |opportunities| && opportunities[i].weakness == w
  }

  predicate HelpsOn(help: seq<Intervention>, w: string) {
    exists i :: 0 <= i < |help| && w in help[i].targets
  }

  // The session speaks of the target anywhere.
  predicate Mentions(r: Session, w: string) {
    || Trains(r.items, w) || Observes(AllObservations(r), w) || Rates(r.reviews, w)
    || match r.evidence case Some(e) => Offers(e.opportunities, w) || HelpsOn(e.interventions, w) case None => false
  }

  function DayOf(rules: Rules, t: int): int {
    (rules.local(t) - 60 * rules.cutoff) / 1440
  }

  function When(x: Recording, m: Moment): int {
    match x.reviewedAt case Some(t) => t case None => m.now
  }

  // The evidence is under the stored policy version, the session's date is the
  // learning day of its reviews, every target spoken of is known, and none of the
  // new ones is listed twice.
  ghost predicate InOrder(rules: Rules, items: map<string, SchedulerItem>, x: Recording, m: Moment) {
    && (match x.session.evidence case Some(e) => e.policyVersion == m.preferenceVersion case None => true)
    && (match x.sessionDay case Some(day) => day == DayOf(rules, When(x, m)) case None => true)
    && (forall w :: Mentions(x.session, w) ==> w in items || w in x.newWeaknesses)
    && forall i, j :: 0 <= i < j < |x.newWeaknesses| ==> x.newWeaknesses[i] != x.newWeaknesses[j]
  }

  lemma KeysMean(items: map<string, SchedulerItem>, x: Recording)
    ensures KeysKnown(items, x) <==> forall w :: Mentions(x.session, w) ==> w in items || w in x.newWeaknesses
  {
    var r, added := x.session, x.newWeaknesses;
    if KeysKnown(items, x) {
      forall w | Mentions(r, w)
        ensures Known(items, added, w)
      {
        MentionIsKnown(items, x, w);
      }
    }
    if forall w :: Mentions(r, w) ==> Known(items, added, w) {
      KnownSuffices(items, x);
    }
  }

  lemma MentionIsKnown(items: map<string, SchedulerItem>, x: Recording, w: string)
    requires KeysKnown(items, x) && Mentions(x.session, w)
    ensures Known(items, x.newWeaknesses, w)
  {
    var r := x.session;
    if i :| 0 <= i < |r.items| && w in r.items[i].targets {
      var k :| 0 <= k < |r.items[i].targets| && r.items[i].targets[k] == w;
    } else if Observes(AllObservations(r), w) {
      var i :| 0 <= i < |AllObservations(r)| && AllObservations(r)[i].weakness == w;
    } else if i :| 0 <= i < |r.reviews| && r.reviews[i].weakness == w {
      assert Known(items, x.newWeaknesses, r.reviews[i].weakness);
    } else if Offers(r.evidence.value.opportunities, w) {
      var i :| 0 <= i < |r.evidence.value.opportunities| && r.evidence.value.opportunities[i].weakness == w;
    } else {
      var help := r.evidence.value.interventions;
      var i :| 0 <= i < |help| && w in help[i].targets;
      var k :| 0 <= k < |help[i].targets| && help[i].targets[k] == w;
      assert Known(items, x.newWeaknesses, r.evidence.value.interventions[i].targets[k]);
    }
  }

  lemma KnownSuffices(items: map<string, SchedulerItem>, x: Recording)
    requires forall w :: Mentions(x.session, w) ==> Known(items, x.newWeaknesses, w)
    ensures KeysKnown(items, x)
  {
    var r, added := x.session, x.newWeaknesses;
    forall i, k | 0 <= i < |r.items| && 0 <= k < |r.items[i].targets|
      ensures Known(items, added, r.items[i].targets[k])
    {
      assert Trains(r.items, r.items[i].targets[k]) && Mentions(r, r.items[i].targets[k]);
    }
    forall o | 0 <= o < |AllObservations(r)|
      ensures Known(items, added, AllObservations(r)[o].weakness)
    {
      var w := AllObservations(r)[o].weakness;
      assert Observes(AllObservations(r), w) && Mentions(r, w);
    }
    forall k | 0 <= k < |r.reviews|
      ensures Known(items, added, r.reviews[k].weakness)
    {
      assert Rates(r.reviews, r.reviews[k].weakness) && Mentions(r, r.reviews[k].weakness);
    }
    if r.evidence.Some? {
      EvidenceKnown(items, x, r.evidence.value);
    }
  }

  lemma EvidenceKnown(items: map<string, SchedulerItem>, x: Recording, e: Evidence)
    requires x.session.evidence == Some(e)
    requires forall w :: Mentions(x.session, w) ==> Known(items, x.newWeaknesses, w)
    ensures forall k :: 0 <= k < |e.opportunities| ==> Known(items, x.newWeaknesses, e.opportunities[k].weakness)
    ensures forall i, k :: 0 <= i < |e.interventions| && 0 <= k < |e.interventions[i].targets| ==>
              Known(items, x.newWeaknesses, e.interventions[i].targets[k])
  {
    forall k | 0 <= k < |e.opportunities|
      ensures Known(items, x.newWeaknesses, e.opportunities[k].weakness)
    {
      var w := e.opportunities[k].weakness;
      assert Offers(e.opportunities, w) && Mentions(x.session, w);
    }
    forall i, k | 0 <= i < |e.interventions| && 0 <= k < |e.interventions[i].targets|
      ensures Known(items, x.newWeaknesses, e.interventions[i].targets[k])
    {
      var w := e.interventions[i].targets[k];
      assert HelpsOn(e.interventions, w) && Mentions(x.session, w);
    }
  }

  lemma DaysMean(rules: Rules, x: Recording, m: Moment)
    requires rules.cutoff <= 24
    ensures DaysAgree(rules, x, m) <==>
            match x.sessionDay case Some(day) => day == DayOf(rules, When(x, m)) case None => true
  {
    LearningDayIsShifted(rules, ReviewedAt(x, m));
    LearningDayIsShifted(rules, m.now);
  }

  lemma InOrderIff(rules: Rules, items: map<string, SchedulerItem>, x: Recording, m: Moment)
    requires rules.cutoff <= 24
    ensures Acceptable(rules, items, x, m) <==> InOrder(rules, items, x, m)
  {
    KeysMean(items, x);
    DaysMean(rules, x, m);
  }

  // ----- which reviews can be taken

  // The first review of its target, which some item of the session trains; and
  // when it is let through, not on an earlier learning day than the last.
  ghost predicate CanBeTaken(rules: Rules, book: Book, x: Recording, m: Moment, k: nat)
    requires k < |x.session.reviews|
  {
    var w := x.session.reviews[k].weakness;
    && (forall j :: 0 <= j < k ==> x.session.reviews[j].weakness != w)
    && (w in book.items || w in x.newWeaknesses) && Trains(x.session.items, w)
    && forall d :: LetThrough(rules, x, m, x.session.reviews[k], d) ==>
         match ItemBefore(book, w)
         case Scheduled(_, _, last) => DayOf(rules, When(x, m)) >= DayOf(rules, last)
         case Uninitialised => true
  }

  lemma TakeableIff(rules: Rules, book: Book, x: Recording, m: Moment, k: nat)
    requires rules.cutoff <= 24 && k < |x.session.reviews|
    ensures var items, admits := WithNew(book.items, x.newWeaknesses), Admissions(rules, x.session);
            Takeable(rules, x.session, admits, items, ReviewedAt(x, m), k) <==> CanBeTaken(rules, book, x, m, k)
  {
    var w := x.session.reviews[k].weakness;
    AdmissionMeans(rules, x, m, k);
    assert TargetsDeclared(x.session, w) <==> Trains(x.session.items, w);
    if w in book.items || w in x.newWeaknesses {
      assert WithNew(book.items, x.newWeaknesses)[w] == ItemBefore(book, w);
      DaysInOrder(rules, ReviewedAt(x, m), ItemBefore(book, w));
    }
  }

  // Some decision lets the review through exactly when it is admitted.
  lemma AdmissionMeans(rules: Rules, x: Recording, m: Moment, k: nat)
    requires k < |x.session.reviews|
    ensures Admissions(rules, x.session)[k] <==> exists d :: LetThrough(rules, x, m, x.session.reviews[k], d)
  {
    var review := x.session.reviews[k];
    var d := AdmittedMeans(rules, x.session, review, m.preferenceVersion);
    AdmissionIsDecided(rules, x, m, k, d);
    forall other | LetThrough(rules, x, m, review, other)
      ensures LetThrough(rules, x, m, review, d)
    {
      OneDecision(x.session, review, m.preferenceVersion, d, other);
    }
  }

  lemma DaysInOrder(rules: Rules, at: int, item: SchedulerItem)
    requires rules.cutoff <= 24
    ensures item.Scheduled? ==>
              (LearningDay(rules, at) >= LearningDay(rules, item.lastReview) <==>
                 DayOf(rules, at) >= DayOf(rules, item.lastReview))
  {
    LearningDayIsShifted(rules, at);
    if item.Scheduled? {
      LearningDayIsShifted(rules, item.lastReview);
    }
  }

  ghost predicate ValidRequest(x: Recording) {
    && LinksHold(x.session) && x.bytes <= 65536
    && match x.session.evidence case Some(e) => EvidenceHolds(x.session, e) case None => true
  }

  // A request under a new key is recorded exactly when it is valid and in order and
  // each of its reviews can be taken.
  lemma RecordedExactly(rules: Rules, book: Book, x: Recording, m: Moment)
    requires x.session.key !in book.ledger && StepNeverFails(rules) && rules.cutoff <= 24
    ensures Record(rules, book, x, m).1.Success? <==>
            && ValidRequest(x) && InOrder(rules, book.items, x, m)
            && forall k: nat :: k < |x.session.reviews| ==> CanBeTaken(rules, book, x, m, k)
  {
    RecordedIff(rules, book, x, m);
    ValidIff(x.session);
    InOrderIff(rules, book.items, x, m);
    EachTaken(rules, book, x, m);
  }

  lemma EachTaken(rules: Rules, book: Book, x: Recording, m: Moment)
    requires rules.cutoff <= 24
    ensures var items, admits := WithNew(book.items, x.newWeaknesses), Admissions(rules, x.session);
            AllTakeable(rules, x.session, admits, items, ReviewedAt(x, m), |admits|) <==>
            forall k: nat :: k < |x.session.reviews| ==> CanBeTaken(rules, book, x, m, k)
  {
    var items, admits := WithNew(book.items, x.newWeaknesses), Admissions(rules, x.session);
    forall k: nat | k < |x.session.reviews|
      ensures Takeable(rules, x.session, admits, items, ReviewedAt(x, m), k) <==> CanBeTaken(rules, book, x, m, k)
    {
      TakeableIff(rules, book, x, m, k);
    }
  }
}
