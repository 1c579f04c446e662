// The recording transaction as the program runs it: rows are written as the
// reviews are taken, and an error rolls everything back.
module PracticeStore {
  import opened Outcomes
  import opened SessionModel
  import opened CanonicalChecks
  import opened ReviewPolicy
  import opened ReviewDecisions
  import opened ReviewFairness
  import opened ReviewLedger
  import opened ReviewChain

  class Store {
    var ledger: map<string, Entry>
    var sessions: seq<int>
    var items: map<string, SchedulerItem>
    var reviews: seq<ReviewRow>

    function State(): Book
      reads this
    {
      Book(ledger, sessions, items, reviews)
    }

    constructor ()
      ensures State() == Book(map[], [], map[], []) && forall rules :: Inv(rules, State())
    {
      ledger, sessions, items, reviews := map[], [], map[], [];
    }

    method Decide(rules: Rules, r: Session, review: Review, version: nat) returns (admitted: bool)
      ensures admitted <==> Admitted(rules, r, review)
    {
      var d := ReviewDecision(r, review, version);
      if r.evidence.Some? {
        var e := r.evidence.value;
        EligibleIff(Context(review, AllObservations(r), e.variations), Judgements(r, e, review), d);
      }
      admitted := d.eligible && rules.policy(r, review.(citations := d.supporting));
    }

    // The decision on every proposed review.
    method DecideAll(rules: Rules, r: Session, version: nat) returns (admits: seq<bool>)
      ensures admits == Admissions(rules, r)
    {
      admits := [];
      while |admits| < |r.reviews|
        invariant |admits| <= |r.reviews|
        invariant admits == Admissions(rules, r)[..|admits|]
      {
        var admitted := Decide(rules, r, r.reviews[|admits|], version);
        admits := admits + [admitted];
      }
    }

    // Takes the reviews in order, writing a row and the cached state for each
    // admitted one.
    method TakeReviews(rules: Rules, r: Session, admits: seq<bool>, sid: nat, reviewedAt: int)
        returns (out: Result<seq<ReviewRow>, Error>)
      requires |admits| == |r.reviews|
      modifies this`items, this`reviews
      ensures var p := ApplyReviews(rules, r, admits, old(items), sid, reviewedAt, |r.reviews|);
              && (out.Success? <==> p.Success?)
              && (out.Failure? ==> out.error == p.error)
              && (out.Success? ==>
                    out.value == p.value.rows && items == p.value.items && reviews == old(reviews) + out.value)
    {
      var seen: set<string> := {};
      var rows: seq<ReviewRow> := [];
      ghost var before := items;
      var i := 0;
      while i < |r.reviews|
        invariant 0 <= i <= |r.reviews|
        invariant forall w :: w in seen <==> exists k :: 0 <= k < i && r.reviews[k].weakness == w
        invariant ApplyReviews(rules, r, admits, before, sid, reviewedAt, i) == Success(Progress(items, rows))
        invariant reviews == old(reviews) + rows
      {
        var review := r.reviews[i];
        ghost var step := ApplyReviews(rules, r, admits, before, sid, reviewedAt, i + 1);
        var error := None;
        if review.weakness in seen {
          error := Some(InvalidRequest);
        } else if review.weakness !in items {
          error := Some(UnknownKey);
        } else if !TargetsDeclared(r, review.weakness) {
          error := Some(InvalidRequest);
        } else if admits[i] {
          var row := RowFor(rules, items[review.weakness], sid, reviewedAt, review);
          if row.Failure? {
            error := Some(row.error);
          } else {
            rows := rows + [row.value];
            reviews := reviews + [row.value];
            items := items[review.weakness := Scheduled(row.value.after, row.value.due, reviewedAt)];
          }
        }
        if error.Some? {
          FailureStays(rules, r, admits, before, sid, reviewedAt, i + 1, |r.reviews|);
          return Failure(error.value);
        }
        seen := seen + {review.weakness};
        i := i + 1;
      }
      out := Success(rows);
    }

    method RecordPractice(rules: Rules, x: Recording, m: Moment) returns (reply: Result<Response, Error>)
      requires Inv(rules, State())
      modifies this
      ensures (State(), reply) == Record(rules, old(State()), x, m)
      ensures Inv(rules, State()) && Grows(old(State()), State())
    {
      assert Inv(rules, Record(rules, State(), x, m).0) && Grows(State(), Record(rules, State(), x, m).0) by {
        RecordKeepsInv(rules, State(), x, m);
      }
      var valid := ValidateEvidence(x.session);
      if !NumbersAndLinks(x.session) || !valid || x.bytes > 65536 {
        return Failure(InvalidRequest);
      }
      if x.session.key in ledger {
        if ledger[x.session.key].request != x {
          return Failure(IdempotencyConflict);
        }
        return Success(ledger[x.session.key].response.(replayed := true));
      }
      if !Acceptable(rules, items, x, m) {
        return Failure(InvalidRequest);
      }
      var savedItems, savedReviews := items, reviews;
      items := WithNew(items, x.newWeaknesses);
      var sid := |sessions|;
      var admits := DecideAll(rules, x.session, m.preferenceVersion);
      var taken := TakeReviews(rules, x.session, admits, sid, ReviewedAt(x, m));
      if taken.Failure? {
        items, reviews := savedItems, savedReviews;
        return Failure(taken.error);
      }
      sessions := sessions + [LearningDay(rules, ReviewedAt(x, m))];
      ledger := ledger[x.session.key := Entry(x, Response(sid, false, taken.value))];
      reply := Success(Response(sid, false, taken.value));
    }
  }

  lemma {:induction false} FailureStays(rules: Rules, r: Session, admits: seq<bool>,
                                        items: map<string, SchedulerItem>, sid: nat, reviewedAt: int, m: nat, n: nat)
    requires m <= n <= |r.reviews| == |admits| && ApplyReviews(rules, r, admits, items, sid, reviewedAt, m).Failure?
    ensures ApplyReviews(rules, r, admits, items, sid, reviewedAt, n) ==
            ApplyReviews(rules, r, admits, items, sid, reviewedAt, m)
  {
    if m < n {
      FailureStays(rules, r, admits, items, sid, reviewedAt, m, n - 1);
    }
  }
}
