// What the tutor queues list, told from the rows of the tables (src/workflow.rs,
// actions and task_gaps).
module QueueFacts {
  import opened Outcomes
  import opened Handoffs
  import opened HandoffRuns
  import opened HandoffFacts
  import opened TutorQueues

  // ----- unfinished repairs

  // The repairs of f nobody has attempted.
  function Unattempted(desk: Desk, f: TutorFeedback): set<nat> {
    set no: nat | 1 <= no <= |f.repairs| && !Attempted(desk, f.handoffId, no)
  }

  predicate Attempted(desk: Desk, id: string, no: nat) {
    exists k :: 0 <= k < |desk.repairs| && desk.repairs[k].handoffId == id && desk.repairs[k].no == no
  }

  // The handoff's source stands and its assessment has repairs nobody attempted.
  ghost predicate IsPending(desk: Desk, h: Handoff) {
    StillShows(desk, h) && exists f :: f in desk.feedback && f.handoffId == h.id && Unattempted(desk, f) != {}
  }

  ghost predicate Remains(desk: Desk, h: Handoff, action: Action) {
    && action.handoffId == h.id && action.workspace == h.workspace && action.sessionId == h.sessionId
    && exists f :: f in desk.feedback && f.handoffId == h.id && action.remaining == |Unattempted(desk, f)|
  }

  // How many of the n newest handoffs are pending.
  ghost function PendingAmong(desk: Desk, n: nat): nat
    requires n <= |desk.handoffs|
  {
    if n == 0 then 0
    else PendingAmong(desk, n - 1) + (if IsPending(desk, desk.handoffs[|desk.handoffs| - n]) then 1 else 0)
  }

  // The actions of the n newest handoffs, newest first.
  ghost predicate ListsPending(desk: Desk, actions: seq<Action>, n: nat)
    requires n <= |desk.handoffs|
  {
    && |actions| == PendingAmong(desk, n)
    && forall i: nat :: i < n && IsPending(desk, desk.handoffs[|desk.handoffs| - 1 - i]) ==> ActionAt(desk, actions, i)
  }

  ghost predicate ActionAt(desk: Desk, actions: seq<Action>, i: nat)
    requires i < |desk.handoffs|
  {
    PendingAmong(desk, i) < |actions| &&
    Remains(desk, desk.handoffs[|desk.handoffs| - 1 - i], actions[PendingAmong(desk, i)])
  }

  lemma MissingMeans(desk: Desk, f: TutorFeedback)
    ensures MissingRepairs(desk, f) == Unattempted(desk, f)
  {
    forall no: nat
      ensures no in DoneRepairs(desk, f.handoffId) <==> Attempted(desk, f.handoffId, no)
    {
      if Attempted(desk, f.handoffId, no) {
        var k :| 0 <= k < |desk.repairs| && desk.repairs[k].handoffId == f.handoffId && desk.repairs[k].no == no;
        assert desk.repairs[k].no in DoneRepairs(desk, f.handoffId);
      }
    }
  }

  lemma ActionMeans(desk: Desk, h: Handoff)
    requires Inv(desk)
    ensures |ActionFor(desk, h)| == (if IsPending(desk, h) then 1 else 0)
    ensures IsPending(desk, h) ==> Remains(desk, h, ActionFor(desk, h)[0])
  {
    CurrentMeans(desk, h);
    FeedbackShown(desk, h.id);
    var found := Find(desk.feedback, FeedbackOn(h.id));
    forall f | f in desk.feedback && f.handoffId == h.id
      ensures found == Some(f)
    {
      OneFeedback(desk, f, found);
    }
    if found.Some? {
      MissingMeans(desk, found.value);
    }
  }

  lemma OneFeedback(desk: Desk, f: TutorFeedback, found: Option<TutorFeedback>)
    requires Inv(desk) && f in desk.feedback && found == Find(desk.feedback, FeedbackOn(f.handoffId))
    ensures found == Some(f)
  {
    FeedbackShown(desk, f.handoffId);
    var i :| 0 <= i < |desk.feedback| && desk.feedback[i] == f;
    var j :| 0 <= j < |desk.feedback| && desk.feedback[j] == found.value;
  }

  lemma {:induction false} NewestListed(desk: Desk, rows: seq<Handoff>, n: nat)
    requires Inv(desk) && n <= |rows| <= |desk.handoffs|
    requires forall i :: 0 <= i < |rows| ==> rows[i] == desk.handoffs[|desk.handoffs| - 1 - i]
    ensures ListsPending(desk, ActionsFor(desk, rows[..n]), n)
  {
    if n > 0 {
      NewestListed(desk, rows, n - 1);
      OneMoreAction(desk, rows, n - 1);
      ActionMeans(desk, rows[n - 1]);
      OneMorePending(desk, ActionsFor(desk, rows[..n - 1]), ActionFor(desk, rows[n - 1]), n);
    }
  }

  lemma OneMorePending(desk: Desk, actions: seq<Action>, more: seq<Action>, n: nat)
    requires 0 < n <= |desk.handoffs| && ListsPending(desk, actions, n - 1)
    requires var h := desk.handoffs[|desk.handoffs| - n];
             |more| == (if IsPending(desk, h) then 1 else 0) && (IsPending(desk, h) ==> Remains(desk, h, more[0]))
    ensures ListsPending(desk, actions + more, n)
  {
    forall i: nat | i < n && IsPending(desk, desk.handoffs[|desk.handoffs| - 1 - i])
      ensures ActionAt(desk, actions + more, i)
    {
      assert i < n - 1 ==> ActionAt(desk, actions, i);
    }
  }

  // The queue lists exactly the pending ones among the twenty newest handoffs,
  // newest first, each with the number of repairs nobody attempted.
  lemma {:induction false} ActionsMean(desk: Desk)
    requires Inv(desk)
    ensures ListsPending(desk, ActionsFor(desk, Newest(desk.handoffs)),
                         if |desk.handoffs| < 20 then |desk.handoffs| else 20)
  {
    var rows := Newest(desk.handoffs);
    NewestListed(desk, rows, |rows|);
    assert rows[..|rows|] == rows;
  }

  // ----- open task points

  // The attempt a point speaks of answers an item under the task key.
  ghost predicate SpeaksOfTask(source: Snapshot, taskKey: string, p: TutorPoint, item: int) {
    && (exists k: nat :: Numbered(source, p.attemptNo, k) && source.attempts[k].itemNo == item)
    && exists r :: r in source.requirements && r.itemNo == item && r.taskKey == taskKey
  }

  ghost predicate InTask(source: Snapshot, taskKey: string, p: TutorPoint) {
    exists item :: SpeaksOfTask(source, taskKey, p, item)
  }

  // A point counts as a gap when it is met in part or missing.
  ghost predicate EntryOf(source: Snapshot, taskKey: string, p: TutorPoint, e: Entry) {
    && SpeaksOfTask(source, taskKey, p, e.item) && e.point == p.pointKey && e.attempt == p.attemptNo
    && (e.gap <==> p.status == Partial || p.status == Missing)
  }

  ghost function TaskPoints(source: Snapshot, taskKey: string, points: seq<TutorPoint>): nat {
    if points == [] then 0
    else
      TaskPoints(source, taskKey, points[..|points| - 1])
      + (if InTask(source, taskKey, points[|points| - 1]) then 1 else 0)
  }

  // entries are those of the points under the task key, in order.
  ghost predicate EntriesOf(source: Snapshot, taskKey: string, points: seq<TutorPoint>, entries: seq<Entry>) {
    && |entries| == TaskPoints(source, taskKey, points)
    && forall k: nat :: k < |points| && InTask(source, taskKey, points[k]) ==>
         EntryAt(source, taskKey, points, entries, k)
  }

  ghost predicate EntryAt(source: Snapshot, taskKey: string, points: seq<TutorPoint>, entries: seq<Entry>, k: nat)
    requires k < |points|
  {
    TaskPoints(source, taskKey, points[..k]) < |entries| &&
    EntryOf(source, taskKey, points[k], entries[TaskPoints(source, taskKey, points[..k])])
  }

  lemma PointEntry(source: Snapshot, taskKey: string, p: TutorPoint)
    ensures var a := Find(source.attempts, AttemptNumbered(p.attemptNo));
            && (InTask(source, taskKey, p) <==> a.Some? && ForTask(source, a.value.itemNo, taskKey))
            && (a.Some? && ForTask(source, a.value.itemNo, taskKey) ==>
                  SpeaksOfTask(source, taskKey, p, a.value.itemNo))
  {
    var k := FindsNumbered(source.attempts, p.attemptNo);
    if k < |source.attempts| {
      assert Numbered(source, p.attemptNo, k);
      var item := source.attempts[k].itemNo;
      if ForTask(source, item, taskKey) {
        var i :| 0 <= i < |source.requirements| && source.requirements[i].itemNo == item &&
            source.requirements[i].taskKey == taskKey;
        assert source.requirements[i] in source.requirements;
        assert SpeaksOfTask(source, taskKey, p, item);
      }
    }
  }

  lemma {:induction false} PointsListed(source: Snapshot, taskKey: string, points: seq<TutorPoint>)
    ensures EntriesOf(source, taskKey, points, PointEntries(source, taskKey, points))
  {
    if points != [] {
      var init, last := points[..|points| - 1], points[|points| - 1];
      PointsListed(source, taskKey, init);
      PointEntry(source, taskKey, last);
      var entries := PointEntries(source, taskKey, points);
      forall k: nat | k < |points| && InTask(source, taskKey, points[k])
        ensures EntryAt(source, taskKey, points, entries, k)
      {
        if k < |init| {
          assert init[..k] == points[..k] && EntryAt(source, taskKey, init, PointEntries(source, taskKey, init), k);
        } else {
          assert points[..k] == init;
        }
      }
    }
  }

  // The handoffs of a session in the order they were made, at most twenty.
  ghost predicate OfSession(desk: Desk, sid: int, handoffs: seq<Handoff>) {
    var all := SessionCount(desk, sid, |desk.handoffs|);
    && |handoffs| == (if all < 20 then all else 20)
    && forall i: nat :: i < |desk.handoffs| && desk.handoffs[i].sessionId == sid ==> TakenAt(desk, sid, handoffs, i)
  }

  predicate TakenAt(desk: Desk, sid: int, handoffs: seq<Handoff>, i: nat)
    requires i < |desk.handoffs|
  {
    SessionCount(desk, sid, i) < |handoffs| ==> handoffs[SessionCount(desk, sid, i)] == desk.handoffs[i]
  }

  function SessionCount(desk: Desk, sid: int, n: nat): nat
    requires n <= |desk.handoffs|
  {
    if n == 0 then 0 else SessionCount(desk, sid, n - 1) + (if desk.handoffs[n - 1].sessionId == sid then 1 else 0)
  }

  lemma {:induction false} MatchingCounts(desk: Desk, sid: int, p: Handoff -> bool, n: nat)
    requires n <= |desk.handoffs| && forall h :: p(h) <==> h.sessionId == sid
    ensures |Matching(desk.handoffs[..n], p)| == SessionCount(desk, sid, n)
    ensures forall i: nat :: i < n && desk.handoffs[i].sessionId == sid ==>
              && SessionCount(desk, sid, i) < SessionCount(desk, sid, n)
              && Matching(desk.handoffs[..n], p)[SessionCount(desk, sid, i)] == desk.handoffs[i]
  {
    if n > 0 {
      MatchingCounts(desk, sid, p, n - 1);
      assert desk.handoffs[..n][..n - 1] == desk.handoffs[..n - 1];
    }
  }

  lemma SessionHandoffsMean(desk: Desk, sid: int)
    ensures OfSession(desk, sid, SessionHandoffs(desk, sid))
  {
    MatchingCounts(desk, sid, (h: Handoff) => h.sessionId == sid, |desk.handoffs|);
    assert desk.handoffs[..|desk.handoffs|] == desk.handoffs;
  }

  // The entries of a handoff: those of the points on it, while its source stands.
  lemma HandoffEntriesMean(desk: Desk, taskKey: string, h: Handoff)
    ensures var entries := HandoffEntries(desk, taskKey, h);
            if StillShows(desk, h) && exists f :: f in desk.feedback && f.handoffId == h.id then
              exists f :: f in desk.feedback && f.handoffId == h.id && EntriesOf(h.source, taskKey, f.points, entries)
            else entries == []
  {
    CurrentMeans(desk, h);
    FeedbackShown(desk, h.id);
    var f := Find(desk.feedback, FeedbackOn(h.id));
    if f.Some? {
      PointsListed(h.source, taskKey, f.value.points);
    }
  }
}
