// What handoff calls accept, store and show, told from the rows of the tables
// (src/workflow.rs).
module HandoffFacts {
  import opened Outcomes
  import opened Texts
  import opened Handoffs
  import opened HandoffRuns

  // ----- snapshots

  function ActiveBefore(rows: seq<AttemptRow>, n: nat): nat
    requires n <= |rows|
  {
    if n == 0 then 0 else ActiveBefore(rows, n - 1) + (if rows[n - 1].active then 1 else 0)
  }

  // The session can be frozen: one to 64 active attempts, within 128 KiB.
  predicate Freezable(rows: SessionRows) {
    1 <= ActiveBefore(rows.attempts, |rows.attempts|) <= 64 && rows.bytes <= 131072
  }

  // The snapshot shows the session: its active attempts, in order, and nothing else.
  ghost predicate Shows(rows: SessionRows, sid: int, source: Snapshot) {
    && source.sessionId == sid && source.topic == rows.topic && source.requirements == rows.requirements
    && |source.attempts| == ActiveBefore(rows.attempts, |rows.attempts|)
    && forall i :: 0 <= i < |rows.attempts| && rows.attempts[i].active ==> KeptAt(rows.attempts, source.attempts, i)
  }

  predicate KeptAt(rows: seq<AttemptRow>, kept: seq<SourceAttempt>, i: nat)
    requires i < |rows|
  {
    ActiveBefore(rows, i) < |kept| && kept[ActiveBefore(rows, i)] == rows[i].attempt
  }

  lemma {:induction false} OneRowOn(rows: seq<AttemptRow>, n: nat)
    requires 0 < n <= |rows|
    ensures ActiveBefore(rows, n) == (if rows[0].active then 1 else 0) + ActiveBefore(rows[1..], n - 1)
  {
    if n > 1 {
      OneRowOn(rows, n - 1);
    } else {
      assert ActiveBefore(rows, 0) == 0;
    }
  }

  lemma {:induction false} ActiveAreKept(rows: seq<AttemptRow>)
    ensures |ActiveAttempts(rows)| == ActiveBefore(rows, |rows|)
    ensures forall i :: 0 <= i < |rows| && rows[i].active ==> KeptAt(rows, ActiveAttempts(rows), i)
  {
    if rows != [] {
      ActiveAreKept(rows[1..]);
      OneRowOn(rows, |rows|);
      forall i | 0 <= i < |rows| && rows[i].active
        ensures KeptAt(rows, ActiveAttempts(rows), i)
      {
        if i > 0 {
          OneRowOn(rows, i);
          assert KeptAt(rows[1..], ActiveAttempts(rows[1..]), i - 1);
        } else {
          assert ActiveBefore(rows, 0) == 0;
        }
      }
    }
  }

  lemma {:induction false} ActiveRowAt(rows: seq<AttemptRow>, n: nat, k: nat) returns (i: nat)
    requires n <= |rows| && k < ActiveBefore(rows, n)
    ensures i < n && rows[i].active && ActiveBefore(rows, i) == k
  {
    if k < ActiveBefore(rows, n - 1) {
      i := ActiveRowAt(rows, n - 1, k);
    } else {
      i := n - 1;
    }
  }

  // One snapshot shows a session.
  lemma ShownOnce(rows: SessionRows, sid: int, a: Snapshot, b: Snapshot)
    requires Shows(rows, sid, a) && Shows(rows, sid, b)
    ensures a == b
  {
    forall k | 0 <= k < |a.attempts|
      ensures a.attempts[k] == b.attempts[k]
    {
      var i := ActiveRowAt(rows.attempts, |rows.attempts|, k);
      assert KeptAt(rows.attempts, a.attempts, i) && KeptAt(rows.attempts, b.attempts, i);
    }
  }

  lemma SnapshotMeans(sessions: map<int, SessionRows>, sid: int)
    ensures var taken := TakeSnapshot(sessions, sid);
            && (taken.Success? <==> sid in sessions && Freezable(sessions[sid]))
            && (taken.Success? ==> Shows(sessions[sid], sid, taken.value))
            && (taken == Failure(NotFound) <==> sid !in sessions)
  {
    if sid in sessions {
      ActiveAreKept(sessions[sid].attempts);
    }
  }

  // The handoff's snapshot still shows its session as it stands.
  ghost predicate StillShows(desk: Desk, h: Handoff) {
    h.sessionId in desk.sessions && Freezable(desk.sessions[h.sessionId]) &&
    Shows(desk.sessions[h.sessionId], h.sessionId, h.source)
  }

  lemma CurrentMeans(desk: Desk, h: Handoff)
    ensures Current(desk, h) <==> StillShows(desk, h)
  {
    SnapshotMeans(desk.sessions, h.sessionId);
    if StillShows(desk, h) {
      ShownOnce(desk.sessions[h.sessionId], h.sessionId, h.source, TakeSnapshot(desk.sessions, h.sessionId).value);
    }
  }

  // ----- assessments

  // The first attempt of the snapshot with that number.
  predicate Numbered(source: Snapshot, no: int, k: nat) {
    k < |source.attempts| && source.attempts[k].no == no && forall j :: 0 <= j < k ==> source.attempts[j].no != no
  }

  lemma {:induction false} FindsNumbered(attempts: seq<SourceAttempt>, no: int) returns (k: nat)
    ensures var a := Find(attempts, AttemptNumbered(no));
            && (a.None? <==> k == |attempts|)
            && (a.Some? ==> k < |attempts| && attempts[k] == a.value && attempts[k].no == no)
            && k <= |attempts| && forall j :: 0 <= j < k ==> attempts[j].no != no
  {
    if attempts == [] || attempts[0].no == no {
      k := 0;
    } else {
      var rest := FindsNumbered(attempts[1..], no);
      k := rest + 1;
      assert forall j :: 0 < j < k ==> attempts[j] == attempts[1..][j - 1];
    }
  }

  // A repair quotes the attempt it is for, word for word.
  ghost predicate RepairStands(source: Snapshot, x: TutorRepair) {
    && (exists k: nat :: Numbered(source, x.attemptNo, k) && Contains(source.attempts[k].transcript, x.original))
    && TextOk(x.original, 2000) && TextOk(x.hint, 2000) && TextOk(x.suggestion, 2000) && TextOk(x.explanation, 2000)
  }

  // A point is one the attempt's item was asked for; a point met in whole or in
  // part quotes the attempt, and any quotation is word for word.
  ghost predicate PointStands(source: Snapshot, p: TutorPoint) {
    && TextOk(p.pointKey, 500) && TextOk(p.reason, 2000)
    && (p.status == Met || p.status == Partial ==> p.excerpt != None)
    && exists k: nat :: Numbered(source, p.attemptNo, k) && AskedAndQuoted(source, source.attempts[k], p)
  }

  predicate AskedAndQuoted(source: Snapshot, a: SourceAttempt, p: TutorPoint) {
    && (exists r :: r in source.requirements && r.itemNo == a.itemNo && p.pointKey in r.points)
    && match p.excerpt case Some(text) => TextOk(text, 2000) && Contains(a.transcript, text) case None => true
  }

  ghost predicate Assesses(source: Snapshot, f: TutorFeedback) {
    && (forall x :: x in f.repairs ==> RepairStands(source, x))
    && (forall p :: p in f.points ==> PointStands(source, p))
    && forall i, j :: 0 <= i < j < |f.points| && f.points[i].attemptNo == f.points[j].attemptNo ==>
         f.points[i].pointKey != f.points[j].pointKey
  }

  lemma RepairMeans(source: Snapshot, x: TutorRepair)
    ensures RepairOk(source, x) <==> RepairStands(source, x)
  {
    var k := FindsNumbered(source.attempts, x.attemptNo);
    if k < |source.attempts| {
      assert Numbered(source, x.attemptNo, k);
    }
  }

  lemma PointMeans(source: Snapshot, p: TutorPoint)
    ensures PointOk(source, p) <==> PointStands(source, p)
  {
    var k := FindsNumbered(source.attempts, p.attemptNo);
    if k < |source.attempts| {
      assert Numbered(source, p.attemptNo, k);
      RequestedMeans(source, source.attempts[k].itemNo, p.pointKey);
    }
  }

  lemma RequestedMeans(source: Snapshot, itemNo: int, point: string)
    ensures Requested(source, itemNo, point) <==>
            exists r :: r in source.requirements && r.itemNo == itemNo && point in r.points
  {
    if Requested(source, itemNo, point) {
      var k :| 0 <= k < |source.requirements| && source.requirements[k].itemNo == itemNo &&
          point in source.requirements[k].points;
      assert source.requirements[k] in source.requirements;
    }
  }

  lemma AssessmentMeans(source: Snapshot, f: TutorFeedback)
    ensures AssessmentOk(source, f) <==> Assesses(source, f)
  {
    forall i | 0 <= i < |f.repairs|
      ensures RepairOk(source, f.repairs[i]) <==> RepairStands(source, f.repairs[i])
    {
      RepairMeans(source, f.repairs[i]);
    }
    forall i | 0 <= i < |f.points|
      ensures PointOk(source, f.points[i]) <==> PointStands(source, f.points[i])
    {
      PointMeans(source, f.points[i]);
    }
    if Assesses(source, f) {
      assert forall i :: 0 <= i < |f.points| ==> f.points[i] in f.points;
      assert forall i :: 0 <= i < |f.repairs| ==> f.repairs[i] in f.repairs;
    }
  }

  // ----- what is shown

  // The view of a handoff: its row, the assessment on it if there is one, the
  // repairs on it in order, and whether its source still stands.
  ghost predicate Presents(desk: Desk, id: string, view: View) {
    && view.handoff in desk.handoffs && view.handoff.id == id
    && (view.current <==> StillShows(desk, view.handoff))
    && (match view.feedback
        case Some(f) => f in desk.feedback && f.handoffId == id
        case None => forall f :: f in desk.feedback ==> f.handoffId != id)
    && |view.repairs| == RepairsBefore(desk.repairs, id, |desk.repairs|)
    && forall i :: 0 <= i < |desk.repairs| && desk.repairs[i].handoffId == id ==>
         RepairListed(desk.repairs, id, view.repairs, i)
  }

  function RepairsBefore(rows: seq<RepairAttempt>, id: string, n: nat): nat
    requires n <= |rows|
  {
    if n == 0 then 0 else RepairsBefore(rows, id, n - 1) + (if rows[n - 1].handoffId == id then 1 else 0)
  }

  predicate RepairListed(rows: seq<RepairAttempt>, id: string, listed: seq<RepairAttempt>, i: nat)
    requires i < |rows|
  {
    RepairsBefore(rows, id, i) < |listed| && listed[RepairsBefore(rows, id, i)] == rows[i]
  }

  lemma {:induction false} RepairsAreListed(rows: seq<RepairAttempt>, id: string, n: nat)
    requires n <= |rows|
    ensures |Matching(rows[..n], RepairOn(id))| == RepairsBefore(rows, id, n)
    ensures forall i :: 0 <= i < n && rows[i].handoffId == id ==>
              RepairListed(rows, id, Matching(rows[..n], RepairOn(id)), i)
  {
    if n > 0 {
      RepairsAreListed(rows, id, n - 1);
      assert rows[..n][..n - 1] == rows[..n - 1];
      forall i | 0 <= i < n && rows[i].handoffId == id
        ensures RepairListed(rows, id, Matching(rows[..n], RepairOn(id)), i)
      {
        assert i < n - 1 ==> RepairListed(rows, id, Matching(rows[..n - 1], RepairOn(id)), i);
      }
    }
  }

  lemma GetPresents(desk: Desk, id: string)
    ensures Get(desk, id).Success? <==> TextOk(id, 160) && exists h :: h in desk.handoffs && h.id == id
    ensures Get(desk, id).Success? ==> Presents(desk, id, Get(desk, id).value)
  {
    var h := Find(desk.handoffs, HandoffId(id));
    if h.None? {
      forall x | x in desk.handoffs
        ensures x.id != id
      {
        var i :| 0 <= i < |desk.handoffs| && desk.handoffs[i] == x;
        assert !HandoffId(id)(desk.handoffs[i]);
      }
    } else {
      CurrentMeans(desk, h.value);
      RepairsAreListed(desk.repairs, id, |desk.repairs|);
      assert desk.repairs[..|desk.repairs|] == desk.repairs;
      FeedbackShown(desk, id);
    }
  }

  lemma FeedbackShown(desk: Desk, id: string)
    ensures match Find(desk.feedback, FeedbackOn(id))
            case Some(f) => f in desk.feedback && f.handoffId == id
            case None => forall f :: f in desk.feedback ==> f.handoffId != id
  {
    if Find(desk.feedback, FeedbackOn(id)).None? {
      forall f | f in desk.feedback
        ensures f.handoffId != id
      {
        var i :| 0 <= i < |desk.feedback| && desk.feedback[i] == f;
        assert !FeedbackOn(id)(desk.feedback[i]);
      }
    }
  }

  // ----- what is accepted

  ghost predicate KeyUsed(desk: Desk, key: string) {
    exists f :: f in desk.feedback && f.key == key
  }

  lemma KeyFound(desk: Desk, key: string)
    ensures Find(desk.feedback, FeedbackKey(key)).Some? <==> KeyUsed(desk, key)
  {
    if Find(desk.feedback, FeedbackKey(key)).None? {
      forall f | f in desk.feedback
        ensures f.key != key
      {
        var i :| 0 <= i < |desk.feedback| && desk.feedback[i] == f;
        assert !FeedbackKey(key)(desk.feedback[i]);
      }
    }
  }

  // The assessment is the first on a handoff whose source stands, and fits it.
  ghost predicate FirstAndFitting(desk: Desk, f: TutorFeedback) {
    && (forall g :: g in desk.feedback ==> g.handoffId != f.handoffId)
    && exists h :: h in desk.handoffs && h.id == f.handoffId && StillShows(desk, h) && Assesses(h.source, f)
  }

  // Feedback under a new key is stored exactly when it is within its limits, the
  // first on its handoff and fits the source, which still stands.
  lemma NewFeedbackIff(desk: Desk, f: TutorFeedback)
    requires Inv(desk) && !KeyUsed(desk, f.key)
    ensures var out := GiveFeedback(desk, f);
            && (out.reply.Success? <==>
                  && TextOk(f.key, 160) && f.bytes <= 65536 && TextOk(f.summary, 4000) && |f.repairs| <= 2
                  && |f.points| <= 40 && TextOk(f.handoffId, 160) && FirstAndFitting(desk, f))
            && out.desk == (if out.reply.Success? then desk.(feedback := desk.feedback + [f]) else desk)
            && (out.reply.Success? ==>
                  && Presents(out.desk, f.handoffId, out.reply.value) && out.reply.value.status == Created)
  {
    KeyFound(desk, f.key);
    FittingIff(desk, f);
    NewFeedbackStored(desk, f);
    GetPresents(desk.(feedback := desk.feedback + [f]), f.handoffId);
  }

  lemma NewFeedbackStored(desk: Desk, f: TutorFeedback)
    requires Find(desk.feedback, FeedbackKey(f.key)).None?
    ensures var out, view := GiveFeedback(desk, f), Get(desk, f.handoffId);
            var next := desk.(feedback := desk.feedback + [f]);
            && (out.reply.Success? <==>
                  && TextOk(f.key, 160) && f.bytes <= 65536 && TextOk(f.summary, 4000) && |f.repairs| <= 2
                  && |f.points| <= 40 && view.Success? && view.value.current && view.value.feedback.None?
                  && AssessmentOk(view.value.handoff.source, f))
            && (if out.reply.Success? then out.desk == next && out.reply == Marked(Get(next, f.handoffId), Created)
               else out.desk == desk)
  {
    SameHandoffs(desk, desk.(feedback := desk.feedback + [f]), f.handoffId);
  }

  lemma SameHandoffs(desk: Desk, next: Desk, id: string)
    requires next.handoffs == desk.handoffs
    ensures Get(next, id).Success? <==> Get(desk, id).Success?
  {
  }

  lemma FittingIff(desk: Desk, f: TutorFeedback)
    requires Inv(desk)
    ensures Get(desk, f.handoffId).Success? ==> TextOk(f.handoffId, 160)
    ensures var view := Get(desk, f.handoffId);
            TextOk(f.handoffId, 160) && FirstAndFitting(desk, f) <==>
            view.Success? && view.value.current && view.value.feedback.None? &&
              AssessmentOk(view.value.handoff.source, f)
  {
    GetPresents(desk, f.handoffId);
    if Get(desk, f.handoffId).Success? {
      var view := Get(desk, f.handoffId).value;
      OnlyView(desk, f.handoffId, view);
      AssessmentMeans(view.handoff.source, f);
    }
  }

  lemma OneHandoff(desk: Desk, a: Handoff, b: Handoff)
    requires Inv(desk) && a in desk.handoffs && b in desk.handoffs && a.id == b.id
    ensures a == b
  {
    var i :| 0 <= i < |desk.handoffs| && desk.handoffs[i] == a;
    var j :| 0 <= j < |desk.handoffs| && desk.handoffs[j] == b;
  }

  // Feedback under a used key is answered when it is the same again, and is a
  // conflict otherwise; nothing changes.
  lemma UsedKeyIff(desk: Desk, f: TutorFeedback)
    requires Inv(desk) && KeyUsed(desk, f.key) && TextOk(f.key, 160) && f.bytes <= 65536
    ensures var out := GiveFeedback(desk, f);
            && out.desk == desk && (f !in desk.feedback ==> out.reply == Failure(Conflict))
            && (f in desk.feedback ==>
                  && out.reply.Success? && out.reply.value.status == Replayed
                  && Presents(desk, f.handoffId, out.reply.value))
  {
    KeyFound(desk, f.key);
    OneKey(desk, f, Find(desk.feedback, FeedbackKey(f.key)).value);
    if f in desk.feedback {
      StoredIsOk(desk, f);
      HandoffOfFeedback(desk, f);
      GetPresents(desk, f.handoffId);
    }
  }

  lemma StoredIsOk(desk: Desk, f: TutorFeedback)
    requires Inv(desk) && f in desk.feedback
    ensures FeedbackOk(desk, f)
  {
    var i :| 0 <= i < |desk.feedback| && desk.feedback[i] == f;
  }

  lemma OneKey(desk: Desk, f: TutorFeedback, g: TutorFeedback)
    requires Inv(desk) && g in desk.feedback && g.key == f.key
    ensures f in desk.feedback <==> f == g
  {
    if f in desk.feedback {
      var i :| 0 <= i < |desk.feedback| && desk.feedback[i] == f;
      var j :| 0 <= j < |desk.feedback| && desk.feedback[j] == g;
    }
  }

  lemma HandoffOfFeedback(desk: Desk, f: TutorFeedback)
    requires Inv(desk) && FeedbackOk(desk, f)
    ensures Get(desk, f.handoffId).Success?
  {
    var h := Find(desk.handoffs, HandoffId(f.handoffId)).value;
    var i :| 0 <= i < |desk.handoffs| && desk.handoffs[i] == h;
  }

  // A workspace without a handoff gets one exactly when its session can be frozen
  // and the generated identifier is new; the handoff shows the session as it stands.
  lemma NewHandoffIff(desk: Desk, workspace: string, sessionId: int, freshId: string)
    requires TextOk(freshId, 160) && forall h :: h in desk.handoffs ==> h.workspace != workspace
    ensures var out := Create(desk, workspace, sessionId, freshId);
            && (out.reply.Success? <==>
                  && TextOk(workspace, 160) && sessionId > 0 && (forall h :: h in desk.handoffs ==> h.id != freshId)
                  && sessionId in desk.sessions && Freezable(desk.sessions[sessionId]))
            && (out.reply.Failure? ==> out.desk == desk)
            && (out.reply.Success? ==>
                  exists source ::
                    && Shows(desk.sessions[sessionId], sessionId, source)
                    && out.desk == desk.(handoffs := desk.handoffs + [Handoff(freshId, workspace, sessionId, source)])
                    && Presents(out.desk, freshId, out.reply.value))
  {
    SnapshotMeans(desk.sessions, sessionId);
    NoneFound(desk, workspace, freshId);
    var source := TakeSnapshot(desk.sessions, sessionId);
    if source.Success? {
      var h := Handoff(freshId, workspace, sessionId, source.value);
      var next := desk.(handoffs := desk.handoffs + [h]);
      assert next.handoffs[|desk.handoffs|] == h;
      GetPresents(next, freshId);
    }
  }

  lemma NoneFound(desk: Desk, workspace: string, freshId: string)
    requires forall h :: h in desk.handoffs ==> h.workspace != workspace
    ensures Find(desk.handoffs, Workspace(workspace)).None?
    ensures Find(desk.handoffs, HandoffId(freshId)).None? <==> forall h :: h in desk.handoffs ==> h.id != freshId
  {
    if Find(desk.handoffs, HandoffId(freshId)).None? {
      forall h | h in desk.handoffs
        ensures h.id != freshId
      {
        var i :| 0 <= i < |desk.handoffs| && desk.handoffs[i] == h;
        assert !HandoffId(freshId)(desk.handoffs[i]);
      }
    }
  }

  // The source of the handoff stands, its assessment has the repair, and fewer than
  // 64 attempts at its repairs are stored.
  ghost predicate Repairable(desk: Desk, x: RepairAttempt) {
    && (exists h :: h in desk.handoffs && h.id == x.handoffId && StillShows(desk, h))
    && (exists f :: f in desk.feedback && f.handoffId == x.handoffId && 1 <= x.no <= |f.repairs|)
    && RepairsBefore(desk.repairs, x.handoffId, |desk.repairs|) < 64
  }

  // A repair attempt under a new key is stored exactly when it is within its
  // limits and the repair can be attempted.
  lemma NewRepairIff(desk: Desk, x: RepairAttempt)
    requires Inv(desk) && forall y :: y in desk.repairs ==> y.key != x.key
    ensures var out := SaveRepair(desk, x);
            && (out.reply.Success? <==>
                  && TextOk(x.key, 160) && TextOk(x.response, 4000) && TextOk(x.handoffId, 160)
                  && Repairable(desk, x))
            && out.desk == (if out.reply.Success? then desk.(repairs := desk.repairs + [x]) else desk)
            && (out.reply.Success? ==> Presents(out.desk, x.handoffId, out.reply.value))
  {
    KeyNotFound(desk, x);
    RepairableIff(desk, x);
    NewRepairStored(desk, x);
    GetPresents(desk.(repairs := desk.repairs + [x]), x.handoffId);
  }

  lemma NewRepairStored(desk: Desk, x: RepairAttempt)
    requires Find(desk.repairs, RepairKey(x.key)).None?
    ensures var out, view, next := SaveRepair(desk, x), Get(desk, x.handoffId), desk.(repairs := desk.repairs + [x]);
            && (out.reply.Success? <==>
                  && TextOk(x.key, 160) && TextOk(x.response, 4000) && view.Success? && view.value.current
                  && 1 <= x.no <= RepairCount(view.value) && |view.value.repairs| < 64)
            && (if out.reply.Success? then out.desk == next && out.reply == Get(next, x.handoffId)
               else out.desk == desk)
  {
    SameHandoffs(desk, desk.(repairs := desk.repairs + [x]), x.handoffId);
  }

  lemma RepairableIff(desk: Desk, x: RepairAttempt)
    requires Inv(desk)
    ensures Get(desk, x.handoffId).Success? ==> TextOk(x.handoffId, 160)
    ensures TextOk(x.handoffId, 160) && Repairable(desk, x) <==>
            var view := Get(desk, x.handoffId);
            view.Success? && view.value.current && 1 <= x.no <= RepairCount(view.value) && |view.value.repairs| < 64
  {
    GetPresents(desk, x.handoffId);
    if Get(desk, x.handoffId).Success? {
      OnlyView(desk, x.handoffId, Get(desk, x.handoffId).value);
    }
  }

  // Under the invariant a handoff has one row and at most one assessment.
  lemma OnlyView(desk: Desk, id: string, view: View)
    requires Inv(desk) && Presents(desk, id, view)
    ensures forall h :: h in desk.handoffs && h.id == id ==> h == view.handoff
    ensures forall f :: f in desk.feedback && f.handoffId == id ==> view.feedback == Some(f)
  {
    forall h | h in desk.handoffs && h.id == id
      ensures h == view.handoff
    {
      OneHandoff(desk, view.handoff, h);
    }
    forall f | f in desk.feedback && f.handoffId == id
      ensures view.feedback == Some(f)
    {
      var i :| 0 <= i < |desk.feedback| && desk.feedback[i] == f;
      var j :| 0 <= j < |desk.feedback| && desk.feedback[j] == view.feedback.value;
    }
  }

  lemma KeyNotFound(desk: Desk, x: RepairAttempt)
    requires forall y :: y in desk.repairs ==> y.key != x.key
    ensures Find(desk.repairs, RepairKey(x.key)).None?
  {
  }

  // A repair attempt under a used key changes nothing; the same attempt again is
  // answered exactly while the source stands, any other is refused.
  lemma UsedRepairKeyIff(desk: Desk, x: RepairAttempt)
    requires Inv(desk) && exists y :: y in desk.repairs && y.key == x.key
    ensures var out := SaveRepair(desk, x);
            && out.desk == desk && (x !in desk.repairs ==> out.reply.Failure?)
            && (x in desk.repairs && TextOk(x.key, 160) && TextOk(x.handoffId, 160) ==>
                  && (out.reply.Success? <==>
                        exists h :: h in desk.handoffs && h.id == x.handoffId && StillShows(desk, h))
                  && (out.reply.Success? ==> Presents(desk, x.handoffId, out.reply.value)))
  {
    var y := UsedRepairKey(desk, x);
    if x in desk.repairs && TextOk(x.key, 160) && TextOk(x.handoffId, 160) {
      StoredRepairRetry(desk, x);
      GetPresents(desk, x.handoffId);
      OnlyView(desk, x.handoffId, Get(desk, x.handoffId).value);
    }
  }

  lemma UsedRepairKey(desk: Desk, x: RepairAttempt) returns (y: RepairAttempt)
    requires Inv(desk) && exists y :: y in desk.repairs && y.key == x.key
    ensures x in desk.repairs <==> x == y
    ensures SaveRepair(desk, x).desk == desk && (x != y ==> SaveRepair(desk, x).reply.Failure?)
    ensures SaveRepair(desk, x).reply.Success? ==> SaveRepair(desk, x).reply == Get(desk, x.handoffId)
  {
    var z :| z in desk.repairs && z.key == x.key;
    var k :| 0 <= k < |desk.repairs| && desk.repairs[k] == z;
    assert RepairKey(x.key)(desk.repairs[k]);
    y := Find(desk.repairs, RepairKey(x.key)).value;
    OneRepairKey(desk, x, y);
    KnownKeyAnswers(desk, x, y);
  }

  lemma OneRepairKey(desk: Desk, x: RepairAttempt, y: RepairAttempt)
    requires Inv(desk) && y in desk.repairs && y.key == x.key
    ensures x in desk.repairs <==> x == y
  {
    if x in desk.repairs {
      var i :| 0 <= i < |desk.repairs| && desk.repairs[i] == x;
      var j :| 0 <= j < |desk.repairs| && desk.repairs[j] == y;
    }
  }

  lemma KnownKeyAnswers(desk: Desk, x: RepairAttempt, y: RepairAttempt)
    requires Find(desk.repairs, RepairKey(x.key)) == Some(y)
    ensures SaveRepair(desk, x).desk == desk && (x != y ==> SaveRepair(desk, x).reply.Failure?)
    ensures SaveRepair(desk, x).reply.Success? ==> SaveRepair(desk, x).reply == Get(desk, x.handoffId)
  {
  }
}
