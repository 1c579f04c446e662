// Tutor handoffs: a workspace freezes a session, receives one tutor assessment
// and collects repair attempts, while audits may change the session underneath
// (src/workflow.rs).
module Handoffs {
  import opened Outcomes
  import opened Texts

  datatype SourceAttempt = SourceAttempt(no: int, itemNo: int, transcript: string, details: string)

  datatype Requirement = Requirement(itemNo: int, taskKey: string, points: seq<string>)

  datatype Snapshot = Snapshot(sessionId: int, topic: string, attempts: seq<SourceAttempt>,
    requirements: seq<Requirement>)

  // An attempt joined with its practice item; an audit can take the item out.
  datatype AttemptRow = AttemptRow(attempt: SourceAttempt, active: bool)

  // A session as recorded and amended; bytes is the size of its snapshot's JSON.
  datatype SessionRows = SessionRows(topic: string, attempts: seq<AttemptRow>, requirements: seq<Requirement>,
    bytes: nat)

  datatype Handoff = Handoff(id: string, workspace: string, sessionId: int, source: Snapshot)

  datatype TutorRepair = TutorRepair(attemptNo: int, original: string, hint: string, suggestion: string,
    explanation: string)

  datatype PointStatus = Met | Partial | Missing | Unclear

  datatype TutorPoint = TutorPoint(attemptNo: int, pointKey: string, status: PointStatus, excerpt: Option<string>,
    reason: string)

  // The request is its own stored body; bytes is the size of its JSON.
  datatype TutorFeedback = TutorFeedback(
    handoffId: string, key: string, summary: string, repairs: seq<TutorRepair>, points: seq<TutorPoint>, bytes: nat)

  datatype RepairAttempt = RepairAttempt(handoffId: string, no: nat, response: string, key: string)

  datatype Desk = Desk(
    handoffs: seq<Handoff>, feedback: seq<TutorFeedback>, repairs: seq<RepairAttempt>, sessions: map<int, SessionRows>)

  datatype Error = Invalid | NotFound | Conflict

  datatype Status = Shown | Created | Replayed

  datatype View = View(
    handoff: Handoff, current: bool, feedback: Option<TutorFeedback>, repairs: seq<RepairAttempt>, status: Status)

  datatype Answer = Answer(desk: Desk, reply: Result<View, Error>)

  // ----- queries

  function Find<T>(rows: seq<T>, p: T -> bool): (r: Option<T>)
    ensures r.Some? ==> r.value in rows && p(r.value)
    ensures r.None? ==> forall k :: 0 <= k < |rows| ==> !p(rows[k])
  {
    if rows == [] then None
    else if p(rows[0]) then Some(rows[0])
    else
      var r := Find(rows[1..], p);
      assert r.None? ==> forall k :: 0 <= k < |rows| ==> rows[k] == if k == 0 then rows[0] else rows[1..][k - 1];
      r
  }

  lemma {:induction false} FindKeeps<T>(rows: seq<T>, more: seq<T>, p: T -> bool)
    requires Find(rows, p).Some?
    ensures Find(rows + more, p) == Find(rows, p)
  {
    if !p(rows[0]) {
      assert (rows + more)[1..] == rows[1..] + more;
      FindKeeps(rows[1..], more, p);
    }
  }

  function Matching<T>(rows: seq<T>, p: T -> bool): seq<T> {
    if rows == [] then []
    else Matching(rows[..|rows| - 1], p) + (if p(rows[|rows| - 1]) then [rows[|rows| - 1]] else [])
  }

  function HandoffId(id: string): Handoff -> bool { (h: Handoff) => h.id == id }

  function Workspace(workspace: string): Handoff -> bool { (h: Handoff) => h.workspace == workspace }

  function FeedbackKey(key: string): TutorFeedback -> bool { (f: TutorFeedback) => f.key == key }

  function FeedbackOn(id: string): TutorFeedback -> bool { (f: TutorFeedback) => f.handoffId == id }

  function RepairKey(key: string): RepairAttempt -> bool { (x: RepairAttempt) => x.key == key }

  function RepairOn(id: string): RepairAttempt -> bool { (x: RepairAttempt) => x.handoffId == id }

  function AttemptNumbered(no: int): SourceAttempt -> bool { (a: SourceAttempt) => a.no == no }

  // ----- snapshots

  function ActiveAttempts(rows: seq<AttemptRow>): seq<SourceAttempt> {
    if rows == [] then []
    else (if rows[0].active then [rows[0].attempt] else []) + ActiveAttempts(rows[1..])
  }

  function TakeSnapshot(sessions: map<int, SessionRows>, sid: int): Result<Snapshot, Error> {
    if sid !in sessions then Failure(NotFound)
    else
      var rows := sessions[sid];
      var attempts := ActiveAttempts(rows.attempts);
      if attempts == [] || |attempts| > 64 then Failure(Invalid)
      else if rows.bytes > 131072 then Failure(Invalid)
      else Success(Snapshot(sid, rows.topic, attempts, rows.requirements))
  }

  predicate Current(desk: Desk, h: Handoff) {
    TakeSnapshot(desk.sessions, h.sessionId) == Success(h.source)
  }

  // ----- get

  function ViewOf(desk: Desk, h: Handoff): View {
    View(h, Current(desk, h), Find(desk.feedback, FeedbackOn(h.id)), Matching(desk.repairs, RepairOn(h.id)), Shown)
  }

  function Get(desk: Desk, id: string): Result<View, Error> {
    if !TextOk(id, 160) then Failure(Invalid)
    else
      var h := Find(desk.handoffs, HandoffId(id));
      if h.None? then Failure(NotFound) else Success(ViewOf(desk, h.value))
  }

  function Marked(reply: Result<View, Error>, status: Status): Result<View, Error> {
    if reply.Success? then Success(reply.value.(status := status)) else reply
  }

  function Refused(desk: Desk, error: Error): Answer {
    Answer(desk, Failure(error))
  }

  // ----- create

  // freshId is the identifier generated for this call.
  function Create(desk: Desk, workspace: string, sessionId: int, freshId: string): Answer {
    if !TextOk(workspace, 160) || sessionId <= 0 then Refused(desk, Invalid)
    else
      var prior := Find(desk.handoffs, Workspace(workspace));
      if prior.Some? then
        if prior.value.sessionId != sessionId then Refused(desk, Conflict)
        else Answer(desk, Get(desk, prior.value.id))
      else
        var source := TakeSnapshot(desk.sessions, sessionId);
        if source.Failure? then Refused(desk, source.error)
        else if Find(desk.handoffs, HandoffId(freshId)).Some? then Refused(desk, Conflict)
        else
          var next := desk.(handoffs := desk.handoffs + [Handoff(freshId, workspace, sessionId, source.value)]);
          Answer(next, Get(next, freshId))
  }

  // ----- feedback

  predicate ExcerptOf(source: Snapshot, no: int, excerpt: string) {
    var a := Find(source.attempts, AttemptNumbered(no));
    a.Some? && Contains(a.value.transcript, excerpt)
  }

  predicate RepairOk(source: Snapshot, x: TutorRepair) {
    && Find(source.attempts, AttemptNumbered(x.attemptNo)).Some?
    && TextOk(x.original, 2000) && TextOk(x.hint, 2000) && TextOk(x.suggestion, 2000) && TextOk(x.explanation, 2000)
    && ExcerptOf(source, x.attemptNo, x.original)
  }

  predicate Requested(source: Snapshot, itemNo: int, point: string) {
    exists k :: 0 <= k < |source.requirements| && source.requirements[k].itemNo == itemNo &&
      point in source.requirements[k].points
  }

  predicate PointOk(source: Snapshot, p: TutorPoint) {
    var a := Find(source.attempts, AttemptNumbered(p.attemptNo));
    && a.Some? && TextOk(p.pointKey, 500) && TextOk(p.reason, 2000)
    && Requested(source, a.value.itemNo, p.pointKey)
    && (p.excerpt.Some? ==> TextOk(p.excerpt.value, 2000) && Contains(a.value.transcript, p.excerpt.value))
    && (p.status == Met || p.status == Partial ==> p.excerpt.Some?)
  }

  predicate PointsOk(source: Snapshot, points: seq<TutorPoint>) {
    forall i :: 0 <= i < |points| ==>
      && PointOk(source, points[i])
      && forall j :: 0 <= j < i ==>
           (points[j].attemptNo, points[j].pointKey) != (points[i].attemptNo, points[i].pointKey)
  }

  predicate AssessmentOk(source: Snapshot, f: TutorFeedback) {
    && (forall i :: 0 <= i < |f.repairs| ==> RepairOk(source, f.repairs[i]))
    && PointsOk(source, f.points)
  }

  function GiveFeedback(desk: Desk, f: TutorFeedback): Answer {
    if !TextOk(f.key, 160) || f.bytes > 65536 then Refused(desk, Invalid)
    else
      var prior := Find(desk.feedback, FeedbackKey(f.key));
      if prior.Some? then
        if prior.value != f then Refused(desk, Conflict)
        else Answer(desk, Marked(Get(desk, prior.value.handoffId), Replayed))
      else FirstFeedback(desk, f)
  }

  // Feedback under a key not used before.
  function FirstFeedback(desk: Desk, f: TutorFeedback): Answer {
    if !TextOk(f.summary, 4000) || |f.repairs| > 2 || |f.points| > 40 then Refused(desk, Invalid)
    else
      var view := Get(desk, f.handoffId);
      if view.Failure? then Refused(desk, view.error)
      else if !view.value.current || view.value.feedback.Some? then Refused(desk, Conflict)
      else if !AssessmentOk(view.value.handoff.source, f) then Refused(desk, Invalid)
      else
        var next := desk.(feedback := desk.feedback + [f]);
        Answer(next, Marked(Get(next, f.handoffId), Created))
  }

  // ----- repair

  function RepairCount(view: View): nat {
    if view.feedback.Some? then |view.feedback.value.repairs| else 0
  }

  function SaveRepair(desk: Desk, x: RepairAttempt): Answer {
    if !TextOk(x.key, 160) || !TextOk(x.response, 4000) then Refused(desk, Invalid)
    else
      var view := Get(desk, x.handoffId);
      if view.Failure? then Refused(desk, view.error)
      else if x.no == 0 || x.no > RepairCount(view.value) then Refused(desk, Invalid)
      else if !view.value.current then Refused(desk, Conflict)
      else
        var prior := Find(desk.repairs, RepairKey(x.key));
        if prior.Some? then
          if prior.value != x then Refused(desk, Conflict) else Answer(desk, Get(desk, x.handoffId))
        else if |view.value.repairs| >= 64 then Refused(desk, Invalid)
        else
          var next := desk.(repairs := desk.repairs + [x]);
          Answer(next, Get(next, x.handoffId))
  }

  // ----- runs

  datatype Step =
    | CreateStep(workspace: string, sessionId: int, freshId: string)
    | FeedbackStep(feedback: TutorFeedback)
    | RepairStep(attempt: RepairAttempt)
    | AuditStep(sessions: map<int, SessionRows>)

  function Next(desk: Desk, step: Step): Desk {
    match step
    case CreateStep(w, sid, id) => if TextOk(id, 160) then Create(desk, w, sid, id).desk else desk
    case FeedbackStep(f) => GiveFeedback(desk, f).desk
    case RepairStep(x) => SaveRepair(desk, x).desk
    case AuditStep(sessions) => desk.(sessions := sessions)
  }

  function Run(desk: Desk, steps: seq<Step>): Desk
    decreases |steps|
  {
    if steps == [] then desk else Run(Next(desk, steps[0]), steps[1..])
  }
}
