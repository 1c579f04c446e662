// The handoff tables as the program uses them.
module HandoffDesk {
  import opened Outcomes
  import opened Texts
  import opened Handoffs
  import opened HandoffRuns

  class Workflow {
    var handoffs: seq<Handoff>
    var feedback: seq<TutorFeedback>
    var repairs: seq<RepairAttempt>
    var sessions: map<int, SessionRows>

    function State(): Desk
      reads this
    {
      Desk(handoffs, feedback, repairs, sessions)
    }

    constructor (recorded: map<int, SessionRows>)
      ensures State() == Desk([], [], [], recorded) && Inv(State())
    {
      handoffs, feedback, repairs, sessions := [], [], [], recorded;
      new;
      assert forall id: string :: Matching(State().repairs, RepairOn(id)) == [];
    }

    method CreateHandoff(workspace: string, sessionId: int, freshId: string) returns (reply: Result<View, Error>)
      requires Inv(State()) && TextOk(freshId, 160)
      modifies this
      ensures Answer(State(), reply) == Create(old(State()), workspace, sessionId, freshId)
      ensures Inv(State()) && Extends(old(State()), State())
    {
      CreateKeepsInv(State(), workspace, sessionId, freshId);
      if !TextOk(workspace, 160) || sessionId <= 0 {
        return Failure(Invalid);
      }
      var prior := Find(handoffs, Workspace(workspace));
      if prior.Some? {
        if prior.value.sessionId != sessionId {
          return Failure(Conflict);
        }
        reply := Get(State(), prior.value.id);
        return;
      }
      var source := TakeSnapshot(sessions, sessionId);
      if source.Failure? {
        return Failure(source.error);
      }
      if Find(handoffs, HandoffId(freshId)).Some? {
        return Failure(Conflict);
      }
      handoffs := handoffs + [Handoff(freshId, workspace, sessionId, source.value)];
      reply := Get(State(), freshId);
    }

    method CheckRepairs(source: Snapshot, proposed: seq<TutorRepair>) returns (ok: bool)
      ensures ok <==> forall i :: 0 <= i < |proposed| ==> RepairOk(source, proposed[i])
    {
      var i := 0;
      while i < |proposed|
        invariant 0 <= i <= |proposed|
        invariant forall k :: 0 <= k < i ==> RepairOk(source, proposed[k])
      {
        if !RepairOk(source, proposed[i]) {
          return false;
        }
        i := i + 1;
      }
      ok := true;
    }

    method CheckPoints(source: Snapshot, points: seq<TutorPoint>) returns (ok: bool)
      ensures ok <==> PointsOk(source, points)
    {
      var assessed: set<(int, string)> := {};
      var i := 0;
      while i < |points|
        invariant 0 <= i <= |points|
        invariant forall c :: c in assessed <==>
                    exists k :: 0 <= k < i && (points[k].attemptNo, points[k].pointKey) == c
        invariant PointsOk(source, points[..i])
      {
        var p := points[i];
        if !PointOk(source, p) || (p.attemptNo, p.pointKey) in assessed {
          return false;
        }
        assessed := assessed + {(p.attemptNo, p.pointKey)};
        i := i + 1;
        assert points[..i][..i - 1] == points[..i - 1];
      }
      assert points[..i] == points;
      ok := true;
    }

    method Feedback(f: TutorFeedback) returns (reply: Result<View, Error>)
      requires Inv(State())
      modifies this
      ensures Answer(State(), reply) == GiveFeedback(old(State()), f)
      ensures Inv(State()) && Extends(old(State()), State())
    {
      assert Inv(GiveFeedback(State(), f).desk) && Extends(State(), GiveFeedback(State(), f).desk) by {
        FeedbackKeepsInv(State(), f);
      }
      if !TextOk(f.key, 160) || f.bytes > 65536 {
        return Failure(Invalid);
      }
      var prior := Find(feedback, FeedbackKey(f.key));
      if prior.Some? {
        if prior.value != f {
          return Failure(Conflict);
        }
        reply := Marked(Get(State(), prior.value.handoffId), Replayed);
        return;
      }
      reply := AddFeedback(f);
    }

    method AddFeedback(f: TutorFeedback) returns (reply: Result<View, Error>)
      modifies this
      ensures Answer(State(), reply) == FirstFeedback(old(State()), f)
    {
      if !TextOk(f.summary, 4000) || |f.repairs| > 2 || |f.points| > 40 {
        return Failure(Invalid);
      }
      var view := Get(State(), f.handoffId);
      if view.Failure? {
        return Failure(view.error);
      }
      if !view.value.current || view.value.feedback.Some? {
        return Failure(Conflict);
      }
      var sound := CheckRepairs(view.value.handoff.source, f.repairs);
      if sound {
        sound := CheckPoints(view.value.handoff.source, f.points);
      }
      if !sound {
        return Failure(Invalid);
      }
      feedback := feedback + [f];
      reply := Marked(Get(State(), f.handoffId), Created);
    }

    method Repair(x: RepairAttempt) returns (reply: Result<View, Error>)
      requires Inv(State())
      modifies this
      ensures Answer(State(), reply) == SaveRepair(old(State()), x)
      ensures Inv(State()) && Extends(old(State()), State())
    {
      assert Inv(SaveRepair(State(), x).desk) && Extends(State(), SaveRepair(State(), x).desk) by {
        RepairKeepsInv(State(), x);
      }
      reply := TakeRepair(x);
    }

    method TakeRepair(x: RepairAttempt) returns (reply: Result<View, Error>)
      modifies this
      ensures Answer(State(), reply) == SaveRepair(old(State()), x)
    {
      if !TextOk(x.key, 160) || !TextOk(x.response, 4000) {
        return Failure(Invalid);
      }
      var view := Get(State(), x.handoffId);
      if view.Failure? {
        return Failure(view.error);
      }
      if x.no == 0 || x.no > RepairCount(view.value) {
        return Failure(Invalid);
      }
      if !view.value.current {
        return Failure(Conflict);
      }
      var prior := Find(repairs, RepairKey(x.key));
      if prior.Some? {
        if prior.value != x {
          return Failure(Conflict);
        }
      } else {
        if |view.value.repairs| >= 64 {
          return Failure(Invalid);
        }
        repairs := repairs + [x];
      }
      reply := Get(State(), x.handoffId);
    }
  }
}
