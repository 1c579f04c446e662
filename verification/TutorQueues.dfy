// What the handoff tables tell the learner to do next: unfinished repairs and
// task points still open (src/workflow.rs, actions and task_gaps).
module TutorQueues {
  import opened Outcomes
  import opened Handoffs
  import opened HandoffRuns

  // ----- unfinished repairs

  datatype Action = Action(handoffId: string, workspace: string, sessionId: int, remaining: nat)

  function DoneRepairs(desk: Desk, id: string): set<nat> {
    set k | 0 <= k < |desk.repairs| && desk.repairs[k].handoffId == id :: desk.repairs[k].no
  }

  function MissingRepairs(desk: Desk, f: TutorFeedback): set<nat> {
    set n: nat | 1 <= n <= |f.repairs| && n !in DoneRepairs(desk, f.handoffId)
  }

  function OneTo(n: nat): (s: set<nat>)
    ensures |s| == n && forall k: nat :: k in s <==> 1 <= k <= n
  {
    if n == 0 then {} else OneTo(n - 1) + {n}
  }

  lemma RepairsNameTheFeedback(desk: Desk, f: TutorFeedback)
    requires Inv(desk) && Find(desk.feedback, FeedbackOn(f.handoffId)) == Some(f)
    ensures DoneRepairs(desk, f.handoffId) <= OneTo(|f.repairs|)
  {
    forall k | 0 <= k < |desk.repairs| && desk.repairs[k].handoffId == f.handoffId
      ensures 1 <= desk.repairs[k].no <= |f.repairs|
    {
      assert RepairAttemptOk(desk, desk.repairs[k]);
    }
  }

  // Counting suffices: fewer distinct repairs done than proposed exactly when
  // some proposed repair has no attempt, and the difference is how many.
  lemma CountingFindsMissing(desk: Desk, f: TutorFeedback)
    requires Inv(desk) && Find(desk.feedback, FeedbackOn(f.handoffId)) == Some(f)
    ensures |f.repairs| - |DoneRepairs(desk, f.handoffId)| == |MissingRepairs(desk, f)|
    ensures |f.repairs| > |DoneRepairs(desk, f.handoffId)| <==> exists n: nat :: n in MissingRepairs(desk, f)
  {
    RepairsNameTheFeedback(desk, f);
    var all, done := OneTo(|f.repairs|), DoneRepairs(desk, f.handoffId);
    assert MissingRepairs(desk, f) == all - done;
    assert |all - done| == |all| - |done|;
    if |MissingRepairs(desk, f)| > 0 {
      var n :| n in MissingRepairs(desk, f);
    }
  }

  // The twenty newest handoffs, newest first.
  function Newest(handoffs: seq<Handoff>): seq<Handoff> {
    var n := if |handoffs| <= 20 then |handoffs| else 20;
    seq(n, i requires 0 <= i < n => handoffs[|handoffs| - 1 - i])
  }

  function ActionFor(desk: Desk, h: Handoff): seq<Action> {
    var f := Find(desk.feedback, FeedbackOn(h.id));
    if f.Some? && Current(desk, h) && MissingRepairs(desk, f.value) != {}
    then [Action(h.id, h.workspace, h.sessionId, |MissingRepairs(desk, f.value)|)]
    else []
  }

  function ActionsFor(desk: Desk, handoffs: seq<Handoff>): seq<Action> {
    if handoffs == [] then []
    else ActionsFor(desk, handoffs[..|handoffs| - 1]) + ActionFor(desk, handoffs[|handoffs| - 1])
  }

  lemma {:induction false} OneMoreAction(desk: Desk, handoffs: seq<Handoff>, i: nat)
    requires i < |handoffs|
    ensures ActionsFor(desk, handoffs[..i + 1]) == ActionsFor(desk, handoffs[..i]) + ActionFor(desk, handoffs[i])
  {
    assert handoffs[..i + 1][..i] == handoffs[..i];
  }

  method PendingRepairs(desk: Desk, h: Handoff) returns (out: seq<Action>)
    requires Inv(desk)
    ensures out == ActionFor(desk, h)
  {
    out := [];
    var f := Find(desk.feedback, FeedbackOn(h.id));
    if f.Some? {
      CountingFindsMissing(desk, f.value);
      var done := DoneRepairs(desk, h.id);
      if |f.value.repairs| > |done| && Current(desk, h) {
        out := [Action(h.id, h.workspace, h.sessionId, |f.value.repairs| - |done|)];
      }
    }
  }

  method Actions(desk: Desk) returns (out: seq<Action>)
    requires Inv(desk)
    ensures out == ActionsFor(desk, Newest(desk.handoffs))
  {
    out := [];
    var rows := Newest(desk.handoffs);
    var i := 0;
    while i < |rows|
      invariant 0 <= i <= |rows|
      invariant out == ActionsFor(desk, rows[..i])
    {
      OneMoreAction(desk, rows, i);
      var due := PendingRepairs(desk, rows[i]);
      out := out + due;
      i := i + 1;
    }
    assert rows[..i] == rows;
  }

  // ----- open task points

  datatype Entry = Entry(item: int, point: string, attempt: int, gap: bool)

  function Key(e: Entry): (int, string) {
    (e.item, e.point)
  }

  // Entry k decides its point: no entry for the point has a greater attempt
  // number, and none with the same number comes later.
  predicate Deciding(entries: seq<Entry>, k: nat) {
    && k < |entries|
    && forall j :: 0 <= j < |entries| && Key(entries[j]) == Key(entries[k]) ==>
         entries[j].attempt < entries[k].attempt || (entries[j].attempt == entries[k].attempt && j <= k)
  }

  function OpenPoints(entries: seq<Entry>): set<(int, string)> {
    set k | 0 <= k < |entries| && Deciding(entries, k) && entries[k].gap :: Key(entries[k])
  }

  lemma {:induction false} EveryPointIsDecided(entries: seq<Entry>, k: nat) returns (d: nat)
    requires k < |entries|
    ensures Deciding(entries, d) && Key(entries[d]) == Key(entries[k])
    ensures forall e: nat :: Deciding(entries, e) && Key(entries[e]) == Key(entries[k]) ==> e == d
  {
    d := k;
    var j := 0;
    while j < |entries|
      invariant 0 <= j <= |entries| && d < |entries| && Key(entries[d]) == Key(entries[k])
      invariant forall i :: 0 <= i < j && Key(entries[i]) == Key(entries[k]) ==>
                  entries[i].attempt < entries[d].attempt || (entries[i].attempt == entries[d].attempt && i <= d)
    {
      if Key(entries[j]) == Key(entries[k]) &&
          (entries[j].attempt > entries[d].attempt || (entries[j].attempt == entries[d].attempt && j > d)) {
        d := j;
      }
      j := j + 1;
    }
  }

  type Latest = map<(int, string), (int, bool)>

  ghost predicate Folded(entries: seq<Entry>, latest: Latest) {
    && (forall k :: 0 <= k < |entries| ==> Key(entries[k]) in latest)
    && forall key :: key in latest ==> exists k: nat :: Decides(entries, k, key, latest[key])
  }

  ghost predicate Decides(entries: seq<Entry>, k: nat, key: (int, string), value: (int, bool)) {
    Deciding(entries, k) && Key(entries[k]) == key && value == (entries[k].attempt, entries[k].gap)
  }

  // The later of two assessments of one point counts, by attempt number.
  function Accepted(latest: Latest, e: Entry): Latest {
    if Key(e) in latest && e.attempt < latest[Key(e)].0 then latest else latest[Key(e) := (e.attempt, e.gap)]
  }

  lemma AcceptFolds(entries: seq<Entry>, latest: Latest, e: Entry)
    requires Folded(entries, latest)
    ensures Folded(entries + [e], Accepted(latest, e))
  {
    var next := Accepted(latest, e);
    forall key | key in next
      ensures exists k: nat :: Decides(entries + [e], k, key, next[key])
    {
      var k := AcceptDecides(entries, latest, e, key);
    }
  }

  lemma AcceptDecides(entries: seq<Entry>, latest: Latest, e: Entry, key: (int, string)) returns (k: nat)
    requires Folded(entries, latest) && key in Accepted(latest, e)
    ensures Decides(entries + [e], k, key, Accepted(latest, e)[key])
  {
    if key in latest {
      k :| Decides(entries, k, key, latest[key]);
    }
    if key == Key(e) && (key !in latest || e.attempt >= latest[key].0) {
      k := |entries|;
    }
  }

  function PointEntries(source: Snapshot, taskKey: string, points: seq<TutorPoint>): seq<Entry> {
    if points == [] then []
    else
      var p := points[|points| - 1];
      var a := Find(source.attempts, AttemptNumbered(p.attemptNo));
      PointEntries(source, taskKey, points[..|points| - 1])
      + (if a.Some? && ForTask(source, a.value.itemNo, taskKey)
         then [Entry(a.value.itemNo, p.pointKey, p.attemptNo, p.status == Partial || p.status == Missing)] else [])
  }

  predicate ForTask(source: Snapshot, itemNo: int, taskKey: string) {
    exists k :: 0 <= k < |source.requirements| && source.requirements[k].itemNo == itemNo &&
      source.requirements[k].taskKey == taskKey
  }

  function HandoffEntries(desk: Desk, taskKey: string, h: Handoff): seq<Entry> {
    var f := Find(desk.feedback, FeedbackOn(h.id));
    if Current(desk, h) && f.Some? then PointEntries(h.source, taskKey, f.value.points) else []
  }

  function TutorEntries(desk: Desk, taskKey: string, handoffs: seq<Handoff>): seq<Entry> {
    if handoffs == [] then []
    else TutorEntries(desk, taskKey, handoffs[..|handoffs| - 1]) + HandoffEntries(desk, taskKey,
      handoffs[|handoffs| - 1])
  }

  function SessionHandoffs(desk: Desk, sid: int): seq<Handoff> {
    var all := Matching(desk.handoffs, (h: Handoff) => h.sessionId == sid);
    if |all| <= 20 then all else all[..20]
  }

  method AcceptAll(latest: Latest, ghost entries: seq<Entry>, more: seq<Entry>) returns (next: Latest)
    requires Folded(entries, latest)
    ensures Folded(entries + more, next)
  {
    next := latest;
    ghost var seen := entries;
    var i := 0;
    while i < |more|
      invariant 0 <= i <= |more|
      invariant seen == entries + more[..i]
      invariant Folded(seen, next)
    {
      AcceptFolds(seen, next, more[i]);
      next := Accepted(next, more[i]);
      OneMoreEntry(entries, more, i);
      seen := seen + [more[i]];
      i := i + 1;
    }
    assert more[..i] == more;
  }

  lemma OneMoreEntry(entries: seq<Entry>, more: seq<Entry>, i: nat)
    requires i < |more|
    ensures entries + more[..i] + [more[i]] == entries + more[..i + 1]
  {
  }

  lemma GapsCounted(entries: seq<Entry>, latest: Latest)
    requires Folded(entries, latest)
    ensures (set key | key in latest && latest[key].1) == OpenPoints(entries)
  {
    forall key | key in latest
      ensures latest[key].1 <==> key in OpenPoints(entries)
    {
      var k: nat :| Decides(entries, k, key, latest[key]);
      var d := EveryPointIsDecided(entries, k);
    }
    forall key | key in OpenPoints(entries)
      ensures key in latest
    {
      var k :| 0 <= k < |entries| && Deciding(entries, k) && entries[k].gap && Key(entries[k]) == key;
    }
  }

  lemma {:induction false} OneMoreHandoff(desk: Desk, taskKey: string, handoffs: seq<Handoff>, i: nat,
    start: seq<Entry>)
    requires i < |handoffs|
    ensures start + TutorEntries(desk, taskKey, handoffs[..i]) + HandoffEntries(desk, taskKey, handoffs[i])
         == start + TutorEntries(desk, taskKey, handoffs[..i + 1])
  {
    assert handoffs[..i + 1][..i] == handoffs[..i];
  }

  method FoldTutorPoints(desk: Desk, taskKey: string, handoffs: seq<Handoff>, recorded: Latest, ghost start: seq<Entry>)
    returns (latest: Latest)
    requires Folded(start, recorded)
    ensures Folded(start + TutorEntries(desk, taskKey, handoffs), latest)
  {
    latest := recorded;
    ghost var entries := start;
    var i := 0;
    assert start + TutorEntries(desk, taskKey, handoffs[..0]) == start;
    while i < |handoffs|
      invariant 0 <= i <= |handoffs|
      invariant entries == start + TutorEntries(desk, taskKey, handoffs[..i])
      invariant Folded(entries, latest)
    {
      latest := AcceptAll(latest, entries, HandoffEntries(desk, taskKey, handoffs[i]));
      OneMoreHandoff(desk, taskKey, handoffs, i, start);
      entries := entries + HandoffEntries(desk, taskKey, handoffs[i]);
      i := i + 1;
    }
    assert handoffs[..i] == handoffs;
  }

  // sid is the latest session with this exam task and canonical its recorded assessments,
  // self-reports excluded, in attempt order: both are read by query.
  method TaskGaps(desk: Desk, taskKey: string, sid: Option<int>, canonical: seq<Entry>) returns (gaps: nat)
    ensures sid.None? ==> gaps == 0
    ensures sid.Some? ==>
              gaps == |OpenPoints(canonical + TutorEntries(desk, taskKey, SessionHandoffs(desk, sid.value)))|
  {
    if sid.None? {
      return 0;
    }
    var recorded := AcceptAll(map[], [], canonical);
    assert [] + canonical == canonical;
    var handoffs := SessionHandoffs(desk, sid.value);
    var latest := FoldTutorPoints(desk, taskKey, handoffs, recorded, canonical);
    GapsCounted(canonical + TutorEntries(desk, taskKey, handoffs), latest);
    gaps := |set key | key in latest && latest[key].1|;
  }
}
