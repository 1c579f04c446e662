// Delivery metrics of a recording, in exact arithmetic over detector frames
// (src/practice/analysis.rs, build_delivery_metrics).
module SpeechIntervals {

  // Frames of 512 samples at 16 kHz are 32 ms: 150 ms of speech are five of
  // them, 200 ms of silence seven.
  const MINIMUM_SPEECH: nat := 5
  const MINIMUM_SILENCE: nat := 7

  // Frames start .. end - 1.
  datatype Interval = Interval(start: nat, end: nat)

  // ----- runs of voiced frames

  predicate IsRun(frames: seq<bool>, s: nat, e: nat) {
    && s < e <= |frames|
    && (forall f :: s <= f < e ==> frames[f])
    && (s == 0 || !frames[s - 1]) && (e == |frames| || !frames[e])
  }

  // A maximal run long enough to be speech: 150 ms in frames of 32 ms.
  predicate Qualifies(frames: seq<bool>, s: nat, e: nat) {
    IsRun(frames, s, e) && (e - s) * 32 >= 150
  }

  ghost predicate Ascending(xs: seq<Interval>) {
    && (forall i :: 0 <= i < |xs| ==> xs[i].start < xs[i].end)
    && forall i, j :: 0 <= i < j < |xs| ==> xs[i].end < xs[j].start
  }

  ghost predicate AllRuns(frames: seq<bool>, runs: seq<Interval>) {
    && Ascending(runs)
    && (forall i :: 0 <= i < |runs| ==> Qualifies(frames, runs[i].start, runs[i].end))
    && forall s: nat, e: nat :: Qualifies(frames, s, e) ==> Interval(s, e) in runs
  }

  lemma OneRunEach(frames: seq<bool>, s: nat, e: nat, t: nat, u: nat)
    requires IsRun(frames, s, e) && IsRun(frames, t, u) && s <= t < e
    ensures s == t && e == u
  {
  }

  // The runs that begin before a frame.
  ghost predicate RunsBefore(frames: seq<bool>, runs: seq<Interval>, frame: nat) {
    && Ascending(runs)
    && (forall i :: 0 <= i < |runs| ==> Qualifies(frames, runs[i].start, runs[i].end) && runs[i].end <= frame)
    && forall s: nat, e: nat :: Qualifies(frames, s, e) ==> Interval(s, e) in runs || s >= frame
  }

  lemma RunTaken(frames: seq<bool>, runs: seq<Interval>, start: nat, frame: nat)
    requires RunsBefore(frames, runs, start) && IsRun(frames, start, frame)
    ensures RunsBefore(frames, if frame - start >= MINIMUM_SPEECH then runs + [Interval(start, frame)] else runs, frame)
  {
    forall s: nat, e: nat | Qualifies(frames, s, e) && start <= s < frame
      ensures s == start && e == frame
    {
      OneRunEach(frames, start, frame, s, e);
    }
    forall i | 0 <= i < |runs|
      ensures runs[i].end < start
    {
      assert frames[runs[i].end - 1];
    }
  }

  method ExtractRuns(frames: seq<bool>) returns (runs: seq<Interval>)
    ensures AllRuns(frames, runs)
  {
    runs := [];
    var frame := 0;
    while frame < |frames|
      invariant 0 <= frame <= |frames|
      invariant frame == 0 || frame == |frames| || !frames[frame - 1] || !frames[frame]
      invariant RunsBefore(frames, runs, frame)
    {
      if !frames[frame] {
        frame := frame + 1;
        continue;
      }
      var start := frame;
      while frame < |frames| && frames[frame]
        invariant start <= frame <= |frames|
        invariant forall f :: start <= f < frame ==> frames[f]
      {
        frame := frame + 1;
      }
      RunTaken(frames, runs, start, frame);
      if frame - start >= MINIMUM_SPEECH {
        runs := runs + [Interval(start, frame)];
      }
    }
  }

  // ----- merging

  predicate In(x: Interval, f: nat) {
    x.start <= f < x.end
  }

  predicate InAny(xs: seq<Interval>, f: nat) {
    xs != [] && (InAny(xs[..|xs| - 1], f) || In(xs[|xs| - 1], f))
  }

  // Frame f lies in a gap of less than seven frames between two runs.
  predicate Bridges(a: Interval, b: Interval, f: nat) {
    a.end <= f < b.start < a.end + MINIMUM_SILENCE
  }

  // Frame f is in a run, or bridges two consecutive ones.
  predicate Speech(runs: seq<Interval>, f: nat) {
    runs != [] &&
    (|| Speech(runs[..|runs| - 1], f)
     || In(runs[|runs| - 1], f)
     || (|runs| >= 2 && Bridges(runs[|runs| - 2], runs[|runs| - 1], f)))
  }

  function Merged(runs: seq<Interval>): seq<Interval> {
    if runs == [] then [] else Take(Merged(runs[..|runs| - 1]), runs[|runs| - 1])
  }

  // One more run: it lengthens the last interval or starts a new one.
  function Take(merged: seq<Interval>, x: Interval): seq<Interval> {
    if merged != [] && x.start < merged[|merged| - 1].end + MINIMUM_SILENCE
    then merged[..|merged| - 1] + [Interval(merged[|merged| - 1].start, x.end)]
    else merged + [x]
  }

  // Intervals in order, not empty, and at least seven frames apart.
  predicate Separated(xs: seq<Interval>) {
    xs == [] ||
    (&& Separated(xs[..|xs| - 1]) && xs[|xs| - 1].start < xs[|xs| - 1].end
     && (|xs| >= 2 ==> xs[|xs| - 2].end + MINIMUM_SILENCE <= xs[|xs| - 1].start))
  }

  lemma InitOf(runs: seq<Interval>)
    requires Ascending(runs) && runs != []
    ensures Ascending(runs[..|runs| - 1])
  {
  }

  lemma {:induction false} LastEnd(runs: seq<Interval>)
    requires runs != []
    ensures Merged(runs) != [] && Merged(runs)[|Merged(runs)| - 1].end == runs[|runs| - 1].end
  {
  }

  function Last(xs: seq<Interval>): Interval
    requires xs != []
  {
    xs[|xs| - 1]
  }

  // Taking a later run keeps the intervals apart.
  lemma {:induction false} TakeSeparated(merged: seq<Interval>, x: Interval)
    requires Separated(merged) && x.start < x.end && (merged != [] ==> Last(merged).end < x.start)
    ensures Separated(Take(merged, x))
  {
    var taken := Take(merged, x);
    if merged != [] && x.start < Last(merged).end + MINIMUM_SILENCE {
      assert taken[..|taken| - 1] == merged[..|merged| - 1];
    } else {
      assert taken[..|taken| - 1] == merged;
    }
  }

  lemma {:induction false} MergedIsSeparated(runs: seq<Interval>)
    requires Ascending(runs)
    ensures Separated(Merged(runs))
  {
    if runs != [] {
      var init, x := runs[..|runs| - 1], Last(runs);
      InitOf(runs);
      MergedIsSeparated(init);
      if init != [] {
        LastEnd(init);
        assert Last(init).end < x.start;
      }
      TakeSeparated(Merged(init), x);
    }
  }

  lemma {:induction false} TakeCovers(merged: seq<Interval>, x: Interval, f: nat)
    requires x.start < x.end && (merged != [] ==> Last(merged).start < Last(merged).end < x.start)
    ensures InAny(Take(merged, x), f) <==>
            InAny(merged, f) || In(x, f) || (merged != [] && Bridges(Last(merged), x, f))
  {
    var taken := Take(merged, x);
    if merged != [] && x.start < Last(merged).end + MINIMUM_SILENCE {
      assert taken[..|taken| - 1] == merged[..|merged| - 1];
    } else {
      assert taken[..|taken| - 1] == merged;
    }
  }

  // Merging covers exactly the speech frames.
  lemma {:induction false} MergedIsSpeech(runs: seq<Interval>, f: nat)
    requires Ascending(runs)
    ensures InAny(Merged(runs), f) <==> Speech(runs, f)
  {
    if runs != [] {
      var init, x := runs[..|runs| - 1], Last(runs);
      InitOf(runs);
      MergedIsSpeech(init, f);
      MergedIsSeparated(init);
      if init != [] {
        LastEnd(init);
        assert Last(init) == runs[|runs| - 2];
      }
      TakeCovers(Merged(init), x, f);
    }
  }

  method MergeRuns(runs: seq<Interval>) returns (merged: seq<Interval>)
    ensures merged == Merged(runs)
  {
    merged := [];
    var i := 0;
    while i < |runs|
      invariant 0 <= i <= |runs|
      invariant merged == Merged(runs[..i])
    {
      var x, last := runs[i], |merged| - 1;
      assert runs[..i + 1][..i] == runs[..i];
      if merged != [] && x.start < merged[last].end + MINIMUM_SILENCE {
        merged := merged[last := Interval(merged[last].start, x.end)];
      } else {
        merged := merged + [x];
      }
      i := i + 1;
    }
    assert runs[..i] == runs;
  }

  // ----- the intervals, declaratively

  ghost predicate Starts(frames: seq<bool>, s: nat) {
    exists e: nat :: Qualifies(frames, s, e)
  }

  ghost predicate Ends(frames: seq<bool>, e: nat) {
    exists s: nat :: Qualifies(frames, s, e)
  }

  ghost predicate Voiced(frames: seq<bool>, f: nat) {
    exists s: nat, e: nat :: Qualifies(frames, s, e) && s <= f < e
  }

  ghost predicate Bridged(frames: seq<bool>, f: nat) {
    exists e: nat, s: nat :: Ends(frames, e) && Starts(frames, s) && e <= f < s && (s - e) * 32 < 200
  }

  // In a long enough run of voiced frames, or in a gap of under 200 ms between
  // two of them.
  ghost predicate SpeechFrame(frames: seq<bool>, f: nat) {
    Voiced(frames, f) || Bridged(frames, f)
  }

  ghost predicate SpeechAt(runs: seq<Interval>, f: nat) {
    || (exists i :: 0 <= i < |runs| && In(runs[i], f))
    || (exists i :: 0 < i < |runs| && Bridges(runs[i - 1], runs[i], f))
  }

  lemma {:induction false} SpeechByIndex(runs: seq<Interval>, f: nat)
    ensures Speech(runs, f) <==> SpeechAt(runs, f)
  {
    if runs != [] {
      var init := runs[..|runs| - 1];
      SpeechByIndex(init, f);
      if i :| 0 <= i < |init| && In(init[i], f) {
        assert In(runs[i], f);
      }
      if i :| 0 < i < |init| && Bridges(init[i - 1], init[i], f) {
        assert Bridges(runs[i - 1], runs[i], f);
      }
      if i :| 0 <= i < |runs| && In(runs[i], f) {
        assert i < |init| ==> In(init[i], f);
      }
      if i :| 0 < i < |runs| && Bridges(runs[i - 1], runs[i], f) {
        assert i < |init| ==> Bridges(init[i - 1], init[i], f);
      }
    }
  }

  lemma FromRun(frames: seq<bool>, x: Interval, f: nat)
    requires Qualifies(frames, x.start, x.end) && In(x, f)
    ensures Voiced(frames, f)
  {
  }

  lemma FromBridge(frames: seq<bool>, x: Interval, y: Interval, f: nat)
    requires Qualifies(frames, x.start, x.end) && Qualifies(frames, y.start, y.end) && Bridges(x, y, f)
    ensures Bridged(frames, f)
  {
    assert Ends(frames, x.end) && Starts(frames, y.start);
  }

  lemma SpeechIsFromFrames(frames: seq<bool>, runs: seq<Interval>, f: nat)
    requires (forall i :: 0 <= i < |runs| ==> Qualifies(frames, runs[i].start, runs[i].end)) && SpeechAt(runs, f)
    ensures SpeechFrame(frames, f)
  {
    if i :| 0 <= i < |runs| && In(runs[i], f) {
      FromRun(frames, runs[i], f);
    } else {
      var i :| 0 < i < |runs| && Bridges(runs[i - 1], runs[i], f);
      FromBridge(frames, runs[i - 1], runs[i], f);
    }
  }
  // A gap of under seven frames has no room for another run.
  ghost predicate FarApart(runs: seq<Interval>) {
    forall i, j :: 0 <= i && i + 1 < j < |runs| ==> runs[i].end + MINIMUM_SILENCE <= runs[j].start
  }

  lemma RunsAreFarApart(frames: seq<bool>, runs: seq<Interval>)
    requires AllRuns(frames, runs)
    ensures FarApart(runs)
  {
    forall i, j | 0 <= i && i + 1 < j < |runs|
      ensures runs[i].end + MINIMUM_SILENCE <= runs[j].start
    {
      assert Qualifies(frames, runs[i + 1].start, runs[i + 1].end);
      assert runs[i].end < runs[i + 1].start && runs[i + 1].end < runs[j].start;
    }
  }

  lemma BridgeByIndex(runs: seq<Interval>, x: Interval, y: Interval, f: nat)
    requires Ascending(runs) && FarApart(runs) && x in runs && y in runs && Bridges(x, y, f)
    ensures SpeechAt(runs, f)
  {
    var i :| 0 <= i < |runs| && runs[i] == x;
    var j :| 0 <= j < |runs| && runs[j] == y;
    assert j == i + 1;
    assert Bridges(runs[j - 1], runs[j], f);
  }

  lemma FramesAreSpeech(frames: seq<bool>, runs: seq<Interval>, f: nat)
    requires AllRuns(frames, runs) && SpeechFrame(frames, f)
    ensures SpeechAt(runs, f)
  {
    if Voiced(frames, f) {
      var s: nat, e: nat :| Qualifies(frames, s, e) && s <= f < e;
      assert Interval(s, e) in runs;
    } else {
      var e: nat, s: nat :| Ends(frames, e) && Starts(frames, s) && e <= f < s && (s - e) * 32 < 200;
      var s0: nat :| Qualifies(frames, s0, e);
      var e1: nat :| Qualifies(frames, s, e1);
      RunsAreFarApart(frames, runs);
      BridgeByIndex(runs, Interval(s0, e), Interval(s, e1), f);
    }
  }

  // ----- one list per set of frames

  lemma {:induction false} BeforeLastEnd(xs: seq<Interval>, f: nat)
    requires Separated(xs) && InAny(xs, f)
    ensures f < Last(xs).end
    ensures InAny(xs[..|xs| - 1], f) ==> f + MINIMUM_SILENCE < Last(xs).start
  {
    if InAny(xs[..|xs| - 1], f) {
      BeforeLastEnd(xs[..|xs| - 1], f);
    }
  }

  ghost predicate SameFrames(xs: seq<Interval>, ys: seq<Interval>) {
    forall f: nat :: InAny(xs, f) <==> InAny(ys, f)
  }

  lemma {:induction false} SameLast(xs: seq<Interval>, ys: seq<Interval>)
    requires Separated(xs) && Separated(ys) && SameFrames(xs, ys) && xs != [] && ys != []
    ensures Last(xs).end <= Last(ys).end && (Last(xs).end == Last(ys).end ==> Last(xs).start <= Last(ys).start)
  {
    var e: nat := Last(xs).end - 1;
    assert InAny(xs, e) && InAny(ys, e);
    BeforeLastEnd(ys, e);
    if Last(xs).end == Last(ys).end && Last(ys).start < Last(xs).start {
      var f: nat := Last(xs).start - 1;
      assert InAny(ys, f) && InAny(xs, f);
      BeforeLastEnd(xs, f);
    }
  }

  // Separated intervals are determined by the frames they cover, so there is
  // only one list they can be: the maximal stretches of those frames.
  lemma {:induction false} DeterminedByFrames(xs: seq<Interval>, ys: seq<Interval>)
    requires Separated(xs) && Separated(ys) && SameFrames(xs, ys)
    ensures xs == ys
  {
    if xs != [] {
      assert InAny(xs, Last(xs).start) && InAny(ys, Last(xs).start);
    }
    if ys != [] {
      assert InAny(ys, Last(ys).start) && InAny(xs, Last(ys).start);
      SameLast(xs, ys);
      SameLast(ys, xs);
      var a, b := xs[..|xs| - 1], ys[..|ys| - 1];
      forall f: nat
        ensures InAny(a, f) <==> InAny(b, f)
      {
        if InAny(xs, f) {
          BeforeLastEnd(xs, f);
          BeforeLastEnd(ys, f);
        }
      }
      DeterminedByFrames(a, b);
      assert xs == a + [Last(xs)] && ys == b + [Last(ys)];
    }
  }

  // Two runs of the program on one recording, or any other separated list that
  // covers its speech frames, agree.
  lemma {:induction false} MergedIsTheSpeech(frames: seq<bool>, runs: seq<Interval>, xs: seq<Interval>)
    requires AllRuns(frames, runs)
    ensures Separated(xs) && (forall f: nat :: InAny(xs, f) <==> SpeechFrame(frames, f)) <==> xs == Merged(runs)
  {
    MergedIsSeparated(runs);
    forall f: nat
      ensures InAny(Merged(runs), f) <==> SpeechFrame(frames, f)
    {
      MergedIsSpeech(runs, f);
      SpeechByIndex(runs, f);
      if SpeechAt(runs, f) {
        SpeechIsFromFrames(frames, runs, f);
      }
      if SpeechFrame(frames, f) {
        FramesAreSpeech(frames, runs, f);
      }
    }
    if Separated(xs) && forall f: nat :: InAny(xs, f) <==> SpeechFrame(frames, f) {
      DeterminedByFrames(xs, Merged(runs));
    }
  }
}
