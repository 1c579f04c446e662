// Pauses and burden of a recording, from its speech intervals
// (src/practice/analysis.rs, build_delivery_metrics).
module DeliveryMetrics {
  import opened Outcomes
  import opened SpeechIntervals
  import opened Sums

  const FRAME_SAMPLES: nat := 512
  // One minute at 16 kHz.
  const MINUTE: nat := 960000
  // Half a second and two seconds, in samples.
  const INTERNAL_PAUSE: nat := 8000
  const LONG_PAUSE: nat := 32000

  // All durations are in samples of the detector's 16 kHz timeline.
  datatype Metrics = Metrics(
    span: Option<nat>, active: Option<nat>, internalPauses: Option<nat>, longPauses: Option<nat>,
    pauseTime: Option<nat>, burden: Option<real>, perMinute: Option<real>, longest: Option<nat>,
    intervals: seq<Interval>)

  function ActiveFrames(xs: seq<Interval>): int {
    if xs == [] then 0 else ActiveFrames(xs[..|xs| - 1]) + Last(xs).end - Last(xs).start
  }

  function Max0(n: int): nat {
    if n < 0 then 0 else n
  }

  // windows(2): the gap before each interval but the first, in samples.
  function Gaps(xs: seq<Interval>): seq<nat> {
    if |xs| < 2 then []
    else Gaps(xs[..|xs| - 1]) + [Max0(xs[|xs| - 1].start - xs[|xs| - 2].end) * FRAME_SAMPLES]
  }

  // Where an interval ends in a recording of that many samples.
  function EndSample(x: Interval, samples: nat): nat {
    if x.end * FRAME_SAMPLES < samples then x.end * FRAME_SAMPLES else samples
  }

  function ClippedActive(xs: seq<Interval>, samples: nat): int {
    if xs == [] then 0
    else ClippedActive(xs[..|xs| - 1], samples) + EndSample(Last(xs), samples) - Last(xs).start * FRAME_SAMPLES
  }

  function ClippedGaps(xs: seq<Interval>, samples: nat): seq<nat> {
    if |xs| < 2 then []
    else
      ClippedGaps(xs[..|xs| - 1], samples)
      + [Max0(xs[|xs| - 1].start * FRAME_SAMPLES - EndSample(xs[|xs| - 2], samples))]
  }

  predicate Within(xs: seq<Interval>, frames: nat) {
    forall k :: 0 <= k < |xs| ==> xs[k].end <= frames
  }

  // The detector sees whole frames only, so cutting ends off at the length of
  // the recording never takes anything away.
  lemma {:induction false} ClipNeverBites(xs: seq<Interval>, frames: nat, samples: nat)
    requires Within(xs, frames) && frames * FRAME_SAMPLES <= samples
    ensures ClippedActive(xs, samples) == ActiveFrames(xs) * FRAME_SAMPLES && ClippedGaps(xs, samples) == Gaps(xs)
    ensures xs != [] ==> EndSample(Last(xs), samples) == Last(xs).end * FRAME_SAMPLES
  {
    if xs != [] {
      ClipNeverBites(xs[..|xs| - 1], frames, samples);
    }
  }

  function AtLeast(xs: seq<nat>, low: nat): seq<nat> {
    if xs == [] then []
    else
      var earlier, last := AtLeast(xs[..|xs| - 1], low), xs[|xs| - 1];
      if last >= low then earlier + [last] else earlier
  }

  function Largest(xs: seq<nat>): (m: nat)
    requires xs != []
    ensures m in xs && forall k :: 0 <= k < |xs| ==> xs[k] <= m
  {
    var last := xs[|xs| - 1];
    if |xs| == 1 then last
    else
      var earlier := Largest(xs[..|xs| - 1]);
      assert forall k :: 0 <= k < |xs| - 1 ==> xs[k] == xs[..|xs| - 1][k];
      if last > earlier then last else earlier
  }

  function Clamp(x: real): real {
    if x < 0.0 then 0.0 else if x > 1.0 then 1.0 else x
  }

  function Ratio(part: nat, whole: nat): real
    requires whole > 0
  {
    part as real / whole as real
  }

  // ----- accounting

  // The span is the speech plus every gap, and no gap needs flooring at zero.
  lemma {:induction false} SpanIsSpeechAndGaps(xs: seq<Interval>)
    requires Separated(xs) && xs != []
    ensures (Last(xs).end - xs[0].start) * FRAME_SAMPLES == ActiveFrames(xs) * FRAME_SAMPLES + Sum(Gaps(xs))
    ensures ActiveFrames(xs) > 0
    ensures |Gaps(xs)| == |xs| - 1 && forall k :: 0 <= k < |Gaps(xs)| ==> Gaps(xs)[k] >= MINIMUM_SILENCE * FRAME_SAMPLES
  {
    var init := xs[..|xs| - 1];
    if init != [] {
      SpanIsSpeechAndGaps(init);
    }
  }

  lemma {:induction false} AtLeastIsPart(xs: seq<nat>, low: nat)
    ensures Sum(AtLeast(xs, low)) <= Sum(xs) && |AtLeast(xs, low)| <= |xs|
    ensures forall k :: 0 <= k < |AtLeast(xs, low)| ==> AtLeast(xs, low)[k] >= low
  {
    if xs != [] {
      var earlier := AtLeast(xs[..|xs| - 1], low);
      AtLeastIsPart(xs[..|xs| - 1], low);
      assert (earlier + [xs[|xs| - 1]])[..|earlier|] == earlier;
    }
  }

  ghost predicate Accounts(m: Metrics) {
    && Separated(m.intervals)
    && (m.intervals == [] ==> m == Metrics(None, None, None, None, None, None, None, None, []))
    && (m.intervals != [] ==>
          && m.span.Some? && m.active.Some? && m.pauseTime.Some? && m.internalPauses.Some? && m.longPauses.Some?
          && m.burden.Some? && m.perMinute.Some?
          && TimesAddUp(m) && PausesCounted(m))
  }

  ghost predicate TimesAddUp(m: Metrics)
    requires m.intervals != [] && m.span.Some? && m.active.Some? && m.pauseTime.Some? && m.burden.Some?
  {
    && m.span.value == (Last(m.intervals).end - m.intervals[0].start) * FRAME_SAMPLES
    && m.active.value == ActiveFrames(m.intervals) * FRAME_SAMPLES > 0
    && m.span.value == m.active.value + Sum(Gaps(m.intervals))
    && m.pauseTime.value <= m.span.value - m.active.value
    && m.burden.value == Ratio(m.pauseTime.value, m.span.value) && 0.0 <= m.burden.value < 1.0
  }

  ghost predicate PausesCounted(m: Metrics)
    requires m.intervals != [] && m.pauseTime.Some? && m.internalPauses.Some? && m.longPauses.Some? && m.span.Some? &&
             m.perMinute.Some?
  {
    var pauses := AtLeast(Gaps(m.intervals), INTERNAL_PAUSE);
    && m.pauseTime.value == Sum(pauses)
    && m.internalPauses.value == |pauses| <= |m.intervals| - 1
    && m.longPauses.value == |AtLeast(pauses, LONG_PAUSE)| <= |pauses|
    && m.longest == (if pauses == [] then None else Some(Largest(pauses)))
    && m.span.value > 0 && m.perMinute.value == Ratio(|pauses| * MINUTE, m.span.value)
  }

  lemma RatioBelowOne(part: nat, whole: nat)
    requires part < whole
    ensures 0.0 <= Ratio(part, whole) < 1.0
  {
  }

  method Measure(merged: seq<Interval>, ghost frames: nat, samples: nat) returns (m: Metrics)
    requires Separated(merged) && merged != [] && Within(merged, frames) && frames * FRAME_SAMPLES <= samples
    ensures Accounts(m) && m.intervals == merged
  {
    SpanIsSpeechAndGaps(merged);
    ClipNeverBites(merged, frames, samples);
    var span := Max0(EndSample(merged[|merged| - 1], samples) - merged[0].start * FRAME_SAMPLES);
    var active := ClippedActive(merged, samples);
    var gaps := AtLeast(ClippedGaps(merged, samples), INTERNAL_PAUSE);
    var longGaps := AtLeast(gaps, LONG_PAUSE);
    AtLeastIsPart(Gaps(merged), INTERNAL_PAUSE);
    AtLeastIsPart(gaps, LONG_PAUSE);
    var pauseTime := Sum(gaps);
    RatioBelowOne(pauseTime, span);
    var burden := Clamp(Ratio(pauseTime, span));
    var perMinute := Ratio(|gaps| * MINUTE, span);
    m := Metrics(Some(span), Some(active), Some(|gaps|), Some(|longGaps|), Some(pauseTime), Some(burden),
                 Some(perMinute), if gaps == [] then None else Some(Largest(gaps)), merged);
  }

  lemma {:induction false} EndsAreCovered(xs: seq<Interval>, k: nat)
    requires Separated(xs) && k < |xs|
    ensures xs[k].start < xs[k].end && InAny(xs, xs[k].end - 1)
  {
    if k < |xs| - 1 {
      EndsAreCovered(xs[..|xs| - 1], k);
    }
  }

  lemma {:induction false} SpeechStaysWithin(frames: seq<bool>, xs: seq<Interval>)
    requires Separated(xs) && forall f: nat :: InAny(xs, f) <==> SpeechFrame(frames, f)
    ensures Within(xs, |frames|)
  {
    forall k | 0 <= k < |xs|
      ensures xs[k].end <= |frames|
    {
      EndsAreCovered(xs, k);
      var f: nat := xs[k].end - 1;
      assert InAny(xs, f) && SpeechFrame(frames, f);
    }
  }

  // The metrics of the recording: its maximal stretches of speech frames, with
  // time that adds up and a burden that never needs clamping.  The frames are the
  // whole ones among the samples, or none when the detector fails.
  method BuildDeliveryMetrics(frames: seq<bool>, samples: nat) returns (m: Metrics)
    requires |frames| * FRAME_SAMPLES <= samples
    ensures forall f: nat :: InAny(m.intervals, f) <==> SpeechFrame(frames, f)
    ensures Accounts(m) && (m.intervals != [] ==> Figures(m))
  {
    var runs := ExtractRuns(frames);
    var merged := MergeRuns(runs);
    MergedIsTheSpeech(frames, runs, merged);
    if merged == [] {
      m := Metrics(None, None, None, None, None, None, None, None, []);
    } else {
      SpeechStaysWithin(frames, merged);
      m := Measure(merged, |frames|, samples);
      MetricsMean(m);
    }
  }

  // ----- the figures, from the intervals alone

  // The samples between interval k and the one before it.
  function GapBefore(xs: seq<Interval>, k: nat): int
    requires 0 < k < |xs|
  {
    (xs[k].start - xs[k - 1].end) * 512
  }

  // The intervals with at least so many samples of silence before them.
  function AfterPause(xs: seq<Interval>, low: nat): set<nat> {
    set k: nat | 0 < k < |xs| && GapBefore(xs, k) >= low
  }

  function PauseTime(xs: seq<Interval>, low: nat, n: nat): int
    requires n <= |xs|
  {
    if n == 0 then 0 else PauseTime(xs, low, n - 1) + (if n - 1 in AfterPause(xs, low) then GapBefore(xs, n - 1) else 0)
  }

  function SpeechTime(xs: seq<Interval>, n: nat): int
    requires n <= |xs|
  {
    if n == 0 then 0 else SpeechTime(xs, n - 1) + (xs[n - 1].end - xs[n - 1].start) * 512
  }

  predicate IsRatio(x: real, part: int, whole: int) {
    x * whole as real == part as real
  }

  // The figures of a recording with speech: every one follows from the intervals.
  ghost predicate Figures(m: Metrics)
    requires m.intervals != []
  {
    var xs, n := m.intervals, |m.intervals|;
    && m.span == Some((xs[n - 1].end - xs[0].start) * 512) && m.active == Some(SpeechTime(xs, n))
    && m.internalPauses == Some(|AfterPause(xs, 8000)|) && m.longPauses == Some(|AfterPause(xs, 32000)|)
    && m.pauseTime == Some(PauseTime(xs, 8000, n))
    && m.burden.Some? && IsRatio(m.burden.value, m.pauseTime.value, m.span.value)
    && m.perMinute.Some? && IsRatio(m.perMinute.value, m.internalPauses.value * 960000, m.span.value)
    && (m.longest.None? <==> AfterPause(xs, 8000) == {})
    && (m.longest.Some? ==>
          && (exists k :: k in AfterPause(xs, 8000) && GapBefore(xs, k) == m.longest.value)
          && forall k :: 0 < k < n ==> GapBefore(xs, k) <= m.longest.value)
  }

  lemma {:induction false} SeparatedAt(xs: seq<Interval>, k: nat)
    requires Separated(xs) && 0 < k < |xs|
    ensures xs[k].start >= xs[k - 1].end + MINIMUM_SILENCE
  {
    if k < |xs| - 1 {
      SeparatedAt(xs[..|xs| - 1], k);
    }
  }

  lemma {:induction false} GapsAt(xs: seq<Interval>, n: nat)
    requires 0 < n <= |xs| && forall k :: 0 < k < |xs| ==> xs[k].start >= xs[k - 1].end
    ensures |Gaps(xs[..n])| == n - 1 && forall k :: 0 < k < n ==> Gaps(xs[..n])[k - 1] == GapBefore(xs, k)
  {
    if n > 1 {
      GapsAt(xs, n - 1);
      assert xs[..n][..n - 1] == xs[..n - 1];
    }
  }

  lemma {:induction false} WholeGaps(xs: seq<Interval>)
    requires Separated(xs) && xs != []
    ensures |Gaps(xs)| == |xs| - 1 && forall k :: 0 < k < |xs| ==> Gaps(xs)[k - 1] == GapBefore(xs, k)
  {
    forall k | 0 < k < |xs|
      ensures xs[k].start >= xs[k - 1].end
    {
      SeparatedAt(xs, k);
    }
    GapsAt(xs, |xs|);
    assert xs[..|xs|] == xs;
  }

  lemma {:induction false} AtLeastHolds(gaps: seq<nat>, low: nat, x: nat)
    ensures x in AtLeast(gaps, low) <==> x in gaps && x >= low
  {
    if gaps != [] {
      var init := gaps[..|gaps| - 1];
      AtLeastHolds(init, low, x);
      assert gaps == init + [gaps[|gaps| - 1]];
    }
  }

  lemma {:induction false} AtLeastTwice(gaps: seq<nat>, low: nat, high: nat)
    requires low <= high
    ensures AtLeast(AtLeast(gaps, low), high) == AtLeast(gaps, high)
  {
    if gaps != [] {
      var init, last := gaps[..|gaps| - 1], gaps[|gaps| - 1];
      AtLeastTwice(init, low, high);
      if last >= low {
        assert (AtLeast(init, low) + [last])[..|AtLeast(init, low)|] == AtLeast(init, low);
      }
    }
  }

  function PausesUpTo(xs: seq<Interval>, low: nat, n: nat): set<nat> {
    set k: nat | k < n && k in AfterPause(xs, low)
  }

  // Counting and adding up the gaps of a prefix.
  lemma {:induction false} PausesCount(xs: seq<Interval>, gaps: seq<nat>, low: nat, n: nat)
    requires |gaps| < |xs| && n == |gaps| + 1
    requires forall k :: 0 < k < n ==> gaps[k - 1] == GapBefore(xs, k)
    ensures |AtLeast(gaps, low)| == |PausesUpTo(xs, low, n)|
    ensures Sum(AtLeast(gaps, low)) == PauseTime(xs, low, n)
  {
    if n == 1 {
      assert PausesUpTo(xs, low, 1) == {};
      assert PauseTime(xs, low, 1) == PauseTime(xs, low, 0) == 0;
    } else {
      PausesCount(xs, gaps[..n - 2], low, n - 1);
      PauseCounted(xs, low, n);
      PauseAdded(AtLeast(gaps[..n - 2], low), gaps[n - 2]);
    }
  }

  lemma PauseCounted(xs: seq<Interval>, low: nat, n: nat)
    requires 1 < n <= |xs|
    ensures |PausesUpTo(xs, low, n)| == |PausesUpTo(xs, low, n - 1)| + (if GapBefore(xs, n - 1) >= low then 1 else 0)
  {
    assert PausesUpTo(xs, low, n) == PausesUpTo(xs, low, n - 1) + (if GapBefore(xs, n - 1) >= low then {n - 1} else {});
  }

  lemma {:induction false} PauseAdded(pauses: seq<nat>, gap: nat)
    ensures Sum(pauses + [gap]) == Sum(pauses) + gap
  {
    assert (pauses + [gap])[..|pauses|] == pauses;
  }

  lemma {:induction false} SpeechAddsUp(xs: seq<Interval>, n: nat)
    requires n <= |xs|
    ensures ActiveFrames(xs[..n]) * 512 == SpeechTime(xs, n)
  {
    if n > 0 {
      SpeechAddsUp(xs, n - 1);
      assert xs[..n][..n - 1] == xs[..n - 1] && Last(xs[..n]) == xs[n - 1];
    }
  }

  lemma AllPauses(xs: seq<Interval>, low: nat)
    ensures PausesUpTo(xs, low, |xs|) == AfterPause(xs, low)
  {
  }

  lemma {:induction false} WholeCount(xs: seq<Interval>, low: nat)
    requires Separated(xs) && xs != [] && low > 0
    ensures |AtLeast(Gaps(xs), low)| == |AfterPause(xs, low)| && Sum(AtLeast(Gaps(xs), low)) == PauseTime(xs, low, |xs|)
  {
    WholeGaps(xs);
    PausesCount(xs, Gaps(xs), low, |xs|);
    AllPauses(xs, low);
  }

  lemma {:induction false} LongestMeans(xs: seq<Interval>)
    requires Separated(xs) && xs != []
    ensures var pauses := AtLeast(Gaps(xs), 8000);
            && (pauses == [] <==> AfterPause(xs, 8000) == {})
            && (pauses != [] ==>
                  && (exists k :: k in AfterPause(xs, 8000) && GapBefore(xs, k) == Largest(pauses))
                  && forall k :: 0 < k < |xs| ==> GapBefore(xs, k) <= Largest(pauses))
  {
    WholeGaps(xs);
    LongestOf(xs, Gaps(xs));
  }

  lemma {:induction false} LongestOf(xs: seq<Interval>, gaps: seq<nat>)
    requires |gaps| + 1 == |xs| && forall k :: 0 < k < |xs| ==> gaps[k - 1] == GapBefore(xs, k)
    ensures var pauses := AtLeast(gaps, 8000);
            && (pauses == [] <==> AfterPause(xs, 8000) == {})
            && (pauses != [] ==>
                  && (exists k :: k in AfterPause(xs, 8000) && GapBefore(xs, k) == Largest(pauses))
                  && forall k :: 0 < k < |xs| ==> GapBefore(xs, k) <= Largest(pauses))
  {
    var pauses := AtLeast(gaps, 8000);
    forall k | k in AfterPause(xs, 8000)
      ensures gaps[k - 1] in pauses
    {
      AtLeastHolds(gaps, 8000, gaps[k - 1]);
    }
    if pauses != [] {
      var m := Largest(pauses);
      AtLeastHolds(gaps, 8000, m);
      var i :| 0 <= i < |gaps| && gaps[i] == m;
      assert i + 1 in AfterPause(xs, 8000) && GapBefore(xs, i + 1) == m;
      forall k | 0 < k < |xs|
        ensures GapBefore(xs, k) <= m
      {
        AtLeastHolds(gaps, 8000, gaps[k - 1]);
      }
    }
  }

  lemma RatioMeans(part: nat, whole: nat)
    requires whole > 0
    ensures IsRatio(Ratio(part, whole), part, whole)
  {
  }

  // Whatever accounts for its intervals has the figures they give.
  lemma MetricsMean(m: Metrics)
    requires Accounts(m) && m.intervals != []
    ensures Figures(m)
  {
    var xs := m.intervals;
    LongestMeans(xs);
    TimesMean(m);
    CountsMean(m);
  }

  lemma TimesMean(m: Metrics)
    requires Accounts(m) && m.intervals != []
    ensures var xs, n := m.intervals, |m.intervals|;
            && m.span == Some((xs[n - 1].end - xs[0].start) * 512) && m.active == Some(SpeechTime(xs, n))
            && m.pauseTime == Some(PauseTime(xs, 8000, n))
            && m.burden.Some? && IsRatio(m.burden.value, m.pauseTime.value, m.span.value)
  {
    var xs := m.intervals;
    WholeCount(xs, 8000);
    SpeechAddsUp(xs, |xs|);
    assert xs[..|xs|] == xs;
    RatioMeans(m.pauseTime.value, m.span.value);
  }

  lemma CountsMean(m: Metrics)
    requires Accounts(m) && m.intervals != []
    ensures var xs := m.intervals;
            && m.internalPauses == Some(|AfterPause(xs, 8000)|) && m.longPauses == Some(|AfterPause(xs, 32000)|)
            && m.span.Some? && m.perMinute.Some?
            && IsRatio(m.perMinute.value, m.internalPauses.value * 960000, m.span.value)
  {
    var xs := m.intervals;
    WholeCount(xs, 8000);
    WholeCount(xs, 32000);
    AtLeastTwice(Gaps(xs), 8000, 32000);
    RatioMeans(m.internalPauses.value * MINUTE, m.span.value);
  }
}
