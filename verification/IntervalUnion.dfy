// Busy time and observation window of a server log, in microseconds
// (scripts/analyze_mcp_logs.py, union_duration and timing_summary).
module IntervalUnion {
  import opened Outcomes
  import opened Sets

  datatype Span = Span(start: int, end: int)

  predicate Forward(spans: seq<Span>) {
    forall i :: 0 <= i < |spans| ==> spans[i].start <= spans[i].end
  }

  // ----- what the union measures

  function Max(a: int, b: int): int {
    if a < b then b else a
  }

  function Min(a: int, b: int): int {
    if b < a then b else a
  }

  // The instants any of the spans covers.
  function Union(spans: seq<Span>): set<int> {
    if spans == [] then {}
    else Union(spans[..|spans| - 1]) + Range(spans[|spans| - 1].start, spans[|spans| - 1].end)
  }

  predicate Covers(s: Span, t: int) {
    s.start <= t < s.end
  }

  lemma {:induction false} UnionIsCoverage(spans: seq<Span>, t: int)
    ensures t in Union(spans) <==> exists i :: 0 <= i < |spans| && Covers(spans[i], t)
  {
    if spans != [] {
      var init := spans[..|spans| - 1];
      UnionIsCoverage(init, t);
      assert t in Union(spans) <==> t in Union(init) || Covers(spans[|spans| - 1], t);
      if i :| 0 <= i < |init| && Covers(init[i], t) {
        assert init[i] == spans[i];
      }
      if i :| 0 <= i < |spans| && Covers(spans[i], t) {
        assert i < |init| ==> init[i] == spans[i];
      }
    }
  }

  // ----- sorting

  predicate AtMost(a: Span, b: Span) {
    a.start < b.start || (a.start == b.start && a.end <= b.end)
  }

  predicate Sorted(spans: seq<Span>) {
    forall i, j :: 0 <= i < j < |spans| ==> AtMost(spans[i], spans[j])
  }

  function Insert(spans: seq<Span>, x: Span): seq<Span> {
    if spans == [] || AtMost(spans[|spans| - 1], x) then spans + [x]
    else Insert(spans[..|spans| - 1], x) + [spans[|spans| - 1]]
  }

  lemma {:induction false} InsertAdds(spans: seq<Span>, x: Span)
    ensures multiset(Insert(spans, x)) == multiset(spans) + multiset{x}
  {
    if spans != [] && !AtMost(spans[|spans| - 1], x) {
      InsertAdds(spans[..|spans| - 1], x);
      assert spans == spans[..|spans| - 1] + [spans[|spans| - 1]];
    }
  }

  lemma {:induction false} InsertKeeps(spans: seq<Span>, x: Span)
    requires Sorted(spans)
    ensures Sorted(Insert(spans, x)) && multiset(Insert(spans, x)) == multiset(spans) + multiset{x}
  {
    InsertAdds(spans, x);
    if spans != [] && !AtMost(spans[|spans| - 1], x) {
      var init, last := spans[..|spans| - 1], spans[|spans| - 1];
      InsertKeeps(init, x);
      InsertedBefore(init, x, last);
      SortedWithLast(Insert(init, x), last);
    } else {
      SortedWithLast(spans, x);
    }
  }

  lemma SortedWithLast(spans: seq<Span>, last: Span)
    requires Sorted(spans) && forall k :: 0 <= k < |spans| ==> AtMost(spans[k], last)
    ensures Sorted(spans + [last])
  {
  }

  lemma {:induction false} InsertedBefore(init: seq<Span>, x: Span, last: Span)
    requires (forall i :: 0 <= i < |init| ==> AtMost(init[i], last)) && AtMost(x, last)
    requires multiset(Insert(init, x)) == multiset(init) + multiset{x}
    ensures forall k :: 0 <= k < |Insert(init, x)| ==> AtMost(Insert(init, x)[k], last)
  {
    var rest := Insert(init, x);
    forall k | 0 <= k < |rest|
      ensures AtMost(rest[k], last)
    {
      assert rest[k] in multiset(rest);
      assert rest[k] == x || rest[k] in init;
    }
  }

  function Sort(spans: seq<Span>): seq<Span> {
    if spans == [] then [] else Insert(Sort(spans[..|spans| - 1]), spans[|spans| - 1])
  }

  // sorted(): the same spans, by start and then by end.
  lemma {:induction false} SortSorts(spans: seq<Span>)
    ensures Sorted(Sort(spans)) && multiset(Sort(spans)) == multiset(spans)
  {
    if spans != [] {
      SortSorts(spans[..|spans| - 1]);
      InsertKeeps(Sort(spans[..|spans| - 1]), spans[|spans| - 1]);
      assert spans == spans[..|spans| - 1] + [spans[|spans| - 1]];
    }
  }

  lemma {:induction false} SameUnion(a: seq<Span>, b: seq<Span>)
    requires multiset(a) == multiset(b)
    ensures Union(a) == Union(b) && (Forward(a) ==> Forward(b))
  {
    forall t
      ensures t in Union(a) <==> t in Union(b)
    {
      UnionIsCoverage(a, t);
      UnionIsCoverage(b, t);
      if i :| 0 <= i < |a| && Covers(a[i], t) {
        assert a[i] in multiset(b);
      }
      if i :| 0 <= i < |b| && Covers(b[i], t) {
        assert b[i] in multiset(a);
      }
    }
    forall i | 0 <= i < |b|
      ensures b[i] in a
    {
      assert b[i] in multiset(a);
    }
  }

  // ----- union_duration

  // done is what earlier blocks cover; the current block starts after them.
  ghost predicate Block(covered: set<int>, done: set<int>, start: int, end: int) {
    start <= end && covered == done + Range(start, end) && forall t :: t in done ==> t < start
  }

  lemma BlockSize(covered: set<int>, done: set<int>, start: int, end: int)
    requires Block(covered, done, start, end)
    ensures |covered| == |done| + end - start
  {
    assert done * Range(start, end) == {};
  }

  // In any order and with any overlap, the result is the size of the union.
  method UnionDuration(spans: seq<Span>) returns (total: int)
    requires Forward(spans)
    ensures total == |Union(spans)|
  {
    if spans == [] {
      return 0;
    }
    var sorted := Sort(spans);
    SortSorts(spans);
    SameUnion(spans, sorted);
    assert |multiset(sorted)| == |sorted| && |multiset(spans)| == |spans|;
    total := SweepSorted(sorted);
  }

  lemma BlockGrows(covered: set<int>, done: set<int>, start: int, end: int, next: Span)
    requires Block(covered, done, start, end) && start <= next.start <= next.end
    ensures next.start <= end ==> Block(covered + Range(next.start, next.end), done, start, Max(end, next.end))
    ensures next.start > end ==> Block(covered + Range(next.start, next.end), covered, next.start, next.end)
  {
    if next.start <= end {
      RangesJoin(start, end, next);
    } else {
      forall t | t in covered
        ensures t < next.start
      {
        assert t in done || t in Range(start, end);
      }
    }
  }

  lemma {:induction false} RangesJoin(start: int, end: int, next: Span)
    requires start <= next.start <= next.end && next.start <= end
    ensures Range(start, Max(end, next.end)) == Range(start, end) + Range(next.start, next.end)
  {
  }

  lemma UnionOneMore(spans: seq<Span>, i: nat)
    requires i < |spans|
    ensures Union(spans[..i + 1]) == Union(spans[..i]) + Range(spans[i].start, spans[i].end)
  {
    assert spans[..i + 1][..i] == spans[..i];
  }

  method SweepSorted(sorted: seq<Span>) returns (total: int)
    requires sorted != [] && Sorted(sorted) && Forward(sorted)
    ensures total == |Union(sorted)|
  {
    total := 0;
    var start, end := sorted[0].start, sorted[0].end;
    ghost var done: set<int> := {};
    UnionOneMore(sorted, 0);
    var i := 1;
    while i < |sorted|
      invariant 1 <= i <= |sorted|
      invariant Block(Union(sorted[..i]), done, start, end) && total == |done|
      invariant start <= sorted[i - 1].start
    {
      var next := sorted[i];
      assert AtMost(sorted[i - 1], next);
      UnionOneMore(sorted, i);
      BlockGrows(Union(sorted[..i]), done, start, end, next);
      if next.start <= end {
        end := Max(end, next.end);
      } else {
        BlockSize(Union(sorted[..i]), done, start, end);
        done := Union(sorted[..i]);
        total := total + (end - start);
        start, end := next.start, next.end;
      }
      i := i + 1;
    }
    assert sorted[..i] == sorted;
    BlockSize(Union(sorted), done, start, end);
    total := total + end - start;
  }

  // ----- timing_summary

  // The paired start and completion of one call, as far as the log has them.
  datatype Call = Call(start: Option<int>, completion: Option<int>)

  datatype Summary = Summary(window: Option<Span>, elapsed: Option<int>, busy: int, gap: Option<int>)

  function From(from: Option<int>, t: int): int {
    if from.Some? then Max(t, from.value) else t
  }

  function To(to: Option<int>, t: int): int {
    if to.Some? then Min(t, to.value) else t
  }

  function Stamps(c: Call): seq<int> {
    match c
    case Call(None, None) => []
    case Call(None, Some(done)) => [done]
    case Call(Some(start), None) => [start]
    case Call(Some(start), Some(done)) => [start, done]
  }

  function Clipped(c: Call, from: Option<int>, to: Option<int>): seq<Span> {
    if c.start.None? || c.completion.None? || c.completion.value < c.start.value then []
    else
      var start, end := From(from, c.start.value), To(to, c.completion.value);
      if end >= start then [Span(start, end)] else []
  }

  function Least(s: seq<int>): (m: int)
    requires s != []
    ensures m in s && forall k :: 0 <= k < |s| ==> m <= s[k]
  {
    if |s| == 1 then s[0]
    else
      var rest := Least(s[1..]);
      assert forall k :: 0 < k < |s| ==> s[k] == s[1..][k - 1];
      if rest < s[0] then rest else s[0]
  }

  function Greatest(s: seq<int>): (m: int)
    requires s != []
    ensures m in s && forall k :: 0 <= k < |s| ==> s[k] <= m
  {
    if |s| == 1 then s[0]
    else
      var rest := Greatest(s[1..]);
      assert forall k :: 0 < k < |s| ==> s[k] == s[1..][k - 1];
      if rest > s[0] then rest else s[0]
  }

  ghost predicate Within(spans: seq<Span>, window: Span) {
    forall i :: 0 <= i < |spans| ==> window.start <= spans[i].start <= spans[i].end <= window.end
  }

  predicate SomeAtMost(stamps: seq<int>, t: int) {
    exists k :: 0 <= k < |stamps| && stamps[k] <= t
  }

  predicate SomeAtLeast(stamps: seq<int>, t: int) {
    exists k :: 0 <= k < |stamps| && t <= stamps[k]
  }

  // The span runs forward, inside the bounds and between two of the stamps.
  predicate Placed(span: Span, stamps: seq<int>, from: Option<int>, to: Option<int>) {
    && span.start <= span.end
    && (from.Some? ==> from.value <= span.start) && (to.Some? ==> span.end <= to.value)
    && SomeAtMost(stamps, span.start) && SomeAtLeast(stamps, span.end)
  }

  ghost predicate Collected(spans: seq<Span>, stamps: seq<int>, from: Option<int>, to: Option<int>) {
    forall i :: 0 <= i < |spans| ==> Placed(spans[i], stamps, from, to)
  }

  lemma CollectsOne(spans: seq<Span>, stamps: seq<int>, c: Call, from: Option<int>, to: Option<int>)
    requires Collected(spans, stamps, from, to)
    ensures Collected(spans + Clipped(c, from, to), stamps + Stamps(c), from, to)
  {
    var all, marks := spans + Clipped(c, from, to), stamps + Stamps(c);
    forall i | 0 <= i < |all|
      ensures Placed(all[i], marks, from, to)
    {
      if i < |spans| {
        assert Placed(spans[i], stamps, from, to);
        MoreMarks(stamps, marks, all[i].start, all[i].end);
      } else {
        assert marks[|stamps|] == c.start.value && marks[|stamps| + 1] == c.completion.value;
      }
    }
  }

  lemma MoreMarks(stamps: seq<int>, more: seq<int>, low: int, high: int)
    requires SomeAtMost(stamps, low) && SomeAtLeast(stamps, high) && stamps <= more
    ensures SomeAtMost(more, low) && SomeAtLeast(more, high)
  {
    var k :| 0 <= k < |stamps| && stamps[k] <= low;
    var l :| 0 <= l < |stamps| && high <= stamps[l];
    assert more[k] == stamps[k] && more[l] == stamps[l];
  }

  // A call that starts or completes at t.
  predicate SeenAt(calls: seq<Call>, t: int) {
    exists i :: 0 <= i < |calls| && (calls[i].start == Some(t) || calls[i].completion == Some(t))
  }

  // A call is under way at t, between its start and its completion and inside the
  // bounds.
  predicate UnderWay(c: Call, from: Option<int>, to: Option<int>, t: int) {
    && c.start.Some? && c.completion.Some? && c.start.value <= t < c.completion.value
    && (from.Some? ==> from.value <= t) && (to.Some? ==> t < to.value)
  }

  lemma StampsSeen(calls: seq<Call>, stamps: seq<int>, i: nat)
    requires i < |calls| && forall t :: t in stamps <==> SeenAt(calls[..i], t)
    ensures forall t :: t in stamps + Stamps(calls[i]) <==> SeenAt(calls[..i + 1], t)
  {
    forall t
      ensures t in stamps + Stamps(calls[i]) <==> SeenAt(calls[..i + 1], t)
    {
      assert t in Stamps(calls[i]) <==> calls[i].start == Some(t) || calls[i].completion == Some(t);
      if SeenAt(calls[..i], t) {
        var k :| 0 <= k < i && (calls[..i][k].start == Some(t) || calls[..i][k].completion == Some(t));
        assert calls[..i + 1][k] == calls[..i][k];
      }
      if SeenAt(calls[..i + 1], t) {
        var k :| 0 <= k <= i && (calls[..i + 1][k].start == Some(t) || calls[..i + 1][k].completion == Some(t));
        assert k < i ==> calls[..i][k] == calls[..i + 1][k];
      }
      assert calls[..i + 1][i] == calls[i];
    }
  }

  // An instant is busy exactly when some call is under way at it.
  lemma {:induction false} BusyIsUnderWay(calls: seq<Call>, from: Option<int>, to: Option<int>, t: int)
    ensures t in Union(AllClipped(calls, from, to)) <==>
            exists i :: 0 <= i < |calls| && UnderWay(calls[i], from, to, t)
  {
    if calls != [] {
      var init, last := calls[..|calls| - 1], calls[|calls| - 1];
      BusyIsUnderWay(init, from, to, t);
      UnionOfOne(AllClipped(init, from, to), last, from, to, t);
      if i :| 0 <= i < |init| && UnderWay(init[i], from, to, t) {
        assert UnderWay(calls[i], from, to, t);
      }
      if i :| 0 <= i < |calls| && UnderWay(calls[i], from, to, t) {
        assert i < |init| ==> UnderWay(init[i], from, to, t);
      }
    }
  }

  // The instants at which some call is under way.
  ghost predicate BusyInstants(calls: seq<Call>, from: Option<int>, to: Option<int>, busy: set<int>) {
    forall t :: t in busy <==> exists i :: 0 <= i < |calls| && UnderWay(calls[i], from, to, t)
  }

  lemma {:induction false} UnionIsBusy(calls: seq<Call>, from: Option<int>, to: Option<int>)
    ensures BusyInstants(calls, from, to, Union(AllClipped(calls, from, to)))
  {
    forall t
      ensures t in Union(AllClipped(calls, from, to)) <==>
              exists i :: 0 <= i < |calls| && UnderWay(calls[i], from, to, t)
    {
      BusyIsUnderWay(calls, from, to, t);
    }
  }

  lemma {:induction false} UnionOfOne(spans: seq<Span>, c: Call, from: Option<int>, to: Option<int>, t: int)
    ensures t in Union(spans + Clipped(c, from, to)) <==> t in Union(spans) || UnderWay(c, from, to, t)
  {
    var more := Clipped(c, from, to);
    if more == [] {
      assert spans + more == spans;
    } else {
      assert (spans + more)[..|spans|] == spans;
    }
  }

  method Collect(calls: seq<Call>, from: Option<int>, to: Option<int>) returns (spans: seq<Span>, stamps: seq<int>)
    ensures Collected(spans, stamps, from, to)
    ensures spans == AllClipped(calls, from, to) && forall t :: t in stamps <==> SeenAt(calls, t)
  {
    spans, stamps := [], [];
    var i := 0;
    while i < |calls|
      invariant 0 <= i <= |calls|
      invariant Collected(spans, stamps, from, to) && spans == AllClipped(calls[..i], from, to)
      invariant forall t :: t in stamps <==> SeenAt(calls[..i], t)
    {
      CollectsOne(spans, stamps, calls[i], from, to);
      StampsSeen(calls, stamps, i);
      assert calls[..i + 1][..i] == calls[..i];
      assert AllClipped(calls[..i + 1], from, to) == spans + Clipped(calls[i], from, to);
      spans := spans + Clipped(calls[i], from, to);
      stamps := stamps + Stamps(calls[i]);
      i := i + 1;
    }
    assert calls[..i] == calls;
  }

  function AllClipped(calls: seq<Call>, from: Option<int>, to: Option<int>): seq<Span> {
    if calls == [] then [] else AllClipped(calls[..|calls| - 1], from, to) + Clipped(calls[|calls| - 1], from, to)
  }

  lemma {:induction false} SpansInWindow(spans: seq<Span>, stamps: seq<int>, from: Option<int>, to: Option<int>)
    requires Collected(spans, stamps, from, to) && stamps != []
    requires (from.Some? ==> from.value in stamps) && (to.Some? ==> to.value in stamps)
    ensures Within(spans, Span(From(from, Least(stamps)), To(to, Greatest(stamps))))
  {
  }

  lemma {:induction false} UnionFits(spans: seq<Span>, window: Span)
    requires Within(spans, window)
    ensures |Union(spans)| <= Max(0, window.end - window.start)
  {
    forall t | t in Union(spans)
      ensures t in Range(window.start, window.end)
    {
      UnionIsCoverage(spans, t);
    }
    if spans == [] {
      assert Union(spans) == {};
    } else {
      assert window.start <= spans[0].start <= spans[0].end <= window.end;
      SubsetSize(Union(spans), Range(window.start, window.end));
    }
  }

  // The bounds that were given join the stamps.
  function WithBounds(stamps: seq<int>, from: Option<int>, to: Option<int>): (more: seq<int>)
    ensures stamps <= more && (from.Some? ==> from.value in more) && (to.Some? ==> to.value in more)
    ensures forall t :: t in more <==> t in stamps || from == Some(t) || to == Some(t)
  {
    var withFrom := if from.Some? then stamps + [from.value] else stamps;
    assert from.Some? ==> withFrom[|stamps|] == from.value;
    var more := if to.Some? then withFrom + [to.value] else withFrom;
    assert from.Some? ==> more[|stamps|] == from.value;
    more
  }

  lemma SpansHaveStamps(spans: seq<Span>, stamps: seq<int>, from: Option<int>, to: Option<int>)
    requires Collected(spans, stamps, from, to) && |spans| > 0
    ensures |stamps| > 0
  {
    assert Placed(spans[0], stamps, from, to);
  }

  // Busy time is the size of the union of the clipped calls, never exceeds the
  // window, and with the unattributed gap makes it up exactly.
  method TimingSummary(calls: seq<Call>, from: Option<int>, to: Option<int>) returns (s: Summary)
    ensures s.busy == |Union(AllClipped(calls, from, to))|
    ensures s.window.None? ==> s.busy == 0 && s.elapsed.None? && s.gap.None?
    ensures s.window.Some? ==>
              && Within(AllClipped(calls, from, to), s.window.value)
              && s.elapsed == Some(Max(0, s.window.value.end - s.window.value.start))
              && s.gap == Some(s.elapsed.value - s.busy) && 0 <= s.busy <= s.elapsed.value
    ensures |AllClipped(calls, from, to)| > 0 ==> s.window.Some? && s.window.value.start <= s.window.value.end
    ensures BusyInstants(calls, from, to, Union(AllClipped(calls, from, to)))
    ensures WindowIs(calls, from, to, s.window)
  {
    UnionIsBusy(calls, from, to);
    var spans, seen := Collect(calls, from, to);
    var stamps := WithBounds(seen, from, to);
    MoreStamps(spans, seen, stamps, from, to);
    s := Account(spans, stamps, from, to);
    WindowFromStamps(calls, seen, stamps, from, to, s.window);
  }

  predicate Mark(calls: seq<Call>, from: Option<int>, to: Option<int>, t: int) {
    SeenAt(calls, t) || from == Some(t) || to == Some(t)
  }

  // The window runs from the lower bound, or else the first instant seen, to the
  // upper bound, or else the last one; without any there is none.
  ghost predicate WindowIs(calls: seq<Call>, from: Option<int>, to: Option<int>, window: Option<Span>) {
    && (window.None? <==> forall t :: !Mark(calls, from, to, t))
    && (window.Some? ==>
          && (match from
              case Some(t) => window.value.start == t
              case None =>
                Mark(calls, from, to, window.value.start) &&
                forall t :: Mark(calls, from, to, t) ==> window.value.start <= t)
          && (match to
              case Some(t) => window.value.end == t
              case None =>
                Mark(calls, from, to, window.value.end) &&
                forall t :: Mark(calls, from, to, t) ==> t <= window.value.end))
  }

  lemma {:induction false} WindowFromStamps(calls: seq<Call>, seen: seq<int>, stamps: seq<int>, from: Option<int>,
    to: Option<int>, window: Option<Span>)
    requires forall t :: t in seen <==> SeenAt(calls, t)
    requires forall t :: t in stamps <==> t in seen || from == Some(t) || to == Some(t)
    requires window == if stamps == [] then None
                       else Some(Span(From(from, Least(stamps)), To(to, Greatest(stamps))))
    ensures WindowIs(calls, from, to, window)
  {
    assert forall t :: t in stamps <==> Mark(calls, from, to, t);
    if stamps != [] {
      assert stamps[0] in stamps;
    }
  }

  method Account(spans: seq<Span>, stamps: seq<int>, from: Option<int>, to: Option<int>) returns (s: Summary)
    requires Collected(spans, stamps, from, to)
    requires (from.Some? ==> from.value in stamps) && (to.Some? ==> to.value in stamps)
    ensures s.busy == |Union(spans)|
    ensures s.window.None? ==> s.busy == 0 && s.elapsed.None? && s.gap.None?
    ensures s.window.Some? ==>
              && Within(spans, s.window.value)
              && s.elapsed == Some(Max(0, s.window.value.end - s.window.value.start))
              && s.gap == Some(s.elapsed.value - s.busy) && 0 <= s.busy <= s.elapsed.value
    ensures |spans| > 0 ==> s.window.Some? && s.window.value.start <= s.window.value.end
    ensures s.window == if stamps == [] then None
                        else Some(Span(From(from, Least(stamps)), To(to, Greatest(stamps))))
  {
    var busy := UnionDuration(spans);
    if |spans| > 0 {
      SpansHaveStamps(spans, stamps, from, to);
    }
    if |stamps| == 0 {
      return Summary(None, None, busy, None);
    }
    var window := Span(From(from, Least(stamps)), To(to, Greatest(stamps)));
    SpansInWindow(spans, stamps, from, to);
    UnionFits(spans, window);
    var elapsed := Max(0, window.end - window.start);
    s := Summary(Some(window), Some(elapsed), busy, Some(Max(0, elapsed - busy)));
  }

  lemma MoreStamps(spans: seq<Span>, stamps: seq<int>, more: seq<int>, from: Option<int>, to: Option<int>)
    requires Collected(spans, stamps, from, to) && stamps <= more
    ensures Collected(spans, more, from, to)
  {
    forall i | 0 <= i < |spans|
      ensures Placed(spans[i], more, from, to)
    {
      assert Placed(spans[i], stamps, from, to);
      MoreMarks(stamps, more, spans[i].start, spans[i].end);
    }
  }
}
