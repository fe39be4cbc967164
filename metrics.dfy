// The duration arithmetic of utils.ts: live work time of a segment list,
// the daily total, and the break time found between consecutive segments.
module Metrics {
  import opened Types
  import opened Sorting

  /** What one segment contributes to the work total: nothing once trashed. */
  function LiveDuration(seg: TimeSegment, now: int): int
  {
    if seg.IsDeleted() then 0 else seg.EndOr(now) - seg.start
  }

  /**
   * calculateTotalDuration: the running sum, left to right, of every
   * segment that is not in the segment trash; an open segment runs to `now`.
   */
  function TotalDuration(segs: seq<TimeSegment>, now: int): int
    decreases |segs|
  {
    if |segs| == 0 then 0
    else TotalDuration(segs[..|segs| - 1], now) + LiveDuration(segs[|segs| - 1], now)
  }

  /** The segments without `deletedAt`, in their stored order. */
  function LiveSegments(segs: seq<TimeSegment>): (r: seq<TimeSegment>)
    ensures |r| <= |segs|
    ensures forall i :: 0 <= i < |r| ==> !r[i].IsDeleted()
    ensures forall x :: x in r <==> x in segs && !x.IsDeleted()
    decreases |segs|
  {
    if |segs| == 0 then []
    else
      var p := segs[..|segs| - 1];
      assert segs == p + [segs[|segs| - 1]];
      if segs[|segs| - 1].IsDeleted() then LiveSegments(p)
      else LiveSegments(p) + [segs[|segs| - 1]]
  }

  /**
   * The filter keeps the stored order: filtering a concatenation filters
   * each part, so together with one-element lists this pins the result.
   */
  lemma {:induction false} LiveSegmentsAppend(a: seq<TimeSegment>, b: seq<TimeSegment>)
    ensures LiveSegments(a + b) == LiveSegments(a) + LiveSegments(b)
    ensures |b| == 1 ==> LiveSegments(b) == (if b[0].IsDeleted() then [] else b)
    decreases |b|
  {
    if |b| == 0 {
      assert a + b == a;
    } else {
      var q := b[..|b| - 1];
      assert (a + b)[..|a + b| - 1] == a + q;
      LiveSegmentsAppend(a, q);
      if |b| == 1 {
        assert q == [];
      }
    }
  }

  /** Sum of `(end ?? now) - start` over every segment, trashed or not. */
  function SpanSum(segs: seq<TimeSegment>, now: int): int
    decreases |segs|
  {
    if |segs| == 0 then 0
    else SpanSum(segs[..|segs| - 1], now) + (segs[|segs| - 1].EndOr(now) - segs[|segs| - 1].start)
  }

  /** The total is the plain span sum of the segments that are not trashed. */
  lemma {:induction false} TotalDurationIsLiveSpanSum(segs: seq<TimeSegment>, now: int)
    ensures TotalDuration(segs, now) == SpanSum(LiveSegments(segs), now)
    decreases |segs|
  {
    if |segs| > 0 {
      var p := segs[..|segs| - 1];
      TotalDurationIsLiveSpanSum(p, now);
      var l := LiveSegments(p);
      if !segs[|segs| - 1].IsDeleted() {
        assert (l + [segs[|segs| - 1]])[..|l|] == l;
      }
    }
  }

  /** The total of a concatenation is the sum of the totals. */
  lemma {:induction false} TotalDurationAppend(a: seq<TimeSegment>, b: seq<TimeSegment>, now: int)
    ensures TotalDuration(a + b, now) == TotalDuration(a, now) + TotalDuration(b, now)
    decreases |b|
  {
    if |b| > 0 {
      var b' := b[..|b| - 1];
      assert (a + b)[..|a + b| - 1] == a + b';
      assert (a + b)[|a + b| - 1] == b[|b| - 1];
      TotalDurationAppend(a, b', now);
    } else {
      assert a + b == a;
    }
  }

  /** A trashed segment, wherever it is put, never changes the total. */
  lemma TotalDurationIgnoresDeleted(a: seq<TimeSegment>, d: TimeSegment, b: seq<TimeSegment>, now: int)
    requires d.IsDeleted()
    ensures TotalDuration(a + [d] + b, now) == TotalDuration(a + b, now)
  {
    TotalDurationAppend(a + [d], b, now);
    TotalDurationAppend(a, b, now);
    assert (a + [d])[..|a|] == a;
  }

  /** Every segment that ends no earlier than it starts adds a non-negative amount. */
  lemma {:induction false} TotalDurationNonNegative(segs: seq<TimeSegment>, now: int)
    requires forall i :: 0 <= i < |segs| ==> segs[i].start <= segs[i].EndOr(now)
    ensures TotalDuration(segs, now) >= 0
    decreases |segs|
  {
    if |segs| > 0 {
      TotalDurationNonNegative(segs[..|segs| - 1], now);
    }
  }

  /** Σ calculateTotalDuration over a list of sessions. */
  function SessionsWork(sessions: seq<Session>, now: int): int
    decreases |sessions|
  {
    if |sessions| == 0 then 0
    else SessionsWork(sessions[..|sessions| - 1], now) + TotalDuration(sessions[|sessions| - 1].segments, now)
  }

  /** The work of a concatenation is the sum of the parts' work. */
  lemma {:induction false} SessionsWorkAppend(a: seq<Session>, b: seq<Session>, now: int)
    ensures SessionsWork(a + b, now) == SessionsWork(a, now) + SessionsWork(b, now)
    decreases |b|
  {
    if |b| == 0 {
      assert a + b == a;
    } else {
      assert (a + b)[..|a + b| - 1] == a + b[..|b| - 1];
      SessionsWorkAppend(a, b[..|b| - 1], now);
    }
  }

  /** When segments end no earlier than they start, the work of any sessions is never negative. */
  lemma {:induction false} SessionsWorkNonNegative(sessions: seq<Session>, now: int)
    requires forall i, j :: 0 <= i < |sessions| && 0 <= j < |sessions[i].segments| ==>
      sessions[i].segments[j].start <= sessions[i].segments[j].EndOr(now)
    ensures SessionsWork(sessions, now) >= 0
    decreases |sessions|
  {
    if |sessions| > 0 {
      var p := sessions[..|sessions| - 1];
      assert forall i :: 0 <= i < |p| ==> p[i] == sessions[i];
      SessionsWorkNonNegative(p, now);
      TotalDurationNonNegative(sessions[|sessions| - 1].segments, now);
    }
  }

  /** Replacing one segment by a copy with `deletedAt` set lowers the total by its duration. */
  lemma {:induction false} TotalDurationAfterTrashing(segs: seq<TimeSegment>, k: nat, at: int, now: int)
    requires k < |segs| && !segs[k].IsDeleted()
    ensures TotalDuration(segs[k := segs[k].(deletedAt := Some(at))], now)
      == TotalDuration(segs, now) - (segs[k].EndOr(now) - segs[k].start)
  {
    var a, b := segs[..k], segs[k + 1..];
    assert segs == a + [segs[k]] + b;
    var d := segs[k].(deletedAt := Some(at));
    assert segs[k := d] == a + [d] + b;
    TotalDurationIgnoresDeleted(a, d, b, now);
    TotalDurationAppend(a + [segs[k]], b, now);
    TotalDurationAppend(a, b, now);
    assert (a + [segs[k]])[..|a|] == a;
  }

  // --- calculateDailyTotal / isSameDay -------------------------------------

  /** isSameDay: both instants fall on the same local calendar date. */
  predicate IsSameDay(d1: int, d2: int, tz: int)
  {
    LocalDay(d1, tz) == LocalDay(d2, tz)
  }

  /** Same day means: inside the 24 hours that start at the first one's local midnight. */
  lemma IsSameDayWindow(d1: int, d2: int, tz: int)
    ensures IsSameDay(d1, d2, tz) <==>
      DayStart(LocalDay(d1, tz), tz) <= d2 < DayStart(LocalDay(d1, tz), tz) + DAY
  {
    var k := LocalDay(d1, tz);
    if DayStart(k, tz) <= d2 < DayStart(k, tz) + DAY {
      assert k * DAY <= d2 + tz < k * DAY + DAY;
      assert (d2 + tz) / DAY == k;
    }
  }

  /** calculateDailyTotal: total work of the sessions created on `target`'s date. */
  function DailyTotal(sessions: seq<Session>, target: int, now: int, tz: int): int
    decreases |sessions|
  {
    if |sessions| == 0 then 0
    else
      var s := sessions[|sessions| - 1];
      DailyTotal(sessions[..|sessions| - 1], target, now, tz)
        + (if IsSameDay(s.createdAt, target, tz) then TotalDuration(s.segments, now) else 0)
  }

  /** The daily total of two lists of sessions is the sum of their totals. */
  lemma {:induction false} DailyTotalAppend(a: seq<Session>, b: seq<Session>, target: int, now: int, tz: int)
    ensures DailyTotal(a + b, target, now, tz) == DailyTotal(a, target, now, tz) + DailyTotal(b, target, now, tz)
    decreases |b|
  {
    if |b| > 0 {
      assert (a + b)[..|a + b| - 1] == a + b[..|b| - 1];
      assert (a + b)[|a + b| - 1] == b[|b| - 1];
      DailyTotalAppend(a, b[..|b| - 1], target, now, tz);
    } else {
      assert a + b == a;
    }
  }

  /** Sessions created on other dates contribute nothing. */
  lemma {:induction false} DailyTotalOtherDays(sessions: seq<Session>, target: int, now: int, tz: int)
    requires forall i :: 0 <= i < |sessions| ==> !IsSameDay(sessions[i].createdAt, target, tz)
    ensures DailyTotal(sessions, target, now, tz) == 0
    decreases |sessions|
  {
    if |sessions| > 0 {
      DailyTotalOtherDays(sessions[..|sessions| - 1], target, now, tz);
    }
  }

  // --- calculateBreakTime --------------------------------------------------

  /** One collected segment: open segments are closed at `now`. */
  datatype Span = Span(start: int, end: int, hardStop: bool)

  function SpanOf(seg: TimeSegment, now: int): Span
  {
    Span(seg.start, seg.EndOr(now), seg.IsHardStop())
  }

  function SegmentSpans(segs: seq<TimeSegment>, now: int): (r: seq<Span>)
    ensures |r| == |segs|
    ensures forall i :: 0 <= i < |segs| ==> r[i] == SpanOf(segs[i], now)
    decreases |segs|
  {
    if |segs| == 0 then [] else SegmentSpans(segs[..|segs| - 1], now) + [SpanOf(segs[|segs| - 1], now)]
  }

  /** Every segment of every session in order, trashed ones included. */
  function CollectSpans(sessions: seq<Session>, now: int): seq<Span>
    decreases |sessions|
  {
    if |sessions| == 0 then []
    else CollectSpans(sessions[..|sessions| - 1], now) + SegmentSpans(sessions[|sessions| - 1].segments, now)
  }

  function StartKey(sp: Span): int { sp.start }

  /**
   * What the pair (current, next) adds to the break total: the gap between
   * them when it is positive, lies within one adjusted day, reaches the
   * threshold and does not follow a hard stop; otherwise nothing.
   */
  function GapContribution(cur: Span, next: Span, thresholdMs: int, dayStartHour: int, tz: int): (r: int)
    ensures r != 0 <==>
      (next.start > cur.end
       && AdjustedDay(cur.end, tz, dayStartHour) == AdjustedDay(next.start, tz, dayStartHour)
       && next.start - cur.end >= thresholdMs
       && !cur.hardStop)
    ensures r == 0 || r == next.start - cur.end
  {
    if next.start > cur.end then
      var gap := next.start - cur.end;
      if AdjustedDay(cur.end, tz, dayStartHour) != AdjustedDay(next.start, tz, dayStartHour) then 0
      else if gap >= thresholdMs && !cur.hardStop then gap
      else 0
    else 0
  }

  /** Sum of the contributions of every adjacent pair of `spans`. */
  function PairSum(spans: seq<Span>, thresholdMs: int, dayStartHour: int, tz: int): int
    decreases |spans|
  {
    if |spans| < 2 then 0
    else
      PairSum(spans[..|spans| - 1], thresholdMs, dayStartHour, tz)
      + GapContribution(spans[|spans| - 2], spans[|spans| - 1], thresholdMs, dayStartHour, tz)
  }

  /** calculateBreakTime as a value: the pair sum over the spans sorted by start. */
  function BreakTimeSpec(sessions: seq<Session>, thresholdMs: int, dayStartHour: int, now: int, tz: int): int
  {
    PairSum(SortBy(CollectSpans(sessions, now), StartKey), thresholdMs, dayStartHour, tz)
  }

  /**
   * calculateBreakTime: collects the segments, sorts them by start and adds
   * the qualifying gap of each adjacent pair.
   */
  method BreakTime(sessions: seq<Session>, thresholdMs: int, dayStartHour: int, now: int, tz: int)
    returns (totalBreak: int)
    ensures totalBreak == BreakTimeSpec(sessions, thresholdMs, dayStartHour, now, tz)
  {
    var all := CollectAll(sessions, now);
    if |all| == 0 {
      return 0;
    }
    all := SortBy(all, StartKey);
    totalBreak := SumGaps(all, thresholdMs, dayStartHour, tz);
  }

  /** The collection loop of calculateBreakTime. */
  method CollectAll(sessions: seq<Session>, now: int) returns (all: seq<Span>)
    ensures all == CollectSpans(sessions, now)
  {
    all := [];
    for k := 0 to |sessions|
      invariant all == CollectSpans(sessions[..k], now)
    {
      var segs := sessions[k].segments;
      ghost var before := all;
      for j := 0 to |segs|
        invariant all == before + SegmentSpans(segs[..j], now)
      {
        assert segs[..j + 1][..j] == segs[..j];
        all := all + [SpanOf(segs[j], now)];
      }
      assert segs[..|segs|] == segs;
      assert sessions[..k + 1][..k] == sessions[..k];
    }
    assert sessions[..|sessions|] == sessions;
  }

  /** The pair loop of calculateBreakTime over already sorted spans. */
  method SumGaps(all: seq<Span>, thresholdMs: int, dayStartHour: int, tz: int) returns (totalBreak: int)
    requires |all| > 0
    ensures totalBreak == PairSum(all, thresholdMs, dayStartHour, tz)
  {
    totalBreak := 0;
    var i := 0;
    while i < |all| - 1
      invariant 0 <= i <= |all| - 1
      invariant totalBreak == PairSum(all[..i + 1], thresholdMs, dayStartHour, tz)
    {
      var current := all[i];
      var next := all[i + 1];
      assert all[..i + 2][..i + 1] == all[..i + 1];
      if next.start > current.end {
        var gap := next.start - current.end;
        var currentDay := AdjustedDay(current.end, tz, dayStartHour);
        var nextDay := AdjustedDay(next.start, tz, dayStartHour);
        if currentDay == nextDay && gap >= thresholdMs && !current.hardStop {
          totalBreak := totalBreak + gap;
        }
      }
      i := i + 1;
    }
    assert all[..|all|] == all;
  }

  lemma {:induction false} PairSumNonNegative(spans: seq<Span>, thresholdMs: int, dayStartHour: int, tz: int)
    ensures PairSum(spans, thresholdMs, dayStartHour, tz) >= 0
    decreases |spans|
  {
    if |spans| >= 2 {
      PairSumNonNegative(spans[..|spans| - 1], thresholdMs, dayStartHour, tz);
    }
  }

  /** Break time is never negative. */
  lemma BreakTimeNonNegative(sessions: seq<Session>, thresholdMs: int, dayStartHour: int, now: int, tz: int)
    ensures BreakTimeSpec(sessions, thresholdMs, dayStartHour, now, tz) >= 0
  {
    PairSumNonNegative(SortBy(CollectSpans(sessions, now), StartKey), thresholdMs, dayStartHour, tz);
  }

  lemma {:induction false} CollectSpansLength(sessions: seq<Session>, now: int)
    ensures |CollectSpans(sessions, now)| == SegmentCount(sessions)
    decreases |sessions|
  {
    if |sessions| > 0 {
      CollectSpansLength(sessions[..|sessions| - 1], now);
    }
  }

  /** Number of segments, trashed ones included, across all sessions. */
  function SegmentCount(sessions: seq<Session>): nat
    decreases |sessions|
  {
    if |sessions| == 0 then 0
    else SegmentCount(sessions[..|sessions| - 1]) + |sessions[|sessions| - 1].segments|
  }

  /** Σ max(0, segments − 1): the pauses between a session's segments. */
  function BreakCount(sessions: seq<Session>): nat
    decreases |sessions|
  {
    if |sessions| == 0 then 0
    else
      var n := |sessions[|sessions| - 1].segments|;
      BreakCount(sessions[..|sessions| - 1]) + (if n > 0 then n - 1 else 0)
  }

  /** There are fewer pauses than segments, and none at all iff no session has two segments. */
  lemma {:induction false} BreakCountBounds(sessions: seq<Session>)
    ensures BreakCount(sessions) <= SegmentCount(sessions)
    ensures BreakCount(sessions) == 0 <==> forall i :: 0 <= i < |sessions| ==> |sessions[i].segments| <= 1
    decreases |sessions|
  {
    if |sessions| > 0 {
      var p := sessions[..|sessions| - 1];
      BreakCountBounds(p);
      assert forall i :: 0 <= i < |p| ==> p[i] == sessions[i];
    }
  }

  lemma {:induction false} BreakCountAppend(a: seq<Session>, b: seq<Session>)
    ensures BreakCount(a + b) == BreakCount(a) + BreakCount(b)
    decreases |b|
  {
    if |b| > 0 {
      assert (a + b)[..|a + b| - 1] == a + b[..|b| - 1];
      BreakCountAppend(a, b[..|b| - 1]);
    } else {
      assert a + b == a;
    }
  }

  /** With no adjacent pair (no segment, or just one) there is no break. */
  lemma BreakTimeWithoutPair(sessions: seq<Session>, thresholdMs: int, dayStartHour: int, now: int, tz: int)
    requires SegmentCount(sessions) <= 1
    ensures BreakTimeSpec(sessions, thresholdMs, dayStartHour, now, tz) == 0
  {
    CollectSpansLength(sessions, now);
  }

  lemma {:induction false} PairSumThresholdAntitone(spans: seq<Span>, t1: int, t2: int, dayStartHour: int, tz: int)
    requires t1 <= t2
    ensures PairSum(spans, t2, dayStartHour, tz) <= PairSum(spans, t1, dayStartHour, tz)
    decreases |spans|
  {
    if |spans| >= 2 {
      PairSumThresholdAntitone(spans[..|spans| - 1], t1, t2, dayStartHour, tz);
    }
  }

  /** A higher threshold never finds more break time. */
  lemma BreakTimeThresholdAntitone(sessions: seq<Session>, t1: int, t2: int, dayStartHour: int, now: int, tz: int)
    requires t1 <= t2
    ensures BreakTimeSpec(sessions, t2, dayStartHour, now, tz) <= BreakTimeSpec(sessions, t1, dayStartHour, now, tz)
  {
    PairSumThresholdAntitone(SortBy(CollectSpans(sessions, now), StartKey), t1, t2, dayStartHour, tz);
  }

  /** The threshold is inclusive: a gap of exactly the threshold counts, one millisecond less does not. */
  lemma GapThresholdInclusive(a: Span, thresholdMs: int, tz: int)
    requires thresholdMs > 0 && !a.hardStop
    requires AdjustedDay(a.end, tz, 0) == AdjustedDay(a.end + thresholdMs, tz, 0)
    ensures GapContribution(a, Span(a.end + thresholdMs, a.end + thresholdMs + 1, false), thresholdMs, 0, tz) == thresholdMs
    ensures AdjustedDay(a.end, tz, 0) == AdjustedDay(a.end + thresholdMs - 1, tz, 0)
    ensures GapContribution(a, Span(a.end + thresholdMs - 1, a.end + thresholdMs, false), thresholdMs, 0, tz) == 0
  {
    AdjustedDayMonotone(a.end, a.end + thresholdMs - 1, tz, 0);
    AdjustedDayMonotone(a.end + thresholdMs - 1, a.end + thresholdMs, tz, 0);
  }

  // Concrete scenarios, with tz = 0 and timestamps on day 20000 (2024-10-04).

  const D0: int := 20000 * DAY

  function Seg(start: int, end: int): TimeSegment
  {
    TimeSegment(start, Some(end), None, None, false)
  }

  function OneSession(segs: seq<TimeSegment>): Session
  {
    Session("s", "task", "1", D0, segs, false, true, None, None, None)
  }

  /** A single session whose stored segments are already in start order is scanned as stored. */
  lemma BreakTimeOfSortedSession(s: Session, thresholdMs: int, dayStartHour: int, now: int, tz: int)
    requires forall i, j :: 0 <= i < j < |s.segments| ==> s.segments[i].start <= s.segments[j].start
    ensures BreakTimeSpec([s], thresholdMs, dayStartHour, now, tz)
      == PairSum(SegmentSpans(s.segments, now), thresholdMs, dayStartHour, tz)
  {
    assert [s][..0] == [];
    var spans := SegmentSpans(s.segments, now);
    assert CollectSpans([s], now) == spans;
    assert SortedBy(spans, StartKey);
    SortBySortedIsIdentity(spans, StartKey);
  }

  lemma PairSumOfTwo(x: Span, y: Span, thresholdMs: int, dayStartHour: int, tz: int)
    ensures PairSum([x, y], thresholdMs, dayStartHour, tz) == GapContribution(x, y, thresholdMs, dayStartHour, tz)
  {
    assert [x, y][..1] == [x];
  }

  lemma PairSumOfThree(x: Span, y: Span, z: Span, thresholdMs: int, dayStartHour: int, tz: int)
    ensures PairSum([x, y, z], thresholdMs, dayStartHour, tz)
      == GapContribution(x, y, thresholdMs, dayStartHour, tz) + GapContribution(y, z, thresholdMs, dayStartHour, tz)
  {
    assert [x, y, z][..2] == [x, y];
    PairSumOfTwo(x, y, thresholdMs, dayStartHour, tz);
  }

  /** A session of two segments in start order has one pair to scan. */
  lemma TwoSegmentSession(a: TimeSegment, b: TimeSegment, thresholdMs: int, dayStartHour: int, now: int, tz: int)
    requires a.start <= b.start
    ensures BreakTimeSpec([OneSession([a, b])], thresholdMs, dayStartHour, now, tz)
      == GapContribution(SpanOf(a, now), SpanOf(b, now), thresholdMs, dayStartHour, tz)
  {
    BreakTimeOfSortedSession(OneSession([a, b]), thresholdMs, dayStartHour, now, tz);
    assert SegmentSpans([a, b], now) == [SpanOf(a, now), SpanOf(b, now)];
    PairSumOfTwo(SpanOf(a, now), SpanOf(b, now), thresholdMs, dayStartHour, tz);
  }

  /** A session of three segments in start order has two pairs to scan. */
  lemma ThreeSegmentSession(a: TimeSegment, b: TimeSegment, c: TimeSegment,
                            thresholdMs: int, dayStartHour: int, now: int, tz: int)
    requires a.start <= b.start <= c.start
    ensures BreakTimeSpec([OneSession([a, b, c])], thresholdMs, dayStartHour, now, tz)
      == GapContribution(SpanOf(a, now), SpanOf(b, now), thresholdMs, dayStartHour, tz)
         + GapContribution(SpanOf(b, now), SpanOf(c, now), thresholdMs, dayStartHour, tz)
  {
    BreakTimeOfSortedSession(OneSession([a, b, c]), thresholdMs, dayStartHour, now, tz);
    assert SegmentSpans([a, b, c], now) == [SpanOf(a, now), SpanOf(b, now), SpanOf(c, now)];
    PairSumOfThree(SpanOf(a, now), SpanOf(b, now), SpanOf(c, now), thresholdMs, dayStartHour, tz);
  }

  /** 09:00-09:50 then 10:00-(running at 10:30): a ten-minute break. */
  lemma BreakTimeTenMinutePause()
    ensures BreakTimeSpec([OneSession([Seg(D0 + 9 * HOUR, D0 + 9 * HOUR + 50 * MINUTE),
                                       OpenSegment(D0 + 10 * HOUR)])],
                          60000, 0, D0 + 10 * HOUR + 30 * MINUTE, 0) == 10 * MINUTE
  {
    var now := D0 + 10 * HOUR + 30 * MINUTE;
    TwoSegmentSession(Seg(D0 + 9 * HOUR, D0 + 9 * HOUR + 50 * MINUTE), OpenSegment(D0 + 10 * HOUR), 60000, 0, now, 0);
    assert AdjustedDay(D0 + 9 * HOUR + 50 * MINUTE, 0, 0) == 20000;
    assert AdjustedDay(D0 + 10 * HOUR, 0, 0) == 20000;
  }

  /** The same pause after a hard stop is not a break. */
  lemma BreakTimeAfterHardStop()
    ensures BreakTimeSpec([OneSession([Seg(D0 + 9 * HOUR, D0 + 9 * HOUR + 50 * MINUTE).(stopReason := Some(HardStop)),
                                       OpenSegment(D0 + 10 * HOUR)])],
                          60000, 0, D0 + 10 * HOUR + 30 * MINUTE, 0) == 0
  {
    var now := D0 + 10 * HOUR + 30 * MINUTE;
    TwoSegmentSession(Seg(D0 + 9 * HOUR, D0 + 9 * HOUR + 50 * MINUTE).(stopReason := Some(HardStop)),
                      OpenSegment(D0 + 10 * HOUR), 60000, 0, now, 0);
  }

  /** A trashed segment that fills a gap closes it: no break on either side. */
  lemma BreakTimeDeletedSegmentClosesGap()
    ensures BreakTimeSpec([OneSession([Seg(D0 + 9 * HOUR, D0 + 9 * HOUR + 30 * MINUTE),
                                       Seg(D0 + 9 * HOUR + 30 * MINUTE, D0 + 10 * HOUR).(deletedAt := Some(D0 + 11 * HOUR)),
                                       Seg(D0 + 10 * HOUR, D0 + 10 * HOUR + 30 * MINUTE)])],
                          60000, 0, D0 + 11 * HOUR, 0) == 0
  {
    ThreeSegmentSession(Seg(D0 + 9 * HOUR, D0 + 9 * HOUR + 30 * MINUTE),
                        Seg(D0 + 9 * HOUR + 30 * MINUTE, D0 + 10 * HOUR).(deletedAt := Some(D0 + 11 * HOUR)),
                        Seg(D0 + 10 * HOUR, D0 + 10 * HOUR + 30 * MINUTE), 60000, 0, D0 + 11 * HOUR, 0);
  }

  /** Without the trashed segment the same two segments leave a thirty-minute break. */
  lemma BreakTimeHalfHourGap()
    ensures BreakTimeSpec([OneSession([Seg(D0 + 9 * HOUR, D0 + 9 * HOUR + 30 * MINUTE),
                                       Seg(D0 + 10 * HOUR, D0 + 10 * HOUR + 30 * MINUTE)])],
                          60000, 0, D0 + 11 * HOUR, 0) == 30 * MINUTE
  {
    TwoSegmentSession(Seg(D0 + 9 * HOUR, D0 + 9 * HOUR + 30 * MINUTE),
                      Seg(D0 + 10 * HOUR, D0 + 10 * HOUR + 30 * MINUTE), 60000, 0, D0 + 11 * HOUR, 0);
    assert AdjustedDay(D0 + 9 * HOUR + 30 * MINUTE, 0, 0) == 20000;
    assert AdjustedDay(D0 + 10 * HOUR, 0, 0) == 20000;
  }

  /** With the day starting at 06:00, a pause from 05:50 to 06:10 straddles two work days. */
  lemma BreakTimeAcrossDayStart()
    ensures BreakTimeSpec([OneSession([Seg(D0 + 5 * HOUR, D0 + 5 * HOUR + 50 * MINUTE),
                                       Seg(D0 + 6 * HOUR + 10 * MINUTE, D0 + 7 * HOUR)])],
                          60000, 6, D0 + 8 * HOUR, 0) == 0
    ensures BreakTimeSpec([OneSession([Seg(D0 + 5 * HOUR, D0 + 5 * HOUR + 50 * MINUTE),
                                       Seg(D0 + 6 * HOUR + 10 * MINUTE, D0 + 7 * HOUR)])],
                          60000, 0, D0 + 8 * HOUR, 0) == 20 * MINUTE
  {
    var a := Seg(D0 + 5 * HOUR, D0 + 5 * HOUR + 50 * MINUTE);
    var b := Seg(D0 + 6 * HOUR + 10 * MINUTE, D0 + 7 * HOUR);
    TwoSegmentSession(a, b, 60000, 6, D0 + 8 * HOUR, 0);
    TwoSegmentSession(a, b, 60000, 0, D0 + 8 * HOUR, 0);
    assert AdjustedDay(D0 + 5 * HOUR + 50 * MINUTE, 0, 6) == 19999;
    assert AdjustedDay(D0 + 6 * HOUR + 10 * MINUTE, 0, 6) == 20000;
    assert AdjustedDay(D0 + 5 * HOUR + 50 * MINUTE, 0, 0) == 20000;
    assert AdjustedDay(D0 + 6 * HOUR + 10 * MINUTE, 0, 0) == 20000;
  }

  /** Two one-segment sessions contribute their spans in stored order. */
  lemma TwoSessionSpans(a: TimeSegment, b: TimeSegment, now: int)
    ensures CollectSpans([OneSession([a]), OneSession([b])], now) == [SpanOf(a, now), SpanOf(b, now)]
  {
    var ss := [OneSession([a]), OneSession([b])];
    assert ss[..1] == [OneSession([a])];
    assert [OneSession([a])][..0] == [];
    assert SegmentSpans([a], now) == [SpanOf(a, now)];
    assert SegmentSpans([b], now) == [SpanOf(b, now)];
    assert CollectSpans(ss[..1], now) == [SpanOf(a, now)];
  }

  /** Two one-segment sessions stored latest first are scanned earliest first. */
  lemma TwoSessionsOutOfOrder(a: TimeSegment, b: TimeSegment, thresholdMs: int, dayStartHour: int, now: int, tz: int)
    requires a.start > b.start
    ensures BreakTimeSpec([OneSession([a]), OneSession([b])], thresholdMs, dayStartHour, now, tz)
      == GapContribution(SpanOf(b, now), SpanOf(a, now), thresholdMs, dayStartHour, tz)
  {
    TwoSessionSpans(a, b, now);
    SortTwoDescending(SpanOf(a, now), SpanOf(b, now), StartKey);
    PairSumOfTwo(SpanOf(b, now), SpanOf(a, now), thresholdMs, dayStartHour, tz);
  }

  /** Segments are sorted by start first: stored order does not matter for a pause. */
  lemma BreakTimeSortsSegments()
    ensures BreakTimeSpec([OneSession([Seg(D0 + 10 * HOUR, D0 + 11 * HOUR)]),
                           OneSession([Seg(D0 + 8 * HOUR, D0 + 9 * HOUR)])],
                          60000, 0, D0 + 12 * HOUR, 0) == HOUR
  {
    assert AdjustedDay(D0 + 9 * HOUR, 0, 0) == AdjustedDay(D0 + 10 * HOUR, 0, 0);
    TwoSessionsOutOfOrder(Seg(D0 + 10 * HOUR, D0 + 11 * HOUR), Seg(D0 + 8 * HOUR, D0 + 9 * HOUR), 60000, 0, D0 + 12 * HOUR, 0);
  }
}
