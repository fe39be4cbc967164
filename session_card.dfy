// The statistics a session card shows: its header (total, start, end,
// on-hold and running flags) and the expanded view's longest segment,
// break time and break count, taken over the segments in stored order.
module SessionCard {
  import opened Types
  import opened Metrics

  /** What the card header shows for one session. */
  datatype Header = Header(total: int, startTime: int, endTime: Option<int>, isOnHold: bool, isRunning: bool)

  function CardHeader(s: Session, now: int): (h: Header)
    ensures h.total == TotalDuration(s.segments, now)
    ensures |s.segments| == 0 ==> h.startTime == s.createdAt && h.endTime == None
    ensures |s.segments| > 0 ==> h.startTime == s.segments[0].start && h.endTime == s.segments[|s.segments| - 1].end
    ensures h.isOnHold <==> s.completionStatus == Some(OnHold)
    ensures h.isRunning <==> s.isActive
  {
    var segs := s.segments;
    Header(
      TotalDuration(segs, now),
      if |segs| > 0 then segs[0].start else s.createdAt,
      if |segs| > 0 then segs[|segs| - 1].end else None,
      s.completionStatus == Some(OnHold),
      s.isActive)
  }

  /** When the stored segments are in start order, the header's start is the earliest of them. */
  lemma CardStartIsEarliest(s: Session, now: int)
    requires forall i, j :: 0 <= i < j < |s.segments| ==> s.segments[i].start <= s.segments[j].start
    ensures forall j :: 0 <= j < |s.segments| ==> CardHeader(s, now).startTime <= s.segments[j].start
  {
    forall j | 0 <= j < |s.segments|
      ensures CardHeader(s, now).startTime <= s.segments[j].start
    {
      if j > 0 {
        assert s.segments[0].start <= s.segments[j].start;
      }
    }
  }

  /**
   * The gap the card counts after `cur`: only when `cur` has an end, `next`
   * starts strictly later and `cur` was not a hard stop. There is no
   * threshold and no day boundary.
   */
  function CardGap(cur: TimeSegment, next: TimeSegment): (g: int)
    ensures g >= 0
    ensures g > 0 <==> cur.end.Some? && next.start > cur.end.value && !cur.IsHardStop()
  {
    if cur.end.Some? && next.start > cur.end.value && !cur.IsHardStop() then next.start - cur.end.value else 0
  }

  /** Sum of the counted gaps between stored-order neighbours. */
  function GapTotal(segs: seq<TimeSegment>): int
    decreases |segs|
  {
    if |segs| < 2 then 0
    else GapTotal(segs[..|segs| - 1]) + CardGap(segs[|segs| - 2], segs[|segs| - 1])
  }

  /** Number of the counted gaps between stored-order neighbours. */
  function GapCount(segs: seq<TimeSegment>): nat
    decreases |segs|
  {
    if |segs| < 2 then 0
    else GapCount(segs[..|segs| - 1]) + (if CardGap(segs[|segs| - 2], segs[|segs| - 1]) > 0 then 1 else 0)
  }

  datatype CardStats = CardStats(maxDuration: int, breakTime: int, breakCount: nat)

  /**
   * The expanded view's statistics: the longest segment outside the segment
   * trash (0 when there is none), and the gap sum and count over
   * stored-order neighbours, trashed segments included.
   */
  method Stats(segs: seq<TimeSegment>, now: int) returns (st: CardStats)
    ensures st.maxDuration >= 0
    ensures forall j :: 0 <= j < |segs| && !segs[j].IsDeleted() ==> segs[j].EndOr(now) - segs[j].start <= st.maxDuration
    ensures st.maxDuration == 0
      || exists j :: 0 <= j < |segs| && !segs[j].IsDeleted() && st.maxDuration == segs[j].EndOr(now) - segs[j].start
    ensures st.breakTime == GapTotal(segs) && st.breakCount == GapCount(segs)
  {
    var maxDuration := 0;
    var breakTime := 0;
    var breakCount: nat := 0;
    if |segs| > 0 {
      for k := 0 to |segs|
        invariant maxDuration >= 0
        invariant forall j :: 0 <= j < k && !segs[j].IsDeleted() ==> segs[j].EndOr(now) - segs[j].start <= maxDuration
        invariant maxDuration == 0
          || exists j :: 0 <= j < k && !segs[j].IsDeleted() && maxDuration == segs[j].EndOr(now) - segs[j].start
      {
        var seg := segs[k];
        if !seg.IsDeleted() {
          var dur := seg.EndOr(now) - seg.start;
          if dur > maxDuration {
            maxDuration := dur;
          }
        }
      }
      assert segs[..1] == [segs[0]];
      for i := 0 to |segs| - 1
        invariant breakTime == GapTotal(segs[..i + 1])
        invariant breakCount == GapCount(segs[..i + 1])
      {
        var current := segs[i];
        var next := segs[i + 1];
        assert segs[..i + 2][..i + 1] == segs[..i + 1];
        if current.end.Some? && next.start > current.end.value {
          var gap := next.start - current.end.value;
          if gap > 0 && !current.IsHardStop() {
            breakTime := breakTime + gap;
            breakCount := breakCount + 1;
          }
        }
      }
      assert segs[..|segs|] == segs;
    }
    st := CardStats(maxDuration, breakTime, breakCount);
  }

  /** Each pair of neighbours contributes at most one break. */
  lemma {:induction false} GapCountBound(segs: seq<TimeSegment>)
    ensures |segs| <= 1 ==> GapCount(segs) == 0
    ensures |segs| > 1 ==> GapCount(segs) <= |segs| - 1
    decreases |segs|
  {
    if |segs| >= 2 {
      GapCountBound(segs[..|segs| - 1]);
    }
  }

  /** Every counted break lasts at least 1 ms, so there is break time exactly when a break was counted. */
  lemma {:induction false} GapTotalCount(segs: seq<TimeSegment>)
    ensures GapCount(segs) <= GapTotal(segs)
    ensures GapTotal(segs) == 0 <==> GapCount(segs) == 0
    decreases |segs|
  {
    if |segs| >= 2 {
      GapTotalCount(segs[..|segs| - 1]);
    }
  }

  /** Closed, non-hard-stop segments laid end to start in stored order. */
  predicate Chained(segs: seq<TimeSegment>)
  {
    forall i :: 0 <= i < |segs| - 1 ==>
      segs[i].end.Some? && !segs[i].IsHardStop() && segs[i].end.value <= segs[i + 1].start
  }

  /**
   * For chained segments the card's break time and the work before the
   * last segment together fill the time from the first start to the last
   * start.
   */
  lemma {:induction false} ElapsedIsWorkPlusBreaks(segs: seq<TimeSegment>, now: int)
    requires |segs| > 0 && Chained(segs)
    ensures GapTotal(segs) + SpanSum(segs[..|segs| - 1], now) == segs[|segs| - 1].start - segs[0].start
    decreases |segs|
  {
    var n := |segs|;
    if n >= 2 {
      var p := segs[..n - 1];
      assert Chained(p) by {
        forall i | 0 <= i < |p| - 1
          ensures p[i].end.Some? && !p[i].IsHardStop() && p[i].end.value <= p[i + 1].start
        {
          assert p[i] == segs[i] && p[i + 1] == segs[i + 1];
        }
      }
      ElapsedIsWorkPlusBreaks(p, now);
      assert p[..n - 2] == segs[..n - 2];
      assert segs[..n - 1][..n - 2] == segs[..n - 2];
      assert segs[n - 2].end.Some? && segs[n - 2].end.value <= segs[n - 1].start;
    }
  }

  /** No live segment runs longer than the card's total. */
  lemma {:induction false} LiveDurationWithinTotal(segs: seq<TimeSegment>, j: int, now: int)
    requires forall i :: 0 <= i < |segs| ==> segs[i].start <= segs[i].EndOr(now)
    requires 0 <= j < |segs| && !segs[j].IsDeleted()
    ensures segs[j].EndOr(now) - segs[j].start <= TotalDuration(segs, now)
    decreases |segs|
  {
    var p := segs[..|segs| - 1];
    assert forall i :: 0 <= i < |p| ==> p[i] == segs[i];
    TotalDurationNonNegative(p, now);
    if j < |segs| - 1 {
      LiveDurationWithinTotal(p, j, now);
    }
  }

  /**
   * A 30-second pause: the card counts it as a break, while the day's
   * break time with the one-minute threshold ignores it.
   */
  lemma CardCountsShortPause()
    ensures var segs := [Seg(D0, D0 + 10 * MINUTE), Seg(D0 + 10 * MINUTE + 30000, D0 + 20 * MINUTE)];
      GapTotal(segs) == 30000 && GapCount(segs) == 1
      && BreakTimeSpec([OneSession(segs)], MINUTE, 0, D0 + DAY, 0) == 0
  {
    var segs := [Seg(D0, D0 + 10 * MINUTE), Seg(D0 + 10 * MINUTE + 30000, D0 + 20 * MINUTE)];
    assert segs[..1] == [segs[0]];
    BreakTimeOfSortedSession(OneSession(segs), MINUTE, 0, D0 + DAY, 0);
    var spans := SegmentSpans(segs, D0 + DAY);
    assert spans == [SpanOf(segs[0], D0 + DAY), SpanOf(segs[1], D0 + DAY)];
    PairSumOfTwo(spans[0], spans[1], MINUTE, 0, 0);
  }

  /** A trashed segment lying in the gap still closes it on the card. */
  lemma CardTrashedSegmentClosesGap()
    ensures var segs := [Seg(D0, D0 + 10 * MINUTE),
                         TimeSegment(D0 + 10 * MINUTE, Some(D0 + 20 * MINUTE), None, Some(D0 + DAY), false),
                         Seg(D0 + 20 * MINUTE, D0 + 30 * MINUTE)];
      GapTotal(segs) == 0 && GapCount(segs) == 0 && GapTotal([segs[0], segs[2]]) == 10 * MINUTE
  {
    var segs := [Seg(D0, D0 + 10 * MINUTE),
                 TimeSegment(D0 + 10 * MINUTE, Some(D0 + 20 * MINUTE), None, Some(D0 + DAY), false),
                 Seg(D0 + 20 * MINUTE, D0 + 30 * MINUTE)];
    assert segs[..2][..1] == [segs[0]];
    assert segs[..2] == [segs[0], segs[1]];
    assert GapTotal(segs[..2]) == 0 && GapCount(segs[..2]) == 0;
    assert CardGap(segs[1], segs[2]) == 0;
    assert [segs[0], segs[2]][..1] == [segs[0]];
  }
}
