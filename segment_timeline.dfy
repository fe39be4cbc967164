// The detailed record under an expanded session card: one row per stored
// segment with its duration, the gap to the next segment and whether a
// break marker is drawn after it.
module SegmentTimeline {
  import opened Types
  import opened SessionCard

  /** One row of the detailed record. */
  datatype Row = Row(isOngoing: bool, duration: int, breakDuration: int, isHardStop: bool, showBreak: bool)

  /** The row for the `i`-th stored segment. */
  function RowAt(segs: seq<TimeSegment>, i: int, now: int): (r: Row)
    requires 0 <= i < |segs|
    ensures r.isOngoing <==> segs[i].IsOpen()
    ensures r.duration == segs[i].EndOr(now) - segs[i].start
    ensures r.isHardStop <==> segs[i].IsHardStop()
    ensures r.showBreak <==> r.isHardStop || r.breakDuration >= MINUTE
    ensures i == |segs| - 1 ==> r.breakDuration == 0 && (r.showBreak <==> segs[i].IsHardStop())
    ensures i + 1 < |segs| ==>
      r.breakDuration == (if segs[i].end.Some? then segs[i + 1].start - segs[i].end.value else 0)
  {
    var seg := segs[i];
    var breakDuration := if i + 1 < |segs| && seg.end.Some? then segs[i + 1].start - seg.end.value else 0;
    var isHardStop := seg.IsHardStop();
    Row(seg.IsOpen(), seg.EndOr(now) - seg.start, breakDuration, isHardStop, isHardStop || breakDuration >= MINUTE)
  }

  /** `segments.map(...)`: the rows in stored order. */
  function Rows(segs: seq<TimeSegment>, now: int): (r: seq<Row>)
    ensures |r| == |segs|
    ensures forall i :: 0 <= i < |segs| ==> r[i] == RowAt(segs, i, now)
  {
    seq(|segs|, i requires 0 <= i < |segs| => RowAt(segs, i, now))
  }

  /** The part of a row's gap that the card counts as break time. */
  function CountedGap(r: Row): int
  {
    if !r.isHardStop && r.breakDuration > 0 then r.breakDuration else 0
  }

  /** Sum of the counted gaps of the first `k` rows. */
  function CountedGapSum(segs: seq<TimeSegment>, k: int, now: int): int
    requires 0 <= k <= |segs|
    decreases k
  {
    if k == 0 then 0 else CountedGapSum(segs, k - 1, now) + CountedGap(RowAt(segs, k - 1, now))
  }

  /** A row and the card agree on the gap after a segment that is not the last one. */
  lemma RowGapIsCardGap(segs: seq<TimeSegment>, i: int, now: int)
    requires 0 <= i < |segs| - 1
    ensures CountedGap(RowAt(segs, i, now)) == CardGap(segs[i], segs[i + 1])
  {
  }

  /**
   * Summing the rows' non-hard-stop positive gaps gives the card's break
   * time: the detailed record and the card header describe the same breaks.
   */
  lemma {:induction false} RowsSumToCardBreakTime(segs: seq<TimeSegment>, k: int, now: int)
    requires 0 < k <= |segs|
    ensures CountedGapSum(segs, k - 1, now) == GapTotal(segs[..k])
    decreases k
  {
    if k >= 2 {
      RowsSumToCardBreakTime(segs, k - 1, now);
      assert segs[..k][..k - 1] == segs[..k - 1];
      RowGapIsCardGap(segs, k - 2, now);
    }
  }

  /** A break marker after a segment that is not a hard stop means the card counts a gap of at least a minute. */
  lemma MarkerMeansMinuteBreak(segs: seq<TimeSegment>, i: int, now: int)
    requires 0 <= i < |segs| && RowAt(segs, i, now).showBreak && !segs[i].IsHardStop()
    ensures i < |segs| - 1 && CardGap(segs[i], segs[i + 1]) >= MINUTE
  {
  }
}
