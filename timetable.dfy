// TimetableList.tsx: the list of the day's slices. Work, trashed, break,
// pause and other-group slices are produced by one pass of a cursor over the
// clipped, sorted segments, and the list is returned newest first.
module Timetable {
  import opened Types
  import opened Sorting
  import opened Clip
  import Palette

  datatype BreakTrackingMode = PauseOnly | AttendanceBased

  /**
   * One row of the list. `sessionId` and `segmentIndex` are absent where the
   * original leaves them undefined. `duration` is the number of milliseconds
   * the row shows as `formatDuration(duration)` (Format.FormatDuration).
   */
  datatype Slice = Slice(
    labelText: string,
    duration: int,
    fillColor: string,
    isBreak: bool,
    isHardStop: bool,
    isDeleted: bool,
    isOnHold: bool,
    isOngoing: bool,
    isOtherGroup: bool,
    start: int,
    end: int,
    sessionId: Option<string>,
    segmentIndex: Option<nat>)

  const BreakLabel: string := "휴식"
  const PauseLabel: string := "일시정지"
  const DeletedGapLabel: string := "제거된 시간"
  const DeletedSuffix: string := " (삭제됨)"
  const BreakFill: string := "#a7f3d0"
  const PauseFill: string := "#cbd5e1"
  const OtherGroupFill: string := "#e2e8f0"
  const DeletedFill: string := "#f1f5f9"

  /** A group filter is on unless the selection is 'all' or empty. */
  predicate GroupFilterOn(selectedGroupId: string)
  {
    selectedGroupId != "all" && selectedGroupId != ""
  }

  /** The sessions shown: all of them, or those of the selected group. */
  function FilteredSessions(sessions: seq<Session>, selectedGroupId: string): seq<Session>
  {
    if GroupFilterOn(selectedGroupId) then InGroup(sessions, selectedGroupId) else sessions
  }

  // --- the window ------------------------------------------------------------

  /** The original reads `s.segments[0]` of every session, so each must have one. */
  predicate AllHaveSegments(sessions: seq<Session>)
  {
    forall i :: 0 <= i < |sessions| ==> |sessions[i].segments| > 0
  }

  /** Math.min over the first stored start of each session. */
  function MinFirstStart(sessions: seq<Session>): (r: int)
    requires |sessions| > 0 && AllHaveSegments(sessions)
    ensures forall i :: 0 <= i < |sessions| ==> r <= sessions[i].segments[0].start
    ensures exists i :: 0 <= i < |sessions| && r == sessions[i].segments[0].start
    decreases |sessions|
  {
    var x := sessions[|sessions| - 1].segments[0].start;
    if |sessions| == 1 then x
    else
      var p := sessions[..|sessions| - 1];
      var m := MinFirstStart(p);
      assert forall i :: 0 <= i < |p| ==> p[i] == sessions[i];
      if x < m then x else m
  }

  /** Math.max over `end || now` of a session's segments. */
  function MaxSegmentEnd(segs: seq<TimeSegment>, now: int): (r: int)
    requires |segs| > 0
    ensures forall i :: 0 <= i < |segs| ==> segs[i].EndOr(now) <= r
    ensures exists i :: 0 <= i < |segs| && r == segs[i].EndOr(now)
    decreases |segs|
  {
    var x := segs[|segs| - 1].EndOr(now);
    if |segs| == 1 then x
    else
      var p := segs[..|segs| - 1];
      var m := MaxSegmentEnd(p, now);
      assert forall i :: 0 <= i < |p| ==> p[i] == segs[i];
      if x > m then x else m
  }

  /** Math.max over the sessions of their latest end. */
  function MaxEnd(sessions: seq<Session>, now: int): (r: int)
    requires |sessions| > 0 && AllHaveSegments(sessions)
    ensures forall i, j :: 0 <= i < |sessions| && 0 <= j < |sessions[i].segments| ==>
      sessions[i].segments[j].EndOr(now) <= r
    ensures exists i, j ::
      0 <= i < |sessions| && 0 <= j < |sessions[i].segments| && r == sessions[i].segments[j].EndOr(now)
    decreases |sessions|
  {
    var x := MaxSegmentEnd(sessions[|sessions| - 1].segments, now);
    if |sessions| == 1 then x
    else
      var p := sessions[..|sessions| - 1];
      var m := MaxEnd(p, now);
      assert forall i :: 0 <= i < |p| ==> p[i] == sessions[i];
      if x > m then x else m
  }

  predicate AnyActive(sessions: seq<Session>)
  {
    exists i :: 0 <= i < |sessions| && sessions[i].isActive
  }

  /** 09:00 local time on the target date. */
  function NineAm(targetDate: int, tz: int): (r: int)
    ensures LocalDay(r, tz) == LocalDay(targetDate, tz)
    ensures r - DayStart(LocalDay(targetDate, tz), tz) == 9 * HOUR
  {
    DayStart(LocalDay(targetDate, tz), tz) + 9 * HOUR
  }

  /**
   * The [startTime, endTime] window. In pause-only mode the sessions decide
   * and the work day is a fallback; in attendance mode the work day decides.
   */
  function Window(sessions: seq<Session>, workDay: Option<WorkDay>, targetDate: int,
                  mode: BreakTrackingMode, now: int, tz: int): (w: (int, int))
    requires AllHaveSegments(sessions)
    ensures mode == PauseOnly && |sessions| > 0 ==> w == (MinFirstStart(sessions), MaxEnd(sessions, now))
    ensures mode == PauseOnly && |sessions| > 0 ==>
      (forall i :: 0 <= i < |sessions| ==> w.0 <= sessions[i].segments[0].start)
      && (forall i, j :: 0 <= i < |sessions| && 0 <= j < |sessions[i].segments| ==>
            sessions[i].segments[j].EndOr(now) <= w.1)
    ensures mode == PauseOnly && |sessions| == 0 && workDay.Some? ==> w == (workDay.value.startTime, workDay.value.endTime)
    ensures mode == PauseOnly && |sessions| == 0 && workDay.None? ==> w == (NineAm(targetDate, tz), now)
    ensures mode == AttendanceBased && workDay.Some? ==> w == (workDay.value.startTime, workDay.value.endTime)
    ensures mode == AttendanceBased && workDay.None? ==>
      w.0 == (if |sessions| > 0 then MinFirstStart(sessions) else NineAm(targetDate, tz))
      && w.1 == (if AnyActive(sessions) || |sessions| == 0 then now else MaxEnd(sessions, now))
  {
    var hasAny := |sessions| > 0;
    if mode == PauseOnly then
      ( if hasAny then MinFirstStart(sessions)
        else if workDay.Some? then workDay.value.startTime else NineAm(targetDate, tz),
        if hasAny then MaxEnd(sessions, now)
        else if workDay.Some? then workDay.value.endTime else now )
    else
      ( if workDay.Some? then workDay.value.startTime
        else if hasAny then MinFirstStart(sessions) else NineAm(targetDate, tz),
        if workDay.Some? then workDay.value.endTime
        else if AnyActive(sessions) then now
        else if hasAny then MaxEnd(sessions, now) else now )
  }

  // --- break, pause and other-group slices -----------------------------------

  /** The condition addBreakSegment checks before it pushes a slice. */
  predicate ShowsBreak(start: int, end: int, hardStop: bool, lastEnd: int, dayStartHour: int, tz: int)
  {
    end - start > 0
    && AdjustedDay(lastEnd, tz, dayStartHour) == AdjustedDay(start, tz, dayStartHour)
    && (end - start >= 60000 || hardStop)
  }

  /** addBreakSegment: a pause slice after a hard stop, a break slice otherwise, or nothing. */
  function BreakSlice(start: int, end: int, hardStop: bool, lastEnd: int, lastSessionId: Option<string>,
                      dayStartHour: int, tz: int): (r: Option<Slice>)
    ensures r.Some? <==> ShowsBreak(start, end, hardStop, lastEnd, dayStartHour, tz)
    ensures r.Some? ==> r.value.start == start && r.value.end == end && GapSliceOk(r.value)
    ensures r.Some? ==> r.value.isHardStop == hardStop && r.value.sessionId == lastSessionId
  {
    if ShowsBreak(start, end, hardStop, lastEnd, dayStartHour, tz) then
      Some(Slice(if hardStop then PauseLabel else BreakLabel,
                 end - start,
                 if hardStop then PauseFill else BreakFill,
                 !hardStop, hardStop, false, false, false, false,
                 start, end, lastSessionId, None))
    else None
  }

  /** Slices that fill a gap between items rather than show an item. */
  predicate IsGapSlice(sl: Slice)
  {
    sl.isBreak || sl.isHardStop || sl.isOtherGroup
  }

  /** Exactly one kind flag, with the label and colour of that kind; a break lasts a minute or more. */
  predicate GapSliceOk(sl: Slice)
  {
    sl.start < sl.end && !sl.isDeleted && !sl.isOnHold && !sl.isOngoing
    && ( (sl.isBreak && !sl.isHardStop && !sl.isOtherGroup
          && sl.labelText == BreakLabel && sl.fillColor == BreakFill && sl.end - sl.start >= 60000)
      || (sl.isHardStop && !sl.isBreak && !sl.isOtherGroup
          && sl.labelText == PauseLabel && sl.fillColor == PauseFill)
      || (sl.isOtherGroup && !sl.isBreak && !sl.isHardStop && sl.fillColor == OtherGroupFill) )
  }

  /** A segment of another group's session, with that session's name. */
  datatype OtherWork = OtherWork(start: int, end: Option<int>, sessionName: string)

  /** `end ? min(end, limit) : min(now, limit)`. */
  function ClipEnd(end: Option<int>, limit: int, now: int): (r: int)
    ensures r <= limit && r <= (if end.Some? then end.value else now)
    ensures r == limit || r == (if end.Some? then end.value else now)
  {
    if end.Some? then (if end.value < limit then end.value else limit)
    else if now < limit then now else limit
  }

  /** A segment reaches into the gap: not trashed, and its clipped end lies after its clipped start. */
  predicate Reaches(seg: TimeSegment, gapStart: int, gapEnd: int, now: int)
  {
    seg.deletedAt.None? && ClipEnd(seg.end, gapEnd, now) > (if seg.start > gapStart then seg.start else gapStart)
  }

  /** A segment as other-group work, carrying its session's name. */
  function PieceOf(s: Session, seg: TimeSegment): OtherWork
  {
    OtherWork(seg.start, seg.end, s.name)
  }

  /** The sessions whose work may fill a gap: another group's, and not in the trash. */
  predicate OtherSession(s: Session, selectedGroupId: string)
  {
    s.groupId != selectedGroupId && s.deletedAt.None?
  }

  /** The first `n` segments of `s` that reach into the gap, in stored order. */
  function OtherSegmentsOf(s: Session, n: nat, gapStart: int, gapEnd: int, now: int): (r: seq<OtherWork>)
    requires n <= |s.segments|
    ensures forall i :: 0 <= i < |r| ==> r[i].start < ClipEnd(r[i].end, gapEnd, now)
    ensures forall o :: o in r <==>
      exists j :: 0 <= j < n && Reaches(s.segments[j], gapStart, gapEnd, now) && o == PieceOf(s, s.segments[j])
    decreases n
  {
    if n == 0 then []
    else
      var prev := OtherSegmentsOf(s, n - 1, gapStart, gapEnd, now);
      var seg := s.segments[n - 1];
      var st := if seg.start > gapStart then seg.start else gapStart;
      if ClipEnd(seg.end, gapEnd, now) > st && seg.deletedAt.None? then prev + [OtherWork(seg.start, seg.end, s.name)]
      else prev
  }

  /** Segment `j` of session `i` is a piece of other-group work in the gap. */
  predicate OtherPiece(sessions: seq<Session>, selectedGroupId: string, gapStart: int, gapEnd: int, now: int,
                       i: int, j: int, o: OtherWork)
  {
    0 <= i < |sessions| && OtherSession(sessions[i], selectedGroupId)
    && 0 <= j < |sessions[i].segments| && Reaches(sessions[i].segments[j], gapStart, gapEnd, now)
    && o == PieceOf(sessions[i], sessions[i].segments[j])
  }

  /** The segments of sessions of other groups (not trashed) that reach into the gap, in stored order. */
  function OtherSegments(sessions: seq<Session>, selectedGroupId: string, gapStart: int, gapEnd: int, now: int)
    : (r: seq<OtherWork>)
    ensures forall i :: 0 <= i < |r| ==> r[i].start < ClipEnd(r[i].end, gapEnd, now)
    ensures forall o :: o in r <==> exists i, j :: OtherPiece(sessions, selectedGroupId, gapStart, gapEnd, now, i, j, o)
    decreases |sessions|
  {
    if |sessions| == 0 then []
    else
      var p := sessions[..|sessions| - 1];
      var prev := OtherSegments(p, selectedGroupId, gapStart, gapEnd, now);
      OtherSegmentsStep(sessions, p, selectedGroupId, gapStart, gapEnd, now, prev);
      var s := sessions[|sessions| - 1];
      if OtherSession(s, selectedGroupId) then prev + OtherSegmentsOf(s, |s.segments|, gapStart, gapEnd, now)
      else prev
  }

  lemma OtherSegmentsStep(sessions: seq<Session>, p: seq<Session>, selectedGroupId: string, gapStart: int, gapEnd: int,
                          now: int, prev: seq<OtherWork>)
    requires |sessions| > 0 && p == sessions[..|sessions| - 1]
    requires forall o :: o in prev <==> exists i, j :: OtherPiece(p, selectedGroupId, gapStart, gapEnd, now, i, j, o)
    ensures var s := sessions[|sessions| - 1];
      var r := if OtherSession(s, selectedGroupId) then prev + OtherSegmentsOf(s, |s.segments|, gapStart, gapEnd, now)
               else prev;
      forall o :: o in r <==> exists i, j :: OtherPiece(sessions, selectedGroupId, gapStart, gapEnd, now, i, j, o)
  {
    var k := |sessions| - 1;
    var s := sessions[k];
    var r := if OtherSession(s, selectedGroupId) then prev + OtherSegmentsOf(s, |s.segments|, gapStart, gapEnd, now)
             else prev;
    forall o | o in r
      ensures exists i, j :: OtherPiece(sessions, selectedGroupId, gapStart, gapEnd, now, i, j, o)
    {
      if o in prev {
        var i, j :| OtherPiece(p, selectedGroupId, gapStart, gapEnd, now, i, j, o);
        assert p[i] == sessions[i];
        assert OtherPiece(sessions, selectedGroupId, gapStart, gapEnd, now, i, j, o);
      } else {
        var j :| 0 <= j < |s.segments| && Reaches(s.segments[j], gapStart, gapEnd, now) && o == PieceOf(s, s.segments[j]);
        assert OtherPiece(sessions, selectedGroupId, gapStart, gapEnd, now, k, j, o);
      }
    }
    forall o | exists i, j :: OtherPiece(sessions, selectedGroupId, gapStart, gapEnd, now, i, j, o)
      ensures o in r
    {
      var i, j :| OtherPiece(sessions, selectedGroupId, gapStart, gapEnd, now, i, j, o);
      if i < k {
        assert p[i] == sessions[i];
        assert OtherPiece(p, selectedGroupId, gapStart, gapEnd, now, i, j, o);
      } else {
        assert o in OtherSegmentsOf(s, |s.segments|, gapStart, gapEnd, now);
      }
    }
  }

  function OtherStart(o: OtherWork): int { o.start }

  /** The other-group work of a gap: the pieces of `OtherSegments`, sorted by stored start. */
  function OtherWorkIn(sessions: seq<Session>, selectedGroupId: string, gapStart: int, gapEnd: int, now: int)
    : (r: seq<OtherWork>)
    ensures multiset(r) == multiset(OtherSegments(sessions, selectedGroupId, gapStart, gapEnd, now))
    ensures forall i, j :: 0 <= i < j < |r| ==> r[i].start <= r[j].start
    ensures forall i :: 0 <= i < |r| ==> r[i].start < ClipEnd(r[i].end, gapEnd, now)
    ensures forall o :: o in r <==> exists i, j :: OtherPiece(sessions, selectedGroupId, gapStart, gapEnd, now, i, j, o)
  {
    var all := OtherSegments(sessions, selectedGroupId, gapStart, gapEnd, now);
    var r := SortBy(all, OtherStart);
    assert forall i, j :: 0 <= i < j < |r| ==> OtherStart(r[i]) <= OtherStart(r[j]);
    forall i | 0 <= i < |r| ensures r[i].start < ClipEnd(r[i].end, gapEnd, now)
    {
      SortByMembers(all, OtherStart, r[i]);
      var k :| 0 <= k < |all| && all[k] == r[i];
    }
    forall o ensures o in r <==> o in all
    {
      assert o in r <==> o in multiset(r);
      assert o in all <==> o in multiset(all);
    }
    r
  }

  /** Pieces laid out left to right inside [lo, hi], none overlapping the next. */
  predicate Tiled(pieces: seq<Slice>, lo: int, hi: int)
  {
    (forall i :: 0 <= i < |pieces| ==> lo <= pieces[i].start < pieces[i].end <= hi)
    && (forall i, j :: 0 <= i < j < |pieces| ==> pieces[i].end <= pieces[j].start)
  }

  /** Every piece is a well-formed gap slice; its break pieces are what addBreakSegment makes of them. */
  predicate PiecesOk(pieces: seq<Slice>, hardStop: bool, lastEnd: int, lastSessionId: Option<string>,
                     dayStartHour: int, tz: int)
  {
    forall i :: 0 <= i < |pieces| ==>
      GapSliceOk(pieces[i])
      && (pieces[i].isBreak || pieces[i].isHardStop ==>
            BreakSlice(pieces[i].start, pieces[i].end, hardStop, lastEnd, lastSessionId, dayStartHour, tz)
              == Some(pieces[i]))
  }

  function OptionalSlice(o: Option<Slice>): seq<Slice>
  {
    if o.Some? then [o.value] else []
  }

  lemma TiledConcat(a: seq<Slice>, b: seq<Slice>, lo: int, mid: int, hi: int)
    requires Tiled(a, lo, mid) && Tiled(b, mid, hi) && lo <= mid <= hi
    ensures Tiled(a + b, lo, hi)
  {
    forall i, j | 0 <= i < j < |a + b|
      ensures (a + b)[i].end <= (a + b)[j].start
    {
      if j >= |a| && i < |a| {
        assert (a + b)[i] == a[i] && (a + b)[j] == b[j - |a|];
      }
    }
  }

  lemma PiecesOkConcat(a: seq<Slice>, b: seq<Slice>, hardStop: bool, lastEnd: int,
                       lastSessionId: Option<string>, dayStartHour: int, tz: int)
    requires PiecesOk(a, hardStop, lastEnd, lastSessionId, dayStartHour, tz)
    requires PiecesOk(b, hardStop, lastEnd, lastSessionId, dayStartHour, tz)
    ensures PiecesOk(a + b, hardStop, lastEnd, lastSessionId, dayStartHour, tz)
  {
    forall i | 0 <= i < |a + b|
      ensures (a + b)[i] == (if i < |a| then a[i] else b[i - |a|])
    {
    }
  }

  /** The other-group slice of `other` over [s, e]. */
  function OtherSlice(other: OtherWork, s: int, e: int): Slice
  {
    Slice(other.sessionName, e - s, OtherGroupFill, false, false, false, false, false, true, s, e, None, None)
  }

  /**
   * One step of the cursor walk: the break before `other` if it starts after
   * the cursor, then `other` clipped to [cursor, gapEnd] if anything is left
   * of it; the cursor moves to the clipped end.
   */
  function GapStep(other: OtherWork, gapCursor: int, gapEnd: int, hardStop: bool, lastEnd: int,
                   lastSessionId: Option<string>, dayStartHour: int, tz: int, now: int)
    : (r: (seq<Slice>, int))
    requires gapCursor <= gapEnd && other.start < ClipEnd(other.end, gapEnd, now)
    ensures gapCursor <= r.1 <= gapEnd
    ensures Tiled(r.0, gapCursor, r.1)
    ensures PiecesOk(r.0, hardStop, lastEnd, lastSessionId, dayStartHour, tz)
    ensures forall k :: 0 <= k < |r.0| && r.0[k].isOtherGroup ==> r.0[k].labelText == other.sessionName
    ensures r.1 == (if gapCursor > ClipEnd(other.end, gapEnd, now) then gapCursor else ClipEnd(other.end, gapEnd, now))
  {
    var s := if other.start > gapCursor then other.start else gapCursor;
    var e := ClipEnd(other.end, gapEnd, now);
    var brk := if s > gapCursor then OptionalSlice(BreakSlice(gapCursor, s, hardStop, lastEnd, lastSessionId, dayStartHour, tz))
               else [];
    var piece := if e > s then [OtherSlice(other, s, e)] else [];
    PiecesOkConcat(brk, piece, hardStop, lastEnd, lastSessionId, dayStartHour, tz);
    (brk + piece, if gapCursor > e then gapCursor else e)
  }

  /** The reaching work of a gap: every piece ends after it starts once clipped to the gap. */
  predicate AllReach(others: seq<OtherWork>, gapEnd: int, now: int)
  {
    forall i :: 0 <= i < |others| ==> others[i].start < ClipEnd(others[i].end, gapEnd, now)
  }

  /** The pieces and the cursor after walking the first `n` pieces of other-group work. */
  function FillFold(others: seq<OtherWork>, n: nat, gapStart: int, gapEnd: int, hardStop: bool, lastEnd: int,
                    lastSessionId: Option<string>, dayStartHour: int, tz: int, now: int)
    : (r: (seq<Slice>, int))
    requires n <= |others| && gapStart <= gapEnd && AllReach(others, gapEnd, now)
    ensures gapStart <= r.1 <= gapEnd
    decreases n
  {
    if n == 0 then ([], gapStart)
    else
      var prev := FillFold(others, n - 1, gapStart, gapEnd, hardStop, lastEnd, lastSessionId, dayStartHour, tz, now);
      var step := GapStep(others[n - 1], prev.1, gapEnd, hardStop, lastEnd, lastSessionId, dayStartHour, tz, now);
      (prev.0 + step.0, step.1)
  }

  /** The whole walk: the pieces of every piece of other work, then the break after the last. */
  function FillSpec(others: seq<OtherWork>, gapStart: int, gapEnd: int, hardStop: bool, lastEnd: int,
                    lastSessionId: Option<string>, dayStartHour: int, tz: int, now: int): seq<Slice>
    requires gapStart <= gapEnd && AllReach(others, gapEnd, now)
  {
    var walked := FillFold(others, |others|, gapStart, gapEnd, hardStop, lastEnd, lastSessionId, dayStartHour, tz, now);
    walked.0 + OptionalSlice(BreakSlice(walked.1, gapEnd, hardStop, lastEnd, lastSessionId, dayStartHour, tz))
  }

  /** The gap cursor loop: walks the other-group work left to right, a break before each piece and the piece. */
  method WalkOthers(others: seq<OtherWork>, gapStart: int, gapEnd: int, hardStop: bool, lastEnd: int,
                    lastSessionId: Option<string>, dayStartHour: int, tz: int, now: int)
    returns (pieces: seq<Slice>, gapCursor: int)
    requires gapStart <= gapEnd
    requires AllReach(others, gapEnd, now)
    ensures pieces == FillFold(others, |others|, gapStart, gapEnd, hardStop, lastEnd, lastSessionId, dayStartHour, tz, now).0
    ensures gapCursor == FillFold(others, |others|, gapStart, gapEnd, hardStop, lastEnd, lastSessionId, dayStartHour, tz, now).1
    ensures gapStart <= gapCursor <= gapEnd
  {
    pieces := [];
    gapCursor := gapStart;
    for i := 0 to |others|
      invariant pieces == FillFold(others, i, gapStart, gapEnd, hardStop, lastEnd, lastSessionId, dayStartHour, tz, now).0
      invariant gapCursor == FillFold(others, i, gapStart, gapEnd, hardStop, lastEnd, lastSessionId, dayStartHour, tz, now).1
    {
      var step := GapStep(others[i], gapCursor, gapEnd, hardStop, lastEnd, lastSessionId, dayStartHour, tz, now);
      pieces := pieces + step.0;
      gapCursor := step.1;
    }
  }

  /**
   * The walk tiles [gapStart, cursor] with well-formed pieces, and every
   * other-group piece carries the name of one of the pieces walked.
   */
  lemma {:induction false} FillFoldOk(others: seq<OtherWork>, n: nat, gapStart: int, gapEnd: int, hardStop: bool,
                                      lastEnd: int, lastSessionId: Option<string>, dayStartHour: int, tz: int, now: int)
    requires n <= |others| && gapStart <= gapEnd && AllReach(others, gapEnd, now)
    ensures Tiled(FillFold(others, n, gapStart, gapEnd, hardStop, lastEnd, lastSessionId, dayStartHour, tz, now).0,
                  gapStart, FillFold(others, n, gapStart, gapEnd, hardStop, lastEnd, lastSessionId, dayStartHour, tz, now).1)
    ensures PiecesOk(FillFold(others, n, gapStart, gapEnd, hardStop, lastEnd, lastSessionId, dayStartHour, tz, now).0,
                     hardStop, lastEnd, lastSessionId, dayStartHour, tz)
    ensures LabelledFrom(FillFold(others, n, gapStart, gapEnd, hardStop, lastEnd, lastSessionId, dayStartHour, tz, now).0,
                         others, n)
    decreases n
  {
    if n > 0 {
      FillFoldOk(others, n - 1, gapStart, gapEnd, hardStop, lastEnd, lastSessionId, dayStartHour, tz, now);
      var prev := FillFold(others, n - 1, gapStart, gapEnd, hardStop, lastEnd, lastSessionId, dayStartHour, tz, now);
      var step := GapStep(others[n - 1], prev.1, gapEnd, hardStop, lastEnd, lastSessionId, dayStartHour, tz, now);
      assert FillFold(others, n, gapStart, gapEnd, hardStop, lastEnd, lastSessionId, dayStartHour, tz, now)
        == (prev.0 + step.0, step.1);
      TiledConcat(prev.0, step.0, gapStart, prev.1, step.1);
      PiecesOkConcat(prev.0, step.0, hardStop, lastEnd, lastSessionId, dayStartHour, tz);
      LabelsFromOthers(prev.0, step.0, others, n - 1);
    }
  }

  /** The walk, then the break after the last piece of other work. */
  method FillGap(others: seq<OtherWork>, gapStart: int, gapEnd: int, hardStop: bool, lastEnd: int,
                 lastSessionId: Option<string>, dayStartHour: int, tz: int, now: int)
    returns (pieces: seq<Slice>)
    requires gapStart <= gapEnd
    requires AllReach(others, gapEnd, now)
    ensures pieces == FillSpec(others, gapStart, gapEnd, hardStop, lastEnd, lastSessionId, dayStartHour, tz, now)
    ensures Tiled(pieces, gapStart, gapEnd)
    ensures PiecesOk(pieces, hardStop, lastEnd, lastSessionId, dayStartHour, tz)
    ensures LabelledFrom(pieces, others, |others|)
  {
    var walked, gapCursor := WalkOthers(others, gapStart, gapEnd, hardStop, lastEnd, lastSessionId, dayStartHour, tz, now);
    FillFoldOk(others, |others|, gapStart, gapEnd, hardStop, lastEnd, lastSessionId, dayStartHour, tz, now);
    var tail := OptionalSlice(BreakSlice(gapCursor, gapEnd, hardStop, lastEnd, lastSessionId, dayStartHour, tz));
    TiledConcat(walked, tail, gapStart, gapCursor, gapEnd);
    PiecesOkConcat(walked, tail, hardStop, lastEnd, lastSessionId, dayStartHour, tz);
    forall k | 0 <= k < |walked + tail| && (walked + tail)[k].isOtherGroup
      ensures exists j :: 0 <= j < |others| && (walked + tail)[k].labelText == others[j].sessionName
    {
      assert k < |walked|;
      assert (walked + tail)[k] == walked[k];
    }
    pieces := walked + tail;
  }

  /** Every other-group piece carries the name of one of the first `n` pieces of other work. */
  predicate LabelledFrom(pieces: seq<Slice>, others: seq<OtherWork>, n: nat)
    requires n <= |others|
  {
    forall k :: 0 <= k < |pieces| && pieces[k].isOtherGroup ==>
      exists j :: 0 <= j < n && pieces[k].labelText == others[j].sessionName
  }

  /** Other-group pieces carry the name of one of the first `i + 1` pieces of other work. */
  lemma LabelsFromOthers(pieces: seq<Slice>, step: seq<Slice>, others: seq<OtherWork>, i: nat)
    requires i < |others|
    requires LabelledFrom(pieces, others, i)
    requires forall k :: 0 <= k < |step| && step[k].isOtherGroup ==> step[k].labelText == others[i].sessionName
    ensures LabelledFrom(pieces + step, others, i + 1)
  {
    forall k | 0 <= k < |pieces + step| && (pieces + step)[k].isOtherGroup
      ensures exists j :: 0 <= j < i + 1 && (pieces + step)[k].labelText == others[j].sessionName
    {
      if k >= |pieces| {
        assert (pieces + step)[k] == step[k - |pieces|];
      } else {
        assert (pieces + step)[k] == pieces[k];
      }
    }
  }

  /**
   * What fills one gap: with a group filter and other-group work inside it,
   * the cursor walk over that work; otherwise the addBreakSegment slice, or nothing.
   */
  function GapPieces(sessions: seq<Session>, selectedGroupId: string, gapStart: int, gapEnd: int,
                     hardStop: bool, lastEnd: int, lastSessionId: Option<string>,
                     dayStartHour: int, tz: int, now: int): seq<Slice>
    requires gapStart <= gapEnd
  {
    var others := OtherWorkIn(sessions, selectedGroupId, gapStart, gapEnd, now);
    if GroupFilterOn(selectedGroupId) && |others| > 0 then
      FillSpec(others, gapStart, gapEnd, hardStop, lastEnd, lastSessionId, dayStartHour, tz, now)
    else OptionalSlice(BreakSlice(gapStart, gapEnd, hardStop, lastEnd, lastSessionId, dayStartHour, tz))
  }

  /** The gap code of the loop: it computes `GapPieces`, which tiles the gap with well-formed gap slices. */
  method GapSlices(sessions: seq<Session>, selectedGroupId: string, gapStart: int, gapEnd: int,
                   hardStop: bool, lastEnd: int, lastSessionId: Option<string>,
                   dayStartHour: int, tz: int, now: int)
    returns (pieces: seq<Slice>)
    requires gapStart <= gapEnd
    ensures pieces == GapPieces(sessions, selectedGroupId, gapStart, gapEnd, hardStop, lastEnd, lastSessionId,
                                dayStartHour, tz, now)
    ensures Tiled(pieces, gapStart, gapEnd)
    ensures PiecesOk(pieces, hardStop, lastEnd, lastSessionId, dayStartHour, tz)
    ensures !GroupFilterOn(selectedGroupId) || |OtherWorkIn(sessions, selectedGroupId, gapStart, gapEnd, now)| == 0 ==>
      pieces == OptionalSlice(BreakSlice(gapStart, gapEnd, hardStop, lastEnd, lastSessionId, dayStartHour, tz))
  {
    if GroupFilterOn(selectedGroupId) {
      var others := OtherWorkIn(sessions, selectedGroupId, gapStart, gapEnd, now);
      if |others| > 0 {
        pieces := FillGap(others, gapStart, gapEnd, hardStop, lastEnd, lastSessionId, dayStartHour, tz, now);
        return;
      }
    }
    pieces := OptionalSlice(BreakSlice(gapStart, gapEnd, hardStop, lastEnd, lastSessionId, dayStartHour, tz));
  }

  // --- item slices and the main scan -------------------------------------------

  /** The colour of a session's work slices in this list. */
  function ListColor(s: Session): string
  {
    Palette.TaskPalette[Palette.PaletteIndex(Palette.Hash("list-" + s.id + s.name))]
  }

  /** The slice of one item: a trashed slice, or a work slice in the session's colour. */
  function ItemSlice(it: Item): (sl: Slice)
    ensures !IsGapSlice(sl) && sl.start == it.start && sl.end == it.end
    ensures sl.isDeleted == it.deleted
    ensures sl.isOngoing <==> !it.deleted && it.originalEndNull && it.session.isActive
    ensures sl.sessionId == Some(it.session.id) && sl.segmentIndex == Some(it.segmentIndex)
  {
    var dur := it.end - it.start;
    if it.deleted then
      Slice(if it.isDeletedGap then DeletedGapLabel else it.session.name + DeletedSuffix,
            dur, DeletedFill, false, false, true, false, false, false,
            it.start, it.end, Some(it.session.id), Some(it.segmentIndex))
    else
      Slice(it.session.name, dur, ListColor(it.session),
            false, false, false, it.session.completionStatus == Some(OnHold),
            it.originalEndNull && it.session.isActive, false,
            it.start, it.end, Some(it.session.id), Some(it.segmentIndex))
  }

  /** One slice per item, in order. */
  function ItemSlices(items: seq<Item>): seq<Slice>
    decreases |items|
  {
    if |items| == 0 then [] else ItemSlices(items[..|items| - 1]) + [ItemSlice(items[|items| - 1])]
  }

  /** Slice `i` is the slice of item `i`. */
  lemma {:induction false} ItemSlicesMeaning(items: seq<Item>)
    ensures |ItemSlices(items)| == |items|
    ensures forall i :: 0 <= i < |items| ==> ItemSlices(items)[i] == ItemSlice(items[i])
    decreases |items|
  {
    if |items| > 0 {
      var p := items[..|items| - 1];
      ItemSlicesMeaning(p);
      forall i | 0 <= i < |items|
        ensures ItemSlices(items)[i] == ItemSlice(items[i])
      {
        if i < |p| {
          assert ItemSlices(items)[i] == ItemSlices(p)[i];
          assert p[i] == items[i];
        }
      }
    }
  }

  /** The work and trashed slices, in order: everything that is not a gap slice. */
  function WorkSlices(slices: seq<Slice>): seq<Slice>
    decreases |slices|
  {
    if |slices| == 0 then []
    else if IsGapSlice(slices[|slices| - 1]) then WorkSlices(slices[..|slices| - 1])
    else WorkSlices(slices[..|slices| - 1]) + [slices[|slices| - 1]]
  }

  lemma {:induction false} WorkSlicesAppendGaps(built: seq<Slice>, pieces: seq<Slice>)
    requires forall i :: 0 <= i < |pieces| ==> IsGapSlice(pieces[i])
    ensures WorkSlices(built + pieces) == WorkSlices(built)
    decreases |pieces|
  {
    if |pieces| > 0 {
      assert (built + pieces)[..|built + pieces| - 1] == built + pieces[..|pieces| - 1];
      WorkSlicesAppendGaps(built, pieces[..|pieces| - 1]);
    } else {
      assert built + pieces == built;
    }
  }

  function Reverse(s: seq<Slice>): (r: seq<Slice>)
    ensures |r| == |s| && forall i :: 0 <= i < |s| ==> r[i] == s[|s| - 1 - i]
    decreases |s|
  {
    if |s| == 0 then [] else [s[|s| - 1]] + Reverse(s[..|s| - 1])
  }

  lemma ReverseReverse(s: seq<Slice>)
    ensures Reverse(Reverse(s)) == s
  {
  }

  /** The invariant of the main scan, over the slices built so far. */
  predicate ScanOk(built: seq<Slice>, startTime: int, endTime: int, lastStart: int)
  {
    (forall i :: 0 <= i < |built| ==> startTime <= built[i].start < built[i].end <= endTime)
    && (forall i, j :: 0 <= i < j < |built| ==> built[i].start <= built[j].start)
    && (forall i :: 0 <= i < |built| ==> built[i].start <= lastStart)
    && (forall i :: 0 <= i < |built| && IsGapSlice(built[i]) ==> GapSliceOk(built[i]))
  }

  lemma AppendGapPieces(built: seq<Slice>, pieces: seq<Slice>, startTime: int, endTime: int,
                        lastStart: int, gapStart: int, gapEnd: int, hardStop: bool, lastEnd: int,
                        lastSessionId: Option<string>, dayStartHour: int, tz: int)
    requires ScanOk(built, startTime, endTime, lastStart)
    requires startTime <= gapStart && lastStart <= gapStart <= gapEnd <= endTime
    requires Tiled(pieces, gapStart, gapEnd)
    requires PiecesOk(pieces, hardStop, lastEnd, lastSessionId, dayStartHour, tz)
    ensures ScanOk(built + pieces, startTime, endTime, gapEnd)
    ensures WorkSlices(built + pieces) == WorkSlices(built)
  {
    var all := built + pieces;
    forall i | 0 <= i < |all|
      ensures all[i] == (if i < |built| then built[i] else pieces[i - |built|])
    {
    }
    WorkSlicesAppendGaps(built, pieces);
  }

  lemma AppendItemSlice(built: seq<Slice>, items: seq<Item>, k: nat, startTime: int, endTime: int, lastStart: int)
    requires k < |items|
    requires ScanOk(built, startTime, endTime, lastStart)
    requires WorkSlices(built) == ItemSlices(items[..k])
    requires lastStart <= items[k].start && startTime <= items[k].start < items[k].end <= endTime
    ensures ScanOk(built + [ItemSlice(items[k])], startTime, endTime, items[k].start)
    ensures WorkSlices(built + [ItemSlice(items[k])]) == ItemSlices(items[..k + 1])
  {
    var sl := ItemSlice(items[k]);
    ScanOkAppend(built, sl, startTime, endTime, lastStart);
    WorkSlicesSnoc(built, sl);
    ItemSlicesSnoc(items, k);
  }

  lemma WorkSlicesSnoc(built: seq<Slice>, sl: Slice)
    requires !IsGapSlice(sl)
    ensures WorkSlices(built + [sl]) == WorkSlices(built) + [sl]
  {
    var all := built + [sl];
    assert all[..|all| - 1] == built;
  }

  lemma ItemSlicesSnoc(items: seq<Item>, k: nat)
    requires k < |items|
    ensures ItemSlices(items[..k + 1]) == ItemSlices(items[..k]) + [ItemSlice(items[k])]
  {
    assert items[..k + 1][..k] == items[..k];
  }

  lemma ScanOkAppend(built: seq<Slice>, sl: Slice, startTime: int, endTime: int, lastStart: int)
    requires ScanOk(built, startTime, endTime, lastStart)
    requires lastStart <= sl.start && startTime <= sl.start < sl.end <= endTime && !IsGapSlice(sl)
    ensures ScanOk(built + [sl], startTime, endTime, sl.start)
  {
    var all := built + [sl];
    forall i | 0 <= i < |all|
      ensures all[i] == (if i < |built| then built[i] else sl)
    {
    }
  }

  /** The items the scan walks: inside the window and sorted by start. */
  predicate ScanInput(items: seq<Item>, startTime: int, endTime: int)
  {
    (forall i :: 0 <= i < |items| ==> startTime <= items[i].start < items[i].end <= endTime)
    && (forall i, j :: 0 <= i < j < |items| ==> items[i].start <= items[j].start)
  }

  /** The cursor of the main loop: the slices so far and what the next gap depends on. */
  datatype ScanState = ScanState(built: seq<Slice>, currentTime: int, lastHardStop: bool, lastEnd: int,
                                 lastSessionId: Option<string>)

  /**
   * One item of the main loop: the pieces of the gap before it when it
   * starts after the cursor, then its own slice; the cursor moves to the
   * later of its end and the old cursor.
   */
  function ScanStep(st: ScanState, item: Item, sessions: seq<Session>, selectedGroupId: string,
                    dayStartHour: int, tz: int, now: int): ScanState
  {
    var withGap :=
      if item.start > st.currentTime then
        st.built + GapPieces(sessions, selectedGroupId, st.currentTime, item.start, st.lastHardStop,
                             st.lastEnd, st.lastSessionId, dayStartHour, tz, now)
      else st.built;
    ScanState(withGap + [ItemSlice(item)], if st.currentTime > item.end then st.currentTime else item.end,
              item.hardStop, item.end, Some(item.session.id))
  }

  /** The cursor after the first `n` items, starting at the window's start with nothing built. */
  function ScanFold(items: seq<Item>, n: nat, sessions: seq<Session>, selectedGroupId: string, startTime: int,
                    dayStartHour: int, tz: int, now: int): ScanState
    requires n <= |items|
    decreases n
  {
    if n == 0 then ScanState([], startTime, false, startTime, None)
    else ScanStep(ScanFold(items, n - 1, sessions, selectedGroupId, startTime, dayStartHour, tz, now),
                  items[n - 1], sessions, selectedGroupId, dayStartHour, tz, now)
  }

  /** The slices of the main loop: every item with the gap before it, then the gap up to the window's end. */
  function ScanSpec(items: seq<Item>, sessions: seq<Session>, selectedGroupId: string, startTime: int, endTime: int,
                    dayStartHour: int, tz: int, now: int): seq<Slice>
  {
    var st := ScanFold(items, |items|, sessions, selectedGroupId, startTime, dayStartHour, tz, now);
    if st.currentTime < endTime then
      st.built + GapPieces(sessions, selectedGroupId, st.currentTime, endTime, st.lastHardStop, st.lastEnd,
                           st.lastSessionId, dayStartHour, tz, now)
    else st.built
  }

  /** One pass of the main loop's body: the gap before item `k`, if any, then its slice. */
  method AdvanceItem(items: seq<Item>, k: nat, sessions: seq<Session>, selectedGroupId: string,
                     startTime: int, endTime: int, dayStartHour: int, tz: int, now: int,
                     st: ScanState, ghost lastStart: int)
    returns (next: ScanState)
    requires k < |items| && ScanInput(items, startTime, endTime)
    requires startTime <= lastStart <= st.currentTime && lastStart <= items[k].start
    requires k > 0 ==> st.currentTime <= endTime
    requires k == 0 ==> st.currentTime == startTime
    requires ScanOk(st.built, startTime, endTime, lastStart)
    requires WorkSlices(st.built) == ItemSlices(items[..k])
    ensures next == ScanStep(st, items[k], sessions, selectedGroupId, dayStartHour, tz, now)
    ensures startTime <= items[k].start <= next.currentTime <= endTime
    ensures ScanOk(next.built, startTime, endTime, items[k].start)
    ensures WorkSlices(next.built) == ItemSlices(items[..k + 1])
  {
    var item := items[k];
    var built := st.built;
    ghost var start := lastStart;
    if item.start > st.currentTime {
      var pieces := GapSlices(sessions, selectedGroupId, st.currentTime, item.start, st.lastHardStop,
                              st.lastEnd, st.lastSessionId, dayStartHour, tz, now);
      AppendGapPieces(built, pieces, startTime, endTime, start, st.currentTime, item.start,
                      st.lastHardStop, st.lastEnd, st.lastSessionId, dayStartHour, tz);
      built := built + pieces;
      start := item.start;
    }
    AppendItemSlice(built, items, k, startTime, endTime, start);
    built := built + [ItemSlice(item)];
    next := ScanState(built, if st.currentTime > item.end then st.currentTime else item.end,
                      item.hardStop, item.end, Some(item.session.id));
  }

  /** The main loop over the items: a gap before each item that starts after the cursor, then the item. */
  method ScanItems(items: seq<Item>, sessions: seq<Session>, selectedGroupId: string, startTime: int, endTime: int,
                   dayStartHour: int, tz: int, now: int)
    returns (st: ScanState, ghost lastStart: int)
    requires ScanInput(items, startTime, endTime)
    ensures st == ScanFold(items, |items|, sessions, selectedGroupId, startTime, dayStartHour, tz, now)
    ensures startTime <= lastStart <= st.currentTime
    ensures |items| > 0 ==> st.currentTime <= endTime
    ensures ScanOk(st.built, startTime, endTime, lastStart)
    ensures WorkSlices(st.built) == ItemSlices(items)
  {
    st := ScanState([], startTime, false, startTime, None);
    lastStart := startTime;
    for k := 0 to |items|
      invariant st == ScanFold(items, k, sessions, selectedGroupId, startTime, dayStartHour, tz, now)
      invariant startTime <= lastStart <= st.currentTime
      invariant k > 0 ==> st.currentTime <= endTime
      invariant k == 0 ==> st.currentTime == startTime
      invariant k < |items| ==> lastStart <= items[k].start
      invariant ScanOk(st.built, startTime, endTime, lastStart)
      invariant WorkSlices(st.built) == ItemSlices(items[..k])
    {
      assert k + 1 < |items| ==> items[k].start <= items[k + 1].start;
      st := AdvanceItem(items, k, sessions, selectedGroupId, startTime, endTime, dayStartHour, tz, now, st, lastStart);
      lastStart := items[k].start;
    }
    assert items[..|items|] == items;
  }

  lemma ScanSpecTail(items: seq<Item>, sessions: seq<Session>, selectedGroupId: string, startTime: int, endTime: int,
                     dayStartHour: int, tz: int, now: int, st: ScanState)
    requires st == ScanFold(items, |items|, sessions, selectedGroupId, startTime, dayStartHour, tz, now)
    ensures ScanSpec(items, sessions, selectedGroupId, startTime, endTime, dayStartHour, tz, now)
      == if st.currentTime < endTime then
           st.built + GapPieces(sessions, selectedGroupId, st.currentTime, endTime, st.lastHardStop, st.lastEnd,
                                st.lastSessionId, dayStartHour, tz, now)
         else st.built
  {
  }

  /** The main loop, then the gap from the cursor to the window's end. */
  method Scan(items: seq<Item>, sessions: seq<Session>, selectedGroupId: string, startTime: int, endTime: int,
              dayStartHour: int, tz: int, now: int)
    returns (built: seq<Slice>)
    requires ScanInput(items, startTime, endTime)
    ensures built == ScanSpec(items, sessions, selectedGroupId, startTime, endTime, dayStartHour, tz, now)
    ensures forall i :: 0 <= i < |built| ==> startTime <= built[i].start < built[i].end <= endTime
    ensures forall i, j :: 0 <= i < j < |built| ==> built[i].start <= built[j].start
    ensures forall i :: 0 <= i < |built| && IsGapSlice(built[i]) ==> GapSliceOk(built[i])
    ensures WorkSlices(built) == ItemSlices(items)
  {
    var st, lastStart := ScanItems(items, sessions, selectedGroupId, startTime, endTime, dayStartHour, tz, now);
    ScanSpecTail(items, sessions, selectedGroupId, startTime, endTime, dayStartHour, tz, now, st);
    built := st.built;
    if st.currentTime < endTime {
      var pieces := GapSlices(sessions, selectedGroupId, st.currentTime, endTime, st.lastHardStop,
                              st.lastEnd, st.lastSessionId, dayStartHour, tz, now);
      AppendGapPieces(built, pieces, startTime, endTime, lastStart, st.currentTime, endTime,
                      st.lastHardStop, st.lastEnd, st.lastSessionId, dayStartHour, tz);
      built := built + pieces;
    }
  }

  /**
   * timelineData: the slices of the day, newest first. Every item becomes one
   * work or trashed slice; the gaps between them become break, pause or
   * other-group slices.
   */
  method TimelineData(sessions: seq<Session>, workDay: Option<WorkDay>, targetDate: int,
                      mode: BreakTrackingMode, selectedGroupId: string, dayStartHour: int,
                      now: int, tz: int)
    returns (slices: seq<Slice>)
    requires AllHaveSegments(sessions)
    ensures |FilteredSessions(sessions, selectedGroupId)| == 0 && workDay.None? ==> slices == []
    ensures var w := Window(sessions, workDay, targetDate, mode, now, tz);
      forall i :: 0 <= i < |slices| ==> w.0 <= slices[i].start < slices[i].end <= w.1
    ensures forall i, j :: 0 <= i < j < |slices| ==> slices[i].start >= slices[j].start
    ensures forall i :: 0 <= i < |slices| && IsGapSlice(slices[i]) ==> GapSliceOk(slices[i])
    ensures var w := Window(sessions, workDay, targetDate, mode, now, tz);
      WorkSlices(Reverse(slices))
        == ItemSlices(SortedItems(FilteredSessions(sessions, selectedGroupId), w.0, w.1, now))
    ensures var w := Window(sessions, workDay, targetDate, mode, now, tz);
      !(|FilteredSessions(sessions, selectedGroupId)| == 0 && workDay.None?) ==>
        slices == Reverse(ScanSpec(SortedItems(FilteredSessions(sessions, selectedGroupId), w.0, w.1, now),
                                   sessions, selectedGroupId, w.0, w.1, dayStartHour, tz, now))
  {
    var filtered := FilteredSessions(sessions, selectedGroupId);
    var (startTime, endTime) := Window(sessions, workDay, targetDate, mode, now, tz);
    var items := CollectItems(filtered, startTime, endTime, now);
    items := SortBy(items, ItemStart);
    assert items == SortedItems(filtered, startTime, endTime, now);
    if |filtered| == 0 && workDay.None? {
      assert |items| == 0;
      return [];
    }
    var built := Scan(items, sessions, selectedGroupId, startTime, endTime, dayStartHour, tz, now);
    slices := Reverse(built);
    ReverseReverse(built);
    ReversedSlices(built, startTime, endTime);
  }

  /** Reversing the scan's slices keeps them in the window and checked, newest first. */
  lemma ReversedSlices(built: seq<Slice>, startTime: int, endTime: int)
    requires forall i :: 0 <= i < |built| ==> startTime <= built[i].start < built[i].end <= endTime
    requires forall i, j :: 0 <= i < j < |built| ==> built[i].start <= built[j].start
    requires forall i :: 0 <= i < |built| && IsGapSlice(built[i]) ==> GapSliceOk(built[i])
    ensures var r := Reverse(built);
      (forall i :: 0 <= i < |r| ==> startTime <= r[i].start < r[i].end <= endTime)
      && (forall i, j :: 0 <= i < j < |r| ==> r[i].start >= r[j].start)
      && (forall i :: 0 <= i < |r| && IsGapSlice(r[i]) ==> GapSliceOk(r[i]))
  {
    var r := Reverse(built);
    forall i, j | 0 <= i < j < |r| ensures r[i].start >= r[j].start
    {
      assert r[i] == built[|built| - 1 - i] && r[j] == built[|built| - 1 - j];
    }
  }

  // --- handleDeleteClick -----------------------------------------------------

  datatype DeleteClick = AskToConfirm(sessionId: string, segmentIndex: int) | DeleteNow(sessionId: string, segmentIndex: int)

  /**
   * handleDeleteClick: deleting the only live work segment of a session asks
   * for confirmation first; any other delete goes straight through.
   */
  function HandleDeleteClick(sessions: seq<Session>, sessionId: string, segmentIndex: int): (r: Option<DeleteClick>)
    ensures r.None? <==> FindById(sessions, sessionId).None?
    ensures r.Some? ==> r.value.sessionId == sessionId && r.value.segmentIndex == segmentIndex
    ensures r.Some? ==> (r.value.AskToConfirm? <==> LiveWorkCount(FindById(sessions, sessionId).value.segments) == 1)
  {
    match FindById(sessions, sessionId)
    case None => None
    case Some(s) =>
      if LiveWorkCount(s.segments) == 1 then Some(AskToConfirm(sessionId, segmentIndex))
      else Some(DeleteNow(sessionId, segmentIndex))
  }
}
