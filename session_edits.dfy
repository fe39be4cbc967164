// The value transforms behind the timer's handlers in App.tsx: the session
// a start creates or resumes, the segment edits of pause, hard stop and
// finish, and the segment trash (delete, delete a break, restore).
module SessionEdits {
  import opened Types
  import opened Sorting
  import opened Metrics

  // --- start / resume ------------------------------------------------------------

  /**
   * The session handleStart creates from idle: the given name, the active
   * group (or '1' when none is set), created now, one open segment, ticking.
   */
  function NewSession(id: string, name: string, activeGroupId: string, now: int): Session
  {
    Session(id, name, if activeGroupId == "" then "1" else activeGroupId, now, [OpenSegment(now)],
            true, false, None, Some(""), None)
  }

  /** handleStart from pause or stop: the same session, ticking, with one more open segment. */
  function Resumed(s: Session, now: int): Session
  {
    s.(isActive := true, segments := s.segments + [OpenSegment(now)])
  }

  /** A new session has run exactly as long as the time since it started. */
  lemma NewSessionElapsed(id: string, name: string, activeGroupId: string, now: int, t: int)
    ensures TotalDuration(NewSession(id, name, activeGroupId, now).segments, t) == t - now
    ensures NewSession(id, name, activeGroupId, now).groupId != ""
  {
    assert [OpenSegment(now)][..0] == [];
  }

  /** Resuming keeps every old segment and adds the time since the resume to the total. */
  lemma ResumeAddsRunningTime(s: Session, now: int, t: int)
    ensures Resumed(s, now).segments[..|s.segments|] == s.segments
    ensures TotalDuration(Resumed(s, now).segments, t) == TotalDuration(s.segments, t) + (t - now)
  {
    var r := Resumed(s, now).segments;
    assert r[..|r| - 1] == s.segments;
  }

  // --- pause / hard stop / finish --------------------------------------------------

  /** handlePause's segments: the last segment gets `end := now` when it is still open. */
  function PauseSegments(segs: seq<TimeSegment>, now: int): seq<TimeSegment>
  {
    seq(|segs|, i requires 0 <= i < |segs| =>
      if i == |segs| - 1 && segs[i].IsOpen() then segs[i].(end := Some(now)) else segs[i])
  }

  /** Only the last segment may be running: every earlier one is closed. */
  predicate OnlyLastMayRun(segs: seq<TimeSegment>)
  {
    forall i :: 0 <= i < |segs| - 1 ==> !segs[i].IsOpen()
  }

  /**
   * After a pause nothing runs any more, every segment but the last is
   * untouched, and the total is frozen at its value at the pause, whenever
   * it is read later.
   */
  lemma PauseFreezesTotal(segs: seq<TimeSegment>, now: int, t: int)
    requires OnlyLastMayRun(segs)
    ensures forall i :: 0 <= i < |segs| ==> !PauseSegments(segs, now)[i].IsOpen()
    ensures forall i :: 0 <= i < |segs| - 1 ==> PauseSegments(segs, now)[i] == segs[i]
    ensures TotalDuration(PauseSegments(segs, now), t) == TotalDuration(segs, now)
  {
    if |segs| > 0 {
      var p := segs[..|segs| - 1];
      var r := PauseSegments(segs, now);
      assert r[..|segs| - 1] == p;
      ClosedTotalIgnoresNow(p, now, t);
    }
  }

  /** The total of closed segments does not depend on the time it is read. */
  lemma {:induction false} ClosedTotalIgnoresNow(segs: seq<TimeSegment>, t1: int, t2: int)
    requires forall i :: 0 <= i < |segs| ==> !segs[i].IsOpen()
    ensures TotalDuration(segs, t1) == TotalDuration(segs, t2)
    decreases |segs|
  {
    if |segs| > 0 {
      ClosedTotalIgnoresNow(segs[..|segs| - 1], t1, t2);
    }
  }

  /**
   * handleStopWithoutBreak's segments: while running the last segment is
   * closed now and marked hard-stop; while paused an already closed last
   * segment is marked hard-stop; otherwise nothing changes.
   */
  function HardStopSegments(segs: seq<TimeSegment>, status: TimerStatus, now: int): seq<TimeSegment>
  {
    if |segs| == 0 then segs
    else
      var last := segs[|segs| - 1];
      if status == Running then segs[|segs| - 1 := last.(end := Some(now), stopReason := Some(HardStop))]
      else if status == Paused && !last.IsOpen() then segs[|segs| - 1 := last.(stopReason := Some(HardStop))]
      else segs
  }

  /**
   * A hard stop while running or paused leaves a closed last segment marked
   * hard-stop, so the gap after it is never a break; earlier segments are kept.
   */
  lemma StopMarksLastHardStop(segs: seq<TimeSegment>, status: TimerStatus, now: int)
    requires |segs| > 0
    requires status == Running || (status == Paused && !segs[|segs| - 1].IsOpen())
    ensures |HardStopSegments(segs, status, now)| == |segs|
    ensures HardStopSegments(segs, status, now)[|segs| - 1].IsHardStop()
    ensures !HardStopSegments(segs, status, now)[|segs| - 1].IsOpen()
    ensures HardStopSegments(segs, status, now)[..|segs| - 1] == segs[..|segs| - 1]
  {
  }

  /** Stopping from pause changes no total; stopping while running freezes it like a pause. */
  lemma StopTotal(segs: seq<TimeSegment>, status: TimerStatus, now: int, t: int)
    requires OnlyLastMayRun(segs)
    ensures status == Paused ==> TotalDuration(HardStopSegments(segs, status, now), t) == TotalDuration(segs, t)
    ensures status == Running && |segs| > 0 && segs[|segs| - 1].IsOpen() ==>
      TotalDuration(HardStopSegments(segs, status, now), t) == TotalDuration(segs, now)
  {
    if |segs| > 0 {
      var n := |segs| - 1;
      var r := HardStopSegments(segs, status, now);
      assert r[..n] == segs[..n];
      if status == Running {
        ClosedTotalIgnoresNow(segs[..n], now, t);
      }
    }
  }

  /** completeSessionProcess's segments: closed as by a pause when running, else kept. */
  function FinishSegments(segs: seq<TimeSegment>, status: TimerStatus, now: int): seq<TimeSegment>
  {
    if status == Running then PauseSegments(segs, now) else segs
  }

  /** The archived session: its final segments, not ticking, finished, with its completion status. */
  function Archived(s: Session, status: TimerStatus, completionStatus: CompletionStatus, now: int): Session
  {
    s.(segments := FinishSegments(s.segments, status, now), isActive := false, isFinished := true,
       completionStatus := Some(completionStatus))
  }

  /** A session finished while running keeps the time it had at the finish. */
  lemma ArchivedKeepsTotal(s: Session, status: TimerStatus, completionStatus: CompletionStatus, now: int, t: int)
    requires OnlyLastMayRun(s.segments)
    ensures status == Running ==>
      TotalDuration(Archived(s, status, completionStatus, now).segments, t) == TotalDuration(s.segments, now)
    ensures status != Running ==> Archived(s, status, completionStatus, now).segments == s.segments
  {
    if status == Running {
      PauseFreezesTotal(s.segments, now, t);
    }
  }

  // --- continue ------------------------------------------------------------------------

  /**
   * handleContinueSession on a later (or earlier) work day: a new session
   * named '<name> (이어하기)' in the same group with the same memo and one
   * open segment.
   */
  function Continuation(prev: Session, id: string, now: int): Session
  {
    Session(id, prev.name + " (이어하기)", prev.groupId, now, [OpenSegment(now)], true, false, None, prev.memo, None)
  }

  /** handleContinueSession on the same work day: the session itself, reopened. */
  function Reopened(prev: Session, now: int): Session
  {
    prev.(isActive := true, isFinished := false, completionStatus := None, deletedAt := None,
         segments := prev.segments + [OpenSegment(now)])
  }

  /** A continuation keeps the group and memo and starts from zero; a reopened session keeps its time. */
  lemma ContinueKeepsWork(prev: Session, id: string, now: int, t: int)
    ensures var c := Continuation(prev, id, now);
      c.groupId == prev.groupId && c.memo == prev.memo && TotalDuration(c.segments, t) == t - now
    ensures var r := Reopened(prev, now);
      r.id == prev.id && r.segments[..|prev.segments|] == prev.segments
      && TotalDuration(r.segments, t) == TotalDuration(prev.segments, t) + (t - now)
  {
    assert [OpenSegment(now)][..0] == [];
    var r := Reopened(prev, now).segments;
    assert r[..|r| - 1] == prev.segments;
  }

  // --- the segment trash --------------------------------------------------------------

  /** handleDeleteSegment's segments: `deletedAt := now` at index `k` only. */
  function TrashSegment(segs: seq<TimeSegment>, k: nat, now: int): seq<TimeSegment>
    requires k < |segs|
  {
    segs[k := segs[k].(deletedAt := Some(now))]
  }

  /**
   * `isLastOne`: exactly one live work segment, and the segment at `k` is
   * not trashed yet; then the session itself goes away.
   */
  predicate IsLastOne(segs: seq<TimeSegment>, k: nat)
    requires k < |segs|
  {
    LiveWorkCount(segs) == 1 && !segs[k].IsDeleted()
  }

  /** Trashing the only live work segment leaves no live work at all. */
  lemma {:induction false} TrashLastLeavesNoWork(segs: seq<TimeSegment>, k: nat, now: int)
    requires k < |segs| && IsLastOne(segs, k) && segs[k].IsLiveWork()
    ensures LiveWorkCount(TrashSegment(segs, k, now)) == 0
  {
    LiveWorkCountUpdate(segs, k, segs[k].(deletedAt := Some(now)));
  }

  /** Replacing one segment changes the live count by the difference. */
  lemma {:induction false} LiveWorkCountUpdate(segs: seq<TimeSegment>, k: nat, x: TimeSegment)
    requires k < |segs|
    ensures LiveWorkCount(segs[k := x]) ==
      LiveWorkCount(segs) - (if segs[k].IsLiveWork() then 1 else 0) + (if x.IsLiveWork() then 1 else 0)
    decreases |segs|
  {
    var n := |segs| - 1;
    if k < n {
      assert segs[k := x][..n] == segs[..n][k := x];
      LiveWorkCountUpdate(segs[..n], k, x);
    } else {
      assert segs[k := x][..n] == segs[..n];
    }
  }

  /**
   * handleRestoreSegment: a deleted-gap marker is removed from the list;
   * any other segment gets its `deletedAt` stripped, every field else kept.
   */
  function RestoreSegment(segs: seq<TimeSegment>, k: nat): (r: seq<TimeSegment>)
    requires k < |segs|
  {
    if segs[k].isDeletedGap then segs[..k] + segs[k + 1..]
    else segs[k := segs[k].(deletedAt := None)]
  }

  /** Restoring a segment that was just trashed gives back the original list. */
  lemma RestoreUndoesTrash(segs: seq<TimeSegment>, k: nat, now: int)
    requires k < |segs| && !segs[k].IsDeleted() && !segs[k].isDeletedGap
    ensures RestoreSegment(TrashSegment(segs, k, now), k) == segs
  {
  }

  /** Trashing a segment takes its time off the total, restoring it puts the time back. */
  lemma TrashAndRestoreTotals(segs: seq<TimeSegment>, k: nat, now: int, t: int)
    requires k < |segs| && !segs[k].IsDeleted()
    ensures TotalDuration(TrashSegment(segs, k, now), t) == TotalDuration(segs, t) - (segs[k].EndOr(t) - segs[k].start)
  {
    TotalDurationAfterTrashing(segs, k, now, t);
  }

  /** The marker handleDeleteBreak files in the trash for a deleted gap. */
  function GapMarker(start: int, end: int, now: int): TimeSegment
  {
    TimeSegment(start, Some(end), None, Some(now), true)
  }

  function SegmentStart(seg: TimeSegment): int { seg.start }

  /** handleDeleteBreak's segments: the marker appended, then all sorted by start. */
  function DeleteBreak(segs: seq<TimeSegment>, start: int, end: int, now: int): seq<TimeSegment>
  {
    SortBy(segs + [GapMarker(start, end, now)], SegmentStart)
  }

  /** The total as a sum over the segments, so that it can be carried through a sort. */
  lemma {:induction false} TotalDurationIsSum(segs: seq<TimeSegment>, now: int)
    ensures TotalDuration(segs, now) == SumBy(segs, seg => LiveDuration(seg, now))
    decreases |segs|
  {
    if |segs| > 0 {
      TotalDurationIsSum(segs[..|segs| - 1], now);
    }
  }

  /**
   * Deleting a break files exactly one marker in the trash, keeps every
   * segment, orders the list by start and leaves the work total unchanged.
   */
  lemma DeleteBreakKeepsWork(segs: seq<TimeSegment>, start: int, end: int, now: int, t: int)
    ensures multiset(DeleteBreak(segs, start, end, now)) == multiset(segs) + multiset{GapMarker(start, end, now)}
    ensures SortedBy(DeleteBreak(segs, start, end, now), SegmentStart)
    ensures TotalDuration(DeleteBreak(segs, start, end, now), t) == TotalDuration(segs, t)
  {
    var m := GapMarker(start, end, now);
    var f := seg => LiveDuration(seg, t);
    TotalDurationIsSum(DeleteBreak(segs, start, end, now), t);
    SortBySum(segs + [m], SegmentStart, f);
    TotalDurationIsSum(segs + [m], t);
    assert (segs + [m])[..|segs|] == segs;
    TotalDurationIsSum(segs, t);
  }

  /** Taking out the element at `k` takes one copy of it out of the multiset. */
  lemma RemoveAtMultiset<T>(r: seq<T>, k: nat)
    requires k < |r|
    ensures multiset(r[..k] + r[k + 1..]) == multiset(r) - multiset{r[k]}
  {
    assert r == r[..k] + [r[k]] + r[k + 1..];
  }

  /** Restoring the marker of a deleted break takes it out again and gives back the old segments. */
  lemma RestoreUndoesDeleteBreak(segs: seq<TimeSegment>, start: int, end: int, now: int, k: nat)
    requires k < |DeleteBreak(segs, start, end, now)| && DeleteBreak(segs, start, end, now)[k] == GapMarker(start, end, now)
    ensures multiset(RestoreSegment(DeleteBreak(segs, start, end, now), k)) == multiset(segs)
  {
    var r := DeleteBreak(segs, start, end, now);
    DeleteBreakKeepsWork(segs, start, end, now, now);
    RemoveAtMultiset(r, k);
  }
}
