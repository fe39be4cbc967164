// The data model consumed by the time-accounting engine (types.ts), plus the
// time constants and day arithmetic shared by every component.
//
// Timestamps are integer milliseconds since the epoch. The browser's local
// time zone is modelled as a fixed offset `tz` in milliseconds (local wall
// clock = utc + tz); `now` is always passed in as a parameter.
module Types {

  datatype Option<T> = None | Some(value: T)

  const SECOND: int := 1000
  const MINUTE: int := 60000
  const HOUR: int := 3600000
  const DAY: int := 86400000

  /** The only stop reason: the gap that follows the segment is not a break. */
  datatype StopReason = HardStop

  /** Status of an archived session. */
  datatype CompletionStatus = Completed | OnHold

  /** The four states of the global timer. */
  datatype TimerStatus = Idle | Running | Paused | Stopped

  /**
   * One contiguous stretch of work. `end == None` is the segment that is
   * currently running; `deletedAt` puts it in the segment trash;
   * `isDeletedGap` marks a synthetic segment that fills a deleted break.
   */
  datatype TimeSegment = TimeSegment(
    start: int,
    end: Option<int>,
    stopReason: Option<StopReason>,
    deletedAt: Option<int>,
    isDeletedGap: bool)
  {
    predicate IsOpen() { end.None? }
    predicate IsHardStop() { stopReason == Some(HardStop) }
    predicate IsDeleted() { deletedAt.Some? }
    /** A segment that is neither trashed nor a deleted-gap marker. */
    predicate IsLiveWork() { deletedAt.None? && !isDeletedGap }
    /** `end ?? now`: an open segment runs until now. */
    function EndOr(now: int): int { if end.Some? then end.value else now }
  }

  /** A fresh, open segment started at `t`. */
  function OpenSegment(t: int): (s: TimeSegment)
    ensures s.start == t && s.IsOpen() && s.IsLiveWork() && !s.IsHardStop()
  {
    TimeSegment(t, None, None, None, false)
  }

  datatype Session = Session(
    id: string,
    name: string,
    groupId: string,
    createdAt: int,
    segments: seq<TimeSegment>,
    isActive: bool,
    isFinished: bool,
    completionStatus: Option<CompletionStatus>,
    memo: Option<string>,
    deletedAt: Option<int>)

  /** `sessions.filter(s => s.groupId === groupId)`. */
  function InGroup(sessions: seq<Session>, groupId: string): (r: seq<Session>)
    ensures forall i :: 0 <= i < |r| ==> r[i] in sessions && r[i].groupId == groupId
    ensures forall i :: 0 <= i < |sessions| && sessions[i].groupId == groupId ==> sessions[i] in r
    decreases |sessions|
  {
    if |sessions| == 0 then []
    else
      var prev := InGroup(sessions[..|sessions| - 1], groupId);
      var last := sessions[|sessions| - 1];
      assert forall i :: 0 <= i < |sessions| - 1 ==> sessions[i] == sessions[..|sessions| - 1][i];
      if last.groupId == groupId then prev + [last] else prev
  }

  /**
   * The group selector of the chart, calendar and dashboard: 'all' keeps
   * every session, any other value keeps exact groupId matches only.
   */
  function GroupFiltered(sessions: seq<Session>, selectedGroupId: string): (r: seq<Session>)
    ensures selectedGroupId == "all" ==> r == sessions
    ensures selectedGroupId != "all" ==>
      (forall i :: 0 <= i < |r| ==> r[i] in sessions && r[i].groupId == selectedGroupId)
      && (forall i :: 0 <= i < |sessions| && sessions[i].groupId == selectedGroupId ==> sessions[i] in r)
  {
    if selectedGroupId == "all" then sessions else InGroup(sessions, selectedGroupId)
  }

  /** `find(s => s.id === id)`: the first session with that id, if any. */
  function FindById(sessions: seq<Session>, id: string): (r: Option<Session>)
    ensures r.Some? ==> r.value in sessions && r.value.id == id
    ensures r.None? <==> forall i :: 0 <= i < |sessions| ==> sessions[i].id != id
    ensures r.Some? ==>
      exists i :: 0 <= i < |sessions| && sessions[i] == r.value && forall k :: 0 <= k < i ==> sessions[k].id != id
    decreases |sessions|
  {
    if |sessions| == 0 then None
    else if sessions[0].id == id then Some(sessions[0])
    else
      var r := FindById(sessions[1..], id);
      assert forall i :: 1 <= i < |sessions| ==> sessions[i] == sessions[1..][i - 1];
      assert r.Some? ==>
        exists i :: 0 <= i < |sessions| && sessions[i] == r.value && forall k :: 0 <= k < i ==> sessions[k].id != id
      by {
        if r.Some? {
          var i :| 0 <= i < |sessions[1..]| && sessions[1..][i] == r.value
            && forall k :: 0 <= k < i ==> sessions[1..][k].id != id;
          assert sessions[i + 1] == r.value && forall k :: 0 <= k < i + 1 ==> sessions[k].id != id;
        }
      }
      r
  }

  /** The positions of the segments that still count as work. */
  function LiveWorkIndices(segs: seq<TimeSegment>): set<nat>
  {
    set i: nat | i < |segs| && segs[i].IsLiveWork()
  }

  /**
   * `segments.filter(seg => !seg.deletedAt && !seg.isDeletedGap).length`:
   * the number of segments that are neither trashed nor a deleted-gap marker.
   */
  function LiveWorkCount(segs: seq<TimeSegment>): (n: nat)
    ensures n <= |segs|
    ensures n == |LiveWorkIndices(segs)|
    decreases |segs|
  {
    if |segs| == 0 then
      assert LiveWorkIndices(segs) == {};
      0
    else
      LiveWorkIndicesSnoc(segs);
      LiveWorkCount(segs[..|segs| - 1]) + (if segs[|segs| - 1].IsLiveWork() then 1 else 0)
  }

  lemma LiveWorkIndicesSnoc(segs: seq<TimeSegment>)
    requires |segs| > 0
    ensures var p := segs[..|segs| - 1];
      |segs| - 1 !in LiveWorkIndices(p)
      && LiveWorkIndices(segs)
         == LiveWorkIndices(p) + (if segs[|segs| - 1].IsLiveWork() then {|segs| - 1} else {})
  {
    var p := segs[..|segs| - 1];
    assert forall i :: 0 <= i < |p| ==> p[i] == segs[i];
  }

  datatype Group = Group(id: string, name: string, color: string)

  datatype NotificationSettings = NotificationSettings(
    workEnabled: bool,
    workInterval: int,
    breakEnabled: bool,
    breakInterval: int,
    soundEnabled: bool,
    nativeNotificationEnabled: bool,
    customSound: Option<string>,
    shortcutEnabled: bool,
    dayStartHour: int)

  datatype WorkDay = WorkDay(startTime: int, endTime: int)

  /** Number of the local calendar day containing instant `t`. */
  function LocalDay(t: int, tz: int): int { (t + tz) / DAY }

  /**
   * The "adjusted" work day of instant `t`: the local day after moving the
   * clock back by `dayStartHour` hours, so that a day starts at that hour.
   */
  function AdjustedDay(t: int, tz: int, dayStartHour: int): int
  {
    (t + tz - dayStartHour * HOUR) / DAY
  }

  /** Local midnight that starts day number `d`. */
  function DayStart(d: int, tz: int): int { d * DAY - tz }

  lemma DayStartBounds(t: int, tz: int)
    ensures DayStart(LocalDay(t, tz), tz) <= t < DayStart(LocalDay(t, tz), tz) + DAY
  {
  }

  /** Two instants on the same adjusted day differ by less than a day. */
  lemma SameAdjustedDayClose(a: int, b: int, tz: int, h: int)
    requires AdjustedDay(a, tz, h) == AdjustedDay(b, tz, h)
    ensures -DAY < b - a < DAY
  {
  }

  /** Adjusted days are monotone in time. */
  lemma AdjustedDayMonotone(a: int, b: int, tz: int, h: int)
    requires a <= b
    ensures AdjustedDay(a, tz, h) <= AdjustedDay(b, tz, h)
  {
  }
}
