// The calendar view's daily overview of the selected day's sessions: the
// work total, the "prime time" hour that holds the most work (each segment
// counted in the local hour of its midpoint), the average and the longest
// session, and the span from the first start to the last end.
module Overview {
  import opened Types
  import opened Text
  import opened Metrics

  /** Number.MAX_SAFE_INTEGER: the "no start seen yet" value. */
  const MAX_SAFE: int := 9007199254740991

  /** `new Date(x)` keeps the integral part of a fractional time value (toward zero). */
  function Truncate(x: real): int
  {
    if x >= 0.0 then x.Floor else -((-x).Floor)
  }

  /** The time value `start + duration / 2` as the Date constructor stores it. */
  function Midpoint(start: int, duration: int): int
  {
    Truncate(start as real + duration as real / 2.0)
  }

  /** A segment that starts after the epoch and runs forward has its midpoint inside it. */
  lemma MidpointWithin(start: int, duration: int)
    requires 0 <= start && 0 <= duration
    ensures start <= Midpoint(start, duration) <= start + duration
  {
    var x := start as real + duration as real / 2.0;
    assert start as real <= x <= (start + duration) as real;
  }

  /** `getHours()`: the local hour of a time value. */
  function HourOf(t: int, tz: int): (h: int)
    ensures 0 <= h < 24
  {
    ((t + tz) % DAY) / HOUR
  }

  /** The hour bucket a segment of the overview adds its duration to. */
  function MidHour(seg: TimeSegment, now: int, tz: int): (h: int)
    ensures 0 <= h < 24
  {
    HourOf(Midpoint(seg.start, seg.EndOr(now) - seg.start), tz)
  }

  /** Every segment of every session, sessions in order and segments in stored order. */
  function AllSegments(sessions: seq<Session>): seq<TimeSegment>
    decreases |sessions|
  {
    if |sessions| == 0 then []
    else AllSegments(sessions[..|sessions| - 1]) + sessions[|sessions| - 1].segments
  }

  /** hourlyActivity[h]: the durations of the live segments whose midpoint falls in local hour `h`. */
  function Bucket(segs: seq<TimeSegment>, h: int, now: int, tz: int): int
    decreases |segs|
  {
    if |segs| == 0 then 0
    else
      var seg := segs[|segs| - 1];
      Bucket(segs[..|segs| - 1], h, now, tz)
        + (if !seg.IsDeleted() && MidHour(seg, now, tz) == h then seg.EndOr(now) - seg.start else 0)
  }

  /** The 24 hour buckets. */
  function Buckets(segs: seq<TimeSegment>, now: int, tz: int): (b: seq<int>)
    ensures |b| == 24
    ensures forall h :: 0 <= h < 24 ==> b[h] == Bucket(segs, h, now, tz)
  {
    seq(24, h => Bucket(segs, h, now, tz))
  }

  /** firstStartTime: the earliest start of a live segment, or MAX_SAFE_INTEGER when there is none. */
  function FirstStart(segs: seq<TimeSegment>): (r: int)
    ensures r <= MAX_SAFE
    ensures forall i :: 0 <= i < |segs| && !segs[i].IsDeleted() ==> r <= segs[i].start
    ensures r == MAX_SAFE || exists i :: 0 <= i < |segs| && !segs[i].IsDeleted() && r == segs[i].start
    decreases |segs|
  {
    if |segs| == 0 then MAX_SAFE
    else
      var seg := segs[|segs| - 1];
      var m := FirstStart(segs[..|segs| - 1]);
      if !seg.IsDeleted() && seg.start < m then seg.start else m
  }

  /** lastEndTime: the latest end (or `now`) of a live segment, and 0 when there is none later. */
  function LastEnd(segs: seq<TimeSegment>, now: int): (r: int)
    ensures r >= 0
    ensures forall i :: 0 <= i < |segs| && !segs[i].IsDeleted() ==> segs[i].EndOr(now) <= r
    ensures r == 0 || exists i :: 0 <= i < |segs| && !segs[i].IsDeleted() && r == segs[i].EndOr(now)
    decreases |segs|
  {
    if |segs| == 0 then 0
    else
      var seg := segs[|segs| - 1];
      var m := LastEnd(segs[..|segs| - 1], now);
      if !seg.IsDeleted() && seg.EndOr(now) > m then seg.EndOr(now) else m
  }

  /** A session's work in the overview: its segments outside the segment trash. */
  function SessionDuration(s: Session, now: int): int
  {
    TotalDuration(s.segments, now)
  }

  /** totalDuration: the sum of the sessions' work, a session counting only when positive. */
  function PositiveTotal(sessions: seq<Session>, now: int): (r: int)
    ensures r >= 0
    decreases |sessions|
  {
    if |sessions| == 0 then 0
    else
      var d := SessionDuration(sessions[|sessions| - 1], now);
      PositiveTotal(sessions[..|sessions| - 1], now) + (if d > 0 then d else 0)
  }

  /** Session `i` is the first one whose work is `r.0`, and `r.1` is its name. */
  predicate IsLongestAt(sessions: seq<Session>, i: int, r: (int, string), now: int)
  {
    0 <= i < |sessions| && r.0 == SessionDuration(sessions[i], now) && r.1 == sessions[i].name
    && forall k :: 0 <= k < i ==> SessionDuration(sessions[k], now) < r.0
  }

  /**
   * (maxDuration, longestSessionName): the longest session's work and the
   * name of the first session that reaches it, or (0, "-") when no session
   * has positive work.
   */
  function LongestOf(sessions: seq<Session>, now: int): (r: (int, string))
    ensures r.0 >= 0
    ensures forall i :: 0 <= i < |sessions| ==> SessionDuration(sessions[i], now) <= r.0
    ensures r.0 == 0 ==> r.1 == "-"
    ensures r.0 > 0 ==> exists i :: IsLongestAt(sessions, i, r, now)
    decreases |sessions|
  {
    if |sessions| == 0 then (0, "-")
    else
      var p := sessions[..|sessions| - 1];
      var s := sessions[|sessions| - 1];
      var m := LongestOf(p, now);
      var d := SessionDuration(s, now);
      assert forall i :: 0 <= i < |p| ==> p[i] == sessions[i];
      if d > 0 && d > m.0 then
        assert IsLongestAt(sessions, |sessions| - 1, (d, s.name), now);
        (d, s.name)
      else
        assert p + [s] == sessions;
        LongestPrefix(p, s, m, now);
        m
  }

  /** A first longest session of a prefix is still one of the whole list when no later session is longer. */
  lemma LongestPrefix(p: seq<Session>, s: Session, r: (int, string), now: int)
    ensures (exists i :: IsLongestAt(p, i, r, now)) ==> exists i :: IsLongestAt(p + [s], i, r, now)
  {
    if exists i :: IsLongestAt(p, i, r, now) {
      var i :| IsLongestAt(p, i, r, now);
      assert forall k :: 0 <= k < |p| ==> p[k] == (p + [s])[k];
      assert IsLongestAt(p + [s], i, r, now);
    }
  }

  /**
   * Prime time: the first hour whose bucket is strictly the largest, when
   * some bucket is positive; hour 0 when none is.
   */
  predicate IsPrimeHour(b: seq<int>, h: int)
  {
    0 <= h < |b|
    && (((forall k :: 0 <= k < |b| ==> b[k] <= 0) && h == 0)
        || (b[h] > 0 && (forall k :: 0 <= k < |b| ==> b[k] <= b[h]) && (forall k :: 0 <= k < h ==> b[k] < b[h])))
  }

  /** The prime hour of a bucket list is unique. */
  lemma PrimeHourUnique(b: seq<int>, h1: int, h2: int)
    requires IsPrimeHour(b, h1) && IsPrimeHour(b, h2)
    ensures h1 == h2
  {
  }

  /** The scan for the prime hour: keeps the first index of a strictly larger activity. */
  method PrimeHour(hourlyActivity: array<int>) returns (maxHourIndex: int)
    requires hourlyActivity.Length == 24
    ensures IsPrimeHour(hourlyActivity[..], maxHourIndex)
  {
    maxHourIndex := 0;
    var maxActivity := 0;
    for idx := 0 to hourlyActivity.Length
      invariant 0 <= maxHourIndex < 24 && maxActivity >= 0
      invariant forall k :: 0 <= k < idx ==> hourlyActivity[k] <= maxActivity
      invariant forall k :: 0 <= k < maxHourIndex ==> hourlyActivity[k] < maxActivity
      invariant maxActivity == 0 ==> maxHourIndex == 0
      invariant maxActivity > 0 ==> maxHourIndex < idx && hourlyActivity[maxHourIndex] == maxActivity
    {
      var activity := hourlyActivity[idx];
      if activity > maxActivity {
        maxActivity := activity;
        maxHourIndex := idx;
      }
    }
  }

  /** `${h}:00 - ${h + 1}:00`. */
  function PrimeTimeLabel(h: nat): string
  {
    NatToString(h) + ":00 - " + NatToString(h + 1) + ":00"
  }

  /** What the overview shows; `timeRange` is None where it shows "-". */
  datatype Stats = Stats(
    totalDuration: int,
    primeHour: int,
    primeTimeLabel: string,
    avgSessionDuration: real,
    longestSessionName: string,
    maxDuration: int,
    timeRange: Option<(int, int)>)

  /**
   * DailyOverview: nothing for an empty list; otherwise the positive work
   * total and its average over all sessions, the longest session, the prime
   * hour over the hour buckets, and the first-start / last-end range when
   * some live segment exists.
   */
  method DailyOverview(sessions: seq<Session>, now: int, tz: int) returns (r: Option<Stats>)
    ensures r.None? <==> |sessions| == 0
    ensures r.Some? ==> r.value.totalDuration == PositiveTotal(sessions, now)
    ensures r.Some? ==> r.value.avgSessionDuration == PositiveTotal(sessions, now) as real / |sessions| as real
    ensures r.Some? ==> (r.value.maxDuration, r.value.longestSessionName) == LongestOf(sessions, now)
    ensures r.Some? ==> IsPrimeHour(Buckets(AllSegments(sessions), now, tz), r.value.primeHour)
    ensures r.Some? ==> r.value.primeTimeLabel == PrimeTimeLabel(r.value.primeHour)
    ensures r.Some? ==>
      var all := AllSegments(sessions);
      r.value.timeRange == if FirstStart(all) != MAX_SAFE then Some((FirstStart(all), LastEnd(all, now))) else None
  {
    if |sessions| == 0 {
      return None;
    }
    var totalDuration := 0;
    var maxDuration := 0;
    var longestSessionName := "-";
    var firstStartTime := MAX_SAFE;
    var lastEndTime := 0;
    var hourlyActivity := new int[24](_ => 0);
    ghost var done: seq<TimeSegment> := [];
    for i := 0 to |sessions|
      invariant totalDuration == PositiveTotal(sessions[..i], now)
      invariant (maxDuration, longestSessionName) == LongestOf(sessions[..i], now)
      invariant done == AllSegments(sessions[..i])
      invariant firstStartTime == FirstStart(done) && lastEndTime == LastEnd(done, now)
      invariant forall h :: 0 <= h < 24 ==> hourlyActivity[h] == Bucket(done, h, now, tz)
    {
      var s := sessions[i];
      var sessionDuration;
      sessionDuration, firstStartTime, lastEndTime :=
        AddSegments(s.segments, now, tz, hourlyActivity, firstStartTime, lastEndTime, done);
      SessionsStep(sessions, i, now);
      done := done + s.segments;
      if sessionDuration > 0 {
        totalDuration := totalDuration + sessionDuration;
        if sessionDuration > maxDuration {
          maxDuration := sessionDuration;
          longestSessionName := s.name;
        }
      }
    }
    assert sessions[..|sessions|] == sessions;
    var all := AllSegments(sessions);
    assert hourlyActivity[..] == Buckets(all, now, tz);
    var maxHourIndex := PrimeHour(hourlyActivity);
    var avgSessionDuration := totalDuration as real / |sessions| as real;
    var timeRange := if firstStartTime != MAX_SAFE then Some((firstStartTime, lastEndTime)) else None;
    r := Some(Stats(totalDuration, maxHourIndex, PrimeTimeLabel(maxHourIndex), avgSessionDuration,
                    longestSessionName, maxDuration, timeRange));
  }

  /** One more session adds its segments, its positive work and possibly a new longest session. */
  lemma SessionsStep(sessions: seq<Session>, i: nat, now: int)
    requires i < |sessions|
    ensures AllSegments(sessions[..i + 1]) == AllSegments(sessions[..i]) + sessions[i].segments
    ensures var d := SessionDuration(sessions[i], now);
      PositiveTotal(sessions[..i + 1], now) == PositiveTotal(sessions[..i], now) + (if d > 0 then d else 0)
    ensures var m := LongestOf(sessions[..i], now);
      var d := SessionDuration(sessions[i], now);
      LongestOf(sessions[..i + 1], now) == if d > 0 && d > m.0 then (d, sessions[i].name) else m
  {
    assert sessions[..i + 1][..i] == sessions[..i];
  }

  /**
   * The per-segment callback of the overview over one session: skips
   * trashed segments, adds each live segment's duration to the session's
   * work and to its midpoint hour's bucket, and moves the first start and
   * last end.
   */
  method AddSegments(segs: seq<TimeSegment>, now: int, tz: int, hourlyActivity: array<int>,
                     firstIn: int, lastIn: int, ghost before: seq<TimeSegment>)
    returns (sessionDuration: int, firstStartTime: int, lastEndTime: int)
    requires hourlyActivity.Length == 24
    requires firstIn == FirstStart(before) && lastIn == LastEnd(before, now)
    requires forall h :: 0 <= h < 24 ==> hourlyActivity[h] == Bucket(before, h, now, tz)
    modifies hourlyActivity
    ensures sessionDuration == TotalDuration(segs, now)
    ensures firstStartTime == FirstStart(before + segs) && lastEndTime == LastEnd(before + segs, now)
    ensures forall h :: 0 <= h < 24 ==> hourlyActivity[h] == Bucket(before + segs, h, now, tz)
  {
    sessionDuration, firstStartTime, lastEndTime := 0, firstIn, lastIn;
    ghost var done := before;
    assert before + segs[..0] == before;
    for j := 0 to |segs|
      invariant done == before + segs[..j]
      invariant sessionDuration == TotalDuration(segs[..j], now)
      invariant firstStartTime == FirstStart(done) && lastEndTime == LastEnd(done, now)
      invariant forall h :: 0 <= h < 24 ==> hourlyActivity[h] == Bucket(done, h, now, tz)
    {
      var seg := segs[j];
      PrefixStep(before, segs, j);
      TotalDurationAppend(segs[..j], [seg], now);
      sessionDuration, firstStartTime, lastEndTime :=
        AddSegment(seg, now, tz, hourlyActivity, sessionDuration, firstStartTime, lastEndTime, done);
      done := done + [seg];
    }
    assert segs[..|segs|] == segs;
  }

  /** One more element of `segs` extends both the prefix and its concatenation by that element. */
  lemma PrefixStep(before: seq<TimeSegment>, segs: seq<TimeSegment>, j: nat)
    requires j < |segs|
    ensures segs[..j + 1] == segs[..j] + [segs[j]]
    ensures before + segs[..j + 1] == (before + segs[..j]) + [segs[j]]
  {
    assert segs[..j + 1] == segs[..j] + [segs[j]];
  }

  /** The callback for one segment: a trashed one changes nothing. */
  method AddSegment(seg: TimeSegment, now: int, tz: int, hourlyActivity: array<int>,
                    durationIn: int, firstIn: int, lastIn: int, ghost prev: seq<TimeSegment>)
    returns (sessionDuration: int, firstStartTime: int, lastEndTime: int)
    requires hourlyActivity.Length == 24
    requires firstIn == FirstStart(prev) && lastIn == LastEnd(prev, now)
    requires forall h :: 0 <= h < 24 ==> hourlyActivity[h] == Bucket(prev, h, now, tz)
    modifies hourlyActivity
    ensures sessionDuration == durationIn + LiveDuration(seg, now)
    ensures firstStartTime == FirstStart(prev + [seg]) && lastEndTime == LastEnd(prev + [seg], now)
    ensures forall h :: 0 <= h < 24 ==> hourlyActivity[h] == Bucket(prev + [seg], h, now, tz)
  {
    FirstStartSnoc(prev, seg);
    LastEndSnoc(prev, seg, now);
    BucketSnoc(prev, seg, now, tz);
    sessionDuration, firstStartTime, lastEndTime := durationIn, firstIn, lastIn;
    if !seg.IsDeleted() {
      var end := seg.EndOr(now);
      var duration := end - seg.start;
      sessionDuration := sessionDuration + duration;
      var hour := MidHour(seg, now, tz);
      ghost var a0 := hourlyActivity[..];
      hourlyActivity[hour] := hourlyActivity[hour] + duration;
      forall h | 0 <= h < 24
        ensures hourlyActivity[h] == Bucket(prev + [seg], h, now, tz)
      {
        if h != hour {
          assert hourlyActivity[h] == a0[h];
        }
      }
      if seg.start < firstStartTime {
        firstStartTime := seg.start;
      }
      if end > lastEndTime {
        lastEndTime := end;
      }
    }
  }

  lemma FirstStartSnoc(a: seq<TimeSegment>, seg: TimeSegment)
    ensures FirstStart(a + [seg]) == if !seg.IsDeleted() && seg.start < FirstStart(a) then seg.start else FirstStart(a)
  {
    assert (a + [seg])[..|a|] == a;
  }

  lemma LastEndSnoc(a: seq<TimeSegment>, seg: TimeSegment, now: int)
    ensures LastEnd(a + [seg], now)
      == if !seg.IsDeleted() && seg.EndOr(now) > LastEnd(a, now) then seg.EndOr(now) else LastEnd(a, now)
  {
    assert (a + [seg])[..|a|] == a;
  }

  lemma BucketSnoc(a: seq<TimeSegment>, seg: TimeSegment, now: int, tz: int)
    ensures forall h :: (Bucket(a + [seg], h, now, tz)
      == Bucket(a, h, now, tz) + (if !seg.IsDeleted() && MidHour(seg, now, tz) == h then seg.EndOr(now) - seg.start else 0))
  {
    assert (a + [seg])[..|a|] == a;
  }

  // --- what the buckets and the totals mean ------------------------------------

  /** Σ of the buckets of hours 0..k-1. */
  function HourSum(segs: seq<TimeSegment>, k: nat, now: int, tz: int): int
    decreases k
  {
    if k == 0 then 0 else HourSum(segs, k - 1, now, tz) + Bucket(segs, k - 1, now, tz)
  }

  /** Appending a segment adds its duration to exactly the bucket of its midpoint hour. */
  lemma {:induction false} HourSumSnoc(segs: seq<TimeSegment>, seg: TimeSegment, k: nat, now: int, tz: int)
    ensures HourSum(segs + [seg], k, now, tz)
      == HourSum(segs, k, now, tz)
         + (if !seg.IsDeleted() && MidHour(seg, now, tz) < k then seg.EndOr(now) - seg.start else 0)
    decreases k
  {
    if k > 0 {
      HourSumSnoc(segs, seg, k - 1, now, tz);
      assert (segs + [seg])[..|segs|] == segs;
    }
  }

  /** Without segments every bucket is empty. */
  lemma {:induction false} HourSumEmpty(segs: seq<TimeSegment>, k: nat, now: int, tz: int)
    requires |segs| == 0
    ensures HourSum(segs, k, now, tz) == 0
    decreases k
  {
    if k > 0 {
      HourSumEmpty(segs, k - 1, now, tz);
    }
  }

  /** The 24 buckets together hold exactly the live work of the segments. */
  lemma {:induction false} BucketsPartitionWork(segs: seq<TimeSegment>, now: int, tz: int)
    ensures HourSum(segs, 24, now, tz) == TotalDuration(segs, now)
    decreases |segs|
  {
    if |segs| > 0 {
      var p := segs[..|segs| - 1];
      var last := segs[|segs| - 1];
      BucketsPartitionWork(p, now, tz);
      assert p + [last] == segs;
      HourSumSnoc(p, last, 24, now, tz);
      assert MidHour(last, now, tz) < 24;
      assert TotalDuration(segs, now) == TotalDuration(p, now) + LiveDuration(last, now);
    } else {
      HourSumEmpty(segs, 24, now, tz);
    }
  }

  /** The live work of all segments is the sum of the sessions' work. */
  lemma {:induction false} AllSegmentsWork(sessions: seq<Session>, now: int)
    requires forall i :: 0 <= i < |sessions| ==> SessionDuration(sessions[i], now) >= 0
    ensures TotalDuration(AllSegments(sessions), now) == PositiveTotal(sessions, now)
    decreases |sessions|
  {
    if |sessions| > 0 {
      var p := sessions[..|sessions| - 1];
      var s := sessions[|sessions| - 1];
      assert forall i :: 0 <= i < |p| ==> p[i] == sessions[i];
      AllSegmentsWork(p, now);
      TotalDurationAppend(AllSegments(p), s.segments, now);
    }
  }

  /**
   * When no session runs backwards, the prime-time buckets split the day's
   * work total among the 24 hours without loss or double counting.
   */
  lemma BucketsSumToTotal(sessions: seq<Session>, now: int, tz: int)
    requires forall i :: 0 <= i < |sessions| ==> SessionDuration(sessions[i], now) >= 0
    ensures HourSum(AllSegments(sessions), 24, now, tz) == PositiveTotal(sessions, now)
  {
    BucketsPartitionWork(AllSegments(sessions), now, tz);
    AllSegmentsWork(sessions, now);
  }

  /** The longest session lies between the average and the total: max <= total <= n * max. */
  lemma {:induction false} LongestBoundsTotal(sessions: seq<Session>, now: int)
    ensures LongestOf(sessions, now).0 <= PositiveTotal(sessions, now) <= |sessions| * LongestOf(sessions, now).0
    decreases |sessions|
  {
    if |sessions| > 0 {
      var p := sessions[..|sessions| - 1];
      LongestBoundsTotal(p, now);
      var n := |sessions| - 1;
      var m := LongestOf(p, now).0;
      var m2 := LongestOf(sessions, now).0;
      var d := SessionDuration(sessions[n], now);
      assert PositiveTotal(sessions, now) == PositiveTotal(p, now) + (if d > 0 then d else 0);
      assert m <= m2 && d <= m2;
      assert m2 == m || m2 == d;
      TotalStep(n, PositiveTotal(p, now), m, m2, d);
    }
  }

  lemma TotalStep(n: nat, tp: int, m: int, m2: int, d: int)
    requires 0 <= m <= m2 && d <= m2 && tp <= n * m
    ensures tp + (if d > 0 then d else 0) <= (n + 1) * m2
  {
    assert n * m <= n * m2;
  }

  /** The range is shown exactly when some live segment exists (for starts below MAX_SAFE_INTEGER). */
  lemma RangeShownIffLiveSegment(segs: seq<TimeSegment>)
    requires forall i :: 0 <= i < |segs| ==> segs[i].start < MAX_SAFE
    ensures FirstStart(segs) != MAX_SAFE <==> exists i :: 0 <= i < |segs| && !segs[i].IsDeleted()
  {
  }
}
