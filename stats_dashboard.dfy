// The statistics dashboard: the range of days it covers, the day-by-day
// loop that fills the chart and the summary, the chart's scale, the
// two-click custom range picker and today's card.
module StatsDashboard {
  import opened Types
  import opened Text
  import opened Metrics
  import opened Focus
  import opened Calendar

  // --- the range ----------------------------------------------------------------

  datatype RangeMode = All | Week | Month | Custom | Yesterday

  /**
   * `new Date("YYYY-MM-DD").getTime()` as written: a date-only string is
   * read as midnight UTC of that date, whatever the local offset.
   */
  function ParseDateUtc(day: int): int
  {
    day * DAY
  }

  /** A date string read as local midnight of that date, as the range is meant. */
  function ParseDateLocal(day: int, tz: int): int
  {
    DayStart(day, tz)
  }

  /** `d.setHours(23, 59, 59, 999)`: the last millisecond of the local day holding `t`. */
  function EndOfLocalDay(t: int, tz: int): int
  {
    DayStart(LocalDay(t, tz), tz) + DAY - 1
  }

  /**
   * The (startTime, endTime) of the loop for a custom range, as written:
   * the chosen days (`None` for an empty string) are read through
   * ParseDateUtc; a missing end or start is `now`.
   */
  function CustomBoundsAsWritten(customStart: Option<int>, customEnd: Option<int>, now: int, tz: int): (int, int)
  {
    (if customStart.Some? then ParseDateUtc(customStart.value) else now,
     if customEnd.Some? then EndOfLocalDay(ParseDateUtc(customEnd.value), tz) else now)
  }

  /** The custom range with the chosen days read as local dates. */
  function CustomBounds(customStart: Option<int>, customEnd: Option<int>, now: int, tz: int): (int, int)
  {
    (if customStart.Some? then ParseDateLocal(customStart.value, tz) else now,
     if customEnd.Some? then EndOfLocalDay(ParseDateLocal(customEnd.value, tz), tz) else now)
  }

  /**
   * The (startTime, endTime) of each range: yesterday's whole local day;
   * the last 7 or 30 local days up to now; from the oldest session (the
   * last one of the unfiltered history) up to now; or the custom range.
   */
  function RangeBounds(mode: RangeMode, sessions: seq<Session>, customStart: Option<int>, customEnd: Option<int>,
                       now: int, tz: int): (r: (int, int))
    ensures mode == Yesterday ==> r.1 - r.0 == DAY - 1 && LocalDay(r.0, tz) == LocalDay(r.1, tz) == LocalDay(now, tz) - 1
    ensures mode == Week ==> LocalDay(r.0, tz) == LocalDay(now, tz) - 6 && r.1 == now
    ensures mode == Month ==> LocalDay(r.0, tz) == LocalDay(now, tz) - 29 && r.1 == now
    ensures mode == All ==> r.1 == now && r.0 == (if |sessions| > 0 then sessions[|sessions| - 1].createdAt else now)
    ensures mode == Custom ==> (customStart.None? ==> r.0 == now) && (customEnd.None? ==> r.1 == now)
    ensures mode == Custom && customStart.Some? ==> LocalDay(r.0, tz) == customStart.value && r.0 == DayStart(customStart.value, tz)
    ensures mode == Custom && customEnd.Some? ==> LocalDay(r.1, tz) == customEnd.value && r.1 == DayStart(customEnd.value, tz) + DAY - 1
  {
    var today := LocalDay(now, tz);
    CustomBoundsDays(customStart, customEnd, now, tz);
    match mode
    case Yesterday => (DayStart(today - 1, tz), DayStart(today - 1, tz) + DAY - 1)
    case Week => (DayStart(today - 6, tz), now)
    case Month => (DayStart(today - 29, tz), now)
    case All => (if |sessions| > 0 then sessions[|sessions| - 1].createdAt else now, now)
    case Custom => CustomBounds(customStart, customEnd, now, tz)
  }

  /** Each chosen day of a custom range is read as its own local day, a missing one as now. */
  lemma CustomBoundsDays(customStart: Option<int>, customEnd: Option<int>, now: int, tz: int)
    ensures var b := CustomBounds(customStart, customEnd, now, tz);
      (customStart.None? ==> b.0 == now) && (customEnd.None? ==> b.1 == now)
      && (customStart.Some? ==> LocalDay(b.0, tz) == customStart.value && b.0 == DayStart(customStart.value, tz))
      && (customEnd.Some? ==> LocalDay(b.1, tz) == customEnd.value && b.1 == DayStart(customEnd.value, tz) + DAY - 1)
  {
    if customStart.Some? {
      LocalDayOfDayStart(customStart.value, tz);
    }
    if customEnd.Some? {
      LocalDayOfDayStart(customEnd.value, tz);
    }
  }

  /** The local day of a local midnight is that day. */
  lemma LocalDayOfDayStart(d: int, tz: int)
    ensures LocalDay(DayStart(d, tz), tz) == d
  {
    assert DayStart(d, tz) + tz == d * DAY;
  }

  /** Read as local dates, a custom range runs from the first chosen day to the last one. */
  lemma CustomRangeCoversChosenDays(startDay: int, endDay: int, now: int, tz: int)
    ensures var b := CustomBounds(Some(startDay), Some(endDay), now, tz);
      LocalDay(b.0, tz) == startDay && LocalDay(b.1, tz) == endDay && b.1 == DayStart(endDay, tz) + DAY - 1
  {
    LocalDayOfDayStart(startDay, tz);
    LocalDayOfDayStart(endDay, tz);
  }

  /** East of UTC (and at UTC) the code as written already gives those days. */
  lemma AsWrittenAgreesEastOfUtc(startDay: int, endDay: int, now: int, tz: int)
    requires 0 <= tz < DAY
    ensures LocalDay(CustomBoundsAsWritten(Some(startDay), Some(endDay), now, tz).0, tz) == startDay
    ensures CustomBoundsAsWritten(Some(startDay), Some(endDay), now, tz).1
      == CustomBounds(Some(startDay), Some(endDay), now, tz).1
  {
    assert LocalDay(startDay * DAY, tz) == startDay;
    assert LocalDay(endDay * DAY, tz) == endDay;
    LocalDayOfDayStart(endDay, tz);
  }

  /**
   * West of UTC (here UTC-5) the code as written moves the whole custom
   * range back by a day: picking 2024-10-04 .. 2024-10-06 (days 20000 ..
   * 20002) charts 2024-10-03 .. 2024-10-05.
   */
  lemma AsWrittenShiftsWestOfUtc()
    ensures var tz := -5 * HOUR;
      var b := CustomBoundsAsWritten(Some(20000), Some(20002), 0, tz);
      LocalDay(b.0, tz) == 19999 && LocalDay(b.1, tz) == 20001
  {
    var tz := -5 * HOUR;
    assert LocalDay(20000 * DAY, tz) == 19999;
    assert LocalDay(20002 * DAY, tz) == 20001;
    LocalDayOfDayStart(20001, tz);
  }

  // --- one day of the chart -------------------------------------------------------

  /** A chart row: the day's work, break, their sum, its sessions, pauses and score. */
  datatype ChartRow = ChartRow(work: int, breakTime: int, total: int, taskCount: nat, breakCount: nat, focusIndex: int)

  function ChartRowOf(d: DayRow): (c: ChartRow)
    ensures c.total == c.work + c.breakTime
  {
    ChartRow(d.work, d.breakTime, d.work + d.breakTime, d.taskCount, d.breakCount, d.focusIndex)
  }

  function ChartRows(days: seq<DayRow>): (r: seq<ChartRow>)
    ensures |r| == |days|
    decreases |days|
  {
    if |days| == 0 then [] else ChartRows(days[..|days| - 1]) + [ChartRowOf(days[|days| - 1])]
  }

  /** Every chart row shows work plus break as its total. */
  lemma {:induction false} ChartRowsBalance(days: seq<DayRow>)
    ensures forall i :: 0 <= i < |days| ==> ChartRows(days)[i] == ChartRowOf(days[i])
    ensures forall i :: 0 <= i < |days| ==> ChartRows(days)[i].total == days[i].work + days[i].breakTime
    decreases |days|
  {
    if |days| > 0 {
      var p := days[..|days| - 1];
      ChartRowsBalance(p);
      assert forall i :: 0 <= i < |p| ==> p[i] == days[i];
    }
  }

  /** Day `k` (from 1) of the loop: the row of the (k-1)-th local day after `firstDay`. */
  function DashDay(filtered: seq<Session>, firstDay: int, now: int, tz: int): int -> DayRow
  {
    k => DaySpec(filtered, DayStart(firstDay + k - 1, tz), now, tz)
  }

  /** The first `n` days of the loop. */
  function DashRows(filtered: seq<Session>, firstDay: int, n: nat, now: int, tz: int): seq<DayRow>
  {
    Rows(DashDay(filtered, firstDay, now, tz), n)
  }

  /** One more day row is the row of the next local day. */
  lemma DashRowsSnoc(filtered: seq<Session>, firstDay: int, n: nat, now: int, tz: int, day: DayRow)
    requires day == DaySpec(filtered, DayStart(firstDay + n, tz), now, tz)
    ensures DashRows(filtered, firstDay, n + 1, now, tz) == DashRows(filtered, firstDay, n, now, tz) + [day]
  {
    RowsSnoc(DashDay(filtered, firstDay, now, tz), n, day);
  }

  // --- the accumulators -------------------------------------------------------------

  /** The six accumulators of the loop. */
  datatype DashTally = DashTally(totalWork: int, totalBreak: int, focusSum: int, activeDays: nat, tasks: nat, breakCount: nat)

  /**
   * One day: a day with work adds to the active-day count, work, focus sum,
   * sessions and pauses; break time is added on every day.
   */
  function AddDashDay(t: DashTally, d: DayRow): DashTally
  {
    if d.work > 0 then
      DashTally(t.totalWork + d.work, t.totalBreak + d.breakTime, t.focusSum + d.focusIndex,
                t.activeDays + 1, t.tasks + d.taskCount, t.breakCount + d.breakCount)
    else
      DashTally(t.totalWork, t.totalBreak + d.breakTime, t.focusSum, t.activeDays, t.tasks, t.breakCount)
  }

  function DashTallyOf(days: seq<DayRow>): DashTally
    decreases |days|
  {
    if |days| == 0 then DashTally(0, 0, 0, 0, 0, 0)
    else AddDashDay(DashTallyOf(days[..|days| - 1]), days[|days| - 1])
  }

  /** `activeWorkDays || 1`. */
  function Divisor(t: DashTally): (n: int)
    ensures n >= 1
  {
    if t.activeDays > 0 then t.activeDays else 1
  }

  datatype Summary = Summary(total: int, count: nat, breakTime: int, breakCount: nat, avgFocus: int)

  datatype Averages = Averages(work: real, breakTime: real, count: real, breakCount: real, focus: real)

  function SummaryOf(t: DashTally): Summary
  {
    Summary(t.totalWork, t.tasks, t.totalBreak, t.breakCount, Round(t.focusSum as real / Divisor(t) as real))
  }

  function AveragesOf(t: DashTally): Averages
  {
    var n := Divisor(t) as real;
    Averages(t.totalWork as real / n, t.totalBreak as real / n, t.tasks as real / n, t.breakCount as real / n,
             t.focusSum as real / n)
  }

  // --- the day loop -------------------------------------------------------------------

  /**
   * The aggregation loop: from local midnight of the start's day, one row
   * per local day whose midnight is not after `endTime` (the last row's
   * midnight is not, the next one's is), at most 365 rows;
   * the summary and the averages over those days.
   */
  method Aggregate(filtered: seq<Session>, startTime: int, endTime: int, now: int, tz: int)
    returns (chartData: seq<ChartRow>, summary: Summary, averages: Averages)
    ensures |chartData| <= 365
    ensures |chartData| > 0 ==> DayStart(LocalDay(startTime, tz) + |chartData| - 1, tz) <= endTime
    ensures |chartData| < 365 ==> DayStart(LocalDay(startTime, tz) + |chartData|, tz) > endTime
    ensures var days := DashRows(filtered, LocalDay(startTime, tz), |chartData|, now, tz);
      chartData == ChartRows(days) && summary == SummaryOf(DashTallyOf(days)) && averages == AveragesOf(DashTallyOf(days))
  {
    var firstDay := LocalDay(startTime, tz);
    var currentDate := DayStart(firstDay, tz);
    var lastDate := endTime;
    var totalWorkTime, totalBreakTime, totalFocusSum := 0, 0, 0;
    var activeWorkDays: nat, totalTasks: nat, totalBreakCount: nat := 0, 0, 0;
    chartData := [];
    ghost var days: seq<DayRow> := [];
    var safety := 0;
    while currentDate <= lastDate && safety < 365
      invariant 0 <= safety <= 365 && |chartData| == safety
      invariant currentDate == DayStart(firstDay + safety, tz)
      invariant safety > 0 ==> DayStart(firstDay + safety - 1, tz) <= endTime
      invariant days == DashRows(filtered, firstDay, safety, now, tz)
      invariant chartData == ChartRows(days)
      invariant DashTally(totalWorkTime, totalBreakTime, totalFocusSum, activeWorkDays, totalTasks, totalBreakCount)
        == DashTallyOf(days)
      decreases 365 - safety
    {
      var day;
      ghost var next;
      day, next := DashDayRow(filtered, firstDay, safety, currentDate, now, tz, days);
      totalWorkTime, totalBreakTime, totalFocusSum, activeWorkDays, totalTasks, totalBreakCount, chartData :=
        AddChartDay(day, totalWorkTime, totalBreakTime, totalFocusSum, activeWorkDays, totalTasks, totalBreakCount,
                    chartData, days);
      days := next;
      currentDate := currentDate + DAY;
      safety := safety + 1;
    }
    summary, averages := Totals(totalWorkTime, totalBreakTime, totalFocusSum, activeWorkDays, totalTasks, totalBreakCount);
  }

  /** The row of local day `firstDay + n`, whose midnight is `currentDate`: the next row of the loop. */
  method DashDayRow(filtered: seq<Session>, firstDay: int, n: nat, currentDate: int, now: int, tz: int,
                    ghost days: seq<DayRow>)
    returns (day: DayRow, ghost daysOut: seq<DayRow>)
    requires currentDate == DayStart(firstDay + n, tz) && days == DashRows(filtered, firstDay, n, now, tz)
    ensures daysOut == days + [day] && daysOut == DashRows(filtered, firstDay, n + 1, now, tz)
  {
    day := DayRowOf(filtered, currentDate, now, tz);
    DashRowsSnoc(filtered, firstDay, n, now, tz, day);
    daysOut := days + [day];
  }

  /** The loop body once the day's row is known: the active-day sums, the break sum and the pushed row. */
  method AddChartDay(day: DayRow, totalWorkTime: int, totalBreakTime: int, totalFocusSum: int,
                     activeWorkDays: nat, totalTasks: nat, totalBreakCount: nat,
                     chartData: seq<ChartRow>, ghost days: seq<DayRow>)
    returns (workOut: int, breakOut: int, focusOut: int, activeOut: nat, tasksOut: nat, breakCountOut: nat,
             chartOut: seq<ChartRow>)
    requires chartData == ChartRows(days)
    requires DashTally(totalWorkTime, totalBreakTime, totalFocusSum, activeWorkDays, totalTasks, totalBreakCount)
      == DashTallyOf(days)
    ensures chartOut == ChartRows(days + [day])
    ensures DashTally(workOut, breakOut, focusOut, activeOut, tasksOut, breakCountOut) == DashTallyOf(days + [day])
  {
    assert (days + [day])[..|days|] == days;
    workOut, breakOut, focusOut, activeOut, tasksOut, breakCountOut :=
      totalWorkTime, totalBreakTime, totalFocusSum, activeWorkDays, totalTasks, totalBreakCount;
    if day.work > 0 {
      activeOut := activeOut + 1;
      workOut := workOut + day.work;
      focusOut := focusOut + day.focusIndex;
      tasksOut := tasksOut + day.taskCount;
      breakCountOut := breakCountOut + day.breakCount;
    }
    breakOut := breakOut + day.breakTime;
    chartOut := chartData + [ChartRow(day.work, day.breakTime, day.work + day.breakTime, day.taskCount,
                                      day.breakCount, day.focusIndex)];
  }

  /** After the loop: the summary and the per-active-day averages (divided by 1 when no day had work). */
  method Totals(totalWorkTime: int, totalBreakTime: int, totalFocusSum: int,
                activeWorkDays: nat, totalTasks: nat, totalBreakCount: nat)
    returns (summary: Summary, averages: Averages)
    ensures var t := DashTally(totalWorkTime, totalBreakTime, totalFocusSum, activeWorkDays, totalTasks, totalBreakCount);
      summary == SummaryOf(t) && averages == AveragesOf(t)
  {
    var divisor := if activeWorkDays > 0 then activeWorkDays else 1;
    summary := Summary(totalWorkTime, totalTasks, totalBreakTime, totalBreakCount,
                       Round(totalFocusSum as real / divisor as real));
    averages := Averages(totalWorkTime as real / divisor as real, totalBreakTime as real / divisor as real,
                         totalTasks as real / divisor as real, totalBreakCount as real / divisor as real,
                         totalFocusSum as real / divisor as real);
  }

  // --- what the accumulators mean ------------------------------------------------------

  /**
   * With valid scores and no negative break time: at most one active day
   * per row, a focus sum of 0..100 per active day, no negative break time.
   */
  lemma {:induction false} DashTallyBounds(days: seq<DayRow>)
    requires WellFormedRows(days)
    ensures DashTallyOf(days).activeDays <= |days|
    ensures 0 <= DashTallyOf(days).focusSum <= 100 * DashTallyOf(days).activeDays
    ensures DashTallyOf(days).totalBreak >= 0
    decreases |days|
  {
    if |days| > 0 {
      var p := days[..|days| - 1];
      assert WellFormedRows(p) by {
        forall i | 0 <= i < |p| ensures 0 <= p[i].focusIndex <= 100 && p[i].breakTime >= 0 {
          assert p[i] == days[i];
        }
      }
      DashTallyBounds(p);
      assert 0 <= days[|days| - 1].focusIndex <= 100 && days[|days| - 1].breakTime >= 0;
    }
  }

  /** The summary's focus score is a valid index. */
  lemma AvgFocusInRange(days: seq<DayRow>)
    requires WellFormedRows(days)
    ensures 0 <= SummaryOf(DashTallyOf(days)).avgFocus <= 100
  {
    var t := DashTallyOf(days);
    DashTallyBounds(days);
    if t.activeDays > 0 {
      RoundedAverageBounds(t.focusSum, t.activeDays);
    } else {
      assert t.focusSum == 0;
    }
  }

  /** Every day of the dashboard's loop is well formed. */
  lemma DashDaysWellFormed(filtered: seq<Session>, firstDay: int, n: nat, now: int, tz: int)
    ensures WellFormedRows(DashRows(filtered, firstDay, n, now, tz))
  {
    var f := DashDay(filtered, firstDay, now, tz);
    forall k | 1 <= k <= n ensures 0 <= f(k).focusIndex <= 100 && f(k).breakTime >= 0 {
      DashDayMeaning(filtered, firstDay, k, now, tz);
    }
    RowsWellFormed(f, n);
  }

  /** The dashboard's average focus score is a valid index, whatever the range. */
  lemma DashboardFocusInRange(filtered: seq<Session>, firstDay: int, n: nat, now: int, tz: int)
    ensures 0 <= SummaryOf(DashTallyOf(DashRows(filtered, firstDay, n, now, tz))).avgFocus <= 100
  {
    DashDaysWellFormed(filtered, firstDay, n, now, tz);
    AvgFocusInRange(DashRows(filtered, firstDay, n, now, tz));
  }

  /** Day `k` of the loop: that local day's total, a valid score, no negative break time. */
  lemma DashDayMeaning(filtered: seq<Session>, firstDay: int, k: int, now: int, tz: int)
    ensures DashDay(filtered, firstDay, now, tz)(k).work == DailyTotal(filtered, DayStart(firstDay + k - 1, tz), now, tz)
    ensures 0 <= DashDay(filtered, firstDay, now, tz)(k).focusIndex <= 100
    ensures DashDay(filtered, firstDay, now, tz)(k).breakTime >= 0
  {
    DaySpecMeaning(filtered, DayStart(firstDay + k - 1, tz), now, tz);
  }

  /** Σ of the chart rows' totals. */
  function TotalsSum(rows: seq<ChartRow>): int
    decreases |rows|
  {
    if |rows| == 0 then 0 else TotalsSum(rows[..|rows| - 1]) + rows[|rows| - 1].total
  }

  /**
   * When no day's work is negative, the chart's totals add up to the
   * summary's work plus break time: a day without work adds only its break.
   */
  lemma {:induction false} ChartTotalsMatchSummary(days: seq<DayRow>)
    requires forall i :: 0 <= i < |days| ==> days[i].work >= 0
    ensures TotalsSum(ChartRows(days)) == DashTallyOf(days).totalWork + DashTallyOf(days).totalBreak
    decreases |days|
  {
    if |days| > 0 {
      var p := days[..|days| - 1];
      assert forall i :: 0 <= i < |p| ==> p[i] == days[i];
      ChartTotalsMatchSummary(p);
      assert ChartRows(days)[..|days| - 1] == ChartRows(p);
    }
  }

  /**
   * The dashboard and the calendar's monthly loop agree on the same days:
   * the same active days, focus sum and break time, and the same work when
   * no day's work is negative; the dashboard counts only the sessions of
   * active days.
   */
  lemma {:induction false} DashboardAgreesWithCalendar(days: seq<DayRow>)
    ensures DashTallyOf(days).activeDays == TallyOf(days).daysWithWork
    ensures DashTallyOf(days).focusSum == TallyOf(days).totalFocusSum
    ensures DashTallyOf(days).totalBreak == TallyOf(days).totalBreak
    ensures DashTallyOf(days).tasks <= TallyOf(days).totalCount
    ensures (forall i :: 0 <= i < |days| ==> days[i].work >= 0) ==> DashTallyOf(days).totalWork == TallyOf(days).totalTime
    decreases |days|
  {
    if |days| > 0 {
      var p := days[..|days| - 1];
      assert forall i :: 0 <= i < |p| ==> p[i] == days[i];
      DashboardAgreesWithCalendar(p);
    }
  }

  // --- the chart scale -----------------------------------------------------------------

  datatype ChartType = BalanceChart | WorkTimeChart | BreakTimeChart | WorkCountChart | BreakCountChart | FocusIndexChart

  /** The value a chart type plots for a row. */
  function ChartValue(row: ChartRow, chartType: ChartType): int
    requires chartType != FocusIndexChart
  {
    match chartType
    case BalanceChart => row.total
    case WorkTimeChart => row.work
    case BreakTimeChart => row.breakTime
    case WorkCountChart => row.taskCount
    case BreakCountChart => row.breakCount
  }

  /** `Math.max(...values, 1)`. */
  function MaxWithOne(rows: seq<ChartRow>, chartType: ChartType): (r: int)
    requires chartType != FocusIndexChart
    ensures r >= 1
    ensures forall i :: 0 <= i < |rows| ==> ChartValue(rows[i], chartType) <= r
    ensures r == 1 || exists i :: 0 <= i < |rows| && r == ChartValue(rows[i], chartType)
    decreases |rows|
  {
    if |rows| == 0 then 1
    else
      var m := MaxWithOne(rows[..|rows| - 1], chartType);
      var v := ChartValue(rows[|rows| - 1], chartType);
      assert forall i :: 0 <= i < |rows| - 1 ==> rows[..|rows| - 1][i] == rows[i];
      if v > m then v else m
  }

  /** maxChartValue: 1 without data, 100 for the focus chart, else the largest plotted value but at least 1. */
  function MaxChartValue(chartData: seq<ChartRow>, chartType: ChartType): (r: int)
    ensures r >= 1
    ensures |chartData| == 0 ==> r == 1
    ensures |chartData| > 0 && chartType == FocusIndexChart ==> r == 100
    ensures chartType != FocusIndexChart ==> forall i :: 0 <= i < |chartData| ==> ChartValue(chartData[i], chartType) <= r
    ensures chartType != FocusIndexChart ==>
      r == 1 || exists i :: 0 <= i < |chartData| && r == ChartValue(chartData[i], chartType)
  {
    if |chartData| == 0 then 1
    else if chartType == FocusIndexChart then 100
    else MaxWithOne(chartData, chartType)
  }

  /** Every bar fits under the scale: its height ratio is at most 1. */
  lemma BarsFitTheScale(chartData: seq<ChartRow>, chartType: ChartType, i: int)
    requires chartType != FocusIndexChart && 0 <= i < |chartData|
    ensures ChartValue(chartData[i], chartType) as real / MaxChartValue(chartData, chartType) as real <= 1.0
  {
    var v := ChartValue(chartData[i], chartType) as real;
    var m := MaxChartValue(chartData, chartType) as real;
    DivMono(v, m, m);
  }

  // --- the custom range picker ------------------------------------------------------------

  /** The custom range; an empty string is a date not chosen yet. */
  datatype CustomRange = CustomRange(start: string, end: string)

  /**
   * handleRangeSelect: with no start or a complete range, the click starts a
   * new range; a date before the start becomes the start and the old start
   * the end; otherwise the date becomes the end.
   */
  function RangeSelect(prev: CustomRange, dateStr: string): CustomRange
  {
    if prev.start == "" || prev.end != "" then CustomRange(dateStr, "")
    else if StrLess(dateStr, prev.start) then CustomRange(dateStr, prev.start)
    else prev.(end := dateStr)
  }

  /** After any click a chosen end is never before the start. */
  lemma RangeSelectOrdered(prev: CustomRange, dateStr: string)
    ensures var r := RangeSelect(prev, dateStr);
      r.end != "" ==> r.start == r.end || StrLess(r.start, r.end)
  {
    if prev.start != "" && prev.end == "" && !StrLess(dateStr, prev.start) {
      StrLessTotal(dateStr, prev.start);
    }
  }

  /** Two clicks from any complete or empty range select the two dates in order. */
  lemma TwoClicks(prev: CustomRange, a: string, b: string)
    requires prev.start == "" || prev.end != ""
    requires a != ""
    ensures RangeSelect(RangeSelect(prev, a), b)
      == if StrLess(b, a) then CustomRange(b, a) else CustomRange(a, b)
  {
  }

  // --- today's card -------------------------------------------------------------------------

  /**
   * todayMetrics: today's total over the filtered sessions, and the count,
   * break time, pauses and score of the sessions created on today's local date.
   */
  function TodayMetrics(filtered: seq<Session>, now: int, tz: int): DayRow
  {
    var workTime := DailyTotal(filtered, now, now, tz);
    var todaySessions := SessionsOn(filtered, now, tz);
    var breakTime := BreakTimeSpec(todaySessions, 60000, 0, now, tz);
    var breakCount := BreakCount(todaySessions);
    DayRow(workTime, breakTime, |todaySessions|, breakCount, FocusIndex(workTime, breakTime, breakCount))
  }

  /** Today's card shows the same numbers as the chart's row for today. */
  lemma TodayIsTodaysRow(filtered: seq<Session>, now: int, tz: int)
    ensures TodayMetrics(filtered, now, tz) == DaySpec(filtered, now, now, tz)
  {
    DayWorkIsDailyTotal(filtered, now, now, tz);
  }
}
