// The calendar view: the per-day rollup of the month grid, the monthly
// summary, the selected date's statistics and the daily overview (prime
// time, average and longest session, active range).
module Calendar {
  import opened Types
  import opened Metrics
  import opened Focus
  import opened Civil

  // --- one day ------------------------------------------------------------------

  /** `sessions.filter(s => isSameDay(s.createdAt, dayTs))`, in stored order. */
  function SessionsOn(sessions: seq<Session>, dayTs: int, tz: int): (r: seq<Session>)
    ensures |r| <= |sessions|
    ensures forall i :: 0 <= i < |r| ==> IsSameDay(r[i].createdAt, dayTs, tz)
    ensures forall x :: x in r <==> x in sessions && IsSameDay(x.createdAt, dayTs, tz)
    decreases |sessions|
  {
    if |sessions| == 0 then []
    else
      var p := sessions[..|sessions| - 1];
      var last := sessions[|sessions| - 1];
      var prev := SessionsOn(p, dayTs, tz);
      assert sessions == p + [last];
      if IsSameDay(last.createdAt, dayTs, tz) then prev + [last] else prev
  }

  /** The filter keeps the stored order: it distributes over concatenation. */
  lemma {:induction false} SessionsOnAppend(a: seq<Session>, b: seq<Session>, dayTs: int, tz: int)
    ensures SessionsOn(a + b, dayTs, tz) == SessionsOn(a, dayTs, tz) + SessionsOn(b, dayTs, tz)
    decreases |b|
  {
    if |b| == 0 {
      assert a + b == a;
    } else {
      assert (a + b)[..|a + b| - 1] == a + b[..|b| - 1];
      SessionsOnAppend(a, b[..|b| - 1], dayTs, tz);
    }
  }

  /** `daySessions.forEach(s => total += calculateDailyTotal([s], s.createdAt))`. */
  function DayWork(daySessions: seq<Session>, now: int, tz: int): int
    decreases |daySessions|
  {
    if |daySessions| == 0 then 0
    else
      var s := daySessions[|daySessions| - 1];
      DayWork(daySessions[..|daySessions| - 1], now, tz) + DailyTotal([s], s.createdAt, now, tz)
  }

  /** A session is always on its own creation day, so its daily total is its whole work. */
  lemma OwnDailyTotal(s: Session, now: int, tz: int)
    ensures DailyTotal([s], s.createdAt, now, tz) == TotalDuration(s.segments, now)
  {
    assert [s][..0] == [];
  }

  /**
   * Adding up the per-session totals of the day's sessions gives
   * calculateDailyTotal over the whole list for that day.
   */
  lemma {:induction false} DayWorkIsDailyTotal(sessions: seq<Session>, dayTs: int, now: int, tz: int)
    ensures DayWork(SessionsOn(sessions, dayTs, tz), now, tz) == DailyTotal(sessions, dayTs, now, tz)
    decreases |sessions|
  {
    if |sessions| > 0 {
      var p := sessions[..|sessions| - 1];
      var last := sessions[|sessions| - 1];
      DayWorkIsDailyTotal(p, dayTs, now, tz);
      if IsSameDay(last.createdAt, dayTs, tz) {
        var prev := SessionsOn(p, dayTs, tz);
        assert (prev + [last])[..|prev|] == prev;
        OwnDailyTotal(last, now, tz);
      }
    }
  }

  /** What the grid, the summary and the dashboard compute for one day. */
  datatype DayRow = DayRow(work: int, breakTime: int, taskCount: nat, breakCount: nat, focusIndex: int)

  /** The row of the day that starts at `dayTs`. */
  function DaySpec(sessions: seq<Session>, dayTs: int, now: int, tz: int): DayRow
  {
    var daySessions := SessionsOn(sessions, dayTs, tz);
    var work := DayWork(daySessions, now, tz);
    var breakTime := BreakTimeSpec(daySessions, 60000, 0, now, tz);
    var breakCount := BreakCount(daySessions);
    DayRow(work, breakTime, |daySessions|, breakCount, FocusIndex(work, breakTime, breakCount))
  }

  /** The day's row: its work is the day's total, its score a valid index. */
  lemma DaySpecMeaning(sessions: seq<Session>, dayTs: int, now: int, tz: int)
    ensures DaySpec(sessions, dayTs, now, tz).work == DailyTotal(sessions, dayTs, now, tz)
    ensures 0 <= DaySpec(sessions, dayTs, now, tz).focusIndex <= 100
    ensures DaySpec(sessions, dayTs, now, tz).breakTime >= 0
    ensures DaySpec(sessions, dayTs, now, tz).taskCount <= |sessions|
  {
    DayWorkIsDailyTotal(sessions, dayTs, now, tz);
    BreakTimeNonNegative(SessionsOn(sessions, dayTs, tz), 60000, 0, now, tz);
  }

  /** The body of the day loops: filter, add up, break time, pauses, score. */
  method DayRowOf(sessions: seq<Session>, dayTs: int, now: int, tz: int) returns (row: DayRow)
    ensures row == DaySpec(sessions, dayTs, now, tz)
  {
    var daySessions := SessionsOn(sessions, dayTs, tz);
    var total := 0;
    for k := 0 to |daySessions|
      invariant total == DayWork(daySessions[..k], now, tz)
    {
      assert daySessions[..k + 1][..k] == daySessions[..k];
      var s := daySessions[k];
      total := total + DailyTotal([s], s.createdAt, now, tz);
    }
    assert daySessions[..|daySessions|] == daySessions;
    var breakTime := BreakTime(daySessions, 60000, 0, now, tz);
    var breakCount := BreakCount(daySessions);
    row := DayRow(total, breakTime, |daySessions|, breakCount, FocusIndex(total, breakTime, breakCount));
  }

  /** `new Date(year, month, d).getTime()`: local midnight of that date. */
  function DateTs(year: int, month: int, d: int, tz: int): int
  {
    DayStart(DayNumber(year, month, d), tz)
  }

  /** The day filter keeps exactly the sessions created on that local date. */
  lemma SameDayAsDate(createdAt: int, year: int, month: int, d: int, tz: int)
    ensures IsSameDay(createdAt, DateTs(year, month, d, tz), tz) <==> LocalDay(createdAt, tz) == DayNumber(year, month, d)
  {
    var n := DayNumber(year, month, d);
    assert LocalDay(DayStart(n, tz), tz) == n by {
      assert DayStart(n, tz) + tz == n * DAY;
    }
  }

  // --- the month grid -----------------------------------------------------------

  /** MonthGrid's dailyStats: one row per day 1..daysInMonth, row `d - 1` for day `d`. */
  method MonthDailyStats(sessions: seq<Session>, year: int, month: int, now: int, tz: int) returns (rows: seq<DayRow>)
    requires 0 <= month < 12
    ensures |rows| == DaysInMonth(year, month)
    ensures forall d :: 1 <= d <= DaysInMonth(year, month) ==>
      rows[d - 1] == DaySpec(sessions, DateTs(year, month, d, tz), now, tz)
  {
    var daysInMonth := DaysInMonth(year, month);
    rows := [];
    for d := 1 to daysInMonth + 1
      invariant rows == MonthRows(sessions, year, month, d - 1, now, tz)
    {
      var row := DayRowOf(sessions, DateTs(year, month, d, tz), now, tz);
      RowsSnoc(MonthDay(sessions, year, month, now, tz), d - 1, row);
      rows := rows + [row];
    }
    RowsAt(MonthDay(sessions, year, month, now, tz), daysInMonth);
    forall d | 1 <= d <= daysInMonth
      ensures rows[d - 1] == DaySpec(sessions, DateTs(year, month, d, tz), now, tz)
    {
      assert rows[d - 1] == MonthDay(sessions, year, month, now, tz)(d);
    }
  }

  // --- the monthly summary ------------------------------------------------------

  datatype MonthSummary = MonthSummary(total: int, count: nat, focusAvg: int, breakTime: int)

  /** The accumulators of the monthly loop. */
  datatype Tally = Tally(totalTime: int, totalCount: nat, totalFocusSum: int, totalBreak: int, daysWithWork: nat)

  /**
   * One day of the monthly loop: work and session count always add up,
   * the focus index only on a day with work, break time on every day.
   */
  function AddDay(t: Tally, row: DayRow): Tally
  {
    if row.work > 0 then
      Tally(t.totalTime + row.work, t.totalCount + row.taskCount, t.totalFocusSum + row.focusIndex,
            t.totalBreak + row.breakTime, t.daysWithWork + 1)
    else
      Tally(t.totalTime + row.work, t.totalCount + row.taskCount, t.totalFocusSum,
            t.totalBreak + row.breakTime, t.daysWithWork)
  }

  /** The accumulators after the given days, in order. */
  function TallyOf(rows: seq<DayRow>): Tally
    decreases |rows|
  {
    if |rows| == 0 then Tally(0, 0, 0, 0, 0)
    else AddDay(TallyOf(rows[..|rows| - 1]), rows[|rows| - 1])
  }

  /** The rows of days 1..n, `rowOf(d)` for day `d`. */
  function Rows(rowOf: int -> DayRow, n: nat): seq<DayRow>
    decreases n
  {
    if n == 0 then [] else Rows(rowOf, n - 1) + [rowOf(n)]
  }

  /** Row `d - 1` is the row of day `d`. */
  lemma {:induction false} RowsAt(rowOf: int -> DayRow, n: nat)
    ensures |Rows(rowOf, n)| == n
    ensures forall d :: 1 <= d <= n ==> Rows(rowOf, n)[d - 1] == rowOf(d)
    decreases n
  {
    if n > 0 {
      RowsAt(rowOf, n - 1);
    }
  }

  /** One more day appends that day's row. */
  lemma RowsSnoc(rowOf: int -> DayRow, n: nat, row: DayRow)
    requires row == rowOf(n + 1)
    ensures Rows(rowOf, n + 1) == Rows(rowOf, n) + [row]
  {
  }

  /** One more row takes one step of the accumulators. */
  lemma TallySnoc(rows: seq<DayRow>, row: DayRow)
    ensures TallyOf(rows + [row]) == AddDay(TallyOf(rows), row)
  {
    assert (rows + [row])[..|rows|] == rows;
  }

  /** Day `d` of the given month, as the month's loops compute it. */
  function MonthDay(sessions: seq<Session>, year: int, month: int, now: int, tz: int): int -> DayRow
  {
    d => DaySpec(sessions, DateTs(year, month, d, tz), now, tz)
  }

  /** The rows of days 1..n of the month. */
  function MonthRows(sessions: seq<Session>, year: int, month: int, n: nat, now: int, tz: int): seq<DayRow>
  {
    Rows(MonthDay(sessions, year, month, now, tz), n)
  }

  /** round(focus sum / days with work), or 0 without such a day. */
  function FocusAverage(t: Tally): int
  {
    if t.daysWithWork > 0 then Round(t.totalFocusSum as real / t.daysWithWork as real) else 0
  }

  /**
   * The summary of the (group-filtered) month: work and session counts over
   * every day, the focus average over days with work only, and break time
   * over every day.
   */
  method MonthlySummary(filtered: seq<Session>, year: int, month: int, now: int, tz: int) returns (r: MonthSummary)
    requires 0 <= month < 12
    ensures var t := TallyOf(MonthRows(filtered, year, month, DaysInMonth(year, month), now, tz));
      r == MonthSummary(t.totalTime, t.totalCount, FocusAverage(t), t.totalBreak)
  {
    var daysInMonth := DaysInMonth(year, month);
    var totalTime, totalFocusSum, totalBreak := 0, 0, 0;
    var totalCount: nat, daysWithWork: nat := 0, 0;
    ghost var rows: seq<DayRow> := [];
    for d := 1 to daysInMonth + 1
      invariant rows == MonthRows(filtered, year, month, d - 1, now, tz)
      invariant Tally(totalTime, totalCount, totalFocusSum, totalBreak, daysWithWork) == TallyOf(rows)
    {
      var row := DayRowOf(filtered, DateTs(year, month, d, tz), now, tz);
      RowsSnoc(MonthDay(filtered, year, month, now, tz), d - 1, row);
      TallySnoc(rows, row);
      rows := rows + [row];
      totalTime, totalCount, totalFocusSum, totalBreak, daysWithWork :=
        AddMonthDay(row, totalTime, totalCount, totalFocusSum, totalBreak, daysWithWork);
    }
    var monthlyFocusAvg := if daysWithWork > 0 then Round(totalFocusSum as real / daysWithWork as real) else 0;
    r := MonthSummary(totalTime, totalCount, monthlyFocusAvg, totalBreak);
  }

  /** The body of the monthly loop once the day's row is known. */
  method AddMonthDay(row: DayRow, totalTime: int, totalCount: nat, totalFocusSum: int, totalBreak: int,
                     daysWithWork: nat)
    returns (timeOut: int, countOut: nat, focusOut: int, breakOut: int, daysOut: nat)
    ensures Tally(timeOut, countOut, focusOut, breakOut, daysOut)
      == AddDay(Tally(totalTime, totalCount, totalFocusSum, totalBreak, daysWithWork), row)
  {
    timeOut, countOut, focusOut, breakOut, daysOut := totalTime, totalCount, totalFocusSum, totalBreak, daysWithWork;
    if row.work > 0 {
      daysOut := daysOut + 1;
      focusOut := focusOut + row.focusIndex;
      breakOut := breakOut + row.breakTime;
    } else {
      breakOut := breakOut + row.breakTime;
    }
    timeOut := timeOut + row.work;
    countOut := countOut + row.taskCount;
  }

  /** Σ over days 1..n of the month of calculateDailyTotal(sessions, that day). */
  function DailyTotalsUpTo(sessions: seq<Session>, year: int, month: int, n: nat, now: int, tz: int): int
  {
    SumUpTo(d => DailyTotal(sessions, DateTs(year, month, d, tz), now, tz), n)
  }

  /** Σ g(d) over days 1..n. */
  function SumUpTo(g: int -> int, n: nat): int
    decreases n
  {
    if n == 0 then 0 else SumUpTo(g, n - 1) + g(n)
  }

  /** Rows whose focus index is valid and whose break time is not negative. */
  predicate WellFormedRows(rows: seq<DayRow>)
  {
    forall i :: 0 <= i < |rows| ==> 0 <= rows[i].focusIndex <= 100 && rows[i].breakTime >= 0
  }

  /**
   * What the accumulators mean: at most one active day per row, a focus
   * sum of 0..100 per active day, and no negative break time.
   */
  lemma {:induction false} TallyBounds(rows: seq<DayRow>)
    requires WellFormedRows(rows)
    ensures TallyOf(rows).daysWithWork <= |rows|
    ensures 0 <= TallyOf(rows).totalFocusSum <= 100 * TallyOf(rows).daysWithWork
    ensures TallyOf(rows).totalBreak >= 0
    decreases |rows|
  {
    if |rows| > 0 {
      var p := rows[..|rows| - 1];
      assert WellFormedRows(p) by {
        forall i | 0 <= i < |p| ensures 0 <= p[i].focusIndex <= 100 && p[i].breakTime >= 0 {
          assert p[i] == rows[i];
        }
      }
      TallyBounds(p);
      assert 0 <= rows[|rows| - 1].focusIndex <= 100 && rows[|rows| - 1].breakTime >= 0;
    }
  }

  /** Rows that are well formed one by one form well-formed rows. */
  lemma RowsWellFormed(rowOf: int -> DayRow, n: nat)
    requires forall d :: 1 <= d <= n ==> 0 <= rowOf(d).focusIndex <= 100 && rowOf(d).breakTime >= 0
    ensures WellFormedRows(Rows(rowOf, n))
  {
    RowsAt(rowOf, n);
    var rows := Rows(rowOf, n);
    forall i | 0 <= i < |rows| ensures 0 <= rows[i].focusIndex <= 100 && rows[i].breakTime >= 0 {
      assert rows[i] == rowOf(i + 1);
    }
  }

  /** Day `d` of the month as the loops see it: its work is the day's total, its score valid. */
  lemma MonthDayMeaning(sessions: seq<Session>, year: int, month: int, d: int, now: int, tz: int)
    ensures MonthDay(sessions, year, month, now, tz)(d).work == DailyTotal(sessions, DateTs(year, month, d, tz), now, tz)
    ensures 0 <= MonthDay(sessions, year, month, now, tz)(d).focusIndex <= 100
    ensures MonthDay(sessions, year, month, now, tz)(d).breakTime >= 0
  {
    DaySpecMeaning(sessions, DateTs(year, month, d, tz), now, tz);
  }

  /** Every row of the month is well formed. */
  lemma MonthRowsWellFormed(sessions: seq<Session>, year: int, month: int, n: nat, now: int, tz: int)
    ensures WellFormedRows(MonthRows(sessions, year, month, n, now, tz))
  {
    var f := MonthDay(sessions, year, month, now, tz);
    forall d | 1 <= d <= n ensures 0 <= f(d).focusIndex <= 100 && f(d).breakTime >= 0 {
      MonthDayMeaning(sessions, year, month, d, now, tz);
    }
    RowsWellFormed(f, n);
  }

  /** Σ rowOf(d).work over days 1..n. */
  function WorkUpTo(rowOf: int -> DayRow, n: nat): int
    decreases n
  {
    if n == 0 then 0 else WorkUpTo(rowOf, n - 1) + rowOf(n).work
  }

  /** The work accumulator adds up every row's work, active day or not. */
  lemma {:induction false} TallyWork(rowOf: int -> DayRow, n: nat)
    ensures TallyOf(Rows(rowOf, n)).totalTime == WorkUpTo(rowOf, n)
    decreases n
  {
    if n > 0 {
      TallyWork(rowOf, n - 1);
      RowsAt(rowOf, n - 1);
      assert Rows(rowOf, n)[..n - 1] == Rows(rowOf, n - 1);
    }
  }

  /** Rows whose work is g(d) day by day add up to Σ g. */
  lemma {:induction false} WorkUpToIsSum(rowOf: int -> DayRow, g: int -> int, n: nat)
    requires forall d :: 1 <= d <= n ==> rowOf(d).work == g(d)
    ensures WorkUpTo(rowOf, n) == SumUpTo(g, n)
    decreases n
  {
    if n > 0 {
      WorkUpToIsSum(rowOf, g, n - 1);
    }
  }

  /** The month's work is the sum of calculateDailyTotal over its days. */
  lemma MonthWorkIsDailyTotals(sessions: seq<Session>, year: int, month: int, n: nat, now: int, tz: int)
    ensures TallyOf(MonthRows(sessions, year, month, n, now, tz)).totalTime == DailyTotalsUpTo(sessions, year, month, n, now, tz)
  {
    var f := MonthDay(sessions, year, month, now, tz);
    var g := d => DailyTotal(sessions, DateTs(year, month, d, tz), now, tz);
    forall d | 1 <= d <= n ensures f(d).work == g(d) {
      MonthDayMeaning(sessions, year, month, d, now, tz);
    }
    TallyWork(f, n);
    WorkUpToIsSum(f, g, n);
  }

  lemma DivMono(a: real, b: real, n: real)
    requires a <= b && n > 0.0
    ensures a / n <= b / n
  {
  }

  /** round(sum / n) of n scores of 0..100 each is itself a score of 0..100. */
  lemma RoundedAverageBounds(sum: int, n: int)
    requires n > 0 && 0 <= sum <= 100 * n
    ensures 0 <= Round(sum as real / n as real) <= 100
  {
    var x := sum as real / n as real;
    assert sum as real <= 100.0 * n as real;
    DivMono(0.0, sum as real, n as real);
    DivMono(sum as real, 100.0 * n as real, n as real);
    assert 0.0 <= x <= 100.0;
    RoundMonotone(0.0, x);
    RoundMonotone(x, 100.0);
  }

  /** A focus average of 0..100 per active day is itself a valid index. */
  lemma FocusAverageBounds(t: Tally)
    requires 0 <= t.totalFocusSum <= 100 * t.daysWithWork
    ensures 0 <= FocusAverage(t) <= 100
  {
    if t.daysWithWork > 0 {
      RoundedAverageBounds(t.totalFocusSum, t.daysWithWork);
    }
  }

  /** The month's focus average is a valid index. */
  lemma MonthlyFocusInRange(sessions: seq<Session>, year: int, month: int, now: int, tz: int)
    requires 0 <= month < 12
    ensures 0 <= FocusAverage(TallyOf(MonthRows(sessions, year, month, DaysInMonth(year, month), now, tz))) <= 100
  {
    var rows := MonthRows(sessions, year, month, DaysInMonth(year, month), now, tz);
    MonthRowsWellFormed(sessions, year, month, DaysInMonth(year, month), now, tz);
    TallyBounds(rows);
    FocusAverageBounds(TallyOf(rows));
  }

  // --- the selected date --------------------------------------------------------

  datatype SelectedStats = SelectedStats(breakTime: int, focusScore: int, workTime: int, hasRecord: bool)

  /**
   * selectedDateStats: zeros without a selected date; otherwise the day's
   * total over the filtered sessions, the break time and pauses of the
   * sessions created that day, and their focus index.
   */
  method SelectedDateStats(filtered: seq<Session>, selected: Option<int>, now: int, tz: int) returns (r: SelectedStats)
    ensures selected.None? ==> r == SelectedStats(0, 0, 0, false)
    ensures selected.Some? ==>
      var row := DaySpec(filtered, selected.value, now, tz);
      r.workTime == DailyTotal(filtered, selected.value, now, tz)
      && r.breakTime == row.breakTime
      && r.focusScore == row.focusIndex
      && 0 <= r.focusScore <= 100
    ensures r.hasRecord <==> r.workTime > 0
  {
    if selected.None? {
      return SelectedStats(0, 0, 0, false);
    }
    var day := selected.value;
    var workTime := DailyTotal(filtered, day, now, tz);
    var daySessions := SessionsOn(filtered, day, tz);
    var breakTime := BreakTime(daySessions, 60000, 0, now, tz);
    var breakCount := BreakCount(daySessions);
    DaySpecMeaning(filtered, day, now, tz);
    r := SelectedStats(breakTime, FocusIndex(workTime, breakTime, breakCount), workTime, workTime > 0);
  }
}
