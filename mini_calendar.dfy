// The month picker: the grid of a month (blank cells up to the first
// weekday, then one date string per day), month navigation and the
// start / end / in-range / selected highlights of a day cell.
module MiniCalendar {
  import opened Types
  import opened Text
  import opened Civil

  /** `new Date(year, month, 1).getDay()`: the blank cells before day 1. */
  function FirstDay(year: int, month: int): int
  {
    Weekday(DayNumber(year, month, 1))
  }

  /** `new Date(year, month + 1, 0).getDate()`: the last day of the month. */
  function LastDate(year: int, month: int): int
    requires 0 <= month < 12
  {
    DaysInMonth(year, month)
  }

  /**
   * getCalendarDays: `firstDay` blank cells, then the date string of each
   * day 1..lastDate of the month, in order.
   */
  method CalendarDays(year: int, month: int) returns (days: seq<Option<string>>)
    requires 0 <= year < 10000 && 0 <= month < 12
    ensures |days| == FirstDay(year, month) + LastDate(year, month)
    ensures forall i :: 0 <= i < FirstDay(year, month) ==> days[i] == None
    ensures forall d :: 1 <= d <= LastDate(year, month) ==>
      days[FirstDay(year, month) + d - 1] == Some(DateStr(year, month, d))
  {
    days := Grid(year, month, FirstDay(year, month));
  }

  /** The two loops of getCalendarDays: `blanks` empty cells, then one date string per day of the month. */
  method Grid(year: int, month: int, blanks: int) returns (days: seq<Option<string>>)
    requires 0 <= year < 10000 && 0 <= month < 12 && blanks >= 0
    ensures |days| == blanks + DaysInMonth(year, month)
    ensures forall i :: 0 <= i < blanks ==> days[i] == None
    ensures forall d :: 1 <= d <= DaysInMonth(year, month) ==> days[blanks + d - 1] == Some(DateStr(year, month, d))
  {
    var lastDate := DaysInMonth(year, month);
    days := [];
    for i := 0 to blanks
      invariant |days| == i
      invariant forall k :: 0 <= k < i ==> days[k] == None
    {
      days := days + [None];
    }
    for i := 1 to lastDate + 1
      invariant |days| == blanks + i - 1
      invariant forall k :: 0 <= k < blanks ==> days[k] == None
      invariant forall d :: 1 <= d < i ==> days[blanks + d - 1] == Some(DateStr(year, month, d))
    {
      ghost var before := days;
      days := days + [Some(DateStr(year, month, i))];
      assert forall k :: 0 <= k < |before| ==> days[k] == before[k];
    }
  }

  /** Each date falls in the grid column of its weekday. */
  lemma GridColumnIsWeekday(year: int, month: int, d: int)
    requires 0 <= month < 12 && 1 <= d <= LastDate(year, month)
    ensures (FirstDay(year, month) + d - 1) % 7 == Weekday(DayNumber(year, month, d))
  {
    var n := DayNumber(year, month, 1);
    assert DayNumber(year, month, d) == n + d - 1;
    var q := (n + 4) / 7;
    assert n + 4 == 7 * q + FirstDay(year, month);
    assert n + d - 1 + 4 == 7 * q + (FirstDay(year, month) + d - 1);
  }

  /** The date cells increase strictly, as strings and as days. */
  lemma GridDatesIncrease(year: int, month: int, d1: int, d2: int)
    requires 0 <= year < 10000 && 0 <= month < 12
    requires 1 <= d1 < d2 <= LastDate(year, month)
    ensures StrLess(DateStr(year, month, d1), DateStr(year, month, d2))
    ensures DayNumber(year, month, d1) < DayNumber(year, month, d2)
  {
    DateStrOrder(year, month, d1, year, month, d2);
  }

  /** The ‹ button: day 1 of the previous month. */
  function PrevMonth(year: int, month: int): (int, int)
  {
    Normalize(year, month - 1)
  }

  /** The › button: day 1 of the next month. */
  function NextMonth(year: int, month: int): (int, int)
  {
    Normalize(year, month + 1)
  }

  /** The two buttons undo each other. */
  lemma NavigationInverse(year: int, month: int)
    requires 0 <= month < 12
    ensures NextMonth(PrevMonth(year, month).0, PrevMonth(year, month).1) == (year, month)
    ensures PrevMonth(NextMonth(year, month).0, NextMonth(year, month).1) == (year, month)
  {
    if month == 0 {
      assert PrevMonth(year, month) == (year - 1, 11);
      assert Normalize(year - 1, 12) == (year, 0);
    } else {
      assert PrevMonth(year, month) == (year, month - 1);
    }
    if month == 11 {
      assert NextMonth(year, month) == (year + 1, 0);
      assert Normalize(year + 1, -1) == (year, 11);
    } else {
      assert NextMonth(year, month) == (year, month + 1);
    }
  }

  /** › moves forward by the length of the shown month. */
  lemma NextMovesOneMonth(year: int, month: int)
    requires 0 <= month < 12
    ensures DayNumber(NextMonth(year, month).0, NextMonth(year, month).1, 1)
      == DayNumber(year, month, 1) + DaysInMonth(year, month)
  {
    NextMonthStart(year, month);
  }

  /** ‹ moves back by the length of the month it lands on. */
  lemma PrevMovesOneMonth(year: int, month: int)
    requires 0 <= month < 12
    ensures var p := PrevMonth(year, month);
      DayNumber(p.0, p.1, 1) + DaysInMonth(p.0, p.1) == DayNumber(year, month, 1)
  {
    var p := PrevMonth(year, month);
    NextMonthStart(p.0, p.1);
    if month == 0 {
      assert p == (year - 1, 11);
      assert Normalize(year - 1, 12) == (year, 0);
    } else {
      assert p == (year, month - 1);
    }
  }

  /** The highlight flags of one day cell. An empty string means "not chosen". */
  datatype CellFlags = CellFlags(isStart: bool, isEnd: bool, isInRange: bool, isSelected: bool)

  function Flags(dayStr: string, selectedStart: string, selectedEnd: string): (f: CellFlags)
    ensures f.isInRange <==>
      (selectedStart != "" && selectedEnd != "" && StrLess(selectedStart, dayStr) && StrLess(dayStr, selectedEnd))
    ensures f.isSelected <==> selectedEnd == "" && dayStr == selectedStart
  {
    CellFlags(
      dayStr == selectedStart,
      dayStr == selectedEnd,
      selectedStart != "" && selectedEnd != "" && StrLess(selectedStart, dayStr) && StrLess(dayStr, selectedEnd),
      selectedEnd == "" && dayStr == selectedStart)
  }

  /**
   * For real dates the in-range band covers exactly the days strictly
   * between the two ends, never an end itself, and the single-select mark
   * appears only while no end is chosen.
   */
  lemma InRangeIsStrictlyBetween(y: int, m: int, d: int, ys: int, ms: int, ds: int, ye: int, me: int, de: int)
    requires 0 <= y < 10000 && ValidDate(y, m, d)
    requires 0 <= ys < 10000 && ValidDate(ys, ms, ds)
    requires 0 <= ye < 10000 && ValidDate(ye, me, de)
    ensures var f := Flags(DateStr(y, m, d), DateStr(ys, ms, ds), DateStr(ye, me, de));
      (f.isInRange <==> DayNumber(ys, ms, ds) < DayNumber(y, m, d) < DayNumber(ye, me, de))
      && (f.isInRange ==> !f.isStart && !f.isEnd)
      && !f.isSelected
  {
    var day, s, e := DateStr(y, m, d), DateStr(ys, ms, ds), DateStr(ye, me, de);
    DateStrLessIffEarlier(ys, ms, ds, y, m, d);
    DateStrLessIffEarlier(y, m, d, ye, me, de);
    if StrLess(s, day) {
      StrLessIrreflexive(day);
    }
    if StrLess(day, e) {
      StrLessIrreflexive(day);
    }
  }
}
