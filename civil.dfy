// Calendar arithmetic behind `new Date(year, month, day)`, `getDay()`,
// `new Date(year, month + 1, 0).getDate()` and the "YYYY-MM-DD" strings of
// getDateStr, under a fixed local offset. Dates are counted as day numbers,
// day 0 being 1970-01-01; months are 0-based as in JavaScript.
module Civil {
  import opened Text

  predicate IsLeap(y: int)
  {
    (y % 4 == 0 && y % 100 != 0) || y % 400 == 0
  }

  function YearLength(y: int): int
  {
    if IsLeap(y) then 366 else 365
  }

  /** Length of month `m` (0 = January) of year `y`. */
  function DaysInMonth(y: int, m: int): (n: int)
    requires 0 <= m < 12
    ensures 28 <= n <= 31
  {
    if m == 1 then (if IsLeap(y) then 29 else 28)
    else if m == 3 || m == 5 || m == 8 || m == 10 then 30
    else 31
  }

  /** Days of year `y` before the first of month `m`. */
  function MonthOffset(y: int, m: int): int
    requires 0 <= m < 12
  {
    [0, 31, 59, 90, 120, 151, 181, 212, 243, 273, 304, 334][m] + (if m > 1 && IsLeap(y) then 1 else 0)
  }

  /** Leap years strictly before year `y`, counted from year 0. */
  function LeapsBefore(y: int): int
  {
    (y - 1) / 4 - (y - 1) / 100 + (y - 1) / 400
  }

  /** Day number of January 1st of year `y`: whole years counted from 1970. */
  function YearStart(y: int): int
    decreases if y < 1970 then 1970 - y else y - 1970
  {
    if y == 1970 then 0
    else if y > 1970 then YearStart(y - 1) + YearLength(y - 1)
    else YearStart(y + 1) - YearLength(y)
  }

  /**
   * `new Date(y, m, 1)` with `m` outside 0..11 rolls into a neighbouring
   * year: the normalised (year, month).
   */
  function Normalize(y: int, m: int): (r: (int, int))
    ensures 0 <= r.1 < 12
    ensures 0 <= m < 12 ==> r == (y, m)
  {
    (y + m / 12, m % 12)
  }

  /** The day number of `new Date(y, m, d)`: months and days may overflow, as in JavaScript. */
  function DayNumber(y: int, m: int, d: int): int
  {
    var (ny, nm) := Normalize(y, m);
    YearStart(ny) + MonthOffset(ny, nm) + d - 1
  }

  /** `getDay()`: 0 is Sunday; 1970-01-01 was a Thursday. */
  function Weekday(day: int): (w: int)
    ensures 0 <= w < 7
  {
    (day + 4) % 7
  }

  /** A real calendar date: a month index 0..11 and a day inside that month. */
  predicate ValidDate(y: int, m: int, d: int)
  {
    0 <= m < 12 && 1 <= d <= DaysInMonth(y, m)
  }

  // --- the length of a year ---------------------------------------------------

  lemma DivStep4(y: int)
    ensures y / 4 - (y - 1) / 4 == (if y % 4 == 0 then 1 else 0)
  {
  }

  lemma DivStep100(y: int)
    ensures y / 100 - (y - 1) / 100 == (if y % 100 == 0 then 1 else 0)
  {
  }

  lemma DivStep400(y: int)
    ensures y / 400 - (y - 1) / 400 == (if y % 400 == 0 then 1 else 0)
  {
  }

  lemma LeapDivisors(y: int)
    ensures y % 400 == 0 ==> y % 100 == 0
    ensures y % 100 == 0 ==> y % 4 == 0
  {
    if y % 400 == 0 {
      CenturyOfQuadCentury(y);
    }
    if y % 100 == 0 {
      QuadOfCentury(y);
    }
  }

  lemma CenturyOfQuadCentury(y: int)
    requires y % 400 == 0
    ensures y % 100 == 0
  {
    var k := y / 400;
    assert y == 400 * k;
    assert y == 100 * (4 * k) + 0;
  }

  lemma QuadOfCentury(y: int)
    requires y % 100 == 0
    ensures y % 4 == 0
  {
    var k := y / 100;
    assert y == 100 * k;
    assert y == 4 * (25 * k) + 0;
  }

  /** Consecutive New Year's days are a year length apart. */
  lemma YearStartStep(y: int)
    ensures YearStart(y + 1) == YearStart(y) + YearLength(y)
  {
  }

  /** The closed form: 365 days a year plus one per leap year since 1970. */
  lemma {:induction false} YearStartClosedForm(y: int)
    ensures YearStart(y) == 365 * (y - 1970) + LeapsBefore(y) - LeapsBefore(1970)
    decreases if y < 1970 then 1970 - y else y - 1970
  {
    if y > 1970 {
      YearStartClosedForm(y - 1);
      LeapStep(y - 1);
    } else if y < 1970 {
      YearStartClosedForm(y + 1);
      LeapStep(y);
    }
  }

  /** One more leap year is counted exactly after a leap year. */
  lemma LeapStep(y: int)
    ensures LeapsBefore(y + 1) - LeapsBefore(y) == (if IsLeap(y) then 1 else 0)
  {
    DivStep4(y);
    DivStep100(y);
    DivStep400(y);
    LeapDivisors(y);
  }

  /** The months of a year tile it: each month starts where the previous ends. */
  lemma MonthOffsetStep(y: int, m: int)
    requires 0 <= m < 12
    ensures m < 11 ==> MonthOffset(y, m + 1) == MonthOffset(y, m) + DaysInMonth(y, m)
    ensures m == 11 ==> MonthOffset(y, m) + DaysInMonth(y, m) == YearLength(y)
  {
  }

  /** `new Date(y, m + 1, 0)` is the last day of month `m`: this is how its length is read. */
  lemma DayZeroIsLastDay(y: int, m: int)
    requires 0 <= m < 12
    ensures DayNumber(y, m + 1, 0) == DayNumber(y, m, DaysInMonth(y, m))
  {
    MonthOffsetStep(y, m);
    if m == 11 {
      YearStartStep(y);
      assert Normalize(y, 12) == (y + 1, 0);
    }
  }

  /** The first of the next month follows the last day of this one. */
  lemma NextMonthStart(y: int, m: int)
    requires 0 <= m < 12
    ensures DayNumber(y, m + 1, 1) == DayNumber(y, m, 1) + DaysInMonth(y, m)
  {
    DayZeroIsLastDay(y, m);
  }

  /** Real dates are numbered in calendar order: the numbering is strictly monotone. */
  lemma DayNumberMonotone(y1: int, m1: int, d1: int, y2: int, m2: int, d2: int)
    requires ValidDate(y1, m1, d1) && ValidDate(y2, m2, d2)
    requires y1 < y2 || (y1 == y2 && (m1 < m2 || (m1 == m2 && d1 < d2)))
    ensures DayNumber(y1, m1, d1) < DayNumber(y2, m2, d2)
  {
    if y1 < y2 {
      // The end of year y1 comes before the start of year y2.
      MonthOffsetStep(y1, 11);
      assert MonthOffset(y1, m1) + DaysInMonth(y1, m1) <= YearLength(y1) by {
        MonthPrefixBound(y1, m1);
      }
      YearStartStep(y1);
      YearStartMonotone(y1 + 1, y2);
    } else if m1 < m2 {
      MonthOffsetGrows(y1, m1, m2);
    }
  }

  lemma MonthPrefixBound(y: int, m: int)
    requires 0 <= m < 12
    ensures MonthOffset(y, m) + DaysInMonth(y, m) <= YearLength(y)
  {
  }

  lemma MonthOffsetGrows(y: int, m1: int, m2: int)
    requires 0 <= m1 < m2 < 12
    ensures MonthOffset(y, m1) + DaysInMonth(y, m1) <= MonthOffset(y, m2)
  {
  }

  lemma {:induction false} YearStartMonotone(a: int, b: int)
    requires a <= b
    ensures YearStart(a) <= YearStart(b)
    decreases b - a
  {
    if a < b {
      YearStartStep(a);
      YearStartMonotone(a + 1, b);
    }
  }

  /** Two real dates have the same number only if they are the same date. */
  lemma DayNumberInjective(y1: int, m1: int, d1: int, y2: int, m2: int, d2: int)
    requires ValidDate(y1, m1, d1) && ValidDate(y2, m2, d2)
    requires DayNumber(y1, m1, d1) == DayNumber(y2, m2, d2)
    ensures y1 == y2 && m1 == m2 && d1 == d2
  {
    if y1 < y2 || (y1 == y2 && (m1 < m2 || (m1 == m2 && d1 < d2))) {
      DayNumberMonotone(y1, m1, d1, y2, m2, d2);
    } else if y2 < y1 || (y1 == y2 && (m2 < m1 || (m1 == m2 && d2 < d1))) {
      DayNumberMonotone(y2, m2, d2, y1, m1, d1);
    }
  }

  /** Day 0 is 1970-01-01, a Thursday. */
  lemma EpochIsThursday()
    ensures DayNumber(1970, 0, 1) == 0 && Weekday(DayNumber(1970, 0, 1)) == 4
  {
    assert Normalize(1970, 0) == (1970, 0);
    assert YearStart(1970) == 0 && MonthOffset(1970, 0) == 0;
  }

  /** 2024-10-04, a Friday, is day 20000. */
  lemma DayTwentyThousand()
    ensures DayNumber(2024, 9, 4) == 20000 && Weekday(DayNumber(2024, 9, 4)) == 5
  {
    assert 1969 / 4 == 492 && 1969 / 100 == 19 && 1969 / 400 == 4;
    assert 2023 / 4 == 505 && 2023 / 100 == 20 && 2023 / 400 == 5;
    assert LeapsBefore(2024) - LeapsBefore(1970) == 13;
    YearStartClosedForm(2024);
    assert IsLeap(2024);
    assert Normalize(2024, 9) == (2024, 9);
    assert MonthOffset(2024, 9) == 274;
    assert (20000 + 4) % 7 == 5;
  }

  // --- "YYYY-MM-DD" -----------------------------------------------------------

  function Pow10(w: nat): (p: nat)
    ensures p >= 1
  {
    if w == 0 then 1 else 10 * Pow10(w - 1)
  }

  /** The last `w` decimal digits of `n`, zero-padded. */
  function Fixed(n: nat, w: nat): (s: string)
    ensures |s| == w
  {
    if w == 0 then [] else Fixed(n / 10, w - 1) + [DigitChar(n % 10)]
  }

  /** getDateStr of the local date (y, m, d): the ISO form of a year 0..9999. */
  function DateStr(y: int, m: int, d: int): (s: string)
    requires 0 <= y < 10000 && ValidDate(y, m, d)
    ensures |s| == 10 && s[4] == '-' && s[7] == '-'
  {
    Fixed(y, 4) + ("-" + (Fixed(m + 1, 2) + ("-" + Fixed(d, 2))))
  }

  /** Comparing strings with equal-length heads compares the heads first. */
  lemma {:induction false} StrLessConcat(a1: string, a2: string, b1: string, b2: string)
    requires |a1| == |b1|
    ensures StrLess(a1 + a2, b1 + b2) <==> StrLess(a1, b1) || (a1 == b1 && StrLess(a2, b2))
    decreases |a1|
  {
    if |a1| == 0 {
      assert a1 + a2 == a2 && b1 + b2 == b2;
    } else {
      assert (a1 + a2)[0] == a1[0] && (b1 + b2)[0] == b1[0];
      assert (a1 + a2)[1..] == a1[1..] + a2 && (b1 + b2)[1..] == b1[1..] + b2;
      if a1[0] == b1[0] {
        StrLessConcat(a1[1..], a2, b1[1..], b2);
        assert a1 == [a1[0]] + a1[1..] && b1 == [b1[0]] + b1[1..];
      }
    }
  }

  lemma ConcatEq(a1: string, a2: string, b1: string, b2: string)
    requires |a1| == |b1|
    ensures a1 + a2 == b1 + b2 <==> a1 == b1 && a2 == b2
  {
    if a1 + a2 == b1 + b2 {
      assert a1 == (a1 + a2)[..|a1|] && b1 == (b1 + b2)[..|b1|];
      assert a2 == (a1 + a2)[|a1|..] && b2 == (b1 + b2)[|b1|..];
    }
  }

  /** Fixed-width digit strings compare as their numbers do. */
  lemma {:induction false} FixedOrder(x: nat, y: nat, w: nat)
    requires x < Pow10(w) && y < Pow10(w)
    ensures StrLess(Fixed(x, w), Fixed(y, w)) <==> x < y
    ensures Fixed(x, w) == Fixed(y, w) <==> x == y
    decreases w
  {
    if w > 0 {
      FixedOrder(x / 10, y / 10, w - 1);
      var cx, cy := DigitChar(x % 10), DigitChar(y % 10);
      StrLessConcat(Fixed(x / 10, w - 1), [cx], Fixed(y / 10, w - 1), [cy]);
      ConcatEq(Fixed(x / 10, w - 1), [cx], Fixed(y / 10, w - 1), [cy]);
      assert StrLess([cx], [cy]) <==> cx < cy;
      assert x == 10 * (x / 10) + x % 10 && y == 10 * (y / 10) + y % 10;
    }
  }

  /** The "MM-DD" tail of a date string. */
  function MonthDay(m: int, d: int): string
    requires 0 <= m < 12 && 1 <= d < 100
  {
    Fixed(m + 1, 2) + ("-" + Fixed(d, 2))
  }

  lemma MonthDayOrder(m1: int, d1: int, m2: int, d2: int)
    requires 0 <= m1 < 12 && 1 <= d1 < 100 && 0 <= m2 < 12 && 1 <= d2 < 100
    ensures StrLess(MonthDay(m1, d1), MonthDay(m2, d2)) <==> m1 < m2 || (m1 == m2 && d1 < d2)
    ensures MonthDay(m1, d1) == MonthDay(m2, d2) <==> m1 == m2 && d1 == d2
  {
    assert Pow10(2) == 100;
    FixedOrder(m1 + 1, m2 + 1, 2);
    FixedOrder(d1, d2, 2);
    var t1, t2 := Fixed(d1, 2), Fixed(d2, 2);
    StrLessConcat("-", t1, "-", t2);
    ConcatEq("-", t1, "-", t2);
    StrLessIrreflexive("-");
    StrLessConcat(Fixed(m1 + 1, 2), "-" + t1, Fixed(m2 + 1, 2), "-" + t2);
    ConcatEq(Fixed(m1 + 1, 2), "-" + t1, Fixed(m2 + 1, 2), "-" + t2);
  }

  /** Date strings compare, as strings, in calendar order. */
  lemma DateStrOrder(y1: int, m1: int, d1: int, y2: int, m2: int, d2: int)
    requires 0 <= y1 < 10000 && ValidDate(y1, m1, d1)
    requires 0 <= y2 < 10000 && ValidDate(y2, m2, d2)
    ensures StrLess(DateStr(y1, m1, d1), DateStr(y2, m2, d2))
      <==> y1 < y2 || (y1 == y2 && (m1 < m2 || (m1 == m2 && d1 < d2)))
    ensures DateStr(y1, m1, d1) == DateStr(y2, m2, d2) <==> y1 == y2 && m1 == m2 && d1 == d2
  {
    assert Pow10(4) == 10000;
    FixedOrder(y1, y2, 4);
    MonthDayOrder(m1, d1, m2, d2);
    var u1, u2 := MonthDay(m1, d1), MonthDay(m2, d2);
    assert DateStr(y1, m1, d1) == Fixed(y1, 4) + ("-" + u1);
    assert DateStr(y2, m2, d2) == Fixed(y2, 4) + ("-" + u2);
    StrLessConcat("-", u1, "-", u2);
    ConcatEq("-", u1, "-", u2);
    StrLessIrreflexive("-");
    StrLessConcat(Fixed(y1, 4), "-" + u1, Fixed(y2, 4), "-" + u2);
    ConcatEq(Fixed(y1, 4), "-" + u1, Fixed(y2, 4), "-" + u2);
  }

  /** So comparing two date strings compares their day numbers. */
  lemma DateStrLessIffEarlier(y1: int, m1: int, d1: int, y2: int, m2: int, d2: int)
    requires 0 <= y1 < 10000 && ValidDate(y1, m1, d1)
    requires 0 <= y2 < 10000 && ValidDate(y2, m2, d2)
    ensures StrLess(DateStr(y1, m1, d1), DateStr(y2, m2, d2)) <==> DayNumber(y1, m1, d1) < DayNumber(y2, m2, d2)
  {
    DateStrOrder(y1, m1, d1, y2, m2, d2);
    if y1 < y2 || (y1 == y2 && (m1 < m2 || (m1 == m2 && d1 < d2))) {
      DayNumberMonotone(y1, m1, d1, y2, m2, d2);
    } else if y2 < y1 || (y1 == y2 && (m2 < m1 || (m1 == m2 && d2 < d1))) {
      DayNumberMonotone(y2, m2, d2, y1, m1, d1);
    }
  }
}
