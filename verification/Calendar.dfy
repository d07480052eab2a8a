/**
  The proleptic Gregorian calendar the monthly windows rest on, in whole days since 1970-01-01.

  A month is numbered 12 * year + (month - 1), so that month arithmetic is addition.  Leap years and
  month lengths follow section 5.7 and Appendix C of RFC 3339.
 */
module Calendar {
  import opened Prelude

  predicate Leap(y: int) {
    y % 4 == 0 && (y % 100 != 0 || y % 400 == 0)
  }

  /** Days in month m (1..12) of year y. */
  function MonthDays(y: int, m: int): int {
    if m == 2 then (if Leap(y) then 29 else 28)
    else if m == 4 || m == 6 || m == 9 || m == 11 then 30
    else 31
  }

  /** Days of year y before month m0 (counted from 0). */
  function DaysBeforeMonth(y: int, m0: nat): int
  {
    if m0 == 0 then 0 else DaysBeforeMonth(y, m0 - 1) + MonthDays(y, m0)
  }

  /** Days from 0001-01-01 to January 1 of year y. */
  function DaysBeforeYear(y: int): int {
    365 * (y - 1) + (y - 1) / 4 - (y - 1) / 100 + (y - 1) / 400
  }

  const EPOCH: int := 719162

  /** The day on which month k begins. */
  function MonthStart(k: int): int {
    DaysBeforeYear(k / 12) - EPOCH + DaysBeforeMonth(k / 12, k % 12)
  }

  function MonthLength(k: int): int {
    MonthDays(k / 12, k % 12 + 1)
  }

  lemma DivDown(x: int, d: int)
    requires d >= 2
    ensures x / d - (x - 1) / d == if x % d == 0 then 1 else 0
  {
    var q, r := x / d, x % d;
    if r == 0 {
      Quotient(x - 1, d, q - 1, d - 1);
    } else {
      Quotient(x - 1, d, q, r - 1);
    }
  }

  lemma YearStep(y: int)
    ensures DaysBeforeYear(y + 1) == DaysBeforeYear(y) + (if Leap(y) then 366 else 365)
  {
    DivDown(y, 4);
    DivDown(y, 100);
    DivDown(y, 400);
    if y % 400 == 0 {
      Quotient(y, 100, 4 * (y / 400), 0);
    }
    if y % 100 == 0 {
      Quotient(y, 4, 25 * (y / 100), 0);
    }
  }

  lemma {:induction false} YearTotal(y: int)
    ensures DaysBeforeMonth(y, 12) == if Leap(y) then 366 else 365
    ensures forall m0: nat :: m0 <= 12 ==> 0 <= DaysBeforeMonth(y, m0) <= DaysBeforeMonth(y, 12)
  {
    hide Leap;
    assert DaysBeforeMonth(y, 1) == 31;
    assert DaysBeforeMonth(y, 2) == 31 + MonthDays(y, 2);
    assert DaysBeforeMonth(y, 4) == DaysBeforeMonth(y, 2) + 61;
    assert DaysBeforeMonth(y, 6) == DaysBeforeMonth(y, 4) + 61;
    assert DaysBeforeMonth(y, 8) == DaysBeforeMonth(y, 6) + 62;
    assert DaysBeforeMonth(y, 10) == DaysBeforeMonth(y, 8) + 61;
    assert DaysBeforeMonth(y, 12) == DaysBeforeMonth(y, 10) + 61;
    forall m0: nat | m0 <= 12
      ensures 0 <= DaysBeforeMonth(y, m0) <= DaysBeforeMonth(y, 12)
    {
      BeforeMonthGrows(y, m0, 12);
      BeforeMonthGrows(y, 0, m0);
    }
  }

  lemma {:induction false} BeforeMonthGrows(y: int, a: nat, b: nat)
    requires a <= b
    ensures DaysBeforeMonth(y, a) <= DaysBeforeMonth(y, b)
    decreases b
  {
    if a < b {
      BeforeMonthGrows(y, a, b - 1);
    }
  }

  /** Months follow one another without gap or overlap. */
  lemma MonthStep(k: int)
    ensures MonthStart(k + 1) == MonthStart(k) + MonthLength(k)
    ensures 28 <= MonthLength(k) <= 31
  {
    var y, m0 := k / 12, k % 12;
    if m0 == 11 {
      Quotient(k + 1, 12, y + 1, 0);
      YearStep(y);
      YearTotal(y);
      assert DaysBeforeMonth(y, 12) == DaysBeforeMonth(y, 11) + MonthDays(y, 12);
    } else {
      Quotient(k + 1, 12, y, m0 + 1);
    }
  }

  lemma MonthsGrow(a: int, b: int)
    requires a < b
    ensures MonthStart(a + 1) <= MonthStart(b)
    decreases b - a
  {
    if a + 1 < b {
      MonthStep(b - 1);
      MonthsGrow(a, b - 1);
    }
  }

  /** A day lies in one month only. */
  lemma MonthUnique(day: int, a: int, b: int)
    requires MonthStart(a) <= day < MonthStart(a + 1)
    requires MonthStart(b) <= day < MonthStart(b + 1)
    ensures a == b
  {
    if a < b {
      MonthsGrow(a, b);
    } else if b < a {
      MonthsGrow(b, a);
    }
  }

  // ---- From a day to its date -----------------------------------------------------------------------

  /** Year and day of the year, by whole cycles of 400, 100, 4 and 1 years; the last century of a
      400-year cycle and the last year of a 4-year cycle are one day longer than the others. */
  function YearAndDay(day: int): (int, int) {
    var d0 := day + EPOCH;
    var n400, d1 := d0 / 146097, d0 % 146097;
    var n100 := Min(d1 / 36524, 3);
    var d2 := d1 - 36524 * n100;
    var n4, d3 := d2 / 1461, d2 % 1461;
    var n1 := Min(d3 / 365, 3);
    (1 + 400 * n400 + 100 * n100 + 4 * n4 + n1, d3 - 365 * n1)
  }

  function MonthOfYearDay(y: int, yday: int, m0: nat): nat
    requires m0 <= 11
    decreases 12 - m0
  {
    if m0 == 11 || yday < DaysBeforeMonth(y, m0 + 1) then m0 else MonthOfYearDay(y, yday, m0 + 1)
  }

  datatype Date = Date(year: int, month: int, day: int)

  function DateOf(day: int): Date {
    var (y, yday) := YearAndDay(day);
    var m0 := MonthOfYearDay(y, yday, 0);
    Date(y, m0 + 1, yday - DaysBeforeMonth(y, m0) + 1)
  }

  function MonthIndex(y: int, m: int): int {
    12 * y + m - 1
  }

  /** The day of a date; like the source's time.Date, a month outside 1..12 or a day outside the
      month carries over. */
  function DayOf(y: int, m: int, d: int): int {
    MonthStart(MonthIndex(y, m)) + d - 1
  }

  lemma CyclesOfYear(a: int, b: int, c: int, n: int)
    requires 0 <= b <= 3 && 0 <= c <= 24 && 0 <= n <= 3
    ensures DaysBeforeYear(1 + 400 * a + 100 * b + 4 * c + n) == 146097 * a + 36524 * b + 1461 * c + 365 * n
  {
    var x := 400 * a + 100 * b + 4 * c + n;
    Quotient(x, 4, 100 * a + 25 * b + c, n);
    Quotient(x, 100, 4 * a + b, 4 * c + n);
    Quotient(x, 400, a, 100 * b + 4 * c + n);
  }

  lemma LongYearIsLeap(a: int, b: int, c: int)
    requires 0 <= b <= 3 && 0 <= c <= 24 && (c == 24 ==> b == 3)
    ensures Leap(1 + 400 * a + 100 * b + 4 * c + 3)
  {
    var y := 4 + 400 * a + 100 * b + 4 * c;
    Quotient(y, 4, 1 + 100 * a + 25 * b + c, 0);
    if c == 24 {
      Quotient(y, 400, a + 1, 0);
    } else {
      Quotient(y, 100, 4 * a + b, 4 * c + 4);
    }
  }

  lemma YearAndDayCorrect(day: int)
    ensures var (y, yday) := YearAndDay(day);
            DaysBeforeYear(y) - EPOCH + yday == day && 0 <= yday < (if Leap(y) then 366 else 365)
  {
    var d0 := day + EPOCH;
    var n400, d1 := d0 / 146097, d0 % 146097;
    var n100 := Min(d1 / 36524, 3);
    var d2 := d1 - 36524 * n100;
    var n4, d3 := d2 / 1461, d2 % 1461;
    var n1 := Min(d3 / 365, 3);
    assert 0 <= d2 <= 36524 && (n100 < 3 ==> d2 < 36524);
    assert 0 <= n4 <= 24;
    CyclesOfYear(n400, n100, n4, n1);
    if d3 == 1460 {
      LongYearIsLeap(n400, n100, n4);
    }
  }

  lemma {:induction false} MonthOfYearDayCorrect(y: int, yday: int, m0: nat)
    requires m0 <= 11 && DaysBeforeMonth(y, m0) <= yday < DaysBeforeMonth(y, 12)
    ensures var m := MonthOfYearDay(y, yday, m0);
            m <= 11 && DaysBeforeMonth(y, m) <= yday < DaysBeforeMonth(y, m + 1)
    decreases 12 - m0
  {
    if m0 < 11 && yday >= DaysBeforeMonth(y, m0 + 1) {
      MonthOfYearDayCorrect(y, yday, m0 + 1);
    }
  }

  /** The date of a day is a real date, and the day of that date is the day. */
  lemma DateRoundTrip(day: int)
    ensures var t := DateOf(day);
            && 1 <= t.month <= 12
            && 1 <= t.day <= MonthDays(t.year, t.month)
            && DayOf(t.year, t.month, t.day) == day
            && MonthStart(MonthIndex(t.year, t.month)) <= day < MonthStart(MonthIndex(t.year, t.month) + 1)
  {
    hide DaysBeforeYear, Leap;
    var (y, yday) := YearAndDay(day);
    YearAndDayCorrect(day);
    YearTotal(y);
    MonthOfYearDayCorrect(y, yday, 0);
    var m0 := MonthOfYearDay(y, yday, 0);
    Quotient(12 * y + m0, 12, y, m0);
    MonthStep(12 * y + m0);
  }

  /** The other way round: a real date is the date of its day. */
  lemma DayRoundTrip(y: int, m: int, d: int)
    requires 1 <= m <= 12 && 1 <= d <= MonthDays(y, m)
    ensures DateOf(DayOf(y, m, d)) == Date(y, m, d)
  {
    hide DaysBeforeYear, Leap, DateOf, MonthDays;
    var day := DayOf(y, m, d);
    var k := MonthIndex(y, m);
    var t := DateOf(day);
    Quotient(k, 12, y, m - 1);
    MonthStep(k);
    DateRoundTrip(day);
    MonthUnique(day, k, MonthIndex(t.year, t.month));
  }

  /** The source's daysIn: the day before the first of the next month. */
  function DaysIn(y: int, m: int): int {
    DateOf(DayOf(y, m + 1, 0)).day
  }

  lemma DaysInIsMonthDays(y: int, m: int)
    requires 1 <= m <= 12
    ensures DaysIn(y, m) == MonthDays(y, m)
  {
    var k := MonthIndex(y, m);
    Quotient(k, 12, y, m - 1);
    MonthStep(k);
    assert DayOf(y, m + 1, 0) == DayOf(y, m, MonthDays(y, m));
    DayRoundTrip(y, m, MonthDays(y, m));
  }

  /** The source's monthShift, with Go's truncating division. */
  function MonthShift(y: int, m: int, k: int): (int, int) {
    var i := m - 1 + k;
    var ny, nm := y + TruncDiv(i, 12), TruncMod(i, 12);
    if nm < 0 then (ny - 1, nm + 12 + 1) else (ny, nm + 1)
  }

  lemma MonthShiftAdds(y: int, m: int, k: int)
    ensures var (ny, nm) := MonthShift(y, m, k);
            1 <= nm <= 12 && MonthIndex(ny, nm) == MonthIndex(y, m) + k
  {
  }
}
