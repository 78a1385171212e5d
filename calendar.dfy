/** The calendar's day grid: blank cells up to the weekday of the 1st, then one cell per day (App.tsx, lines 261-268). */
module Calendar {
  import opened Wrappers

  /** Gregorian leap years, extended backwards (proleptic), as JavaScript dates are. */
  predicate IsLeapYear(y: int) {
    (y % 4 == 0 && y % 100 != 0) || y % 400 == 0
  }

  /** Length of month `month` (0 = January, as `getMonth` counts) of year `year`. */
  function DaysInMonth(year: int, month: int): (n: int)
    requires 0 <= month < 12
    ensures 28 <= n <= 31
    ensures month == 1 ==> (n == 29 <==> IsLeapYear(year))
  {
    if month == 1 then (if IsLeapYear(year) then 29 else 28)
    else if month == 3 || month == 5 || month == 8 || month == 10 then 30
    else 31
  }

  function YearLength(year: int): int {
    DaysInMonth(year, 0) + DaysInMonth(year, 1) + DaysInMonth(year, 2) + DaysInMonth(year, 3) +
    DaysInMonth(year, 4) + DaysInMonth(year, 5) + DaysInMonth(year, 6) + DaysInMonth(year, 7) +
    DaysInMonth(year, 8) + DaysInMonth(year, 9) + DaysInMonth(year, 10) + DaysInMonth(year, 11)
  }

  /** The twelve months add up to the Gregorian year. */
  lemma YearLengthIsGregorian(year: int)
    ensures YearLength(year) == if IsLeapYear(year) then 366 else 365
  {
  }

  /** Days counted from a fixed origin to the 1st of January of `y` + 1, up to a multiple of 7. */
  function YearOffset(y: int): int {
    y + y / 4 - y / 100 + y / 400
  }

  /** Day of the week of a date, 0 = Sunday as `getDay` answers. */
  function Weekday(year: int, month: int, day: int): (w: int)
    requires 0 <= month < 12
    ensures 0 <= w < 7
  {
    var y := if month < 2 then year - 1 else year;
    (YearOffset(y) + MonthShift(month) + day) % 7
  }

  lemma DivStep4(y: int)
    ensures y / 4 - (y - 1) / 4 == if y % 4 == 0 then 1 else 0
  {
  }

  lemma DivStep100(y: int)
    ensures y / 100 - (y - 1) / 100 == if y % 100 == 0 then 1 else 0
  {
  }

  lemma DivStep400(y: int)
    ensures y / 400 - (y - 1) / 400 == if y % 400 == 0 then 1 else 0
  {
  }

  /** From one year to the next the offset grows by the length of the year, less 364. */
  lemma YearOffsetStep(y: int)
    ensures YearOffset(y) - YearOffset(y - 1) == if IsLeapYear(y) then 2 else 1
  {
    DivStep4(y);
    DivStep100(y);
    DivStep400(y);
    assert y % 400 == 0 ==> y % 100 == 0 && y % 4 == 0;
    assert y % 100 == 0 ==> y % 4 == 0;
  }

  lemma ModCongruent(a: int, b: int)
    requires (a - b) % 7 == 0
    ensures a % 7 == b % 7
  {
  }

  lemma ModAdd(x: int, n: int)
    ensures ((x % 7) + n) % 7 == (x + n) % 7
  {
  }

  /** The weekday shift of each month's 1st against the offset of the year it is counted from. */
  function MonthShift(month: int): int
    requires 0 <= month < 12
  {
    [0, 3, 2, 5, 0, 3, 5, 1, 4, 6, 2, 4][month]
  }

  lemma WeekdayOfFirst(year: int, month: int)
    requires 0 <= month < 12
    ensures Weekday(year, month, 1) == (YearOffset(if month < 2 then year - 1 else year) + MonthShift(month) + 1) % 7
  {
  }

  /** The 1st of a month falls as many weekdays after the 1st of the previous month as that month has days. */
  lemma {:induction false} WeekdayAdvances(year: int, month: int)
    requires 0 <= month < 12
    ensures month < 11 ==> Weekday(year, month + 1, 1) == (Weekday(year, month, 1) + DaysInMonth(year, month)) % 7
    ensures month == 11 ==> Weekday(year + 1, 0, 1) == (Weekday(year, 11, 1) + DaysInMonth(year, 11)) % 7
  {
    var n := DaysInMonth(year, month);
    var y := if month < 2 then year - 1 else year;
    var x := YearOffset(y) + MonthShift(month) + 1;
    WeekdayOfFirst(year, month);
    ModAdd(x, n);
    if month == 11 {
      WeekdayOfFirst(year + 1, 0);
      ModCongruent(YearOffset(year) + MonthShift(0) + 1, x + n);
    } else {
      WeekdayOfFirst(year, month + 1);
      var y' := if month + 1 < 2 then year - 1 else year;
      if month == 1 {
        YearOffsetStep(year);
      }
      ModCongruent(YearOffset(y') + MonthShift(month + 1) + 1, x + n);
    }
  }

  /** `new Date(y, m, d)` reads a year from 0 to 99 as 1900 + y. */
  function ConstructedYear(year: int): int {
    if 0 <= year <= 99 then 1900 + year else year
  }

  /** Blank cells and month length as App.tsx computes them, through `new Date(year, month, ...)`. */
  function LayoutAsWritten(year: int, month: int): (r: (nat, nat))
    requires 0 <= month < 12
    ensures r.0 < 7 && 28 <= r.1 <= 31
  {
    (Weekday(ConstructedYear(year), month, 1), DaysInMonth(ConstructedYear(year), month))
  }

  /** Blank cells and month length of the month actually viewed. */
  function Layout(year: int, month: int): (r: (nat, nat))
    requires 0 <= month < 12
    ensures r.0 < 7 && 28 <= r.1 <= 31
  {
    (Weekday(year, month, 1), DaysInMonth(year, month))
  }

  /** The two agree outside the years 0 to 99 ... */
  lemma LayoutAgreesFrom100(year: int, month: int)
    requires 0 <= month < 12 && !(0 <= year <= 99)
    ensures LayoutAsWritten(year, month) == Layout(year, month)
  {
  }

  /** ... but January of year 1 starts on a Monday, and the grid as written starts it on a Tuesday (that of 1901),
      while February of year 0 has 29 days and the grid as written shows 28 (those of 1900). */
  lemma LayoutAsWrittenWrongBefore100()
    ensures Layout(1, 0) == (1, 31) && LayoutAsWritten(1, 0) == (2, 31)
    ensures Layout(0, 1).1 == 29 && LayoutAsWritten(0, 1).1 == 28
  {
  }

  /** The cells of the month grid: `startDay` blanks (None), then days 1 to `length`. */
  method MonthDays(startDay: nat, length: nat) returns (days: seq<Option<nat>>)
    ensures |days| == startDay + length
    ensures forall i :: 0 <= i < startDay ==> days[i] == None
    ensures forall k :: 1 <= k <= length ==> days[startDay + k - 1] == Some(k)
  {
    days := [];
    var i := 0;
    while i < startDay
      invariant 0 <= i <= startDay && |days| == i
      invariant forall j :: 0 <= j < i ==> days[j] == None
    {
      days := days + [None];
      i := i + 1;
    }
    var d := 1;
    while d <= length
      invariant 1 <= d <= length + 1 && |days| == startDay + d - 1
      invariant forall j :: 0 <= j < startDay ==> days[j] == None
      invariant forall k :: 1 <= k < d ==> days[startDay + k - 1] == Some(k)
    {
      days := days + [Some(d)];
      d := d + 1;
    }
  }
}
