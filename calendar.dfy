/**
 * Calendar dates as the proleptic Gregorian (year, month, day) triple, with the
 * day count since 1970-01-01 that both Spark's `DateType` and pandas' daily
 * ranges order by.
 */
module Calendar {

  datatype Date = Date(year: int, month: int, day: int)

  predicate IsLeap(year: int) {
    year % 4 == 0 && (year % 100 != 0 || year % 400 == 0)
  }

  function DaysInMonth(year: int, month: int): int {
    if month == 2 then (if IsLeap(year) then 29 else 28)
    else if month == 4 || month == 6 || month == 9 || month == 11 then 30
    else 31
  }

  predicate ValidDate(d: Date) {
    1 <= d.month <= 12 && 1 <= d.day <= DaysInMonth(d.year, d.month)
  }

  /** The calendar day after `d`. */
  function NextDay(d: Date): Date {
    if d.day < DaysInMonth(d.year, d.month) then Date(d.year, d.month, d.day + 1)
    else if d.month < 12 then Date(d.year, d.month + 1, 1)
    else Date(d.year + 1, 1, 1)
  }

  /**
   * The day number of March 1 of `y`. Years are counted from March so that the
   * leap day falls at the end; a 400-year era holds 146097 days.
   */
  function MarchFirst(y: int): int {
    var era := y / 400;
    var yoe := y - era * 400;
    era * 146097 + yoe * 365 + yoe / 4 - yoe / 100 - 719468
  }

  /** Days from March 1 to the first of the month `shiftedMonth` months later (0 is March). */
  function MonthOffset(shiftedMonth: int): int {
    (153 * shiftedMonth + 2) / 5
  }

  /** Days since 1970-01-01 (civil-to-days conversion; floor division throughout). */
  function DayNumber(d: Date): int {
    var y := if d.month <= 2 then d.year - 1 else d.year;
    var shiftedMonth := if d.month > 2 then d.month - 3 else d.month + 9;
    MarchFirst(y) + MonthOffset(shiftedMonth) + d.day - 1
  }

  /** Spark's `dayofweek`: 1 is Sunday, ..., 7 is Saturday (1970-01-01 was a Thursday). */
  function DayOfWeek(d: Date): (w: int)
    ensures 1 <= w <= 7
    ensures (DayNumber(d) - 3) % 7 == 0 <==> w == 1
    ensures (DayNumber(d) - 2) % 7 == 0 <==> w == 7
  {
    (DayNumber(d) + 4) % 7 + 1
  }

  /** Spark's `datediff(end, start)`: whole days from `start` to `end`. */
  function DateDiff(end: Date, start: Date): (n: int)
    ensures end == start ==> n == 0
  {
    DayNumber(end) - DayNumber(start)
  }

  /** Day differences add up along a chain of dates. */
  lemma DateDiffAdds(a: Date, b: Date, c: Date)
    ensures DateDiff(c, a) == DateDiff(c, b) + DateDiff(b, a)
  {
  }

  /** Day numbers count calendar days: the next valid day is numbered one higher. */
  lemma NextDayNumber(d: Date)
    requires ValidDate(d)
    ensures ValidDate(NextDay(d))
    ensures DayNumber(NextDay(d)) == DayNumber(d) + 1
    ensures DateDiff(NextDay(d), d) == 1
  {
    if d.day < DaysInMonth(d.year, d.month) {
    } else if d.month == 2 {
      MarchFollowsFebruary(d.year);
    } else if d.month < 12 {
      MonthStartFollows(d.year, d.month);
    } else {
      assert MonthOffset(9) == 275 && MonthOffset(10) == 306;
    }
  }

  /** Within one shifted year, a month starts the day after the previous month's last day. */
  lemma MonthStartFollows(year: int, month: int)
    requires 1 <= month < 12 && month != 2
    ensures DayNumber(Date(year, month + 1, 1)) == DayNumber(Date(year, month, DaysInMonth(year, month))) + 1
  {
    if month == 1 {
      assert MonthOffset(10) == 306 && MonthOffset(11) == 337;
    } else {
      assert MonthOffset(month - 3) + DaysInMonth(year, month) == MonthOffset(month - 2);
    }
  }

  /** March 1 follows the last day of February, across the shifted-year and era boundaries. */
  lemma MarchFollowsFebruary(year: int)
    ensures DayNumber(Date(year, 3, 1)) == DayNumber(Date(year, 2, DaysInMonth(year, 2))) + 1
  {
    assert MonthOffset(11) == 337 && MonthOffset(0) == 0;
    ShiftedYearLength(year);
  }

  /** The March-to-February year ending in `year`'s February has 366 days when `year` is leap. */
  lemma ShiftedYearLength(year: int)
    ensures MarchFirst(year) == MarchFirst(year - 1) + 365 + (if IsLeap(year) then 1 else 0)
  {
    var y := year - 1;
    var era := y / 400;
    var yoe := y - era * 400;
    if yoe < 399 {
      DivMod400(year, era, yoe + 1);
      LeapWithinEra(year, era, yoe);
      YearOfEraStep(yoe);
    } else {
      DivMod400(year, era + 1, 0);
      DivMod4(year, 100 * era + 100, 0);
    }
  }

  lemma LeapWithinEra(year: int, era: int, yoe: int)
    requires 0 <= yoe < 399 && year == era * 400 + yoe + 1
    ensures IsLeap(year) <==> (yoe + 1) % 4 == 0 && (yoe + 1) % 100 != 0
  {
    var z := yoe + 1;
    DivMod4(year, 100 * era + z / 4, z % 4);
    DivMod100(year, 4 * era + z / 100, z % 100);
    DivMod400(year, era, z);
  }

  lemma DivMod4(x: int, q: int, r: int)
    requires x == 4 * q + r && 0 <= r < 4
    ensures x / 4 == q && x % 4 == r
  {
  }

  lemma DivMod100(x: int, q: int, r: int)
    requires x == 100 * q + r && 0 <= r < 100
    ensures x / 100 == q && x % 100 == r
  {
  }

  lemma DivMod400(x: int, q: int, r: int)
    requires x == 400 * q + r && 0 <= r < 400
    ensures x / 400 == q && x % 400 == r
  {
  }

  lemma YearOfEraStep(yoe: int)
    requires 0 <= yoe < 399
    ensures (yoe + 1) / 4 - yoe / 4 == if (yoe + 1) % 4 == 0 then 1 else 0
    ensures (yoe + 1) / 100 - yoe / 100 == if (yoe + 1) % 100 == 0 then 1 else 0
  {
  }

  lemma WeekdayStep(n: int)
    ensures (n + 1 + 4) % 7 + 1 == ((n + 4) % 7 + 1) % 7 + 1
  {
  }

  /** The weekday advances by one each day, Saturday wrapping round to Sunday. */
  lemma NextWeekday(d: Date)
    requires ValidDate(d)
    ensures DayOfWeek(NextDay(d)) == DayOfWeek(d) % 7 + 1
  {
    NextDayNumber(d);
    WeekdayStep(DayNumber(d));
  }

  lemma EpochIsDayZero()
    ensures DayNumber(Date(1970, 1, 1)) == 0
    ensures DayOfWeek(Date(1970, 1, 4)) == 1
  {
    assert 1969 / 400 == 4 && 369 / 4 == 92 && 369 / 100 == 3 && MonthOffset(10) == 306;
  }
}
