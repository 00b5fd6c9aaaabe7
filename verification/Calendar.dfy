/** The proleptic Gregorian calendar behind the wall-clock decomposition of
    packages/core/src/cron.ts. Days are counted from 1 January 1970. */
module Calendar {

  datatype Date = Date(year: int, month: int, day: int)

  predicate IsLeap(year: int) {
    year % 4 == 0 && (year % 100 != 0 || year % 400 == 0)
  }

  function DaysInMonth(year: int, month: int): int {
    if month == 2 then (if IsLeap(year) then 29 else 28)
    else if month in {4, 6, 9, 11} then 30
    else 31
  }

  predicate ValidDate(d: Date) {
    1 <= d.month <= 12 && 1 <= d.day <= DaysInMonth(d.year, d.month)
  }

  function NextDate(d: Date): Date {
    if d.day < DaysInMonth(d.year, d.month) then Date(d.year, d.month, d.day + 1)
    else if d.month < 12 then Date(d.year, d.month + 1, 1)
    else Date(d.year + 1, 1, 1)
  }

  function PreviousDate(d: Date): Date {
    if d.day > 1 then Date(d.year, d.month, d.day - 1)
    else if d.month > 1 then Date(d.year, d.month - 1, DaysInMonth(d.year, d.month - 1))
    else Date(d.year - 1, 12, 31)
  }

  /** The date of a day, found by walking from the epoch one day at a time. */
  function DateOf(day: int): (d: Date)
    ensures ValidDate(d)
    decreases if day < 0 then -day else day
  {
    if day == 0 then Date(1970, 1, 1)
    else if day > 0 then NextDate(DateOf(day - 1))
    else PreviousDate(DateOf(day + 1))
  }

  /** 1 January 1970 was a Thursday; Sunday is 0. */
  function WeekdayOf(day: int): int {
    (day + 4) % 7
  }

  /** Days before the March-based year `y`, up to a constant. */
  function YearStart(y: int): int {
    365 * y + y / 4 - y / 100 + y / 400
  }

  /** The year a date belongs to when years begin on 1 March. */
  function MarchYear(d: Date): int {
    if d.month <= 2 then d.year - 1 else d.year
  }

  /** Days from 1 March to the first of a month. */
  function MonthStart(month: int): int {
    match month
    case 3 => 0
    case 4 => 31
    case 5 => 61
    case 6 => 92
    case 7 => 122
    case 8 => 153
    case 9 => 184
    case 10 => 214
    case 11 => 245
    case 12 => 275
    case 1 => 306
    case _ => 337
  }

  /** Days since 1 March. */
  function DayOfYear(d: Date): int {
    MonthStart(d.month) + d.day - 1
  }

  /** Closed form of the day count. */
  function DayNumber(d: Date): int {
    YearStart(MarchYear(d)) + DayOfYear(d) - 719468
  }

  lemma YearLength(y: int)
    ensures YearStart(y + 1) == YearStart(y) + 365 + (if IsLeap(y + 1) then 1 else 0)
  {
    var z := y + 1;
    assert z / 4 == y / 4 + (if z % 4 == 0 then 1 else 0);
    assert z / 100 == y / 100 + (if z % 100 == 0 then 1 else 0);
    assert z / 400 == y / 400 + (if z % 400 == 0 then 1 else 0);
    assert z % 400 == 0 ==> z % 100 == 0;
    assert z % 100 == 0 ==> z % 4 == 0;
  }

  lemma NextDayNumber(d: Date)
    requires ValidDate(d)
    ensures DayNumber(NextDate(d)) == DayNumber(d) + 1
    ensures ValidDate(NextDate(d)) && PreviousDate(NextDate(d)) == d
  {
    hide YearStart;
    if d.day == DaysInMonth(d.year, d.month) {
      if d.month == 2 {
        YearLength(d.year - 1);
      } else {
        assert d.month in {1, 3, 4, 5, 6, 7, 8, 9, 10, 11, 12};
      }
    }
  }

  lemma PreviousDayNumber(d: Date)
    requires ValidDate(d)
    ensures DayNumber(PreviousDate(d)) == DayNumber(d) - 1
    ensures ValidDate(PreviousDate(d)) && NextDate(PreviousDate(d)) == d
  {
    hide DayNumber, IsLeap;
    NextDayNumber(PreviousDate(d));
  }

  /** Walking the calendar and counting days are inverse to one another. */
  lemma {:induction false} DayNumberOfDate(day: int)
    ensures DayNumber(DateOf(day)) == day
    decreases if day < 0 then -day else day
  {
    if day > 0 {
      DayNumberOfDate(day - 1);
      NextDayNumber(DateOf(day - 1));
    } else if day < 0 {
      DayNumberOfDate(day + 1);
      PreviousDayNumber(DateOf(day + 1));
    }
  }

  lemma {:induction false} YearsAreDisjoint(y: int, z: int)
    requires y < z
    ensures YearStart(y + 1) <= YearStart(z)
    decreases z - y
  {
    if y + 1 < z {
      YearsAreDisjoint(y, z - 1);
      YearLength(z - 1);
    }
  }

  lemma DayOfYearBounds(d: Date)
    requires ValidDate(d)
    ensures 0 <= DayOfYear(d) < 365 + (if IsLeap(MarchYear(d) + 1) then 1 else 0)
  {
  }

  lemma SameDayOfYear(a: Date, b: Date)
    requires ValidDate(a) && ValidDate(b) && MarchYear(a) == MarchYear(b) && DayOfYear(a) == DayOfYear(b)
    ensures a == b
  {
  }

  /** Two calendar dates with one day number are one date. */
  lemma DayNumberInjective(a: Date, b: Date)
    requires ValidDate(a) && ValidDate(b) && DayNumber(a) == DayNumber(b)
    ensures a == b
  {
    DayOfYearBounds(a);
    DayOfYearBounds(b);
    YearLength(MarchYear(a));
    YearLength(MarchYear(b));
    if MarchYear(a) < MarchYear(b) {
      YearsAreDisjoint(MarchYear(a), MarchYear(b));
      assert false;
    } else if MarchYear(b) < MarchYear(a) {
      YearsAreDisjoint(MarchYear(b), MarchYear(a));
      assert false;
    } else {
      SameDayOfYear(a, b);
    }
  }

  lemma DateOfDayNumber(d: Date)
    requires ValidDate(d)
    ensures DateOf(DayNumber(d)) == d
  {
    DayNumberOfDate(DayNumber(d));
    DayNumberInjective(DateOf(DayNumber(d)), d);
  }
}
