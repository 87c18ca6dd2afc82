/** The proleptic Gregorian calendar that Go's time package prints. */
module Calendar {
  predicate Leap(y: int) { y % 4 == 0 && (y % 100 != 0 || y % 400 == 0) }

  /** Days from 0000-01-01 to the first day of year y; negative before year 0. */
  function DaysBeforeYear(y: int): int {
    365 * y + (y + 3) / 4 - (y + 99) / 100 + (y + 399) / 400
  }

  lemma {:induction false} FourthYears(y: int)
    ensures (y + 4) / 4 == (y + 3) / 4 + (if y % 4 == 0 then 1 else 0)
  {
  }

  lemma {:induction false} HundredthYears(y: int)
    ensures (y + 100) / 100 == (y + 99) / 100 + (if y % 100 == 0 then 1 else 0)
  {
  }

  lemma {:induction false} FourHundredthYears(y: int)
    ensures (y + 400) / 400 == (y + 399) / 400 + (if y % 400 == 0 then 1 else 0)
  {
  }

  lemma {:induction false} MultiplesNest(y: int)
    ensures y % 400 == 0 ==> y % 100 == 0
    ensures y % 100 == 0 ==> y % 4 == 0
  {
  }

  lemma {:induction false} YearLength(y: int)
    ensures DaysBeforeYear(y + 1) == DaysBeforeYear(y) + (if Leap(y) then 366 else 365)
  {
    FourthYears(y);
    HundredthYears(y);
    FourHundredthYears(y);
    MultiplesNest(y);
  }

  lemma {:induction false} YearsInOrder(y: int, z: int)
    requires y <= z
    ensures DaysBeforeYear(y) <= DaysBeforeYear(z)
    decreases z - y
  {
    if y < z {
      YearLength(y);
      YearsInOrder(y + 1, z);
    }
  }

  /** The year of the 400-year era that day number `doe` falls in, searched upwards from y. */
  function YearInEra(doe: nat, y: nat): (r: nat)
    requires y < 400 && DaysBeforeYear(y) <= doe < 146_097
    ensures r < 400 && DaysBeforeYear(r) <= doe < DaysBeforeYear(r + 1)
    decreases 400 - y
  {
    assert DaysBeforeYear(400) == 146_097;
    if doe < DaysBeforeYear(y + 1) then y else YearInEra(doe, y + 1)
  }

  /** The year of day `doe` of a 400-year era. */
  function YearOfEra(era: int, doe: nat): (y: int)
    requires doe < 146_097
    ensures DaysBeforeYear(y) <= 146_097 * era + doe < DaysBeforeYear(y + 1)
  {
    hide DaysBeforeYear;
    FirstDay();
    YearAcrossEras(era, doe, YearInEra(doe, 0));
    400 * era + YearInEra(doe, 0)
  }

  lemma {:induction false} YearAcrossEras(era: int, doe: nat, y: int)
    requires DaysBeforeYear(y) <= doe < DaysBeforeYear(y + 1)
    ensures DaysBeforeYear(400 * era + y) <= 146_097 * era + doe < DaysBeforeYear(400 * era + y + 1)
  {
    hide DaysBeforeYear;
    EraShift(y, era);
    EraShift(y + 1, era);
    assert 400 * era + (y + 1) == (400 * era + y) + 1;
  }

  /** The year that day number `day` falls in. */
  function YearOf(day: int): (y: int)
    ensures DaysBeforeYear(y) <= day < DaysBeforeYear(y + 1)
  {
    assert day == 146_097 * (day / 146_097) + day % 146_097;
    YearOfEra(day / 146_097, day % 146_097)
  }

  lemma {:induction false} FirstDay()
    ensures DaysBeforeYear(0) == 0
  {
  }

  lemma {:induction false} EraShift(y: int, era: int)
    ensures DaysBeforeYear(400 * era + y) == 146_097 * era + DaysBeforeYear(y)
  {
    assert (400 * era + y + 3) / 4 == 100 * era + (y + 3) / 4;
    assert (400 * era + y + 99) / 100 == 4 * era + (y + 99) / 100;
    assert (400 * era + y + 399) / 400 == era + (y + 399) / 400;
  }

  /** Days of the year before month m; m == 13 gives the length of the year. */
  function DaysBeforeMonth(leap: bool, m: int): int
    requires 1 <= m <= 13
  {
    var common := [0, 31, 59, 90, 120, 151, 181, 212, 243, 273, 304, 334, 365];
    common[m - 1] + if leap && m > 2 then 1 else 0
  }

  function DaysInMonth(y: int, m: int): int
    requires 1 <= m <= 12
  {
    DaysBeforeMonth(Leap(y), m + 1) - DaysBeforeMonth(Leap(y), m)
  }

  function MonthFrom(leap: bool, doy: nat, m: int): (r: int)
    requires 1 <= m <= 12 && DaysBeforeMonth(leap, m) <= doy < DaysBeforeMonth(leap, 13)
    ensures m <= r <= 12 && DaysBeforeMonth(leap, r) <= doy < DaysBeforeMonth(leap, r + 1)
    decreases 12 - m
  {
    if doy < DaysBeforeMonth(leap, m + 1) then m else MonthFrom(leap, doy, m + 1)
  }

  datatype Date = Date(year: int, month: int, day: int)

  predicate ValidDate(d: Date) {
    1 <= d.month <= 12 && 1 <= d.day <= DaysInMonth(d.year, d.month)
  }

  function DayNumber(d: Date): int
    requires ValidDate(d)
  {
    DaysBeforeYear(d.year) + DaysBeforeMonth(Leap(d.year), d.month) + d.day - 1
  }

  function DateOf(day: int): (d: Date)
    ensures ValidDate(d) && DayNumber(d) == day
  {
    var y := YearOf(day);
    YearLength(y);
    var doy := day - DaysBeforeYear(y);
    var m := MonthFrom(Leap(y), doy, 1);
    Date(y, m, doy - DaysBeforeMonth(Leap(y), m) + 1)
  }

  lemma {:induction false} MonthsInOrder(leap: bool, m: int, n: int)
    requires 1 <= m <= n <= 13
    ensures DaysBeforeMonth(leap, m) <= DaysBeforeMonth(leap, n)
  {
  }

  lemma {:induction false} DayWithinYear(d: Date)
    requires ValidDate(d)
    ensures DaysBeforeYear(d.year) <= DayNumber(d) < DaysBeforeYear(d.year + 1)
  {
    YearLength(d.year);
    MonthsInOrder(Leap(d.year), d.month + 1, 13);
  }

  /** Calendar order: by year, then month, then day. */
  predicate Earlier(a: Date, b: Date) {
    || a.year < b.year
    || (a.year == b.year && (a.month < b.month || (a.month == b.month && a.day < b.day)))
  }

  /** Dates are ordered as their day numbers, so they are also determined by them. */
  lemma {:induction false} DatesInOrder(a: Date, b: Date)
    requires ValidDate(a) && ValidDate(b)
    ensures DayNumber(a) < DayNumber(b) <==> Earlier(a, b)
    ensures DayNumber(a) == DayNumber(b) <==> a == b
  {
    DateBefore(a, b);
    DateBefore(b, a);
  }

  lemma {:induction false} DateBefore(a: Date, b: Date)
    requires ValidDate(a) && ValidDate(b)
    ensures Earlier(a, b) ==> DayNumber(a) < DayNumber(b)
  {
    DayWithinYear(a);
    DayWithinYear(b);
    if a.year < b.year {
      YearsInOrder(a.year + 1, b.year);
    } else if Earlier(a, b) && a.month < b.month {
      MonthsInOrder(Leap(a.year), a.month + 1, b.month);
    }
  }
}
