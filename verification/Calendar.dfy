/**
 The two calendar conversions: days since 1970-01-01 to a civil date, as the
 snapshot writer computes it, and back, as the Docker scanner computes it.
 Each is closed-form arithmetic; the Gregorian calendar they must agree with
 is the leap-year rule of RFC 3339, appendix C, and the length of a month.
 */
module Calendar {
  import opened Base

  datatype Date = Date(year: int, month: int, day: int)

  // ------------------------------------------------- the calendar, by its rules

  predicate Leap(y: int) {
    y % 4 == 0 && (y % 100 != 0 || y % 400 == 0)
  }

  function MonthLength(y: int, m: int): int {
    if m == 2 then (if Leap(y) then 29 else 28)
    else if m == 4 || m == 6 || m == 9 || m == 11 then 30
    else 31
  }

  predicate Valid(date: Date) {
    1 <= date.month <= 12 && 1 <= date.day <= MonthLength(date.year, date.month)
  }

  /** The day after. */
  function Next(date: Date): Date {
    if date.day < MonthLength(date.year, date.month) then date.(day := date.day + 1)
    else if date.month < 12 then Date(date.year, date.month + 1, 1)
    else Date(date.year + 1, 1, 1)
  }

  // ------------------------------------------------------- the two conversions

  /** Days of an era before March 1 of its year `yoe`. */
  function EraDays(yoe: int): int {
    365 * yoe + yoe / 4 - yoe / 100
  }

  /** Which year of the era a day of the era belongs to. */
  function YearOfEra(doe: int): int {
    (doe - doe / 1460 + doe / 36_524 - doe / 146_096) / 365
  }

  /** Days of the March year before its month `mp`. */
  function MonthDays(mp: int): int {
    (153 * mp + 2) / 5
  }

  /** The date of day `doy` of March year `yoe` of era `era`. */
  function Assemble(era: int, yoe: int, doy: int): Date {
    var y := yoe + era * 400;
    var mp := (5 * doy + 2) / 153;
    var d := doy - MonthDays(mp) + 1;
    var m := if mp < 10 then mp + 3 else mp - 9;
    Date(if m <= 2 then y + 1 else y, m, d)
  }

  /**
   Rust's `/` rounds toward zero, which matters only for the first dividend;
   the asserts show that the others are never negative.
   */
  function CivilFromDays(days: int): Date {
    var z := days + 719_468;
    var era := if z >= 0 then z / 146_097 else -((146_096 - z) / 146_097);
    var doe := z - era * 146_097;
    assert 0 <= doe < 146_097 by { EraIsFloor(z); }
    var yoe := YearOfEra(doe);
    var doy := doe - EraDays(yoe);
    assert 0 <= yoe && 0 <= doy by { DayOfYearIsNatural(doe); }
    Assemble(era, yoe, doy)
  }

  /** Days before March 1 of year `y` of the March calendar. */
  function YearDays(y: int): int {
    y / 400 * 146_097 + EraDays(y % 400)
  }

  /** Any numbers are accepted, as in the parser; months from -9 up. */
  function DaysFromCivil(year: int, month: int, day: int): int
    requires month >= -9
  {
    var y := if month <= 2 then year - 1 else year;
    var doy := MonthDays((month + 9) % 12) + day - 1;
    YearDays(y) + doy - 719_468
  }

  function Days(date: Date): int
    requires Valid(date)
  {
    DaysFromCivil(date.year, date.month, date.day)
  }

  // --------------------------------------------------------------- the pieces

  lemma DivIs(a: int, b: int, q: int)
    requires b > 0 && b * q <= a < b * q + b
    ensures a / b == q
  {
    var k := a / b - q;
    assert b * k == a - b * q - a % b;
    assert k >= 1 ==> b * k >= b;
    assert k <= -1 ==> b * k <= -b;
  }

  /** The guard for negative days makes the truncating division a floor. */
  lemma EraIsFloor(z: int)
    ensures z < 0 ==> -((146_096 - z) / 146_097) == z / 146_097
  {
    if z < 0 {
      var q := z / 146_097;
      DivIs(146_096 - z, 146_097, -q);
    }
  }

  /** A year of the March calendar ends with the February of the next one. */
  function YearLength(yoe: int): int {
    if Leap(yoe + 1) then 366 else 365
  }

  lemma EraStep(yoe: int)
    requires 0 <= yoe < 400
    ensures yoe < 399 ==> EraDays(yoe + 1) == EraDays(yoe) + YearLength(yoe)
    ensures yoe == 399 ==> 146_097 == EraDays(yoe) + YearLength(yoe)
  {
    if yoe < 399 {
      DivIs(yoe + 1, 4, if (yoe + 1) % 4 == 0 then yoe / 4 + 1 else yoe / 4);
      DivIs(yoe + 1, 100, if (yoe + 1) % 100 == 0 then yoe / 100 + 1 else yoe / 100);
    }
  }

  lemma YearStep(y: int)
    ensures YearDays(y + 1) == YearDays(y) + YearLength(y)
  {
    var era, yoe := y / 400, y % 400;
    LeapByEra(era, yoe + 1);
    EraStep(yoe);
    if yoe < 399 {
      YearDaysByEra(era, yoe + 1);
    } else {
      YearDaysByEra(era + 1, 0);
    }
  }

  lemma LeapByEra(era: int, yoe: int)
    ensures Leap(400 * era + yoe) == Leap(yoe)
  {
    assert (400 * era + yoe) % 4 == yoe % 4 by { DivIs(400 * era + yoe, 4, 100 * era + yoe / 4); }
    assert (400 * era + yoe) % 100 == yoe % 100 by { DivIs(400 * era + yoe, 100, 4 * era + yoe / 100); }
    assert (400 * era + yoe) % 400 == yoe % 400 by { DivIs(400 * era + yoe, 400, era + yoe / 400); }
  }

  /** The closed form finds the year, for every day of every year of an era. */
  lemma YearOfEraIs(yoe: int, doy: int)
    requires 0 <= yoe < 400 && 0 <= doy < YearLength(yoe)
    ensures 0 <= EraDays(yoe) + doy < 146_097
    ensures YearOfEra(EraDays(yoe) + doy) == yoe
  {
    var c, q, r := yoe / 100, yoe % 100 / 4, yoe % 4;
    QuarterOf(yoe, c, q, r);
    LastDay(yoe, c, q, r);
    YearOfParts(c, q, r, doy);
  }

  lemma QuarterOf(yoe: int, c: int, q: int, r: int)
    requires 0 <= yoe < 400 && c == yoe / 100 && q == yoe % 100 / 4 && r == yoe % 4
    ensures yoe == 100 * c + 4 * q + r && 0 <= c < 4 && 0 <= q < 25 && 0 <= r < 4
    ensures EraDays(yoe) == 36_524 * c + 1461 * q + 365 * r
  {
    DivIs(yoe, 4, 25 * c + q);
  }

  /** The four corrections of the closed form, one by one. */
  lemma YearOfParts(c: int, q: int, r: int, doy: int)
    requires 0 <= c < 4 && 0 <= q < 25 && 0 <= r < 4 && 0 <= doy <= 365
    requires doy == 365 ==> r == 3 && (q == 24 ==> c == 3)
    ensures 0 <= 36_524 * c + 1461 * q + 365 * r + doy < 146_097
    ensures YearOfEra(36_524 * c + 1461 * q + 365 * r + doy) == 100 * c + 4 * q + r
  {
    var doe := 36_524 * c + 1461 * q + 365 * r + doy;
    var e := if 24 * c + q + 365 * r + doy >= 1460 then 1 else 0;
    var last := if doy == 365 && q == 24 then 1 else 0;
    assert doe / 1460 == 25 * c + q + e by { DivIs(doe, 1460, 25 * c + q + e); }
    assert doe / 36_524 == c + last by { DivIs(doe, 36_524, c + last); }
    assert doe / 146_096 == last by { DivIs(doe, 146_096, last); }
    var numerator := 365 * (100 * c + 4 * q + r) + doy - e;
    assert doe - doe / 1460 + doe / 36_524 - doe / 146_096 == numerator;
    DivIs(numerator, 365, 100 * c + 4 * q + r);
  }

  /** A 366th day needs the last year of four; of a century, the last century. */
  lemma LastDay(yoe: int, c: int, q: int, r: int)
    requires 0 <= yoe < 400 && yoe == 100 * c + 4 * q + r && 0 <= q < 25 && 0 <= r < 4 && 0 <= c < 4
    ensures YearLength(yoe) == 366 ==> r == 3 && (q == 24 ==> c == 3)
  {
    if Leap(yoe + 1) {
      DivIs(yoe + 1, 4, 25 * c + q + (if r == 3 then 1 else 0));
      if q == 24 && r == 3 {
        DivIs(yoe + 1, 100, c + 1);
        DivIs(yoe + 1, 400, if c == 3 then 1 else 0);
      }
    }
  }

  lemma MonthStep(mp: int)
    requires 0 <= mp <= 10
    ensures MonthDays(mp + 1) - MonthDays(mp) == if mp == 1 || mp == 3 || mp == 6 || mp == 8 then 30 else 31
  {
  }

  lemma MonthOfDay(mp: int, k: int)
    requires 0 <= mp <= 11 && 0 <= k < (if mp == 11 then 29 else MonthDays(mp + 1) - MonthDays(mp))
    ensures (5 * (MonthDays(mp) + k) + 2) / 153 == mp
  {
    DivIs(5 * (MonthDays(mp) + k) + 2, 153, mp);
  }

  /** Every day of a year is a day of one of its months. */
  lemma DayHasMonth(doy: int, mp: int)
    requires 0 <= doy < 366 && mp == (5 * doy + 2) / 153
    ensures 0 <= mp <= 11 && 0 <= doy - MonthDays(mp)
    ensures mp < 11 ==> doy < MonthDays(mp + 1)
  {
  }

  // ------------------------------------------------------------- main results

  lemma CivilOf(era: int, yoe: int, doy: int)
    requires 0 <= yoe < 400 && 0 <= doy < YearLength(yoe)
    ensures CivilFromDays(146_097 * era + EraDays(yoe) + doy - 719_468) == Assemble(era, yoe, doy)
  {
    YearOfEraIs(yoe, doy);
    var z := 146_097 * era + (EraDays(yoe) + doy);
    EraIsFloor(z);
    DivIs(z, 146_097, era);
    CivilIs(z - 719_468, era, yoe, doy);
  }

  /** The formula, step by step, once the era and the year are known. */
  lemma CivilIs(days: int, era: int, yoe: int, doy: int)
    requires var z := days + 719_468;
             && era == (if z >= 0 then z / 146_097 else -((146_096 - z) / 146_097))
             && YearOfEra(z - era * 146_097) == yoe
             && doy == z - era * 146_097 - EraDays(yoe)
    ensures CivilFromDays(days) == Assemble(era, yoe, doy)
  {
  }

  /** Every day number is one day of one year of one era. */
  lemma Locate(days: int) returns (era: int, yoe: int, doy: int)
    ensures 0 <= yoe < 400 && 0 <= doy < YearLength(yoe)
    ensures days == 146_097 * era + EraDays(yoe) + doy - 719_468
  {
    var z := days + 719_468;
    era := z / 146_097;
    yoe := YearBefore(z % 146_097, 399);
    doy := z % 146_097 - EraDays(yoe);
  }

  lemma {:induction false} YearBefore(doe: int, most: int) returns (yoe: int)
    requires 0 <= most < 400 && 0 <= doe < EraDays(most) + YearLength(most)
    ensures 0 <= yoe < 400 && EraDays(yoe) <= doe < EraDays(yoe) + YearLength(yoe)
    decreases most
  {
    if EraDays(most) <= doe {
      yoe := most;
    } else {
      EraStep(most - 1);
      yoe := YearBefore(doe, most - 1);
    }
  }

  lemma DayOfYearIsNatural(doe: int)
    requires 0 <= doe < 146_097
    ensures 0 <= YearOfEra(doe) < 400 && EraDays(YearOfEra(doe)) <= doe
  {
    var yoe := YearBefore(doe, 399);
    YearOfEraIs(yoe, doe - EraDays(yoe));
  }

  /** Dates are valid, and the parser's formula undoes the writer's. */
  lemma CivilIsValid(days: int)
    ensures Valid(CivilFromDays(days)) && Days(CivilFromDays(days)) == days
  {
    var era, yoe, doy := Locate(days);
    CivilOf(era, yoe, doy);
    AssembledIsValid(era, yoe, doy);
  }

  lemma AssembledIsValid(era: int, yoe: int, doy: int)
    requires 0 <= yoe < 400 && 0 <= doy < YearLength(yoe)
    ensures Valid(Assemble(era, yoe, doy))
    ensures Days(Assemble(era, yoe, doy)) == 146_097 * era + EraDays(yoe) + doy - 719_468
  {
    var mp := (5 * doy + 2) / 153;
    DayHasMonth(doy, mp);
    if mp < 11 {
      MonthStep(mp);
    }
    LeapByEra(era, yoe + 1);
    var date := Assemble(era, yoe, doy);
    assert (date.month + 9) % 12 == mp;
    YearDaysByEra(era, yoe);
  }

  lemma YearDaysByEra(era: int, yoe: int)
    requires 0 <= yoe < 400
    ensures YearDays(400 * era + yoe) == 146_097 * era + EraDays(yoe)
  {
    DivIs(400 * era + yoe, 400, era);
  }

  /** The March month of a date and its place in it. */
  lemma MarchMonth(date: Date, mp: int)
    requires Valid(date) && mp == (date.month + 9) % 12
    ensures 0 <= mp <= 11 && date.month == (if mp < 10 then mp + 3 else mp - 9) && (date.month <= 2 <==> mp >= 10)
    ensures mp < 11 ==> date.day <= MonthDays(mp + 1) - MonthDays(mp)
    ensures mp == 11 ==> date.day <= (if Leap(date.year) then 29 else 28)
  {
    if mp < 11 {
      MonthStep(mp);
    }
  }

  /** And the writer's formula undoes the parser's, on every valid date. */
  lemma DaysIsInverse(date: Date)
    requires Valid(date)
    ensures CivilFromDays(Days(date)) == date
  {
    var y := if date.month <= 2 then date.year - 1 else date.year;
    var mp := (date.month + 9) % 12;
    MarchMonth(date, mp);
    LeapByEra(y / 400, y % 400 + 1);
    DayFitsYear(mp, date.day, y % 400);
    AssembleIs(y / 400, y % 400, mp, date.day);
    DateOfDay(y / 400, y % 400, MonthDays(mp) + date.day - 1, Days(date), date);
  }

  lemma DateOfDay(era: int, yoe: int, doy: int, days: int, date: Date)
    requires 0 <= yoe < 400 && 0 <= doy < YearLength(yoe)
    requires days == 146_097 * era + EraDays(yoe) + doy - 719_468
    requires Assemble(era, yoe, doy) == date
    ensures CivilFromDays(days) == date
  {
    CivilOf(era, yoe, doy);
  }

  lemma AssembleIs(era: int, yoe: int, mp: int, day: int)
    requires 0 <= mp <= 11 && 1 <= day <= (if mp == 11 then 29 else MonthDays(mp + 1) - MonthDays(mp))
    ensures var date := Assemble(era, yoe, MonthDays(mp) + day - 1);
            && date.day == day
            && date.month == (if mp < 10 then mp + 3 else mp - 9)
            && date.year == era * 400 + yoe + (if mp < 10 then 0 else 1)
  {
    MonthOfDay(mp, day - 1);
  }

  lemma DayFitsYear(mp: int, day: int, yoe: int)
    requires 0 <= mp <= 11 && 1 <= day
    requires if mp == 11 then day <= (if Leap(yoe + 1) then 29 else 28) else day <= MonthDays(mp + 1) - MonthDays(mp)
    ensures 0 <= MonthDays(mp) + day - 1 < YearLength(yoe)
  {
  }

  /** The first of a month follows the last of the one before it. */
  lemma MonthEnds(y: int, m: int)
    requires 1 <= m < 12
    ensures DaysFromCivil(y, m + 1, 1) == DaysFromCivil(y, m, MonthLength(y, m)) + 1
  {
    if m == 2 {
      YearStep(y - 1);
    } else {
      MonthStep((m + 9) % 12);
      assert (m + 10) % 12 == (m + 9) % 12 + 1;
    }
  }

  lemma YearEnds(y: int)
    ensures DaysFromCivil(y + 1, 1, 1) == DaysFromCivil(y, 12, 31) + 1
  {
  }

  lemma NextIsLater(date: Date)
    requires Valid(date)
    ensures Valid(Next(date)) && Days(Next(date)) == Days(date) + 1
  {
    if date.day == MonthLength(date.year, date.month) {
      if date.month < 12 {
        MonthEnds(date.year, date.month);
      } else {
        YearEnds(date.year);
      }
    }
  }

  lemma DateOn(days: int, date: Date)
    requires Valid(date) && Days(date) == days
    ensures CivilFromDays(days) == date
  {
    DaysIsInverse(date);
  }

  lemma DateAfter(date: Date, days: int)
    requires Valid(date) && Days(date) == days
    ensures CivilFromDays(days + 1) == Next(date)
  {
    NextIsLater(date);
    DateOn(days + 1, Next(date));
  }

  /** Day 0 is the Unix epoch. */
  lemma EpochIsDayZero()
    ensures CivilFromDays(0) == Date(1970, 1, 1)
  {
    assert EraDays(369) == 134_774 && MonthDays(10) == 306;
    DateOfDay(4, 369, 306, 0, Date(1970, 1, 1));
  }

  /**
   Gregorian correctness: the date of each day number, before or after the
   epoch, is followed by the date of the next one.
   */
  lemma CivilFollowsTheCalendar(days: int)
    ensures CivilFromDays(days + 1) == Next(CivilFromDays(days))
  {
    CivilIsValid(days);
    DateAfter(CivilFromDays(days), days);
  }

  /** Years of the calendar are at least 365 days apart. */
  lemma {:induction false} YearsGrow(a: int, b: int)
    requires a <= b
    ensures YearDays(a) + 365 * (b - a) <= YearDays(b)
    decreases b - a
  {
    if a < b {
      YearsGrow(a, b - 1);
      YearStep(b - 1);
    }
  }
}
