/**
 * JavaScript `Date` arithmetic, as ECMA-262 (section 21.4.1, "Time Values and
 * Time Range") defines it, counted in whole days. A date value is the number of
 * the local calendar day (days since 1970-01-01); the modelled code only ever
 * builds dates at local midnight and moves them by whole days, so the time of
 * day never enters.
 */
module Calendar {

  /** The clip bound: a time value may lie at most 8.64e15 ms, that is 1e8 days, from the epoch. */
  const MaxDay: int := 100_000_000

  /** A `Date` object: invalid (its time value is NaN) or the local day `day`. */
  datatype JsDate = Invalid | At(day: int)

  /** A calendar date by its local fields; `month` counts from 1. */
  datatype Ymd = Ymd(year: int, month: int, day: int)

  predicate IsLeap(y: int) {
    y % 4 == 0 && (y % 100 != 0 || y % 400 == 0)
  }

  function DaysInYear(y: int): int {
    if IsLeap(y) then 366 else 365
  }

  /** ECMA-262 DayFromYear: the day number of January 1st of year `y`. */
  function DayFromYear(y: int): int {
    365 * (y - 1970) + (y - 1969) / 4 - (y - 1901) / 100 + (y - 1601) / 400
  }

  /** Days in the months before month index `m` (0 = January) of a common year. */
  function CommonDaysBefore(m: int): int
    requires 0 <= m <= 12
  {
    if m == 0 then 0 else if m == 1 then 31 else if m == 2 then 59 else if m == 3 then 90
    else if m == 4 then 120 else if m == 5 then 151 else if m == 6 then 181
    else if m == 7 then 212 else if m == 8 then 243 else if m == 9 then 273
    else if m == 10 then 304 else if m == 11 then 334 else 365
  }

  /** Days of year `y` before the first day of month index `m`. */
  function MonthStart(y: int, m: int): int
    requires 0 <= m <= 12
  {
    CommonDaysBefore(m) + (if IsLeap(y) && m >= 2 then 1 else 0)
  }

  /** Number of days of month `month` (1 to 12) of year `y`. */
  function DaysInMonth(y: int, month: int): (n: int)
    requires 1 <= month <= 12
    ensures 28 <= n <= 31
    ensures n == 29 <==> month == 2 && IsLeap(y)
    ensures n == 28 <==> month == 2 && !IsLeap(y)
    ensures n == 30 <==> month == 4 || month == 6 || month == 9 || month == 11
  {
    MonthStart(y, month) - MonthStart(y, month - 1)
  }

  predicate ValidYmd(x: Ymd) {
    1 <= x.month <= 12 && 1 <= x.day <= DaysInMonth(x.year, x.month)
  }

  /**
   * ECMA-262 MakeDay(year, month, date): month index and day of month may lie
   * outside their ranges and roll over into neighbouring months and years.
   */
  function MakeDay(year: int, month: int, date: int): int {
    var ym := year + month / 12;
    var mn := month % 12;
    DayFromYear(ym) + MonthStart(ym, mn) + date - 1
  }

  /** With a month index inside the year, `MakeDay` is a plain sum. */
  lemma MakeDayInYear(y: int, m: int, dt: int)
    requires 0 <= m <= 11
    ensures MakeDay(y, m, dt) == DayFromYear(y) + MonthStart(y, m) + dt - 1
  {
    assert m / 12 == 0 && m % 12 == m;
  }

  /** Moving the day of month by `n` moves the day by `n`. */
  lemma MakeDayShift(y: int, m: int, dt: int, n: int)
    ensures MakeDay(y, m, dt + n) == MakeDay(y, m, dt) + n
  {
  }

  lemma Step4(y: int)
    ensures (y - 1968) / 4 - (y - 1969) / 4 == if y % 4 == 0 then 1 else 0
  {
    var q, r := (y - 1969) / 4, (y - 1969) % 4;
    if r == 3 {
      assert y == 4 * (q + 493);
    } else {
      assert y - 1968 == 4 * q + (r + 1) && y == 4 * (q + 492) + (r + 1);
    }
  }

  lemma Step100(y: int)
    ensures (y - 1900) / 100 - (y - 1901) / 100 == if y % 100 == 0 then 1 else 0
  {
    var q, r := (y - 1901) / 100, (y - 1901) % 100;
    if r == 99 {
      assert y == 100 * (q + 20);
    } else {
      assert y - 1900 == 100 * q + (r + 1) && y == 100 * (q + 19) + (r + 1);
    }
  }

  lemma Step400(y: int)
    ensures (y - 1600) / 400 - (y - 1601) / 400 == if y % 400 == 0 then 1 else 0
  {
    var q, r := (y - 1601) / 400, (y - 1601) % 400;
    if r == 399 {
      assert y == 400 * (q + 5);
    } else {
      assert y - 1600 == 400 * q + (r + 1) && y == 400 * (q + 4) + (r + 1);
    }
  }

  lemma Mod400(y: int)
    requires y % 400 == 0
    ensures y % 100 == 0
  {
    var q := y / 400;
    assert y == 100 * (4 * q);
  }

  lemma Mod100(y: int)
    requires y % 100 == 0
    ensures y % 4 == 0
  {
    var q := y / 100;
    assert y == 4 * (25 * q);
  }

  /** The growth of the three leap-day counts of `DayFromYear` over one year. */
  lemma LeapDayGrowth(y: int)
    ensures (y - 1968) / 4 - (y - 1969) / 4 - ((y - 1900) / 100 - (y - 1901) / 100)
      + ((y - 1600) / 400 - (y - 1601) / 400) == DaysInYear(y) - 365
  {
    Step4(y);
    Step100(y);
    Step400(y);
    if y % 400 == 0 {
      Mod400(y);
    }
    if y % 100 == 0 {
      Mod100(y);
    }
  }

  /** Consecutive New Year's days lie a year's length apart. */
  lemma YearLength(y: int)
    ensures DayFromYear(y + 1) == DayFromYear(y) + DaysInYear(y)
  {
    LeapDayGrowth(y);
  }

  lemma {:induction false} DayFromYearGrows(a: int, b: int)
    requires a <= b
    ensures DayFromYear(a) + 365 * (b - a) <= DayFromYear(b) <= DayFromYear(a) + 366 * (b - a)
    decreases b - a
  {
    if a < b {
      DayFromYearGrows(a, b - 1);
      YearLength(b - 1);
    }
  }

  function YearUp(t: int, y: int): (r: int)
    requires DayFromYear(y) <= t
    ensures DayFromYear(r) <= t < DayFromYear(r + 1)
    decreases t - DayFromYear(y)
  {
    YearLength(y);
    if DayFromYear(y + 1) <= t then YearUp(t, y + 1) else y
  }

  function YearDown(t: int, y: int): (r: int)
    requires t < DayFromYear(y)
    ensures DayFromYear(r) <= t < DayFromYear(r + 1)
    decreases DayFromYear(y) - t
  {
    YearLength(y - 1);
    if DayFromYear(y - 1) <= t then y - 1 else YearDown(t, y - 1)
  }

  /** ECMA-262 YearFromTime, on day numbers. */
  function YearFromDay(t: int): (y: int)
    ensures DayFromYear(y) <= t < DayFromYear(y + 1)
  {
    if 0 <= t then YearUp(t, 1970) else YearDown(t, 1970)
  }

  /** Two years that both contain day `t` are the same year. */
  lemma OneYear(t: int, y: int, z: int)
    requires DayFromYear(y) <= t < DayFromYear(y + 1)
    requires DayFromYear(z) <= t < DayFromYear(z + 1)
    ensures y == z
  {
    if z < y {
      DayFromYearGrows(z + 1, y);
    } else if y < z {
      DayFromYearGrows(y + 1, z);
    }
  }

  /** Only one year contains a given day. */
  lemma YearUnique(t: int, y: int)
    requires DayFromYear(y) <= t < DayFromYear(y + 1)
    ensures YearFromDay(t) == y
  {
    OneYear(t, y, YearFromDay(t));
  }

  function MonthSearch(y: int, d: int, m: int): (r: int)
    requires 0 <= m <= 11 && 0 <= d < MonthStart(y, m + 1)
    ensures 0 <= r <= m && MonthStart(y, r) <= d < MonthStart(y, r + 1)
  {
    if MonthStart(y, m) <= d || m == 0 then m else MonthSearch(y, d, m - 1)
  }

  /** The month and day of month of day `d` (counted from 0) of year `y`. */
  function DateInYear(y: int, d: int): (x: Ymd)
    requires 0 <= d < DaysInYear(y)
    ensures ValidYmd(x) && x.year == y
    ensures MonthStart(y, x.month - 1) + x.day - 1 == d
  {
    var m := MonthSearch(y, d, 11);
    Ymd(y, m + 1, d - MonthStart(y, m) + 1)
  }

  /**
   * The local fields of day `t` (`getFullYear`, `getMonth() + 1`, `getDate()`:
   * ECMA-262 YearFromTime, MonthFromTime and DateFromTime).
   */
  function Fields(t: int): (x: Ymd)
    ensures ValidYmd(x)
  {
    var y := YearFromDay(t);
    YearLength(y);
    DateInYear(y, t - DayFromYear(y))
  }

  lemma {:induction false} MonthStartGrows(y: int, a: int, b: int)
    requires 0 <= a <= b <= 12
    ensures MonthStart(y, a) + 28 * (b - a) <= MonthStart(y, b)
    decreases b - a
  {
    if a < b {
      MonthStartGrows(y, a, b - 1);
      assert DaysInMonth(y, b) >= 28;
    }
  }

  /** Only one month of a year contains a given day of that year. */
  lemma MonthUnique(y: int, d: int, m: int)
    requires 0 <= m <= 11 && MonthStart(y, m) <= d < MonthStart(y, m + 1)
    ensures MonthSearch(y, d, 11) == m
  {
    var r := MonthSearch(y, d, 11);
    if r < m {
      MonthStartGrows(y, r + 1, m);
    } else if m < r {
      MonthStartGrows(y, m + 1, r);
    }
  }

  /** The day of the year of day `dt` of month index `m` lies inside the month and the year. */
  lemma DayOfYearBounds(y: int, m: int, dt: int)
    requires 0 <= m <= 11 && 1 <= dt <= DaysInMonth(y, m + 1)
    ensures 0 <= MonthStart(y, m) + dt - 1 < DaysInYear(y)
    ensures MonthStart(y, m) + dt - 1 < MonthStart(y, m + 1)
  {
    MonthStartGrows(y, m + 1, 12);
  }

  /** A real month and day are the date of their own day of the year. */
  lemma DateInYearOf(y: int, m: int, dt: int, d: int)
    requires 0 <= m <= 11 && 1 <= dt <= DaysInMonth(y, m + 1) && d == MonthStart(y, m) + dt - 1
    ensures 0 <= d < DaysInYear(y)
    ensures DateInYear(y, d) == Ymd(y, m + 1, dt)
  {
    DayOfYearBounds(y, m, dt);
    MonthUnique(y, d, m);
  }

  /** The fields of a day give that day back. */
  lemma MakeDayOfFields(t: int)
    ensures MakeDay(Fields(t).year, Fields(t).month - 1, Fields(t).day) == t
  {
    var x := Fields(t);
    FieldsSum(t);
    MakeDayInYear(x.year, x.month - 1, x.day);
  }

  /** A day is its year's first day plus its day of the year. */
  lemma FieldsSum(t: int)
    ensures DayFromYear(Fields(t).year) + MonthStart(Fields(t).year, Fields(t).month - 1) + Fields(t).day - 1 == t
  {
  }

  /** The day a real date names lies in its year. */
  lemma MakeDayInItsYear(y: int, m: int, dt: int)
    requires 0 <= m <= 11 && 1 <= dt <= DaysInMonth(y, m + 1)
    ensures DayFromYear(y) <= MakeDay(y, m, dt) < DayFromYear(y + 1)
    ensures MakeDay(y, m, dt) - DayFromYear(y) == MonthStart(y, m) + dt - 1
  {
    MakeDayInYear(y, m, dt);
    DayOfYearBounds(y, m, dt);
    YearLength(y);
  }

  /** The fields of a day of year `y` that is day `dt` of month index `m` of that year. */
  lemma FieldsOfDay(t: int, y: int, m: int, dt: int)
    requires 0 <= m <= 11 && 1 <= dt <= DaysInMonth(y, m + 1)
    requires DayFromYear(y) <= t < DayFromYear(y + 1)
    requires t - DayFromYear(y) == MonthStart(y, m) + dt - 1
    ensures Fields(t) == Ymd(y, m + 1, dt)
  {
    YearUnique(t, y);
    DateInYearOf(y, m, dt, t - DayFromYear(y));
  }

  /** A real calendar date is the one whose fields it gives. */
  lemma FieldsOfMakeDay(y: int, m: int, dt: int)
    requires 0 <= m <= 11 && 1 <= dt <= DaysInMonth(y, m + 1)
    ensures Fields(MakeDay(y, m, dt)) == Ymd(y, m + 1, dt)
  {
    MakeDayInItsYear(y, m, dt);
    FieldsOfDay(MakeDay(y, m, dt), y, m, dt);
  }

  lemma DayFromYearApart(a: int, b: int)
    ensures a < b ==> DayFromYear(a) + 365 <= DayFromYear(b)
  {
    if a < b {
      DayFromYearGrows(a, b);
    }
  }

  /** Two years whose same month starts on the same day are the same year. */
  lemma SameMonthStartSameYear(a: int, b: int, m: int)
    requires 0 <= m <= 11
    requires DayFromYear(a) + MonthStart(a, m) == DayFromYear(b) + MonthStart(b, m)
    ensures a == b
  {
    DayFromYearApart(a, b);
    DayFromYearApart(b, a);
  }

  /** The month index of any day's fields lies inside the year. */
  lemma KeptFieldsSum(y: int, m: int, dt: int)
    requires Fields(MakeDay(y, m, dt)).month - 1 == m
    ensures 0 <= m <= 11 && MakeDay(y, m, dt) == DayFromYear(y) + MonthStart(y, m) + dt - 1
  {
    MakeDayInYear(y, m, dt);
  }

  /** Fields that survive `MakeDay` unchanged name a real day of the year given. */
  lemma KeptFieldsAreReal(y: int, m: int, dt: int)
    requires Fields(MakeDay(y, m, dt)).month - 1 == m && Fields(MakeDay(y, m, dt)).day == dt
    ensures 0 <= m <= 11 && 1 <= dt <= DaysInMonth(y, m + 1)
  {
    var t := MakeDay(y, m, dt);
    var x := Fields(t);
    KeptFieldsSum(y, m, dt);
    MakeDayOfFields(t);
    MakeDayInYear(x.year, m, dt);
    SameMonthStartSameYear(x.year, y, m);
  }

  /**
   * `new Date(y, m, dt)` keeps the month index and day it was given exactly
   * when they name a real day of year `y`; otherwise they roll over.
   */
  lemma MakeDayKeepsFields(y: int, m: int, dt: int)
    ensures var x := Fields(MakeDay(y, m, dt));
      (x.month - 1 == m && x.day == dt) <==> (0 <= m <= 11 && 1 <= dt <= DaysInMonth(y, m + 1))
  {
    var x := Fields(MakeDay(y, m, dt));
    if 0 <= m <= 11 && 1 <= dt <= DaysInMonth(y, m + 1) {
      assert x == Ymd(y, m + 1, dt) by {
        FieldsOfMakeDay(y, m, dt);
      }
    }
    if x.month - 1 == m && x.day == dt {
      KeptFieldsAreReal(y, m, dt);
    }
  }

  /** ECMA-262 TimeClip, on day numbers. */
  function Clip(t: int): (d: JsDate)
    ensures d.At? <==> -MaxDay <= t <= MaxDay
    ensures d.At? ==> d.day == t
  {
    if -MaxDay <= t <= MaxDay then At(t) else Invalid
  }

  /** ECMA-262 MakeFullYear: `new Date(y, …)` reads a year from 0 to 99 as 1900 + y. */
  function FullYear(y: int): (r: int)
    ensures 0 <= y <= 99 ==> r == 1900 + y
    ensures !(0 <= y <= 99) ==> r == y
  {
    if 0 <= y <= 99 then 1900 + y else y
  }

  /** `new Date(y, m, dt)` at local midnight. */
  function NewDate(y: int, m: int, dt: int): JsDate {
    Clip(MakeDay(FullYear(y), m, dt))
  }

  /** `setDate(dt)` on the valid date `t`: same year and month, day of month `dt` (which may roll over). */
  function SetDayOf(t: int, dt: int): JsDate {
    var x := Fields(t);
    Clip(MakeDay(x.year, x.month - 1, dt))
  }

  /** `d.setDate(dt)`: an invalid date stays invalid. */
  function SetDate(d: JsDate, dt: int): JsDate {
    match d
    case Invalid => Invalid
    case At(t) => SetDayOf(t, dt)
  }

  lemma MoveSum(t: int, n: int)
    ensures MakeDay(Fields(t).year, Fields(t).month - 1, Fields(t).day + n) == t + n
  {
    var x := Fields(t);
    MakeDayOfFields(t);
    MakeDayShift(x.year, x.month - 1, x.day, n);
  }

  lemma SetDayMoves(t: int, n: int)
    ensures SetDayOf(t, Fields(t).day + n) == Clip(t + n)
  {
    MoveSum(t, n);
  }

  /** `d.setDate(d.getDate() + n)` moves a valid date by exactly `n` whole days. */
  lemma SetDateMoves(t: int, n: int)
    ensures SetDate(At(t), Fields(t).day + n) == Clip(t + n)
  {
    SetDayMoves(t, n);
  }

  /** Every day of the years -100000 to 100000 lies inside the clip range. */
  lemma {:induction false} YearsInRange(y: int)
    requires -100000 <= y <= 100000
    ensures -MaxDay < DayFromYear(y) && DayFromYear(y + 1) < MaxDay
  {
    DayFromYearGrows(-100000, y);
    DayFromYearGrows(-100000, 1970);
    DayFromYearGrows(y + 1, 100001);
    DayFromYearGrows(1970, 100001);
  }

  /** The year of the day `t` is the year whose range contains `t`. */
  lemma YearOfDay(t: int, y: int)
    requires DayFromYear(y) <= t < DayFromYear(y + 1)
    ensures Fields(t).year == y
  {
    YearUnique(t, y);
  }

  /** The year of day `t` is the one whose range holds `t`. */
  lemma FieldsYear(t: int)
    ensures DayFromYear(Fields(t).year) <= t < DayFromYear(Fields(t).year + 1)
  {
  }

  /** A day of the years -100000 to 100000 survives TimeClip. */
  lemma InClip(t: int)
    requires -100000 <= Fields(t).year <= 100000
    ensures Clip(t) == At(t)
  {
    FieldsYear(t);
    YearsInRange(Fields(t).year);
  }
}
