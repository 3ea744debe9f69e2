/**
 * Proleptic Gregorian calendar on integer day numbers.
 *
 * Day 0 is 1970-01-01 (a Thursday). A month is identified by its index
 * `year * 12 + (month - 1)`, so consecutive months have consecutive indexes
 * and "the previous month" is `index - 1`. The conversions are the classic
 * era-based days-from-civil / civil-from-days algorithms.
 */
module Calendar {

  /** A civil date: `month` is 1..12 and `day` is the day of the month. */
  datatype Civil = Civil(year: int, month: int, day: int)

  /** Days in one 400-year Gregorian era. */
  const DaysPerEra: int := 146097

  /** Day number of 0000-03-01 counted back from 1970-01-01. */
  const EpochShift: int := 719468

  /** The civil date of day number `z`. */
  function CivilFromDays(z: int): (c: Civil)
    ensures 1 <= c.month <= 12
    ensures 1 <= c.day <= 31
  {
    var z' := z + EpochShift;
    var era := z' / DaysPerEra;
    var doe := z' - era * DaysPerEra;                                 // day of era
    var yoe := (doe - doe / 1460 + doe / 36524 - doe / 146096) / 365; // year of era
    var y := yoe + era * 400;
    var doy := doe - (365 * yoe + yoe / 4 - yoe / 100);               // day of March-based year
    var mp := (5 * doy + 2) / 153;                                    // March-based month
    var d := doy - (153 * mp + 2) / 5 + 1;
    var m := if mp < 10 then mp + 3 else mp - 9;
    Civil(if m <= 2 then y + 1 else y, m, d)
  }

  /** The day number of the civil date `y`-`m`-`d` (`m` in 1..12). */
  function DaysFromCivil(y: int, m: int, d: int): int
  {
    var y' := if m <= 2 then y - 1 else y;
    var era := y' / 400;
    var yoe := y' - era * 400;
    var mp := if m > 2 then m - 3 else m + 9;
    var doy := (153 * mp + 2) / 5 + d - 1;
    var doe := yoe * 365 + yoe / 4 - yoe / 100 + doy;
    era * DaysPerEra + doe - EpochShift
  }

  /** The month index of a civil date. */
  function MonthIndex(c: Civil): int
  {
    c.year * 12 + c.month - 1
  }

  /** The month index of day number `day` (what `format('MMM YYYY')` identifies). */
  function MonthOf(day: int): int
  {
    MonthIndex(CivilFromDays(day))
  }

  /** First day of month `month` (`startOf('month')`). */
  function MonthStart(month: int): int
  {
    DaysFromCivil(month / 12, month % 12 + 1, 1)
  }

  /** Last day of month `month` (`endOf('month')`, at day granularity). */
  function MonthEnd(month: int): int
  {
    MonthStart(month + 1) - 1
  }

  /**
   * The Sunday starting the week that holds `day` (`startOf('week')` in the
   * default locale, whose weeks start on Sunday).
   */
  function WeekStart(day: int): (s: int)
    ensures s <= day < s + 7
    ensures (s + 4) % 7 == 0
  {
    day - (day + 4) % 7
  }

  /**
   * The sum of the numeric parts of `day` written as YYYY-MM-DD, the hash the
   * daily tip is chosen by.
   */
  function DateHash(day: int): int
  {
    var c := CivilFromDays(day);
    c.year + c.month + c.day
  }

  /** Milliseconds in a day, the unit of creation timestamps. */
  const MillisPerDay: int := 86400000
}
