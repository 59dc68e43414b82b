/** Proleptic Gregorian year-months and days, as `java.time.YearMonth` and `LocalDate`
    count them, mapped onto the whole-second timestamps of the ledger. */
module Calendar {
  import opened Entities

  /** A `YearMonth`; `month` is 1..12 in every value the model builds. */
  datatype YearMonth = YearMonth(year: int, month: int)

  predicate ValidMonth(ym: YearMonth) {
    1 <= ym.month <= 12
  }

  /** The months since the start of year 0: `year * 12 + (month - 1)`. */
  function MonthCount(ym: YearMonth): int {
    ym.year * 12 + (ym.month - 1)
  }

  /** `ym.minusMonths(n)`: the year-month `n` months earlier, the year carried by floor
      division as `YearMonth.plusMonths` does. */
  function MinusMonths(ym: YearMonth, n: int): (r: YearMonth)
    ensures ValidMonth(r)
    ensures MonthCount(r) == MonthCount(ym) - n
  {
    var count := MonthCount(ym) - n;
    YearMonth(count / 12, count % 12 + 1)
  }

  /** The month after `ym`. */
  function NextMonth(ym: YearMonth): (r: YearMonth)
    requires ValidMonth(ym)
    ensures ValidMonth(r) && MonthCount(r) == MonthCount(ym) + 1
  {
    if ym.month == 12 then YearMonth(ym.year + 1, 1) else YearMonth(ym.year, ym.month + 1)
  }

  predicate IsLeap(year: int) {
    year % 4 == 0 && (year % 100 != 0 || year % 400 == 0)
  }

  function YearLength(year: int): int {
    if IsLeap(year) then 366 else 365
  }

  /** `ym.lengthOfMonth()`. */
  function LengthOfMonth(ym: YearMonth): (n: int)
    requires ValidMonth(ym)
    ensures 28 <= n <= 31
  {
    if ym.month == 2 then (if IsLeap(ym.year) then 29 else 28)
    else if ym.month in {4, 6, 9, 11} then 30
    else 31
  }

  /** The days from 1970-01-01 to the first day of `year`. */
  function DaysBeforeYear(year: int): int
    decreases if year >= 1970 then year - 1970 else 1970 - year
  {
    if year == 1970 then 0
    else if year > 1970 then DaysBeforeYear(year - 1) + YearLength(year - 1)
    else DaysBeforeYear(year + 1) - YearLength(year)
  }

  /** The days from the first of January to the first of `ym`'s month. */
  function DaysBeforeMonth(ym: YearMonth): int
    requires ValidMonth(ym)
  {
    [0, 31, 59, 90, 120, 151, 181, 212, 243, 273, 304, 334][ym.month - 1]
      + (if ym.month > 2 && IsLeap(ym.year) then 1 else 0)
  }

  /** `ym.atDay(1)` as a day number (days since 1970-01-01). */
  function FirstDay(ym: YearMonth): int
    requires ValidMonth(ym)
  {
    DaysBeforeYear(ym.year) + DaysBeforeMonth(ym)
  }

  /** `ym.atDay(1).atStartOfDay()`. */
  function MonthStart(ym: YearMonth): Timestamp
    requires ValidMonth(ym)
  {
    StartOfDay(FirstDay(ym))
  }

  /** `ym.atEndOfMonth().atTime(LocalTime.MAX)`: the last second of the month. */
  function MonthEnd(ym: YearMonth): Timestamp
    requires ValidMonth(ym)
  {
    EndOfDay(FirstDay(ym) + LengthOfMonth(ym) - 1)
  }

  lemma YearStep(year: int)
    ensures DaysBeforeYear(year + 1) == DaysBeforeYear(year) + YearLength(year)
  {
  }

  /** The next month begins the day after `ym` ends. */
  lemma {:induction false} NextMonthFollows(ym: YearMonth)
    requires ValidMonth(ym)
    ensures FirstDay(NextMonth(ym)) == FirstDay(ym) + LengthOfMonth(ym)
    ensures MonthStart(NextMonth(ym)) == MonthEnd(ym) + 1
  {
    if ym.month == 12 {
      YearStep(ym.year);
    }
  }

  /** A month's window is non-empty and lies strictly before the window of every later
      month: windows of distinct months never overlap. */
  lemma {:induction false} EarlierMonthEndsBefore(a: YearMonth, b: YearMonth)
    requires ValidMonth(a) && ValidMonth(b)
    requires MonthCount(a) < MonthCount(b)
    ensures MonthStart(a) <= MonthEnd(a) < MonthStart(b)
    decreases MonthCount(b) - MonthCount(a)
  {
    NextMonthFollows(a);
    var next := NextMonth(a);
    if MonthCount(next) < MonthCount(b) {
      EarlierMonthEndsBefore(next, b);
    } else {
      assert next == b;
    }
  }
}
