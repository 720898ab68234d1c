/** Python's `datetime` for the modelled code: the proleptic Gregorian
    calendar of years 1 to 9999, naive instants counted in whole seconds from
    0001-01-01 00:00:00, durations (`timedelta`) as signed seconds. */
module Calendar {
  import opened Wrappers
  import opened Arith

  /** `date(9999, 12, 31).toordinal()`. */
  const MaxOrdinal: int := 3652059

  predicate IsLeap(year: int) {
    year % 4 == 0 && (year % 100 != 0 || year % 400 == 0)
  }

  function DaysInYear(year: int): int {
    if IsLeap(year) then 366 else 365
  }

  function DaysInMonth(year: int, month: int): (n: int)
    requires 1 <= month <= 12
    ensures 28 <= n <= 31
  {
    if month == 2 then (if IsLeap(year) then 29 else 28)
    else if month == 4 || month == 6 || month == 9 || month == 11 then 30
    else 31
  }

  /** Days in the months of `year` before `month`. */
  function DaysBeforeMonth(year: int, month: int): (n: nat)
    requires 1 <= month <= 12
  {
    var common :=
      if month == 1 then 0 else if month == 2 then 31 else if month == 3 then 59
      else if month == 4 then 90 else if month == 5 then 120 else if month == 6 then 151
      else if month == 7 then 181 else if month == 8 then 212 else if month == 9 then 243
      else if month == 10 then 273 else if month == 11 then 304 else 334;
    if month > 2 && IsLeap(year) then common + 1 else common
  }

  /** Days in the years before `year`. */
  function DaysBeforeYear(year: int): int
    requires year >= 1
  {
    var y := year - 1;
    y * 365 + y / 4 - y / 100 + y / 400
  }

  lemma {:induction false} DaysBeforeNextYear(year: int)
    requires year >= 1
    ensures DaysBeforeYear(year + 1) == DaysBeforeYear(year) + DaysInYear(year)
  {
    var y := year - 1;
    DivStep(y, 4);
    DivStep(y, 100);
    DivStep(y, 400);
  }

  lemma {:induction false} DaysBeforeMonthStep(year: int, month: int)
    requires 1 <= month < 12
    ensures DaysBeforeMonth(year, month + 1) == DaysBeforeMonth(year, month) + DaysInMonth(year, month)
  {
  }

  lemma {:induction false} LastMonthEndsYear(year: int)
    ensures DaysBeforeMonth(year, 12) + DaysInMonth(year, 12) == DaysInYear(year)
  {
  }

  datatype Date = Date(year: int, month: int, day: int)

  predicate ValidDate(d: Date) {
    1 <= d.year <= 9999 && 1 <= d.month <= 12 && 1 <= d.day <= DaysInMonth(d.year, d.month)
  }

  lemma {:induction false} DaysBeforeYearMonotone(a: int, b: int)
    requires 1 <= a <= b
    ensures DaysBeforeYear(a) + 365 * (b - a) <= DaysBeforeYear(b)
    decreases b - a
  {
    if a < b {
      DaysBeforeNextYear(a);
      DaysBeforeYearMonotone(a + 1, b);
    }
  }

  /** `date.toordinal()`: 1 for 0001-01-01. */
  function ToOrdinal(d: Date): (n: int)
    requires ValidDate(d)
    ensures 1 <= n <= MaxOrdinal
  {
    DaysBeforeNextYear(d.year);
    DaysBeforeYearMonotone(d.year + 1, 10000);
    MonthEnd(d);
    DaysBeforeYear(d.year) + DaysBeforeMonth(d.year, d.month) + d.day
  }

  lemma {:induction false} MonthsBefore(year: int, a: int, b: int)
    requires 1 <= a <= b <= 12
    ensures DaysBeforeMonth(year, a) <= DaysBeforeMonth(year, b)
  {
  }

  /** The year holding day `n`, searched upwards from `year`. */
  function YearOf(n: int, year: int): (r: int)
    requires 1 <= year <= 9999 && n <= MaxOrdinal
    requires DaysBeforeYear(year) < n
    ensures year <= r <= 9999
    ensures DaysBeforeYear(r) < n <= DaysBeforeYear(r) + DaysInYear(r)
    decreases n - DaysBeforeYear(year)
  {
    DaysBeforeNextYear(year);
    if n <= DaysBeforeYear(year + 1) then year
    else
      assert DaysBeforeYear(10000) == MaxOrdinal;
      YearOf(n, year + 1)
  }

  /** The month holding day `dayOfYear` of `year`, searched upwards from `month`. */
  function MonthOf(year: int, dayOfYear: int, month: int): (r: int)
    requires 1 <= month <= 12
    requires DaysBeforeMonth(year, month) < dayOfYear <= DaysInYear(year)
    ensures month <= r <= 12
    ensures DaysBeforeMonth(year, r) < dayOfYear <= DaysBeforeMonth(year, r) + DaysInMonth(year, r)
    decreases 12 - month
  {
    LastMonthEndsYear(year);
    if dayOfYear <= DaysBeforeMonth(year, month) + DaysInMonth(year, month) then month
    else
      DaysBeforeMonthStep(year, month);
      MonthOf(year, dayOfYear, month + 1)
  }

  /** `date.fromordinal(n)`: the inverse of ToOrdinal. */
  function FromOrdinal(n: int): (d: Date)
    requires 1 <= n <= MaxOrdinal
    ensures ValidDate(d) && ToOrdinal(d) == n
  {
    var year := YearOf(n, 1);
    var dayOfYear := n - DaysBeforeYear(year);
    var month := MonthOf(year, dayOfYear, 1);
    Date(year, month, dayOfYear - DaysBeforeMonth(year, month))
  }

  /** `date` values within Python's range, as seconds from 0001-01-01 00:00:00:
      MaxOrdinal days of 86400 seconds. */
  predicate InRange(t: int) {
    0 <= t < 315537897600
  }

  function HourOf(t: int): int { t % 86400 / 3600 }
  function MinuteOf(t: int): int { t % 3600 / 60 }
  function SecondOf(t: int): int { t % 60 }

  /** The calendar date of instant `t`. */
  function DateOf(t: int): (d: Date)
    requires InRange(t)
    ensures ValidDate(d)
  {
    FromOrdinal(t / 86400 + 1)
  }

  /** The instant at the given wall-clock fields of a date. */
  function At(d: Date, hour: int, minute: int, second: int): int
    requires ValidDate(d)
  {
    (ToOrdinal(d) - 1) * 86400 + hour * 3600 + minute * 60 + second
  }

  /** The seconds field only adds to the instant. */
  lemma {:induction false} AtSeconds(d: Date, hour: int, minute: int, second: int)
    requires ValidDate(d)
    ensures At(d, hour, minute, second) == At(d, hour, minute, 0) + second
  {
  }

  predicate ValidTime(hour: int, minute: int, second: int) {
    0 <= hour < 24 && 0 <= minute < 60 && 0 <= second < 60
  }

  /** The `datetime(year, month, day, hour, minute, second)` constructor: a
      field out of range raises `ValueError`. */
  function MakeDateTime(d: Date, hour: int, minute: int, second: int): (r: Result<int, Fault>)
    ensures r.Success? <==> ValidDate(d) && ValidTime(hour, minute, second)
    ensures r.Success? ==> r.value == At(d, hour, minute, second) && InRange(r.value)
  {
    if !(1 <= d.year <= 9999) then Failure(ValueError("year is out of range"))
    else if !(1 <= d.month <= 12) then Failure(ValueError("month must be in 1..12"))
    else if !(1 <= d.day <= DaysInMonth(d.year, d.month)) then Failure(ValueError("day is out of range for month"))
    else if !(0 <= hour < 24) then Failure(ValueError("hour must be in 0..23"))
    else if !(0 <= minute < 60) then Failure(ValueError("minute must be in 0..59"))
    else if !(0 <= second < 60) then Failure(ValueError("second must be in 0..59"))
    else Success(At(d, hour, minute, second))
  }

  lemma {:induction false} FieldsOfAt(d: Date, hour: int, minute: int, second: int)
    requires ValidDate(d) && ValidTime(hour, minute, second)
    ensures InRange(At(d, hour, minute, second))
    ensures DateOf(At(d, hour, minute, second)) == d
    ensures HourOf(At(d, hour, minute, second)) == hour
    ensures MinuteOf(At(d, hour, minute, second)) == minute
    ensures SecondOf(At(d, hour, minute, second)) == second
  {
    var n := ToOrdinal(d);
    var t := At(d, hour, minute, second);
    ClockOfAt(d, hour, minute, second);
    assert DateOf(t) == FromOrdinal(n);
    OrdinalInjective(FromOrdinal(n), d);
  }

  /** The day number and the wall-clock fields of `At`. */
  lemma {:induction false} ClockOfAt(d: Date, hour: int, minute: int, second: int)
    requires ValidDate(d) && ValidTime(hour, minute, second)
    ensures InRange(At(d, hour, minute, second))
    ensures At(d, hour, minute, second) / 86400 + 1 == ToOrdinal(d)
    ensures HourOf(At(d, hour, minute, second)) == hour
    ensures MinuteOf(At(d, hour, minute, second)) == minute
    ensures SecondOf(At(d, hour, minute, second)) == second
  {
    SplitInstant(ToOrdinal(d) - 1, hour, minute, second);
  }

  /** The fields of the instant `day` days and the given wall-clock time after
      the epoch. */
  lemma {:induction false} SplitInstant(day: int, hour: int, minute: int, second: int)
    requires ValidTime(hour, minute, second)
    ensures (day * 86400 + hour * 3600 + minute * 60 + second) / 86400 == day
    ensures HourOf(day * 86400 + hour * 3600 + minute * 60 + second) == hour
    ensures MinuteOf(day * 86400 + hour * 3600 + minute * 60 + second) == minute
    ensures SecondOf(day * 86400 + hour * 3600 + minute * 60 + second) == second
  {
    var sod := hour * 3600 + minute * 60 + second;
    var t := day * 86400 + sod;
    DivMod(t, 86400, day, sod);
    DivMod(sod, 3600, hour, minute * 60 + second);
    DivMod(t, 3600, day * 24 + hour, minute * 60 + second);
    DivMod(minute * 60 + second, 60, minute, second);
    DivMod(t, 60, day * 1440 + hour * 60 + minute, second);
  }

  /** Valid fields make a datetime: the instant they denote. */
  lemma {:induction false} ValidDateTime(d: Date, hour: int, minute: int, second: int, t: int)
    requires ValidDate(d) && ValidTime(hour, minute, second) && At(d, hour, minute, second) == t
    ensures MakeDateTime(d, hour, minute, second) == Success(t)
  {
  }

  /** The wall-clock fields of an instant are valid and add up to its
      seconds since midnight. */
  lemma {:induction false} ClockOf(t: int)
    ensures ValidTime(HourOf(t), MinuteOf(t), SecondOf(t))
    ensures HourOf(t) * 3600 + MinuteOf(t) * 60 + SecondOf(t) == t % 86400
  {
    var sod := t % 86400;
    DivMod(sod, 3600, HourOf(t), sod % 3600);
    DivMod(t, 3600, t / 3600, t % 3600);
    assert t % 3600 == sod % 3600 by {
      DivMod(t, 3600, (t / 86400) * 24 + HourOf(t), sod % 3600);
    }
    DivMod(t % 3600, 60, MinuteOf(t), t % 60) by {
      DivMod(t, 60, t / 60, t % 60);
      DivMod(t, 60, (t / 3600) * 60 + (t % 3600) / 60, (t % 3600) % 60);
    }
  }

  /** On the day holding `t`, its hour and minute make the datetime at the
      start of its minute. */
  lemma {:induction false} StartOfMinuteAt(t: int, d: Date)
    requires ValidDate(d) && ToOrdinal(d) == t / 86400 + 1
    ensures MakeDateTime(d, HourOf(t), MinuteOf(t), 0) == Success(t - SecondOf(t))
  {
    ClockOf(t);
    ValidDateTime(d, HourOf(t), MinuteOf(t), 0, t - SecondOf(t));
  }

  /** Every instant is the one its own fields denote. */
  lemma {:induction false} InstantOfFields(t: int)
    requires InRange(t)
    ensures ValidTime(HourOf(t), MinuteOf(t), SecondOf(t))
    ensures At(DateOf(t), HourOf(t), MinuteOf(t), SecondOf(t)) == t
  {
    ClockOf(t);
    assert ToOrdinal(DateOf(t)) - 1 == t / 86400;
  }


  /** Two valid dates with the same ordinal are the same date. */
  lemma {:induction false} OrdinalInjective(a: Date, b: Date)
    requires ValidDate(a) && ValidDate(b) && ToOrdinal(a) == ToOrdinal(b)
    ensures a == b
  {
    if a.year != b.year {
      var lo, hi := if a.year < b.year then a else b, if a.year < b.year then b else a;
      DaysBeforeNextYear(lo.year);
      DaysBeforeYearAscends(lo.year + 1, hi.year);
      MonthEnd(lo);
      assert false;
    }
    if a.month != b.month {
      var lo, hi := if a.month < b.month then a else b, if a.month < b.month then b else a;
      DaysBeforeMonthStep(lo.year, lo.month);
      MonthsBefore(lo.year, lo.month + 1, hi.month);
      assert false;
    }
  }

  lemma {:induction false} MonthEnd(d: Date)
    requires ValidDate(d)
    ensures DaysBeforeMonth(d.year, d.month) + d.day <= DaysInYear(d.year)
  {
    LastMonthEndsYear(d.year);
    if d.month < 12 {
      DaysBeforeMonthStep(d.year, d.month);
      MonthsBefore(d.year, d.month + 1, 12);
    }
  }

  lemma {:induction false} DaysBeforeYearAscends(a: int, b: int)
    requires 1 <= a <= b
    ensures DaysBeforeYear(a) <= DaysBeforeYear(b)
  {
    DaysBeforeYearMonotone(a, b);
  }

  /** `datetime + timedelta(seconds=delta)`: leaving the calendar's range
      raises `OverflowError`. */
  function AddSeconds(t: int, delta: int): (r: Result<int, Fault>)
    ensures r.Success? <==> InRange(t + delta)
    ensures r.Success? ==> r.value - t == delta
  {
    if InRange(t + delta) then Success(t + delta) else Failure(OverflowError("date value out of range"))
  }
}
