/**
 * The proleptic Gregorian calendar the chart works in: day ordinals as Python's
 * `date.toordinal()` counts them, weekdays as `date.weekday()` numbers them, and
 * wall-clock instants in the exchange's local time zone.
 */
module Calendar {

  /** Seconds in one wall-clock day. */
  const SecondsPerDay: nat := 86400

  /** A day ordinal: 1 is 0001-01-01, which was a Monday. */
  type DayNumber = n: int | 1 <= n witness 1

  /** An instant on the exchange's local wall clock, in seconds since 0001-01-01T00:00. */
  type Instant = nat

  predicate IsLeap(y: int) {
    y % 4 == 0 && (y % 100 != 0 || y % 400 == 0)
  }

  function DaysInYear(y: int): nat {
    if IsLeap(y) then 366 else 365
  }

  function DaysInMonth(y: int, m: int): (r: nat)
    requires 1 <= m <= 12
    ensures 28 <= r <= 31
    ensures r == 29 <==> m == 2 && IsLeap(y)
  {
    if m == 2 then (if IsLeap(y) then 29 else 28)
    else if m == 4 || m == 6 || m == 9 || m == 11 then 30
    else 31
  }

  datatype Date = Date(year: int, month: int, day: int)

  predicate ValidDate(d: Date) {
    1 <= d.month <= 12 && 1 <= d.day <= DaysInMonth(d.year, d.month)
  }

  /** Days in all years before `y`, counted from 0001-01-01 (negative for years before 1). */
  function DaysBeforeYear(y: int): int
    decreases if y >= 1 then y else 2 - y
  {
    if y == 1 then 0
    else if y > 1 then DaysBeforeYear(y - 1) + DaysInYear(y - 1)
    else DaysBeforeYear(y + 1) - DaysInYear(y)
  }

  /** Days in the months of year `y` before month `m`; month 13 stands for the year's end. */
  function DaysBeforeMonth(y: int, m: int): nat
    requires 1 <= m <= 13
  {
    var cumulative :=
      if m == 1 then 0 else if m == 2 then 31 else if m == 3 then 59
      else if m == 4 then 90 else if m == 5 then 120 else if m == 6 then 151
      else if m == 7 then 181 else if m == 8 then 212 else if m == 9 then 243
      else if m == 10 then 273 else if m == 11 then 304 else if m == 12 then 334
      else 365;
    cumulative + (if m > 2 && IsLeap(y) then 1 else 0)
  }

  lemma MonthStep(y: int, m: int)
    requires 1 <= m <= 12
    ensures DaysBeforeMonth(y, m + 1) == DaysBeforeMonth(y, m) + DaysInMonth(y, m)
    ensures DaysBeforeMonth(y, 13) == DaysInYear(y)
  {}

  lemma YearStep(y: int)
    ensures DaysBeforeYear(y + 1) == DaysBeforeYear(y) + DaysInYear(y)
  {
  }

  /** The day ordinal of a date, as `date.toordinal()`; it lies within its year's span. */
  function ToOrdinal(d: Date): (n: int)
    requires ValidDate(d)
    ensures DaysBeforeYear(d.year) < n <= DaysBeforeYear(d.year + 1)
    ensures d.year >= 1 ==> n >= 1
  {
    YearStep(d.year);
    MonthStep(d.year, d.month);
    MonthsWithinYear(d.year, d.month + 1);
    assert d.year >= 1 ==> DaysBeforeYear(d.year) >= 0 by {
      if d.year >= 1 {
        DaysBeforeYearMonotone(1, d.year);
      }
    }
    DaysBeforeYear(d.year) + DaysBeforeMonth(d.year, d.month) + d.day
  }

  lemma {:induction false} MonthsWithinYear(y: int, m: int)
    requires 1 <= m <= 13
    ensures DaysBeforeMonth(y, m) <= DaysInYear(y)
  {
    MonthStep(y, 12);
  }

  lemma {:induction false} DaysBeforeYearMonotone(a: int, b: int)
    requires a <= b
    ensures DaysBeforeYear(a) + (b - a) * 365 <= DaysBeforeYear(b)
    decreases b - a
  {
    if a < b {
      YearStep(b - 1);
      DaysBeforeYearMonotone(a, b - 1);
    }
  }

  /** The year whose span holds ordinal `n`, searched upwards from `y`. */
  function YearContaining(y: int, n: int): (r: int)
    requires DaysBeforeYear(y) < n
    ensures y <= r && DaysBeforeYear(r) < n <= DaysBeforeYear(r + 1)
    decreases n - DaysBeforeYear(y)
  {
    YearStep(y);
    if n <= DaysBeforeYear(y + 1) then y else YearContaining(y + 1, n)
  }

  /** The month of year `y` that holds day `r` of the year, searched upwards from `m`. */
  function MonthContaining(y: int, m: int, r: int): (k: int)
    requires 1 <= m <= 12
    requires DaysBeforeMonth(y, m) < r <= DaysInYear(y)
    ensures m <= k <= 12
    ensures DaysBeforeMonth(y, k) < r <= DaysBeforeMonth(y, k) + DaysInMonth(y, k)
    decreases 12 - m
  {
    MonthStep(y, m);
    if r <= DaysBeforeMonth(y, m) + DaysInMonth(y, m) then m else MonthContaining(y, m + 1, r)
  }

  /** The date of an ordinal, as `date.fromordinal()`: its round trip through ToOrdinal is exact. */
  function FromOrdinal(n: DayNumber): (d: Date)
    ensures ValidDate(d) && d.year >= 1
    ensures ToOrdinal(d) == n
  {
    var y := YearContaining(1, n);
    var r := n - DaysBeforeYear(y);
    YearStep(y);
    MonthStep(y, 12);
    var m := MonthContaining(y, 1, r);
    Date(y, m, r - DaysBeforeMonth(y, m))
  }

  /** Two valid dates with the same ordinal are the same date. */
  lemma {:induction false} OrdinalInjective(d1: Date, d2: Date)
    requires ValidDate(d1) && ValidDate(d2)
    requires ToOrdinal(d1) == ToOrdinal(d2)
    ensures d1 == d2
  {
    if d1.year < d2.year {
      DaysBeforeYearMonotone(d1.year + 1, d2.year);
      assert false;
    }
    if d2.year < d1.year {
      DaysBeforeYearMonotone(d2.year + 1, d1.year);
      assert false;
    }
    if d1.month < d2.month {
      MonthsAscend(d1.year, d1.month, d2.month);
      assert false;
    }
    if d2.month < d1.month {
      MonthsAscend(d1.year, d2.month, d1.month);
      assert false;
    }
  }

  lemma {:induction false} MonthsAscend(y: int, a: int, b: int)
    requires 1 <= a < b <= 12
    ensures DaysBeforeMonth(y, a) + DaysInMonth(y, a) <= DaysBeforeMonth(y, b)
  {
    MonthStep(y, a);
  }

  /** fromordinal(toordinal(d)) == d for every date from year 1 on. */
  lemma OrdinalRoundTrip(d: Date)
    requires ValidDate(d) && d.year >= 1
    ensures FromOrdinal(ToOrdinal(d)) == d
  {
    OrdinalInjective(FromOrdinal(ToOrdinal(d)), d);
  }

  /** `date.weekday()`: Monday is 0 and Sunday is 6. */
  function Weekday(n: DayNumber): (w: nat)
    ensures w < 7
  {
    (n - 1) % 7
  }

  /** The weekdays follow one another. */
  lemma WeekdayNext(n: DayNumber)
    ensures Weekday(n + 1) == if Weekday(n) == 6 then 0 else Weekday(n) + 1
  {
  }

  /** The day an instant falls on. */
  function DayOf(t: Instant): DayNumber {
    t / SecondsPerDay + 1
  }

  /** Seconds since local midnight. */
  function SecondOfDay(t: Instant): (s: nat)
    ensures s < SecondsPerDay
  {
    t % SecondsPerDay
  }

  /** The instant of midnight starting day `n`, negative for days before 0001-01-01. */
  function StartOfDay(n: int): int {
    (n - 1) * SecondsPerDay
  }

  lemma InstantSplit(t: Instant)
    ensures t == StartOfDay(DayOf(t)) + SecondOfDay(t)
  {}

  function DateOf(t: Instant): (d: Date)
    ensures ValidDate(d) && d.year >= 1 && ToOrdinal(d) == DayOf(t)
  {
    FromOrdinal(DayOf(t))
  }

  /** The date `k` calendar months before `d`, with the day clamped to the target month's
    * length, as `DateOffset(months=k)` (and `years=k/12`) subtracts. */
  function ShiftMonthsBack(d: Date, k: nat): (r: Date)
    requires ValidDate(d)
    ensures ValidDate(r)
    ensures MonthIndex(r) == MonthIndex(d) - k
    ensures r.day == d.day || (r.day == DaysInMonth(r.year, r.month) && r.day < d.day)
  {
    var index := MonthIndex(d) - k;
    var y := index / 12;
    var m := index % 12 + 1;
    Date(y, m, if d.day <= DaysInMonth(y, m) then d.day else DaysInMonth(y, m))
  }

  /** Months counted from January of year 0. */
  function MonthIndex(d: Date): int {
    d.year * 12 + d.month - 1
  }

  /** The ordinal of the day before the first day of the month with index `i`. */
  function MonthBase(i: int): int {
    DaysBeforeYear(i / 12) + DaysBeforeMonth(i / 12, i % 12 + 1)
  }

  lemma MonthBaseStep(i: int)
    ensures MonthBase(i + 1) == MonthBase(i) + DaysInMonth(i / 12, i % 12 + 1)
  {
    if i % 12 == 11 {
      assert (i + 1) / 12 == i / 12 + 1 && (i + 1) % 12 == 0;
      YearStep(i / 12);
      MonthStep(i / 12, 12);
    } else {
      assert (i + 1) / 12 == i / 12 && (i + 1) % 12 == i % 12 + 1;
      MonthStep(i / 12, i % 12 + 1);
    }
  }

  lemma {:induction false} MonthBaseAscends(i: int, j: int)
    requires i < j
    ensures MonthBase(i) + DaysInMonth(i / 12, i % 12 + 1) <= MonthBase(j)
    decreases j - i
  {
    MonthBaseStep(i);
    if i + 1 < j {
      MonthBaseAscends(i + 1, j);
    }
  }

  lemma OrdinalByMonth(d: Date)
    requires ValidDate(d)
    ensures MonthIndex(d) / 12 == d.year && MonthIndex(d) % 12 + 1 == d.month
    ensures ToOrdinal(d) == MonthBase(MonthIndex(d)) + d.day
  {}

  /** A date in an earlier month has a smaller ordinal. */
  lemma EarlierMonthEarlierDay(a: Date, b: Date)
    requires ValidDate(a) && ValidDate(b)
    requires MonthIndex(a) < MonthIndex(b)
    ensures ToOrdinal(a) < ToOrdinal(b)
  {
    OrdinalByMonth(a);
    OrdinalByMonth(b);
    MonthBaseAscends(MonthIndex(a), MonthIndex(b));
  }

  /** The instant `k` months before `t` at the same wall-clock time: `t - DateOffset(months=k)`. */
  function MonthsBefore(t: Instant, k: nat): (c: int)
    ensures c <= t
    ensures k == 0 ==> c == t
  {
    var d := DateOf(t);
    var r := ShiftMonthsBack(d, k);
    InstantSplit(t);
    ShiftBackNotLater(d, k);
    StartOfDay(ToOrdinal(r)) + SecondOfDay(t)
  }

  lemma ShiftBackNotLater(d: Date, k: nat)
    requires ValidDate(d)
    ensures ToOrdinal(ShiftMonthsBack(d, k)) <= ToOrdinal(d)
    ensures k == 0 ==> ShiftMonthsBack(d, k) == d
  {
    var r := ShiftMonthsBack(d, k);
    if k == 0 {
      OrdinalByMonth(d);
      assert r == d;
    } else {
      EarlierMonthEarlierDay(r, d);
    }
  }

  /** Midnight of 1 January of the year `t` falls in (see StartOfYearIsNewYear). */
  function StartOfYear(t: Instant): (c: Instant)
    ensures c <= t
  {
    var jan1 := Date(DateOf(t).year, 1, 1);
    InstantSplit(t);
    StartOfDay(ToOrdinal(jan1))
  }

  /** StartOfYear(t) is midnight, on 1 January of t's year. */
  lemma StartOfYearIsNewYear(t: Instant)
    ensures DateOf(StartOfYear(t)) == Date(DateOf(t).year, 1, 1)
    ensures SecondOfDay(StartOfYear(t)) == 0
  {
    var jan1 := Date(DateOf(t).year, 1, 1);
    assert DayOf(StartOfDay(ToOrdinal(jan1))) == ToOrdinal(jan1);
    OrdinalRoundTrip(jan1);
  }

  /** Days elapsed since 1 January of the same year: `(today - datetime(today.year, 1, 1)).days`. */
  function DaysSinceNewYear(today: DayNumber): (days: nat)
    ensures days < DaysInYear(FromOrdinal(today).year)
    ensures today - days >= 1 && FromOrdinal(today - days) == Date(FromOrdinal(today).year, 1, 1)
  {
    var d := FromOrdinal(today);
    var jan1 := Date(d.year, 1, 1);
    YearStep(d.year);
    OrdinalRoundTrip(jan1);
    today - ToOrdinal(jan1)
  }

  /** 1 January of a date's year lies DaysSinceNewYear days before it. */
  lemma NewYearOrdinal(today: DayNumber)
    ensures ToOrdinal(Date(FromOrdinal(today).year, 1, 1)) == today - DaysSinceNewYear(today)
  {
    var days := DaysSinceNewYear(today);
    assert ToOrdinal(FromOrdinal(today - days)) == today - days;
  }
}
