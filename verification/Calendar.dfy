/** UTC days and months of the budget limiter (internal/limiter/budget.go:296-308).
    An instant is a number of nanoseconds since 0001-01-01T00:00:00Z, the zero value of
    Go's time.Time, in the proleptic Gregorian calendar that time.Date uses. */
module Calendar {

  const DAY: nat := 86_400_000_000_000

  /** A clock reading after January of year 1: no day or month of it starts at the zero time. */
  type Instant = t: nat | 31 * DAY <= t witness 31 * DAY

  predicate LeapYear(year: nat) {
    year % 4 == 0 && (year % 100 != 0 || year % 400 == 0)
  }

  /** Months are numbered from January of year 1. */
  function MonthLength(month: nat): nat {
    var year, index := month / 12 + 1, month % 12;
    if index == 1 then if LeapYear(year) then 29 else 28
    else if index == 3 || index == 5 || index == 8 || index == 10 then 30
    else 31
  }

  /** The number of days before the month. */
  function FirstDay(month: nat): nat {
    if month == 0 then 0 else FirstDay(month - 1) + MonthLength(month - 1)
  }

  function MonthFrom(day: nat, month: nat): nat
    requires FirstDay(month) <= day
    decreases day - FirstDay(month)
  {
    if day < FirstDay(month + 1) then month else MonthFrom(day, month + 1)
  }

  function DayOf(t: nat): nat { t / DAY }

  function MonthOf(t: nat): nat { MonthFrom(t / DAY, 0) }

  /** A clock reading with its UTC date. Days and months are numbered from January 1 of year 1. */
  datatype Moment = Moment(at: nat, day: nat, month: nat)

  function At(t: nat): Moment { Moment(t, DayOf(t), MonthOf(t)) }

  function NextDay(m: Moment): nat { (m.day + 1) * DAY }

  function NextMonth(m: Moment): nat { FirstDay(m.month + 1) * DAY }

  lemma {:induction false} MonthFromBounds(day: nat, month: nat)
    requires FirstDay(month) <= day
    ensures var m := MonthFrom(day, month); month <= m && FirstDay(m) <= day < FirstDay(m + 1)
    decreases day - FirstDay(month)
  {
    if day >= FirstDay(month + 1) {
      MonthFromBounds(day, month + 1);
    }
  }

  lemma {:induction false} FirstDayMonotone(a: nat, b: nat)
    requires a <= b
    ensures FirstDay(a) + 28 * (b - a) <= FirstDay(b)
  {
    if a < b {
      FirstDayMonotone(a, b - 1);
    }
  }

  /** The days before a year, counted from the year 1, and before a month of it, counted from 1. */
  function DaysToYear(year: nat): int { 365 * year + year / 4 - year / 100 + year / 400 }

  function DaysToMonth(m: nat, leap: bool): int { (367 * m - 362) / 12 - if m <= 2 then 0 else if leap then 1 else 2 }

  lemma YearStep(year: nat)
    ensures DaysToYear(year + 1) == DaysToYear(year) + if LeapYear(year + 1) then 366 else 365
  {
    assert (year + 1) / 4 == year / 4 + if (year + 1) % 4 == 0 then 1 else 0;
    assert (year + 1) / 100 == year / 100 + if (year + 1) % 100 == 0 then 1 else 0;
    assert (year + 1) / 400 == year / 400 + if (year + 1) % 400 == 0 then 1 else 0;
  }

  lemma MonthStep(m: nat, leap: bool)
    requires 1 <= m <= 12
    ensures DaysToMonth(m + 1, leap) == DaysToMonth(m, leap)
            + (if m == 2 then if leap then 29 else 28 else if m in {4, 6, 9, 11} then 30 else 31)
    ensures DaysToMonth(1, leap) == 0 && DaysToMonth(13, leap) == if leap then 366 else 365
  {
  }

  /** The closed form of the Gregorian calendar: a year has 365 days, every fourth one 366, except every
      hundredth, except every four hundredth; (367 m - 362) / 12 days come before its month m, one fewer
      after February of a leap year, two fewer after February of any other. */
  lemma {:induction false} Gregorian(year: nat, m: nat)
    requires 1 <= m <= 12
    ensures FirstDay(12 * year + m - 1) == DaysToYear(year) + DaysToMonth(m, LeapYear(year + 1))
    decreases year, m
  {
    if 1 < m {
      Gregorian(year, m - 1);
      LengthOf(year, m - 1);
      MonthStep(m - 1, LeapYear(year + 1));
    } else if 0 < year {
      Gregorian(year - 1, 12);
      LengthOf(year - 1, 12);
      MonthStep(12, LeapYear(year));
      YearStep(year - 1);
    }
  }

  lemma LengthOf(year: nat, m: nat)
    requires 1 <= m <= 12
    ensures MonthLength(12 * year + m - 1)
            == if m == 2 then if LeapYear(year + 1) then 29 else 28 else if m in {4, 6, 9, 11} then 30 else 31
  {
    var month := 12 * year + m - 1;
    assert month / 12 == year && month % 12 == m - 1;
  }

  /** The months partition the days: each day lies in exactly one of them. */
  lemma MonthIsUnique(day: nat, month: nat)
    ensures FirstDay(month) <= day < FirstDay(month + 1) <==> month == MonthFrom(day, 0)
  {
    MonthFromBounds(day, 0);
    var m := MonthFrom(day, 0);
    if month < m {
      FirstDayMonotone(month + 1, m);
    } else if m < month {
      FirstDayMonotone(m + 1, month);
    }
  }

  /** The instants of a month are those from its start to the start of the next one. */
  lemma MonthSpan(t: nat, month: nat)
    ensures FirstDay(month) * DAY <= t < FirstDay(month + 1) * DAY <==> MonthOf(t) == month
  {
    MonthIsUnique(t / DAY, month);
  }

  /** Dates never move back when time does not. */
  lemma DatesMonotone(t: nat, u: nat)
    requires t <= u
    ensures At(t).day <= At(u).day && At(t).month <= At(u).month
  {
    MonthSpan(t, MonthOf(t));
    MonthSpan(u, MonthOf(u));
    if MonthOf(u) < MonthOf(t) {
      FirstDayMonotone(MonthOf(u) + 1, MonthOf(t));
    }
  }

  /** Each month and each day is named by its start: distinct numbers have distinct starts, and a
      start lies in the period it starts. */
  lemma StartsFaithful(month: nat, other: nat)
    ensures FirstDay(month) == FirstDay(other) <==> month == other
    ensures FirstDay(month) < FirstDay(other) <==> month < other
    ensures MonthOf(FirstDay(month) * DAY) == month
  {
    if month <= other { FirstDayMonotone(month, other); } else { FirstDayMonotone(other, month); }
    FirstDayMonotone(month, month + 1);
    MonthSpan(FirstDay(month) * DAY, month);
  }
}
