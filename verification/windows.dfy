/** The DAY, WEEK and MONTH windows of a limit, in UTC.  Times are microseconds since
    1970-01-01, a Thursday. */
module Windows {
  import opened Limits
  import Rng

  const DAY_LENGTH := 24 * 3600 * 1_000_000

  function DayOf(t: nat): nat { t / DAY_LENGTH }

  /** Sunday is 0. */
  function Weekday(day: nat): nat { (day + 4) % 7 }

  predicate LeapYear(y: nat) { (y % 4 == 0 && y % 100 != 0) || y % 400 == 0 }

  /** Length of month m, counted from January 1970. */
  function DaysIn(m: nat): nat {
    var month := m % 12;
    if month == 1 then (if LeapYear(1970 + m / 12) then 29 else 28)
    else if month == 3 || month == 5 || month == 8 || month == 10 then 30
    else 31
  }

  function FirstDay(m: nat): nat { if m == 0 then 0 else FirstDay(m - 1) + DaysIn(m - 1) }

  lemma {:induction false} FirstDayGrows(m: nat, n: nat)
    requires m < n
    ensures FirstDay(m) + DaysIn(m) <= FirstDay(n)
    decreases n
  {
    if m < n - 1 { FirstDayGrows(m, n - 1); }
  }

  /** The month a day falls in. */
  function MonthFrom(day: nat, m: nat): (n: nat)
    requires FirstDay(m) <= day
    ensures FirstDay(n) <= day < FirstDay(n + 1)
    decreases day - FirstDay(m)
  {
    if day < FirstDay(m + 1) then m else MonthFrom(day, m + 1)
  }

  function MonthOf(day: nat): nat { MonthFrom(day, 0) }

  method WindowBounds(period: Period, now: nat) returns (start: int, end: int)
    ensures start == WindowStart(period, now) && end == WindowEnd(period, now)
  {
    var day := DayOf(now);
    match period {
      case Week =>
        var offset: int := Weekday(day) - 1;
        if offset < 0 { offset := offset + 7; }
        MondayOffset(day);
        start := Midnight(day - offset);
        end := Midnight(day - offset + 7);
      case Month =>
        var m := MonthOf(day);
        start := Midnight(FirstDay(m));
        end := Midnight(FirstDay(m + 1));
      case Day =>
        start := Midnight(day);
        end := Midnight(day + 1);
    }
  }

  /** Days since Monday. */
  lemma MondayOffset(day: nat)
    ensures (day + 3) % 7 == if Weekday(day) == 0 then 6 else Weekday(day) - 1
  {
  }

  /** First day of the window, and the day after its last. */
  function FirstOf(period: Period, day: nat): int {
    match period
    case Day => day
    case Week => day - (day + 3) % 7
    case Month => FirstDay(MonthOf(day))
  }

  function AfterLast(period: Period, day: nat): int {
    match period
    case Day => day + 1
    case Week => FirstOf(Week, day) + 7
    case Month => FirstDay(MonthOf(day) + 1)
  }

  function Midnight(day: int): int { day * DAY_LENGTH }

  function WindowStart(period: Period, now: nat): int { Midnight(FirstOf(period, DayOf(now))) }

  function WindowEnd(period: Period, now: nat): int { Midnight(AfterLast(period, DayOf(now))) }

  lemma DaysPartition(period: Period, d: nat, e: nat)
    ensures FirstOf(period, d) <= d < AfterLast(period, d)
    ensures FirstOf(period, d) <= e < AfterLast(period, d) <==> FirstOf(period, e) == FirstOf(period, d)
    ensures d <= e ==> FirstOf(period, d) <= FirstOf(period, e)
    ensures FirstOf(period, e) == FirstOf(period, d) ==> AfterLast(period, e) == AfterLast(period, d)
  {
    if period.Month? {
      var m, n := MonthOf(d), MonthOf(e);
      if m < n { FirstDayGrows(m, n); }
      if n < m { FirstDayGrows(n, m); }
    }
  }

  /** A week's window starts a whole number of weeks from Monday, 5 January 1970. */
  lemma WeeksStartOnMonday(day: nat)
    ensures (FirstOf(Week, day) - 4) % 7 == 0 && AfterLast(Week, day) == FirstOf(Week, day) + 7
    ensures FirstOf(Week, day) >= 0 ==> Weekday(FirstOf(Week, day)) == 1
  {
    var q := (day + 3) / 7;
    assert FirstOf(Week, day) == 7 * q - 3;
  }

  // --------------------------------------------------------------------------
  // The civil calendar
  // --------------------------------------------------------------------------

  /** Leap days between 1 January 1970 and 1 January of year 1970 + y. */
  function LeapDays(y: nat): int { (1969 + y) / 4 - (1969 + y) / 100 + (1969 + y) / 400 - 477 }

  /** Days of a common year before its month k. */
  const BEFORE_MONTH := [0, 31, 59, 90, 120, 151, 181, 212, 243, 273, 304, 334, 365]

  lemma MultiplesNext(x: nat, d: nat)
    requires d > 0
    ensures (x + 1) / d == x / d + if (x + 1) % d == 0 then 1 else 0
  {
    var q, r := x / d, x % d;
    assert x == q * d + r;
    if r + 1 < d {
      Rng.DivModUnique(x + 1, d, q, r + 1);
    } else {
      assert (q + 1) * d == q * d + d;
      Rng.DivModUnique(x + 1, d, q + 1, 0);
    }
  }

  lemma LeapDaysNext(y: nat)
    ensures LeapDays(y + 1) == LeapDays(y) + if LeapYear(1970 + y) then 1 else 0
  {
    MultiplesNext(1969 + y, 4);
    MultiplesNext(1969 + y, 100);
    MultiplesNext(1969 + y, 400);
    Centuries(1970 + y);
  }

  lemma Centuries(x: nat)
    ensures x % 400 == 0 ==> x % 100 == 0
    ensures x % 100 == 0 ==> x % 4 == 0
  {
    if x % 400 == 0 { Rng.DivModUnique(x, 100, 4 * (x / 400), 0); }
    if x % 100 == 0 { Rng.DivModUnique(x, 4, 25 * (x / 100), 0); }
  }

  lemma MonthOfYear(y: nat, k: nat)
    requires k < 12
    ensures DaysIn(12 * y + k) == BEFORE_MONTH[k + 1] - BEFORE_MONTH[k] + if k == 1 && LeapYear(1970 + y) then 1 else 0
  {
    assert (12 * y + k) % 12 == k && (12 * y + k) / 12 == y;
  }

  lemma {:induction false} WithinYear(y: nat, k: nat)
    requires k <= 12
    ensures FirstDay(12 * y + k) == FirstDay(12 * y) + BEFORE_MONTH[k] + if k >= 2 && LeapYear(1970 + y) then 1 else 0
  {
    if k > 0 {
      WithinYear(y, k - 1);
      MonthOfYear(y, k - 1);
    }
  }

  lemma YearLength(y: nat)
    ensures FirstDay(12 * (y + 1)) == FirstDay(12 * y) + 365 + if LeapYear(1970 + y) then 1 else 0
  {
    WithinYear(y, 12);
    assert 12 * y + 12 == 12 * (y + 1);
  }

  lemma {:induction false} YearStart(y: nat)
    ensures FirstDay(12 * y) == 365 * y + LeapDays(y)
  {
    if y > 0 {
      YearStart(y - 1);
      YearLength(y - 1);
      LeapDaysNext(y - 1);
    }
  }

  /** The first day of month k of year 1970 + y, counted from 1 January 1970, by the Gregorian rule. */
  lemma CivilCalendar(y: nat, k: nat)
    requires k < 12
    ensures FirstDay(12 * y + k) == 365 * y + LeapDays(y) + BEFORE_MONTH[k] + if k >= 2 && LeapYear(1970 + y) then 1 else 0
  {
    WithinYear(y, k);
    YearStart(y);
  }

  /** A day window is the 86,400 seconds from a midnight; the others run from midnight to midnight. */
  lemma WindowsAreDays(period: Period, t: nat)
    ensures WindowEnd(Day, t) - WindowStart(Day, t) == 86_400_000_000
    ensures WindowStart(period, t) % 86_400_000_000 == 0 && WindowEnd(period, t) % 86_400_000_000 == 0
    ensures WindowStart(Month, t) == 86_400_000_000 * FirstDay(MonthOf(t / 86_400_000_000))
    ensures WindowEnd(Month, t) == 86_400_000_000 * FirstDay(MonthOf(t / 86_400_000_000) + 1)
  {
  }

  /** The windows of a period partition time: every instant lies in its own window, two instants
      share a window exactly when one lies in the other's, and later windows start later. */
  lemma WindowsPartitionTime(period: Period, t: nat, u: nat)
    ensures WindowStart(period, t) <= t < WindowEnd(period, t)
    ensures WindowStart(period, t) <= u < WindowEnd(period, t) <==> WindowStart(period, u) == WindowStart(period, t)
    ensures t <= u ==> WindowStart(period, t) <= WindowStart(period, u)
    ensures WindowStart(period, u) == WindowStart(period, t) ==> WindowEnd(period, u) == WindowEnd(period, t)
  {
    var d, e := DayOf(t), DayOf(u);
    var a, b := FirstOf(period, d), AfterLast(period, d);
    DaysPartition(period, d, e);
    DaysPartition(period, d, d);
    Between(a, d, t);
    Between(b, d, t);
    Between(a, e, u);
    Between(b, e, u);
    MidnightOrder(a, FirstOf(period, e));
    MidnightOrder(FirstOf(period, e), a);
    DayOrder(t, u);
  }

  lemma DayOrder(t: nat, u: nat)
    ensures t <= u ==> DayOf(t) <= DayOf(u)
  {
  }

  lemma MidnightOrder(a: int, b: int)
    ensures a <= b <==> Midnight(a) <= Midnight(b)
  {
  }

  /** A midnight is at or before an instant exactly when its day is. */
  lemma Between(day: int, d: nat, t: nat)
    requires d == DayOf(t)
    ensures Midnight(day) <= t <==> day <= d
  {
  }
}
