/**
 Civil time. `Instant` is what `datetime_to_micros` returns: microseconds since the Unix epoch.
 Ordinals follow Python's `datetime` (day 1 is 0001-01-01 of the proleptic Gregorian calendar).
 */
module Calendar {
  import opened Wrappers

  type Instant = int

  const SECOND := 1_000_000
  const HOUR := 3600 * SECOND
  const EPOCH_ORDINAL := 719163
  const MAX_ORDINAL := 3652059

  datatype DateTime = DateTime(
    year: int, month: int, day: int, hour: int, minute: int, second: int, micro: int)
  {
    /** The ranges Python's constructor enforces. */
    predicate Valid() {
      && 1 <= year <= 9999
      && 1 <= month <= 12
      && 1 <= day <= DaysInMonth(year, month)
      && 0 <= hour < 24 && 0 <= minute < 60 && 0 <= second < 60
      && 0 <= micro < SECOND
    }
  }

  type Civil = d: DateTime | d.Valid() witness DateTime(1970, 1, 1, 0, 0, 0, 0)

  predicate IsLeap(y: int) {
    y % 4 == 0 && (y % 100 != 0 || y % 400 == 0)
  }

  function DaysInMonth(y: int, m: int): int
    requires 1 <= m <= 12
  {
    if m == 2 then (if IsLeap(y) then 29 else 28)
    else if m in {4, 6, 9, 11} then 30
    else 31
  }

  function DaysBeforeYear(y: int): int {
    (y - 1) * 365 + (y - 1) / 4 - (y - 1) / 100 + (y - 1) / 400
  }

  function DaysBeforeMonth(y: int, m: int): int
    requires 1 <= m <= 12
  {
    if m == 1 then 0 else DaysBeforeMonth(y, m - 1) + DaysInMonth(y, m - 1)
  }

  function Ordinal(y: int, m: int, d: int): int
    requires 1 <= m <= 12
  {
    DaysBeforeYear(y) + DaysBeforeMonth(y, m) + d
  }

  function SecondOfDay(d: DateTime): int {
    d.hour * 3600 + d.minute * 60 + d.second
  }

  /** `datetime_to_micros` of a value that is naive or already UTC. */
  function ToInstant(d: Civil): Instant {
    ((Ordinal(d.year, d.month, d.day) - EPOCH_ORDINAL) * 86400 + SecondOfDay(d)) * SECOND + d.micro
  }

  /** The instants a Python datetime can hold; beyond them arithmetic raises OverflowError. */
  predicate Representable(t: Instant) {
    (1 - EPOCH_ORDINAL) * 86400 * SECOND <= t < (MAX_ORDINAL + 1 - EPOCH_ORDINAL) * 86400 * SECOND
  }

  /** The month holding day `n` (from 0) of a year: the last one that starts no later. */
  function MonthOfDay(y: int, n: int, m: int): (r: int)
    requires 1 <= m <= 12
    requires 0 <= n < DaysBeforeMonth(y, m) + DaysInMonth(y, m)
    ensures 1 <= r <= m
    ensures DaysBeforeMonth(y, r) <= n < DaysBeforeMonth(y, r) + DaysInMonth(y, r)
    decreases m
  {
    if DaysBeforeMonth(y, m) <= n then m else MonthOfDay(y, n, m - 1)
  }

  /** Year and day of year (from 0) of an ordinal, by Python's 400/100/4/1-year cycles. */
  function YearOfOrdinal(ordinal: int): (r: (int, int)) {
    var n := ordinal - 1;
    var n400, a := n / 146097, n % 146097;
    var n100, b := a / 36524, a % 36524;
    var n4, c := b / 1461, b % 1461;
    var n1, d := c / 365, c % 365;
    var year := n400 * 400 + 1 + n100 * 100 + n4 * 4 + n1;
    if n1 == 4 || n100 == 4 then (year - 1, 365) else (year, d)
  }

  lemma YearOfOrdinalIsRight(ordinal: int)
    requires 1 <= ordinal
    ensures var (y, n) := YearOfOrdinal(ordinal);
            1 <= y && 0 <= n < 365 + LeapDay(y) && DaysBeforeYear(y) + n + 1 == ordinal
  {
    hide IsLeap, DaysBeforeYear;
    var n := ordinal - 1;
    var n400, a := n / 146097, n % 146097;
    var n100, b := a / 36524, a % 36524;
    var n4, c := b / 1461, b % 1461;
    var n1, d := c / 365, c % 365;
    assert n == n400 * 146097 + n100 * 36524 + n4 * 1461 + n1 * 365 + d;
    if n100 == 4 {
      CycleYear(n400, 3, 24, 3);
    } else if n1 == 4 {
      CycleYear(n400, n100, n4, 3);
    } else {
      CycleYear(n400, n100, n4, n1);
    }
  }

  lemma DivideByConstants(q: int, r: int)
    ensures 0 <= r < 4 ==> (4 * q + r) / 4 == q && (4 * q + r) % 4 == r
    ensures 0 <= r < 100 ==> (100 * q + r) / 100 == q && (100 * q + r) % 100 == r
    ensures 0 <= r < 400 ==> (400 * q + r) / 400 == q && (400 * q + r) % 400 == r
  {
  }

  lemma CycleDays(n400: int, n100: int, n4: int, n1: int)
    requires 0 <= n100 <= 3 && 0 <= n4 <= 24 && 0 <= n1 <= 3
    ensures DaysBeforeYear(n400 * 400 + 1 + n100 * 100 + n4 * 4 + n1)
            == n400 * 146097 + n100 * 36524 + n4 * 1461 + n1 * 365
  {
    DivideByConstants(100 * n400 + 25 * n100 + n4, n1);
    DivideByConstants(4 * n400 + n100, 4 * n4 + n1);
    DivideByConstants(n400, 100 * n100 + 4 * n4 + n1);
  }

  lemma CycleLeap(n400: int, n100: int, n4: int, n1: int)
    requires 0 <= n100 <= 3 && 0 <= n4 <= 24 && 0 <= n1 <= 3
    ensures IsLeap(n400 * 400 + 1 + n100 * 100 + n4 * 4 + n1) == (n1 == 3 && (n4 != 24 || n100 == 3))
  {
    if n1 < 3 {
      DivideByConstants(100 * n400 + 25 * n100 + n4, n1 + 1);
    } else {
      DivideByConstants(100 * n400 + 25 * n100 + n4 + 1, 0);
      if n4 < 24 {
        DivideByConstants(4 * n400 + n100, 4 * n4 + 4);
      } else if n100 < 3 {
        DivideByConstants(4 * n400 + n100 + 1, 0);
        DivideByConstants(n400, 100 * n100 + 100);
      } else {
        DivideByConstants(n400 + 1, 0);
      }
    }
  }

  /** A year named by its place in the 400/100/4/1-year cycles: days before it, and whether it leaps. */
  lemma CycleYear(n400: int, n100: int, n4: int, n1: int)
    requires 0 <= n100 <= 3 && 0 <= n4 <= 24 && 0 <= n1 <= 3
    ensures var y := n400 * 400 + 1 + n100 * 100 + n4 * 4 + n1;
            && DaysBeforeYear(y) == n400 * 146097 + n100 * 36524 + n4 * 1461 + n1 * 365
            && IsLeap(y) == (n1 == 3 && (n4 != 24 || n100 == 3))
  {
    hide *;
    CycleDays(n400, n100, n4, n1);
    CycleLeap(n400, n100, n4, n1);
  }

  function LeapDay(y: int): int {
    if IsLeap(y) then 1 else 0
  }

  lemma MonthTable(y: int)
    ensures DaysBeforeMonth(y, 1) == 0 && DaysBeforeMonth(y, 2) == 31
    ensures DaysBeforeMonth(y, 3) == 59 + LeapDay(y) && DaysBeforeMonth(y, 4) == 90 + LeapDay(y)
    ensures DaysBeforeMonth(y, 5) == 120 + LeapDay(y) && DaysBeforeMonth(y, 6) == 151 + LeapDay(y)
    ensures DaysBeforeMonth(y, 7) == 181 + LeapDay(y) && DaysBeforeMonth(y, 8) == 212 + LeapDay(y)
    ensures DaysBeforeMonth(y, 9) == 243 + LeapDay(y) && DaysBeforeMonth(y, 10) == 273 + LeapDay(y)
    ensures DaysBeforeMonth(y, 11) == 304 + LeapDay(y) && DaysBeforeMonth(y, 12) == 334 + LeapDay(y)
  {
  }

  lemma QuotientSteps(y: int)
    ensures y / 4 == (y - 1) / 4 + (if y % 4 == 0 then 1 else 0)
    ensures y / 100 == (y - 1) / 100 + (if y % 100 == 0 then 1 else 0)
    ensures y / 400 == (y - 1) / 400 + (if y % 400 == 0 then 1 else 0)
  {
  }

  lemma MultiplesNest(y: int)
    ensures y % 400 == 0 ==> y % 100 == 0
    ensures y % 100 == 0 ==> y % 4 == 0
  {
    DivideByConstants(4 * (y / 400), 0);
    DivideByConstants(25 * (y / 100), 0);
  }

  lemma NextYear(y: int)
    ensures DaysBeforeYear(y + 1) == DaysBeforeYear(y) + 365 + LeapDay(y)
  {
    QuotientSteps(y);
    MultiplesNest(y);
  }

  lemma DaysInYear(y: int)
    ensures DaysBeforeMonth(y, 12) + DaysInMonth(y, 12) == 365 + LeapDay(y)
    ensures DaysBeforeYear(y + 1) == DaysBeforeYear(y) + 365 + LeapDay(y)
  {
    MonthTable(y);
    NextYear(y);
  }

  /** `micros_to_datetime`: None where Python raises OverflowError. */
  function FromInstant(t: Instant): (r: Option<Civil>)
    ensures r.Some? <==> Representable(t)
  {
    if !Representable(t) then None else
    var days, us := t / (86400 * SECOND), t % (86400 * SECOND);
    var (y, n) := YearOfOrdinal(days + EPOCH_ORDINAL);
    var s := us / SECOND;
    YearOfOrdinalIsRight(days + EPOCH_ORDINAL);
    DaysInYear(y);
    LastYear(y);
    ClockFields(s);
    var m := MonthOfDay(y, n, 12);
    Some(DateTime(y, m, n - DaysBeforeMonth(y, m) + 1, s / 3600, s / 60 % 60, s % 60, us % SECOND))
  }

  /** Years that start by the last representable day are at most 9999. */
  lemma LastYear(y: int)
    requires DaysBeforeYear(y) < MAX_ORDINAL
    ensures y <= 9999
  {
  }

  lemma ClockFields(s: int)
    requires 0 <= s < 86400
    ensures s / 3600 * 3600 + s / 60 % 60 * 60 + s % 60 == s
    ensures 0 <= s / 3600 < 24
  {
    var m := s / 60;
    assert m / 60 == s / 3600;
  }

  /** `micros_to_datetime` is a right inverse: the fields it returns spell the same instant. */
  lemma ToInstantOfFromInstant(t: Instant)
    requires Representable(t)
    ensures ToInstant(FromInstant(t).value) == t
  {
    var d := FromInstant(t).value;
    var days, us := t / (86400 * SECOND), t % (86400 * SECOND);
    YearOfOrdinalIsRight(days + EPOCH_ORDINAL);
    assert Ordinal(d.year, d.month, d.day) == days + EPOCH_ORDINAL;
    ClockFields(us / SECOND);
    assert SecondOfDay(d) == us / SECOND;
  }

  /** Chronological order of the fields, most significant first. */
  predicate Before(a: DateTime, b: DateTime) {
    a.year < b.year || (a.year == b.year && (
    a.month < b.month || (a.month == b.month && (
    a.day < b.day || (a.day == b.day && (
    SecondOfDay(a) < SecondOfDay(b) || (SecondOfDay(a) == SecondOfDay(b) && a.micro < b.micro)))))))
  }

  lemma {:induction false} YearsAreOrdered(y: int, z: int)
    requires y < z
    ensures DaysBeforeYear(y) + 365 + LeapDay(y) <= DaysBeforeYear(z)
    decreases z - y
  {
    DaysInYear(z - 1);
    if y < z - 1 {
      YearsAreOrdered(y, z - 1);
    }
  }

  lemma {:induction false} MonthsAreOrdered(y: int, m: int, k: int)
    requires 1 <= m < k <= 12
    ensures DaysBeforeMonth(y, m) + DaysInMonth(y, m) <= DaysBeforeMonth(y, k)
  {
    if m < k - 1 {
      MonthsAreOrdered(y, m, k - 1);
    }
  }

  /** The day of the year stays inside the year. */
  lemma DayOfYearBound(d: Civil)
    ensures 0 <= DaysBeforeMonth(d.year, d.month)
    ensures DaysBeforeMonth(d.year, d.month) + d.day <= 365 + LeapDay(d.year)
  {
    DaysInYear(d.year);
    if d.month < 12 {
      MonthsAreOrdered(d.year, d.month, 12);
    }
    if 1 < d.month {
      MonthsAreOrdered(d.year, 1, d.month);
    }
  }

  /** Earlier fields mean an earlier instant, so `datetime_to_micros` is strictly monotone. */
  lemma EarlierFieldsEarlierInstant(a: Civil, b: Civil)
    requires Before(a, b)
    ensures ToInstant(a) < ToInstant(b)
  {
    DayOfYearBound(a);
    DayOfYearBound(b);
    if a.year < b.year {
      YearsAreOrdered(a.year, b.year);
    } else if a.month < b.month {
      MonthsAreOrdered(a.year, a.month, b.month);
    }
  }

  lemma SameTimeOfDay(a: Civil, b: Civil)
    requires SecondOfDay(a) == SecondOfDay(b)
    ensures a.hour == b.hour && a.minute == b.minute && a.second == b.second
  {
  }

  /** The instant orders datetimes exactly as their fields do, and determines them. */
  lemma InstantOrder(a: Civil, b: Civil)
    ensures ToInstant(a) < ToInstant(b) <==> Before(a, b)
    ensures ToInstant(a) == ToInstant(b) <==> a == b
  {
    if Before(a, b) {
      EarlierFieldsEarlierInstant(a, b);
    } else if Before(b, a) {
      EarlierFieldsEarlierInstant(b, a);
    } else {
      SameTimeOfDay(a, b);
    }
  }

  lemma InstantsAreRepresentable(d: Civil)
    ensures Representable(ToInstant(d))
  {
    DayOfYearBound(d);
    if d.year < 9999 {
      YearsAreOrdered(d.year, 9999);
    }
    if 1 < d.year {
      YearsAreOrdered(1, d.year);
    }
  }

  /** `micros_to_datetime(datetime_to_micros(d)) == d` for every UTC datetime. */
  lemma FromInstantOfToInstant(d: Civil)
    ensures FromInstant(ToInstant(d)) == Some(d)
  {
    InstantsAreRepresentable(d);
    ToInstantOfFromInstant(ToInstant(d));
    InstantOrder(FromInstant(ToInstant(d)).value, d);
  }
}
