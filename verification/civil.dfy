/** Proleptic Gregorian dates and wall-clock date-times as Python's `datetime`
    module computes them: the day ordinal of `date.toordinal()`, its inverse
    `date.fromordinal()`, adding whole days, and comparison. Every instant of the
    scrapers is local time in Asia/Taipei, taken here as the fixed offset +08:00. */
module Civil {

  datatype Date = Date(year: int, month: int, day: int)

  /** A naive `datetime`: a date and a clock reading, without sub-second part. */
  datatype DateTime = DateTime(date: Date, hour: int, minute: int, second: int)

  const SecondsPerDay: int := 86400

  /** Asia/Taipei's offset from UTC in seconds (+08:00). */
  const UtcOffset: int := 8 * 3600

  predicate IsLeap(y: int)
  {
    y % 4 == 0 && (y % 100 != 0 || y % 400 == 0)
  }

  function DaysInYear(y: int): int
  {
    if IsLeap(y) then 366 else 365
  }

  function DaysInMonth(y: int, m: int): int
    requires 1 <= m <= 12
  {
    if m == 2 then (if IsLeap(y) then 29 else 28)
    else if m == 4 || m == 6 || m == 9 || m == 11 then 30
    else 31
  }

  /** A day of the proleptic Gregorian calendar from year 1 on. */
  predicate ValidDate(d: Date)
  {
    1 <= d.year && 1 <= d.month <= 12 && 1 <= d.day <= DaysInMonth(d.year, d.month)
  }

  /** A date Python's `date` type can hold: years 1 to 9999. */
  predicate InRange(d: Date)
  {
    ValidDate(d) && d.year <= 9999
  }

  /** A date pytz's `localize` accepts a wall-clock time on. For Asia/Taipei it
      looks one day before and one day after the time, so it raises `OverflowError`
      on the first and on the last day a `date` can hold. */
  predicate Localizable(d: Date)
  {
    InRange(d) && d != Date(1, 1, 1) && d != Date(9999, 12, 31)
  }

  /** What `datetime.now()` can give: a date Python can hold. */
  type Today = d: Date | InRange(d) witness Date(1970, 1, 1)

  predicate ValidDateTime(t: DateTime)
  {
    ValidDate(t.date) && 0 <= t.hour <= 23 && 0 <= t.minute <= 59 && 0 <= t.second <= 59
  }

  /** Days in the years before year `y` (Python's `_days_before_year`). */
  function DaysBeforeYear(y: int): (r: int)
    requires y >= 1
    ensures r >= 0
  {
    var n := y - 1;
    n * 365 + n / 4 - n / 100 + n / 400
  }

  /** Days in the months of year `y` before month `m`. */
  function DaysBeforeMonth(y: int, m: int): (r: int)
    requires 1 <= m <= 13
    ensures r >= 0
  {
    if m == 1 then 0 else DaysBeforeMonth(y, m - 1) + DaysInMonth(y, m - 1)
  }

  /** Python's `date.toordinal()`: 0001-01-01 is day 1. */
  function Ordinal(d: Date): (n: int)
    requires ValidDate(d)
    ensures n >= 1
  {
    DaysBeforeYear(d.year) + DaysBeforeMonth(d.year, d.month) + d.day
  }

  lemma YearLength(y: int)
    requires y >= 1
    ensures DaysBeforeYear(y + 1) == DaysBeforeYear(y) + DaysInYear(y)
  {
    QuotientStep4(y);
    QuotientStep100(y);
    QuotientStep400(y);
  }

  /** Moving from `y - 1` to `y` adds a multiple of four exactly when `y` is one. */
  lemma QuotientStep4(y: int)
    ensures y / 4 - (y - 1) / 4 == (if y % 4 == 0 then 1 else 0)
  {
  }

  lemma QuotientStep100(y: int)
    ensures y / 100 - (y - 1) / 100 == (if y % 100 == 0 then 1 else 0)
  {
  }

  lemma QuotientStep400(y: int)
    ensures y / 400 - (y - 1) / 400 == (if y % 400 == 0 then 1 else 0)
  {
  }

  lemma MonthsFillYear(y: int)
    ensures DaysBeforeMonth(y, 13) == DaysInYear(y)
  {
    assert DaysBeforeMonth(y, 2) == 31;
    assert DaysBeforeMonth(y, 3) == 31 + DaysInMonth(y, 2);
    assert DaysBeforeMonth(y, 4) == DaysBeforeMonth(y, 3) + 31;
    assert DaysBeforeMonth(y, 5) == DaysBeforeMonth(y, 3) + 61;
    assert DaysBeforeMonth(y, 6) == DaysBeforeMonth(y, 3) + 92;
    assert DaysBeforeMonth(y, 7) == DaysBeforeMonth(y, 3) + 122;
    assert DaysBeforeMonth(y, 8) == DaysBeforeMonth(y, 3) + 153;
    assert DaysBeforeMonth(y, 9) == DaysBeforeMonth(y, 3) + 184;
    assert DaysBeforeMonth(y, 10) == DaysBeforeMonth(y, 3) + 214;
    assert DaysBeforeMonth(y, 11) == DaysBeforeMonth(y, 3) + 245;
    assert DaysBeforeMonth(y, 12) == DaysBeforeMonth(y, 3) + 275;
    assert DaysBeforeMonth(y, 13) == DaysBeforeMonth(y, 3) + 306;
  }

  lemma FourHundredYears(c: nat)
    ensures DaysBeforeYear(400 * c + 1) == 146097 * c
  {
    assert (400 * c) / 4 == 100 * c;
    assert (400 * c) / 100 == 4 * c;
    assert (400 * c) / 400 == c;
  }

  /** Later years start on later days. */
  lemma {:induction false} YearsIncrease(y: int, z: int)
    requires 1 <= y < z
    ensures DaysBeforeYear(y + 1) <= DaysBeforeYear(z)
    decreases z - y
  {
    if y + 1 < z {
      YearsIncrease(y + 1, z);
      YearLength(y + 1);
    }
  }

  /** Later months of one year start on later days. */
  lemma {:induction false} MonthsIncrease(y: int, m: int, k: int)
    requires 1 <= m < k <= 13
    ensures DaysBeforeMonth(y, m + 1) <= DaysBeforeMonth(y, k)
    decreases k - m
  {
    if m + 1 < k {
      MonthsIncrease(y, m + 1, k);
    }
  }

  /** The ordinal of a date lies within its year and within its month. */
  lemma OrdinalBounds(d: Date)
    requires ValidDate(d)
    ensures DaysBeforeYear(d.year) < Ordinal(d) <= DaysBeforeYear(d.year + 1)
    ensures DaysBeforeMonth(d.year, d.month) < Ordinal(d) - DaysBeforeYear(d.year)
                                              <= DaysBeforeMonth(d.year, d.month + 1)
  {
    YearLength(d.year);
    MonthsFillYear(d.year);
    if d.month < 12 {
      MonthsIncrease(d.year, d.month, 13);
    }
  }

  /** The first year at or after `y` whose end is at or after day `n`. */
  function FindYear(y: int, n: int): (r: int)
    requires y >= 1 && DaysBeforeYear(y) < n
    ensures r >= y && DaysBeforeYear(r) < n <= DaysBeforeYear(r + 1)
    decreases n - DaysBeforeYear(y)
  {
    YearLength(y);
    if n <= DaysBeforeYear(y + 1) then y else FindYear(y + 1, n)
  }

  /** The month of year `y` that holds day `r` of the year. */
  function FindMonth(y: int, m: int, r: int): (k: int)
    requires 1 <= m <= 12 && DaysBeforeMonth(y, m) < r <= DaysInYear(y)
    ensures m <= k <= 12 && DaysBeforeMonth(y, k) < r <= DaysBeforeMonth(y, k + 1)
    decreases 12 - m
  {
    MonthsFillYear(y);
    if r <= DaysBeforeMonth(y, m + 1) then m else FindMonth(y, m + 1, r)
  }

  /** Python's `date.fromordinal(n)`: the search starts at the 400-year cycle
      (146097 days) that holds day `n`, as `_ord2ymd` does. */
  function FromOrdinal(n: int): (d: Date)
    requires n >= 1
    ensures ValidDate(d) && Ordinal(d) == n
  {
    var c := (n - 1) / 146097;
    FourHundredYears(c);
    var y := FindYear(400 * c + 1, n);
    YearLength(y);
    MonthsFillYear(y);
    var r := n - DaysBeforeYear(y);
    var m := FindMonth(y, 1, r);
    Date(y, m, r - DaysBeforeMonth(y, m))
  }

  /** Calendar order on dates: by year, then month, then day. */
  predicate DateBefore(a: Date, b: Date)
  {
    a.year < b.year
    || (a.year == b.year && a.month < b.month)
    || (a.year == b.year && a.month == b.month && a.day < b.day)
  }

  /** Ordinals count days in calendar order. */
  lemma OrdinalMonotone(a: Date, b: Date)
    requires ValidDate(a) && ValidDate(b)
    ensures DateBefore(a, b) <==> Ordinal(a) < Ordinal(b)
  {
    OrdinalBounds(a);
    OrdinalBounds(b);
    if a.year < b.year {
      YearsIncrease(a.year, b.year);
    } else if b.year < a.year {
      YearsIncrease(b.year, a.year);
    } else if a.month < b.month {
      MonthsIncrease(a.year, a.month, b.month);
    } else if b.month < a.month {
      MonthsIncrease(a.year, b.month, a.month);
    }
  }

  /** Distinct dates have distinct ordinals. */
  lemma OrdinalInjective(a: Date, b: Date)
    requires ValidDate(a) && ValidDate(b) && Ordinal(a) == Ordinal(b)
    ensures a == b
  {
    OrdinalMonotone(a, b);
    OrdinalMonotone(b, a);
  }

  /** `fromordinal` undoes `toordinal`. */
  lemma FromOrdinalOfOrdinal(d: Date)
    requires ValidDate(d)
    ensures FromOrdinal(Ordinal(d)) == d
  {
    OrdinalInjective(FromOrdinal(Ordinal(d)), d);
  }

  /** Python's `date + timedelta(days=k)`: the ordinal moved by `k`. */
  function AddDays(d: Date, k: nat): (r: Date)
    requires ValidDate(d)
    ensures ValidDate(r) && Ordinal(r) == Ordinal(d) + k
  {
    OrdinalBounds(d);
    FromOrdinal(Ordinal(d) + k)
  }

  function NextDay(d: Date): Date
    requires ValidDate(d)
  {
    AddDays(d, 1)
  }

  /** The next day by the rules of the calendar: the next day of the month, else
      the first of the next month, else New Year's Day. */
  function Successor(d: Date): Date
    requires ValidDate(d)
  {
    if d.day < DaysInMonth(d.year, d.month) then Date(d.year, d.month, d.day + 1)
    else if d.month < 12 then Date(d.year, d.month + 1, 1)
    else Date(d.year + 1, 1, 1)
  }

  /** Adding one day through ordinals lands on the calendar's next day. */
  lemma NextDayIsSuccessor(d: Date)
    requires ValidDate(d)
    ensures NextDay(d) == Successor(d)
  {
    var s := Successor(d);
    assert ValidDate(s);
    if d.day == DaysInMonth(d.year, d.month) && d.month == 12 {
      YearLength(d.year);
      MonthsFillYear(d.year);
    }
    assert Ordinal(s) == Ordinal(d) + 1;
    OrdinalInjective(NextDay(d), s);
  }

  /** Taking `k + 1` days is taking `k` days and then one more. */
  lemma AddDaysStep(d: Date, k: nat)
    requires ValidDate(d)
    ensures AddDays(d, k + 1) == NextDay(AddDays(d, k))
  {
    OrdinalInjective(AddDays(d, k + 1), NextDay(AddDays(d, k)));
  }

  /** Seconds since 0001-01-01 00:00:00 on the wall clock. */
  function Seconds(t: DateTime): int
    requires ValidDate(t.date)
  {
    (Ordinal(t.date) - 1) * SecondsPerDay + t.hour * 3600 + t.minute * 60 + t.second
  }

  /** The instant a wall-clock reading in Asia/Taipei denotes, in seconds since
      0001-01-01 00:00:00 UTC; this is what aware `datetime`s compare by. */
  function Instant(t: DateTime): int
    requires ValidDate(t.date)
  {
    Seconds(t) - UtcOffset
  }

  /** Python's `<` on naive datetimes: field by field, date first. */
  predicate Earlier(a: DateTime, b: DateTime)
  {
    DateBefore(a.date, b.date)
    || (a.date == b.date
        && (a.hour < b.hour
            || (a.hour == b.hour && a.minute < b.minute)
            || (a.hour == b.hour && a.minute == b.minute && a.second < b.second)))
  }

  /** Python's field-by-field order on naive datetimes is the order of the instants
      they denote in one fixed zone. */
  lemma EarlierIsInstantOrder(a: DateTime, b: DateTime)
    requires ValidDateTime(a) && ValidDateTime(b)
    ensures Earlier(a, b) <==> Instant(a) < Instant(b)
  {
    OrdinalMonotone(a.date, b.date);
    OrdinalMonotone(b.date, a.date);
    if a.date != b.date {
      if Ordinal(a.date) == Ordinal(b.date) {
        OrdinalInjective(a.date, b.date);
      }
    }
  }

  /** Python's `datetime + timedelta(days=1)`: same clock reading, next day. */
  function ShiftDay(t: DateTime): (r: DateTime)
    requires ValidDate(t.date)
    ensures ValidDate(r.date) && Seconds(r) == Seconds(t) + SecondsPerDay
  {
    t.(date := NextDay(t.date))
  }

  /** A date no later than one `datetime` can hold can be held too. */
  lemma InRangeBefore(a: Date, b: Date)
    requires ValidDate(a) && InRange(b) && Ordinal(a) <= Ordinal(b)
    ensures InRange(a)
  {
    OrdinalMonotone(b, a);
  }

  /** The days `k` days on stay in range as long as a later one does. */
  lemma AddDaysInRange(d: Date, k: nat, n: nat)
    requires ValidDate(d) && k <= n && InRange(AddDays(d, n))
    ensures InRange(AddDays(d, k))
  {
    InRangeBefore(AddDays(d, k), AddDays(d, n));
  }

  /** The `n` dates from `today` on: `today + timedelta(days=k)` for `k` in `range(n)`. */
  function Span(today: Date, n: nat): seq<Date>
    requires ValidDate(today)
  {
    seq(n, k requires 0 <= k => AddDays(today, k))
  }

  /** When the last date of a span is one `datetime` holds, so are all the others. */
  lemma SpanInRange(today: Date, n: nat)
    requires ValidDate(today) && n > 0 && InRange(Span(today, n)[n - 1])
    ensures forall i :: 0 <= i < |Span(today, n)| ==> InRange(Span(today, n)[i])
  {
    forall i | 0 <= i < |Span(today, n)|
      ensures InRange(Span(today, n)[i])
    {
      SpanEntry(today, n, i);
    }
  }

  lemma SpanEntry(today: Date, n: nat, i: nat)
    requires ValidDate(today) && i < n && InRange(Span(today, n)[n - 1])
    ensures InRange(Span(today, n)[i])
  {
    var last := Span(today, n)[n - 1];
    var d := Span(today, n)[i];
    InRangeBefore(d, last);
  }
}
