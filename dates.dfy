/**
 * Naive proleptic-Gregorian calendar dates, as the JavaScript `Date`
 * getters report them: `year` is `getFullYear()`, `month` is `getMonth()`
 * (0 = January .. 11 = December), `day` is `getDate()` (1-based).
 *
 * Day numbers count days from 0000-01-01; they exist to prove that the
 * day-by-day operations (`NextDay`, `PrevDay`, `AddDays`, JavaScript's
 * `setDate` normalisation) move along the time line one day at a time,
 * and to compute the weekday as `getDay()` does (0 = Sunday).
 */
module Dates {

  datatype Date = Date(year: int, month: int, day: int)

  /** The Gregorian leap-year rule (divisible by 4, except centuries not divisible by 400). */
  predicate IsLeapYear(y: int) {
    y % 4 == 0 && (y % 100 != 0 || y % 400 == 0)
  }

  function DaysInMonth(y: int, m: int): (n: int)
    requires 0 <= m < 12
    ensures 28 <= n <= 31
    ensures m == 1 ==> (n == 29 <==> IsLeapYear(y))
    ensures m == 1 && !IsLeapYear(y) ==> n == 28
    ensures m != 1 ==> (n == 30 <==> m in {3, 5, 8, 10})
    ensures n == 31 <==> m in {0, 2, 4, 6, 7, 9, 11}
  {
    if m == 1 then (if IsLeapYear(y) then 29 else 28)
    else if m == 3 || m == 5 || m == 8 || m == 10 then 30
    else 31
  }

  /** A date that names an existing calendar day (every JavaScript `Date` reads back as one). */
  predicate ValidDate(d: Date) {
    0 <= d.month < 12 && 1 <= d.day <= DaysInMonth(d.year, d.month)
  }

  function DaysInYear(y: int): int {
    if IsLeapYear(y) then 366 else 365
  }

  /** Days from 0000-01-01 to January 1st of year `y` (negative before year 0). */
  function DaysBeforeYear(y: int): int {
    365 * y + (y + 3) / 4 - (y + 99) / 100 + (y + 399) / 400
  }

  /** Days from January 1st to the first day of month `m` of year `y`. */
  function DaysBeforeMonth(y: int, m: int): int
    requires 0 <= m < 12
  {
    [0, 31, 59, 90, 120, 151, 181, 212, 243, 273, 304, 334][m]
      + (if m >= 2 && IsLeapYear(y) then 1 else 0)
  }

  function DayNumber(d: Date): int
    requires 0 <= d.month < 12
  {
    DaysBeforeYear(d.year) + DaysBeforeMonth(d.year, d.month) + d.day - 1
  }

  /** `getDay()`: 0 = Sunday .. 6 = Saturday; 0000-01-01 (day number 0) was a Saturday. */
  function Weekday(d: Date): (w: int)
    requires 0 <= d.month < 12
    ensures 0 <= w < 7
  {
    (DayNumber(d) + 6) % 7
  }

  /** The calendar day after `d`, carrying into the next month and year. */
  function NextDay(d: Date): Date
    requires ValidDate(d)
  {
    if d.day < DaysInMonth(d.year, d.month) then Date(d.year, d.month, d.day + 1)
    else if d.month < 11 then Date(d.year, d.month + 1, 1)
    else Date(d.year + 1, 0, 1)
  }

  /** The calendar day before `d`, borrowing from the previous month and year. */
  function PrevDay(d: Date): Date
    requires ValidDate(d)
  {
    if d.day > 1 then Date(d.year, d.month, d.day - 1)
    else if d.month > 0 then Date(d.year, d.month - 1, DaysInMonth(d.year, d.month - 1))
    else Date(d.year - 1, 11, 31)
  }

  /** `d` moved `k` days forward (or `-k` days back). */
  function AddDays(d: Date, k: int): (r: Date)
    requires ValidDate(d)
    ensures ValidDate(r) && DayNumber(r) == DayNumber(d) + k
    decreases if k >= 0 then k else -k
  {
    if k == 0 then d
    else if k > 0 then
      var p := AddDays(d, k - 1);
      NextDayNumber(p);
      NextDay(p)
    else
      var p := AddDays(d, k + 1);
      PrevDayNumber(p);
      PrevDay(p)
  }

  /**
   * `d.setDate(n)` of JavaScript: the `n`-th day of `d`'s month, where
   * `n` below 1 or past the month's end carries into earlier or later
   * months.
   */
  function SetDate(d: Date, n: int): (r: Date)
    requires ValidDate(d)
    ensures ValidDate(r) && DayNumber(r) == DayNumber(d) - d.day + n
  {
    AddDays(Date(d.year, d.month, 1), n - 1)
  }

  /** `d.setDate(n)` on a date object: the same month's day `n`, counted on across month ends either way. */
  method SetDateOf(d: Date, n: int) returns (r: Date)
    requires ValidDate(d)
    ensures ValidDate(r) && DayNumber(r) == DayNumber(d) - d.day + n
  {
    r := SetDate(d, n);
  }

  /** The year JavaScript's `new Date(year, month, day)` uses: 0..99 are read as 1900..1999. */
  function FullYear(year: int): int {
    if 0 <= year <= 99 then 1900 + year else year
  }

  /** `new Date(year, month, 1)` for a month 0..11. */
  function MonthStart(year: int, month: int): (r: Date)
    requires 0 <= month < 12
    ensures ValidDate(r) && r == Date(FullYear(year), month, 1)
  {
    Date(FullYear(year), month, 1)
  }

  // ---------------------------------------------------------------------
  // Day-number facts

  lemma YearStep(y: int)
    ensures DaysBeforeYear(y + 1) == DaysBeforeYear(y) + DaysInYear(y)
  {
    MultipleStep(y, 4);
    MultipleStep(y, 100);
    MultipleStep(y, 400);
    if y % 400 == 0 {
      DividesMultiple(y, 400, 100);
      DividesMultiple(y, 400, 4);
    } else if y % 100 == 0 {
      DividesMultiple(y, 100, 4);
    }
  }

  /** A multiple of `k * j` is a multiple of `j`. */
  lemma DividesMultiple(y: int, kj: int, j: int)
    requires 0 < j && kj % j == 0 && 0 < kj && y % kj == 0
    ensures y % j == 0
  {
    var q, c := y / kj, kj / j;
    assert y == kj * q;
    assert kj == j * c;
    assert y == j * (c * q);
    DivOf(y, j, c * q, 0);
  }

  /** Counting multiples of `k`: `(y + k) / k` exceeds `(y + k - 1) / k` exactly when `k` divides `y`. */
  lemma MultipleStep(y: int, k: int)
    requires k > 0
    ensures (y + k) / k - (y + k - 1) / k == if y % k == 0 then 1 else 0
  {
    var q, r := y / k, y % k;
    assert y + k == k * (q + 1) + r;
    DivOf(y + k, k, q + 1, r);
    if r == 0 {
      assert y + k - 1 == k * q + (k - 1);
      DivOf(y + k - 1, k, q, k - 1);
    } else {
      assert y + k - 1 == k * (q + 1) + (r - 1);
      DivOf(y + k - 1, k, q + 1, r - 1);
    }
  }

  lemma DivOf(a: int, k: int, q: int, r: int)
    requires k > 0 && 0 <= r < k && a == k * q + r
    ensures a / k == q
  {
    var q', r' := a / k, a % k;
    assert a == k * q' + r';
    if q' < q {
      assert k * (q - q') == k * q - k * q';
      ProductAtLeast(k, q - q');
    } else if q' > q {
      assert k * (q' - q) == k * q' - k * q;
      ProductAtLeast(k, q' - q);
    }
  }

  lemma {:induction false} ProductAtLeast(k: int, m: int)
    requires k > 0 && m >= 1
    ensures k * m >= k
    decreases m
  {
    if m > 1 {
      ProductAtLeast(k, m - 1);
      assert k * m == k * (m - 1) + k;
    }
  }

  lemma NextDayNumber(d: Date)
    requires ValidDate(d)
    ensures ValidDate(NextDay(d)) && DayNumber(NextDay(d)) == DayNumber(d) + 1
  {
    if d.day == DaysInMonth(d.year, d.month) && d.month == 11 {
      YearStep(d.year);
    }
  }

  lemma PrevDayNumber(d: Date)
    requires ValidDate(d)
    ensures ValidDate(PrevDay(d)) && DayNumber(PrevDay(d)) == DayNumber(d) - 1
  {
    if d.day == 1 && d.month == 0 {
      YearStep(d.year - 1);
    }
  }

  lemma {:induction false} YearsMonotone(a: int, b: int)
    requires a <= b
    ensures DaysBeforeYear(a) <= DaysBeforeYear(b)
    decreases b - a
  {
    if a < b {
      YearStep(a);
      YearsMonotone(a + 1, b);
    }
  }

  /** A valid date's day number lies within its own year. */
  lemma DayNumberInYear(d: Date)
    requires ValidDate(d)
    ensures DaysBeforeYear(d.year) <= DayNumber(d) < DaysBeforeYear(d.year + 1)
  {
    YearStep(d.year);
  }

  /** Day numbers name calendar days one-to-one: equal day numbers mean the same date. */
  lemma DayNumberInjective(d1: Date, d2: Date)
    requires ValidDate(d1) && ValidDate(d2)
    requires DayNumber(d1) == DayNumber(d2)
    ensures d1 == d2
  {
    DayNumberInYear(d1);
    DayNumberInYear(d2);
    if d1.year < d2.year {
      YearsMonotone(d1.year + 1, d2.year);
    } else if d2.year < d1.year {
      YearsMonotone(d2.year + 1, d1.year);
    }
    assert d1.year == d2.year;
  }

  /** The weekday advances by one, Saturday wrapping to Sunday. */
  lemma NextWeekday(d: Date)
    requires ValidDate(d)
    ensures Weekday(NextDay(d)) == (Weekday(d) + 1) % 7
  {
    NextDayNumber(d);
    var e := NextDay(d);
    assert DayNumber(e) + 6 == (DayNumber(d) + 6) + 1;
    SuccMod7(DayNumber(d) + 6);
  }

  /** The remainder by 7 of a successor is the successor of the remainder, 6 wrapping to 0. */
  lemma SuccMod7(n: int)
    ensures (n + 1) % 7 == (n % 7 + 1) % 7
  {
    assert n == 7 * (n / 7) + n % 7;
    if n % 7 < 6 {
      DivOf(n + 1, 7, n / 7, n % 7 + 1);
    } else {
      DivOf(n + 1, 7, n / 7 + 1, 0);
    }
  }

  /** `d.setDate(d.getDate() + 1)` is exactly the next calendar day, across month and year ends. */
  lemma SetDateTomorrow(d: Date)
    requires ValidDate(d)
    ensures SetDate(d, d.day + 1) == NextDay(d)
  {
    NextDayNumber(d);
    DayNumberInjective(SetDate(d, d.day + 1), NextDay(d));
  }

  /** Within a month, `SetDate` with an in-range day is that very day (no carrying). */
  lemma SetDateInMonth(d: Date, n: int)
    requires ValidDate(d) && 1 <= n <= DaysInMonth(d.year, d.month)
    ensures SetDate(d, n) == Date(d.year, d.month, n)
  {
    DayNumberInjective(SetDate(d, n), Date(d.year, d.month, n));
  }
}
