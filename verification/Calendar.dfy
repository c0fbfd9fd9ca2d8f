/** The proleptic Gregorian calendar in UTC. Day 0 is 1 January of year 1, the day of Go's
    zero `time.Time`; a date is what `Year`, `Month`, `Day` and `Weekday` report for it. */
module Calendar {

  datatype Date = Date(year: nat, month: nat, day: nat)

  predicate Leap(y: nat) {
    y % 4 == 0 && (y % 100 != 0 || y % 400 == 0)
  }

  function DaysIn(y: nat, m: nat): nat {
    if m == 2 then (if Leap(y) then 29 else 28)
    else if m == 4 || m == 6 || m == 9 || m == 11 then 30
    else 31
  }

  predicate Valid(d: Date) {
    d.year >= 1 && 1 <= d.month <= 12 && 1 <= d.day <= DaysIn(d.year, d.month)
  }

  /** The day after `d`. */
  function Tomorrow(d: Date): Date {
    if d.day < DaysIn(d.year, d.month) then d.(day := d.day + 1)
    else if d.month < 12 then Date(d.year, d.month + 1, 1)
    else Date(d.year + 1, 1, 1)
  }

  function DateOf(n: nat): Date {
    if n == 0 then Date(1, 1, 1) else Tomorrow(DateOf(n - 1))
  }

  /** 0 is Sunday; 1 January of year 1 was a Monday. */
  function Weekday(n: nat): nat {
    (n + 1) % 7
  }

  /** Weekdays follow one another, and 1 January 2000 was a Saturday. */
  lemma WeekdaysFollow(n: nat)
    ensures Weekday(n) <= 6 && Weekday(n + 1) == if Weekday(n) == 6 then 0 else Weekday(n) + 1
    ensures DayNumber(Date(2000, 1, 1)) >= 0 && Weekday(DayNumber(Date(2000, 1, 1))) == 6
  {
  }

  function DaysBeforeYear(y: nat): int
    requires y >= 1
  {
    365 * (y - 1) + (y - 1) / 4 - (y - 1) / 100 + (y - 1) / 400
  }

  function DaysBeforeMonth(y: nat, m: nat): nat
    requires 1 <= m <= 13
  {
    if m == 1 then 0 else DaysBeforeMonth(y, m - 1) + DaysIn(y, m - 1)
  }

  /** The closed form that `DateOf` inverts. */
  function DayNumber(d: Date): int
    requires Valid(d)
  {
    DaysBeforeYear(d.year) + DaysBeforeMonth(d.year, d.month) + d.day - 1
  }

  lemma DivStep4(y: nat)
    requires y >= 1
    ensures y / 4 == (y - 1) / 4 + (if y % 4 == 0 then 1 else 0)
  {
  }

  lemma DivStep100(y: nat)
    requires y >= 1
    ensures y / 100 == (y - 1) / 100 + (if y % 100 == 0 then 1 else 0)
  {
    DivStepBy(y, 100, y / 100, y % 100);
  }

  lemma DivStep400(y: nat)
    requires y >= 1
    ensures y / 400 == (y - 1) / 400 + (if y % 400 == 0 then 1 else 0)
  {
    DivStepBy(y, 400, y / 400, y % 400);
  }

  /** The quotient grows by one exactly at multiples. */
  lemma DivStepBy(y: nat, k: nat, q: nat, r: nat)
    requires y >= 1 && k >= 2 && y == q * k + r && r < k
    ensures (y - 1) / k == if r == 0 then q - 1 else q
  {
    if r == 0 {
      assert y - 1 == (q - 1) * k + (k - 1);
      QuotientIs(y - 1, k, q - 1, k - 1);
    } else {
      QuotientIs(y - 1, k, q, r - 1);
    }
  }

  lemma QuotientIs(x: int, k: nat, q: int, r: nat)
    requires k >= 1 && x == q * k + r && r < k
    ensures x / k == q
  {
    var d := x / k - q;
    assert x == (x / k) * k + x % k;
    assert d * k == r - x % k;
    MultipleSize(d, k);
  }

  lemma RemainderIs(x: int, k: nat, q: int, r: nat)
    requires k >= 1 && x == q * k + r && r < k
    ensures x % k == r
  {
    QuotientIs(x, k, q, r);
    assert x == (x / k) * k + x % k;
  }

  lemma MultipleSize(d: int, k: nat)
    ensures d >= 1 ==> d * k >= k
    ensures d <= -1 ==> d * k <= 0 - k
  {
    if d >= 1 {
      assert d * k == k + (d - 1) * k;
    } else if d <= -1 {
      assert d * k == (d + 1) * k - k;
    }
  }

  lemma Multiples(y: nat)
    ensures y % 400 == 0 ==> y % 100 == 0
    ensures y % 100 == 0 ==> y % 4 == 0
  {
    if y % 400 == 0 {
      assert y == 100 * (4 * (y / 400));
    }
    if y % 100 == 0 {
      assert y == 4 * (25 * (y / 100));
    }
  }

  lemma YearLength(y: nat)
    requires y >= 1
    ensures DaysBeforeYear(y + 1) == DaysBeforeYear(y) + (if Leap(y) then 366 else 365)
  {
    DivStep4(y);
    DivStep100(y);
    DivStep400(y);
    Multiples(y);
    LeapDays(y % 4 == 0, y % 100 == 0, y % 400 == 0);
  }

  /** The leap year rule counts one day for a year exactly when the three quotients do. */
  lemma LeapDays(four: bool, hundred: bool, fourHundred: bool)
    requires (fourHundred ==> hundred) && (hundred ==> four)
    ensures (if four then 1 else 0) - (if hundred then 1 else 0) + (if fourHundred then 1 else 0)
         == if four && (!hundred || fourHundred) then 1 else 0
  {
  }

  lemma MonthTable(y: nat)
    ensures DaysBeforeMonth(y, 2) == 31
    ensures DaysBeforeMonth(y, 3) == 31 + DaysIn(y, 2)
    ensures DaysBeforeMonth(y, 13) == if Leap(y) then 366 else 365
  {
    assert DaysBeforeMonth(y, 2) == 31;
    assert DaysBeforeMonth(y, 3) == 31 + DaysIn(y, 2);
    assert DaysBeforeMonth(y, 4) == 62 + DaysIn(y, 2);
    assert DaysBeforeMonth(y, 6) == 123 + DaysIn(y, 2);
    assert DaysBeforeMonth(y, 8) == 184 + DaysIn(y, 2);
    assert DaysBeforeMonth(y, 10) == 245 + DaysIn(y, 2);
    assert DaysBeforeMonth(y, 12) == 306 + DaysIn(y, 2);
  }

  lemma {:induction false} MonthMonotone(y: nat, a: nat, b: nat)
    requires 1 <= a <= b <= 13
    ensures DaysBeforeMonth(y, a) + 28 * (b - a) <= DaysBeforeMonth(y, b)
    decreases b - a
  {
    if a < b {
      MonthMonotone(y, a, b - 1);
    }
  }

  lemma {:induction false} YearMonotone(a: nat, b: nat)
    requires 1 <= a <= b
    ensures DaysBeforeYear(a) + 365 * (b - a) <= DaysBeforeYear(b) <= DaysBeforeYear(a) + 366 * (b - a)
    decreases b - a
  {
    if a < b {
      YearMonotone(a, b - 1);
      YearLength(b - 1);
    }
  }

  lemma WithinYear(d: Date)
    requires Valid(d)
    ensures DaysBeforeYear(d.year) <= DayNumber(d) < DaysBeforeYear(d.year + 1)
    ensures DayNumber(d) < DaysBeforeYear(d.year) + DaysBeforeMonth(d.year, d.month + 1)
  {
    YearLength(d.year);
    MonthTable(d.year);
    MonthMonotone(d.year, d.month + 1, 13);
    assert DaysBeforeMonth(d.year, d.month + 1) == DaysBeforeMonth(d.year, d.month) + DaysIn(d.year, d.month);
  }

  lemma TomorrowIsNextNumber(d: Date)
    requires Valid(d)
    ensures Valid(Tomorrow(d)) && DayNumber(Tomorrow(d)) == DayNumber(d) + 1
  {
    YearLength(d.year);
    MonthTable(d.year);
  }

  predicate Before(a: Date, b: Date) {
    || a.year < b.year
    || (a.year == b.year && (a.month < b.month || (a.month == b.month && a.day < b.day)))
  }

  lemma MonotoneWithinYear(a: Date, b: Date)
    requires Valid(a) && Valid(b) && Before(a, b) && a.year == b.year
    ensures DayNumber(a) < DayNumber(b)
  {
    if a.month < b.month {
      MonthMonotone(a.year, a.month + 1, b.month);
    }
  }

  lemma DayNumberMonotone(a: Date, b: Date)
    requires Valid(a) && Valid(b) && Before(a, b)
    ensures DayNumber(a) < DayNumber(b)
  {
    if a.year < b.year {
      WithinYear(a);
      WithinYear(b);
      YearMonotone(a.year + 1, b.year);
    } else {
      MonotoneWithinYear(a, b);
    }
  }

  lemma DayNumberInjective(a: Date, b: Date)
    requires Valid(a) && Valid(b) && DayNumber(a) == DayNumber(b)
    ensures a == b
  {
    if a != b {
      if Before(a, b) {
        DayNumberMonotone(a, b);
      } else {
        DayNumberMonotone(b, a);
      }
    }
  }

  lemma {:induction false} NumberOfDate(n: nat)
    ensures Valid(DateOf(n)) && DayNumber(DateOf(n)) == n
  {
    if n > 0 {
      NumberOfDate(n - 1);
      TomorrowIsNextNumber(DateOf(n - 1));
    }
  }

  lemma DateOfNumber(d: Date)
    requires Valid(d)
    ensures DayNumber(d) >= 0 && DateOf(DayNumber(d)) == d
  {
    WithinYear(d);
    YearMonotone(1, d.year);
    NumberOfDate(DayNumber(d));
    DayNumberInjective(DateOf(DayNumber(d)), d);
  }

  /** Any date of the `k`-th following year lies at most 366 * (k + 1) days ahead. */
  lemma DistanceToYear(n: nat, k: nat, d: Date)
    requires Valid(d) && d.year == DateOf(n).year + k && k >= 1
    ensures DateOf(n).year >= 1
    ensures n < DayNumber(d) <= n + 366 * k + DaysBeforeMonth(d.year, d.month) + d.day - 1
    ensures DateOf(DayNumber(d)) == d
  {
    NumberOfDate(n);
    WithinYear(DateOf(n));
    WithinYear(d);
    YearMonotone(DateOf(n).year + 1, d.year);
    YearMonotone(DateOf(n).year, d.year);
    DateOfNumber(d);
  }
}
