/**
 Proleptic Gregorian calendar dates as Python represents them: a `date` is a
 day ordinal, 1 being 0001-01-01 and 3652059 being 9999-12-31. Adding a
 `timedelta` that leaves this range raises OverflowError.
 */
module Calendar {
  import opened Wrappers

  const MaxYear := 9999
  /** The ordinal of 9999-12-31 (`date.max.toordinal()`). */
  const MaxOrdinal := 3652059

  /** A calendar date, as its day ordinal. */
  type Day = d: int | 1 <= d <= MaxOrdinal witness 1

  /** `d + timedelta(days=n)`; None where Python raises OverflowError. */
  function AddDays(d: Day, n: int): (r: Option<Day>)
    ensures r.Some? <==> 1 <= d + n <= MaxOrdinal
    ensures r.Some? ==> r.value - d == n
  {
    if 1 <= d + n <= MaxOrdinal then Some(d + n) else None
  }

  predicate IsLeap(y: int) {
    y % 4 == 0 && (y % 100 != 0 || y % 400 == 0)
  }

  function DaysInYear(y: int): int {
    if IsLeap(y) then 366 else 365
  }

  /** Days in the years 1 .. y-1 (Python's `_days_before_year`). */
  function DaysBeforeYear(y: int): int
    requires y >= 1
  {
    var p := y - 1;
    p * 365 + p / 4 - p / 100 + p / 400
  }

  const DaysInMonthTable: seq<int> := [-1, 31, 28, 31, 30, 31, 30, 31, 31, 30, 31, 30, 31]
  const DaysBeforeMonthTable: seq<int> := [-1, 0, 31, 59, 90, 120, 151, 181, 212, 243, 273, 304, 334]

  function DaysInMonth(y: int, m: int): int
    requires 1 <= m <= 12
  {
    if m == 2 && IsLeap(y) then 29 else DaysInMonthTable[m]
  }

  /** Days in the months 1 .. m-1 of year y (Python's `_days_before_month`). */
  function DaysBeforeMonth(y: int, m: int): int
    requires 1 <= m <= 12
  {
    DaysBeforeMonthTable[m] + (if m > 2 && IsLeap(y) then 1 else 0)
  }

  /** A year-month-day triple that names a real date between 0001-01-01 and 9999-12-31. */
  predicate ValidCivil(y: int, m: int, d: int) {
    1 <= y <= MaxYear && 1 <= m <= 12 && 1 <= d <= DaysInMonth(y, m)
  }

  datatype Civil = Civil(year: int, month: int, day: int)

  /** Python's `_ymd2ord`. */
  function ToOrdinal(c: Civil): int
    requires ValidCivil(c.year, c.month, c.day)
  {
    DaysBeforeYear(c.year) + DaysBeforeMonth(c.year, c.month) + c.day
  }

  lemma YearStep(y: int)
    requires y >= 1
    ensures DaysBeforeYear(y + 1) == DaysBeforeYear(y) + DaysInYear(y)
  {
    var p := y - 1;
    DivStep(p, 4);
    DivStep(p, 100);
    DivStep(p, 400);
    MultipleOfMultiple(y, 4, 25);
    MultipleOfMultiple(y, 100, 4);
    assert (p + 1) * 365 == p * 365 + 365;
  }

  /** A multiple of k * j is a multiple of k. */
  lemma MultipleOfMultiple(n: int, k: int, j: int)
    requires k > 0 && j > 0
    ensures n % (k * j) == 0 ==> n % k == 0
  {
    if n % (k * j) == 0 {
      var q := n / (k * j);
      assert n == (q * j) * k;
      DivUnique(n, k, q * j, 0);
    }
  }

  /** Counting multiples of k up to p + 1 adds one exactly when p + 1 is one. */
  lemma DivStep(p: int, k: int)
    requires p >= 0 && k > 0
    ensures (p + 1) / k == p / k + (if (p + 1) % k == 0 then 1 else 0)
  {
    var q, m := p / k, p % k;
    assert p == q * k + m && 0 <= m < k;
    if m == k - 1 {
      DivUnique(p + 1, k, q + 1, 0);
    } else {
      DivUnique(p + 1, k, q, m + 1);
    }
  }

  /** Euclidean quotient and remainder are the only such pair. */
  lemma DivUnique(n: int, k: int, q: int, m: int)
    requires k > 0 && n == q * k + m && 0 <= m < k
    ensures n / k == q && n % k == m
  {
    var q', m' := n / k, n % k;
    assert n == q' * k + m' && 0 <= m' < k;
    if q' > q {
      assert q' * k >= (q + 1) * k by { MulMonotone(q + 1, q', k); }
    } else if q' < q {
      assert q * k >= (q' + 1) * k by { MulMonotone(q' + 1, q, k); }
    }
  }

  lemma MulMonotone(a: int, b: int, k: int)
    requires a <= b && k > 0
    ensures a * k <= b * k
  {
    assert b * k - a * k == (b - a) * k;
  }

  lemma MonthStep(y: int, m: int)
    requires 1 <= m < 12
    ensures DaysBeforeMonth(y, m + 1) == DaysBeforeMonth(y, m) + DaysInMonth(y, m)
  {
  }

  lemma YearEnd(y: int)
    ensures DaysBeforeMonth(y, 12) + DaysInMonth(y, 12) == DaysInYear(y)
  {
  }

  /** Days before a later year are never fewer. */
  lemma {:induction false} DaysBeforeYearMonotone(a: int, b: int)
    requires 1 <= a <= b
    ensures DaysBeforeYear(a) <= DaysBeforeYear(b)
    decreases b - a
  {
    if a < b {
      YearStep(a);
      DaysBeforeYearMonotone(a + 1, b);
    }
  }

  lemma {:induction false} DaysBeforeMonthMonotone(y: int, a: int, b: int)
    requires 1 <= a <= b <= 12
    ensures DaysBeforeMonth(y, a) <= DaysBeforeMonth(y, b)
    decreases b - a
  {
    if a < b {
      MonthStep(y, a);
      DaysBeforeMonthMonotone(y, a + 1, b);
    }
  }

  /** The year containing ordinal n, searched upward from y. */
  function YearOf(n: int, y: int): (r: int)
    requires 1 <= y <= MaxYear
    requires DaysBeforeYear(y) < n <= DaysBeforeYear(MaxYear + 1)
    ensures y <= r <= MaxYear
    ensures DaysBeforeYear(r) < n <= DaysBeforeYear(r + 1)
    decreases MaxYear - y
  {
    if n <= DaysBeforeYear(y + 1) then y else YearOf(n, y + 1)
  }

  /** The month of year y containing day-of-year k, searched upward from m. */
  function MonthOf(y: int, k: int, m: int): (r: int)
    requires 1 <= m <= 12
    requires DaysBeforeMonth(y, m) < k <= DaysInYear(y)
    ensures m <= r <= 12
    ensures DaysBeforeMonth(y, r) < k <= DaysBeforeMonth(y, r) + DaysInMonth(y, r)
    decreases 12 - m
  {
    if k <= DaysBeforeMonth(y, m) + DaysInMonth(y, m) then m
    else
      MonthStep(y, m);
      YearEnd(y);
      MonthOf(y, k, m + 1)
  }

  /** Python's `_ord2ymd`: the calendar date of an ordinal. */
  function FromOrdinal(n: Day): (c: Civil)
    ensures ValidCivil(c.year, c.month, c.day)
    ensures ToOrdinal(c) == n
  {
    var y := YearOf(n, 1);
    YearStep(y);
    var k := n - DaysBeforeYear(y);
    var m := MonthOf(y, k, 1);
    Civil(y, m, k - DaysBeforeMonth(y, m))
  }

  /** Two years whose day ranges both contain n are the same year. */
  lemma YearUnique(n: int, y1: int, y2: int)
    requires 1 <= y1 && 1 <= y2
    requires DaysBeforeYear(y1) < n <= DaysBeforeYear(y1 + 1)
    requires DaysBeforeYear(y2) < n <= DaysBeforeYear(y2 + 1)
    ensures y1 == y2
  {
    if y1 < y2 {
      DaysBeforeYearMonotone(y1 + 1, y2);
    } else if y2 < y1 {
      DaysBeforeYearMonotone(y2 + 1, y1);
    }
  }

  lemma MonthUnique(y: int, k: int, m1: int, m2: int)
    requires 1 <= m1 <= 12 && 1 <= m2 <= 12
    requires DaysBeforeMonth(y, m1) < k <= DaysBeforeMonth(y, m1) + DaysInMonth(y, m1)
    requires DaysBeforeMonth(y, m2) < k <= DaysBeforeMonth(y, m2) + DaysInMonth(y, m2)
    ensures m1 == m2
  {
    if m1 < m2 {
      MonthStep(y, m1);
      DaysBeforeMonthMonotone(y, m1 + 1, m2);
    } else if m2 < m1 {
      MonthStep(y, m2);
      DaysBeforeMonthMonotone(y, m2 + 1, m1);
    }
  }

  /** Every valid triple names an ordinal inside the `date` range. */
  lemma ToOrdinalInRange(c: Civil)
    requires ValidCivil(c.year, c.month, c.day)
    ensures 1 <= ToOrdinal(c) <= MaxOrdinal
  {
    YearStep(c.year);
    YearEnd(c.year);
    DaysBeforeMonthMonotone(c.year, c.month, 12);
    DaysBeforeYearMonotone(1, c.year);
    DaysBeforeYearMonotone(c.year + 1, MaxYear + 1);
  }

  /** The ordinal of a valid triple converts back to the same triple. */
  lemma CivilRoundTrip(c: Civil)
    requires ValidCivil(c.year, c.month, c.day)
    ensures 1 <= ToOrdinal(c) <= MaxOrdinal
    ensures FromOrdinal(ToOrdinal(c)) == c
  {
    ToOrdinalInRange(c);
    var n := ToOrdinal(c);
    var r := FromOrdinal(n);
    YearStep(c.year);
    YearEnd(c.year);
    DaysBeforeMonthMonotone(c.year, c.month, 12);
    YearUnique(n, r.year, c.year);
    var k := n - DaysBeforeYear(c.year);
    MonthUnique(c.year, k, r.month, c.month);
  }
}
