/** Calendar values standing in for Python's `datetime.date` and `datetime.time`:
    proleptic Gregorian dates in the years 1..9999, and times of day to the minute.
    Out-of-range constructor arguments, which raise `ValueError` in Python, give `None`. */
module Calendar {
  import opened Wrappers

  const MinYear: int := 1
  const MaxYear: int := 9999

  datatype Date = Date(year: int, month: int, day: int)
  datatype Time = Time(hour: int, minute: int)

  const FirstDate: Date := Date(MinYear, 1, 1)
  const LastDate: Date := Date(MaxYear, 12, 31)

  predicate IsLeapYear(y: int) {
    y % 4 == 0 && (y % 100 != 0 || y % 400 == 0)
  }

  function DaysInMonth(y: int, m: int): (n: int)
    requires 1 <= m <= 12
    ensures 28 <= n <= 31
    ensures m == 2 ==> (n == 29 <==> IsLeapYear(y))
  {
    if m == 2 then (if IsLeapYear(y) then 29 else 28)
    else if m == 4 || m == 6 || m == 9 || m == 11 then 30
    else 31
  }

  predicate ValidDate(d: Date) {
    MinYear <= d.year <= MaxYear && 1 <= d.month <= 12 && 1 <= d.day <= DaysInMonth(d.year, d.month)
  }

  predicate ValidTime(t: Time) {
    0 <= t.hour <= 23 && 0 <= t.minute <= 59
  }

  /** `datetime.date(y, m, d)`; `None` is the `ValueError` it raises. */
  function MakeDate(y: int, m: int, d: int): (r: Option<Date>)
    ensures r.Some? <==> ValidDate(Date(y, m, d))
    ensures r.Some? ==> r.value == Date(y, m, d)
  {
    if ValidDate(Date(y, m, d)) then Some(Date(y, m, d)) else None
  }

  /** `datetime.time(h, m)`; `None` is the `ValueError` it raises. */
  function MakeTime(h: int, m: int): (r: Option<Time>)
    ensures r.Some? <==> ValidTime(Time(h, m))
    ensures r.Some? ==> r.value == Time(h, m)
  {
    if ValidTime(Time(h, m)) then Some(Time(h, m)) else None
  }

  /** Python's `a < b` on dates: lexicographic on (year, month, day). */
  predicate Before(a: Date, b: Date) {
    a.year < b.year
    || (a.year == b.year && a.month < b.month)
    || (a.year == b.year && a.month == b.month && a.day < b.day)
  }

  /** Python's `a <= b` on dates. */
  predicate NotAfter(a: Date, b: Date) {
    a == b || Before(a, b)
  }

  /** `d + timedelta(days=1)`; Python raises `OverflowError` past the last date. */
  function NextDay(d: Date): (r: Date)
    requires ValidDate(d) && d != LastDate
    ensures ValidDate(r) && Before(d, r)
    ensures forall c :: ValidDate(c) && Before(d, c) ==> NotAfter(r, c)
  {
    if d.day < DaysInMonth(d.year, d.month) then Date(d.year, d.month, d.day + 1)
    else if d.month < 12 then Date(d.year, d.month + 1, 1)
    else Date(d.year + 1, 1, 1)
  }

  /** `d - timedelta(days=1)`; Python raises `OverflowError` before the first date. */
  function PrevDay(d: Date): (r: Date)
    requires ValidDate(d) && d != FirstDate
    ensures ValidDate(r) && r != LastDate && NextDay(r) == d
  {
    if d.day > 1 then Date(d.year, d.month, d.day - 1)
    else if d.month > 1 then Date(d.year, d.month - 1, DaysInMonth(d.year, d.month - 1))
    else Date(d.year - 1, 12, 31)
  }

  function DaysBeforeYear(y: int): int {
    var p := y - 1;
    365 * p + p / 4 - p / 100 + p / 400
  }

  function DaysBeforeMonth(y: int, m: int): int
    requires 1 <= m <= 13
  {
    if m == 1 then 0 else DaysBeforeMonth(y, m - 1) + DaysInMonth(y, m - 1)
  }

  /** Python's `date.toordinal()`: 0001-01-01 is day 1. */
  function Ordinal(d: Date): int
    requires ValidDate(d)
  {
    DaysBeforeYear(d.year) + DaysBeforeMonth(d.year, d.month) + d.day
  }

  /** Python's `date.isoweekday()`: Monday is 1 and Sunday is 7 (0001-01-01 was a Monday). */
  function IsoWeekday(d: Date): (w: int)
    requires ValidDate(d)
    ensures 1 <= w <= 7
  {
    WeekdayOf(Ordinal(d))
  }

  /** The weekday of day number `o`, counting 0001-01-01 as a Monday. */
  function WeekdayOf(o: int): (w: int)
    ensures 1 <= w <= 7
  {
    (o - 1) % 7 + 1
  }

  /** A year has 365 days, 366 in a leap year. */
  lemma YearDays(y: int)
    ensures DaysBeforeMonth(y, 13) == if IsLeapYear(y) then 366 else 365
  {
    assert DaysBeforeMonth(y, 2) == 31;
    assert DaysBeforeMonth(y, 3) == 31 + DaysInMonth(y, 2);
    assert DaysBeforeMonth(y, 4) == 62 + DaysInMonth(y, 2);
    assert DaysBeforeMonth(y, 5) == 92 + DaysInMonth(y, 2);
    assert DaysBeforeMonth(y, 6) == 123 + DaysInMonth(y, 2);
    assert DaysBeforeMonth(y, 7) == 153 + DaysInMonth(y, 2);
    assert DaysBeforeMonth(y, 8) == 184 + DaysInMonth(y, 2);
    assert DaysBeforeMonth(y, 9) == 215 + DaysInMonth(y, 2);
    assert DaysBeforeMonth(y, 10) == 245 + DaysInMonth(y, 2);
    assert DaysBeforeMonth(y, 11) == 276 + DaysInMonth(y, 2);
    assert DaysBeforeMonth(y, 12) == 306 + DaysInMonth(y, 2);
  }

  /** Counting multiples of 4, 100 and 400: going from `y - 1` to `y` adds one exactly when
      the number divides `y`. */
  lemma MultiplesOf4(y: int)
    ensures y / 4 - (y - 1) / 4 == if y % 4 == 0 then 1 else 0
  {
    var q, r := (y - 1) / 4, (y - 1) % 4;
    if r == 4 - 1 {
      assert y == 4 * (q + 1);
    } else {
      assert y == 4 * q + (r + 1);
    }
  }

  lemma MultiplesOf100(y: int)
    ensures y / 100 - (y - 1) / 100 == if y % 100 == 0 then 1 else 0
  {
    var q, r := (y - 1) / 100, (y - 1) % 100;
    if r == 100 - 1 {
      assert y == 100 * (q + 1);
    } else {
      assert y == 100 * q + (r + 1);
    }
  }

  lemma MultiplesOf400(y: int)
    ensures y / 400 - (y - 1) / 400 == if y % 400 == 0 then 1 else 0
  {
    var q, r := (y - 1) / 400, (y - 1) % 400;
    if r == 400 - 1 {
      assert y == 400 * (q + 1);
    } else {
      assert y == 400 * q + (r + 1);
    }
  }

  /** 400 divides only multiples of 100, and 100 only multiples of 4. */
  lemma Multiple400Is100(y: int)
    requires y % 400 == 0
    ensures y % 100 == 0
  {
    var t := 4 * (y / 400);
    assert y == 100 * t;
  }

  lemma Multiple100Is4(y: int)
    requires y % 100 == 0
    ensures y % 4 == 0
  {
    var t := 25 * (y / 100);
    assert y == 4 * t;
  }

  lemma YearLength(y: int)
    ensures DaysBeforeYear(y + 1) == DaysBeforeYear(y) + DaysBeforeMonth(y, 13)
  {
    YearDays(y);
    MultiplesOf4(y);
    MultiplesOf100(y);
    MultiplesOf400(y);
    if y % 400 == 0 {
      Multiple400Is100(y);
    }
    if y % 100 == 0 {
      Multiple100Is4(y);
    }
  }

  lemma {:induction false} MonthsMonotone(y: int, m: int, n: int)
    requires 1 <= m <= n <= 13
    ensures DaysBeforeMonth(y, m) <= DaysBeforeMonth(y, n)
    decreases n - m
  {
    if m < n {
      MonthsMonotone(y, m, n - 1);
    }
  }

  lemma {:induction false} YearsMonotone(y: int, z: int)
    requires y <= z
    ensures DaysBeforeYear(y) <= DaysBeforeYear(z)
    decreases z - y
  {
    if y < z {
      YearsMonotone(y, z - 1);
      YearLength(z - 1);
    }
  }

  /** Stepping to the next day adds exactly one to the ordinal. */
  lemma OrdinalNext(d: Date)
    requires ValidDate(d) && d != LastDate
    ensures Ordinal(NextDay(d)) == Ordinal(d) + 1
  {
    if d.day == DaysInMonth(d.year, d.month) && d.month == 12 {
      YearLength(d.year);
    }
  }

  /** Every date of an earlier year has a smaller ordinal than any date of a later year. */
  lemma EarlierYear(x: Date, y: Date)
    requires ValidDate(x) && ValidDate(y) && x.year < y.year
    ensures Ordinal(x) < Ordinal(y)
  {
    MonthsMonotone(x.year, x.month + 1, 13);
    YearLength(x.year);
    YearsMonotone(x.year + 1, y.year);
    MonthsMonotone(y.year, 1, y.month);
  }

  /** A later date has a larger ordinal. */
  lemma OrdinalIncreasing(x: Date, y: Date)
    requires ValidDate(x) && ValidDate(y) && Before(x, y)
    ensures Ordinal(x) < Ordinal(y)
  {
    if x.year < y.year {
      EarlierYear(x, y);
    } else if x.month < y.month {
      MonthsMonotone(x.year, x.month + 1, y.month);
    }
  }

  /** The ordinal numbering agrees with Python's ordering of dates. */
  lemma OrdinalOrder(a: Date, b: Date)
    requires ValidDate(a) && ValidDate(b)
    ensures Before(a, b) <==> Ordinal(a) < Ordinal(b)
    ensures a == b <==> Ordinal(a) == Ordinal(b)
  {
    if Before(a, b) {
      OrdinalIncreasing(a, b);
    } else if Before(b, a) {
      OrdinalIncreasing(b, a);
    }
  }

  lemma WeekdayStep(o: int)
    ensures WeekdayOf(o + 1) == WeekdayOf(o) % 7 + 1
  {
    var w := (o - 1) % 7;
    assert o - 1 == 7 * ((o - 1) / 7) + w;
    if w < 6 {
      assert o == 7 * ((o - 1) / 7) + (w + 1);
    } else {
      assert o == 7 * ((o - 1) / 7 + 1);
    }
  }

  /** Each next day falls on the next weekday, Sunday wrapping to Monday. */
  lemma WeekdayNext(d: Date)
    requires ValidDate(d) && d != LastDate
    ensures IsoWeekday(NextDay(d)) == IsoWeekday(d) % 7 + 1
  {
    var o := Ordinal(d);
    OrdinalNext(d);
    WeekdayStep(o);
  }

  /** `d + timedelta(days=n)`; `None` is the `OverflowError` raised when the result
      leaves the years 1..9999. */
  function AddDays(d: Date, n: int): (r: Option<Date>)
    requires ValidDate(d)
    ensures r.Some? <==> 1 <= Ordinal(d) + n <= Ordinal(LastDate)
    ensures r.Some? ==> ValidDate(r.value) && Ordinal(r.value) == Ordinal(d) + n
    decreases if n < 0 then -n else n
  {
    OrdinalOrder(d, LastDate);
    OrdinalOrder(FirstDate, d);
    if n == 0 then Some(d)
    else if n > 0 then
      if d == LastDate then None
      else
        OrdinalNext(d);
        AddDays(NextDay(d), n - 1)
    else
      if d == FirstDate then None
      else
        OrdinalNext(PrevDay(d));
        AddDays(PrevDay(d), n + 1)
  }
}
