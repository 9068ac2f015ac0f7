/** The dates an interval `I` stands for: every date from its start to its end, and the
    last day of a month as `last_day` finds it. */
module DateRange {
  import opened Wrappers
  import opened Calendar

  predicate Ascending(ds: seq<Date>) {
    forall i, j :: 0 <= i < j < |ds| ==> Before(ds[i], ds[j])
  }

  /** The list `I` builds with `while start <= end: append start; start += 1 day`.
      Past 9999-12-31 Python raises instead; the list then stops at that date. */
  function DatesBetween(s: Date, e: Date): (r: seq<Date>)
    requires ValidDate(s) && ValidDate(e)
    ensures forall d <- r :: ValidDate(d) && NotAfter(s, d) && NotAfter(d, e)
    decreases Ordinal(e) - Ordinal(s)
  {
    if Before(e, s) then []
    else if s == LastDate then [s]
    else
      OrdinalOrder(s, e);
      OrdinalNext(s);
      [s] + DatesBetween(NextDay(s), e)
  }

  lemma DatesBetweenStep(s: Date, e: Date)
    requires ValidDate(s) && ValidDate(e) && NotAfter(s, e) && s != LastDate
    ensures DatesBetween(s, e) == [s] + DatesBetween(NextDay(s), e)
  {
  }

  lemma DatesBetweenEmpty(s: Date, e: Date)
    requires ValidDate(s) && ValidDate(e) && !NotAfter(s, e)
    ensures DatesBetween(s, e) == []
  {
  }

  /** One turn of the loop that builds the list: the day read moves from the rest to the
      list so far. */
  lemma DatesBetweenShift(acc: seq<Date>, day: Date, s: Date, e: Date)
    requires ValidDate(s) && ValidDate(day) && ValidDate(e) && NotAfter(day, e) && day != LastDate
    requires acc + DatesBetween(day, e) == DatesBetween(s, e)
    ensures (acc + [day]) + DatesBetween(NextDay(day), e) == DatesBetween(s, e)
  {
    DatesBetweenStep(day, e);
    assert acc + ([day] + DatesBetween(NextDay(day), e)) == (acc + [day]) + DatesBetween(NextDay(day), e);
  }

  /** The loop reaches 9999-12-31 only when the interval is not empty and ends there. */
  lemma OverflowAtEnd(s: Date, day: Date, e: Date)
    requires ValidDate(s) && ValidDate(e) && NotAfter(s, day) && NotAfter(day, e) && day == LastDate
    ensures NotAfter(s, e) && e == LastDate
  {
    LastDateIsLast(e);
  }

  lemma LastDateIsLast(d: Date)
    requires ValidDate(d)
    ensures NotAfter(d, LastDate)
  {
  }

  /** Element `i` is `i` days after the start, and there are as many as the days from the
      start to the end. */
  lemma {:induction false} DatesBetweenOrdinals(s: Date, e: Date)
    requires ValidDate(s) && ValidDate(e)
    ensures |DatesBetween(s, e)| == if Ordinal(e) < Ordinal(s) then 0 else Ordinal(e) - Ordinal(s) + 1
    ensures forall i :: 0 <= i < |DatesBetween(s, e)| ==> Ordinal(DatesBetween(s, e)[i]) == Ordinal(s) + i
    decreases Ordinal(e) - Ordinal(s)
  {
    OrdinalOrder(s, e);
    if Before(e, s) {
    } else if s == LastDate {
      LastDateIsLast(e);
      OrdinalOrder(e, LastDate);
    } else {
      OrdinalNext(s);
      DatesBetweenOrdinals(NextDay(s), e);
      var r := DatesBetween(s, e);
      assert r == [s] + DatesBetween(NextDay(s), e);
      forall i | 1 <= i < |r| ensures Ordinal(r[i]) == Ordinal(s) + i {
        assert r[i] == DatesBetween(NextDay(s), e)[i - 1];
      }
    }
  }

  /** A date is listed exactly when it lies between the start and the end, and the list
      is in ascending order: every date of the interval, once, in order. */
  lemma DatesBetweenContents(s: Date, e: Date)
    requires ValidDate(s) && ValidDate(e)
    ensures forall c :: c in DatesBetween(s, e) <==> ValidDate(c) && NotAfter(s, c) && NotAfter(c, e)
    ensures Ascending(DatesBetween(s, e))
  {
    var r := DatesBetween(s, e);
    DatesBetweenOrdinals(s, e);
    forall c | ValidDate(c) && NotAfter(s, c) && NotAfter(c, e) ensures c in r {
      OrdinalOrder(s, c);
      OrdinalOrder(c, e);
      var i := Ordinal(c) - Ordinal(s);
      OrdinalOrder(r[i], c);
    }
    forall i, j | 0 <= i < j < |r| ensures Before(r[i], r[j]) {
      OrdinalOrder(r[i], r[j]);
    }
  }

  /** `last_day`: tries 31, 30, 29 and 28 in turn and answers the first that makes a valid
      date in the given year; that is the month's length. */
  method LastDay(year: int, month: int) returns (day: int)
    requires MinYear <= year <= MaxYear && 1 <= month <= 12
    ensures day == DaysInMonth(year, month)
    ensures MakeDate(year, month, day).Some?
    ensures forall later :: day < later ==> MakeDate(year, month, later).None?
  {
    day := 31;
    while MakeDate(year, month, day).None?
      invariant DaysInMonth(year, month) <= day <= 31
      decreases day
    {
      day := day - 1;
    }
  }
}
