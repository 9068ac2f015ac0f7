/** The date-column grammar of `DateParser`: clauses `I D* ','` where an interval `I`
    (`August -- September`, `January 18-21`) is followed by day filters `D`. */
module DateGrammar {
  import opened Wrappers
  import opened Calendar
  import opened Tokens
  import opened Cursor
  import opened DayFilters
  import opened DateRange

  const Dashes: seq<Kind> := [DASH, DOUBLE_DASH]

  /** The months and days an interval names, before they become dates. */
  datatype Span = Span(startMonth: int, startDay: int, endMonth: int, endDay: int)

  /** The reading part of `I`: `MONTH [DAY [dash [MONTH] DAY]]` or `MONTH [dash MONTH]`.
      A start day alone ends on itself; no day means the whole month(s), ending on the
      last day of the end month. */
  function SpanAt(st: seq<Token>, pos: nat, year: int): (r: Parse<Span>)
    requires IsStream(st) && pos < |st|
    ensures r.Parsed? ==> pos < r.next < |st|
    ensures r.Parsed? ==> 1 <= r.value.startMonth <= 12 && 1 <= r.value.endMonth <= 12
  {
    if st[pos].kind != MONTH then Failed(ParseError(st[pos], [MONTH]))
    else
      var sm := st[pos].value.n;
      var p := pos + 1;
      if st[p].kind == DAY then
        var sd := st[p].value.n;
        if st[p + 1].kind in Dashes then
          var spans := st[p + 2].kind == MONTH;
          var em := if spans then st[p + 2].value.n else sm;
          var q := if spans then p + 3 else p + 2;
          if st[q].kind != DAY then Failed(ParseError(st[q], [DAY]))
          else Parsed(Span(sm, sd, em, st[q].value.n), q + 1)
        else Parsed(Span(sm, sd, sm, sd), p + 1)
      else if st[p].kind in Dashes then
        if st[p + 1].kind != MONTH then Failed(ParseError(st[p + 1], [MONTH]))
        else
          var em := st[p + 1].value.n;
          Parsed(Span(sm, 1, em, DaysInMonth(year, em)), p + 2)
      else Parsed(Span(sm, 1, sm, DaysInMonth(year, sm)), p)
  }

  // The forms of an interval, for any months and days

  /** An interval must start with a month. */
  lemma SpanNeedsMonth(st: seq<Token>, pos: nat, year: int)
    requires IsStream(st) && pos < |st| && st[pos].kind != MONTH
    ensures SpanAt(st, pos, year) == Failed(ParseError(st[pos], [MONTH]))
  {
  }

  /** `MONTH` followed by neither a day nor a dash: the whole month. */
  lemma SpanWholeMonth(st: seq<Token>, pos: nat, year: int)
    requires IsStream(st) && pos + 1 < |st|
    requires st[pos].kind == MONTH && st[pos + 1].kind !in [DAY, DASH, DOUBLE_DASH]
    ensures var m := st[pos].value.n;
            SpanAt(st, pos, year) == Parsed(Span(m, 1, m, DaysInMonth(year, m)), pos + 1)
  {
  }

  /** `MONTH dash MONTH`: from the first of one month to the last day of the other. */
  lemma SpanMonthRange(st: seq<Token>, pos: nat, year: int)
    requires IsStream(st) && pos + 2 < |st|
    requires st[pos].kind == MONTH && st[pos + 1].kind in Dashes && st[pos + 2].kind == MONTH
    ensures var m1, m2 := st[pos].value.n, st[pos + 2].value.n;
            SpanAt(st, pos, year) == Parsed(Span(m1, 1, m2, DaysInMonth(year, m2)), pos + 3)
  {
  }

  /** A dash after a bare month must be followed by a month: `expect(['MONTH'])` raises
      at whatever comes instead. */
  lemma SpanMonthDashNeedsMonth(st: seq<Token>, pos: nat, year: int)
    requires IsStream(st) && pos + 2 < |st|
    requires st[pos].kind == MONTH && st[pos + 1].kind in Dashes && st[pos + 2].kind != MONTH
    ensures SpanAt(st, pos, year) == Failed(ParseError(st[pos + 2], [MONTH]))
  {
  }

  /** `MONTH DAY` with no dash after it: that one day. */
  lemma SpanOneDay(st: seq<Token>, pos: nat, year: int)
    requires IsStream(st) && pos + 2 < |st|
    requires st[pos].kind == MONTH && st[pos + 1].kind == DAY && st[pos + 2].kind !in Dashes
    ensures var m, d := st[pos].value.n, st[pos + 1].value.n;
            SpanAt(st, pos, year) == Parsed(Span(m, d, m, d), pos + 2)
  {
  }

  /** `MONTH DAY dash DAY`: a run of days within the month. */
  lemma SpanDayRange(st: seq<Token>, pos: nat, year: int)
    requires IsStream(st) && pos + 3 < |st|
    requires st[pos].kind == MONTH && st[pos + 1].kind == DAY && st[pos + 2].kind in Dashes && st[pos + 3].kind == DAY
    ensures var m, d1, d2 := st[pos].value.n, st[pos + 1].value.n, st[pos + 3].value.n;
            SpanAt(st, pos, year) == Parsed(Span(m, d1, m, d2), pos + 4)
  {
  }

  /** `MONTH DAY dash MONTH DAY`: a run of days from a day of one month to a day of
      another. */
  lemma SpanAcrossMonths(st: seq<Token>, pos: nat, year: int)
    requires IsStream(st) && pos + 4 < |st|
    requires st[pos].kind == MONTH && st[pos + 1].kind == DAY && st[pos + 2].kind in Dashes
    requires st[pos + 3].kind == MONTH && st[pos + 4].kind == DAY
    ensures var m1, d1 := st[pos].value.n, st[pos + 1].value.n;
            var m2, d2 := st[pos + 3].value.n, st[pos + 4].value.n;
            SpanAt(st, pos, year) == Parsed(Span(m1, d1, m2, d2), pos + 5)
  {
  }

  /** After `MONTH DAY dash` and an optional month, a day must follow: `expect(['DAY'])`
      raises at whatever comes instead. */
  lemma SpanNeedsEndDay(st: seq<Token>, pos: nat, year: int, q: nat)
    requires IsStream(st) && pos + 3 < |st|
    requires st[pos].kind == MONTH && st[pos + 1].kind == DAY && st[pos + 2].kind in Dashes
    requires q == if st[pos + 3].kind == MONTH then pos + 4 else pos + 3
    requires q < |st| && st[q].kind != DAY
    ensures SpanAt(st, pos, year) == Failed(ParseError(st[q], [DAY]))
  {
  }

  /** `I`: every date from the span's start to its end in `year`; `ValueError` when either
      end is not a date, `OverflowError` when the walk reaches 9999-12-31. */
  function IntervalAt(st: seq<Token>, pos: nat, year: int): (r: Parse<seq<Date>>)
    requires IsStream(st) && pos < |st|
    ensures r.Parsed? ==> pos < r.next < |st|
    ensures r.Parsed? ==> forall d <- r.value :: ValidDate(d) && d.year == year
  {
    match SpanAt(st, pos, year)
    case Failed(f) => Failed(f)
    case Parsed(sp, next) =>
      match (MakeDate(year, sp.startMonth, sp.startDay), MakeDate(year, sp.endMonth, sp.endDay))
      case (Some(s), Some(e)) =>
        if NotAfter(s, e) && e == LastDate then Failed(DateOverflow)
        else Parsed(DatesBetween(s, e), next)
      case _ => Failed(InvalidDate)
  }

  /** `D`: `DAY [dash DAY]`, `WEEKDAY [dash WEEKDAY]`, or nothing at all (keep every date,
      reading no token). A weekday range ending on Saturday from another day never stops. */
  function DayFilterAt(st: seq<Token>, pos: nat): (r: Parse<DayFilter>)
    requires IsStream(st) && pos < |st|
    ensures r.Parsed? ==> pos <= r.next < |st|
    ensures r.Parsed? && r.next == pos ==> r.value == AlwaysTrue
  {
    var t := st[pos];
    if t.kind == DAY then
      if st[pos + 1].kind in Dashes then
        if st[pos + 2].kind != DAY then Failed(ParseError(st[pos + 2], [DAY]))
        else Parsed(DayRange(t.value.n, st[pos + 2].value.n), pos + 3)
      else Parsed(DayEq(t.value.n), pos + 1)
    else if t.kind == WEEKDAY then
      if st[pos + 1].kind in Dashes then
        if st[pos + 2].kind != WEEKDAY then Failed(ParseError(st[pos + 2], [WEEKDAY]))
        else
          var s := t.value.n;
          var e := st[pos + 2].value.n;
          if !WalkEnds(s, e) then Failed(Diverges)
          else Parsed(WeekdaySet(Walk(s, e)), pos + 3)
      else Parsed(WeekdaySet({t.value.n}), pos + 1)
    else Parsed(AlwaysTrue, pos)
  }

  /** The filter loop of `dates`: read `D` until `check([',', 'END'])` succeeds. A `D`
      that reads nothing in front of any other token repeats forever. */
  function ClauseFilters(st: seq<Token>, pos: nat): (r: Parse<seq<DayFilter>>)
    requires IsStream(st) && pos < |st|
    ensures r.Parsed? ==> pos <= r.next < |st| && |r.value| > 0
    decreases |st| - pos
  {
    match DayFilterAt(st, pos)
    case Failed(f) => Failed(f)
    case Parsed(f, p) =>
      if st[p].kind in [COMMA, END] then Parsed([f], Advance(st, p))
      else if p == pos then Failed(Diverges)
      else Prepend([f], ClauseFilters(st, p))
  }

  predicate AnyHolds(filters: seq<DayFilter>, d: Date)
    requires ValidDate(d)
  {
    exists k :: 0 <= k < |filters| && Holds(filters[k], d)
  }

  /** The dates of an interval that some filter of the clause keeps, in order, each once. */
  function Select(dates: seq<Date>, filters: seq<DayFilter>): (r: seq<Date>)
    requires forall d <- dates :: ValidDate(d)
    ensures forall d <- r :: d in dates && AnyHolds(filters, d)
    ensures |r| <= |dates|
  {
    if dates == [] then []
    else
      var last := dates[|dates| - 1];
      Select(dates[..|dates| - 1], filters) + (if AnyHolds(filters, last) then [last] else [])
  }

  /** Every date of the interval that a filter keeps is selected. */
  lemma {:induction false} SelectKeeps(dates: seq<Date>, filters: seq<DayFilter>)
    requires forall d <- dates :: ValidDate(d)
    ensures forall d <- dates :: AnyHolds(filters, d) ==> d in Select(dates, filters)
  {
    if dates != [] {
      var init := dates[..|dates| - 1];
      SelectKeeps(init, filters);
      assert dates == init + [dates[|dates| - 1]];
    }
  }

  /** Selection keeps the interval's order. */
  lemma {:induction false} SelectAscending(dates: seq<Date>, filters: seq<DayFilter>)
    requires forall d <- dates :: ValidDate(d)
    requires Ascending(dates)
    ensures Ascending(Select(dates, filters))
  {
    if dates != [] {
      var init := dates[..|dates| - 1];
      var last := dates[|dates| - 1];
      SelectAscending(init, filters);
      var r := Select(dates, filters);
      var s := Select(init, filters);
      forall i, j | 0 <= i < j < |r| ensures Before(r[i], r[j]) {
        if j < |s| {
          assert r[i] == s[i] && r[j] == s[j];
        } else {
          assert r[j] == last;
          assert r[i] in init;
        }
      }
    }
  }

  /** `dates`: the selected dates of every clause, clause after clause, until END. */
  function DatesFrom(st: seq<Token>, pos: nat, year: int): (r: Parse<seq<Date>>)
    requires IsStream(st) && pos < |st|
    ensures r.Parsed? ==> pos < r.next < |st| && st[r.next].kind == END
    ensures r.Parsed? ==> forall d <- r.value :: ValidDate(d) && d.year == year
    decreases |st| - pos
  {
    match IntervalAt(st, pos, year)
    case Failed(f) => Failed(f)
    case Parsed(interval, p) =>
      match ClauseFilters(st, p)
      case Failed(f) => Failed(f)
      case Parsed(filters, q) =>
        var chosen := Select(interval, filters);
        if st[q].kind == END then Parsed(chosen, q)
        else Prepend(chosen, DatesFrom(st, q, year))
  }

  /** An interval's dates are exactly the dates of `year` from the start of its span to
      the end, in ascending order. */
  lemma IntervalContents(st: seq<Token>, pos: nat, year: int)
    requires IsStream(st) && pos < |st| && IntervalAt(st, pos, year).Parsed?
    ensures var sp := SpanAt(st, pos, year).value;
            forall x :: x in IntervalAt(st, pos, year).value
              <==> ValidDate(x) && NotAfter(Date(year, sp.startMonth, sp.startDay), x)
                   && NotAfter(x, Date(year, sp.endMonth, sp.endDay))
    ensures Ascending(IntervalAt(st, pos, year).value)
  {
    var sp := SpanAt(st, pos, year).value;
    DatesBetweenContents(Date(year, sp.startMonth, sp.startDay), Date(year, sp.endMonth, sp.endDay));
  }

  /** How `I` turns a span into dates, when both ends are dates and the last date of all
      is not reached. */
  lemma IntervalFromSpan(st: seq<Token>, pos: nat, year: int, sp: Span, next: nat)
    requires IsStream(st) && pos < |st| && SpanAt(st, pos, year) == Parsed(sp, next)
    requires ValidDate(Date(year, sp.startMonth, sp.startDay)) && ValidDate(Date(year, sp.endMonth, sp.endDay))
    requires Date(year, sp.endMonth, sp.endDay) != LastDate
    ensures IntervalAt(st, pos, year)
            == Parsed(DatesBetween(Date(year, sp.startMonth, sp.startDay), Date(year, sp.endMonth, sp.endDay)), next)
  {
  }

  /** `MONTH DAY dash MONTH DAY` lists exactly the valid dates from the first day to the
      second, across the months between them. */
  lemma IntervalAcrossMonths(st: seq<Token>, pos: nat, year: int)
    requires IsStream(st) && pos + 4 < |st|
    requires st[pos].kind == MONTH && st[pos + 1].kind == DAY && st[pos + 2].kind in Dashes
    requires st[pos + 3].kind == MONTH && st[pos + 4].kind == DAY
    requires IntervalAt(st, pos, year).Parsed?
    ensures var first := Date(year, st[pos].value.n, st[pos + 1].value.n);
            var last := Date(year, st[pos + 3].value.n, st[pos + 4].value.n);
            IntervalAt(st, pos, year).next == pos + 5
            && forall x :: x in IntervalAt(st, pos, year).value <==> ValidDate(x) && NotAfter(first, x) && NotAfter(x, last)
  {
    SpanAcrossMonths(st, pos, year);
    IntervalContents(st, pos, year);
  }

  /** A single clause running to END yields the dates of its interval its filters keep. */
  lemma SingleClause(st: seq<Token>, pos: nat, year: int, dates: seq<Date>, p: nat, filters: seq<DayFilter>, q: nat)
    requires IsStream(st) && pos < |st| && IntervalAt(st, pos, year) == Parsed(dates, p)
    requires ClauseFilters(st, p) == Parsed(filters, q) && st[q].kind == END
    ensures DatesFrom(st, pos, year) == Parsed(Select(dates, filters), q)
  {
  }

  lemma FourDaysOfJanuary(year: int)
    requires MinYear <= year <= MaxYear
    ensures DatesBetween(Date(year, 1, 18), Date(year, 1, 21))
            == [Date(year, 1, 18), Date(year, 1, 19), Date(year, 1, 20), Date(year, 1, 21)]
  {
    var e := Date(year, 1, 21);
    DatesBetweenStep(Date(year, 1, 18), e);
    DatesBetweenStep(Date(year, 1, 19), e);
    DatesBetweenStep(Date(year, 1, 20), e);
    DatesBetweenStep(Date(year, 1, 21), e);
    DatesBetweenEmpty(Date(year, 1, 22), e);
  }

  lemma DayRangeClause(st: seq<Token>, year: int)
    requires st == [Token(MONTH, Num(1)), Token(DAY, Num(18)), Token(DASH, Blank), Token(DAY, Num(21)), EndToken]
    requires MinYear <= year <= MaxYear
    ensures SpanAt(st, 0, year) == Parsed(Span(1, 18, 1, 21), 4)
    ensures ClauseFilters(st, 4) == Parsed([AlwaysTrue], 4)
  {
    assert DayFilterAt(st, 4) == Parsed(AlwaysTrue, 4);
  }

  /** `January 18-21`: the four days, in order. */
  lemma DayRangeExample(st: seq<Token>, year: int)
    requires st == [Token(MONTH, Num(1)), Token(DAY, Num(18)), Token(DASH, Blank), Token(DAY, Num(21)), EndToken]
    requires MinYear <= year <= MaxYear
    ensures DatesFrom(st, 0, year)
              == Parsed([Date(year, 1, 18), Date(year, 1, 19), Date(year, 1, 20), Date(year, 1, 21)], 4)
  {
    var s, e := Date(year, 1, 18), Date(year, 1, 21);
    DayRangeClause(st, year);
    IntervalFromSpan(st, 0, year, Span(1, 18, 1, 21), 4);
    FourDaysOfJanuary(year);
    SelectAll(DatesBetween(s, e));
    SingleClause(st, 0, year, DatesBetween(s, e), 4, [AlwaysTrue], 4);
  }

  /** A clause without filters keeps every date. */
  lemma AlwaysKeeps(d: Date)
    requires ValidDate(d)
    ensures AnyHolds([AlwaysTrue], d)
  {
    assert Holds([AlwaysTrue][0], d);
  }

  lemma {:induction false} SelectAll(dates: seq<Date>)
    requires forall d <- dates :: ValidDate(d)
    ensures Select(dates, [AlwaysTrue]) == dates
  {
    if dates != [] {
      var init, last := dates[..|dates| - 1], dates[|dates| - 1];
      SelectAll(init);
      AlwaysKeeps(last);
      assert Select(dates, [AlwaysTrue]) == Select(init, [AlwaysTrue]) + [last];
      assert init + [last] == dates;
    }
  }

  /** A single clause running to END yields exactly the dates between its span's ends that
      one of its filters keeps. */
  lemma SingleClauseMembers(st: seq<Token>, pos: nat, year: int, sp: Span, next: nat, filters: seq<DayFilter>, q: nat)
    requires IsStream(st) && pos < |st| && SpanAt(st, pos, year) == Parsed(sp, next)
    requires ValidDate(Date(year, sp.startMonth, sp.startDay)) && ValidDate(Date(year, sp.endMonth, sp.endDay))
    requires Date(year, sp.endMonth, sp.endDay) != LastDate
    requires ClauseFilters(st, next) == Parsed(filters, q) && st[q].kind == END
    ensures DatesFrom(st, pos, year).Parsed? && DatesFrom(st, pos, year).next == q
    ensures forall x :: x in DatesFrom(st, pos, year).value
              <==> ValidDate(x) && NotAfter(Date(year, sp.startMonth, sp.startDay), x)
                   && NotAfter(x, Date(year, sp.endMonth, sp.endDay)) && AnyHolds(filters, x)
  {
    var s, e := Date(year, sp.startMonth, sp.startDay), Date(year, sp.endMonth, sp.endDay);
    IntervalFromSpan(st, pos, year, sp, next);
    DatesBetweenContents(s, e);
    SelectKeeps(DatesBetween(s, e), filters);
    SingleClause(st, pos, year, DatesBetween(s, e), next, filters, q);
  }

  lemma MonthRangeClause(st: seq<Token>, year: int)
    requires st == [Token(MONTH, Num(8)), Token(DOUBLE_DASH, Blank), Token(MONTH, Num(9)), EndToken]
    requires MinYear <= year <= MaxYear
    ensures SpanAt(st, 0, year) == Parsed(Span(8, 1, 9, 30), 3)
    ensures ClauseFilters(st, 3) == Parsed([AlwaysTrue], 3)
  {
    assert DayFilterAt(st, 3) == Parsed(AlwaysTrue, 3);
  }

  /** `August -- September`: every day of both months. */
  lemma MonthRangeExample(st: seq<Token>, year: int)
    requires st == [Token(MONTH, Num(8)), Token(DOUBLE_DASH, Blank), Token(MONTH, Num(9)), EndToken]
    requires MinYear <= year <= MaxYear
    ensures DatesFrom(st, 0, year).Parsed? && DatesFrom(st, 0, year).next == 3
    ensures forall x :: x in DatesFrom(st, 0, year).value <==> ValidDate(x) && x.year == year && 8 <= x.month <= 9
  {
    MonthRangeClause(st, year);
    SingleClauseMembers(st, 0, year, Span(8, 1, 9, 30), 3, [AlwaysTrue], 3);
    forall x | ValidDate(x) ensures AnyHolds([AlwaysTrue], x) {
      AlwaysKeeps(x);
    }
    forall x | ValidDate(x)
      ensures NotAfter(Date(year, 8, 1), x) && NotAfter(x, Date(year, 9, 30)) <==> x.year == year && 8 <= x.month <= 9
    {
      SummerMonths(x, year);
    }
  }

  lemma SummerMonths(x: Date, year: int)
    requires ValidDate(x)
    ensures NotAfter(Date(year, 8, 1), x) && NotAfter(x, Date(year, 9, 30)) <==> x.year == year && 8 <= x.month <= 9
  {
  }

  /** `January M-F`: the weekdays of January. */
  lemma WeekdaysExample(st: seq<Token>, year: int)
    requires st == [Token(MONTH, Num(1)), Token(WEEKDAY, Num(2)), Token(DASH, Blank), Token(WEEKDAY, Num(6)), EndToken]
    requires MinYear <= year <= MaxYear
    ensures DatesFrom(st, 0, year).Parsed? && DatesFrom(st, 0, year).next == 4
    ensures forall x :: x in DatesFrom(st, 0, year).value
              <==> ValidDate(x) && x.year == year && x.month == 1 && 1 <= IsoWeekday(x) <= 5
  {
    var f := WeekdaySet(Walk(2, 6));
    WeekdaysClause(st, year);
    SingleClauseMembers(st, 0, year, Span(1, 1, 1, 31), 1, [f], 4);
    JanuaryWeekdays(DatesFrom(st, 0, year).value, year);
  }

  lemma JanuaryWeekdays(dates: seq<Date>, year: int)
    requires forall x :: x in dates
               <==> ValidDate(x) && NotAfter(Date(year, 1, 1), x)
                    && NotAfter(x, Date(year, 1, 31)) && AnyHolds([WeekdaySet(Walk(2, 6))], x)
    ensures forall x :: x in dates
              <==> ValidDate(x) && x.year == year && x.month == 1 && 1 <= IsoWeekday(x) <= 5
  {
    var f := WeekdaySet(Walk(2, 6));
    forall x ensures x in dates <==> ValidDate(x) && x.year == year && x.month == 1 && 1 <= IsoWeekday(x) <= 5 {
      if ValidDate(x) {
        OneFilter(f, x);
        MondayToFriday(x);
      }
    }
  }

  lemma WeekdaysClause(st: seq<Token>, year: int)
    requires st == [Token(MONTH, Num(1)), Token(WEEKDAY, Num(2)), Token(DASH, Blank), Token(WEEKDAY, Num(6)), EndToken]
    requires MinYear <= year <= MaxYear
    ensures SpanAt(st, 0, year) == Parsed(Span(1, 1, 1, 31), 1)
    ensures ClauseFilters(st, 1) == Parsed([WeekdaySet(Walk(2, 6))], 4)
  {
    assert DayFilterAt(st, 1) == Parsed(WeekdaySet(Walk(2, 6)), 4);
  }

  lemma OneFilter(f: DayFilter, x: Date)
    requires ValidDate(x)
    ensures AnyHolds([f], x) <==> Holds(f, x)
  {
    assert [f][0] == f;
  }

  lemma TrailingCommaClause(st: seq<Token>, year: int)
    requires st == [Token(MONTH, Num(1)), Token(DAY, Num(5)), Token(COMMA, Blank), EndToken]
    requires MinYear <= year <= MaxYear
    ensures SpanAt(st, 0, year) == Parsed(Span(1, 5, 1, 5), 2)
    ensures ClauseFilters(st, 2) == Parsed([AlwaysTrue], 3)
  {
    assert DayFilterAt(st, 2) == Parsed(AlwaysTrue, 2);
  }

  /** A span from a date to itself holds that date alone. */
  lemma OneDay(d: Date)
    requires ValidDate(d) && d != LastDate
    ensures DatesBetween(d, d) == [d]
  {
    DatesBetweenStep(d, d);
    DatesBetweenEmpty(NextDay(d), d);
  }

  /** `January 5,`: a trailing comma is accepted. */
  lemma TrailingCommaExample(st: seq<Token>, year: int)
    requires st == [Token(MONTH, Num(1)), Token(DAY, Num(5)), Token(COMMA, Blank), EndToken]
    requires MinYear <= year <= MaxYear
    ensures DatesFrom(st, 0, year) == Parsed([Date(year, 1, 5)], 3)
  {
    var d := Date(year, 1, 5);
    TrailingCommaClause(st, year);
    OneDay(d);
    IntervalFromSpan(st, 0, year, Span(1, 5, 1, 5), 2);
    SelectAll([d]);
    SingleClause(st, 0, year, [d], 2, [AlwaysTrue], 3);
  }

  /** A clause that does not run to END is followed by the clauses after it. */
  lemma NextClause(st: seq<Token>, pos: nat, year: int, dates: seq<Date>, p: nat, filters: seq<DayFilter>, q: nat)
    requires IsStream(st) && pos < |st| && IntervalAt(st, pos, year) == Parsed(dates, p)
    requires ClauseFilters(st, p) == Parsed(filters, q) && st[q].kind != END
    ensures DatesFrom(st, pos, year) == Prepend(Select(dates, filters), DatesFrom(st, q, year))
  {
  }

  lemma RepeatedClauseFirst(st: seq<Token>, year: int)
    requires st == [Token(MONTH, Num(1)), Token(DAY, Num(5)), Token(COMMA, Blank), Token(MONTH, Num(1)), Token(DAY, Num(5)), EndToken]
    requires MinYear <= year <= MaxYear
    ensures SpanAt(st, 0, year) == Parsed(Span(1, 5, 1, 5), 2)
    ensures ClauseFilters(st, 2) == Parsed([AlwaysTrue], 3)
  {
    assert DayFilterAt(st, 2) == Parsed(AlwaysTrue, 2);
  }

  lemma RepeatedClauseSecond(st: seq<Token>, year: int)
    requires st == [Token(MONTH, Num(1)), Token(DAY, Num(5)), Token(COMMA, Blank), Token(MONTH, Num(1)), Token(DAY, Num(5)), EndToken]
    requires MinYear <= year <= MaxYear
    ensures SpanAt(st, 3, year) == Parsed(Span(1, 5, 1, 5), 5)
    ensures ClauseFilters(st, 5) == Parsed([AlwaysTrue], 5)
  {
    assert DayFilterAt(st, 5) == Parsed(AlwaysTrue, 5);
  }

  /** The first clause of `January 5, January 5` selects its one day and stops at the comma. */
  lemma RepeatedClauseHead(st: seq<Token>, year: int)
    requires st == [Token(MONTH, Num(1)), Token(DAY, Num(5)), Token(COMMA, Blank), Token(MONTH, Num(1)), Token(DAY, Num(5)), EndToken]
    requires MinYear <= year <= MaxYear
    ensures IntervalAt(st, 0, year) == Parsed([Date(year, 1, 5)], 2)
    ensures ClauseFilters(st, 2) == Parsed([AlwaysTrue], 3)
  {
    var d := Date(year, 1, 5);
    RepeatedClauseFirst(st, year);
    OneDay(d);
    IntervalFromSpan(st, 0, year, Span(1, 5, 1, 5), 2);
  }

  /** The second clause selects the same day and runs to END. */
  lemma RepeatedClauseTail(st: seq<Token>, year: int)
    requires st == [Token(MONTH, Num(1)), Token(DAY, Num(5)), Token(COMMA, Blank), Token(MONTH, Num(1)), Token(DAY, Num(5)), EndToken]
    requires MinYear <= year <= MaxYear
    ensures DatesFrom(st, 3, year) == Parsed([Date(year, 1, 5)], 5)
  {
    var d := Date(year, 1, 5);
    RepeatedClauseSecond(st, year);
    OneDay(d);
    IntervalFromSpan(st, 3, year, Span(1, 5, 1, 5), 5);
    SelectAll([d]);
    SingleClause(st, 3, year, [d], 5, [AlwaysTrue], 5);
  }

  /** `January 5, January 5`: clauses are concatenated in order, and a date two clauses
      both select is listed twice. */
  lemma RepeatedClauseExample(st: seq<Token>, year: int)
    requires st == [Token(MONTH, Num(1)), Token(DAY, Num(5)), Token(COMMA, Blank), Token(MONTH, Num(1)), Token(DAY, Num(5)), EndToken]
    requires MinYear <= year <= MaxYear
    ensures DatesFrom(st, 0, year) == Parsed([Date(year, 1, 5), Date(year, 1, 5)], 5)
  {
    RepeatedClauseHead(st, year);
    RepeatedClauseTail(st, year);
    TwoClauses(st, year, Date(year, 1, 5));
  }

  /** A first clause that keeps its one date, then a rest that yields the same date. */
  lemma TwoClauses(st: seq<Token>, year: int, d: Date)
    requires IsStream(st) && |st| > 3 && ValidDate(d) && st[3].kind != END
    requires IntervalAt(st, 0, year) == Parsed([d], 2) && ClauseFilters(st, 2) == Parsed([AlwaysTrue], 3)
    requires DatesFrom(st, 3, year) == Parsed([d], 5)
    ensures DatesFrom(st, 0, year) == Parsed([d, d], 5)
  {
    SelectAll([d]);
    NextClause(st, 0, year, [d], 2, [AlwaysTrue], 3);
    assert [d] + [d] == [d, d];
  }

  /** `January 5 February 3`: without a comma between the clauses `D` reads nothing in
      front of `February` again and again, and the program never returns. */
  lemma MissingCommaExample(year: int)
    requires MinYear <= year <= MaxYear
    ensures var st := [Token(MONTH, Num(1)), Token(DAY, Num(5)), Token(MONTH, Num(2)), Token(DAY, Num(3)), EndToken];
            DatesFrom(st, 0, year) == Failed(Diverges)
  {
    var st := [Token(MONTH, Num(1)), Token(DAY, Num(5)), Token(MONTH, Num(2)), Token(DAY, Num(3)), EndToken];
    assert SpanAt(st, 0, year) == Parsed(Span(1, 5, 1, 5), 2);
    assert ClauseFilters(st, 2) == Failed(Diverges);
  }

  /** `January 5, 7`: a clause after a comma must start with a month. */
  lemma ClauseNeedsMonthExample(year: int)
    requires MinYear <= year <= MaxYear
    ensures var st := [Token(MONTH, Num(1)), Token(DAY, Num(5)), Token(COMMA, Blank), Token(DAY, Num(7)), EndToken];
            DatesFrom(st, 0, year) == Failed(ParseError(Token(DAY, Num(7)), [MONTH]))
  {
    var st := [Token(MONTH, Num(1)), Token(DAY, Num(5)), Token(COMMA, Blank), Token(DAY, Num(7)), EndToken];
    assert SpanAt(st, 0, year) == Parsed(Span(1, 5, 1, 5), 2);
    assert ClauseFilters(st, 2) == Parsed([AlwaysTrue], 3);
    assert SpanAt(st, 3, year) == Failed(ParseError(Token(DAY, Num(7)), [MONTH]));
  }

  /** `January M-Sat`: a weekday range ending on Saturday never finishes its walk. */
  lemma SaturdayEndExample(year: int)
    requires MinYear <= year <= MaxYear
    ensures var st := [Token(MONTH, Num(1)), Token(WEEKDAY, Num(2)), Token(DASH, Blank), Token(WEEKDAY, Num(7)), EndToken];
            DatesFrom(st, 0, year) == Failed(Diverges)
  {
    var st := [Token(MONTH, Num(1)), Token(WEEKDAY, Num(2)), Token(DASH, Blank), Token(WEEKDAY, Num(7)), EndToken];
    assert SpanAt(st, 0, year) == Parsed(Span(1, 1, 1, 31), 1);
    assert DayFilterAt(st, 1) == Failed(Diverges);
  }

  /** `February 30`: a day the month does not have is Python's `ValueError`. */
  lemma NoSuchDayExample(year: int)
    requires MinYear <= year <= MaxYear
    ensures var st := [Token(MONTH, Num(2)), Token(DAY, Num(30)), EndToken];
            DatesFrom(st, 0, year) == Failed(InvalidDate)
  {
    var st := [Token(MONTH, Num(2)), Token(DAY, Num(30)), EndToken];
    assert SpanAt(st, 0, year) == Parsed(Span(2, 30, 2, 30), 2);
  }

  /** `DateParser`: a `Parser` over the scanned date column, reading dates of `year`
      (the program's `shared.today.year`). */
  class DateParser {
    const cursor: Parser
    const year: int

    ghost predicate Valid()
      reads this, cursor
    {
      cursor.Valid() && MinYear <= year <= MaxYear
    }

    constructor (tokens: seq<Token>, year: int)
      requires forall t <- tokens :: t.kind != END && WellShaped(t)
      requires MinYear <= year <= MaxYear
      ensures Valid() && cursor.stream == tokens + [EndToken] && cursor.pos == 0 && this.year == year
      ensures fresh(cursor)
    {
      cursor := new Parser(tokens);
      this.year := year;
    }

    /** The reading part of `I`: the months and days of one interval. */
    method ReadSpan() returns (r: Outcome<Span>)
      requires Valid()
      modifies cursor
      ensures Valid()
      ensures Agrees(r, SpanAt(cursor.stream, old(cursor.pos), year), cursor.pos)
    {
      var startMonth := cursor.Expect([MONTH]);
      if startMonth.Err? {
        return Err(startMonth.failure);
      }
      var sm := startMonth.value.n;
      var isNumeric, startDay := cursor.Accept([DAY]);
      if isNumeric {
        var sd := startDay.value.n;
        var dashed := cursor.Check(Dashes);
        if dashed {
          var spansMonths, endMonth := cursor.Accept([MONTH]);
          var em := if spansMonths then endMonth.value.n else sm;
          var endDay := cursor.Expect([DAY]);
          if endDay.Err? {
            return Err(endDay.failure);
          }
          return Ok(Span(sm, sd, em, endDay.value.n));
        }
        return Ok(Span(sm, sd, sm, sd));
      }
      var em;
      var dashed := cursor.Check(Dashes);
      if dashed {
        var endMonth := cursor.Expect([MONTH]);
        if endMonth.Err? {
          return Err(endMonth.failure);
        }
        em := endMonth.value.n;
      } else {
        em := sm;
      }
      var ed := LastDay(year, em);
      return Ok(Span(sm, 1, em, ed));
    }

    /** The loop of `I`: `while start <= end: append start; start += 1 day`, where the
        step past 9999-12-31 raises `OverflowError`. */
    static method DaysFrom(s: Date, e: Date) returns (r: Outcome<seq<Date>>)
      requires ValidDate(s) && ValidDate(e)
      ensures r == if NotAfter(s, e) && e == LastDate then Err(DateOverflow) else Ok(DatesBetween(s, e))
    {
      var result: seq<Date> := [];
      var day := s;
      while NotAfter(day, e)
        invariant ValidDate(day) && NotAfter(s, day)
        invariant result + DatesBetween(day, e) == DatesBetween(s, e)
        decreases Ordinal(e) - Ordinal(day) + 1
      {
        if day == LastDate {
          OverflowAtEnd(s, day, e);
          return Err(DateOverflow);
        }
        OrdinalOrder(day, e);
        OrdinalNext(day);
        DatesBetweenShift(result, day, s, e);
        result := result + [day];
        day := NextDay(day);
      }
      LastDateIsLast(day);
      DatesBetweenEmpty(day, e);
      assert result + [] == result;
      return Ok(result);
    }

    /** `I`: the dates of one interval, in order. */
    method Interval() returns (r: Outcome<seq<Date>>)
      requires Valid()
      modifies cursor
      ensures Valid()
      ensures Agrees(r, IntervalAt(cursor.stream, old(cursor.pos), year), cursor.pos)
    {
      var span := ReadSpan();
      if span.Err? {
        return Err(span.failure);
      }
      var sp := span.value;
      var start := MakeDate(year, sp.startMonth, sp.startDay);
      var end := MakeDate(year, sp.endMonth, sp.endDay);
      if start.None? || end.None? {
        return Err(InvalidDate);
      }
      r := DaysFrom(start.value, end.value);
    }

    /** `D`: one day filter. */
    method DayFilter() returns (r: Outcome<DayFilter>)
      requires Valid()
      modifies cursor
      ensures Valid()
      ensures Agrees(r, DayFilterAt(cursor.stream, old(cursor.pos)), cursor.pos)
    {
      var isNumeric, start := cursor.Accept([DAY]);
      if isNumeric {
        var dashed := cursor.Check(Dashes);
        if dashed {
          var end := cursor.Expect([DAY]);
          if end.Err? {
            return Err(end.failure);
          }
          return Ok(DayRange(start.value.n, end.value.n));
        }
        return Ok(DayEq(start.value.n));
      }
      var isWeekday, startWeekday := cursor.Accept([WEEKDAY]);
      if !isWeekday {
        return Ok(AlwaysTrue);
      }
      var s := startWeekday.value.n;
      var included: set<int>;
      var dashed := cursor.Check(Dashes);
      if dashed {
        var end := cursor.Expect([WEEKDAY]);
        if end.Err? {
          return Err(end.failure);
        }
        var e := end.value.n;
        if !WalkEnds(s, e) {
          // the program's walk counts modulo 7 and never meets Saturday's 7
          return Err(Diverges);
        }
        included := WalkWeekdays(s, e);
      } else {
        included := {s};
      }
      return Ok(WeekdaySet(included));
    }

    /** The weekday walk of `D`: add `s`, step `s` to `(s + 1) % 7`, until `s` is `e`;
        then add `e`. */
    static method WalkWeekdays(s: int, e: int) returns (included: set<int>)
      requires 1 <= s <= 7 && 1 <= e <= 7 && WalkEnds(s, e)
      ensures included == Walk(s, e)
    {
      included := {};
      var w := s;
      while w != e
        invariant 0 <= w <= 7 && WalkEnds(w, e)
        invariant included + Walk(w, e) == Walk(s, e)
        decreases Forward(w, e)
      {
        WalkStep(w, e);
        included := included + {w};
        w := (w + 1) % 7;
      }
      included := included + {e};
    }

    /** The filter loop of `dates`. */
    method Filters() returns (r: Outcome<seq<DayFilter>>)
      requires Valid()
      modifies cursor
      ensures Valid()
      ensures Agrees(r, ClauseFilters(cursor.stream, old(cursor.pos)), cursor.pos)
    {
      ghost var st := cursor.stream;
      ghost var pos0 := cursor.pos;
      var filters: seq<DayFilter> := [];
      assert Prepend(filters, ClauseFilters(st, pos0)) == ClauseFilters(st, pos0) by {
        if ClauseFilters(st, pos0).Parsed? {
          assert filters + ClauseFilters(st, pos0).value == ClauseFilters(st, pos0).value;
        }
      }
      while true
        invariant Valid() && cursor.stream == st
        invariant Prepend(filters, ClauseFilters(st, cursor.pos)) == ClauseFilters(st, pos0)
        decreases |st| - cursor.pos
      {
        var before := cursor.pos;
        var f := DayFilter();
        if f.Err? {
          return Err(f.failure);
        }
        var done := cursor.Check([COMMA, END]);
        if done {
          return Ok(filters + [f.value]);
        }
        if cursor.pos == before {
          // `D` read nothing and will read nothing again: the loop never ends
          return Err(Diverges);
        }
        PrependTwice(filters, [f.value], ClauseFilters(st, cursor.pos));
        filters := filters + [f.value];
      }
    }

    /** The yielding loop of `dates`: each date of the interval that some filter keeps. */
    method Choose(interval: seq<Date>, filters: seq<DayFilter>) returns (chosen: seq<Date>)
      requires forall d <- interval :: ValidDate(d)
      ensures chosen == Select(interval, filters)
    {
      chosen := [];
      var i := 0;
      while i < |interval|
        invariant 0 <= i <= |interval|
        invariant chosen == Select(interval[..i], filters)
      {
        var d := interval[i];
        assert interval[..i + 1][..i] == interval[..i];
        var j := 0;
        var kept := false;
        while j < |filters| && !kept
          invariant 0 <= j <= |filters|
          invariant kept <==> j > 0 && Holds(filters[j - 1], d)
          invariant forall k :: 0 <= k < j - 1 ==> !Holds(filters[k], d)
          invariant !kept ==> forall k :: 0 <= k < j ==> !Holds(filters[k], d)
        {
          kept := Holds(filters[j], d);
          j := j + 1;
        }
        if kept {
          chosen := chosen + [d];
        }
        i := i + 1;
      }
      assert interval[..i] == interval;
    }

    /** `dates`: the dates of all clauses, or the first failure. */
    method Dates() returns (r: Outcome<seq<Date>>)
      requires Valid()
      modifies cursor
      ensures Valid()
      ensures Agrees(r, DatesFrom(cursor.stream, old(cursor.pos), year), cursor.pos)
    {
      ghost var st := cursor.stream;
      ghost var pos0 := cursor.pos;
      var acc: seq<Date> := [];
      assert Prepend(acc, DatesFrom(st, pos0, year)) == DatesFrom(st, pos0, year) by {
        if DatesFrom(st, pos0, year).Parsed? {
          assert acc + DatesFrom(st, pos0, year).value == DatesFrom(st, pos0, year).value;
        }
      }
      while true
        invariant Valid() && cursor.stream == st
        invariant Prepend(acc, DatesFrom(st, cursor.pos, year)) == DatesFrom(st, pos0, year)
        decreases |st| - cursor.pos
      {
        ghost var here := cursor.pos;
        var interval := Interval();
        if interval.Err? {
          return Err(interval.failure);
        }
        var filters := Filters();
        if filters.Err? {
          return Err(filters.failure);
        }
        var chosen := Choose(interval.value, filters.value);
        var finished := cursor.Check([END]);
        if finished {
          return Ok(acc + chosen);
        }
        PrependTwice(acc, chosen, DatesFrom(st, cursor.pos, year));
        acc := acc + chosen;
      }
    }
  }
}
