/** The per-date tests `DateParser.D` returns as lambdas: a day of the month, a range of
    days, or a set of weekday numbers walked out from a weekday range. */
module DayFilters {
  import opened Calendar

  datatype DayFilter =
    | AlwaysTrue                    // `lambda date: True`, when neither a day nor a weekday follows
    | DayEq(day: int)               // `lambda date: date.day == start`
    | DayRange(lo: int, hi: int)    // `lambda date: start <= date.day <= end`
    | WeekdaySet(days: set<int>)    // `lambda date: (date.isoweekday() + 1 + 7) % 7 in included_weekdays`

  predicate Holds(f: DayFilter, d: Date)
    requires ValidDate(d)
  {
    match f
    case AlwaysTrue => true
    case DayEq(n) => d.day == n
    case DayRange(lo, hi) => lo <= d.day <= hi
    case WeekdaySet(days) => (IsoWeekday(d) + 1 + 7) % 7 in days
  }

  /** A date's weekday in the scanner's numbering: Sunday 1, Monday 2, ..., Saturday 7. */
  function TokenWeekday(d: Date): (w: int)
    requires ValidDate(d)
    ensures 1 <= w <= 7
    ensures w == 1 <==> IsoWeekday(d) == 7
    ensures 1 < w ==> w == IsoWeekday(d) + 1
  {
    TokenNumber(IsoWeekday(d))
  }

  /** The scanner's number for ISO weekday `i`. */
  function TokenNumber(i: int): (w: int)
    requires 1 <= i <= 7
    ensures 1 <= w <= 7
    ensures w == 1 <==> i == 7
    ensures 1 < w ==> w == i + 1
  {
    i % 7 + 1
  }

  /** How many steps forward round the week lead from `a` to `b`, for day numbers in 0..7
      (0 and 7 both stand for Saturday). */
  function Forward(a: int, b: int): (n: int)
    requires 0 <= a <= 7 && 0 <= b <= 7
    ensures 0 <= n < 7 && (b - a - n) % 7 == 0
  {
    var k := b - a;
    if k < 0 then k + 7 else if k == 7 then 0 else k
  }

  /** `x` lies on the way from `a` to `b` going forward round the week. */
  predicate InCycle(a: int, x: int, b: int)
    requires 0 <= a <= 7 && 0 <= x <= 7 && 0 <= b <= 7
  {
    Forward(a, x) <= Forward(a, b)
  }

  /** The weekday walk of `D` ends exactly when it starts at its end or the end is not
      Saturday (7): the walk counts modulo 7 and never comes back to 7. */
  predicate WalkEnds(s: int, e: int) {
    s == e || e != 7
  }

  /** The set `D` builds for a range `s - e`: `s`, then `(s + 1) % 7` and so on, then `e`. */
  function Walk(s: int, e: int): (r: set<int>)
    requires 0 <= s <= 7 && 1 <= e <= 7 && WalkEnds(s, e)
    ensures s in r && e in r
    decreases Forward(s, e)
  {
    if s == e then {e}
    else {s} + Walk((s + 1) % 7, e)
  }

  /** The walk's next day, `(s + 1) % 7`, is one step closer to `e`. */
  lemma WalkAdvances(s: int, e: int)
    requires 0 <= s <= 7 && 1 <= e <= 7 && WalkEnds(s, e) && s != e
    ensures WalkEnds((s + 1) % 7, e) && Forward((s + 1) % 7, e) < Forward(s, e)
  {
    var n := (s + 1) % 7;
    assert n == if s >= 6 then s - 6 else s + 1;
  }

  /** One step of the walk: the start, then the walk from the next day on. */
  lemma WalkStep(s: int, e: int)
    requires 0 <= s <= 7 && 1 <= e <= 7 && WalkEnds(s, e) && s != e
    ensures WalkEnds((s + 1) % 7, e) && Forward((s + 1) % 7, e) < Forward(s, e)
    ensures Walk(s, e) == {s} + Walk((s + 1) % 7, e)
  {
    WalkAdvances(s, e);
  }

  /** The days on the way from `s` to `e` are `s` and those on the way from the next day. */
  lemma CycleStep(s: int, x: int, e: int)
    requires 0 <= s <= 6 && 0 <= x <= 6 && 1 <= e <= 6 && s != e
    ensures InCycle(s, x, e) <==> x == s || InCycle((s + 1) % 7, x, e)
  {
    var t := (s + 1) % 7;
    assert t == if s == 6 then 0 else s + 1;
  }

  /** From a start in 0..6 the walk holds exactly the residues on the way to `e`. */
  lemma {:induction false} WalkResidues(s: int, e: int)
    requires 0 <= s <= 6 && 1 <= e <= 6
    ensures forall x :: x in Walk(s, e) ==> 0 <= x <= 6
    ensures forall x :: 0 <= x <= 6 ==> (x in Walk(s, e) <==> InCycle(s, x, e))
    decreases Forward(s, e)
  {
    if s != e {
      var t := (s + 1) % 7;
      WalkStep(s, e);
      WalkResidues(t, e);
      forall x | 0 <= x <= 6 ensures InCycle(s, x, e) <==> x == s || InCycle(t, x, e) {
        CycleStep(s, x, e);
      }
    }
  }

  /** The residue `D` tests is the token weekday, with Saturday's 7 read as 0. */
  lemma ResidueOfWeekday(d: Date)
    requires ValidDate(d)
    ensures (IsoWeekday(d) + 1 + 7) % 7 == if TokenWeekday(d) == 7 then 0 else TokenWeekday(d)
  {
    ResidueOfNumber(IsoWeekday(d));
  }

  lemma ResidueOfNumber(i: int)
    requires 1 <= i <= 7
    ensures (i + 1 + 7) % 7 == if TokenNumber(i) == 7 then 0 else TokenNumber(i)
  {
    assert (i + 1 + 7) % 7 == if i == 6 then 0 else if i == 7 then 1 else i + 1;
  }

  /** What a weekday filter `s` or `s - e` keeps: the days from `s` round to `e`, except
      that a Saturday start is never kept itself (Saturday's number 7 is never a residue). */
  lemma WeekdayRangeHolds(s: int, e: int, d: Date)
    requires 1 <= s <= 7 && 1 <= e <= 7 && WalkEnds(s, e) && ValidDate(d)
    ensures Holds(WeekdaySet(Walk(s, e)), d)
            <==> InCycle(s, TokenWeekday(d), e) && !(s == 7 && TokenWeekday(d) == 7)
  {
    var w := TokenWeekday(d);
    ResidueOfWeekday(d);
    if s == e {
    } else if s == 7 {
      WalkResidues(1, e);
      assert Walk(7, e) == {7} + Walk(1, e);
    } else {
      WalkResidues(s, e);
    }
  }

  /** `M-F` keeps Monday to Friday. */
  lemma MondayToFriday(d: Date)
    requires ValidDate(d)
    ensures Holds(WeekdaySet(Walk(2, 6)), d) <==> 1 <= IsoWeekday(d) <= 5
  {
    WeekdayRangeHolds(2, 6, d);
  }

  /** `F-M` wraps round the weekend: Friday, Saturday, Sunday and Monday. */
  lemma FridayToMonday(d: Date)
    requires ValidDate(d)
    ensures Holds(WeekdaySet(Walk(6, 2)), d) <==> IsoWeekday(d) in {5, 6, 7, 1}
  {
    WeekdayRangeHolds(6, 2, d);
  }

  /** A lone Saturday (`S`, `Sat`) keeps no date at all. */
  lemma LoneSaturday(d: Date)
    requires ValidDate(d)
    ensures !Holds(WeekdaySet({7}), d)
  {
    WeekdayRangeHolds(7, 7, d);
    assert Walk(7, 7) == {7};
  }

  /** A range starting on Saturday (`Sat-M`) keeps Sunday and Monday but not Saturday. */
  lemma SaturdayToMonday(d: Date)
    requires ValidDate(d)
    ensures Holds(WeekdaySet(Walk(7, 2)), d) <==> IsoWeekday(d) in {7, 1}
  {
    WeekdayRangeHolds(7, 2, d);
  }
}
