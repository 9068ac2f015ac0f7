/** The `Day` record (days.py): a date with its year, month and day copied out, the day's
    events, and the short text a day is shown by. */
module Days {
  import opened Calendar
  import opened Numerals
  import opened Wrappers
  import opened Tokens
  import Scanner

  /** The English ordinal suffix of a day number, chosen from its last digit, with 11, 12
      and 13 taking "th". `Day.__repr__` and `render_date` choose it the same way. */
  function Suffix(n: nat): (r: string)
    ensures |r| == 2
    ensures r == "st" <==> n % 10 == 1 && n != 11
    ensures r == "nd" <==> n % 10 == 2 && n != 12
    ensures r == "rd" <==> n % 10 == 3 && n != 13
    ensures r == "th" <==> !(n % 10 in {1, 2, 3} && n !in {11, 12, 13})
  {
    var last := n % 10;
    if last == 1 && n != 11 then "st"
    else if last == 2 && n != 12 then "nd"
    else if last == 3 && n != 13 then "rd"
    else "th"
  }

  /** How English ends the ordinals of the days of a month, 1st to 31st. */
  const DaySuffixes: seq<string> := [
    "st", "nd", "rd", "th", "th", "th", "th", "th", "th", "th",
    "th", "th", "th", "th", "th", "th", "th", "th", "th", "th",
    "st", "nd", "rd", "th", "th", "th", "th", "th", "th", "th", "st"]

  /** For every day a month can have, the suffix is the English one. */
  lemma SuffixIsEnglish(n: nat)
    requires 1 <= n <= 31
    ensures Suffix(n) == DaySuffixes[n - 1]
  {
    if n < 10 {
      assert n % 10 == n;
    } else if n < 20 {
      assert n % 10 == n - 10;
    } else if n < 30 {
      assert n % 10 == n - 20;
    } else {
      assert n % 10 == n - 30;
    }
  }

  /** The text of a day's number with its suffix reads back, through `parse_day`, as
      that number. */
  lemma OrdinalReadsBack(n: nat)
    ensures Scanner.ParseDay(DecimalText(n) + Suffix(n)) == Some(Token(DAY, Num(n)))
  {
    var t := DecimalText(n) + Suffix(n);
    assert !IsDigit(t[|t| - 1]);
    Scanner.ParseDaySuffix(DecimalText(n), Suffix(n));
  }

  /** A day: its date, the date's year, month and day, and its events by time. */
  datatype Day = Day(datetime: Date, yearNum: int, monthNum: int, dayNum: int, events: map<Time, string>)

  /** `Day(datetime)`: the fields copy the date's and there are no events yet. */
  function NewDay(d: Date): (r: Day)
    ensures r.datetime == d
    ensures r.yearNum == d.year && r.monthNum == d.month && r.dayNum == d.day
    ensures r.events == map[]
  {
    Day(d, d.year, d.month, d.day, map[])
  }

  /** `repr(day)`: the full month name, a space, then the day number with its suffix. */
  function Repr(day: Day): (r: string)
    requires 1 <= day.monthNum <= 12 && day.dayNum >= 0
    ensures |r| >= |Scanner.MonthsFull[day.monthNum - 1]| + 4
    ensures r[..|Scanner.MonthsFull[day.monthNum - 1]|] == Scanner.MonthsFull[day.monthNum - 1]
    ensures r[|r| - 2..] == Suffix(day.dayNum)
  {
    var name := Scanner.MonthsFull[day.monthNum - 1];
    var r := name + " " + DecimalText(day.dayNum) + Suffix(day.dayNum);
    assert r[..|name|] == name;
    r
  }

  /** The text of a new day for a date is its month's name, a space, its day number and
      the English suffix of that number. */
  lemma NewDayText(d: Date)
    requires ValidDate(d)
    ensures Repr(NewDay(d)) == Scanner.MonthsFull[d.month - 1] + " " + DecimalText(d.day) + DaySuffixes[d.day - 1]
  {
    SuffixIsEnglish(d.day);
  }

  /** What a new day is shown by reads back through the scanner's actions: the month name
      as the date's month, and the day with its suffix as the date's day. */
  lemma ReprReadsBack(d: Date)
    requires ValidDate(d)
    ensures Scanner.ParseMonth(Scanner.MonthsFull[d.month - 1]) == Some(Token(MONTH, Num(d.month)))
    ensures Scanner.ParseDay(DecimalText(d.day) + Suffix(d.day)) == Some(Token(DAY, Num(d.day)))
  {
    Scanner.MonthFullReadsBack(d.month - 1);
    OrdinalReadsBack(d.day);
  }
}
