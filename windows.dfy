/** The state logic of the calendar's windows (windows.py): the date heading, the hour
    labels and event rows of the events window, scrolling it, and moving the selected day. */
module Windows {
  import opened Wrappers
  import opened Calendar
  import opened Numerals
  import Scanner
  import Days

  /** Weekday names, Monday first, as `calendar.day_name` lists them. */
  const DayNames: seq<string> := ["Monday", "Tuesday", "Wednesday", "Thursday", "Friday", "Saturday", "Sunday"]

  /** The position in `DayNames` that `render_date` picks: `(isoweekday() - 1 + 7) % 7`. */
  function WeekdayIndex(d: Date): (i: nat)
    requires ValidDate(d)
    ensures i < 7 && i == IsoWeekday(d) - 1
  {
    (IsoWeekday(d) - 1 + 7) % 7
  }

  /** `render_date`: "Weekday, Month Dsuffix". */
  function RenderDate(d: Date): (r: string)
    requires ValidDate(d)
    ensures |r| > |DayNames[IsoWeekday(d) - 1]| + 2
    ensures r[..|DayNames[IsoWeekday(d) - 1]|] == DayNames[IsoWeekday(d) - 1]
    ensures r[|r| - 2..] == Days.Suffix(d.day)
  {
    var name := DayNames[WeekdayIndex(d)];
    var r := name + ", " + Scanner.MonthsFull[d.month - 1] + " " + DecimalText(d.day) + Days.Suffix(d.day);
    assert r[..|name|] == name;
    r
  }

  /** The heading is the weekday's name, a comma, and the text of a `Day` for the same date. */
  lemma RenderDateParts(d: Date)
    requires ValidDate(d)
    ensures RenderDate(d) == DayNames[IsoWeekday(d) - 1] + ", " + Days.Repr(Days.NewDay(d))
  {
  }

  /** The heading of the next day names the next weekday, Sunday wrapping to Monday. */
  lemma RenderNextDay(d: Date)
    requires ValidDate(d) && d != LastDate
    ensures WeekdayIndex(NextDay(d)) == (WeekdayIndex(d) + 1) % 7
  {
    WeekdayNext(d);
  }

  /** The weekday is the true one: the first of January 2024 was a Monday. */
  lemma NewYear2024()
    ensures RenderDate(Date(2024, 1, 1)) == "Monday, January 1st"
  {
    var d := Date(2024, 1, 1);
    NewYear2024Monday(d);
    assert DecimalText(1) == "1";
    assert Days.Suffix(1) == "st";
  }

  lemma NewYear2024Monday(d: Date)
    requires d == Date(2024, 1, 1)
    ensures WeekdayIndex(d) == 0
  {
    assert Ordinal(d) == 738886;
  }

  /** `time(h).strftime("%I")`'s number: the hour on a 12-hour clock, where 0 and 12 are 12. */
  function Hour12(h: int): (r: int)
    requires 0 <= h <= 23
    ensures 1 <= r <= 12
    ensures r == 12 <==> h == 0 || h == 12
    ensures r < 12 ==> r == h % 12
  {
    if h % 12 == 0 then 12 else h % 12
  }

  /** One hour label: the `%I` field, the hour on a 12-hour clock padded to two digits,
      with its leading zeros stripped. */
  function HourLabel(h: int): (r: string)
    requires 0 <= h <= 23
    ensures |r| <= 2 && (r == [] || r[0] != '0')
  {
    LeftStripSpec(Pad2(Hour12(h)), '0');
    LeftStrip(Pad2(Hour12(h)), '0')
  }

  /** An hour label is the 12-hour number written without padding; midnight and noon are "12". */
  lemma HourLabelText(h: int)
    requires 0 <= h <= 23
    ensures HourLabel(h) == DecimalText(Hour12(h))
    ensures h == 0 || h == 12 ==> HourLabel(h) == "12"
  {
    var k := Hour12(h);
    var d := DecimalText(k);
    if k < 10 {
      assert Pad2(k) == "0" + d;
      assert ("0" + d)[1..] == d;
      assert LeftStrip("0" + d, '0') == LeftStrip(d, '0');
      assert d[0] != '0';
      assert LeftStrip(d, '0') == d;
    } else {
      assert Pad2(k) == d;
      assert LeftStrip(d, '0') == d;
    }
  }

  /** The events window: which hours it shows, and how minutes map to its lines. */
  class EventsWindow {
    /** First hour shown, 0..23; scrolling moves it. */
    var startOfView: int
    /** Last hour shown (inclusive); nothing changes it. */
    var endOfView: int

    const MinutesPerLine: int := 30
    /** The header takes lines 0 and 1, so events start on line 2. */
    const VertOffset: int := 2

    ghost predicate Valid()
      reads this
    {
      0 <= startOfView <= 23 && 0 <= endOfView <= 23
    }

    constructor()
      ensures Valid() && startOfView == 9 && endOfView == 23
    {
      startOfView := 9;
      endOfView := 23;
    }

    /** `hour_strings`: one label per hour from the first to the last hour shown, in order. */
    function HourStrings(): (r: seq<string>)
      reads this
      requires Valid()
      ensures |r| == if startOfView <= endOfView then endOfView - startOfView + 1 else 0
    {
      var first, count := startOfView, if startOfView <= endOfView then endOfView - startOfView + 1 else 0;
      seq(count, i requires 0 <= i < count => HourLabel(first + i))
    }

    /** `position_for_event`: the line on which an event starting at `start` begins, that is
        the number of whole half-hours from the top of the view, plus `offset`. */
    function PositionForEvent(start: Time, offset: int): (r: int)
      reads this
      ensures (r - offset) * MinutesPerLine <= (start.hour - startOfView) * 60 + start.minute
      ensures (start.hour - startOfView) * 60 + start.minute < (r - offset + 1) * MinutesPerLine
    {
      var inHours := start.hour - startOfView;
      var inMinutes := inHours * 60 + start.minute;
      inMinutes / MinutesPerLine + offset
    }

    /** `handle_keypress`: 'w' scrolls up one hour unless the view starts at 0, 's' scrolls
        down one unless it starts at 23; no other key does anything. */
    method HandleKeypress(key: int)
      requires Valid()
      modifies this
      ensures Valid()
      ensures endOfView == old(endOfView)
      ensures key == 'w' as int ==> startOfView == if old(startOfView) > 0 then old(startOfView) - 1 else 0
      ensures key == 's' as int ==> startOfView == if old(startOfView) < 23 then old(startOfView) + 1 else 23
      ensures key != 'w' as int && key != 's' as int ==> startOfView == old(startOfView)
    {
      if key == 'w' as int || key == 's' as int {
        if key == 'w' as int {
          if startOfView > 0 {
            startOfView := startOfView - 1;
          }
        }
        if key == 's' as int {
          if startOfView < 23 {
            startOfView := startOfView + 1;
          }
        }
      }
    }
  }

  /** Label `i` of the window is the 12-hour number of its `i`-th hour, unpadded. */
  lemma HourStringsText(w: EventsWindow, i: int)
    requires w.Valid() && 0 <= i < |w.HourStrings()|
    ensures w.HourStrings()[i] == DecimalText(Hour12(w.startOfView + i))
  {
    HourLabelText(w.startOfView + i);
  }

  /** An event starting on the hour is placed on the same line as that hour's label, which
      the window draws `60 / MinutesPerLine` lines below the previous label. */
  lemma HourRowsAlign(w: EventsWindow, i: int)
    requires 0 <= i && w.startOfView + i <= w.endOfView
    ensures w.PositionForEvent(Time(w.startOfView + i, 0), w.VertOffset) == w.VertOffset + i * (60 / w.MinutesPerLine)
  {
    assert i * 60 == 30 * (2 * i);
  }

  /** Events are placed in the order of their start times. */
  lemma PositionsInOrder(w: EventsWindow, a: Time, b: Time, offset: int)
    requires a.hour * 60 + a.minute <= b.hour * 60 + b.minute
    ensures w.PositionForEvent(a, offset) <= w.PositionForEvent(b, offset)
  {
  }

  /** An event that starts before the first hour shown lands above the first event line,
      and the window leaves its start text undrawn. */
  lemma EarlyEventsAbove(w: EventsWindow, start: Time)
    requires ValidTime(start) && start.hour < w.startOfView
    ensures w.PositionForEvent(start, w.VertOffset) < w.VertOffset
  {
  }

  /** The curses key codes of the arrow keys. */
  const KeyDown: int := 258
  const KeyUp: int := 259
  const KeyLeft: int := 260
  const KeyRight: int := 261

  /** How many days an arrow key moves the selection: a week up or down, a day left or right. */
  function KeyStep(key: int): (n: int)
    ensures key == KeyUp ==> n == -7
    ensures key == KeyDown ==> n == 7
    ensures key == KeyLeft ==> n == -1
    ensures key == KeyRight ==> n == 1
    ensures n == 0 <==> key !in {KeyUp, KeyDown, KeyLeft, KeyRight}
  {
    if key == KeyUp then -7
    else if key == KeyDown then 7
    else if key == KeyLeft then -1
    else if key == KeyRight then 1
    else 0
  }

  /** The month calendar: it owns the selected date. */
  class DaysWindow {
    var selected: Date

    ghost predicate Valid()
      reads this
    {
      ValidDate(selected)
    }

    constructor(start: Date)
      requires ValidDate(start)
      ensures Valid() && selected == start
    {
      selected := start;
    }

    /** `change_day`: moves the selection by `amount` days. `ok` is false for the
        `OverflowError` raised past the first or last representable date, and then the
        selection stays where it was. */
    method ChangeDay(amount: int) returns (ok: bool)
      requires Valid()
      modifies this
      ensures Valid()
      ensures ok <==> 1 <= Ordinal(old(selected)) + amount <= Ordinal(LastDate)
      ensures ok ==> Ordinal(selected) == Ordinal(old(selected)) + amount
      ensures !ok ==> selected == old(selected)
    {
      var moved := AddDays(selected, amount);
      if moved.Some? {
        selected := moved.value;
        ok := true;
      } else {
        ok := false;
      }
    }

    /** `handle_keypress`: an arrow key moves the selection by `KeyStep(key)` days; any
        other key leaves it alone. */
    method HandleKeypress(key: int) returns (ok: bool)
      requires Valid()
      modifies this
      ensures Valid()
      ensures ok <==> 1 <= Ordinal(old(selected)) + KeyStep(key) <= Ordinal(LastDate)
      ensures ok ==> Ordinal(selected) == Ordinal(old(selected)) + KeyStep(key)
      ensures !ok || KeyStep(key) == 0 ==> selected == old(selected)
    {
      var step := KeyStep(key);
      if step != 0 {
        ok := ChangeDay(step);
      } else {
        ok := true;
        OrdinalOrder(FirstDate, selected);
        OrdinalOrder(selected, LastDate);
      }
    }
  }

  /** Moving back by the same number of days undoes a move: Up undoes Down, Left undoes Right. */
  lemma MoveBack(d: Date, n: int)
    requires ValidDate(d) && AddDays(d, n).Some?
    ensures AddDays(AddDays(d, n).value, -n) == Some(d)
  {
    var e := AddDays(d, n).value;
    OrdinalOrder(FirstDate, d);
    OrdinalOrder(d, LastDate);
    var back := AddDays(e, -n);
    OrdinalOrder(back.value, d);
  }

  /** Up and Down keep the weekday: a move by whole weeks lands on the same weekday. */
  lemma WeeksKeepWeekday(d: Date, n: int)
    requires ValidDate(d) && n % 7 == 0 && AddDays(d, n).Some?
    ensures IsoWeekday(AddDays(d, n).value) == IsoWeekday(d)
  {
    var o := Ordinal(d);
    SameWeekday(o, n);
  }

  /** Day numbers whole weeks apart fall on the same weekday. */
  lemma SameWeekday(a: int, n: int)
    requires n % 7 == 0
    ensures WeekdayOf(a + n) == WeekdayOf(a)
  {
    var q := (a - 1) / 7;
    var w := (a - 1) % 7;
    assert a - 1 == 7 * q + w;
    assert n == 7 * (n / 7);
    assert a + n - 1 == 7 * (q + n / 7) + w;
  }

  /** Right moves to the next day. */
  lemma RightIsNextDay(d: Date)
    requires ValidDate(d) && d != LastDate
    ensures AddDays(d, KeyStep(KeyRight)) == Some(NextDay(d))
  {
    OrdinalNext(d);
    OrdinalOrder(d, LastDate);
    OrdinalOrder(AddDays(d, 1).value, NextDay(d));
  }
}
